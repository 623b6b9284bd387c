/** Where a DTS stream starts: a core frame followed by another frame, or an
    extension substream whose header checksum holds. */
module DtsProbe {
  import opened Bytes
  import opened Fields
  import opened Probe
  import Crc

  const CORE_SYNC: seq<byte> := [0x7F, 0xFE, 0x80, 0x01]
  const SUBSTREAM_SYNC: seq<byte> := [0x64, 0x58, 0x20, 0x25]
  const CORE_FRAME_HEADER_SIZE := 18
  const SUBSTREAM_FIELDS := 10
  const CORE_MAX_PROBE := 16388
  const SUBSTREAM_MAX_PROBE := 4096

  datatype CoreHeader = Insufficient | Invalid | Frame(size: nat)

  /** The core header parser, as far as framing depends on it. */
  function ParseHeader(s: seq<byte>): (r: CoreHeader)
    ensures r.Insufficient? <==> |s| < CORE_FRAME_HEADER_SIZE
    ensures r.Frame? ==> 96 <= r.size <= 16384 && s[..4] == CORE_SYNC
  {
    if |s| < CORE_FRAME_HEADER_SIZE then Insufficient
    else if s[..4] != CORE_SYNC then Invalid
    else
      var size := Field(s, 46, 14) + 1;
      var crc := if Field(s, 38, 1) == 1 then 16 else 0;
      ValueBound(BitsAt(s, 46, 14));
      assert Pow2(14) == 16384 by {
        Pow2Add(7, 7);
        assert Pow2(7) == 128;
      }
      if Field(s, 33, 5) + 1 != 32 then Invalid             // deficit samples
      else if (Field(s, 39, 7) + 1) % 8 != 0 then Invalid   // PCM blocks
      else if size < 96 then Invalid
      else if Field(s, 60, 6) >= 10 then Invalid            // audio mode
      else if Field(s, 66, 4) in {0, 4, 5, 9, 10} then Invalid // sample rate
      else if Field(s, 75, 1) == 1 then Invalid             // reserved bit
      else if Field(s, 85, 2) == 3 then Invalid             // LFE flag
      else if Field(s, 95 + crc, 3) in {4, 7} then Invalid  // PCM resolution
      else Frame(size)
  }

  /** Eighteen bytes decide the header: what follows does not change it. */
  lemma HeaderExtends(s: seq<byte>, t: seq<byte>)
    requires !ParseHeader(s).Insufficient?
    ensures ParseHeader(s + t) == ParseHeader(s)
  {
    assert (s + t)[..4] == s[..4];
    FieldExtends(s, t, 46, 14);
    FieldExtends(s, t, 38, 1);
    FieldExtends(s, t, 33, 5);
    FieldExtends(s, t, 39, 7);
    FieldExtends(s, t, 60, 6);
    FieldExtends(s, t, 66, 4);
    FieldExtends(s, t, 75, 1);
    FieldExtends(s, t, 85, 2);
    FieldExtends(s, t, 95, 3);
    FieldExtends(s, t, 111, 3);
  }

  function Candidate(s: seq<byte>): Probe.Start {
    if s != [] && s[0] == CORE_SYNC[0] then CoreStart(s)
    else if s != [] && s[0] == SUBSTREAM_SYNC[0] then SubstreamStart(s)
    else Reject
  }

  function CoreStart(s: seq<byte>): Probe.Start {
    var sync := SyncPrefix(s, CORE_SYNC);
    if sync.Some? then sync.value
    else if |s| < CORE_FRAME_HEADER_SIZE then Need(CORE_FRAME_HEADER_SIZE)
    else
      var header := ParseHeader(s);
      if !header.Frame? then Reject
      else
        var end := header.size + |CORE_SYNC|;
        if |s| < end then Need(end)
        else if s[header.size..end] == CORE_SYNC || s[header.size..end] == SUBSTREAM_SYNC then Claim
        else Reject
  }

  function SubstreamStart(s: seq<byte>): Probe.Start {
    var sync := SyncPrefix(s, SUBSTREAM_SYNC);
    if sync.Some? then sync.value
    else if |s| < SUBSTREAM_FIELDS then Need(SUBSTREAM_FIELDS)
    else
      var wide := Field(s, 42, 1) == 1;
      var headerBits := if wide then 12 else 8;
      var sizeBits := if wide then 20 else 16;
      var headerSize := Field(s, 43, headerBits) + 1;
      var frameSize := Field(s, 43 + headerBits, sizeBits) + 1;
      if headerSize < SUBSTREAM_FIELDS + 2 || frameSize < headerSize then Reject
      else if |s| < headerSize then Need(headerSize)
      else if Crc.Serial(Crc.CCITT, Ones(), s[5..headerSize]) == Crc.Clear(16) then Claim
      else Reject
  }

  function Ones(): (r: Crc.Register) {
    seq(16, _ => true)
  }

  /** The sync word's verdict only sharpens as bytes arrive. */
  lemma SyncExtends(s: seq<byte>, t: seq<byte>, sync: seq<byte>)
    ensures SyncPrefix(s, sync).None? ==> SyncPrefix(s + t, sync).None?
    ensures SyncPrefix(s, sync) == Some(Reject) ==> SyncPrefix(s + t, sync) == Some(Reject)
    ensures |s + t| < |sync| ==> SyncPrefix(s + t, sync).Some?
  {
  }

  lemma CoreStartLawful(s: seq<byte>, t: seq<byte>)
    ensures LawfulOn(CoreStart, s, t)
  {
    hide ParseHeader, Field;
    SyncExtends(s, t, CORE_SYNC);
    if !ParseHeader(s).Insufficient? {
      HeaderExtends(s, t);
      if ParseHeader(s).Frame? && |s| >= ParseHeader(s).size + 4 {
        assert (s + t)[ParseHeader(s).size..ParseHeader(s).size + 4] == s[ParseHeader(s).size..ParseHeader(s).size + 4];
      }
    }
  }

  lemma SubstreamStartLawful(s: seq<byte>, t: seq<byte>)
    ensures LawfulOn(SubstreamStart, s, t)
  {
    SyncExtends(s, t, SUBSTREAM_SYNC);
    if |s| >= SUBSTREAM_FIELDS {
      FieldExtends(s, t, 42, 1);
      var headerBits := if Field(s, 42, 1) == 1 then 12 else 8;
      var sizeBits := if Field(s, 42, 1) == 1 then 20 else 16;
      FieldExtends(s, t, 43, headerBits);
      FieldExtends(s, t, 43 + headerBits, sizeBits);
      var headerSize := Field(s, 43, headerBits) + 1;
      if SUBSTREAM_FIELDS + 2 <= headerSize <= |s| {
        assert (s + t)[5..headerSize] == s[5..headerSize];
      }
    }
  }

  /** The DTS check obeys the law the replay relies on, within one largest frame
      and a sync word. */
  lemma CandidateIsLawful()
    ensures Lawful(Candidate) && NeedsAtMost(Candidate, CORE_MAX_PROBE)
  {
    forall s: seq<byte>, t: seq<byte>
      ensures LawfulOn(Candidate, s, t)
    {
      CoreStartLawful(s, t);
      SubstreamStartLawful(s, t);
    }
    forall s: seq<byte> | s != [] && Candidate(s).Need?
      ensures Candidate(s).needed <= CORE_MAX_PROBE
    {
      if s[0] == SUBSTREAM_SYNC[0] {
        SubstreamNeeds(s);
      }
    }
  }

  lemma SubstreamNeeds(s: seq<byte>)
    requires SubstreamStart(s).Need?
    ensures SubstreamStart(s).needed <= SUBSTREAM_MAX_PROBE
  {
    if |s| >= SUBSTREAM_FIELDS {
      var headerBits := if Field(s, 42, 1) == 1 then 12 else 8;
      ValueBound(BitsAt(s, 43, headerBits));
      assert Pow2(8) == 256 && Pow2(12) == 4096 by {
        assert Pow2(4) == 16;
        Pow2Add(4, 4);
        Pow2Add(8, 4);
      }
    }
  }
}
