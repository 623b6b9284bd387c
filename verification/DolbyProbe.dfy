/** Where a Dolby stream starts: a TrueHD or MLP access unit whose major sync
    checks, or an E-AC-3 / AC-3 frame whose checksum does. */
module DolbyProbe {
  import opened Bytes
  import opened Fields
  import opened Probe
  import Crc

  const TRUEHD_MAX_PROBE := 64
  const EAC3_MAX_PROBE := 4096
  const AU_HEADER := 4
  const MAJOR_SYNC_PREFIX: seq<byte> := [0xF8, 0x72, 0x6F]
  const EAC3_SYNC: seq<byte> := [0x0B, 0x77]
  const EAC3_HEADER := 7

  /** The checksum of a major sync, as the extractor's own CRC computes it. */
  type MajorSyncCrc = seq<byte> -> nat

  /** The earlier answer of two checks on the same bytes. */
  function Merge(a: Probe.Start, b: Probe.Start): Probe.Start {
    match (a, b)
    case (Claim, _) => Claim
    case (_, Claim) => Claim
    case (Need(m), Need(n)) => Need(Min(m, n))
    case (Need(n), Reject) => Need(n)
    case (Reject, Need(n)) => Need(n)
    case (Reject, Reject) => Reject
  }

  function Candidate(crc: MajorSyncCrc, s: seq<byte>): Probe.Start {
    Merge(TruehdStart(crc, s), Eac3Start(s))
  }

  /** The length of the major sync info before its checksum, or how many bytes say it. */
  function InfoLength(s: seq<byte>): Result<nat, Probe.Start>
    requires |s| > AU_HEADER + 3
  {
    if s[AU_HEADER + 3] == 0xBB then Ok(26)
    else if s[AU_HEADER + 3] == 0xBA then
      if |s| <= 30 then Err(Need(31))
      else if s[29] % 2 == 0 then Ok(26)
      else Ok(28 + s[30] / 16 * 2)
    else Err(Reject)
  }

  function TruehdStart(crc: MajorSyncCrc, s: seq<byte>): Probe.Start {
    var sync := if |s| >= AU_HEADER then s[AU_HEADER..] else [];
    var shown := Min(|sync|, |MAJOR_SYNC_PREFIX|);
    if sync[..shown] != MAJOR_SYNC_PREFIX[..shown] then Reject
    else if |s| <= AU_HEADER + 3 then Need(AU_HEADER + 4)
    else
      match InfoLength(s)
      case Err(start) => start
      case Ok(infoLength) =>
        var end := AU_HEADER + infoLength + 2;
        if |s| < end then Need(end)
        else if ((s[0] as int % 16) * 256 + s[1] as int) * 2 < infoLength + 8 then Reject
        else if crc(s[AU_HEADER..AU_HEADER + infoLength]) == s[end - 2] as int * 256 + s[end - 1] as int then Claim
        else Reject
  }

  const LEGACY_AC3_FRAME_SIZE_WORDS: seq<seq<nat>> := [
    [64, 69, 96], [80, 87, 120], [96, 104, 144], [112, 121, 168], [128, 139, 192], [160, 174, 240],
    [192, 208, 288], [224, 243, 336], [256, 278, 384], [320, 348, 480], [384, 417, 576], [448, 487, 672],
    [512, 557, 768], [640, 696, 960], [768, 835, 1152], [896, 975, 1344], [1024, 1114, 1536],
    [1152, 1253, 1728], [1280, 1393, 1920]]

  function LegacyAc3FrameSize(fscod: nat, frmsizecod: nat): (r: Option<nat>)
    ensures r.Some? ==> 128 <= r.value <= 3840
  {
    if frmsizecod / 2 >= |LEGACY_AC3_FRAME_SIZE_WORDS| || fscod >= 3 then None
    else
      var row := LEGACY_AC3_FRAME_SIZE_WORDS[frmsizecod / 2];
      assert |row| == 3 && 64 <= row[0] <= 1280 && 69 <= row[1] <= 1393 && 96 <= row[2] <= 1920;
      Some((row[fscod] + if fscod == 1 && frmsizecod % 2 == 1 then 1 else 0) * 2)
  }

  /** The frame size the raw framing reads: E-AC-3's (bit stream ids 11 to 16),
      else a legacy AC-3 frame's (up to 10). */
  function FrameSize(s: seq<byte>): (r: Option<nat>)
    requires |s| >= EAC3_HEADER
    ensures r.Some? ==> r.value <= EAC3_MAX_PROBE
  {
    var bsid := Field(s, 40, 5);
    ValueBound(BitsAt(s, 21, 11));
    assert Pow2(11) == 2048 by {
      assert Pow2(5) == 32 && Pow2(6) == 64;
      Pow2Add(5, 6);
    }
    if s[..2] != EAC3_SYNC then None
    else if Field(s, 32, 2) == 3 && Field(s, 34, 2) == 3 then None
    else if 11 <= bsid <= 16 then Some((Field(s, 21, 11) + 1) * 2)
    else if bsid <= 10 then LegacyAc3FrameSize(Field(s, 32, 2), Field(s, 34, 6))
    else None
  }

  function Eac3Start(s: seq<byte>): Probe.Start {
    var sync := SyncPrefix(s, EAC3_SYNC);
    if sync.Some? then sync.value
    else if |s| < EAC3_HEADER then Need(EAC3_HEADER)
    else
      var size := FrameSize(s);
      if size.None? || size.value < EAC3_HEADER + 2 then Reject
      else if |s| < size.value then Need(size.value)
      else if Crc.Serial(Crc.ANSI, Crc.Clear(16), s[2..size.value]) == Crc.Clear(16) then Claim
      else Reject
  }

  lemma TruehdStartLawful(crc: MajorSyncCrc, s: seq<byte>, t: seq<byte>)
    ensures LawfulOn(x => TruehdStart(crc, x), s, t)
    ensures TruehdStart(crc, s).Need? ==> TruehdStart(crc, s).needed <= TRUEHD_MAX_PROBE
  {
    var u := s + t;
    var sync := if |s| >= AU_HEADER then s[AU_HEADER..] else [];
    var more := if |u| >= AU_HEADER then u[AU_HEADER..] else [];
    assert sync <= more;
    assert |sync| >= 3 ==> sync[..3] == more[..3];
    if TruehdStart(crc, s) == Reject && sync[..Min(|sync|, 3)] != MAJOR_SYNC_PREFIX[..Min(|sync|, 3)] {
      var i :| 0 <= i < Min(|sync|, 3) && sync[i] != MAJOR_SYNC_PREFIX[i];
      assert more[..Min(|more|, 3)][i] != MAJOR_SYNC_PREFIX[..Min(|more|, 3)][i];
    } else if |s| > AU_HEADER + 3 && InfoLength(s).Ok? {
      var infoLength := InfoLength(s).value;
      if |s| >= AU_HEADER + infoLength + 2 {
        assert u[AU_HEADER..AU_HEADER + infoLength] == s[AU_HEADER..AU_HEADER + infoLength];
      }
    }
  }

  lemma Eac3StartLawful(s: seq<byte>, t: seq<byte>)
    ensures LawfulOn(Eac3Start, s, t)
  {
    if |s| >= EAC3_HEADER {
      FrameSizeExtends(s, t);
      if FrameSize(s).Some? && 2 <= FrameSize(s).value <= |s| {
        assert (s + t)[2..FrameSize(s).value] == s[2..FrameSize(s).value];
      }
    }
  }

  lemma FrameSizeExtends(s: seq<byte>, t: seq<byte>)
    requires |s| >= EAC3_HEADER
    ensures FrameSize(s + t) == FrameSize(s)
  {
    assert (s + t)[..2] == s[..2];
    FieldExtends(s, t, 40, 5);
    FieldExtends(s, t, 21, 11);
    FieldExtends(s, t, 32, 2);
    FieldExtends(s, t, 34, 2);
    FieldExtends(s, t, 34, 6);
  }

  /** Taking the smaller of two pending answers keeps the law. */
  lemma MergeLawful(a: Check, b: Check, both: Check, s: seq<byte>, t: seq<byte>)
    requires LawfulOn(a, s, t) && LawfulOn(b, s, t)
    requires both(s) == Merge(a(s), b(s)) && both(s + t) == Merge(a(s + t), b(s + t))
    ensures LawfulOn(both, s, t)
  {
  }

  /** The Dolby check obeys the law the replay relies on, within one largest frame. */
  lemma CandidateIsLawful(crc: MajorSyncCrc, check: Check)
    requires forall s :: check(s) == Candidate(crc, s)
    ensures Lawful(check) && NeedsAtMost(check, EAC3_MAX_PROBE)
  {
    forall s: seq<byte>, t: seq<byte>
      ensures LawfulOn(check, s, t)
    {
      TruehdStartLawful(crc, s, t);
      Eac3StartLawful(s, t);
      MergeLawful(x => TruehdStart(crc, x), Eac3Start, check, s, t);
    }
  }
}
