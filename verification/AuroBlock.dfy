/** One Auro-Codec block: the sync signature, the checks that guard it, and the
    configuration its side channel announces. */
module AuroBlock {
  import opened Bytes
  import opened AuroBits
  import opened AuroPayload
  import opened AuroHeaders
  import Crc

  datatype SyncHeader = SyncHeader(blockSize: nat, lsbBits: nat)

  /** Bit `b` of `n` samples from `from` on. */
  function Plane(samples: seq<int>, from: nat, n: nat, b: nat): (r: seq<bit>)
    requires from + n <= |samples|
    ensures |r| == n
  {
    if n == 0 then [] else Plane(samples, from, n - 1, b) + [Bit(samples[from + n - 1], b)]
  }

  /** The first sixteen samples carry the sync signature in bit 0. */
  predicate AllSync(samples: seq<int>) {
    |samples| >= SYNC_SAMPLES && forall i | 0 <= i < SYNC_SAMPLES :: Bit(samples[i], 0) == 1
  }

  function BlockSize(sizeCode: nat): nat {
    if 16 * sizeCode == 0x3D0 then 1000 else 16 * sizeCode + SYNC_SAMPLES
  }

  /** The size and width a header announces. */
  function ParseSync(samples: seq<int>): Option<SyncHeader> {
    if !AllSync(samples) then None
    else
      var width := Value(Plane(samples, 12, 4, 2));
      if width > 14 || 14 - width < 3 then None
      else Some(SyncHeader(BlockSize(Value(Plane(samples, 0, 8, 2))), 14 - width))
  }

  /** Whatever a header announces is a block of 16 to 4096 samples at a width the format has. */
  lemma HeaderBounds(samples: seq<int>)
    requires ParseSync(samples).Some?
    ensures var h := ParseSync(samples).value;
            IsWidth(h.lsbBits) && SYNC_SAMPLES <= h.blockSize <= MAX_BLOCK && h.blockSize % 8 == 0
  {
    ValueBound(Plane(samples, 0, 8, 2));
    assert Pow2(8) == 256 by {
      Powers();
    }
  }

  lemma {:induction false} PlanePrefix(samples: seq<int>, more: seq<int>, from: nat, n: nat, b: nat)
    requires from + n <= |samples| && samples <= more
    ensures Plane(more, from, n, b) == Plane(samples, from, n, b)
  {
    if n > 0 {
      PlanePrefix(samples, more, from, n - 1, b);
    }
  }

  /** Only the first sixteen samples matter. */
  lemma ParseSyncPrefix(samples: seq<int>)
    requires |samples| >= SYNC_SAMPLES
    ensures ParseSync(samples[..SYNC_SAMPLES]) == ParseSync(samples)
  {
    var head := samples[..SYNC_SAMPLES];
    PlanePrefix(head, samples, 12, 4, 2);
    PlanePrefix(head, samples, 0, 8, 2);
    assert AllSync(head) == AllSync(samples) by {
      assert forall i | 0 <= i < SYNC_SAMPLES :: head[i] == samples[i];
    }
  }

  method ReadSync(samples: seq<int>) returns (r: Option<SyncHeader>)
    ensures r == ParseSync(samples)
  {
    if |samples| < SYNC_SAMPLES {
      return None;
    }
    for i := 0 to SYNC_SAMPLES
      invariant forall j | 0 <= j < i :: Bit(samples[j], 0) == 1
    {
      if Bit(samples[i], 0) == 0 {
        return None;
      }
    }
    var sizeCode := ReadPlane(samples, 0, 8, 2);
    var raw := 16 * sizeCode;
    var blockSize := if raw == 0x3D0 then 1000 else raw + SYNC_SAMPLES;
    var widthCode := ReadPlane(samples, 12, 4, 2);
    if widthCode > 14 || 14 - widthCode < 3 {
      return None;
    }
    return Some(SyncHeader(blockSize, 14 - widthCode));
  }

  method ReadPlane(samples: seq<int>, from: nat, n: nat, b: nat) returns (v: nat)
    requires from + n <= |samples|
    ensures v == Value(Plane(samples, from, n, b))
  {
    v := 0;
    for i := 0 to n
      invariant v == Value(Plane(samples, from, i, b))
    {
      ValueSnoc(Plane(samples, from, i, b), Bit(samples[from + i], b));
      v := 2 * v + Bit(samples[from + i], b);
    }
  }

  /** Bit 0 of every sixteenth sample after the header reads zero. */
  predicate ReservedClear(samples: seq<int>, size: nat)
    requires size <= |samples|
  {
    forall i | 0 < i < size && i % 16 == 0 :: Bit(samples[i], 0) == 0
  }

  method ReservedBitsClear(samples: seq<int>, h: SyncHeader) returns (clear: bool)
    requires IsWidth(h.lsbBits)
    ensures clear <==> h.blockSize <= |samples| && ReservedClear(samples, h.blockSize)
  {
    var m, block := h.lsbBits, h.blockSize;
    if |samples| < block {
      return false;
    }
    var totalBits := m * block;
    var pos := 17 * m - 1;
    ghost var k: nat := 0;
    while pos < totalBits
      invariant pos == 17 * m - 1 + 16 * m * k
      invariant forall i | 0 < i < block && i % 16 == 0 && i < 16 * (k + 1) :: Bit(samples[i], 0) == 0
      decreases totalBits - pos
    {
      ReservedLocation(k, m);
      ReservedInside(k, m, block);
      var (idx, b) := BitLocation(pos, m, false);
      if idx >= block || Bit(samples[idx], b) != 0 {
        return false;
      }
      k := k + 1;
      assert 16 * m * k == 16 * m * (k - 1) + 16 * m;
      pos := pos + SYNC_SAMPLES * m;
    }
    ReservedInside(k, m, block);
    return true;
  }

  lemma ReservedInside(k: nat, m: nat, block: nat)
    requires IsWidth(m)
    ensures 17 * m - 1 + 16 * m * k < m * block <==> 16 * (k + 1) < block
  {
    assert 17 * m - 1 + 16 * m * k == m * (16 * (k + 1) + 1) - 1;
    if 16 * (k + 1) < block {
      assert m * (16 * (k + 1) + 1) <= m * block;
    } else {
      assert m * (16 * (k + 1)) >= m * block;
    }
  }

  /** Eight bits of a sample from `at` up, the second of them masked out. */
  function OctetAt(s: int, at: nat, masked: bool): byte {
    var bits: seq<bit> := [Bit(s, at + 7), Bit(s, at + 6), Bit(s, at + 5), Bit(s, at + 4),
                           Bit(s, at + 3), Bit(s, at + 2), if masked then 0 else Bit(s, at + 1), Bit(s, at)];
    ValueBound(bits);
    Powers();
    Value(bits)
  }

  /** A sample's low 24 bits, low byte first, the CRC's own bit plane masked out
      of the header. */
  function SampleBytes(s: int, header: bool): seq<byte> {
    [OctetAt(s, 0, header), OctetAt(s, 8, false), OctetAt(s, 16, false)]
  }

  /** What a reader of single samples makes of a block. */
  function Readings(read: (int, bool) -> seq<byte>, samples: seq<int>): seq<byte> {
    if samples == [] then []
    else
      var i := |samples| - 1;
      Readings(read, samples[..i]) + read(samples[i], i < SYNC_SAMPLES)
  }

  /** A block as the CRC reads it. */
  function CrcBytes(samples: seq<int>): seq<byte> {
    Readings(SampleBytes, samples)
  }

  function Inverted(c: Crc.Register): Crc.Register {
    seq(16, i requires 0 <= i < 16 => !c[i])
  }

  function BlockCrc(samples: seq<int>): Crc.Register {
    Inverted(Crc.Serial(Crc.CCITT, Crc.Clear(16), CrcBytes(samples)))
  }

  /** The checksum the header carries in bit 1 of its samples. */
  function StoredCrc(samples: seq<int>): Crc.Register
    requires |samples| >= SYNC_SAMPLES
  {
    seq(16, i requires 0 <= i < 16 => Bit(samples[i], 1) == 1)
  }

  /** Two samples agree in their low 24 bits, or, in a header, in all but the
      checksum's own bit. */
  predicate SameButCrcBit(s: int, t: int, header: bool) {
    forall k | 0 <= k < 24 :: (header && k == 1) || Bit(s, k) == Bit(t, k)
  }

  predicate SameButCrc(a: seq<int>, b: seq<int>) {
    |a| == |b| && forall i | 0 <= i < |a| :: SameButCrcBit(a[i], b[i], i < SYNC_SAMPLES)
  }

  /** The checksum does not read the bits it is stored in, so storing it never
      changes it: a block is made valid by writing its own checksum there. */
  lemma CrcIgnoresItsOwnBits(a: seq<int>, b: seq<int>)
    requires SameButCrc(a, b)
    ensures CrcBytes(a) == CrcBytes(b)
  {
    forall i | 0 <= i < |a|
      ensures SampleBytes(a[i], i < SYNC_SAMPLES) == SampleBytes(b[i], i < SYNC_SAMPLES)
    {
      SameBytes(a[i], b[i], i < SYNC_SAMPLES);
    }
    SameReadings(SampleBytes, a, b);
  }

  lemma {:induction false} SameReadings(read: (int, bool) -> seq<byte>, a: seq<int>, b: seq<int>)
    requires |a| == |b| && forall i | 0 <= i < |a| :: read(a[i], i < SYNC_SAMPLES) == read(b[i], i < SYNC_SAMPLES)
    ensures Readings(read, a) == Readings(read, b)
  {
    if a != [] {
      SameReadings(read, a[..|a| - 1], b[..|b| - 1]);
    }
  }

  lemma SameBytes(s: int, t: int, header: bool)
    requires SameButCrcBit(s, t, header)
    ensures SampleBytes(s, header) == SampleBytes(t, header)
  {
    Octets(s, t, 0, header);
    Octets(s, t, 8, false);
    Octets(s, t, 16, false);
  }

  lemma Octets(s: int, t: int, at: nat, masked: bool)
    requires forall k | at <= k < at + 8 :: (masked && k == at + 1) || Bit(s, k) == Bit(t, k)
    ensures OctetAt(s, at, masked) == OctetAt(t, at, masked)
  {
  }

  /** (The trigger keeps the bits of a sample out of the loop's proof.) */
  ghost predicate ReadsSamples(read: (int, bool) -> seq<byte>) {
    forall s, header {:trigger SampleBytes(s, header)} :: read(s, header) == SampleBytes(s, header)
  }

  method ComputeCrc(samples: seq<int>) returns (crc: Crc.Register)
    ensures crc == BlockCrc(samples)
  {
    crc := SumSamples(samples, SampleBytes);
    crc := Inverted(crc);
  }

  method SumSamples(samples: seq<int>, ghost read: (int, bool) -> seq<byte>) returns (crc: Crc.Register)
    requires ReadsSamples(read)
    ensures crc == Crc.Serial(Crc.CCITT, Crc.Clear(16), Readings(read, samples))
  {
    crc := Crc.Clear(16);
    for i := 0 to |samples|
      invariant crc == Crc.Serial(Crc.CCITT, Crc.Clear(16), Readings(read, samples[..i]))
    {
      assert samples[..i + 1][..i] == samples[..i];
      crc := UpdateSample(crc, Readings(read, samples[..i]), samples[i], i < SYNC_SAMPLES, read);
    }
    assert samples[..|samples|] == samples;
  }

  method UpdateSample(start: Crc.Register, ghost before: seq<byte>, s: int, header: bool,
                      ghost read: (int, bool) -> seq<byte>)
    returns (crc: Crc.Register)
    requires start == Crc.Serial(Crc.CCITT, Crc.Clear(16), before) && ReadsSamples(read)
    ensures crc == Crc.Serial(Crc.CCITT, Crc.Clear(16), before + read(s, header))
  {
    var bytes := SampleBytes(s, header);
    ghost var one, two := before + [bytes[0]], before + [bytes[0], bytes[1]];
    assert one + [bytes[1]] == two && two + [bytes[2]] == before + bytes;
    crc := Update(start, before, bytes[0]);
    crc := Update(crc, one, bytes[1]);
    crc := Update(crc, two, bytes[2]);
  }

  method Update(crc: Crc.Register, ghost before: seq<byte>, b: byte) returns (c: Crc.Register)
    requires crc == Crc.Serial(Crc.CCITT, Crc.Clear(16), before)
    ensures c == Crc.Serial(Crc.CCITT, Crc.Clear(16), before + [b])
  {
    assert (before + [b])[..|before|] == before;
    c := Crc.SerialUpdate(Crc.CCITT, crc, b);
  }

  datatype BlockInfo = BlockInfo(header: SyncHeader, streamIds: seq<nat>, config: Option<nat>, instructions: nat)

  /** Validate a whole block and read its configuration. */
  function ParseBlock(samples: seq<int>, h: SyncHeader): Result<BlockInfo, BlockError>
    requires SYNC_SAMPLES <= h.blockSize
  {
    if |samples| < h.blockSize then Err(Truncated)
    else
      var block := samples[..h.blockSize];
      var payload := PayloadBits(block, h.lsbBits);
      if !ReservedClear(block, h.blockSize) then Err(ReservedBit)
      else if BlockCrc(block) != StoredCrc(block) then Err(BadCrc)
      else
        match ParseFields(SourceOf(payload), |payload|)
        case Err(e) => Err(e)
        case Ok(f) => Ok(BlockInfo(h, f.streamIds, f.config, f.instructions))
  }

  method ReadBlock(samples: seq<int>, h: SyncHeader) returns (r: Result<BlockInfo, BlockError>)
    requires SYNC_SAMPLES <= h.blockSize && IsWidth(h.lsbBits)
    ensures r == ParseBlock(samples, h)
  {
    if |samples| < h.blockSize {
      return Err(Truncated);
    }
    var block := samples[..h.blockSize];
    var clear := ReservedBitsClear(block, h);
    if !clear {
      return Err(ReservedBit);
    }
    var crc := ComputeCrc(block);
    if crc != StoredCrc(block) {
      return Err(BadCrc);
    }
    ghost var payload := PayloadBits(block, h.lsbBits);
    SourceReads(payload);
    var fields := ReadFields(block, h.lsbBits, SourceOf(payload));
    match fields {
      case Err(e) => return Err(e);
      case Ok(f) => return Ok(BlockInfo(h, f.streamIds, f.config, f.instructions));
    }
  }

  method ReadFields(block: seq<int>, m: nat, ghost rd: Source) returns (r: Result<BlockFields, BlockError>)
    requires IsWidth(m) && Reads(rd, PayloadBits(block, m))
    ensures r == ParseFields(rd, |PayloadBits(block, m)|)
  {
    var reader := new BitReader(block, m, rd);
    var fixed := ReadFixedFields(reader);
    if fixed.Err? {
      return Err(Underrun);
    }
    var (adolBlocks, ids) := fixed.value;
    var streams := Present(ids[0]) + Present(ids[1]) + Present(ids[2]) + Present(ids[3]);
    var table := TableWords(streams);
    if table.None? {
      return Err(StreamCount);
    }
    var skipped := SkipWords(reader, table.value);
    if !skipped {
      return Err(Underrun);
    }
    var a := ReadAdol(reader, Adol(reader.pos, 0, None), adolBlocks);
    match a {
      case Err(e) => return Err(e);
      case Ok(end) => return Ok(BlockFields(ids, end.config, end.count, end.pos));
    }
  }

  /** A field stepped over. */
  method Skip(reader: BitReader, n: nat) returns (ok: bool)
    requires reader.Valid() && n > 0
    modifies reader
    ensures ok <==> old(reader.pos) + n <= reader.length
    ensures ok ==> reader.pos == old(reader.pos) + n
  {
    var field := reader.Read(n);
    ok := field.Ok?;
  }

  /** The predictor seeds, stepped over. */
  method SkipWords(reader: BitReader, n: nat) returns (ok: bool)
    requires reader.Valid() && reader.pos <= reader.length
    modifies reader
    ensures ok <==> old(reader.pos) + 32 * n <= reader.length
    ensures ok ==> reader.pos == old(reader.pos) + 32 * n
  {
    for i := 0 to n
      invariant reader.pos == old(reader.pos) + 32 * i <= reader.length
    {
      ok := Skip(reader, 32);
      if !ok {
        return;
      }
    }
    return true;
  }

  /** The first 32 bits hold fields of no published meaning. */
  method SkipPreamble(reader: BitReader) returns (ok: bool)
    requires reader.Valid() && reader.pos == 0
    modifies reader
    ensures ok <==> 32 <= reader.length
    ensures ok ==> reader.pos == 32
  {
    ok := Skip(reader, 8);
    if ok { ok := Skip(reader, 8); }
    if ok { ok := Skip(reader, 1); }
    if ok { ok := Skip(reader, 1); }
    if ok { ok := Skip(reader, 2); }
    if ok { ok := Skip(reader, 4); }
    if ok { ok := Skip(reader, 8); }
  }

  /** The four stream-id slots. */
  method ReadIds(reader: BitReader) returns (r: Option<seq<nat>>)
    requires reader.Valid() && reader.pos == 48
    modifies reader
    ensures r.Some? <==> 80 <= reader.length
    ensures r.Some? ==> reader.pos == 80
    ensures r.Some? ==> r.value == [reader.rd(48, 8), reader.rd(56, 8), reader.rd(64, 8), reader.rd(72, 8)]
  {
    var ids: seq<nat> := [];
    for i := 0 to 4
      invariant reader.pos == 48 + 8 * i && (i > 0 ==> reader.pos <= reader.length)
      invariant |ids| == i && forall j | 0 <= j < i :: ids[j] == reader.rd(48 + 8 * j, 8)
    {
      var id := reader.Read(8);
      if id.Err? {
        return None;
      }
      ids := ids + [id.value];
    }
    return Some(ids);
  }

  /** The fields ahead of the bytecode, stepped over but for the ADOL block count
      and the four stream ids. */
  method ReadFixedFields(reader: BitReader) returns (r: Result<(nat, seq<nat>), BlockError>)
    requires reader.Valid() && reader.pos == 0
    modifies reader
    ensures r.Ok? <==> reader.length >= 112
    ensures r.Ok? ==> reader.pos == 112
    ensures r.Ok? ==>
      r.value == (reader.rd(32, 8), [reader.rd(48, 8), reader.rd(56, 8), reader.rd(64, 8), reader.rd(72, 8)])
  {
    var ok := SkipPreamble(reader);
    if !ok {
      return Err(Underrun);
    }
    var adolBlocks := reader.Read(8);
    if adolBlocks.Err? {
      return Err(Underrun);
    }
    ok := Skip(reader, 8);
    if !ok {
      return Err(Underrun);
    }
    var ids := ReadIds(reader);
    if ids.None? {
      return Err(Underrun);
    }
    ok := Skip(reader, 8);
    if ok { ok := Skip(reader, 8); }
    if ok { ok := Skip(reader, 8); }
    if ok { ok := Skip(reader, 8); }
    if !ok {
      return Err(Underrun);
    }
    return Ok((adolBlocks.value, ids.value));
  }

  /** A block the configuration parser accepts, with fewer than sixteen ADOL
      blocks, ids without a gap and an empty fourth slot, is read by the stream
      parser off the gathered payload too, unless that one has a reason of its
      own to refuse; it then tells the same configuration, and its codebook
      starts where the configuration parser stopped. */
  lemma AcceptedBlockDecodes(samples: seq<int>, h: SyncHeader, payload: seq<bit>, info: BlockInfo)
    requires SYNC_SAMPLES <= h.blockSize <= |samples| && payload == PayloadBits(samples[..h.blockSize], h.lsbBits)
    requires ParseBlock(samples, h) == Ok(info) && |info.streamIds| == 4
    requires (info.streamIds[0] == 0xFF ==> info.streamIds[1] == 0xFF)
    requires (info.streamIds[1] == 0xFF ==> info.streamIds[2] == 0xFF) && info.streamIds[3] == 0xFF
    requires ReadBits(payload, 32, 8) < 16
    ensures var f, s := ParseFields(SourceOf(payload), |payload|), ParseStream(SourceOf(payload), |payload|);
            && f.Ok?
            && (s.Err? ==> s.error == Header || s.error == CountCode || s.error == CodebookOverrun)
            && (s.Ok? ==> && s.value.config == info.config && s.value.codebookPos == f.value.end
                          && s.value.ids == info.streamIds[..3])
  {
    ReadBitsJoin(payload);
    AgreeOnConfig(SourceOf(payload), |payload|);
  }

  lemma AgreeOnConfig(rd: Source, length: nat)
    requires Joins(rd) && ParseFields(rd, length).Ok? && rd(32, 8) < 16
    requires var ids := ParseFields(rd, length).value.streamIds;
             (ids[0] == 0xFF ==> ids[1] == 0xFF) && (ids[1] == 0xFF ==> ids[2] == 0xFF) && ids[3] == 0xFF
    ensures var b, s := ParseFields(rd, length).value, ParseStream(rd, length);
            && (s.Err? ==> s.error == Header || s.error == CountCode || s.error == CodebookOverrun)
            && (s.Ok? ==> s.value.config == b.config && s.value.codebookPos == b.end && s.value.ids == b.streamIds[..3])
  {
    var ids := ParseFields(rd, length).value.streamIds;
    HeadersAgree(rd, length);
    WordsComeApart(rd);
    assert ids[..3] == [rd(48, 8), rd(56, 8), rd(64, 8)];
  }
}
