/** The shortest block there is, of one stream: sealed, reported, decoded, and
    stranded by any latency shorter than itself. */
module AuroShortest {
  import opened Bytes
  import opened AuroBits
  import opened AuroBlock
  import opened AuroHeaders
  import opened AuroPayload
  import opened AuroSeal
  import opened AuroTrack
  import Carrier = AuroCarrier
  import Chain = AuroChain
  import Decode = AuroDecode
  import Join = AuroJoin
  import Restore = AuroRestore

  /** Sixteen samples that borrow fourteen bits: stream ids 1, 0xFF, 0xFF, 0xFF,
      one run of bytecode that announces configuration 62, an empty codebook. */
  function Bare(): (b: seq<i32>)
    ensures |b| == 16
  {
    [1, 1, 1, 129, 1, -7, -7, -7, 1, 1, 17, 3865, 14337, 1, 1, 1]
  }

  const HEADER := SyncHeader(16, 14)
  const INFO := BlockInfo(HEADER, [1, 0xFF, 0xFF, 0xFF], Some(62), 2)

  /** The payload's bits that are ones. */
  predicate IsOne(p: nat) {
    p == 39 || 55 <= p < 88 || p == 119 || 123 <= p < 127 || 130 <= p < 135
  }

  predicate IsSample(s: i32) {
    s == 1 || s == -7 || s == 129 || s == 17 || s == 3865 || s == 14337
  }

  lemma LowBits(s: i32)
    requires IsSample(s)
    ensures Bit(s, 0) == 1 && Bit(s, 2) == 0
  {
    assert Pow2(0) == 1 && Pow2(2) == 4;
  }

  lemma PowersBetween(k: nat)
    requires 3 <= k < 14
    ensures Pow2(3) == 8 && Pow2(4) == 16 && Pow2(5) == 32 && Pow2(6) == 64 && Pow2(7) == 128 && Pow2(8) == 256
    ensures Pow2(9) == 512 && Pow2(10) == 1024 && Pow2(11) == 2048 && Pow2(12) == 4096 && Pow2(13) == 8192
    ensures k in {3, 4, 5, 6, 7, 8, 9, 10, 11, 12, 13}
  {
    assert Pow2(3) == 8;
    assert Pow2(5) == 2 * Pow2(4);
    assert Pow2(7) == 2 * Pow2(6) && Pow2(9) == 2 * Pow2(8);
    assert Pow2(11) == 2 * Pow2(10) && Pow2(13) == 2 * Pow2(12);
  }

  lemma HighBits(s: i32, k: nat)
    requires IsSample(s) && 3 <= k < 14
    ensures Bit(s, k) == 1 <==>
      || s == -7 || (s == 129 && k == 7) || (s == 17 && k == 4)
      || (s == 3865 && (3 <= k < 5 || 8 <= k < 12)) || (s == 14337 && k >= 11)
  {
    PowersBetween(k);
  }

  lemma {:induction false} ZeroPlane(samples: seq<i32>, from: nat, n: nat, k: nat)
    requires from + n <= |samples| && forall i | from <= i < from + n :: Bit(samples[i], k) == 0
    ensures Value(Plane(samples, from, n, k)) == 0
  {
    if n > 0 {
      ZeroPlane(samples, from, n - 1, k);
      ValueSnoc(Plane(samples, from, n - 1, k), 0);
    }
  }

  lemma BareAnnounces()
    ensures ParseSync(Bare()) == Some(HEADER)
  {
    forall i | 0 <= i < 16
      ensures Bit(Bare()[i], 0) == 1 && Bit(Bare()[i], 2) == 0
    {
      LowBits(Bare()[i]);
    }
    ZeroPlane(Bare(), 0, 8, 2);
    ZeroPlane(Bare(), 12, 4, 2);
  }

  /** The payload's bits. */
  lemma BareBits(p: nat)
    ensures BitOrZero(PayloadBits(Bare(), 14), p) == if IsOne(p) then 1 else 0
    ensures |PayloadBits(Bare(), 14)| == 176
  {
    hide PayloadBits, BitLocation, Bit;
    PayloadLength(Bare(), 14);
    if p < 176 {
      TraversalsAgree(Bare(), 14, p);
      var (i, b) := BitLocation(48 + p, 14, true);
      BareBitAt(i, b, p);
    }
  }

  lemma BareBitAt(i: nat, b: nat, p: nat)
    requires i < 16 && 3 <= b < 14 && p == Before(i, 14) + 13 - b
    ensures Bit(Bare()[i], b) == if IsOne(p) then 1 else 0
  {
    hide Bit;
    HighBits(Bare()[i], b);
    assert p == 11 * i + 13 - b;
  }

  lemma {:induction false} ZerosRead(bits: seq<bit>, pos: nat, n: nat)
    requires forall p | pos <= p < pos + n :: BitOrZero(bits, p) == 0
    ensures ReadBits(bits, pos, n) == 0
  {
    if n > 0 {
      ZerosRead(bits, pos, n - 1);
      ValueSnoc(Window(bits, pos, n - 1), 0);
    }
  }

  lemma {:induction false} OnesRead(bits: seq<bit>, pos: nat, n: nat)
    requires forall p | pos <= p < pos + n :: BitOrZero(bits, p) == 1
    ensures ReadBits(bits, pos, n) == Pow2(n) - 1
  {
    if n > 0 {
      OnesRead(bits, pos, n - 1);
      ValueSnoc(Window(bits, pos, n - 1), 1);
    }
  }

  /** Zeros, then ones, then zeros. */
  lemma RunRead(bits: seq<bit>, pos: nat, a: nat, b: nat, c: nat)
    requires forall p | pos <= p < pos + a + b + c :: BitOrZero(bits, p) == if pos + a <= p < pos + a + b then 1 else 0
    ensures ReadBits(bits, pos, a + b + c) == (Pow2(b) - 1) * Pow2(c)
  {
    hide BitOrZero, Window, ReadBits, Pow2;
    ZerosRead(bits, pos, a);
    OnesRead(bits, pos + a, b);
    WindowsJoin(bits, pos, a, b);
    ZerosRead(bits, pos + a + b, c);
    WindowsJoin(bits, pos, a + b, c);
  }

  /** What a source of those bits reads. */
  ghost predicate BareSource(rd: Source) {
    && Joins(rd) && rd(0, 16) == 0 && rd(16, 32) == 256 && rd(32, 8) == 1
    && rd(48, 8) == 1 && rd(56, 8) == 0xFF && rd(64, 8) == 0xFF && rd(72, 8) == 0xFF
    && rd(112, 8) == 1 && rd(120, 8) == 0x1E && rd(128, 8) == 62 && rd(136, 8) == 0
  }

  lemma BareIsRead()
    ensures BareSource(SourceOf(PayloadBits(Bare(), 14)))
  {
    hide PayloadBits, BitOrZero;
    var bits := PayloadBits(Bare(), 14);
    forall p: nat
      ensures BitOrZero(bits, p) == if IsOne(p) then 1 else 0
    {
      BareBits(p);
    }
    BitsAreRead(bits);
  }

  lemma BitsAreRead(bits: seq<bit>)
    requires forall p: nat :: BitOrZero(bits, p) == if IsOne(p) then 1 else 0
    ensures BareSource(SourceOf(bits))
  {
    hide BitOrZero, Window, Joins, ReadBits;
    ReadBitsJoin(bits);
    SmallPowers();
    HeaderIsRead(bits);
    RunRead(bits, 112, 7, 1, 0);
    RunRead(bits, 120, 3, 4, 1);
    RunRead(bits, 128, 2, 5, 1);
    ZerosRead(bits, 136, 8);
    IsRead(bits, 0, 16);
  }

  lemma IsRead(bits: seq<bit>, pos: nat, n: nat)
    ensures SourceOf(bits)(pos, n) == ReadBits(bits, pos, n)
  {
  }

  lemma HeaderIsRead(bits: seq<bit>)
    requires forall p: nat :: BitOrZero(bits, p) == if IsOne(p) then 1 else 0
    ensures ReadBits(bits, 0, 16) == 0 && ReadBits(bits, 16, 32) == 256 && ReadBits(bits, 32, 8) == 1
    ensures ReadBits(bits, 48, 8) == 1
    ensures ReadBits(bits, 56, 8) == ReadBits(bits, 64, 8) == ReadBits(bits, 72, 8) == 0xFF
  {
    hide BitOrZero, Window, ReadBits;
    SmallPowers();
    Powers();
    ZerosRead(bits, 0, 16);
    RunRead(bits, 16, 23, 1, 8);
    RunRead(bits, 32, 7, 1, 0);
    RunRead(bits, 48, 7, 1, 0);
    OnesRead(bits, 56, 8);
    OnesRead(bits, 64, 8);
    OnesRead(bits, 72, 8);
  }

  lemma SmallPowers()
    ensures Pow2(0) == 1 && Pow2(1) == 2 && Pow2(4) == 16 && Pow2(5) == 32
  {
    assert Pow2(2) == 4 && Pow2(3) == 8;
  }

  lemma BareIsAccepted()
    ensures FieldsOf(Bare(), HEADER) == Ok(INFO)
  {
    hide PayloadBits, BitOrZero, Joins;
    BareIsRead();
    BareBits(0);
    ReadIsAccepted(SourceOf(PayloadBits(Bare(), 14)));
  }

  lemma ReadIsAccepted(rd: Source)
    requires BareSource(rd)
    ensures ParseFields(rd, 176) == Ok(BlockFields([1, 0xFF, 0xFF, 0xFF], Some(62), 2, 144))
  {
    hide Joins;
    var a := Adol(120, 0, None);
    var b := Adol(136, 1, Some(62));
    assert AdolInstructions(rd, 176, b) == Ok(Adol(144, 2, Some(62)));
    assert AdolInstructions(rd, 176, a) == AdolInstructions(rd, 176, b);
    assert AdolBlocks(rd, 176, Adol(112, 0, None), 1) == Ok(Adol(144, 2, Some(62)));
  }

  /** One stream, id 1, gain code 0. */
  const STREAM := StreamBlock([1, 0xFF, 0xFF], 1, [0, 0, 0, 0, 0], [0, 0, 0], 0, Some(62), 0, false, 8, 0, 144, 144)

  lemma BareStream()
    ensures Decode.StreamOf(Bare(), 14) == Ok(STREAM)
  {
    hide PayloadBits, BitOrZero, Joins;
    BareIsRead();
    BareBits(0);
    StreamIsRead(SourceOf(PayloadBits(Bare(), 14)));
  }

  lemma StreamIsRead(rd: Source)
    requires BareSource(rd)
    ensures ParseStream(rd, 176) == Ok(STREAM)
  {
    hide StreamBlocks, Joins;
    WordsComeApart(rd);
    assert StreamIds(rd(48, 32)) == [1, 0xFF, 0xFF];
    assert Mode([1, 0xFF, 0xFF]) == 1;
    assert Seeds(rd, 0) == [0, 0, 0, 0, 0];
    BytecodeIsRead(rd, [1, 0xFF, 0xFF], 1);
  }

  lemma BytecodeIsRead(rd: Source, ids: seq<nat>, mode: nat)
    requires rd(112, 8) == 1 && rd(120, 8) == 0x1E && rd(128, 8) == 62 && rd(136, 8) == 0
    ensures StreamBlocks(rd, ids, mode, Stream(112, MAX_INSTRUCTIONS, [0, 0, 0], 0, None), 1)
         == Ok(Stream(144, 254, [0, 0, 0], 0, Some(62)))
  {
    var a := Stream(120, 256, [0, 0, 0], 0, None);
    var b := Stream(136, 255, [0, 0, 0], 0, Some(62));
    assert StreamInstructions(rd, ids, mode, b) == Ok(Stream(144, 254, [0, 0, 0], 0, Some(62)));
    assert StreamInstructions(rd, ids, mode, a) == StreamInstructions(rd, ids, mode, b);
    assert OneStreamBlock(rd, ids, mode, Stream(112, 256, [0, 0, 0], 0, None))
      == Ok(Stream(144, 254, [0, 0, 0], 0, Some(62)));
  }

  // ---- heard

  /** Nothing of what was heard is still open. */
  predicate Idle(t: Track) {
    t.ones == 0 && t.pending == []
  }

  lemma {:induction false} OnesHeard(p: Parser, before: seq<i32>, b: seq<i32>, n: nat)
    requires Idle(TrackOf(p, before)) && n <= |b| && forall i | 0 <= i < n :: p.one(b[i])
    ensures TrackOf(p, before + b[..n]) == TrackOf(p, before).(ones := n)
  {
    if n == 0 {
      assert before + b[..0] == before;
    } else {
      OnesHeard(p, before, b, n - 1);
      OneMoreOne(p, before + b[..n - 1], b[n - 1]);
      assert before + b[..n] == before + b[..n - 1] + [b[n - 1]];
    }
  }

  lemma OneMoreOne(p: Parser, heard: seq<i32>, one: i32)
    requires p.one(one) && TrackOf(p, heard).pending == []
    ensures TrackOf(p, heard + [one]) == TrackOf(p, heard).(ones := TrackOf(p, heard).ones + 1)
  {
    assert (heard + [one])[..|heard|] == heard;
  }

  /** Sixteen ones that are a block of sixteen samples: the zero behind them
      reports it, and nothing does before. */
  lemma ShortestIsReported(p: Parser, before: seq<i32>, b: seq<i32>, z: i32, h: SyncHeader, info: BlockInfo)
    requires Idle(TrackOf(p, before))
    requires |b| == 16 == h.blockSize && (forall i | 0 <= i < 16 :: p.one(b[i])) && !p.one(z)
    requires p.look(b) == Some(h) && p.judge(b, h) == Ok(info)
    ensures TrackOf(p, before + b).reports == TrackOf(p, before).reports && Idle(TrackOf(p, before + b + [z]))
    ensures TrackOf(p, before + b + [z]).reports == TrackOf(p, before).reports + [Report(|before|, b, h, info)]
  {
    hide TrackOf, Listen;
    OnesHeard(p, before, b, 16);
    assert b[..16] == b;
    ZeroReports(p, before, b, z, h, info, before + b + [z], TrackOf(p, before + b));
    TrackSnoc(p, before + b, z);
  }

  lemma TrackSnoc(p: Parser, heard: seq<i32>, last: i32)
    ensures TrackOf(p, heard).ones < |heard + [last]|
    ensures TrackOf(p, heard + [last]) == Listen(p, heard + [last], TrackOf(p, heard))
  {
    assert (heard + [last])[..|heard|] == heard;
  }

  lemma ZeroReports(p: Parser, before: seq<i32>, b: seq<i32>, z: i32, h: SyncHeader, info: BlockInfo, heard: seq<i32>,
                    t: Track)
    requires heard == before + b + [z] && t.ones == |b| == 16 == h.blockSize && t.pending == [] && !p.one(z)
    requires p.look(b) == Some(h) && p.judge(b, h) == Ok(info)
    ensures Idle(Listen(p, heard, t)) && Listen(p, heard, t).reports == t.reports + [Report(|before|, b, h, info)]
  {
    hide Settled;
    assert heard[|before|..|before| + 16] == b && heard[|heard| - 1] == z;
    var c := Candidate(|before|, 16);
    var u := Proposed(p, heard, t);
    assert u.pending == [c];
    SettlesOne(p, heard, c, u);
    assert BlockOf(heard, c) == b;
  }

  lemma SettlesOne(p: Parser, heard: seq<i32>, c: Candidate, t: Track)
    requires t.pending == [c] && c.start + c.size <= |heard|
    ensures Settled(p, heard, t, 0) == Judged(p, heard, c, t.(pending := []))
  {
    hide Judged;
    assert SwapRemove(t.pending, 0) == [];
    SettlesNone(p, heard, SettledAt(p, heard, t, 0));
  }

  lemma SettlesNone(p: Parser, heard: seq<i32>, t: Track)
    requires t.pending == []
    ensures Settled(p, heard, t, 0) == t
  {
  }

  /** The block: valid, since it is sealed. */
  function Shortest(): (b: seq<i32>)
    ensures |b| == 16
  {
    Sealed(Bare())
  }

  lemma ShortestIsValid()
    ensures var p, b := BlockParser(), Shortest();
            p.look(b) == Some(HEADER) && p.judge(b, HEADER) == Ok(INFO) && forall i | 0 <= i < 16 :: p.one(b[i])
    ensures Decode.StreamOf(Shortest(), 14) == Ok(STREAM)
  {
    hide PayloadBits, Bit, Sealed, ReservedClear;
    BareAnnounces();
    SealKeepsSync(Bare());
    BareIsAccepted();
    assert ReservedClear(Bare(), 16) by {
      NoneReserved(Bare());
    }
    SealedIsAccepted(Bare(), HEADER);
    SealKeepsPayload(Bare(), 14);
    BareStream();
    assert AllSync(Shortest());
  }

  lemma NoneReserved(b: seq<i32>)
    requires |b| == 16
    ensures ReservedClear(b, 16)
  {
  }

  /** One block, from the first sample on, of one stream. */
  predicate IsTheBlock(blocks: seq<Join.Block>) {
    && |blocks| == 1 && blocks[0].start == 0 && blocks[0].size == 16
    && |blocks[0].outputs| == 1 && blocks[0].outputs[0].id == 1
  }

  lemma HeaderIsDecoded(block: seq<i32>)
    requires Decode.StreamOf(block, 14) == Ok(STREAM)
    ensures Decode.DecodedHeader(block, 14) == Ok(STREAM)
  {
    hide Decode.StreamOf, Decode.IndicesIn;
  }

  lemma ReportIsDecoded(r: Report, amplify: Restore.Amplify)
    requires r.start == 0 && |r.block| == 16 && r.header == HEADER && Decode.StreamOf(r.block, 14) == Ok(STREAM)
    ensures Carrier.BlocksOf([], amplify) == [] && IsTheBlock(Carrier.BlocksOf([r], amplify))
  {
    hide Decode.StreamOf, Decode.IndicesIn, Decode.DecodedHeader, Decode.FoldedIn, Restore.OutputOf, Restore.Ready,
      Join.Modest;
    HeaderIsDecoded(r.block);
    assert [r][..0] == [];
    assert Carrier.BlockOf(r, amplify).Some?;
  }

  /** Heard with the zero behind it, it is decoded: one stream of sixteen samples. */
  lemma ShortestIsDecoded(amplify: Restore.Amplify)
    ensures Carrier.CarrierBlocks(BlockParser(), amplify, Shortest()) == []
    ensures IsTheBlock(Carrier.CarrierBlocks(BlockParser(), amplify, Shortest() + [0]))
  {
    hide Decode.StreamOf, TrackOf, Shortest, Carrier.BlocksOf, IsTheBlock, BlockParser;
    ShortestIsValid();
    ZeroIsNoOne();
    NothingIsIdle(BlockParser());
    assert [] + Shortest() == Shortest();
    ShortestIsReported(BlockParser(), [], Shortest(), 0, HEADER, INFO);
    var r := Report(0, Shortest(), HEADER, INFO);
    assert [] + [r] == [r];
    ReportIsDecoded(r, amplify);
  }

  lemma NothingIsIdle(p: Parser)
    ensures TrackOf(p, []).reports == [] && Idle(TrackOf(p, []))
  {
  }

  lemma ZeroIsNoOne()
    ensures !BlockParser().one(0)
  {
  }

  /** An unfolder whose latency is shorter than sixteen samples releases the start
      of that block before it lands. */
  method ShortestIsStranded(amplify: Restore.Amplify, latency: nat) returns (x: Chain.CarrierUnfolder)
    requires latency < 16
    ensures x.Valid() && x.Lagging() && |x.join.told.carriers| == 1 && x.join.told.carriers[0].fed == Shortest()
    ensures 0 < x.join.released
  {
    hide Carrier.CarrierBlocks, Shortest, BlockParser;
    ShortestIsDecoded(amplify);
    x := Chain.StrandsFirstBlock(amplify, latency, Shortest(), 0);
  }
}
