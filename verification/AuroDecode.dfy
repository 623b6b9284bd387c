/** A validated block decoded: stream header, residuals, unmixing, over buffers
    allocated once and large enough for whatever a block can ask of them. */
module AuroDecode {
  import opened Bytes
  import opened AuroBits
  import opened AuroPayload
  import opened AuroHeaders
  import opened AuroRice
  import opened AuroUnmix
  import opened AuroRestore

  datatype DecodeError = StreamFailed(e: StreamError) | RiceFailed(r: RiceError) | GainOutside

  /** What the stream parser reads of a block. */
  function StreamOf(block: seq<int>, m: nat): Result<StreamBlock, StreamError> {
    ParseStream(SourceOf(PayloadBits(block, m)), |PayloadBits(block, m)|)
  }

  /** The indices a block codes, when its mode has residuals at all. */
  function IndicesIn(block: seq<int>, m: nat, s: StreamBlock): Outcome {
    Indices(SymbolReader(SourceOf(PayloadBits(block, m)), s.adaptive, s.count), Rice(s.ricePos, s.k, 0), |block|)
  }

  function BookIn(block: seq<int>, m: nat, s: StreamBlock): seq<i32> {
    Book(SourceOf(PayloadBits(block, m)), s.codebookPos, s.width, BookSize(s.count, s.mode))
  }

  /** The residuals a block codes: what its indices select from its codebook. */
  function ResidualsIn(block: seq<int>, m: nat, s: StreamBlock): (r: seq<i32>)
    requires IndicesIn(block, m, s).Ok?
    ensures |r| == Needed(Books(s.mode), |block|)
  {
    Selected(BookIn(block, m, s), s.count, Books(s.mode), IndicesIn(block, m, s).value.0)
  }

  /** Shapes every stream header has. */
  predicate Shapely(s: StreamBlock) {
    s.mode <= 3 && 8 <= s.count <= 600 && |s.seeds| == 5 && |s.gainCodes| == 3 && |s.ids| == 3
  }

  function GainsOf(s: StreamBlock): Gains {
    Gains(s.gainCodes, s.gainOffset)
  }

  /** The stream header of a block that decodes, or the first thing wrong with it. */
  function DecodedHeader(block: seq<int>, m: nat): (r: Result<StreamBlock, DecodeError>)
    ensures r.Ok? ==> Shapely(r.value) && (r.value.mode >= 2 ==> IndicesIn(block, m, r.value).Ok?)
  {
    HeadersAreShapely(SourceOf(PayloadBits(block, m)), |PayloadBits(block, m)|);
    var s := StreamOf(block, m);
    if s.Err? then Err(StreamFailed(s.error))
    else if s.value.mode >= 2 && IndicesIn(block, m, s.value).Err? then
      Err(RiceFailed(IndicesIn(block, m, s.value).error))
    else if InTable(GainsOf(s.value), s.value.mode) then Ok(s.value)
    else Err(GainOutside)
  }

  /** What such a block hands the unmixer. */
  function FoldedIn(block: seq<i32>, m: nat, s: StreamBlock): (f: Folded)
    requires Shapely(s) && (s.mode >= 2 ==> IndicesIn(block, m, s).Ok?) && m <= 31
    ensures f.carrier == block && f.m == m && Ready(s.mode, f)
  {
    Folded(m, s.seeds, block, if s.mode >= 2 then ResidualsIn(block, m, s) else [])
  }

  lemma {:induction false} GainsKept(rd: Source, ids: seq<nat>, mode: nat, s: Stream)
    ensures var r := StreamInstructions(rd, ids, mode, s); r.Ok? ==> |r.value.gains| == |s.gains|
    decreases s.budget
  {
    if s.budget > 0 {
      var op := rd(s.pos, 8);
      if OperandBits(op).Some? && op != 0 {
        GainsKept(rd, ids, mode, Executed(rd, ids, mode, s, op, OperandBits(op).value));
      }
    }
  }

  lemma {:induction false} GainsKeptByBlocks(rd: Source, ids: seq<nat>, mode: nat, s: Stream, blocks: nat)
    ensures var r := StreamBlocks(rd, ids, mode, s, blocks); r.Ok? ==> |r.value.gains| == |s.gains|
    decreases blocks
  {
    if blocks > 0 {
      GainsKept(rd, ids, mode, s.(pos := s.pos + 8));
      var next := OneStreamBlock(rd, ids, mode, s);
      if next.Ok? {
        GainsKeptByBlocks(rd, ids, mode, next.value, blocks - 1);
      }
    }
  }

  lemma HeadersAreShapely(rd: Source, length: nat)
    ensures ParseStream(rd, length).Ok? ==> Shapely(ParseStream(rd, length).value)
  {
    var ids := StreamIds(rd(48, 32));
    GainsKeptByBlocks(rd, ids, Mode(ids), Stream(112 + 32 * SeedCount(Mode(ids)), MAX_INSTRUCTIONS, [0, 0, 0], 0, None),
                      rd(16, 32) / 0x100 % 16);
  }

  class BlockDecoder {
    const payload: Payload
    const codebook: Codebook
    const residuals: array<i32>
    const a: array<i32>
    const b: array<i32>
    const c: array<i32>

    ghost predicate Valid()
      reads this, payload, payload.words, codebook
    {
      && payload.Valid() && codebook.Valid() && residuals.Length == 2 * MAX_BLOCK
      && a.Length == b.Length == c.Length == MAX_BLOCK && Apart()
    }

    ghost predicate Apart()
      reads this
    {
      && a != b && b != c && a != c && residuals !in {a, b, c} && codebook.entries !in {a, b, c, residuals}
      && payload.words as object !in {a as object, b as object, c as object}
      && payload.words as object !in {residuals as object, codebook.entries as object}
    }

    lemma RoomForBlocks()
      requires Valid()
      ensures a.Length == b.Length == c.Length == MAX_BLOCK
    {
    }

    constructor ()
      ensures Valid() && fresh(payload) && fresh(payload.words) && fresh(codebook) && fresh(codebook.entries)
      ensures fresh(residuals) && fresh(a) && fresh(b) && fresh(c)
    {
      payload := new Payload();
      codebook := new Codebook();
      residuals := new i32[2 * MAX_BLOCK](_ => 0);
      a := new i32[MAX_BLOCK](_ => 0);
      b := new i32[MAX_BLOCK](_ => 0);
      c := new i32[MAX_BLOCK](_ => 0);
    }

    /** The codebook and the residuals it selects, for a block that has any. */
    method DecodeResidualsOf(block: seq<i32>, m: nat, s: StreamBlock, ghost rd: Source)
      returns (r: Result<nat, RiceError>)
      requires Valid() && |block| <= MAX_BLOCK && Shapely(s)
      requires payload.bits == PayloadBits(block, m) && rd == SourceOf(payload.bits)
      modifies codebook, codebook.entries, residuals
      ensures Valid() && payload.bits == old(payload.bits)
      ensures IndicesIn(block, m, s).Err? ==> r == Err(IndicesIn(block, m, s).error)
      ensures IndicesIn(block, m, s).Ok? ==>
        && r == Ok(IndicesIn(block, m, s).value.1)
        && residuals[..Needed(Books(s.mode), |block|)] == ResidualsIn(block, m, s)
    {
      SourceReads(payload.bits);
      codebook.Load(payload, rd, s);
      r := DecodeResiduals(payload, rd, s, codebook, |block|, residuals);
      if r.Ok? {
        SelectsThose(residuals[..], codebook.entries[..], BookIn(block, m, s), s.count, Books(s.mode),
                     IndicesIn(block, m, s).value.0);
      }
    }

    /** One block: its streams in the first `mode` outputs, or why not. */
    method Decode(block: seq<i32>, m: nat, amplify: Amplify) returns (r: Result<StreamBlock, DecodeError>)
      requires Valid() && IsWidth(m) && |block| <= MAX_BLOCK
      modifies payload, payload.words, codebook, codebook.entries, residuals, a, b, c
      ensures Valid() && r == DecodedHeader(block, m)
      ensures r.Ok? ==>
        Unmixed(r.value.mode, FoldedIn(block, m, r.value), GainsOf(r.value), amplify, a[..], b[..], c[..])
    {
      var stream := GatherHeader(block, m);
      if stream.Err? {
        return Err(StreamFailed(stream.error));
      }
      var s := stream.value;
      if s.mode >= 2 {
        var decoded := DecodeResidualsOf(block, m, s, SourceOf(payload.bits));
        if decoded.Err? {
          return Err(RiceFailed(decoded.error));
        }
      }
      var needed := if s.mode >= 2 then Needed(Books(s.mode), |block|) else 0;
      var ok := UnmixInto(Folded(m, s.seeds, block, residuals[..needed]), s, amplify);
      return if ok then Ok(s) else Err(GainOutside);
    }

    method GatherHeader(block: seq<i32>, m: nat) returns (stream: Result<StreamBlock, StreamError>)
      requires Valid() && IsWidth(m) && |block| <= MAX_BLOCK
      modifies payload, payload.words
      ensures Valid() && payload.bits == PayloadBits(block, m) && stream == StreamOf(block, m)
      ensures stream.Ok? ==> Shapely(stream.value)
    {
      payload.Gather(block, m);
      ghost var rd := SourceOf(payload.bits);
      SourceReads(payload.bits);
      HeadersAreShapely(rd, |payload.bits|);
      stream := ReadStream(payload, rd);
    }

    method UnmixInto(f: Folded, s: StreamBlock, amplify: Amplify) returns (ok: bool)
      requires Valid() && Shapely(s) && Ready(s.mode, f) && |f.carrier| <= MAX_BLOCK
      modifies a, b, c
      ensures Valid() && (ok <==> InTable(GainsOf(s), s.mode))
      ensures ok ==> Unmixed(s.mode, f, GainsOf(s), amplify, a[..], b[..], c[..])
    {
      ok := Unmix(s.mode, f, GainsOf(s), amplify, a, b, c);
    }
  }
}
