/** The two parsers of a block's stream header: one off the samples, which only
    looks for the configuration, and one off the gathered payload, which reads
    all a decoder needs. */
module AuroHeaders {
  import opened Bytes
  import opened AuroBits
  import opened AuroPayload

  const MAX_ADOL_INSTRUCTIONS := 64
  const MAX_INSTRUCTIONS := 256

  /** `n` bits of a payload from `pos` on, as a number. */
  type Source = (nat, nat) -> nat

  function Window(bits: seq<bit>, pos: nat, n: nat): (r: seq<bit>)
    ensures |r| == n
  {
    if n == 0 then [] else Window(bits, pos, n - 1) + [BitOrZero(bits, pos + n - 1)]
  }

  function ReadBits(bits: seq<bit>, pos: nat, n: nat): nat {
    Value(Window(bits, pos, n))
  }

  function SourceOf(bits: seq<bit>): Source {
    (pos: nat, n: nat) => ReadBits(bits, pos, n)
  }

  /** The source reads this payload. (The trigger keeps the reading itself out of
      the parsers' proofs.) */
  ghost predicate Reads(rd: Source, bits: seq<bit>) {
    forall pos, n {:trigger ReadBits(bits, pos, n)} :: rd(pos, n) == ReadBits(bits, pos, n)
  }

  lemma SourceReads(bits: seq<bit>)
    ensures Reads(SourceOf(bits), bits)
  {
  }

  /** Reading fields one by one or together is the same. */
  ghost predicate JoinsAt(rd: Source, pos: nat, a: nat, b: nat) {
    rd(pos, a + b) == rd(pos, a) * Pow2(b) + rd(pos + a, b) && rd(pos, a) < Pow2(a)
  }

  ghost predicate Joins(rd: Source) {
    forall pos, a, b :: JoinsAt(rd, pos, a, b)
  }

  lemma {:induction false} WindowConcat(bits: seq<bit>, pos: nat, a: nat, b: nat)
    ensures Window(bits, pos, a + b) == Window(bits, pos, a) + Window(bits, pos + a, b)
  {
    if b > 0 {
      WindowConcat(bits, pos, a, b - 1);
    }
  }

  lemma ReadBitsJoin(bits: seq<bit>)
    ensures Joins(SourceOf(bits))
  {
    forall pos: nat, a: nat, b: nat
      ensures JoinsAt(SourceOf(bits), pos, a, b)
    {
      WindowsJoin(bits, pos, a, b);
    }
  }

  lemma WindowsJoin(bits: seq<bit>, pos: nat, a: nat, b: nat)
    ensures ReadBits(bits, pos, a + b) == ReadBits(bits, pos, a) * Pow2(b) + ReadBits(bits, pos + a, b)
    ensures ReadBits(bits, pos, a) < Pow2(a)
  {
    var front, back := Window(bits, pos, a), Window(bits, pos + a, b);
    WindowConcat(bits, pos, a, b);
    ValueConcat(front, back);
    ValueBound(front);
  }

  lemma BitIsRead(bits: seq<bit>, pos: nat)
    ensures ReadBits(bits, pos, 1) == BitOrZero(bits, pos)
  {
    ValueSnoc([], BitOrZero(bits, pos));
    assert Window(bits, pos, 0) == [];
    assert Window(bits, pos, 1) == [] + [BitOrZero(bits, pos)];
  }

  // ---- the cursor over the gathered payload, and the reader over the samples

  class Cursor {
    const payload: Payload
    ghost const rd: Source
    var pos: nat

    ghost predicate Valid()
      reads payload, payload.words
    {
      payload.Valid() && Reads(rd, payload.bits)
    }

    constructor (payload: Payload, pos: nat, ghost rd: Source)
      requires payload.Valid() && Reads(rd, payload.bits)
      ensures Valid() && this.payload == payload && this.pos == pos && this.rd == rd
    {
      this.payload := payload;
      this.pos := pos;
      this.rd := rd;
    }

    method Bit() returns (b: bit)
      requires Valid()
      modifies this
      ensures Valid() && b == rd(old(pos), 1) && pos == old(pos) + 1
    {
      b := payload.BitAt(pos);
      BitIsRead(payload.bits, pos);
      pos := pos + 1;
    }

    method Read(n: nat) returns (v: nat)
      requires Valid()
      modifies this
      ensures Valid() && v == rd(old(pos), n) && pos == old(pos) + n
    {
      v := 0;
      for i := 0 to n
        invariant Valid() && payload.bits == old(payload.bits)
        invariant pos == old(pos) + i && v == ReadBits(payload.bits, old(pos), i)
      {
        ValueSnoc(Window(payload.bits, old(pos), i), BitOrZero(payload.bits, pos));
        v := 2 * v + payload.BitAt(pos);
        pos := pos + 1;
      }
    }
  }

  datatype BlockError = Truncated | ReservedBit | BadCrc | Underrun | StreamCount | AdolTag | AdolOpcode(op: nat)

  /** A field of the payload view, or the error of a payload that ends inside it. */
  function TryRead(rd: Source, length: nat, pos: nat, n: nat): Result<nat, BlockError> {
    if pos + n <= length then Ok(rd(pos, n)) else Err(Underrun)
  }

  /** The reader over a block's samples, which finds each bit through the closed
      form and stops where that leaves the block. `pos` counts from the first
      bit after the header planes. */
  class BitReader {
    const samples: seq<int>
    const m: nat
    ghost const rd: Source
    ghost const length: nat
    var pos: nat

    ghost predicate Valid() {
      IsWidth(m) && length == |PayloadBits(samples, m)| && Reads(rd, PayloadBits(samples, m))
    }

    constructor (samples: seq<int>, m: nat, ghost rd: Source)
      requires IsWidth(m) && Reads(rd, PayloadBits(samples, m))
      ensures Valid() && this.samples == samples && this.m == m && pos == 0
      ensures this.rd == rd && length == |PayloadBits(samples, m)|
    {
      this.samples := samples;
      this.m := m;
      this.rd := rd;
      length := |PayloadBits(samples, m)|;
      pos := 0;
    }

    method ReadBit() returns (r: Option<bit>)
      requires Valid()
      modifies this
      ensures r == if old(pos) < length then Some(PayloadBits(samples, m)[old(pos)]) else None
      ensures pos == old(pos) + if r.Some? then 1 else 0
    {
      var (idx, b) := BitLocation(48 + pos, m, true);
      LocationEndsWithPayload(samples, m, pos);
      if idx >= |samples| {
        return None;
      }
      TraversalsAgree(samples, m, pos);
      r := Some(Bit(samples[idx], b));
      pos := pos + 1;
    }

    method Read(n: nat) returns (r: Result<nat, BlockError>)
      requires Valid() && n > 0
      modifies this
      ensures r == TryRead(rd, length, old(pos), n)
      ensures r.Ok? ==> pos == old(pos) + n
    {
      var v: nat := 0;
      ghost var bits := PayloadBits(samples, m);
      for i := 0 to n
        invariant pos == old(pos) + i && v == ReadBits(bits, old(pos), i) && (i > 0 ==> pos <= length)
      {
        var bit := ReadBit();
        if bit.None? {
          return Err(Underrun);
        }
        ValueSnoc(Window(bits, old(pos), i), bit.value);
        v := 2 * v + bit.value;
      }
      return Ok(v);
    }
  }

  // ---- what the two parsers read, as functions of the payload

  /** How many operand bits follow an ADOL opcode both parsers know. */
  function OperandBits(op: nat): Option<nat> {
    if op == 0x00 then Some(0)
    else if op == 0x01 || op == 0x03 || 0x5A <= op <= 0x62 || op == 0x40 then Some(16)
    else if op in {0x02, 0x04, 0x1E, 0x1F, 0x41, 0x47} || 0x50 <= op <= 0x58 then Some(8)
    else if op == 0x0E || op == 0x46 || 0x6E <= op <= 0x76 || 0x80 <= op <= 0x85 || 0x8C <= op <= 0x90 then Some(32)
    else if 0x64 <= op <= 0x6C then Some(24)
    else None
  }

  /** Where the block parser stands in the bytecode. */
  datatype Adol = Adol(pos: nat, count: nat, config: Option<nat>)

  function AdolInstructions(rd: Source, length: nat, a: Adol): Result<Adol, BlockError>
    decreases MAX_ADOL_INSTRUCTIONS - a.count
  {
    if a.count >= MAX_ADOL_INSTRUCTIONS then Err(Underrun)
    else if a.pos + 8 > length then Err(Underrun)
    else
      var op := rd(a.pos, 8);
      var operand := OperandBits(op);
      if operand.None? then Err(AdolOpcode(op))
      else if a.pos + 8 + operand.value > length then Err(Underrun)
      else
        var config := if op == 0x1E then Some(rd(a.pos + 8, 8)) else a.config;
        var next := Adol(a.pos + 8 + operand.value, a.count + 1, config);
        if op == 0 then Ok(next) else AdolInstructions(rd, length, next)
  }

  function AdolBlocks(rd: Source, length: nat, a: Adol, blocks: nat): Result<Adol, BlockError>
    decreases blocks
  {
    if blocks == 0 then Ok(a)
    else if a.pos + 8 > length then Err(Underrun)
    else if rd(a.pos, 8) != 1 then Err(AdolTag)
    else
      match AdolInstructions(rd, length, a.(pos := a.pos + 8))
      case Err(e) => Err(e)
      case Ok(next) => AdolBlocks(rd, length, next, blocks - 1)
  }

  function Present(id: nat): nat {
    if id == 0xFF then 0 else 1
  }

  datatype BlockFields = BlockFields(streamIds: seq<nat>, config: Option<nat>, instructions: nat, end: nat)

  /** The predictor seeds a number of streams brings, in 32-bit words. */
  function TableWords(streams: nat): Option<nat> {
    if streams <= 1 then Some(0) else if streams == 2 then Some(2) else if streams == 3 then Some(5) else None
  }

  /** The configuration parser, from the first bit after the header planes. */
  function ParseFields(rd: Source, length: nat): Result<BlockFields, BlockError> {
    if length < 112 then Err(Underrun)
    else
      var ids := [rd(48, 8), rd(56, 8), rd(64, 8), rd(72, 8)];
      var table := TableWords(Present(ids[0]) + Present(ids[1]) + Present(ids[2]) + Present(ids[3]));
      if table.None? then Err(StreamCount)
      else if 112 + 32 * table.value > length then Err(Underrun)
      else
        match AdolBlocks(rd, length, Adol(112 + 32 * table.value, 0, None), rd(32, 8))
        case Err(e) => Err(e)
        case Ok(a) => Ok(BlockFields(ids, a.config, a.count, a.pos))
  }

  datatype StreamError = Header | CountCode | StreamTag | StreamOpcode(op: nat) | AdolRunaway | CodebookOverrun

  /** Where the stream parser stands, and what the bytecode has told it. */
  datatype Stream = Stream(pos: nat, budget: nat, gains: seq<nat>, offset: nat, config: Option<nat>)

  /** What one instruction leaves behind. */
  function Executed(rd: Source, ids: seq<nat>, mode: nat, s: Stream, op: nat, operandBits: nat): Stream
    requires s.budget > 0
  {
    var next := s.(pos := s.pos + 8 + operandBits, budget := s.budget - 1);
    if op == 0x40 then next.(gains := SetGains(ids, mode, s.gains, rd(s.pos + 8, 8), rd(s.pos + 16, 8)))
    else if op == 0x41 then next.(offset := rd(s.pos + 8, 8))
    else if op == 0x1E then next.(config := Some(rd(s.pos + 8, 8)))
    else next
  }

  /** The gain code of every folded stream a channel names. */
  function SetGains(ids: seq<nat>, mode: nat, gains: seq<nat>, channel: nat, scaler: nat): (r: seq<nat>)
    ensures |r| == |gains|
  {
    seq(|gains|, j requires 0 <= j < |gains| => if j < mode && j < |ids| && ids[j] == channel then scaler else gains[j])
  }

  function StreamInstructions(rd: Source, ids: seq<nat>, mode: nat, s: Stream): Result<Stream, StreamError>
    decreases s.budget
  {
    if s.budget == 0 then Err(AdolRunaway)
    else
      var op := rd(s.pos, 8);
      var operand := OperandBits(op);
      if operand.None? then Err(StreamOpcode(op))
      else
        var next := Executed(rd, ids, mode, s, op, operand.value);
        if op == 0 then Ok(next) else StreamInstructions(rd, ids, mode, next)
  }

  /** One ADOL block: instructions, or words to step over. */
  function OneStreamBlock(rd: Source, ids: seq<nat>, mode: nat, s: Stream): Result<Stream, StreamError> {
    if rd(s.pos, 8) == 1 then StreamInstructions(rd, ids, mode, s.(pos := s.pos + 8))
    else if rd(s.pos, 8) == 2 then Ok(s.(pos := s.pos + 32 + 32 * (rd(s.pos + 8, 24) / 65536 % 256)))
    else Err(StreamTag)
  }

  function StreamBlocks(rd: Source, ids: seq<nat>, mode: nat, s: Stream, blocks: nat): Result<Stream, StreamError>
    decreases blocks
  {
    if blocks == 0 then Ok(s)
    else
      match OneStreamBlock(rd, ids, mode, s)
      case Err(e) => Err(e)
      case Ok(next) => StreamBlocks(rd, ids, mode, next, blocks - 1)
  }

  function CodebookCount(code: nat): (r: Option<nat>)
    ensures r.Some? ==> 8 <= r.value <= 600
  {
    if code <= 4 then Some(2 * code + 8)
    else if code <= 15 then Some(4 * code)
    else if code <= 0x53 then Some(8 * code - 64)
    else None
  }

  datatype StreamBlock = StreamBlock(
    ids: seq<nat>, mode: nat, seeds: seq<i32>, gainCodes: seq<nat>, gainOffset: nat, config: Option<nat>,
    k: nat, adaptive: bool, count: nat, width: nat, codebookPos: nat, ricePos: nat)

  /** A 32-bit word as a signed number. */
  function ToI32(v: nat): i32 {
    if v % 0x1_0000_0000 >= 0x8000_0000 then v % 0x1_0000_0000 - 0x1_0000_0000 else v % 0x1_0000_0000
  }

  function HeaderAccepted(hdr: nat): bool {
    hdr < 0x200 && (hdr < 0x100 || hdr % 256 < 0xB)
  }

  /** How many streams are folded: none when a slot ahead of a present one is empty. */
  function Mode(ids: seq<nat>): (mode: nat)
    requires |ids| == 3
    ensures mode <= 3
  {
    var mode := Present(ids[0]) + Present(ids[1]) + Present(ids[2]);
    if exists j | 0 <= j < mode :: ids[j] == 0xFF then 0 else mode
  }

  function Seeds(rd: Source, n: nat): (r: seq<i32>)
    requires n <= 5
  {
    seq(5, i requires 0 <= i < 5 => if i < n then ToI32(rd(112 + 32 * i, 32)) else 0)
  }

  function SeedCount(mode: nat): nat {
    if mode == 3 then 5 else if mode == 2 then 2 else 0
  }

  function CodebookBits(mode: nat, count: nat, width: nat): nat {
    count * width * if mode == 3 then 2 else 1
  }

  /** The three stream-id slots a decoder uses. */
  function StreamIds(idsWord: nat): (ids: seq<nat>)
    ensures |ids| == 3
  {
    [idsWord / 0x1000000 % 256, idsWord / 0x10000 % 256, idsWord / 0x100 % 256]
  }

  /** The codebook follows the bytecode, and the coded indices the codebook. */
  function StreamResult(w: nat, ids: seq<nat>, seeds: seq<i32>, count: nat, s: Stream, length: nat)
    : Result<StreamBlock, StreamError>
    requires |ids| == 3
  {
    var rice := s.pos + CodebookBits(Mode(ids), count, w % 256);
    if rice > length then Err(CodebookOverrun)
    else Ok(StreamBlock(ids, Mode(ids), seeds, s.gains, s.offset, s.config,
                        w / 0x1000000 % 16, w / 0x40000000 % 2 == 1, count, w % 256, s.pos, rice))
  }

  /** The stream parser, over the gathered payload. */
  function ParseStream(rd: Source, length: nat): Result<StreamBlock, StreamError> {
    var w := rd(16, 32);
    var ids := StreamIds(rd(48, 32));
    var seedCount := SeedCount(Mode(ids));
    var count := CodebookCount(w / 0x10000 % 256);
    if !HeaderAccepted(rd(0, 16)) then Err(Header)
    else if count.None? then Err(CountCode)
    else
      match StreamBlocks(rd, ids, Mode(ids), Stream(112 + 32 * seedCount, MAX_INSTRUCTIONS, [0, 0, 0], 0, None),
        w / 0x100 % 16)
      case Err(e) => Err(e)
      case Ok(s) => StreamResult(w, ids, Seeds(rd, seedCount), count.value, s, length)
  }

  // ---- the parsers themselves

  /** One run of instructions, to its terminator. */
  method RunInstructions(c: Cursor, ids: seq<nat>, mode: nat, start: Stream) returns (r: Result<Stream, StreamError>)
    requires c.Valid() && c.pos == start.pos
    modifies c
    ensures c.Valid()
    ensures r == StreamInstructions(c.rd, ids, mode, start)
    ensures r.Ok? ==> c.pos == r.value.pos
  {
    ghost var rd := c.rd;
    var s := start;
    while s.budget > 0
      invariant c.Valid() && c.pos == s.pos
      invariant StreamInstructions(rd, ids, mode, s) == StreamInstructions(rd, ids, mode, start)
      decreases s.budget
    {
      var op := c.Read(8);
      var operandBits := OperandBits(op);
      if operandBits.None? {
        return Err(StreamOpcode(op));
      }
      var operands := ReadOperands(c, op, operandBits.value);
      var next := s.(pos := c.pos, budget := s.budget - 1);
      if op == 0x40 {
        next := next.(gains := SetGains(ids, mode, s.gains, operands.0, operands.1));
      } else if op == 0x41 {
        next := next.(offset := operands.0);
      } else if op == 0x1E {
        next := next.(config := Some(operands.0));
      }
      assert next == Executed(rd, ids, mode, s, op, operandBits.value);
      s := next;
      if op == 0 {
        return Ok(s);
      }
    }
    return Err(AdolRunaway);
  }

  /** An instruction's operands: two bytes for `0x40`, one number for the others. */
  method ReadOperands(c: Cursor, op: nat, bits: nat) returns (v: (nat, nat))
    requires c.Valid() && OperandBits(op) == Some(bits)
    modifies c
    ensures c.Valid()
    ensures c.pos == old(c.pos) + bits
    ensures op == 0x40 ==> v == (c.rd(old(c.pos), 8), c.rd(old(c.pos) + 8, 8))
    ensures op != 0x40 ==> v.0 == c.rd(old(c.pos), bits)
  {
    if op == 0x40 {
      var channel := c.Read(8);
      var scaler := c.Read(8);
      v := (channel, scaler);
    } else {
      var operand := c.Read(bits);
      v := (operand, 0);
    }
  }

  method RunBlock(c: Cursor, ids: seq<nat>, mode: nat, start: Stream) returns (r: Result<Stream, StreamError>)
    requires c.Valid() && c.pos == start.pos
    modifies c
    ensures c.Valid() && r == OneStreamBlock(c.rd, ids, mode, start)
    ensures r.Ok? ==> c.pos == r.value.pos
  {
    var tag := c.Read(8);
    if tag == 1 {
      r := RunInstructions(c, ids, mode, start.(pos := c.pos));
    } else if tag == 2 {
      var n := c.Read(24);
      SkipWords(c, n / 65536 % 256);
      r := Ok(start.(pos := c.pos));
    } else {
      r := Err(StreamTag);
    }
  }

  method SkipWords(c: Cursor, n: nat)
    requires c.Valid()
    modifies c
    ensures c.Valid() && c.pos == old(c.pos) + 32 * n
  {
    for i := 0 to n
      invariant c.Valid() && c.pos == old(c.pos) + 32 * i
    {
      var word := c.Read(32);
    }
  }

  method RunBlocks(c: Cursor, ids: seq<nat>, mode: nat, start: Stream, blocks: nat)
    returns (r: Result<Stream, StreamError>)
    requires c.Valid() && c.pos == start.pos
    modifies c
    ensures c.Valid() && r == StreamBlocks(c.rd, ids, mode, start, blocks)
  {
    var s := start;
    for done := 0 to blocks
      invariant c.Valid() && c.pos == s.pos
      invariant StreamBlocks(c.rd, ids, mode, s, blocks - done) == StreamBlocks(c.rd, ids, mode, start, blocks)
    {
      var ran := RunBlock(c, ids, mode, s);
      if ran.Err? {
        return ran;
      }
      s := ran.value;
    }
    return Ok(s);
  }

  method ReadSeeds(c: Cursor, n: nat) returns (seeds: seq<i32>)
    requires c.Valid() && n <= 5 && c.pos == 112
    modifies c
    ensures c.Valid() && c.pos == 112 + 32 * n && seeds == Seeds(c.rd, n)
  {
    var a := new i32[5](_ => 0);
    for i := 0 to n
      invariant c.Valid() && c.pos == 112 + 32 * i
      invariant forall j | 0 <= j < 5 :: a[j] == if j < i then ToI32(c.rd(112 + 32 * j, 32)) else 0
    {
      var seed := c.Read(32);
      a[i] := ToI32(seed);
    }
    seeds := a[..];
  }

  method ReadStream(payload: Payload, ghost rd: Source) returns (r: Result<StreamBlock, StreamError>)
    requires payload.Valid() && Reads(rd, payload.bits)
    ensures r == ParseStream(rd, |payload.bits|)
  {
    var c := new Cursor(payload, 0, rd);
    var hdr, w, idsWord := ReadFixed(c);
    if !(hdr < 0x200 && (hdr < 0x100 || hdr % 256 < 0xB)) {
      return Err(Header);
    }
    var ids := StreamIds(idsWord);
    var mode := Mode(ids);
    var seeds := ReadSeeds(c, SeedCount(mode));
    var count := CodebookCount(w / 0x10000 % 256);
    if count.None? {
      return Err(CountCode);
    }
    var start := Stream(c.pos, MAX_INSTRUCTIONS, [0, 0, 0], 0, None);
    var s := RunBlocks(c, ids, mode, start, w / 0x100 % 16);
    if s.Err? {
      return Err(s.error);
    }
    r := StreamResult(w, ids, seeds, count.value, s.value, payload.lenBits);
  }

  method ReadFixed(c: Cursor) returns (hdr: nat, w: nat, idsWord: nat)
    requires c.Valid() && c.pos == 0
    modifies c
    ensures c.Valid() && c.pos == 112
    ensures hdr == c.rd(0, 16) && w == c.rd(16, 32) && idsWord == c.rd(48, 32)
  {
    hdr := c.Read(16);
    w := c.Read(32);
    idsWord := c.Read(32);
    var ids2 := c.Read(32);
  }

  method ReadInstructions(reader: BitReader, start: Adol) returns (r: Result<Adol, BlockError>)
    requires reader.Valid() && reader.pos == start.pos
    modifies reader
    ensures r == AdolInstructions(reader.rd, reader.length, start)
    ensures r.Ok? ==> reader.pos == r.value.pos
  {
    ghost var rd, length := reader.rd, reader.length;
    var a := start;
    while a.count < MAX_ADOL_INSTRUCTIONS
      invariant reader.pos == a.pos && AdolInstructions(rd, length, a) == AdolInstructions(rd, length, start)
      decreases MAX_ADOL_INSTRUCTIONS - a.count
    {
      var op := reader.Read(8);
      if op.Err? {
        return Err(op.error);
      }
      var operandBits := OperandBits(op.value);
      if operandBits.None? {
        return Err(AdolOpcode(op.value));
      }
      var operand: Result<nat, BlockError> := Ok(0);
      if operandBits.value > 0 {
        operand := reader.Read(operandBits.value);
      }
      if operand.Err? {
        return Err(operand.error);
      }
      a := Adol(reader.pos, a.count + 1, if op.value == 0x1E then Some(operand.value) else a.config);
      if op.value == 0 {
        return Ok(a);
      }
    }
    return Err(Underrun);
  }

  method ReadAdol(reader: BitReader, start: Adol, blocks: nat) returns (r: Result<Adol, BlockError>)
    requires reader.Valid() && reader.pos == start.pos
    modifies reader
    ensures r == AdolBlocks(reader.rd, reader.length, start, blocks)
  {
    ghost var rd, length := reader.rd, reader.length;
    var a := start;
    for done := 0 to blocks
      invariant reader.pos == a.pos
      invariant AdolBlocks(rd, length, a, blocks - done) == AdolBlocks(rd, length, start, blocks)
    {
      var tag := reader.Read(8);
      if tag.Err? {
        return Err(tag.error);
      }
      if tag.value != 1 {
        return Err(AdolTag);
      }
      var ran := ReadInstructions(reader, a.(pos := reader.pos));
      if ran.Err? {
        return Err(ran.error);
      }
      a := ran.value;
    }
    return Ok(a);
  }

  // ---- where they agree

  lemma {:induction false} InstructionsAgree(rd: Source, length: nat, a: Adol, ids: seq<nat>, mode: nat, s: Stream)
    requires AdolInstructions(rd, length, a).Ok?
    requires s.pos == a.pos && s.config == a.config && s.budget + a.count >= MAX_INSTRUCTIONS
    ensures var b, t := AdolInstructions(rd, length, a).value, StreamInstructions(rd, ids, mode, s);
            t.Ok? && t.value.pos == b.pos && t.value.config == b.config && t.value.budget + b.count >= MAX_INSTRUCTIONS
    decreases MAX_ADOL_INSTRUCTIONS - a.count
  {
    var op := rd(a.pos, 8);
    if op != 0 {
      var config := if op == 0x1E then Some(rd(a.pos + 8, 8)) else a.config;
      var next := Adol(a.pos + 8 + OperandBits(op).value, a.count + 1, config);
      InstructionsAgree(rd, length, next, ids, mode, Executed(rd, ids, mode, s, op, OperandBits(op).value));
    }
  }

  lemma {:induction false} BlocksAgree(rd: Source, length: nat, a: Adol, ids: seq<nat>, mode: nat, s: Stream,
                                       blocks: nat)
    requires AdolBlocks(rd, length, a, blocks).Ok?
    requires s.pos == a.pos && s.config == a.config && s.budget + a.count >= MAX_INSTRUCTIONS
    ensures var b, t := AdolBlocks(rd, length, a, blocks).value, StreamBlocks(rd, ids, mode, s, blocks);
            t.Ok? && t.value.pos == b.pos && t.value.config == b.config
    decreases blocks
  {
    if blocks > 0 {
      hide AdolInstructions, OneStreamBlock;
      OneBlockAgrees(rd, length, a, ids, mode, s);
      BlocksAgree(rd, length, AdolInstructions(rd, length, a.(pos := a.pos + 8)).value, ids, mode,
                  OneStreamBlock(rd, ids, mode, s).value, blocks - 1);
    }
  }

  lemma OneBlockAgrees(rd: Source, length: nat, a: Adol, ids: seq<nat>, mode: nat, s: Stream)
    requires rd(a.pos, 8) == 1 && AdolInstructions(rd, length, a.(pos := a.pos + 8)).Ok?
    requires s.pos == a.pos && s.config == a.config && s.budget + a.count >= MAX_INSTRUCTIONS
    ensures var b, t := AdolInstructions(rd, length, a.(pos := a.pos + 8)).value, OneStreamBlock(rd, ids, mode, s);
            t.Ok? && t.value.pos == b.pos && t.value.config == b.config && t.value.budget + b.count >= MAX_INSTRUCTIONS
  {
    hide AdolInstructions, StreamInstructions;
    InstructionsAgree(rd, length, a.(pos := a.pos + 8), ids, mode, s.(pos := s.pos + 8));
  }

  lemma FourBytes(w: nat, a: nat, b: nat, c: nat, d: nat)
    requires w == a * 0x1000000 + b * 0x10000 + c * 0x100 + d && b < 256 && c < 256 && d < 256
    ensures w / 0x1000000 == a && w / 0x10000 % 256 == b && w / 0x100 % 256 == c && w % 256 == d
  {
    QuotientUnique(w, 0x1000000, a, b * 0x10000 + c * 0x100 + d);
    QuotientUnique(w, 0x10000, a * 256 + b, c * 0x100 + d);
    QuotientUnique(a * 256 + b, 256, a, b);
    QuotientUnique(w, 0x100, (a * 256 + b) * 256 + c, d);
    QuotientUnique((a * 256 + b) * 256 + c, 256, a * 256 + b, c);
    QuotientUnique(w, 256, (a * 256 + b) * 256 + c, d);
  }

  lemma FourBytesRead(rd: Source, pos: nat)
    requires Joins(rd)
    ensures rd(pos, 32) == rd(pos, 8) * 0x1000000 + rd(pos + 8, 8) * 0x10000 + rd(pos + 16, 8) * 0x100 + rd(pos + 24, 8)
    ensures rd(pos, 8) < 256 && rd(pos + 8, 8) < 256 && rd(pos + 16, 8) < 256 && rd(pos + 24, 8) < 256
  {
    assert JoinsAt(rd, pos, 8, 24) && JoinsAt(rd, pos + 8, 8, 16) && JoinsAt(rd, pos + 16, 8, 8)
      && JoinsAt(rd, pos + 24, 8, 0);
    Powers();
  }

  /** Bytes read together come apart by shifting and masking. */
  lemma WordsComeApart(rd: Source)
    requires Joins(rd)
    ensures var w, ids := rd(16, 32), rd(48, 32);
            && w % 256 == rd(40, 8) && w / 0x100 % 16 == rd(32, 8) % 16
            && w / 0x100 % 256 == rd(32, 8) && w / 0x10000 % 256 == rd(24, 8)
            && ids / 0x1000000 % 256 == rd(48, 8) && ids / 0x10000 % 256 == rd(56, 8) && ids / 0x100 % 256 == rd(64, 8)
  {
    FourBytesRead(rd, 16);
    FourBytesRead(rd, 48);
    FourBytes(rd(16, 32), rd(16, 8), rd(24, 8), rd(32, 8), rd(40, 8));
    FourBytes(rd(48, 32), rd(48, 8), rd(56, 8), rd(64, 8), rd(72, 8));
    NibbleOfByte(rd(16, 32) / 0x100, rd(32, 8));
  }

  lemma NibbleOfByte(w: nat, b: nat)
    requires w % 256 == b
    ensures w % 16 == b % 16
  {
  }

  lemma Powers()
    ensures Pow2(0) == 1 && Pow2(8) == 0x100 && Pow2(16) == 0x10000 && Pow2(24) == 0x1000000
  {
    assert Pow2(4) == 16;
    Pow2Add(4, 4);
    Pow2Add(8, 8);
    Pow2Add(8, 16);
  }

  /** When the configuration parser accepts a payload of fewer than sixteen ADOL
      blocks whose first three stream ids leave no gap and whose fourth slot is
      empty, the stream parser fails for exactly the three reasons of its own (a
      header it does not know, a codebook size with no meaning, a codebook that
      runs past the payload), and otherwise reads the same configuration and finds
      its codebook where the first one stopped. */
  lemma HeadersAgree(rd: Source, length: nat)
    requires Joins(rd) && ParseFields(rd, length).Ok? && rd(32, 8) < 16
    requires (rd(48, 8) == 0xFF ==> rd(56, 8) == 0xFF) && (rd(56, 8) == 0xFF ==> rd(64, 8) == 0xFF) && rd(72, 8) == 0xFF
    ensures var b, s := ParseFields(rd, length).value, ParseStream(rd, length);
            var count := CodebookCount(rd(24, 8));
            && (s == Err(Header) <==> !HeaderAccepted(rd(0, 16)))
            && (s == Err(CountCode) <==> HeaderAccepted(rd(0, 16)) && count.None?)
            && (s == Err(CodebookOverrun) <==>
                  && HeaderAccepted(rd(0, 16)) && count.Some?
                  && b.end + CodebookBits(Mode([rd(48, 8), rd(56, 8), rd(64, 8)]), count.value, rd(40, 8)) > length)
            && (s.Err? ==> s.error == Header || s.error == CountCode || s.error == CodebookOverrun)
            && (s.Ok? ==> s.value.config == b.config && s.value.codebookPos == b.end)
  {
    hide ParseStream, ParseFields, StreamBlocks, AdolBlocks, HeaderAccepted, CodebookCount, CodebookBits, Mode,
      SeedCount, Joins;
    WordsComeApart(rd);
    var ids, blocks := StreamIds(rd(48, 32)), rd(32, 8);
    var start := 112 + 32 * SeedCount(Mode(ids));
    var t := StreamBlocks(rd, ids, Mode(ids), Stream(start, MAX_INSTRUCTIONS, [0, 0, 0], 0, None), blocks);
    FieldsAccepted(rd, length, ids);
    BlocksAgree(rd, length, Adol(start, 0, None), ids, Mode(ids),
      Stream(start, MAX_INSTRUCTIONS, [0, 0, 0], 0, None), blocks);
    AfterTheBytecode(rd, length, ids, blocks, rd(24, 8), rd(40, 8), t);
  }

  /** Past the bytecode, the stream parser has three reasons left to refuse. */
  lemma AfterTheBytecode(rd: Source, length: nat, ids: seq<nat>, blocks: nat, code: nat, width: nat,
                         t: Result<Stream, StreamError>)
    requires |ids| == 3 && ids == StreamIds(rd(48, 32))
    requires blocks == rd(16, 32) / 0x100 % 16 && code == rd(16, 32) / 0x10000 % 256
    requires width == rd(16, 32) % 256
    requires t == StreamBlocks(rd, ids, Mode(ids),
      Stream(112 + 32 * SeedCount(Mode(ids)), MAX_INSTRUCTIONS, [0, 0, 0], 0, None), blocks)
    requires t.Ok?
    ensures var s, count := ParseStream(rd, length), CodebookCount(code);
            && (s == Err(Header) <==> !HeaderAccepted(rd(0, 16)))
            && (s == Err(CountCode) <==> HeaderAccepted(rd(0, 16)) && count.None?)
            && (s == Err(CodebookOverrun) <==>
                  && HeaderAccepted(rd(0, 16)) && count.Some?
                  && t.value.pos + CodebookBits(Mode(ids), count.value, width) > length)
            && (s.Err? ==> s.error == Header || s.error == CountCode || s.error == CodebookOverrun)
            && (s.Ok? ==> s.value.config == t.value.config && s.value.codebookPos == t.value.pos)
  {
  }

  /** An accepted payload without gaps has as many seed words as its mode says. */
  lemma FieldsAccepted(rd: Source, length: nat, ids: seq<nat>)
    requires ParseFields(rd, length).Ok? && ids == [rd(48, 8), rd(56, 8), rd(64, 8)]
    requires (ids[0] == 0xFF ==> ids[1] == 0xFF) && (ids[1] == 0xFF ==> ids[2] == 0xFF) && rd(72, 8) == 0xFF
    ensures var start := Adol(112 + 32 * SeedCount(Mode(ids)), 0, None);
            var a, b := AdolBlocks(rd, length, start, rd(32, 8)), ParseFields(rd, length).value;
            a.Ok? && a.value.config == b.config && a.value.pos == b.end
  {
    ModeWithoutGaps(ids);
  }

  lemma ModeWithoutGaps(ids: seq<nat>)
    requires |ids| == 3 && (ids[0] == 0xFF ==> ids[1] == 0xFF) && (ids[1] == 0xFF ==> ids[2] == 0xFF)
    ensures Mode(ids) == Present(ids[0]) + Present(ids[1]) + Present(ids[2])
  {
  }
}
