/** Residuals: a Golomb-Rice coded index per sample selects an entry of the
    block's codebook, or one of each of two codebooks laid end to end. */
module AuroRice {
  import opened Bytes
  import opened AuroPayload
  import opened AuroHeaders

  const MAX_PREFIX := 64
  const MAX_CODEBOOK := 1200
  const WINDOW := 32

  datatype RiceError = Index | Prefix

  // ---- the codebook

  /** A codebook entry: sign and magnitude below 32 bits, two's complement above. */
  function Entry(v: nat, width: nat): i32 {
    if width == 0 then 0
    else if width >= 32 then ToI32(v)
    else
      var top := Pow2(width - 1);
      MagnitudeFits(v, width);
      if v / top % 2 == 1 then -(v % top) else v % top
  }

  lemma MagnitudeFits(v: nat, width: nat)
    requires 0 < width < 32
    ensures v % Pow2(width - 1) < 0x4000_0000
  {
    assert Pow2(30) == 0x4000_0000 by {
      assert Pow2(10) == 0x400 && Pow2(20) == 0x10_0000;
    }
    Pow2Monotone(width - 1, 30);
  }

  /** The codebook of a block. */
  function Book(rd: Source, pos: nat, width: nat, n: nat): (r: seq<i32>)
    ensures |r| == n
  {
    seq(n, i requires 0 <= i < n => EntryAt(rd, pos, width, i))
  }

  function EntryAt(rd: Source, pos: nat, width: nat, i: nat): i32 {
    Entry(rd(pos + i * width, width), width)
  }

  /** A fold of three streams has two residuals a sample, from two codebooks. */
  function Books(mode: nat): nat {
    if mode == 3 then 2 else 1
  }

  /** Two streams share an index, each with values of its own. */
  function Needed(streams: nat, n: nat): nat {
    if streams == 2 then 2 * n else n
  }

  function BookSize(count: nat, mode: nat): nat {
    Needed(Books(mode), count)
  }

  class Codebook {
    const entries: array<i32>
    var count: nat
    var streams: nat

    ghost predicate Valid()
      reads this
    {
      entries.Length == MAX_CODEBOOK && 1 <= streams <= 2 && Needed(streams, count) <= MAX_CODEBOOK
    }

    constructor ()
      ensures Valid() && fresh(entries)
    {
      entries := new i32[MAX_CODEBOOK](_ => 0);
      count, streams := 0, 1;
    }

    method Load(payload: Payload, ghost rd: Source, block: StreamBlock)
      requires Valid() && payload.Valid() && Reads(rd, payload.bits) && block.count <= 600
      requires payload.words as object != entries as object
      modifies this, entries
      ensures Valid() && payload.Valid()
      ensures count == block.count && streams == Books(block.mode)
      ensures entries[..BookSize(block.count, block.mode)]
           == Book(rd, block.codebookPos, block.width, BookSize(block.count, block.mode))
    {
      count := block.count;
      streams := Books(block.mode);
      var c := new Cursor(payload, block.codebookPos, rd);
      var n := BookSize(count, block.mode);
      for i := 0 to n
        invariant Valid() && c.Valid() && c.rd == rd && fresh(c) && payload.Valid() && c.payload == payload
        invariant count == block.count && streams == Books(block.mode)
        invariant c.pos == block.codebookPos + i * block.width
        invariant forall j | 0 <= j < i :: entries[j] == EntryAt(rd, block.codebookPos, block.width, j)
      {
        LoadEntry(c, block.codebookPos, block.width, i);
      }
    }

    method LoadEntry(c: Cursor, pos: nat, width: nat, i: nat)
      requires Valid() && c.Valid() && c.payload.words as object != entries as object && i < MAX_CODEBOOK
      requires c.pos == pos + i * width
      modifies c, entries
      ensures Valid() && c.Valid() && c.pos == pos + (i + 1) * width
      ensures entries[..] == old(entries[..])[i := EntryAt(c.rd, pos, width, i)]
    {
      assert (i + 1) * width == i * width + width;
      var v := c.Read(width);
      entries[i] := Entry(v, width);
    }
  }

  /** The packed form of an entry. */
  function SignMagnitude(e: int, width: nat): nat
    requires width > 0
  {
    if e < 0 then Pow2(width - 1) + -e else e
  }

  /** Packing an entry and loading it gives it back. */
  lemma PackedEntryLoads(e: int, width: nat)
    requires 0 < width < 32 && e < Pow2(width - 1) && -e < Pow2(width - 1)
    ensures SignMagnitude(e, width) < Pow2(width) && Entry(SignMagnitude(e, width), width) == e
  {
    var top := Pow2(width - 1);
    if e < 0 {
      QuotientUnique(top + -e, top, 1, -e);
    } else {
      QuotientUnique(e, top, 0, e);
    }
  }

  // ---- the indices

  /** Ones up to the first zero, `q` of them already counted. */
  function Unary(rd: Source, pos: nat, q: nat): Option<nat>
    requires q <= MAX_PREFIX
    decreases MAX_PREFIX - q
  {
    if rd(pos, 1) != 1 then Some(q)
    else if q + 1 > MAX_PREFIX then None
    else Unary(rd, pos + 1, q + 1)
  }

  /** The suffix, least significant bit first. */
  function Suffix(rd: Source, pos: nat, k: nat): nat {
    if k == 0 then 0 else Suffix(rd, pos, k - 1) + if rd(pos + k - 1, 1) == 1 then Pow2(k - 1) else 0
  }

  /** Where the decoder stands: the parameter, and how many samples ago it was sent. */
  datatype Rice = Rice(pos: nat, k: nat, counter: nat)

  function Tick(counter: nat): nat {
    if counter + 1 < WINDOW then counter + 1 else 0
  }

  /** The parameter is sent again every thirty-two samples when it adapts. */
  predicate Resent(s: Rice, adaptive: bool) {
    adaptive && s.counter == 0
  }

  /** One index, and where the decoder stands behind it. */
  function Symbol(rd: Source, s: Rice, adaptive: bool, count: nat): Result<(nat, Rice), RiceError> {
    if Resent(s, adaptive) then Coded(rd, s.pos + 3, rd(s.pos, 3), s.counter, count)
    else Coded(rd, s.pos, s.k, s.counter, count)
  }

  function Coded(rd: Source, pos: nat, k: nat, counter: nat, count: nat): Result<(nat, Rice), RiceError> {
    var q := Unary(rd, pos, 0);
    if q.None? then Err(Prefix)
    else
      var index := Composed(q.value, k, Suffix(rd, pos + q.value + 1, k));
      if index >= count then Err(Index) else Ok((index, Rice(pos + q.value + 1 + k, k, Tick(counter))))
  }

  function Composed(q: nat, k: nat, suffix: nat): nat {
    q * Pow2(k) + suffix
  }

  /** A reader of symbols: an index and where the decoder stands behind it. */
  type Reader = Rice -> Result<(nat, Rice), RiceError>

  function SymbolReader(rd: Source, adaptive: bool, count: nat): Reader {
    (s: Rice) => Symbol(rd, s, adaptive, count)
  }

  type Outcome = Result<(seq<nat>, nat), RiceError>

  /** The indices of `n` samples, and the position behind them. */
  function Indices(read: Reader, s: Rice, n: nat): (r: Outcome)
    ensures r.Ok? ==> |r.value.0| == n
    decreases n
  {
    if n == 0 then Ok(([], s.pos))
    else
      var first := read(s);
      if first.Err? then Err(first.error) else After([first.value.0], Indices(read, first.value.1, n - 1))
  }

  /** What was decoded so far, ahead of what is still to come. */
  function After(done: seq<nat>, rest: Outcome): Outcome {
    if rest.Err? then rest else Ok((done + rest.value.0, rest.value.1))
  }

  lemma AfterNothing(rest: Outcome)
    ensures After([], rest) == rest
  {
    if rest.Ok? {
      assert [] + rest.value.0 == rest.value.0;
    }
  }

  lemma AfterStep(read: Reader, s: Rice, n: nat, done: seq<nat>)
    requires n > 0
    ensures var first, all := read(s), After(done, Indices(read, s, n));
            if first.Err? then all == Err(first.error)
            else all == After(done + [first.value.0], Indices(read, first.value.1, n - 1))
  {
    if read(s).Ok? {
      var index, rest := read(s).value.0, Indices(read, read(s).value.1, n - 1);
      if rest.Ok? {
        assert done + ([index] + rest.value.0) == (done + [index]) + rest.value.0;
      }
    }
  }

  method ReadSymbol(c: Cursor, s: Rice, adaptive: bool, count: nat) returns (r: Result<(nat, Rice), RiceError>)
    requires c.Valid() && c.pos == s.pos
    modifies c
    ensures c.Valid() && r == Symbol(c.rd, s, adaptive, count)
    ensures r.Ok? ==> c.pos == r.value.1.pos
  {
    var k := s.k;
    if adaptive && s.counter == 0 {
      k := c.Read(3);
    }
    r := ReadCoded(c, k, s.counter, count);
  }

  /** The unary prefix and the suffix, bit by bit. */
  method ReadCoded(c: Cursor, k: nat, counter: nat, count: nat) returns (r: Result<(nat, Rice), RiceError>)
    requires c.Valid()
    modifies c
    ensures c.Valid() && r == Coded(c.rd, old(c.pos), k, counter, count)
    ensures r.Ok? ==> c.pos == r.value.1.pos
  {
    var q := ReadUnary(c);
    if q.None? {
      return Err(Prefix);
    }
    var suffix := ReadSuffix(c, k);
    var index: nat := Composed(q.value, k, suffix);
    if index >= count {
      return Err(Index);
    }
    var next: (nat, Rice) := (index, Rice(c.pos, k, Tick(counter)));
    return Ok(next);
  }

  method ReadUnary(c: Cursor) returns (r: Option<nat>)
    requires c.Valid()
    modifies c
    ensures c.Valid() && r == Unary(c.rd, old(c.pos), 0)
    ensures r.Some? ==> c.pos == old(c.pos) + r.value + 1
  {
    ghost var rd, start := c.rd, c.pos;
    var q: nat := 0;
    var b := c.Bit();
    while b == 1
      invariant c.Valid() && c.pos == start + q + 1 && q <= MAX_PREFIX
      invariant b == rd(start + q, 1) && Unary(rd, start, 0) == Unary(rd, start + q, q)
      decreases MAX_PREFIX - q
    {
      q := q + 1;
      if q > MAX_PREFIX {
        return None;
      }
      b := c.Bit();
    }
    return Some(q);
  }

  method ReadSuffix(c: Cursor, k: nat) returns (v: nat)
    requires c.Valid()
    modifies c
    ensures c.Valid() && v == Suffix(c.rd, old(c.pos), k) && c.pos == old(c.pos) + k
  {
    ghost var rd, start := c.rd, c.pos;
    v := 0;
    for i := 0 to k
      invariant c.Valid() && c.pos == start + i && v == Suffix(rd, start, i)
    {
      var b := c.Bit();
      if b == 1 {
        v := v + Pow2(i);
      }
    }
  }

  /** The residuals the indices select: one each, or one each from two codebooks. */
  predicate SelectsAt(out: seq<i32>, book: seq<i32>, count: nat, streams: nat, i: nat, index: nat)
    requires Needed(streams, count) <= |book| && Needed(streams, i + 1) <= |out|
  {
    && index < count
    && if streams == 2 then out[2 * i] == book[index] && out[2 * i + 1] == book[count + index]
       else out[i] == book[index]
  }
  predicate Selects(out: seq<i32>, book: seq<i32>, count: nat, streams: nat, indices: seq<nat>) {
    && 1 <= streams <= 2 && Needed(streams, count) <= |book| && Needed(streams, |indices|) <= |out|
    && forall i | 0 <= i < |indices| :: SelectsAt(out, book, count, streams, i, indices[i])
  }

  /** The residuals a list of indices selects: for two streams, one from the
      first codebook and one from the second behind it. */
  function Selected(book: seq<i32>, count: nat, streams: nat, indices: seq<nat>): (r: seq<i32>)
    ensures |r| == Needed(streams, |indices|)
  {
    if indices == [] then []
    else
      var index := indices[|indices| - 1];
      Selected(book, count, streams, indices[..|indices| - 1])
      + if streams == 2 then [EntryOf(book, index), EntryOf(book, count + index)] else [EntryOf(book, index)]
  }

  function EntryOf(book: seq<i32>, i: nat): i32 {
    if i < |book| then book[i] else 0
  }

  /** One index more. */
  lemma SelectsFewer(out: seq<i32>, entries: seq<i32>, count: nat, streams: nat, indices: seq<nat>)
    requires Selects(out, entries, count, streams, indices) && indices != []
    ensures Selects(out, entries, count, streams, indices[..|indices| - 1])
    ensures SelectsAt(out, entries, count, streams, |indices| - 1, indices[|indices| - 1])
  {
    var front := indices[..|indices| - 1];
    forall i | 0 <= i < |front|
      ensures SelectsAt(out, entries, count, streams, i, front[i])
    {
      assert SelectsAt(out, entries, count, streams, i, indices[i]);
    }
  }

  /** The residuals written are those, whatever the storage held behind the codebook. */
  lemma {:induction false} SelectsThose(out: seq<i32>, entries: seq<i32>, book: seq<i32>, count: nat, streams: nat,
                                        indices: seq<nat>)
    requires Selects(out, entries, count, streams, indices)
    requires |book| == Needed(streams, count) && book <= entries
    ensures out[..Needed(streams, |indices|)] == Selected(book, count, streams, indices)
  {
    if indices != [] {
      var front, index := indices[..|indices| - 1], indices[|indices| - 1];
      SelectsFewer(out, entries, count, streams, indices);
      SelectsThose(out, entries, book, count, streams, front);
      var before, now := Needed(streams, |front|), Needed(streams, |indices|);
      assert entries[index] == book[index] && (streams == 2 ==> entries[count + index] == book[count + index]);
      assert out[..now] == out[..before] + out[before..now];
      assert out[before..now]
          == if streams == 2 then [EntryOf(book, index), EntryOf(book, count + index)] else [EntryOf(book, index)];
    }
  }

  /** The reader reads this payload. (The trigger keeps the bits of a symbol out
      of the loop's proof.) */
  ghost predicate ReadsSymbols(read: Reader, rd: Source, adaptive: bool, count: nat) {
    forall s {:trigger Symbol(rd, s, adaptive, count)} :: read(s) == Symbol(rd, s, adaptive, count)
  }

  /** The next symbol, as the reader sees it. */
  method ReadNext(c: Cursor, s: Rice, adaptive: bool, count: nat, ghost read: Reader)
    returns (r: Result<(nat, Rice), RiceError>)
    requires c.Valid() && c.pos == s.pos && ReadsSymbols(read, c.rd, adaptive, count)
    modifies c
    ensures c.Valid() && r == read(s)
    ensures r.Ok? ==> r.value.0 < count && c.pos == r.value.1.pos
  {
    assert read(s) == Symbol(c.rd, s, adaptive, count);
    r := ReadSymbol(c, s, adaptive, count);
  }

  /** The residuals of `n` samples, and the position reached. */
  method DecodeResiduals(payload: Payload, ghost rd: Source, block: StreamBlock, book: Codebook, n: nat,
                         out: array<i32>)
    returns (r: Result<nat, RiceError>)
    requires payload.Valid() && Reads(rd, payload.bits) && book.Valid()
    requires out != book.entries && out as object != payload.words as object
    requires Needed(book.streams, n) <= out.Length
    modifies out
    ensures var want := Indices(SymbolReader(rd, block.adaptive, book.count), Rice(block.ricePos, block.k, 0), n);
            && (want.Err? ==> r == Err(want.error))
            && (want.Ok? ==>
                  && r == Ok(want.value.1)
                  && Selects(out[..], book.entries[..], book.count, book.streams, want.value.0))
  {
    var start := Rice(block.ricePos, block.k, 0);
    var c := new Cursor(payload, block.ricePos, rd);
    ghost var done;
    r, done := DecodeAll(c, start, block.adaptive, book, n, out, SymbolReader(rd, block.adaptive, book.count));
  }

  method DecodeAll(c: Cursor, start: Rice, adaptive: bool, book: Codebook, n: nat, out: array<i32>, ghost read: Reader)
    returns (r: Result<nat, RiceError>, ghost done: seq<nat>)
    requires c.Valid() && c.pos == start.pos && book.Valid() && ReadsSymbols(read, c.rd, adaptive, book.count)
    requires out != book.entries && out as object != c.payload.words as object
    requires Needed(book.streams, n) <= out.Length
    modifies c, out
    ensures r.Err? ==> Indices(read, start, n) == Err(r.error)
    ensures r.Ok? ==> Indices(read, start, n) == Ok((done, r.value))
    ensures r.Ok? ==> Selects(out[..], book.entries[..], book.count, book.streams, done)
  {
    ghost var want := Indices(read, start, n);
    done := [];
    var s := start;
    AfterNothing(want);
    for i := 0 to n
      invariant c.Valid() && c.pos == s.pos
      invariant |done| == i && Selects(out[..], book.entries[..], book.count, book.streams, done)
      invariant After(done, Indices(read, s, n - i)) == want
    {
      AfterStep(read, s, n - i, done);
      var next := ReadNext(c, s, adaptive, book.count, read);
      if next.Err? {
        return Err(next.error), done;
      }
      Emit(book, next.value.0, done, out, i);
      done := done + [next.value.0];
      s := next.value.1;
    }
    assert done + [] == done;
    r := Ok(c.pos);
  }

  /** Where the residuals of sample `i` go. */
  function Written(out: seq<i32>, book: seq<i32>, count: nat, streams: nat, i: nat, index: nat): (r: seq<i32>)
    requires index < count && Needed(streams, count) <= |book| && Needed(streams, i + 1) <= |out|
    ensures |r| == |out|
  {
    if streams == 2 then out[2 * i := book[index]][2 * i + 1 := book[count + index]] else out[i := book[index]]
  }

  lemma WrittenSelects(out: seq<i32>, book: seq<i32>, count: nat, streams: nat, done: seq<nat>, index: nat)
    requires Selects(out, book, count, streams, done) && index < count && Needed(streams, |done| + 1) <= |out|
    ensures Selects(Written(out, book, count, streams, |done|, index), book, count, streams, done + [index])
  {
    var more, now := done + [index], Written(out, book, count, streams, |done|, index);
    forall i | 0 <= i < |more|
      ensures SelectsAt(now, book, count, streams, i, more[i])
    {
      if i < |done| {
        assert SelectsAt(out, book, count, streams, i, done[i]);
      }
    }
  }

  method Emit(book: Codebook, index: nat, ghost done: seq<nat>, out: array<i32>, i: nat)
    requires book.Valid() && out != book.entries && index < book.count && Needed(book.streams, i + 1) <= out.Length
    requires |done| == i && Selects(out[..], book.entries[..], book.count, book.streams, done)
    modifies out
    ensures Selects(out[..], book.entries[..], book.count, book.streams, done + [index])
  {
    WrittenSelects(out[..], book.entries[..], book.count, book.streams, done, index);
    if book.streams == 2 {
      out[2 * i] := book.entries[index];
      out[2 * i + 1] := book.entries[book.count + index];
    } else {
      out[i] := book.entries[index];
    }
    assert out[..] == Written(old(out[..]), book.entries[..], book.count, book.streams, i, index);
  }
}
