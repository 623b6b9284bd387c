/** The residual coder: what an encoder writes for a codebook and a run of
    indices, and that the decoder accepts exactly that. */
module AuroRiceRoundTrip {
  import opened Bytes
  import opened AuroPayload
  import opened AuroHeaders
  import opened AuroRice

  // ---- the encoder

  function UnaryBits(q: nat): (r: seq<bit>)
    ensures |r| == q + 1
  {
    if q == 0 then [0] else [1] + UnaryBits(q - 1)
  }

  /** The low `k` bits, least significant first. */
  function SuffixBits(v: nat, k: nat): (r: seq<bit>)
    requires v < Pow2(k)
    ensures |r| == k
    decreases k
  {
    if k == 0 then []
    else if v >= Pow2(k - 1) then SuffixBits(v - Pow2(k - 1), k - 1) + [1]
    else SuffixBits(v, k - 1) + [0]
  }

  /** The low `n` bits, most significant first. */
  function BitsOf(v: nat, n: nat): (r: seq<bit>)
    ensures |r| == n
    decreases n, v
  {
    if n == 0 then [] else BitsOf(v / 2, n - 1) + [v % 2]
  }

  lemma {:induction false} ValueOfBits(v: nat, n: nat)
    requires v < Pow2(n)
    ensures Value(BitsOf(v, n)) == v
    decreases n
  {
    if n > 0 {
      ValueOfBits(v / 2, n - 1);
      ValueSnoc(BitsOf(v / 2, n - 1), v % 2);
    }
  }

  /** An index with prefix `q` and suffix `v`. */
  datatype Split = Split(q: nat, v: nat)

  /** The prefix counts whole powers, the suffix is the rest. */
  function SplitIndex(index: nat, k: nat): (x: Split)
    ensures x.v < Pow2(k)
  {
    if index < Pow2(k) then Split(0, index)
    else
      var x := SplitIndex(index - Pow2(k), k);
      Split(x.q + 1, x.v)
  }

  lemma {:induction false} SplitComposes(index: nat, k: nat)
    ensures var x := SplitIndex(index, k); index == Composed(x.q, k, x.v)
  {
    if index >= Pow2(k) {
      SplitComposes(index - Pow2(k), k);
      OneMore(SplitIndex(index, k).q - 1, Pow2(k));
    }
  }

  lemma OneMore(q: nat, p: nat)
    ensures (q + 1) * p == q * p + p
  {
  }

  lemma {:induction false} SplitUnique(q: nat, v: nat, k: nat)
    requires v < Pow2(k)
    ensures SplitIndex(Composed(q, k, v), k) == Split(q, v)
    decreases q
  {
    if q > 0 {
      SplitUnique(q - 1, v, k);
      OneMore(q - 1, Pow2(k));
      assert (q - 1) * Pow2(k) >= 0;
      assert Composed(q, k, v) - Pow2(k) == Composed(q - 1, k, v);
    }
  }

  function CodedBits(index: nat, k: nat): seq<bit> {
    var x := SplitIndex(index, k);
    UnaryBits(x.q) + SuffixBits(x.v, k)
  }

  function SymbolBits(index: nat, k: nat, resent: bool): seq<bit> {
    if resent then BitsOf(k, 3) + CodedBits(index, k) else CodedBits(index, k)
  }

  /** An index and the parameter it is coded under. */
  type Choice = (nat, nat)

  /** What an encoder writes for a choice, and which choices it may make. */
  datatype Writer = Writer(bits: (Rice, Choice) -> seq<bit>, legal: (Rice, Choice) -> bool)

  /** Every index is in the codebook and short of the longest prefix, and the
      parameter only changes where it is sent again. */
  function SymbolWriter(adaptive: bool, count: nat): Writer {
    Writer((s: Rice, x: Choice) => SymbolBits(x.0, x.1, Resent(s, adaptive)),
           (s: Rice, x: Choice) => && x.0 < count && SplitIndex(x.0, x.1).q <= MAX_PREFIX
                                   && if Resent(s, adaptive) then x.1 < 8 else x.1 == s.k)
  }

  /** Where the coder stands behind a choice. */
  function Advanced(w: Writer, s: Rice, x: Choice): Rice {
    Rice(s.pos + |w.bits(s, x)|, x.1, Tick(s.counter))
  }

  predicate Codable(w: Writer, run: seq<Choice>, s: Rice)
    decreases run
  {
    run == [] || (w.legal(s, run[0]) && Codable(w, run[1..], Advanced(w, s, run[0])))
  }

  function Encoded(w: Writer, run: seq<Choice>, s: Rice): seq<bit>
    decreases run
  {
    if run == [] then [] else w.bits(s, run[0]) + Encoded(w, run[1..], Advanced(w, s, run[0]))
  }

  function IndicesOf(run: seq<Choice>): (r: seq<nat>)
    ensures |r| == |run|
  {
    if run == [] then [] else [run[0].0] + IndicesOf(run[1..])
  }

  // ---- the payload holds a string of bits

  ghost predicate Holds(rd: Source, pos: nat, bits: seq<bit>) {
    forall i | 0 <= i < |bits| :: rd(pos + i, 1) == bits[i]
  }

  lemma HoldsParts(rd: Source, pos: nat, a: seq<bit>, b: seq<bit>)
    ensures Holds(rd, pos, a + b) <==> Holds(rd, pos, a) && Holds(rd, pos + |a|, b)
  {
    if Holds(rd, pos, a + b) {
      forall i | 0 <= i < |a|
        ensures rd(pos + i, 1) == a[i]
      {
        assert (a + b)[i] == a[i];
      }
      forall i | 0 <= i < |b|
        ensures rd(pos + |a| + i, 1) == b[i]
      {
        assert rd(pos + (|a| + i), 1) == (a + b)[|a| + i];
      }
    }
    if Holds(rd, pos, a) && Holds(rd, pos + |a|, b) {
      forall i | 0 <= i < |a + b|
        ensures rd(pos + i, 1) == (a + b)[i]
      {
        if i >= |a| {
          assert rd(pos + |a| + (i - |a|), 1) == b[i - |a|];
        }
      }
    }
  }

  /** Read together, the bits spell their value. */
  lemma {:induction false} HeldValue(rd: Source, pos: nat, bits: seq<bit>)
    requires Joins(rd) && Holds(rd, pos, bits)
    ensures rd(pos, |bits|) == Value(bits)
  {
    if bits == [] {
      assert JoinsAt(rd, pos, 0, 0);
    } else {
      var n := |bits| - 1;
      HoldsParts(rd, pos, bits[..n], [bits[n]]);
      assert bits[..n] + [bits[n]] == bits;
      HeldValue(rd, pos, bits[..n]);
      assert JoinsAt(rd, pos, n, 1);
    }
  }

  lemma OneBit(rd: Source, pos: nat)
    requires Joins(rd)
    ensures rd(pos, 1) < 2
  {
    assert JoinsAt(rd, pos, 1, 0);
  }

  // ---- decoding what was encoded

  lemma {:induction false} UnaryDecodes(rd: Source, pos: nat, q: nat, before: nat)
    requires Holds(rd, pos, UnaryBits(q)) && before + q <= MAX_PREFIX
    ensures Unary(rd, pos, before) == Some(before + q)
    decreases q
  {
    assert rd(pos + 0, 1) == UnaryBits(q)[0];
    if q > 0 {
      HoldsParts(rd, pos, [1], UnaryBits(q - 1));
      UnaryDecodes(rd, pos + 1, q - 1, before + 1);
    }
  }

  lemma {:induction false} SuffixDecodes(rd: Source, pos: nat, v: nat, k: nat)
    requires v < Pow2(k) && Holds(rd, pos, SuffixBits(v, k))
    ensures Suffix(rd, pos, k) == v
    decreases k
  {
    if k > 0 {
      var high: bit, low := if v >= Pow2(k - 1) then 1 else 0, if v >= Pow2(k - 1) then v - Pow2(k - 1) else v;
      HoldsParts(rd, pos, SuffixBits(low, k - 1), [high]);
      SuffixDecodes(rd, pos, low, k - 1);
      assert rd(pos + (k - 1) + 0, 1) == [high][0];
    }
  }

  lemma CodedDecodes(rd: Source, pos: nat, index: nat, k: nat, counter: nat, count: nat)
    requires index < count && SplitIndex(index, k).q <= MAX_PREFIX && Holds(rd, pos, CodedBits(index, k))
    ensures Coded(rd, pos, k, counter, count) == Ok((index, Rice(pos + |CodedBits(index, k)|, k, Tick(counter))))
  {
    var x := SplitIndex(index, k);
    SplitComposes(index, k);
    HoldsParts(rd, pos, UnaryBits(x.q), SuffixBits(x.v, k));
    UnaryDecodes(rd, pos, x.q, 0);
    SuffixDecodes(rd, pos + x.q + 1, x.v, k);
  }

  lemma ParameterDecodes(rd: Source, pos: nat, k: nat)
    requires Joins(rd) && k < 8 && Holds(rd, pos, BitsOf(k, 3))
    ensures rd(pos, 3) == k
  {
    HeldValue(rd, pos, BitsOf(k, 3));
    assert Pow2(3) == 8;
    ValueOfBits(k, 3);
  }

  /** The reader reads back what the writer writes. */
  ghost predicate ReadsBack(read: Reader, w: Writer, rd: Source, s: Rice, x: Choice) {
    w.legal(s, x) && Holds(rd, s.pos, w.bits(s, x)) ==> read(s) == Ok((x.0, Advanced(w, s, x)))
  }

  lemma SymbolDecodes(rd: Source, s: Rice, x: Choice, adaptive: bool, count: nat)
    requires Joins(rd)
    ensures ReadsBack(SymbolReader(rd, adaptive, count), SymbolWriter(adaptive, count), rd, s, x)
  {
    hide Coded, CodedBits, Holds, Joins, BitsOf;
    var w := SymbolWriter(adaptive, count);
    var (index, k) := x;
    if w.legal(s, x) && Holds(rd, s.pos, w.bits(s, x)) {
      if Resent(s, adaptive) {
        HoldsParts(rd, s.pos, BitsOf(k, 3), CodedBits(index, k));
        ParameterDecodes(rd, s.pos, k);
        CodedDecodes(rd, s.pos + 3, index, k, s.counter, count);
      } else {
        CodedDecodes(rd, s.pos, index, k, s.counter, count);
      }
    }
  }

  /** Decoding a coded run gives its indices and stops at its last bit. */
  lemma {:induction false} RunDecodes(read: Reader, w: Writer, rd: Source, run: seq<Choice>, s: Rice)
    requires forall s, x :: ReadsBack(read, w, rd, s, x)
    requires Codable(w, run, s) && Holds(rd, s.pos, Encoded(w, run, s))
    ensures Indices(read, s, |run|) == Ok((IndicesOf(run), s.pos + |Encoded(w, run, s)|))
    decreases run
  {
    if run != [] {
      var next := Advanced(w, s, run[0]);
      HoldsParts(rd, s.pos, w.bits(s, run[0]), Encoded(w, run[1..], next));
      assert ReadsBack(read, w, rd, s, run[0]);
      RunDecodes(read, w, rd, run[1..], next);
    }
  }

  // ---- only what was encoded decodes

  lemma {:induction false} UnaryWasEncoded(rd: Source, pos: nat, before: nat)
    requires Joins(rd) && before <= MAX_PREFIX && Unary(rd, pos, before).Some?
    ensures var q := Unary(rd, pos, before).value; before <= q <= MAX_PREFIX && Holds(rd, pos, UnaryBits(q - before))
    decreases MAX_PREFIX - before
  {
    OneBit(rd, pos);
    var q := Unary(rd, pos, before).value;
    if rd(pos, 1) == 1 {
      UnaryWasEncoded(rd, pos + 1, before + 1);
      HoldsParts(rd, pos, [1], UnaryBits(q - before - 1));
    }
  }

  lemma {:induction false} SuffixWasEncoded(rd: Source, pos: nat, k: nat)
    requires Joins(rd)
    ensures Suffix(rd, pos, k) < Pow2(k) && Holds(rd, pos, SuffixBits(Suffix(rd, pos, k), k))
    decreases k
  {
    if k > 0 {
      SuffixWasEncoded(rd, pos, k - 1);
      OneBit(rd, pos + k - 1);
      var high: bit := rd(pos + k - 1, 1);
      HoldsParts(rd, pos, SuffixBits(Suffix(rd, pos, k - 1), k - 1), [high]);
    }
  }

  lemma CodedWasEncoded(rd: Source, pos: nat, k: nat, counter: nat, count: nat)
    requires Joins(rd) && Coded(rd, pos, k, counter, count).Ok?
    ensures var (index, next) := Coded(rd, pos, k, counter, count).value;
            && index < count && SplitIndex(index, k).q <= MAX_PREFIX && Holds(rd, pos, CodedBits(index, k))
            && next == Rice(pos + |CodedBits(index, k)|, k, Tick(counter))
  {
    UnaryWasEncoded(rd, pos, 0);
    var q := Unary(rd, pos, 0).value;
    SuffixWasEncoded(rd, pos + q + 1, k);
    PartsWereEncoded(rd, pos, q, Suffix(rd, pos + q + 1, k), k);
  }

  lemma PartsWereEncoded(rd: Source, pos: nat, q: nat, v: nat, k: nat)
    requires v < Pow2(k) && Holds(rd, pos, UnaryBits(q)) && Holds(rd, pos + q + 1, SuffixBits(v, k))
    ensures var index := Composed(q, k, v);
            SplitIndex(index, k).q == q && Holds(rd, pos, CodedBits(index, k)) && |CodedBits(index, k)| == q + 1 + k
  {
    SplitUnique(q, v, k);
    HoldsParts(rd, pos, UnaryBits(q), SuffixBits(v, k));
  }

  /** The reader only reads what the writer could have written. */
  ghost predicate WasWritten(read: Reader, w: Writer, rd: Source, s: Rice) {
    read(s).Ok? ==>
      var (index, next) := read(s).value;
      var x := (index, next.k);
      w.legal(s, x) && Holds(rd, s.pos, w.bits(s, x)) && next == Advanced(w, s, x)
  }

  lemma SymbolWasEncoded(rd: Source, s: Rice, adaptive: bool, count: nat)
    requires Joins(rd)
    ensures WasWritten(SymbolReader(rd, adaptive, count), SymbolWriter(adaptive, count), rd, s)
  {
    hide Coded, CodedBits, Holds, Joins, BitsOf;
    if Symbol(rd, s, adaptive, count).Ok? {
      var (index, next) := Symbol(rd, s, adaptive, count).value;
      if Resent(s, adaptive) {
        CodedWasEncoded(rd, s.pos + 3, rd(s.pos, 3), s.counter, count);
        SentInFront(rd, s.pos, index, next.k);
      } else {
        CodedWasEncoded(rd, s.pos, s.k, s.counter, count);
      }
    }
  }

  lemma SentInFront(rd: Source, pos: nat, index: nat, k: nat)
    requires Joins(rd) && k == rd(pos, 3) && Holds(rd, pos + 3, CodedBits(index, k))
    ensures k < 8 && Holds(rd, pos, SymbolBits(index, k, true))
      && |SymbolBits(index, k, true)| == 3 + |CodedBits(index, k)|
  {
    ParameterWasEncoded(rd, pos);
    HoldsParts(rd, pos, BitsOf(k, 3), CodedBits(index, k));
  }

  lemma ParameterWasEncoded(rd: Source, pos: nat)
    requires Joins(rd)
    ensures rd(pos, 3) < 8 && Holds(rd, pos, BitsOf(rd(pos, 3), 3))
  {
    OneBit(rd, pos);
    OneBit(rd, pos + 1);
    OneBit(rd, pos + 2);
    assert Pow2(1) == 2 && Pow2(2) == 4;
    assert JoinsAt(rd, pos, 1, 2) && JoinsAt(rd, pos + 1, 1, 1);
    var a: bit, b: bit, c: bit := rd(pos, 1), rd(pos + 1, 1), rd(pos + 2, 1);
    var v := rd(pos, 3);
    assert v == 4 * a + 2 * b + c;
    assert BitsOf(v, 3) == [a, b, c] by {
      QuotientUnique(v, 2, 2 * a + b, c);
      QuotientUnique(2 * a + b, 2, a, b);
      assert BitsOf(a, 1) == [a] by {
        assert BitsOf(a / 2, 0) == [];
      }
      assert BitsOf(2 * a + b, 2) == [a] + [b];
    }
  }

  /** Whatever decodes is, bit for bit, a codable run's encoding. */
  lemma {:induction false} RunWasEncoded(read: Reader, w: Writer, rd: Source, s: Rice, n: nat)
    returns (run: seq<Choice>)
    requires forall s :: WasWritten(read, w, rd, s)
    requires Indices(read, s, n).Ok?
    ensures Codable(w, run, s) && Holds(rd, s.pos, Encoded(w, run, s))
    ensures Indices(read, s, n).value == (IndicesOf(run), s.pos + |Encoded(w, run, s)|)
    decreases n
  {
    run := [];
    if n > 0 {
      assert WasWritten(read, w, rd, s);
      var (index, next) := read(s).value;
      var rest := RunWasEncoded(read, w, rd, next, n - 1);
      run := [(index, next.k)] + rest;
      assert run[1..] == rest;
      HoldsParts(rd, s.pos, w.bits(s, run[0]), Encoded(w, rest, next));
    }
  }

  /** The decoder gives back a run exactly when the payload holds an encoding of
      it, and then stops at the encoding's last bit. */
  lemma DecodesExactlyEncodings(rd: Source, s: Rice, adaptive: bool, count: nat, indices: seq<nat>, end: nat)
    requires Joins(rd)
    ensures var w := SymbolWriter(adaptive, count);
            Indices(SymbolReader(rd, adaptive, count), s, |indices|) == Ok((indices, end)) <==>
            exists run :: && Codable(w, run, s) && IndicesOf(run) == indices
                          && Holds(rd, s.pos, Encoded(w, run, s)) && end == s.pos + |Encoded(w, run, s)|
  {
    var read, w := SymbolReader(rd, adaptive, count), SymbolWriter(adaptive, count);
    forall s, x
      ensures ReadsBack(read, w, rd, s, x)
    {
      SymbolDecodes(rd, s, x, adaptive, count);
    }
    forall s
      ensures WasWritten(read, w, rd, s)
    {
      SymbolWasEncoded(rd, s, adaptive, count);
    }
    ReadExactlyWritten(read, w, rd, s, indices, end);
  }

  lemma ReadExactlyWritten(read: Reader, w: Writer, rd: Source, s: Rice, indices: seq<nat>, end: nat)
    requires forall s, x :: ReadsBack(read, w, rd, s, x)
    requires forall s :: WasWritten(read, w, rd, s)
    ensures Indices(read, s, |indices|) == Ok((indices, end)) <==>
            exists run :: && Codable(w, run, s) && IndicesOf(run) == indices
                          && Holds(rd, s.pos, Encoded(w, run, s)) && end == s.pos + |Encoded(w, run, s)|
  {
    if Indices(read, s, |indices|) == Ok((indices, end)) {
      var run := RunWasEncoded(read, w, rd, s, |indices|);
    }
    forall run | && Codable(w, run, s) && IndicesOf(run) == indices && Holds(rd, s.pos, Encoded(w, run, s))
      ensures Indices(read, s, |indices|) == Ok((indices, s.pos + |Encoded(w, run, s)|))
    {
      RunDecodes(read, w, rd, run, s);
    }
  }

  // ---- with the codebook in front

  /** A codebook of entries that fit their width. */
  predicate Packable(book: seq<i32>, width: nat) {
    0 < width < 32 && forall i | 0 <= i < |book| :: Fits(book[i], width)
  }

  predicate Fits(e: int, width: nat)
    requires width > 0
  {
    e < Pow2(width - 1) && -e < Pow2(width - 1)
  }

  function BookBits(book: seq<i32>, width: nat): (r: seq<bit>)
    requires width > 0
  {
    if book == [] then []
    else BookBits(book[..|book| - 1], width) + BitsOf(SignMagnitude(book[|book| - 1], width), width)
  }

  lemma {:induction false} BookLength(book: seq<i32>, width: nat)
    requires width > 0
    ensures |BookBits(book, width)| == |book| * width
  {
    if book != [] {
      BookLength(book[..|book| - 1], width);
      assert |book| * width == (|book| - 1) * width + width;
    }
  }

  lemma {:induction false} BookLoads(rd: Source, pos: nat, book: seq<i32>, width: nat)
    requires Joins(rd) && Packable(book, width) && Holds(rd, pos, BookBits(book, width))
    ensures Book(rd, pos, width, |book|) == book
  {
    if book != [] {
      var n := |book| - 1;
      var front, e := book[..n], book[n];
      HoldsParts(rd, pos, BookBits(front, width), BitsOf(SignMagnitude(e, width), width));
      BookLoads(rd, pos, front, width);
      BookLength(front, width);
      EntryLoads(rd, pos + n * width, e, width);
      BookSnoc(rd, pos, width, n);
    }
  }

  lemma BookSnoc(rd: Source, pos: nat, width: nat, n: nat)
    ensures Book(rd, pos, width, n + 1) == Book(rd, pos, width, n) + [Entry(rd(pos + n * width, width), width)]
  {
  }

  lemma EntryLoads(rd: Source, pos: nat, e: int, width: nat)
    requires Joins(rd) && 0 < width < 32 && Fits(e, width) && Holds(rd, pos, BitsOf(SignMagnitude(e, width), width))
    ensures Entry(rd(pos, width), width) == e
  {
    PackedEntryLoads(e, width);
    HeldValue(rd, pos, BitsOf(SignMagnitude(e, width), width));
    ValueOfBits(SignMagnitude(e, width), width);
  }

  lemma SliceHolds(bits: seq<bit>, before: seq<bit>, part: seq<bit>, after: seq<bit>)
    requires bits == before + part + after
    ensures Holds(SourceOf(bits), |before|, part)
  {
    forall i | 0 <= i < |part|
      ensures SourceOf(bits)(|before| + i, 1) == part[i]
    {
      BitIsRead(bits, |before| + i);
    }
  }

  /** The round trip: from a payload that holds a packed codebook and, right
      behind it, a coded run, the codebook and the run come back, and decoding
      stops where the encoder did. */
  lemma ResidualsRoundTrip(before: seq<bit>, book: seq<i32>, width: nat, run: seq<Choice>, s: Rice, adaptive: bool,
                           count: nat, after: seq<bit>, w: Writer)
    requires Packable(book, width) && s.pos == |before| + |book| * width
    requires w == SymbolWriter(adaptive, count) && Codable(w, run, s)
    ensures var rd := SourceOf(before + BookBits(book, width) + Encoded(w, run, s) + after);
            && Book(rd, |before|, width, |book|) == book
            && Indices(SymbolReader(rd, adaptive, count), s, |run|)
               == Ok((IndicesOf(run), s.pos + |Encoded(w, run, s)|))
  {
    hide Book, BookBits, Encoded, Codable, SourceOf, Indices, SymbolReader, SymbolWriter, IndicesOf;
    BookLength(book, width);
    BothHeld(before + BookBits(book, width) + Encoded(w, run, s) + after, before, book, width, run, s, adaptive, count,
             after, w);
  }

  lemma BothHeld(bits: seq<bit>, before: seq<bit>, book: seq<i32>, width: nat, run: seq<Choice>, s: Rice,
                 adaptive: bool, count: nat, after: seq<bit>, w: Writer)
    requires Packable(book, width) && s.pos == |before| + |BookBits(book, width)|
    requires w == SymbolWriter(adaptive, count) && Codable(w, run, s)
    requires bits == before + BookBits(book, width) + Encoded(w, run, s) + after
    ensures var rd := SourceOf(bits);
            && Book(rd, |before|, width, |book|) == book
            && Indices(SymbolReader(rd, adaptive, count), s, |run|)
               == Ok((IndicesOf(run), s.pos + |Encoded(w, run, s)|))
  {
    hide Book, BookBits, Encoded, Codable, Holds, SourceOf, Indices, SymbolReader, SymbolWriter, IndicesOf;
    LaidOut(bits, before, BookBits(book, width), Encoded(w, run, s), after);
    ReadBitsJoin(bits);
    BookLoads(SourceOf(bits), |before|, book, width);
    HeldRunDecodes(SourceOf(bits), run, s, adaptive, count, w);
  }

  lemma HeldRunDecodes(rd: Source, run: seq<Choice>, s: Rice, adaptive: bool, count: nat, w: Writer)
    requires Joins(rd) && w == SymbolWriter(adaptive, count)
    requires Codable(w, run, s) && Holds(rd, s.pos, Encoded(w, run, s))
    ensures Indices(SymbolReader(rd, adaptive, count), s, |run|) == Ok((IndicesOf(run), s.pos + |Encoded(w, run, s)|))
  {
    var read := SymbolReader(rd, adaptive, count);
    forall s, x
      ensures ReadsBack(read, w, rd, s, x)
    {
      SymbolDecodes(rd, s, x, adaptive, count);
    }
    RunDecodes(read, w, rd, run, s);
  }

  lemma LaidOut(bits: seq<bit>, before: seq<bit>, packed: seq<bit>, coded: seq<bit>, after: seq<bit>)
    requires bits == before + packed + coded + after
    ensures Holds(SourceOf(bits), |before|, packed) && Holds(SourceOf(bits), |before| + |packed|, coded)
  {
    assert bits == before + packed + (coded + after);
    SliceHolds(bits, before, packed, coded + after);
    SliceHolds(bits, before + packed, coded, after);
  }
}
