/** Undoing the fold: from one carrier and its residuals, the two or three
    streams that were mixed into it, in wrapping 32-bit arithmetic. */
module AuroUnmix {
  import opened Bytes

  /** The 32 bits of a number, in two's complement. */
  function Wrap(x: int): i32 {
    x - 0x1_0000_0000 * ((x + 0x8000_0000) / 0x1_0000_0000)
  }

  function Plus(a: int, b: int): i32 { Wrap(a + b) }
  function Minus(a: int, b: int): i32 { Wrap(a - b) }
  function Times(k: int, a: int): i32 { Wrap(k * a) }

  /** Wrapping takes away whole turns. */
  lemma Turns(x: int) returns (k: int)
    ensures Wrap(x) == x - 0x1_0000_0000 * k
  {
    k := (x - Wrap(x)) / 0x1_0000_0000;
  }

  lemma TurnsDoNotMatter(x: int, y: int, k: int)
    requires x == y + 0x1_0000_0000 * k
    ensures Wrap(x) == Wrap(y)
  {
  }

  lemma InRange(x: i32)
    ensures Wrap(x) == x
  {
  }

  /** What the unmixer is handed: the borrowed width, the header's seeds, the
      carrier and the residuals the codebook selected. */
  datatype Folded = Folded(m: nat, seeds: seq<i32>, carrier: seq<i32>, residuals: seq<i32>) {
    /** The carrier without its borrowed bits. */
    function Sum(i: nat): i32
      requires i < |carrier|
    {
      ShiftKeepsRange(carrier[i], m);
      carrier[i] / Pow2(m)
    }
  }

  lemma ShiftKeepsRange(c: i32, m: nat)
    ensures -0x8000_0000 <= c / Pow2(m) < 0x8000_0000
  {
    QuotientBetween(c, Pow2(m));
  }

  lemma MulMonotone(d: nat, x: int, y: int)
    requires x <= y
    ensures d * x <= d * y
  {
  }

  /** A quotient lies between zero and its dividend. */
  lemma QuotientBetween(c: int, d: nat)
    requires d > 0
    ensures c >= 0 ==> 0 <= c / d <= c
    ensures c < 0 ==> c <= c / d < 0
  {
    var q, r := c / d, c % d;
    assert c == d * q + r && 0 <= r < d;
    if c >= 0 {
      if q < 0 {
        MulMonotone(d, q, -1);
      } else {
        MulMonotone(q, 1, d);
      }
    } else {
      if q >= 0 {
        MulMonotone(d, 0, q);
      } else {
        MulMonotone(-q - 1, 1, d);
        assert (-q - 1) * d == -(d * q) - d;
      }
    }
  }

  // ---- two streams

  predicate TwoReady(f: Folded) {
    |f.seeds| == 5 && |f.residuals| >= |f.carrier|
  }

  /** The predictor: `base` and `previous` are extrapolated, `next` is what the
      other stream will go on from. */
  datatype Predictor = Predictor(base: i32, previous: i32, next: i32, aIsExtrapolated: bool)

  function Extrapolated(p: Predictor): i32 {
    Minus(Times(2, p.base), p.previous)
  }

  /** The first two samples of each stream come from the seeds. */
  function FirstB(f: Folded): i32
    requires TwoReady(f) && |f.carrier| > 0
  {
    Plus(f.seeds[1], f.residuals[0])
  }

  function SecondA(f: Folded): i32
    requires TwoReady(f) && |f.carrier| > 1
  {
    Plus(f.residuals[1], f.seeds[0])
  }

  function PredictorAt(f: Folded, i: nat): Predictor
    requires TwoReady(f) && 2 <= i <= |f.carrier|
  {
    if i == 2 then Predictor(f.seeds[0], Minus(f.Sum(0), FirstB(f)), Minus(f.Sum(1), SecondA(f)), true)
    else
      var p := PredictorAt(f, i - 1);
      var pred := Extrapolated(p);
      Predictor(Minus(Minus(f.Sum(i - 1), pred), f.residuals[i - 1]), p.next, pred, !p.aIsExtrapolated)
  }

  /** Sample `i` of the two streams, before scaling. */
  function TwoAt(f: Folded, i: nat): (r: (i32, i32))
    requires TwoReady(f) && i < |f.carrier|
  {
    if i == 0 then (Minus(f.Sum(0), FirstB(f)), FirstB(f))
    else if i == 1 then (SecondA(f), Minus(f.Sum(1), SecondA(f)))
    else Split(PredictorAt(f, i), f.Sum(i))
  }

  function Split(p: Predictor, sum: i32): (i32, i32) {
    var pred := Extrapolated(p);
    if p.aIsExtrapolated then (pred, Minus(sum, pred)) else (Minus(sum, pred), pred)
  }

  /** What is taken from the sum on one side is given back on the other. */
  lemma SplitOfSum(sum: i32, part: i32)
    ensures Plus(part, Minus(sum, part)) == sum && Plus(Minus(sum, part), part) == sum
  {
    var k := Turns(sum - part);
    TurnsDoNotMatter(part + Minus(sum, part), sum, -k);
    InRange(sum);
  }

  /** The two streams add up to the carrier at every sample. */
  lemma TwoStreamsSum(f: Folded, i: nat)
    requires TwoReady(f) && i < |f.carrier|
    ensures Plus(TwoAt(f, i).0, TwoAt(f, i).1) == f.Sum(i)
  {
    SplitOfSum(f.Sum(i), TwoAt(f, i).0);
    SplitOfSum(f.Sum(i), TwoAt(f, i).1);
  }

  // ---- the reference encoder for two streams

  function Total(a: seq<i32>, b: seq<i32>, i: nat): int
    requires i < |a| == |b|
  {
    var x: int, y: int := a[i], b[i];
    x + y
  }

  /** Two streams whose sum, shifted by the borrowed bits, is still a sample. */
  ghost predicate Foldable(a: seq<i32>, b: seq<i32>, m: nat) {
    |a| == |b| >= 2 && forall i | 0 <= i < |a| :: -0x8000_0000 <= Total(a, b, i) * Pow2(m) < 0x8000_0000
  }

  predicate Even(i: nat) {
    i == 0 || !Even(i - 1)
  }

  /** The stream the decoder derives from the sum at sample `i`. */
  function Derived(a: seq<i32>, b: seq<i32>, i: nat): i32
    requires i < |a| == |b|
  {
    if Even(i) then b[i] else a[i]
  }

  function Other(a: seq<i32>, b: seq<i32>, i: nat): i32
    requires i < |a| == |b|
  {
    if Even(i) then a[i] else b[i]
  }

  /** What the decoder will extrapolate at `i`: the line through the true last
      sample of the stream derived there and its own value for the one before. */
  function Guess(a: seq<i32>, b: seq<i32>, i: nat): i32
    requires |a| == |b| && 2 <= i < |a|
  {
    var before := if i <= 3 then Other(a, b, i - 2) else Guess(a, b, i - 2);
    Minus(Times(2, Derived(a, b, i - 1)), before)
  }

  /** By how much the derived value will miss. */
  function Residual(a: seq<i32>, b: seq<i32>, i: nat): i32
    requires |a| == |b| && 2 <= i < |a|
  {
    Minus(Minus(Total(a, b, i), Guess(a, b, i)), Derived(a, b, i))
  }

  /** A fold of two streams, as the reference encoder makes it. */
  ghost predicate IsFold(f: Folded, a: seq<i32>, b: seq<i32>) {
    && |a| == |b| >= 2 && |f.seeds| == 5 && f.seeds[0] == a[1] && f.seeds[1] == b[0]
    && |f.carrier| == |f.residuals| == |a|
    && (forall i | 0 <= i < |a| :: f.Sum(i) == Total(a, b, i))
    && f.residuals[0] == f.residuals[1] == 0
    && forall i | 2 <= i < |a| :: f.residuals[i] == Residual(a, b, i)
  }

  /** The reference encoder: an honest sum, and the errors found by replaying
      the decoder. */
  method FoldTwo(a: seq<i32>, b: seq<i32>, m: nat) returns (f: Folded)
    requires Foldable(a, b, m)
    ensures f.m == m && IsFold(f, a, b)
    ensures forall i | 0 <= i < |a| :: f.carrier[i] == Total(a, b, i) * Pow2(m)
  {
    var carrier := seq(|a|, i requires 0 <= i < |a| => (Total(a, b, i) * Pow2(m)) as i32);
    f := Folded(m, [a[1], b[0], 0, 0, 0], carrier, []);
    forall i | 0 <= i < |a|
      ensures f.Sum(i) == Total(a, b, i)
    {
      QuotientUnique(carrier[i], Pow2(m), Total(a, b, i), 0);
    }
    var sums := seq(|a|, i requires 0 <= i < |a| => f.Sum(i));
    var residuals := Replay(a, b, sums);
    f := f.(residuals := residuals);
  }

  /** The errors the decoder would make from the true seeds. */
  method Replay(a: seq<i32>, b: seq<i32>, sums: seq<i32>) returns (res: seq<i32>)
    requires |a| == |b| == |sums| >= 2 && forall i | 0 <= i < |a| :: sums[i] == Total(a, b, i)
    ensures |res| == |a| && res[0] == res[1] == 0
    ensures forall i | 2 <= i < |a| :: res[i] == Residual(a, b, i)
  {
    InRange(a[0]);
    InRange(b[1]);
    res := [0, 0];
    var s3, s2, s4 := Minus(sums[0], b[0]), a[1], Minus(sums[1], a[1]);
    var aIsExtrapolated := true;
    for i := 2 to |a|
      invariant aIsExtrapolated == Even(i) && s2 == Derived(a, b, i - 1)
      invariant s3 == if i <= 3 then Other(a, b, i - 2) else Guess(a, b, i - 2)
      invariant s4 == if i <= 2 then Other(a, b, i - 1) else Guess(a, b, i - 1)
      invariant |res| == i && res[0] == res[1] == 0 && forall j | 2 <= j < i :: res[j] == Residual(a, b, j)
    {
      var residual, base, pred := ReplayStep(sums[i], s2, s3, if aIsExtrapolated then b[i] else a[i]);
      res := res + [residual];
      s3, s2, s4 := s4, base, pred;
      aIsExtrapolated := !aIsExtrapolated;
    }
  }

  /** One step of the replay: the error, the corrected base and the guess. */
  method ReplayStep(sum: i32, s2: i32, s3: i32, truth: i32) returns (residual: i32, base: i32, pred: i32)
    ensures pred == Minus(Times(2, s2), s3) && residual == Minus(Minus(sum, pred), truth) && base == truth
  {
    pred := Minus(Times(2, s2), s3);
    var der := Minus(sum, pred);
    residual := Minus(der, truth);
    SubtractBack(der, truth);
    base := Minus(der, residual);
  }

  lemma SubtractBack(x: i32, y: i32)
    ensures Minus(x, Minus(x, y)) == y
  {
    var k := Turns(x - y);
    TurnsDoNotMatter(x - Minus(x, y), y, k);
    InRange(y);
  }

  /** The predictor's base is the true derived sample at every step. */
  lemma {:induction false} PredictorTracks(f: Folded, a: seq<i32>, b: seq<i32>, i: nat)
    requires IsFold(f, a, b) && 2 <= i <= |a|
    ensures var p := PredictorAt(f, i);
            && p.base == Derived(a, b, i - 1) && p.aIsExtrapolated == Even(i)
            && p.previous == (if i <= 3 then Other(a, b, i - 2) else Guess(a, b, i - 2))
            && p.next == (if i <= 2 then Other(a, b, i - 1) else Guess(a, b, i - 1))
  {
    if i == 2 {
      FirstSamples(f, a, b);
    } else {
      PredictorTracks(f, a, b, i - 1);
      SubtractBack(Minus(Total(a, b, i - 1), Guess(a, b, i - 1)), Derived(a, b, i - 1));
    }
  }

  /** The first two samples come back exactly. */
  lemma FirstSamples(f: Folded, a: seq<i32>, b: seq<i32>)
    requires IsFold(f, a, b)
    ensures TwoAt(f, 0) == (a[0], b[0]) && TwoAt(f, 1) == (a[1], b[1])
  {
    InRange(b[0]);
    InRange(a[0]);
    InRange(a[1]);
    InRange(b[1]);
    assert f.residuals[0] == 0 && f.residuals[1] == 0;
    assert f.Sum(0) == Total(a, b, 0) && f.Sum(1) == Total(a, b, 1);
  }

  /** From the third sample on, the derived stream comes back plus the residual
      and the other minus it, the roles alternating. */
  lemma FoldTracks(f: Folded, a: seq<i32>, b: seq<i32>, i: nat)
    requires IsFold(f, a, b) && 2 <= i < |a|
    ensures TwoAt(f, i) == if Even(i) then (Minus(a[i], f.residuals[i]), Plus(b[i], f.residuals[i]))
                           else (Plus(a[i], f.residuals[i]), Minus(b[i], f.residuals[i]))
  {
    PredictorTracks(f, a, b, i);
    var p := PredictorAt(f, i);
    SplitTracks(p, f.Sum(i), Other(a, b, i), Derived(a, b, i), f.residuals[i]);
  }

  lemma SplitTracks(p: Predictor, sum: i32, other: i32, derived: i32, residual: i32)
    requires sum == Of(other, derived) && residual == Minus(Minus(sum, Extrapolated(p)), derived)
    ensures Split(p, sum) == if p.aIsExtrapolated then (Minus(other, residual), Plus(derived, residual))
                             else (Plus(derived, residual), Minus(other, residual))
  {
    Miss(other, derived, Extrapolated(p));
  }

  function Of(x: int, y: int): int { x + y }

  /** The derived value misses by as much as the guess does, the other way. */
  lemma Miss(other: i32, derived: i32, guess: i32)
    ensures var e := Minus(Minus(Of(other, derived), guess), derived);
            guess == Minus(other, e) && Minus(Of(other, derived), guess) == Plus(derived, e)
  {
    var d := Minus(Of(other, derived), guess);
    var k := Turns(Of(other, derived) - guess);
    var l := Turns(d - derived);
    TurnsDoNotMatter(other - Minus(d, derived), guess, k + l);
    TurnsDoNotMatter(derived + Minus(d, derived), d, -l);
    InRange(guess);
    InRange(d);
  }

  // ---- three streams

  predicate ThreeReady(f: Folded) {
    |f.seeds| == 5 && |f.residuals| >= 2 * |f.carrier|
  }

  /** The two residuals of a sample. */
  function R(f: Folded, i: nat, j: nat): i32
    requires ThreeReady(f) && i < |f.carrier| && j < 2
  {
    f.residuals[2 * i + j]
  }

  /** A quarter, rounded toward zero. */
  function Quarter(t: i32): i32 {
    (if t < 0 then Plus(t, 3) else t) / 4
  }

  function Forecast(s7: i32, s8: i32): i32 {
    Minus(Times(4, s7), Times(3, s8))
  }

  function Fresh(s8: i32, pred: i32): i32 {
    Quarter(Plus(s8, Times(3, pred)))
  }

  /** What the sum leaves for the derived stream. */
  function Rest(sum: i32, r1: i32, x: i32, r0: i32, y: i32): i32 {
    Minus(Minus(Minus(Minus(sum, r1), x), r0), y)
  }

  type Triple = t: seq<i32> | |t| == 3 witness [0, 0, 0]

  /** The rotating predictor: `latest` gets the new extrapolation, `held` the
      previous one, `derived` what the sum leaves. */
  datatype Rotation = Rotation(s6: i32, s7: i32, s8: i32, latest: nat, derived: nat, held: nat, s9: i32)

  predicate RolesApart(r: Rotation) {
    r.latest < 3 && r.derived < 3 && r.held < 3 && r.latest != r.derived && r.derived != r.held && r.latest != r.held
  }

  function FirstTriple(f: Folded): Triple
    requires ThreeReady(f) && |f.carrier| > 0
  {
    [Minus(Minus(Minus(Minus(f.Sum(0), R(f, 0, 1)), f.seeds[1]), R(f, 0, 0)), f.seeds[0]), f.seeds[0], f.seeds[1]]
  }

  function SecondTriple(f: Folded): Triple
    requires ThreeReady(f) && |f.carrier| > 1
  {
    [f.seeds[2], Minus(Minus(Minus(Minus(f.Sum(1), R(f, 1, 1)), R(f, 1, 0)), f.seeds[2]), f.seeds[3]), f.seeds[3]]
  }

  function ThirdTriple(f: Folded): Triple
    requires ThreeReady(f) && |f.carrier| > 2
  {
    var a := Fresh(FirstTriple(f)[0], Forecast(f.seeds[2], FirstTriple(f)[0]));
    [a, f.seeds[4], Minus(Minus(Minus(Minus(f.Sum(2), R(f, 2, 1)), R(f, 2, 0)), f.seeds[4]), a)]
  }

  /** Where the predictor stands before sample `i`. */
  function RotationAt(f: Folded, i: nat): (r: Rotation)
    requires ThreeReady(f) && 3 <= i <= |f.carrier|
    ensures RolesApart(r)
  {
    if i == 3 then
      Rotation(Forecast(f.seeds[2], FirstTriple(f)[0]), f.seeds[4], SecondTriple(f)[1], 1, 2, 0, ThirdTriple(f)[2])
    else
      Rotated(RotationAt(f, i - 1), f.Sum(i - 1), R(f, i - 1, 0), R(f, i - 1, 1))
  }

  function DerivedOf(r: Rotation, sum: i32, r0: i32, r1: i32): i32 {
    Rest(sum, r1, r.s6, r0, Fresh(r.s8, Forecast(r.s7, r.s8)))
  }

  function Rotated(r: Rotation, sum: i32, r0: i32, r1: i32): Rotation {
    Rotation(Forecast(r.s7, r.s8), DerivedOf(r, sum, r0, r1), r.s9, r.derived, r.held, r.latest, r.s6)
  }

  /** Three samples, each to the stream whose turn it is. */
  function Placed(r: Rotation, derived: i32, held: i32, latest: i32): Triple {
    seq(3, k requires 0 <= k < 3 => if k == r.derived then derived else if k == r.held then held else latest)
  }

  function Dealt(r: Rotation, sum: i32, r0: i32, r1: i32): Triple
    requires RolesApart(r)
  {
    Placed(r, DerivedOf(r, sum, r0, r1), r.s6, Fresh(r.s8, Forecast(r.s7, r.s8)))
  }

  /** Sample `i` of the three streams before the residuals go back. */
  function MixedAt(f: Folded, i: nat): Triple
    requires ThreeReady(f) && i < |f.carrier|
  {
    if i == 0 then FirstTriple(f)
    else if i == 1 then SecondTriple(f)
    else if i == 2 then ThirdTriple(f)
    else Dealt(RotationAt(f, i), f.Sum(i), R(f, i, 0), R(f, i, 1))
  }

  /** The residuals go back on the two streams other than `skipped`. */
  function PutBack(t: Triple, skipped: nat, r0: i32, r1: i32): Triple {
    if skipped == 0 then [t[0], Plus(t[1], r0), Plus(t[2], r1)]
    else if skipped == 1 then [Plus(t[0], r0), t[1], Plus(t[2], r1)]
    else [Plus(t[0], r0), Plus(t[1], r1), t[2]]
  }

  /** Sample `i` of the three streams, before scaling. */
  function ThreeAt(f: Folded, i: nat): Triple
    requires ThreeReady(f) && i < |f.carrier|
  {
    PutBack(MixedAt(f, i), i % 3, R(f, i, 0), R(f, i, 1))
  }

  function SumOf(t: Triple): int {
    Of(Of(t[0], t[1]), t[2])
  }

  lemma MinusTurns(x: int, y: int) returns (k: int)
    ensures Minus(x, y) == x - y + 0x1_0000_0000 * k
  {
    var i := Turns(x - y);
    k := -i;
  }

  lemma PlusTurns(x: int, y: int) returns (k: int)
    ensures Plus(x, y) == x + y + 0x1_0000_0000 * k
  {
    var i := Turns(x + y);
    k := -i;
  }

  lemma MinusTwice(x: int, a: int, b: int) returns (k: int)
    ensures Minus(Minus(x, a), b) == x - a - b + 0x1_0000_0000 * k
  {
    var i := MinusTurns(x, a);
    var j := MinusTurns(Minus(x, a), b);
    k := i + j;
  }

  lemma RestTurns(sum: i32, a: i32, b: i32, c: i32, d: i32) returns (k: int)
    ensures Minus(Minus(Minus(Minus(sum, a), b), c), d) == sum as int - a - b - c - d + 0x1_0000_0000 * k
  {
    var i := MinusTwice(sum, a, b);
    var x := Minus(Minus(sum, a), b);
    var j := MinusTwice(x, c, d);
    k := i + j;
  }

  lemma DealtSum(r: Rotation, sum: i32, r0: i32, r1: i32) returns (k: int)
    requires RolesApart(r)
    ensures SumOf(Dealt(r, sum, r0, r1)) == sum as int - r0 - r1 + 0x1_0000_0000 * k
  {
    var latest := Fresh(r.s8, Forecast(r.s7, r.s8));
    PlacedSum(r, DerivedOf(r, sum, r0, r1), r.s6, latest);
    k := RestTurns(sum, r1, r.s6, r0, latest);
  }

  lemma PlacedSum(r: Rotation, derived: i32, held: i32, latest: i32)
    requires RolesApart(r)
    ensures SumOf(Placed(r, derived, held, latest)) == derived as int + held + latest
  {
  }

  /** Before the residuals go back, their sum is what the streams lack. */
  lemma MixedSum(f: Folded, i: nat) returns (k: int)
    requires ThreeReady(f) && i < |f.carrier|
    ensures SumOf(MixedAt(f, i)) == f.Sum(i) as int - R(f, i, 0) - R(f, i, 1) + 0x1_0000_0000 * k
  {
    if i == 0 {
      k := RestTurns(f.Sum(0), R(f, 0, 1), f.seeds[1], R(f, 0, 0), f.seeds[0]);
    } else if i == 1 {
      k := RestTurns(f.Sum(1), R(f, 1, 1), R(f, 1, 0), f.seeds[2], f.seeds[3]);
    } else if i == 2 {
      k := RestTurns(f.Sum(2), R(f, 2, 1), R(f, 2, 0), f.seeds[4], ThirdTriple(f)[0]);
    } else {
      k := DealtSum(RotationAt(f, i), f.Sum(i), R(f, i, 0), R(f, i, 1));
    }
  }

  lemma PutBackTurns(t: Triple, skipped: nat, r0: i32, r1: i32) returns (k: int)
    ensures SumOf(PutBack(t, skipped, r0, r1)) == SumOf(t) + r0 + r1 + 0x1_0000_0000 * k
  {
    var x, y := if skipped == 0 then 1 else 0, if skipped == 0 || skipped == 1 then 2 else 1;
    var i := PlusTurns(t[x], r0);
    var j := PlusTurns(t[y], r1);
    k := i + j;
  }

  lemma TripleSum(t: Triple, sum: i32, k: int)
    requires SumOf(t) == sum as int + 0x1_0000_0000 * k
    ensures Plus(Plus(t[0], t[1]), t[2]) == sum
  {
    var i := PlusTurns(t[0], t[1]);
    TurnsDoNotMatter(Of(Plus(t[0], t[1]), t[2]), sum, k + i);
    InRange(sum);
  }

  /** The three streams add up to the carrier at every sample. */
  lemma ThreeStreamsSum(f: Folded, i: nat)
    requires ThreeReady(f) && i < |f.carrier|
    ensures var t := ThreeAt(f, i); Plus(Plus(t[0], t[1]), t[2]) == f.Sum(i)
  {
    var k := MixedSum(f, i);
    var l := PutBackTurns(MixedAt(f, i), i % 3, R(f, i, 0), R(f, i, 1));
    TripleSum(ThreeAt(f, i), f.Sum(i), k + l);
  }

  /** The roles rotate through all three streams. From the fourth sample on the
      residuals also go back on the derived stream: the one they skip carries
      the held extrapolation. */
  lemma {:induction false} RolesRotate(f: Folded, i: nat)
    requires ThreeReady(f) && 3 <= i <= |f.carrier|
    ensures var r := RotationAt(f, i);
            r.held == i % 3 && r.latest == (i + 1) % 3 && r.derived == (i + 2) % 3
  {
    if i > 3 {
      RolesRotate(f, i - 1);
      RolesTurn(RotationAt(f, i - 1), f.Sum(i - 1), R(f, i - 1, 0), R(f, i - 1, 1));
      NextThird(i - 1);
    }
  }

  lemma RolesTurn(r: Rotation, sum: i32, r0: i32, r1: i32)
    ensures var n := Rotated(r, sum, r0, r1); n.latest == r.derived && n.derived == r.held && n.held == r.latest
  {
  }

  lemma NextThird(i: nat)
    ensures (i + 3) % 3 == i % 3
  {
  }
}
