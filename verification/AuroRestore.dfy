/** The unmixer in place: the streams of one block, restored into the output
    slices and scaled back to 24 bits. */
module AuroRestore {
  import opened Bytes
  import opened AuroUnmix

  const GAIN_CODES := 244

  /** A sample times the linear gain of a table index, in single precision and
      truncated. Only what it makes of the exact powers of two is relied on. */
  type Amplify = (nat, i32) -> i32

  function Clamp24(v: int): i32 {
    if v < -0x7F_FFFF then -0x7F_FFFF else if v > 0x7F_FFFF then 0x7F_FFFF else v
  }

  /** Back to 24 bits: amplified, the borrowed bits' weight restored, clamped. */
  function Scale(amplify: Amplify, gain: nat, v: i32, m: nat): i32 {
    Clamp24(Wrap(amplify(gain, v) * Pow2(m)))
  }

  /** A sample without its borrowed bits, at its own weight. */
  function Masked(s: i32, m: nat): int {
    s / Pow2(m) * Pow2(m)
  }

  lemma MaskKeepsRange(s: i32, m: nat)
    requires m <= 31
    ensures -0x8000_0000 <= Masked(s, m) <= s
  {
    Pow2Add(31 - m, m);
    HighestBit();
    var e := Pow2(31 - m);
    MaskAbove(s, Pow2(m), e);
  }

  lemma HighestBit()
    ensures Pow2(31) == 0x8000_0000
  {
    assert Pow2(8) == 0x100;
    assert Pow2(16) == 0x1_0000;
    assert Pow2(24) == 0x100_0000;
  }

  /** Masking does not go below a multiple of the mask. */
  lemma MaskAbove(s: int, d: nat, e: nat)
    requires d > 0 && s >= -(e * d)
    ensures -(e * d) <= s / d * d <= s
  {
    var q := s / d;
    assert s == q * d + s % d;
    var low := 0 - e;
    assert d * low == -(e * d) && d * (low - 1) == d * low - d;
    if q < low {
      MulMonotone(d, q, low - 1);
    } else {
      MulMonotone(d, low, q);
    }
  }

  function Carried(s: i32, m: nat): i32
    requires m <= 31
  {
    MaskKeepsRange(s, m);
    Masked(s, m)
  }

  /** The gains a block announces. */
  datatype Gains = Gains(codes: seq<nat>, offset: nat)

  predicate InTable(g: Gains, mode: nat)
    requires mode <= |g.codes|
  {
    forall j | 0 <= j < mode :: g.codes[j] + g.offset < GAIN_CODES
  }

  function Scaled(amplify: Amplify, gain: nat, v: seq<i32>, m: nat): (r: seq<i32>)
    ensures |r| == |v|
  {
    seq(|v|, i requires 0 <= i < |v| => Scale(amplify, gain, v[i], m))
  }

  /** One output, scaled in place. */
  method ScaleInPlace(out: array<i32>, n: nat, amplify: Amplify, gain: nat, m: nat)
    requires n <= out.Length
    modifies out
    ensures out[..n] == Scaled(amplify, gain, old(out[..n]), m)
    ensures out[n..] == old(out[n..])
  {
    for i := 0 to n
      invariant forall j | 0 <= j < i :: out[j] == Scale(amplify, gain, old(out[j]), m)
      invariant out[i..] == old(out[i..])
    {
      assert out[i] == out[i..][0] == old(out[i..])[0] == old(out[i]);
      out[i] := Scale(amplify, gain, out[i], m);
      assert out[i + 1..] == old(out[i..])[1..] == old(out[i + 1..]);
    }
  }

  /** The two streams before scaling. */
  method RestoreTwo(f: Folded, a: array<i32>, b: array<i32>)
    requires a != b && TwoReady(f) && |f.carrier| <= a.Length && |f.carrier| <= b.Length
    modifies a, b
    ensures forall i | 0 <= i < |f.carrier| :: (a[i], b[i]) == TwoAt(f, i)
    ensures a[|f.carrier|..] == old(a[|f.carrier|..]) && b[|f.carrier|..] == old(b[|f.carrier|..])
  {
    if |f.carrier| == 0 {
      return;
    }
    var p := StartTwo(f, a, b);
    if |f.carrier| > 1 {
      ghost var two := (i: nat) => if i < |f.carrier| then TwoAt(f, i) else (0, 0);
      ghost var at := (i: nat) => if 2 <= i <= |f.carrier| then PredictorAt(f, i) else p;
      PredictRest(f, a, b, p, two, at);
    }
  }

  method StartTwo(f: Folded, a: array<i32>, b: array<i32>) returns (p: Predictor)
    requires a != b && TwoReady(f) && 0 < |f.carrier| <= a.Length && |f.carrier| <= b.Length
    modifies a, b
    ensures forall i | 0 <= i < Min(2, |f.carrier|) :: (a[i], b[i]) == TwoAt(f, i)
    ensures |f.carrier| > 1 ==> p == PredictorAt(f, 2)
    ensures a[|f.carrier|..] == old(a[|f.carrier|..]) && b[|f.carrier|..] == old(b[|f.carrier|..])
  {
    b[0] := Plus(f.seeds[1], f.residuals[0]);
    a[0] := Minus(f.Sum(0), b[0]);
    p := Predictor(f.seeds[0], a[0], 0, true);
    if |f.carrier| > 1 {
      a[1] := Plus(f.residuals[1], f.seeds[0]);
      b[1] := Minus(f.Sum(1), a[1]);
      p := p.(next := b[1]);
    }
  }

  /** What the loop works towards. (The triggers keep the arithmetic of a sample
      out of the loop's proof.) */
  ghost predicate Predicts(f: Folded, two: nat -> (i32, i32), at: nat -> Predictor)
    requires TwoReady(f)
  {
    && (forall i: nat {:trigger TwoAt(f, i)} | i < |f.carrier| :: two(i) == TwoAt(f, i))
    && (forall i: nat {:trigger PredictorAt(f, i)} | 2 <= i <= |f.carrier| :: at(i) == PredictorAt(f, i))
  }

  method PredictRest(f: Folded, a: array<i32>, b: array<i32>, start: Predictor,
                     ghost two: nat -> (i32, i32), ghost at: nat -> Predictor)
    requires a != b && TwoReady(f) && 2 <= |f.carrier| <= a.Length && |f.carrier| <= b.Length
    requires Predicts(f, two, at) && start == at(2) && forall i | 0 <= i < 2 :: (a[i], b[i]) == two(i)
    modifies a, b
    ensures forall i | 0 <= i < |f.carrier| :: (a[i], b[i]) == two(i)
    ensures a[|f.carrier|..] == old(a[|f.carrier|..]) && b[|f.carrier|..] == old(b[|f.carrier|..])
  {
    var n, p := |f.carrier|, start;
    for i := 2 to n
      invariant p == at(i)
      invariant forall j | 0 <= j < i :: (a[j], b[j]) == two(j)
      invariant a[n..] == old(a[n..]) && b[n..] == old(b[n..])
    {
      var pred, der, next := PredictOne(f, i, p, two, at);
      if p.aIsExtrapolated {
        a[i] := pred;
        b[i] := der;
      } else {
        b[i] := pred;
        a[i] := der;
      }
      p := next;
    }
  }

  method PredictOne(f: Folded, i: nat, p: Predictor, ghost two: nat -> (i32, i32), ghost at: nat -> Predictor)
    returns (pred: i32, der: i32, next: Predictor)
    requires TwoReady(f) && 2 <= i < |f.carrier| && Predicts(f, two, at) && p == at(i)
    ensures two(i) == if p.aIsExtrapolated then (pred, der) else (der, pred)
    ensures next == at(i + 1)
  {
    assert at(i) == PredictorAt(f, i) && at(i + 1) == PredictorAt(f, i + 1) && two(i) == TwoAt(f, i);
    pred := Minus(Times(2, p.base), p.previous);
    der := Minus(f.Sum(i), pred);
    next := Predictor(Minus(der, f.residuals[i]), p.next, pred, !p.aIsExtrapolated);
  }

  /** The three outputs at one index. */
  function Slots(a: array<i32>, b: array<i32>, c: array<i32>, i: nat): Triple
    requires i < a.Length && i < b.Length && i < c.Length
    reads a, b, c
  {
    [a[i], b[i], c[i]]
  }

  ghost predicate Separate(a: array<i32>, b: array<i32>, c: array<i32>, n: nat) {
    a != b && b != c && a != c && n <= a.Length && n <= b.Length && n <= c.Length
  }

  method Place(a: array<i32>, b: array<i32>, c: array<i32>, which: nat, i: nat, v: i32)
    requires Separate(a, b, c, i + 1) && which < 3
    modifies a, b, c
    ensures Slots(a, b, c, i) == old(Slots(a, b, c, i))[which := v]
    ensures forall j | 0 <= j < a.Length && j != i :: a[j] == old(a[j])
    ensures forall j | 0 <= j < b.Length && j != i :: b[j] == old(b[j])
    ensures forall j | 0 <= j < c.Length && j != i :: c[j] == old(c[j])
  {
    if which == 0 {
      a[i] := v;
    } else if which == 1 {
      b[i] := v;
    } else {
      c[i] := v;
    }
  }

  method Add(a: array<i32>, b: array<i32>, c: array<i32>, which: nat, i: nat, v: i32)
    requires Separate(a, b, c, i + 1) && which < 3
    modifies a, b, c
    ensures Slots(a, b, c, i) == old(Slots(a, b, c, i))[which := Plus(old(Slots(a, b, c, i))[which], v)]
    ensures forall j | 0 <= j < a.Length && j != i :: a[j] == old(a[j])
    ensures forall j | 0 <= j < b.Length && j != i :: b[j] == old(b[j])
    ensures forall j | 0 <= j < c.Length && j != i :: c[j] == old(c[j])
  {
    if which == 0 {
      a[i] := Plus(a[i], v);
    } else if which == 1 {
      b[i] := Plus(b[i], v);
    } else {
      c[i] := Plus(c[i], v);
    }
  }

  /** The three streams before the residuals go back. */
  method MixThree(f: Folded, a: array<i32>, b: array<i32>, c: array<i32>)
    requires ThreeReady(f) && Separate(a, b, c, |f.carrier|)
    modifies a, b, c
    ensures forall i | 0 <= i < |f.carrier| :: Slots(a, b, c, i) == MixedAt(f, i)
    ensures forall i | |f.carrier| <= i < a.Length :: a[i] == old(a[i])
    ensures forall i | |f.carrier| <= i < b.Length :: b[i] == old(b[i])
    ensures forall i | |f.carrier| <= i < c.Length :: c[i] == old(c[i])
  {
    if |f.carrier| == 0 {
      return;
    }
    var r := WarmUp(f, a, b, c);
    if |f.carrier| > 3 {
      ghost var mixed := (i: nat) => if i < |f.carrier| then MixedAt(f, i) else [0, 0, 0];
      ghost var at := (i: nat) => if 3 <= i <= |f.carrier| then RotationAt(f, i) else r;
      DealRest(f, a, b, c, r, mixed, at);
    }
  }

  /** What the loop works towards. (The triggers keep the arithmetic of a sample
      out of the loop's proof.) */
  ghost predicate Follows(f: Folded, mixed: nat -> Triple, at: nat -> Rotation)
    requires ThreeReady(f)
  {
    && (forall i: nat {:trigger MixedAt(f, i)} | i < |f.carrier| :: mixed(i) == MixedAt(f, i))
    && (forall i: nat {:trigger RotationAt(f, i)} | 3 <= i <= |f.carrier| :: at(i) == RotationAt(f, i))
  }

  method DealRest(f: Folded, a: array<i32>, b: array<i32>, c: array<i32>, start: Rotation,
                  ghost mixed: nat -> Triple, ghost at: nat -> Rotation)
    requires ThreeReady(f) && Separate(a, b, c, |f.carrier|) && 3 <= |f.carrier| && Follows(f, mixed, at)
      && start == at(3)
    requires forall i | 0 <= i < 3 :: Slots(a, b, c, i) == mixed(i)
    modifies a, b, c
    ensures forall i | 0 <= i < |f.carrier| :: Slots(a, b, c, i) == mixed(i)
    ensures forall i | |f.carrier| <= i < a.Length :: a[i] == old(a[i])
    ensures forall i | |f.carrier| <= i < b.Length :: b[i] == old(b[i])
    ensures forall i | |f.carrier| <= i < c.Length :: c[i] == old(c[i])
  {
    var n := |f.carrier|;
    var r := start;
    for i := 3 to n
      invariant r == at(i)
      invariant forall j | 0 <= j < i :: Slots(a, b, c, j) == mixed(j)
      invariant forall j | n <= j < a.Length :: a[j] == old(a[j])
      invariant forall j | n <= j < b.Length :: b[j] == old(b[j])
      invariant forall j | n <= j < c.Length :: c[j] == old(c[j])
    {
      r := DealSample(f, a, b, c, i, r, mixed, at);
    }
  }

  /** Sample `i` of each stream, and the roles rotate. */
  method DealSample(f: Folded, a: array<i32>, b: array<i32>, c: array<i32>, i: nat, r: Rotation,
                    ghost mixed: nat -> Triple, ghost at: nat -> Rotation) returns (next: Rotation)
    requires ThreeReady(f) && Separate(a, b, c, i + 1) && 3 <= i < |f.carrier| && Follows(f, mixed, at) && r == at(i)
    modifies a, b, c
    ensures Slots(a, b, c, i) == mixed(i) && next == at(i + 1)
    ensures forall j | 0 <= j < a.Length && j != i :: a[j] == old(a[j])
    ensures forall j | 0 <= j < b.Length && j != i :: b[j] == old(b[j])
    ensures forall j | 0 <= j < c.Length && j != i :: c[j] == old(c[j])
  {
    assert at(i) == RotationAt(f, i) && at(i + 1) == RotationAt(f, i + 1) && mixed(i) == MixedAt(f, i);
    next := DealOne(a, b, c, i, r, f.Sum(i), R(f, i, 0), R(f, i, 1));
  }

  method DealOne(a: array<i32>, b: array<i32>, c: array<i32>, i: nat, r: Rotation, sum: i32, r0: i32, r1: i32)
    returns (next: Rotation)
    requires Separate(a, b, c, i + 1) && RolesApart(r)
    modifies a, b, c
    ensures Slots(a, b, c, i) == Dealt(r, sum, r0, r1) && next == Rotated(r, sum, r0, r1)
    ensures forall j | 0 <= j < a.Length && j != i :: a[j] == old(a[j])
    ensures forall j | 0 <= j < b.Length && j != i :: b[j] == old(b[j])
    ensures forall j | 0 <= j < c.Length && j != i :: c[j] == old(c[j])
  {
    var pred := Forecast(r.s7, r.s8);
    var newest := Fresh(r.s8, pred);
    var derived := Rest(sum, r1, r.s6, r0, newest);
    Place(a, b, c, r.derived, i, derived);
    Place(a, b, c, r.held, i, r.s6);
    Place(a, b, c, r.latest, i, newest);
    PlacedOneByOne(old(Slots(a, b, c, i)), r, derived, r.s6, newest);
    next := Rotation(pred, derived, r.s9, r.derived, r.held, r.latest, r.s6);
  }

  lemma PlacedOneByOne(before: Triple, r: Rotation, derived: i32, held: i32, latest: i32)
    requires RolesApart(r)
    ensures before[r.derived := derived][r.held := held][r.latest := latest] == Placed(r, derived, held, latest)
  {
  }

  /** Up to three samples seeded from the header. */
  method WarmUp(f: Folded, a: array<i32>, b: array<i32>, c: array<i32>) returns (r: Rotation)
    requires ThreeReady(f) && Separate(a, b, c, |f.carrier|) && |f.carrier| > 0
    modifies a, b, c
    ensures forall i | 0 <= i < Min(3, |f.carrier|) :: Slots(a, b, c, i) == MixedAt(f, i)
    ensures |f.carrier| >= 3 ==> r == RotationAt(f, 3)
    ensures forall i | |f.carrier| <= i < a.Length :: a[i] == old(a[i])
    ensures forall i | |f.carrier| <= i < b.Length :: b[i] == old(b[i])
    ensures forall i | |f.carrier| <= i < c.Length :: c[i] == old(c[i])
  {
    var n, s := |f.carrier|, f.seeds;
    b[0] := s[0];
    c[0] := s[1];
    a[0] := Minus(Minus(Minus(Minus(f.Sum(0), R(f, 0, 1)), s[1]), R(f, 0, 0)), b[0]);
    r := Rotation(0, c[0], 0, 1, 2, 0, a[0]);
    if n > 1 {
      c[1] := s[3];
      a[1] := s[2];
      b[1] := Minus(Minus(Minus(Minus(f.Sum(1), R(f, 1, 1)), R(f, 1, 0)), a[1]), c[1]);
      r := r.(s7 := a[1], s8 := r.s9, s9 := b[1]);
    }
    if n > 2 {
      var pred := Forecast(r.s7, r.s8);
      a[2] := Fresh(r.s8, pred);
      b[2] := s[4];
      c[2] := Minus(Minus(Minus(Minus(f.Sum(2), R(f, 2, 1)), R(f, 2, 0)), b[2]), a[2]);
      r := r.(s6 := pred, s7 := b[2], s8 := r.s9, s9 := c[2]);
    }
  }

  /** The residuals go back. */
  method PutResidualsBack(f: Folded, a: array<i32>, b: array<i32>, c: array<i32>)
    requires ThreeReady(f) && Separate(a, b, c, |f.carrier|)
    requires forall i | 0 <= i < |f.carrier| :: Slots(a, b, c, i) == MixedAt(f, i)
    modifies a, b, c
    ensures forall i | 0 <= i < |f.carrier| :: Slots(a, b, c, i) == ThreeAt(f, i)
    ensures forall i | |f.carrier| <= i < a.Length :: a[i] == old(a[i])
    ensures forall i | |f.carrier| <= i < b.Length :: b[i] == old(b[i])
    ensures forall i | |f.carrier| <= i < c.Length :: c[i] == old(c[i])
  {
    var n := |f.carrier|;
    for i := 0 to n
      invariant forall j | 0 <= j < i :: Slots(a, b, c, j) == ThreeAt(f, j)
      invariant forall j | i <= j < n :: Slots(a, b, c, j) == MixedAt(f, j)
      invariant forall j | n <= j < a.Length :: a[j] == old(a[j])
      invariant forall j | n <= j < b.Length :: b[j] == old(b[j])
      invariant forall j | n <= j < c.Length :: c[j] == old(c[j])
    {
      var ph := i % 3;
      var x, y := if ph == 1 || ph == 2 then 0 else 1, if ph == 2 then 1 else 2;
      ghost var before := MixedAt(f, i);
      Add(a, b, c, x, i, R(f, i, 0));
      Add(a, b, c, y, i, R(f, i, 1));
      assert Slots(a, b, c, i) == PutBack(before, ph, R(f, i, 0), R(f, i, 1));
    }
  }

  predicate Ready(mode: nat, f: Folded) {
    f.m <= 31 && |f.seeds| == 5 && (mode == 2 ==> TwoReady(f)) && (mode == 3 ==> ThreeReady(f))
  }

  /** Sample `i` of output `j`: the carrier itself, or the restored stream scaled. */
  function OutputAt(mode: nat, f: Folded, g: Gains, amplify: Amplify, j: nat, i: nat): (v: i32)
    requires j < mode <= 3 == |g.codes| && Ready(mode, f) && i < |f.carrier|
    ensures -0x7F_FFFF <= v <= 0x7F_FFFF
  {
    var gain := g.codes[j] + g.offset;
    if mode == 1 then Clamp24(amplify(gain, Carried(f.carrier[i], f.m)))
    else if mode == 2 then Scale(amplify, gain, if j == 0 then TwoAt(f, i).0 else TwoAt(f, i).1, f.m)
    else Scale(amplify, gain, ThreeAt(f, i)[j], f.m)
  }

  function OutputOf(mode: nat, f: Folded, g: Gains, amplify: Amplify, j: nat): (r: seq<i32>)
    requires j < mode <= 3 == |g.codes| && Ready(mode, f)
    ensures |r| == |f.carrier|
  {
    seq(|f.carrier|, i requires 0 <= i < |f.carrier| => OutputAt(mode, f, g, amplify, j, i))
  }

  /** The outputs hold the scaled streams: one carried through, or two or three restored. */
  ghost predicate Unmixed(mode: nat, f: Folded, g: Gains, amplify: Amplify, a: seq<i32>, b: seq<i32>, c: seq<i32>)
    requires mode <= 3 == |g.codes| && Ready(mode, f) && |f.carrier| <= |a| && |f.carrier| <= |b| && |f.carrier| <= |c|
  {
    var n := |f.carrier|;
    && (mode >= 1 ==> a[..n] == OutputOf(mode, f, g, amplify, 0))
    && (mode >= 2 ==> b[..n] == OutputOf(mode, f, g, amplify, 1))
    && (mode >= 3 ==> c[..n] == OutputOf(mode, f, g, amplify, 2))
  }

  /** The streams of one block, into the first `mode` outputs; refused, with
      nothing written, when a gain lies outside the table. */
  method Unmix(mode: nat, f: Folded, g: Gains, amplify: Amplify, a: array<i32>, b: array<i32>, c: array<i32>)
    returns (ok: bool)
    requires mode <= 3 == |g.codes| && Ready(mode, f) && Separate(a, b, c, |f.carrier|)
    modifies a, b, c
    ensures ok <==> InTable(g, mode)
    ensures !ok || mode == 0 ==> a[..] == old(a[..]) && b[..] == old(b[..]) && c[..] == old(c[..])
    ensures ok ==> Unmixed(mode, f, g, amplify, a[..], b[..], c[..])
    ensures mode <= 1 ==> b[..] == old(b[..])
    ensures mode <= 2 ==> c[..] == old(c[..])
  {
    for j := 0 to mode
      invariant forall k | 0 <= k < j :: g.codes[k] + g.offset < GAIN_CODES
    {
      if g.codes[j] + g.offset >= GAIN_CODES {
        return false;
      }
    }
    ok := true;
    if mode == 1 {
      CarryOne(f, g, amplify, a);
    } else if mode == 2 {
      UnmixTwo(f, g, amplify, a, b);
    } else if mode == 3 {
      UnmixThree(f, g, amplify, a, b, c);
    }
  }

  method UnmixTwo(f: Folded, g: Gains, amplify: Amplify, a: array<i32>, b: array<i32>)
    requires |g.codes| == 3 && a != b && Ready(2, f) && |f.carrier| <= a.Length && |f.carrier| <= b.Length
    modifies a, b
    ensures a[..|f.carrier|] == OutputOf(2, f, g, amplify, 0) && b[..|f.carrier|] == OutputOf(2, f, g, amplify, 1)
  {
    var n := |f.carrier|;
    RestoreTwo(f, a, b);
    TwoScaled(f, g, amplify, a[..n], b[..n]);
    ScaleInPlace(a, n, amplify, g.codes[0] + g.offset, f.m);
    ScaleInPlace(b, n, amplify, g.codes[1] + g.offset, f.m);
  }

  lemma TwoScaled(f: Folded, g: Gains, amplify: Amplify, a: seq<i32>, b: seq<i32>)
    requires |g.codes| == 3 && Ready(2, f) && |a| == |b| == |f.carrier|
    requires forall i | 0 <= i < |f.carrier| :: (a[i], b[i]) == TwoAt(f, i)
    ensures OutputOf(2, f, g, amplify, 0) == Scaled(amplify, g.codes[0] + g.offset, a, f.m)
    ensures OutputOf(2, f, g, amplify, 1) == Scaled(amplify, g.codes[1] + g.offset, b, f.m)
  {
    forall i | 0 <= i < |f.carrier|
      ensures TwoAt(f, i).0 == a[i] && TwoAt(f, i).1 == b[i]
    {
      assert (a[i], b[i]) == TwoAt(f, i);
    }
  }

  method UnmixThree(f: Folded, g: Gains, amplify: Amplify, a: array<i32>, b: array<i32>, c: array<i32>)
    requires |g.codes| == 3 && Ready(3, f) && Separate(a, b, c, |f.carrier|)
    modifies a, b, c
    ensures a[..|f.carrier|] == OutputOf(3, f, g, amplify, 0) && b[..|f.carrier|] == OutputOf(3, f, g, amplify, 1)
    ensures c[..|f.carrier|] == OutputOf(3, f, g, amplify, 2)
  {
    RestoreThree(f, a, b, c);
    ScaleThree(a, b, c, |f.carrier|, g, amplify, f.m);
    ThreeScaled(f, g, amplify, 0);
    ThreeScaled(f, g, amplify, 1);
    ThreeScaled(f, g, amplify, 2);
  }

  method ScaleThree(a: array<i32>, b: array<i32>, c: array<i32>, n: nat, g: Gains, amplify: Amplify, m: nat)
    requires |g.codes| == 3 && Separate(a, b, c, n)
    modifies a, b, c
    ensures a[..n] == Scaled(amplify, g.codes[0] + g.offset, old(a[..n]), m)
    ensures b[..n] == Scaled(amplify, g.codes[1] + g.offset, old(b[..n]), m)
    ensures c[..n] == Scaled(amplify, g.codes[2] + g.offset, old(c[..n]), m)
  {
    ScaleInPlace(a, n, amplify, g.codes[0] + g.offset, m);
    ScaleInPlace(b, n, amplify, g.codes[1] + g.offset, m);
    ScaleInPlace(c, n, amplify, g.codes[2] + g.offset, m);
  }

  /** One of three streams, before scaling. */
  function Restored(f: Folded, j: nat): (r: seq<i32>)
    requires ThreeReady(f) && j < 3
    ensures |r| == |f.carrier|
  {
    seq(|f.carrier|, i requires 0 <= i < |f.carrier| => ThreeAt(f, i)[j])
  }

  lemma ThreeScaled(f: Folded, g: Gains, amplify: Amplify, j: nat)
    requires |g.codes| == 3 && Ready(3, f) && j < 3
    ensures OutputOf(3, f, g, amplify, j) == Scaled(amplify, g.codes[j] + g.offset, Restored(f, j), f.m)
  {
  }

  method CarryOne(f: Folded, g: Gains, amplify: Amplify, a: array<i32>)
    requires |g.codes| == 3 && Ready(1, f) && |f.carrier| <= a.Length
    modifies a
    ensures a[..|f.carrier|] == OutputOf(1, f, g, amplify, 0)
  {
    var gain := g.codes[0] + g.offset;
    for i := 0 to |f.carrier|
      invariant forall j | 0 <= j < i :: a[j] == Clamp24(amplify(gain, Carried(f.carrier[j], f.m)))
    {
      a[i] := Clamp24(amplify(gain, Carried(f.carrier[i], f.m)));
    }
  }

  method RestoreThree(f: Folded, a: array<i32>, b: array<i32>, c: array<i32>)
    requires ThreeReady(f) && Separate(a, b, c, |f.carrier|)
    modifies a, b, c
    ensures a[..|f.carrier|] == Restored(f, 0) && b[..|f.carrier|] == Restored(f, 1)
      && c[..|f.carrier|] == Restored(f, 2)
  {
    MixThree(f, a, b, c);
    PutResidualsBack(f, a, b, c);
    forall i | 0 <= i < |f.carrier|
      ensures a[i] == ThreeAt(f, i)[0] && b[i] == ThreeAt(f, i)[1] && c[i] == ThreeAt(f, i)[2]
    {
      assert Slots(a, b, c, i) == ThreeAt(f, i);
    }
  }

  // ---- at the gains that are exact

  ghost predicate OctaveAt(amplify: Amplify, e: nat, v: i32) {
    e <= 4 && -0x100_0000 <= v <= 0x100_0000 ==> amplify(60 * e, v) == v * Pow2(e)
  }

  /** At 0, 6, 12, 18 and 24 dB the gain is a power of two, which single
      precision multiplies exactly by a number of at most 24 bits. */
  ghost predicate ExactAtOctaves(amplify: Amplify) {
    forall e: nat, v: i32 :: OctaveAt(amplify, e, v)
  }

  lemma ProductBounds(v: int, d: nat, limit: int)
    requires d > 0 && limit >= 0 && -limit <= v * d <= limit
    ensures -limit <= v <= limit
  {
    if v > limit {
      MulMonotone(v, 1, d);
    } else if v < -limit {
      MulMonotone(0 - v, 1, d);
    }
  }

  /** A scaled sample stays short of the clamp. */
  predicate Unclamped(v: i32, d: nat) {
    -0x7F_FFFF <= v * d <= 0x7F_FFFF
  }

  /** Short of the clamp, an exact gain and the borrowed bits' weight only shift. */
  lemma ExactScale(amplify: Amplify, e: nat, v: i32, m: nat)
    requires ExactAtOctaves(amplify) && e <= 4 && Unclamped(v, Pow2(e + m))
    ensures Scale(amplify, 60 * e, v, m) == v * Pow2(e + m)
  {
    ProductBounds(v, Pow2(e + m), 0x7F_FFFF);
    assert OctaveAt(amplify, e, v);
    Pow2Add(e, m);
    assert v * Pow2(e) * Pow2(m) == v * (Pow2(e) * Pow2(m));
    InRange(v * Pow2(e + m));
  }

  lemma Regroup(a: int, b: int, c: int, x: nat, y: nat)
    ensures a * (x * y) + b * (x * y) + c * (x * y) == (a + b + c) * y * x
  {
  }

  /** Nothing clamped, the scaled streams add up to the scaled sum. */
  lemma ScaledSum(amplify: Amplify, e: nat, m: nat, a: i32, b: i32, c: i32, sum: int)
    requires ExactAtOctaves(amplify) && e <= 4 && Plus(Plus(a, b), c) == sum
    requires Unclamped(a, Pow2(e + m)) && Unclamped(b, Pow2(e + m)) && Unclamped(c, Pow2(e + m))
    ensures Scale(amplify, 60 * e, a, m) + Scale(amplify, 60 * e, b, m) + Scale(amplify, 60 * e, c, m)
      == sum * Pow2(m) * Pow2(e)
  {
    NoTurns(a, b, c, Pow2(e + m));
    Pow2Add(e, m);
    Regroup(a, b, c, Pow2(e), Pow2(m));
    ThreeScales(amplify, e, m, a, b, c);
  }

  lemma ThreeScales(amplify: Amplify, e: nat, m: nat, a: i32, b: i32, c: i32)
    requires ExactAtOctaves(amplify) && e <= 4
    requires Unclamped(a, Pow2(e + m)) && Unclamped(b, Pow2(e + m)) && Unclamped(c, Pow2(e + m))
    ensures Scale(amplify, 60 * e, a, m) + Scale(amplify, 60 * e, b, m) + Scale(amplify, 60 * e, c, m)
         == a * Pow2(e + m) + b * Pow2(e + m) + c * Pow2(e + m)
  {
    ExactScale(amplify, e, a, m);
    ExactScale(amplify, e, b, m);
    ExactScale(amplify, e, c, m);
  }

  lemma NoTurns(a: i32, b: i32, c: i32, d: nat)
    requires d > 0 && Unclamped(a, d) && Unclamped(b, d) && Unclamped(c, d)
    ensures Plus(Plus(a, b), c) == Of(Of(a, b), c)
  {
    ProductBounds(a, d, 0x7F_FFFF);
    ProductBounds(b, d, 0x7F_FFFF);
    ProductBounds(c, d, 0x7F_FFFF);
    InRange(Of(a, b));
    InRange(Of(Of(a, b), c));
  }

  /** Two restored streams at one exact gain, neither clamped, add up to the
      carrier without its borrowed bits, at that gain. */
  lemma TwoOutputsSum(f: Folded, amplify: Amplify, e: nat, i: nat, a: i32, b: i32)
    requires ExactAtOctaves(amplify) && e <= 4 && TwoReady(f) && i < |f.carrier| && (a, b) == TwoAt(f, i)
    requires Unclamped(a, Pow2(e + f.m)) && Unclamped(b, Pow2(e + f.m))
    ensures Scale(amplify, 60 * e, a, f.m) + Scale(amplify, 60 * e, b, f.m) == Masked(f.carrier[i], f.m) * Pow2(e)
  {
    TwoStreamsSum(f, i);
    InRange(f.Sum(i));
    ExactScale(amplify, e, 0, f.m);
    ScaledSum(amplify, e, f.m, a, b, 0, f.Sum(i));
  }

  /** And so do three. */
  lemma ThreeOutputsSum(f: Folded, amplify: Amplify, e: nat, i: nat, t: Triple)
    requires ExactAtOctaves(amplify) && e <= 4 && ThreeReady(f) && i < |f.carrier| && t == ThreeAt(f, i)
    requires forall j | 0 <= j < 3 :: Unclamped(t[j], Pow2(e + f.m))
    ensures Scale(amplify, 60 * e, t[0], f.m) + Scale(amplify, 60 * e, t[1], f.m) + Scale(amplify, 60 * e, t[2], f.m)
         == Masked(f.carrier[i], f.m) * Pow2(e)
  {
    var a, b, c := t[0], t[1], t[2];
    assert Plus(Plus(a, b), c) == f.Sum(i) by {
      ThreeStreamsSum(f, i);
    }
    ScaledSum(amplify, e, f.m, a, b, c, f.Sum(i));
  }

  // ---- the reference encoder's streams, back at the decoder's output

  /** Whatever is written into the borrowed bits, the streams stay the same. */
  lemma {:induction false} BorrowedBitsDoNotMatter(f: Folded, g: Folded, i: nat)
    requires TwoReady(f) && TwoReady(g) && |f.carrier| == |g.carrier| && 2 <= i <= |f.carrier|
    requires f.seeds == g.seeds && f.residuals == g.residuals
    requires forall k | 0 <= k < |f.carrier| :: f.Sum(k) == g.Sum(k)
    ensures PredictorAt(f, i) == PredictorAt(g, i)
  {
    if i > 2 {
      BorrowedBitsDoNotMatter(f, g, i - 1);
    }
  }

  /** At unity gain and short of the clamp, a two-stream fold comes out as its
      streams less and plus the residual, the borrowed bits' weight restored. */
  lemma FoldComesBack(f: Folded, amplify: Amplify, a: seq<i32>, b: seq<i32>, i: nat, ext: i32, der: i32, r: i32)
    requires ExactAtOctaves(amplify) && IsFold(f, a, b) && 2 <= i < |a| && r == f.residuals[i]
    requires ext == Other(a, b, i) && der == Derived(a, b, i)
    requires Unclamped(Minus(ext, r), Pow2(f.m)) && Unclamped(Plus(der, r), Pow2(f.m))
    ensures Scale(amplify, 0, TwoAt(f, i).0, f.m) == (if Even(i) then Minus(ext, r) else Plus(der, r)) * Pow2(f.m)
    ensures Scale(amplify, 0, TwoAt(f, i).1, f.m) == (if Even(i) then Plus(der, r) else Minus(ext, r)) * Pow2(f.m)
  {
    FoldTracks(f, a, b, i);
    ExactScale(amplify, 0, Minus(ext, r), f.m);
    ExactScale(amplify, 0, Plus(der, r), f.m);
  }
}
