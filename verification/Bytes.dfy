/** Bytes, bits and the small vocabulary every other module shares. */
module Bytes {

  type byte = x: int | 0 <= x < 256
  type bit = x: int | 0 <= x <= 1
  type i32 = x: int | -0x8000_0000 <= x < 0x8000_0000

  /** The saturation point of the 32-bit fields of a probe's answer. */
  const U32_MAX: nat := 0xFFFF_FFFF

  datatype Option<+T> = None | Some(value: T)

  datatype Result<+T, +E> = Ok(value: T) | Err(error: E)

  function Min(a: int, b: int): int {
    if a < b then a else b
  }

  function Max(a: int, b: int): int {
    if a < b then b else a
  }

  function Pow2(n: nat): (r: nat)
    ensures r > 0
  {
    if n == 0 then 1 else 2 * Pow2(n - 1)
  }

  /** Parts, one behind the other. */
  function Joined<T>(parts: seq<seq<T>>): seq<T> {
    if parts == [] then [] else parts[0] + Joined(parts[1..])
  }

  lemma MulTwice(x: int, y: int)
    ensures x * (2 * y) == 2 * (x * y) && (2 * y) * x == 2 * (y * x)
  {
  }

  lemma {:induction false} Pow2Add(a: nat, b: nat)
    ensures Pow2(a + b) == Pow2(a) * Pow2(b)
  {
    if a == 0 {
    } else {
      Pow2Add(a - 1, b);
      MulTwice(Pow2(b), Pow2(a - 1));
    }
  }

  lemma Pow2Monotone(a: nat, b: nat)
    requires a <= b
    ensures Pow2(a) <= Pow2(b)
  {
  }

  /** The number a big-endian string of bits spells, most significant first. */
  function Value(bits: seq<bit>): nat {
    if bits == [] then 0 else 2 * Value(bits[..|bits| - 1]) + bits[|bits| - 1]
  }

  lemma {:induction false} ValueBound(bits: seq<bit>)
    ensures Value(bits) < Pow2(|bits|)
  {
    if bits == [] {
    } else {
      ValueBound(bits[..|bits| - 1]);
    }
  }

  lemma ValueSnoc(bits: seq<bit>, b: bit)
    ensures Value(bits + [b]) == 2 * Value(bits) + b
  {
    assert (bits + [b])[..|bits|] == bits;
  }

  lemma {:induction false} ValueConcat(a: seq<bit>, b: seq<bit>)
    ensures Value(a + b) == Value(a) * Pow2(|b|) + Value(b)
  {
    if b == [] {
      assert a + b == a;
    } else {
      var front, last := b[..|b| - 1], b[|b| - 1];
      assert a + b == (a + front) + [last];
      assert b == front + [last];
      ValueSnoc(a + front, last);
      ValueConcat(a, front);
      MulTwice(Value(a), Pow2(|front|));
    }
  }

  /** Shifting a word right and masking its low bit reads one of its bits. */
  lemma {:induction false} BitOfValue(bits: seq<bit>, k: nat)
    requires k < |bits|
    ensures Value(bits) / Pow2(|bits| - 1 - k) % 2 == bits[k]
  {
    var front, last := bits[..|bits| - 1], bits[|bits| - 1];
    if k == |bits| - 1 {
      assert Pow2(0) == 1;
    } else {
      BitOfValue(front, k);
      var p := Pow2(|front| - 1 - k);
      assert Pow2(|bits| - 1 - k) == 2 * p && Value(bits) == 2 * Value(front) + last;
      hide Value, Pow2;
      DivTwice(Value(front), last, p);
    }
  }

  lemma DivTwice(v: nat, b: bit, p: nat)
    requires p > 0
    ensures (2 * v + b) / (2 * p) == v / p
  {
    var q, r := v / p, v % p;
    assert v == q * p + r;
    assert 2 * v + b == q * (2 * p) + (2 * r + b);
    QuotientUnique(2 * v + b, 2 * p, q, 2 * r + b);
  }

  lemma QuotientUnique(n: int, d: int, q: int, r: int)
    requires d > 0 && 0 <= r < d && n == q * d + r
    ensures n / d == q && n % d == r
  {
    var k := n / d - q;
    assert n == d * (n / d) + n % d;
    assert k * d == r - n % d;
    assert k >= 1 ==> k * d >= d;
    assert k <= -1 ==> k * d <= -d;
  }
}

/** Big-endian bit fields of a byte string. */
module Fields {
  import opened Bytes

  function BitAt(s: seq<byte>, i: nat): bit
    requires i < 8 * |s|
  {
    s[i / 8] / Pow2(7 - i % 8) % 2
  }

  function BitsAt(s: seq<byte>, at: nat, width: nat): (r: seq<bit>)
    requires at + width <= 8 * |s|
    ensures |r| == width
    ensures forall i | 0 <= i < width :: r[i] == BitAt(s, at + i)
  {
    seq<bit>(width, i requires 0 <= i < width => BitAt(s, at + i))
  }

  function Field(s: seq<byte>, at: nat, width: nat): nat
    requires at + width <= 8 * |s|
  {
    Value(BitsAt(s, at, width))
  }

  /** A field does not change when more bytes follow. */
  lemma FieldExtends(s: seq<byte>, t: seq<byte>, at: nat, width: nat)
    requires at + width <= 8 * |s|
    ensures Field(s + t, at, width) == Field(s, at, width)
  {
    forall i | 0 <= i < width
      ensures BitsAt(s + t, at, width)[i] == BitsAt(s, at, width)[i]
    {
      assert (s + t)[(at + i) / 8] == s[(at + i) / 8];
    }
    assert BitsAt(s + t, at, width) == BitsAt(s, at, width);
  }
}
