/** The three 16-bit CRCs: two driven by a table (the probes), one bit by bit
    (the Auro block guard). A register is its sixteen bits, most significant
    first, so `c << 1` drops the head and appends a clear bit. */
module Crc {
  import opened Bytes

  type Bits = seq<bool>
  type Register = c: Bits | |c| == 16 witness Clear(16)

  const T := true
  const F := false
  const CCITT: Register := [F, F, F, T, F, F, F, F, F, F, T, F, F, F, F, T] // 0x1021
  const ANSI: Register := [T, F, F, F, F, F, F, F, F, F, F, F, F, T, F, T] // 0x8005

  function Clear(n: nat): (r: Bits)
    ensures |r| == n && forall i | 0 <= i < n :: !r[i]
  {
    seq(n, _ => false)
  }

  function Xor(a: Bits, b: Bits): (r: Bits)
    requires |a| == |b|
    ensures |r| == |a|
  {
    seq(|a|, i requires 0 <= i < |a| => a[i] != b[i])
  }

  function Shift(c: Register, poly: Register): (r: Register) {
    if c[0] then Xor(c[1..] + [false], poly) else c[1..] + [false]
  }

  function ShiftN(c: Register, poly: Register, n: nat): Register {
    if n == 0 then c else Shift(ShiftN(c, poly, n - 1), poly)
  }

  /** The eight bits of a byte. */
  function Octet(b: byte): (r: Bits)
    ensures |r| == 8
  {
    seq(8, i requires 0 <= i < 8 => b / Pow2(7 - i) % 2 == 1)
  }

  function Digits(bits: Bits): (r: seq<bit>)
    ensures |r| == |bits|
  {
    seq(|bits|, i requires 0 <= i < |bits| => if bits[i] then 1 else 0)
  }

  /** The table index eight bits spell. */
  function IndexOf(bits: Bits): (i: nat)
    requires |bits| == 8
    ensures i < 256 && Octet(i) == bits
  {
    var d := Digits(bits);
    ValueBound(d);
    assert Pow2(8) == 256 by {
      Pow2Add(4, 4);
    }
    assert Octet(Value(d)) == bits by {
      forall k: nat | k < 8
        ensures Octet(Value(d))[k] == bits[k]
      {
        BitOfValue(d, k);
      }
    }
    Value(d)
  }

  /** One byte through the bit-serial register. */
  function SerialByte(poly: Register, crc: Register, b: byte): Register {
    ShiftN(Xor(crc, Octet(b) + Clear(8)), poly, 8)
  }

  /** The bit-serial register over a message. */
  function Serial(poly: Register, init: Register, data: seq<byte>): Register {
    if data == [] then init else SerialByte(poly, Serial(poly, init, data[..|data| - 1]), data[|data| - 1])
  }

  /** A table entry: the index shifted through the register as its top byte. */
  function Entry(poly: Register, bits: Bits): Register
    requires |bits| == 8
  {
    ShiftN(bits + Clear(8), poly, 8)
  }

  method BuildTable(poly: Register) returns (table: array<Register>)
    ensures fresh(table) && table.Length == 256
    ensures forall i: nat | i < 256 :: table[i] == Entry(poly, Octet(i))
  {
    table := new Register[256](_ => Clear(16));
    for i := 0 to 256
      invariant forall j: nat | j < i :: table[j] == Entry(poly, Octet(j))
    {
      var crc: Register := Octet(i) + Clear(8);
      for bit := 0 to 8
        invariant crc == ShiftN(Octet(i) + Clear(8), poly, bit)
      {
        crc := if crc[0] then Xor(crc[1..] + [false], poly) else crc[1..] + [false];
      }
      table[i] := crc;
    }
  }

  lemma ShiftLinear(a: Register, b: Register, poly: Register)
    ensures Shift(Xor(a, b), poly) == Xor(Shift(a, poly), Shift(b, poly))
  {
  }

  lemma {:induction false} ShiftNLinear(a: Register, b: Register, poly: Register, n: nat)
    ensures ShiftN(Xor(a, b), poly, n) == Xor(ShiftN(a, poly, n), ShiftN(b, poly, n))
  {
    if n == 0 {
    } else {
      ShiftNLinear(a, b, poly, n - 1);
      ShiftLinear(ShiftN(a, poly, n - 1), ShiftN(b, poly, n - 1), poly);
    }
  }

  /** While no set bit reaches the top, shifting is only shifting. */
  lemma {:induction false} ShiftNoFeedback(c: Register, poly: Register, n: nat)
    requires n <= 8 && c[..8] == Clear(8)
    ensures ShiftN(c, poly, n) == c[n..] + Clear(n)
  {
    if n == 0 {
    } else {
      ShiftNoFeedback(c, poly, n - 1);
      assert ShiftN(c, poly, n - 1)[0] == c[n - 1] == c[..8][n - 1];
    }
  }

  /** One step of the table-driven register is one byte of the bit-serial one. */
  lemma TableStepIsSerial(poly: Register, crc: Register, b: byte)
    ensures Xor(crc[8..] + Clear(8), Entry(poly, Xor(crc[..8], Octet(b)))) == SerialByte(poly, crc, b)
  {
    var low: Register, high: Register := Clear(8) + crc[8..], Xor(crc[..8], Octet(b)) + Clear(8);
    assert Xor(crc, Octet(b) + Clear(8)) == Xor(low, high);
    ShiftNLinear(low, high, poly, 8);
    ShiftNoFeedback(low, poly, 8);
  }

  /** The probes' fold over a table built at compile time. */
  method TableCrc(poly: Register, init: Register, data: seq<byte>) returns (crc: Register)
    ensures crc == Serial(poly, init, data)
  {
    var table := BuildTable(poly);
    crc := init;
    for i := 0 to |data|
      invariant crc == Serial(poly, init, data[..i])
      invariant forall j: nat | j < 256 :: table[j] == Entry(poly, Octet(j))
    {
      assert data[..i + 1][..i] == data[..i];
      TableStepIsSerial(poly, crc, data[i]);
      crc := Xor(crc[8..] + Clear(8), table[IndexOf(Xor(crc[..8], Octet(data[i])))]);
    }
    assert data[..|data|] == data;
  }

  /** The bit-serial update of the Auro block guard. */
  method SerialUpdate(poly: Register, crc: Register, b: byte) returns (c: Register)
    ensures c == SerialByte(poly, crc, b)
  {
    c := Xor(crc, Octet(b) + Clear(8));
    for i := 0 to 8
      invariant c == ShiftN(Xor(crc, Octet(b) + Clear(8)), poly, i)
    {
      c := if c[0] then Xor(c[1..] + [false], poly) else c[1..] + [false];
    }
  }

  /** An odd polynomial marks the last bit whenever it is fed back, so a register
      whose last `n` bits are clear after `n` shifts was only shifted. */
  lemma {:induction false} ClearTailMeansNoFeedback(c: Register, poly: Register, n: nat)
    requires poly[15] && n <= 8 && ShiftN(c, poly, n)[16 - n..] == Clear(n)
    ensures c[..n] == Clear(n) && ShiftN(c, poly, n) == c[n..] + Clear(n)
  {
    if n == 0 {
    } else {
      var d, e := ShiftN(c, poly, n - 1), ShiftN(c, poly, n);
      assert e[15] == e[16 - n..][n - 1] == false;
      assert !d[0];
      assert e == d[1..] + [false];
      var tail := d[16 - (n - 1)..];
      forall i | 0 <= i < n - 1
        ensures tail[i] == Clear(n - 1)[i]
      {
        assert tail[i] == e[16 - n..][i] == Clear(n)[i];
      }
      assert tail == Clear(n - 1);
      ClearTailMeansNoFeedback(c, poly, n - 1);
      assert d[0] == c[n - 1];
      assert c[..n] == c[..n - 1] + [c[n - 1]] == Clear(n);
      assert e == c[n..] + Clear(n);
    }
  }

  /** The register reads zero after a message exactly when the message's last
      two bytes are the checksum of what comes before them. */
  lemma ZeroIffChecksum(poly: Register, init: Register, data: seq<byte>, hi: byte, lo: byte)
    requires poly[15]
    ensures Serial(poly, init, data + [hi, lo]) == Clear(16) <==> Octet(hi) + Octet(lo) == Serial(poly, init, data)
  {
    assert (data + [hi, lo])[..|data| + 1] == data + [hi];
    assert (data + [hi])[..|data|] == data;
    TwoBytesClear(poly, Serial(poly, init, data), hi, lo);
  }

  lemma EntryOfZero(poly: Register)
    ensures Entry(poly, Clear(8)) == Clear(16)
  {
    assert Clear(8) + Clear(8) == Clear(16);
    ShiftNoFeedback(Clear(16), poly, 8);
    assert Clear(16)[8..] + Clear(8) == Clear(16);
  }

  /** The low byte of a register step depends on the table entry alone, and
      only the zero entry has a clear one. */
  lemma LowByteClears(poly: Register, c: Register, b: byte)
    requires poly[15]
    ensures SerialByte(poly, c, b)[8..] == Clear(8) <==> Octet(b) == c[..8]
    ensures Octet(b) == c[..8] ==> SerialByte(poly, c, b) == c[8..] + Clear(8)
  {
    var x := Xor(c[..8], Octet(b));
    TableStepIsSerial(poly, c, b);
    EntryOfZero(poly);
    assert SerialByte(poly, c, b)[8..] == Entry(poly, x)[8..];
    if Entry(poly, x)[8..] == Clear(8) {
      ClearTailMeansNoFeedback(x + Clear(8), poly, 8);
      forall i | 0 <= i < 8
        ensures Octet(b)[i] == c[..8][i]
      {
        assert !(x + Clear(8))[..8][i];
      }
    }
    if Octet(b) == c[..8] {
      assert x == Clear(8);
    }
  }

  lemma TwoBytesClear(poly: Register, c: Register, hi: byte, lo: byte)
    requires poly[15]
    ensures SerialByte(poly, SerialByte(poly, c, hi), lo) == Clear(16) <==> Octet(hi) + Octet(lo) == c
  {
    var d := SerialByte(poly, c, hi);
    LowByteClears(poly, c, hi);
    LowByteClears(poly, d, lo);
    assert c == c[..8] + c[8..];
    assert (Octet(hi) + Octet(lo))[..8] == Octet(hi) && (Octet(hi) + Octet(lo))[8..] == Octet(lo);
    var e := SerialByte(poly, d, lo);
    assert e == e[..8] + e[8..];
    assert Clear(16)[..8] == Clear(8) && Clear(16)[8..] == Clear(8);
    if Octet(lo) == d[..8] {
      assert e[..8] == d[8..];
    }
  }
}
