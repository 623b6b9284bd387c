/** The payload of one block, gathered into 32-bit words. */
module AuroPayload {
  import opened Bytes
  import opened AuroBits

  const PAYLOAD_WORDS := 1792

  /** A payload read past its end gives zeros. */
  function BitOrZero(bits: seq<bit>, pos: nat): bit {
    if pos < |bits| then bits[pos] else 0
  }

  /** The word that holds positions `32 * w` on, filled up with zeros. */
  function WordOf(bits: seq<bit>, w: nat): nat
    requires 32 * w <= |bits|
  {
    if 32 * w + 32 <= |bits| then Value(bits[32 * w..32 * w + 32])
    else Value(bits[32 * w..]) * Pow2(32 - (|bits| - 32 * w))
  }

  /** Word `w`'s bit for position `pos`. */
  lemma BitOfWord(bits: seq<bit>, pos: nat)
    requires pos < |bits|
    ensures WordOf(bits, pos / 32) / Pow2(31 - pos % 32) % 2 == bits[pos]
  {
    var w, k := pos / 32, pos % 32;
    if 32 * w + 32 <= |bits| {
      BitOfValue(bits[32 * w..32 * w + 32], k);
    } else {
      var tail := bits[32 * w..];
      var pad := 32 - |tail|;
      BitOfValue(tail, k);
      Pow2Add(|tail| - 1 - k, pad);
      ShiftedQuotient(Value(tail), Pow2(|tail| - 1 - k), Pow2(pad));
    }
  }

  lemma ShiftedQuotient(v: nat, d: nat, p: nat)
    requires d > 0 && p > 0
    ensures (v * p) / (d * p) == v / d
  {
    var q, r := v / d, v % d;
    assert v == q * d + r;
    assert v * p == q * (d * p) + r * p;
    assert 0 <= r * p < d * p;
    QuotientUnique(v * p, d * p, q, r * p);
  }

  class Payload {
    const words: array<nat>
    var lenBits: nat
    ghost var bits: seq<bit>

    ghost predicate Valid()
      reads this, words
    {
      && words.Length == PAYLOAD_WORDS && lenBits == |bits| <= 32 * PAYLOAD_WORDS
      && forall w: nat | 32 * w < |bits| :: words[w] == WordOf(bits, w)
    }

    constructor ()
      ensures Valid() && bits == [] && fresh(words)
    {
      words := new nat[PAYLOAD_WORDS](_ => 0);
      lenBits := 0;
      bits := [];
    }

    /** Bit at `pos`, or 0 past the end. */
    function BitAt(pos: nat): (b: int)
      requires Valid()
      reads this, words
      ensures b == BitOrZero(bits, pos)
    {
      if pos >= lenBits then 0
      else
        BitOfWord(bits, pos);
        words[pos / 32] / Pow2(31 - pos % 32) % 2
    }

    /** Gather the payload of a block: whatever the words held, they then hold
        its bits and nothing else. */
    method Gather(block: seq<int>, m: nat)
      requires Valid() && IsWidth(m) && |block| <= MAX_BLOCK
      modifies this, words
      ensures Valid() && bits == PayloadBits(block, m)
    {
      hide Packed;
      var p := Packer(0, 0, 0);
      ghost var got: seq<bit> := [];
      NothingPacked(words[..]);
      for i := 0 to |block|
        invariant words.Length == PAYLOAD_WORDS && Packed(words[..], got, p)
        invariant got == PayloadBits(block[..i], m)
      {
        assert block[..i + 1][..i] == block[..i];
        var low := if i < SYNC_SAMPLES then 3 else if i % 16 == 0 then 1 else 0;
        Room(block[..i], m);
        p, got := GatherSample(block[i], low, m, p, got);
      }
      assert block[..|block|] == block;
      Close(p, got);
    }

    /** The word being filled is written, zeros behind its bits. */
    method Close(p: Packer, ghost got: seq<bit>)
      requires words.Length == PAYLOAD_WORDS && Packed(words[..], got, p)
      modifies this, words
      ensures Valid() && bits == got
    {
      FinishWord(words[..], got, p);
      if p.fill != 0 {
        words[p.n / 32] := p.word * Pow2(32 - p.fill);
      }
      lenBits := p.n;
      bits := got;
    }

    method GatherSample(s: int, low: nat, m: nat, start: Packer, ghost before: seq<bit>)
      returns (p: Packer, ghost got: seq<bit>)
      requires words.Length == PAYLOAD_WORDS && Packed(words[..], before, start)
      requires |before| + m <= 32 * PAYLOAD_WORDS
      modifies words
      ensures got == before + SampleBits(s, low, m) && Packed(words[..], got, p)
    {
      p, got := start, before;
      var b: nat := m;
      while b > low
        invariant Packed(words[..], got, p) && b <= m && |got| == |before| + m - b
        invariant got + SampleBits(s, low, b) == before + SampleBits(s, low, m)
      {
        b := b - 1;
        ghost var rest := SampleBits(s, low, b);
        assert got + ([Bit(s, b)] + rest) == (got + [Bit(s, b)]) + rest;
        p := PushBit(Bit(s, b), p, got);
        got := got + [Bit(s, b)];
      }
      assert got + [] == got;
    }

    method PushBit(v: bit, start: Packer, ghost got: seq<bit>) returns (p: Packer)
      requires words.Length == PAYLOAD_WORDS && Packed(words[..], got, start) && |got| < 32 * PAYLOAD_WORDS
      modifies words
      ensures Packed(words[..], got + [v], p)
    {
      PackBit(words[..], got, start, v);
      p := Packer(start.n + 1, 2 * start.word + v, start.fill + 1);
      if p.fill == 32 {
        words[start.n / 32] := p.word;
        p := Packer(p.n, 0, 0);
      }
    }
  }

  /** The position reached, and the word being filled. */
  datatype Packer = Packer(n: nat, word: nat, fill: nat)

  /** Thirty-two positions as a word. */
  function Chunk(bits: seq<bit>, w: nat): nat
    requires 32 * w + 32 <= |bits|
  {
    Value(bits[32 * w..32 * w + 32])
  }

  /** The words written so far, one for every thirty-two bits. */
  ghost predicate Written(words: seq<nat>, got: seq<bit>) {
    |got| <= 32 * |words| && forall w: nat | 32 * w + 32 <= |got| :: words[w] == Chunk(got, w)
  }

  /** The words already written, and the one being filled. */
  ghost predicate Packed(words: seq<nat>, got: seq<bit>, p: Packer) {
    p.n == |got| && p.fill == p.n % 32 && p.word == Value(got[p.n - p.fill..]) && Written(words, got)
  }

  lemma NothingPacked(words: seq<nat>)
    ensures Packed(words, [], Packer(0, 0, 0))
  {
  }

  lemma ChunkKeeps(got: seq<bit>, v: bit, w: nat)
    requires 32 * w + 32 <= |got|
    ensures Chunk(got + [v], w) == Chunk(got, w)
  {
    assert (got + [v])[32 * w..32 * w + 32] == got[32 * w..32 * w + 32];
  }

  /** How many words `n` bits fill, and whether one more fills another. */
  lemma WordsFilled(n: nat)
    ensures 32 * (n / 32) + n % 32 == n
    ensures forall w: nat {:trigger 32 * w} | 32 * w + 32 <= n + 1 :: 32 * w + 32 <= n || (n % 32 == 31 && w == n / 32)
  {
  }

  /** One more bit: the word fills up, or one is written. */
  lemma PackBit(words: seq<nat>, got: seq<bit>, p: Packer, v: bit)
    requires Packed(words, got, p) && |got| < 32 * |words|
    ensures p.n / 32 < |words|
    ensures if p.fill == 31 then Packed(words[p.n / 32 := 2 * p.word + v], got + [v], Packer(p.n + 1, 0, 0))
            else Packed(words, got + [v], Packer(p.n + 1, 2 * p.word + v, p.fill + 1))
  {
    hide Value;
    var more, start := got + [v], p.n - p.fill;
    WordsFilled(p.n);
    assert more[start..] == got[start..] + [v];
    ValueSnoc(got[start..], v);
    if p.fill == 31 {
      FillWord(words, got, p.n / 32, 2 * p.word + v, v);
      assert more[|more|..] == [] && Value([]) == 0 by {
        NothingPacked([]);
      }
    } else {
      KeepWords(words, got, v);
    }
  }

  lemma FillWord(words: seq<nat>, got: seq<bit>, at: nat, word: nat, v: bit)
    requires Written(words, got) && at < |words| && |got| == 32 * at + 31
    requires word == Value((got + [v])[32 * at..])
    ensures Written(words[at := word], got + [v])
  {
    hide Value;
    var more := got + [v];
    assert more[32 * at..32 * at + 32] == more[32 * at..];
    WordsFilled(|got|);
    forall w: nat | 32 * w + 32 <= |more|
      ensures words[at := word][w] == Chunk(more, w)
    {
      if w != at {
        ChunkKeeps(got, v, w);
      }
    }
  }

  lemma KeepWords(words: seq<nat>, got: seq<bit>, v: bit)
    requires Written(words, got) && |got| < 32 * |words| && |got| % 32 != 31
    ensures Written(words, got + [v])
  {
    hide Value;
    WordsFilled(|got|);
    forall w: nat | 32 * w + 32 <= |got + [v]|
      ensures words[w] == Chunk(got + [v], w)
    {
      ChunkKeeps(got, v, w);
    }
  }

  /** The last word is written shifted up, its low bits clear. */
  lemma FinishWord(words: seq<nat>, got: seq<bit>, p: Packer)
    requires Packed(words, got, p)
    ensures p.fill != 0 ==> p.n / 32 < |words| && 32 * (p.n / 32) == p.n - p.fill &&
                            p.word * Pow2(32 - p.fill) == WordOf(got, p.n / 32)
    ensures forall w: nat | 32 * w + 32 <= |got| :: words[w] == WordOf(got, w)
  {
  }

  /** A block's payload fits the words: at most fourteen bits a sample. */
  lemma {:induction false} Room(block: seq<int>, m: nat)
    requires IsWidth(m)
    ensures |PayloadBits(block, m)| <= 14 * |block|
  {
    if block != [] {
      Room(block[..|block| - 1], m);
    }
  }
}
