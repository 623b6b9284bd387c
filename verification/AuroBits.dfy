/** Where the side channel of an Auro-Codec block lives: which bit of which
    sample each payload position is, told two ways. */
module AuroBits {
  import opened Bytes

  const SYNC_SAMPLES := 16
  const MAX_BLOCK := 4096

  /** The width of a block's borrow. */
  predicate IsWidth(m: nat) {
    3 <= m <= 14
  }

  /** Bit `b` of a sample, in two's complement. */
  function Bit(s: int, b: nat): bit {
    s / Pow2(b) % 2
  }

  /** The lowest payload bit of sample `i`: header samples keep their three bit
      planes, every sixteenth later sample its reserved bit. */
  function Low(i: nat): nat {
    if i < SYNC_SAMPLES then 3 else if i % 16 == 0 then 1 else 0
  }

  /** Bits `b - 1` down to `low` of a sample. */
  function SampleBits(s: int, low: nat, b: nat): (r: seq<bit>)
    ensures |r| == Max(0, b - low)
  {
    if b <= low then [] else [Bit(s, b - 1)] + SampleBits(s, low, b - 1)
  }

  /** The payload of a block: each sample's bits, from the top down. */
  function PayloadBits(block: seq<int>, m: nat): seq<bit> {
    if block == [] then []
    else PayloadBits(block[..|block| - 1], m) + SampleBits(block[|block| - 1], Low(|block| - 1), m)
  }

  /** How many payload bits come before sample `i`. */
  function Before(i: nat, m: nat): int {
    if i <= SYNC_SAMPLES then i * (m - 3) else i * m - 48 - (i - 1) / 16
  }

  /** The closed form: a sample and a bit for a position of the payload view, or
      of the raw view in which reserved bits are not stepped over. */
  function BitLocation(pos: nat, m: nat, skipReserved: bool): (int, int)
    requires IsWidth(m)
  {
    if pos < 48 then (pos % 16, pos / 16)
    else if pos < SYNC_SAMPLES * m then ((pos - 48) / (m - 3), m - 1 - (pos - 48) % (m - 3))
    else
      var raw := if skipReserved then pos + (pos - m) / (SYNC_SAMPLES * m - 1) else pos;
      (raw / m, m - 1 - raw % m)
  }

  lemma BeforeStep(i: nat, m: nat)
    requires IsWidth(m)
    ensures Before(i + 1, m) == Before(i, m) + (m - Low(i))
  {
    assert (i + 1) * (m - 3) == i * (m - 3) + (m - 3);
    assert (i + 1) * m == i * m + m;
    if i == 16 {
      assert Before(16, m) == 16 * (m - 3);
    } else if i > 16 {
      SixteenthStep(i);
    }
  }

  lemma SixteenthStep(i: nat)
    requires i >= 1
    ensures i / 16 == (i - 1) / 16 + if i % 16 == 0 then 1 else 0
  {
  }

  lemma {:induction false} PayloadLength(block: seq<int>, m: nat)
    requires IsWidth(m)
    ensures |PayloadBits(block, m)| == Before(|block|, m)
  {
    if block == [] {
    } else {
      PayloadLength(block[..|block| - 1], m);
      BeforeStep(|block| - 1, m);
    }
  }

  lemma {:induction false} SampleBitAt(s: int, low: nat, b: nat, r: nat)
    requires r < b - low
    ensures SampleBits(s, low, b)[r] == Bit(s, b - 1 - r)
  {
    if r > 0 {
      SampleBitAt(s, low, b - 1, r - 1);
    }
  }

  /** The gathered payload holds bit `m - 1 - r` of sample `i` at `Before(i) + r`. */
  lemma {:induction false} PayloadBitAt(block: seq<int>, m: nat, i: nat, r: nat)
    requires IsWidth(m) && i < |block| && r < m - Low(i)
    ensures 0 <= Before(i, m) + r < |PayloadBits(block, m)|
    ensures PayloadBits(block, m)[Before(i, m) + r] == Bit(block[i], m - 1 - r)
  {
    var front, last := block[..|block| - 1], |block| - 1;
    PayloadLength(front, m);
    BeforeNat(i, m);
    if i == last {
      SampleBitAt(block[last], Low(last), m, r);
    } else {
      PayloadBitAt(front, m, i, r);
    }
  }

  lemma BeforeNat(i: nat, m: nat)
    requires IsWidth(m)
    ensures Before(i, m) >= 0
  {
    if i > 16 {
      assert i * m >= i * 3;
      assert 3 * i - 48 - (i - 1) / 16 >= 0;
    } else {
      assert i * (m - 3) >= 0;
    }
  }

  /** The closed form locates that same bit there. */
  lemma LocationAt(i: nat, m: nat, r: nat)
    requires IsWidth(m) && r < m - Low(i)
    ensures Before(i, m) >= 0 && BitLocation(48 + Before(i, m) + r, m, true) == (i, m - 1 - r)
  {
    BeforeNat(i, m);
    if i < SYNC_SAMPLES {
      HeaderLocation(i, m, r);
    } else {
      BodyLocation(i, m, r);
    }
  }

  lemma HeaderLocation(i: nat, m: nat, r: nat)
    requires IsWidth(m) && i < 16 && r < m - 3
    ensures BitLocation(48 + i * (m - 3) + r, m, true) == (i, m - 1 - r)
  {
    hide BitLocation;
    WithinHeader(i, m - 3, r);
    QuotientUnique(i * (m - 3) + r, m - 3, i, r);
    HeaderView(i * (m - 3) + r, m, i, r);
  }

  lemma WithinHeader(i: nat, w: nat, r: nat)
    requires i < 16 && r < w
    ensures i * w + r < 16 * w
  {
    assert i * w + w == (i + 1) * w && (15 - i) * w >= 0;
  }

  lemma HeaderView(rel: nat, m: nat, i: nat, r: nat)
    requires IsWidth(m) && rel < 16 * (m - 3) && rel / (m - 3) == i && rel % (m - 3) == r
    ensures BitLocation(48 + rel, m, true) == (i, m - 1 - r)
  {
  }

  lemma BodyLocation(i: nat, m: nat, r: nat)
    requires IsWidth(m) && i >= 16 && r < m - Low(i)
    ensures BitLocation(48 + Before(i, m) + r, m, true) == (i, m - 1 - r)
  {
    var pos := 48 + Before(i, m) + r;
    var k := (i - 1) / 16;
    BodyPosition(i, m, r);
    SkippedCount(i, m, r);
    QuotientUnique(i * m + r, m, i, r);
  }

  lemma BodyPosition(i: nat, m: nat, r: nat)
    requires IsWidth(m) && i >= 16 && r < m - Low(i)
    ensures 48 + Before(i, m) + r == i * m - (i - 1) / 16 + r >= 16 * m
  {
    if i > 16 {
      assert i * m == 16 * m + (i - 16) * m;
      assert (i - 16) * m >= (i - 16) * 3;
    }
  }

  /** As many reserved bits lie before a body position as before its sample. */
  lemma SkippedCount(i: nat, m: nat, r: nat)
    requires IsWidth(m) && i >= 16 && r < m - Low(i)
    ensures (i * m - (i - 1) / 16 + r - m) / (16 * m - 1) == (i - 1) / 16
  {
    var k, t := (i - 1) / 16, (i - 1) % 16;
    var offset := t * m + r;
    assert i * m == 16 * (k * m) + t * m + m by {
      assert i == 16 * k + t + 1;
    }
    assert k * (16 * m - 1) == 16 * (k * m) - k;
    LastInSixteen(i, m, r);
    QuotientUnique(i * m - k + r - m, 16 * m - 1, k, offset);
  }

  /** A sample's payload bits end before the next reserved bit. */
  lemma LastInSixteen(i: nat, m: nat, r: nat)
    requires IsWidth(m) && i >= 16 && r < m - Low(i)
    ensures (i - 1) % 16 * m + r < 16 * m - 1
  {
    var t := (i - 1) % 16;
    if t == 15 {
      assert i % 16 == 0;
    } else {
      assert t * m <= 14 * m;
    }
  }

  /** The sample a payload position falls in. */
  lemma {:induction false} SampleOf(count: nat, m: nat, n: nat) returns (i: nat, r: nat)
    requires IsWidth(m) && n < Before(count, m)
    ensures i < count && r < m - Low(i) && n == Before(i, m) + r
  {
    BeforeStep(count - 1, m);
    BeforeNat(count - 1, m);
    if n >= Before(count - 1, m) {
      i, r := count - 1, n - Before(count - 1, m);
    } else {
      i, r := SampleOf(count - 1, m, n);
    }
  }

  /** A sample's bits end before any later sample's begin. */
  lemma {:induction false} SampleEndsBefore(i: nat, j: nat, m: nat)
    requires IsWidth(m) && i < j
    ensures Before(i, m) + (m - Low(i)) <= Before(j, m)
    decreases j - i
  {
    BeforeStep(j - 1, m);
    if i < j - 1 {
      SampleEndsBefore(i, j - 1, m);
    }
  }

  /** The two traversals agree: the gathered bit at every position is the bit the
      closed form locates, which is a payload bit of the block, and the position
      can be told from it, so no bit is visited twice. */
  lemma TraversalsAgree(block: seq<int>, m: nat, n: nat)
    requires IsWidth(m) && n < |PayloadBits(block, m)|
    ensures var (i, b) := BitLocation(48 + n, m, true);
            && 0 <= i < |block| && Low(i) <= b < m
            && PayloadBits(block, m)[n] == Bit(block[i], b)
            && n == Before(i, m) + m - 1 - b
  {
    PayloadLength(block, m);
    var i, r := SampleOf(|block|, m, n);
    LocationAt(i, m, r);
    PayloadBitAt(block, m, i, r);
  }

  /** Every bit that is neither the header's nor reserved is visited. */
  lemma EveryPayloadBitIsVisited(block: seq<int>, m: nat, i: nat, b: nat)
    requires IsWidth(m) && i < |block| && Low(i) <= b < m
    ensures var n := Before(i, m) + m - 1 - b;
            0 <= n < |PayloadBits(block, m)| && BitLocation(48 + n, m, true) == (i, b)
  {
    PayloadBitAt(block, m, i, m - 1 - b);
    LocationAt(i, m, m - 1 - b);
  }

  /** The closed form leaves the block exactly where the gathered payload ends. */
  lemma LocationEndsWithPayload(block: seq<int>, m: nat, n: nat)
    requires IsWidth(m)
    ensures BitLocation(48 + n, m, true).0 < |block| <==> n < |PayloadBits(block, m)|
  {
    PayloadLength(block, m);
    if n < |PayloadBits(block, m)| {
      TraversalsAgree(block, m, n);
    } else {
      var far := BeyondPosition(|block|, m, n);
      var i, r := SampleOf(far, m, n);
      LocationAt(i, m, r);
      if i < |block| {
        SampleEndsBefore(i, |block|, m);
      }
    }
  }

  /** Some sample comes after any position, even at a width that lends nothing in the header. */
  lemma BeyondPosition(from: nat, m: nat, n: nat) returns (far: nat)
    requires IsWidth(m)
    ensures far >= from && n < Before(far, m)
  {
    far := from + 32 + n;
    assert far * m >= 3 * far;
    assert (far - 1) / 16 <= far;
    assert Before(far, m) >= 2 * far - 48;
  }

  /** Reserved bits are bit 0 of every sixteenth sample after the header. */
  lemma ReservedLocation(k: nat, m: nat)
    requires IsWidth(m)
    ensures BitLocation(17 * m - 1 + 16 * m * k, m, false) == (16 * (k + 1), 0)
  {
    var pos := 17 * m - 1 + 16 * m * k;
    assert 16 * m * k >= 0;
    assert pos == 16 * (k + 1) * m + (m - 1);
    QuotientUnique(pos, m, 16 * (k + 1), m - 1);
  }
}
