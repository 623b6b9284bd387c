/** Making a block valid: its checksum written into the bits the checksum does
    not read. And the shortest block there is, made so. */
module AuroSeal {
  import opened Bytes
  import opened AuroBits
  import opened AuroBlock
  import opened AuroHeaders
  import opened AuroPayload
  import Crc

  /** A sample with `v` for its second lowest bit. */
  function WithCrcBit(s: i32, v: bit): (r: i32)
    ensures r % 2 == s % 2 && r / 4 == s / 4 && r / 2 % 2 == v
  {
    var q, low := s / 4, s % 2;
    assert s == 4 * q + s % 4 && s % 4 % 2 == low;
    QuotientUnique(4 * q + 2 * v + low, 4, q, 2 * v + low);
    QuotientUnique(4 * q + 2 * v + low, 2, 2 * q + v, low);
    QuotientUnique(2 * q + v, 2, q, v);
    4 * q + 2 * v + low
  }

  /** Its other bits are the sample's. */
  lemma OtherBitsKept(s: i32, v: bit, k: nat)
    ensures Bit(WithCrcBit(s, v), 1) == v
    ensures k != 1 ==> Bit(WithCrcBit(s, v), k) == Bit(s, k)
  {
    assert Pow2(0) == 1 && Pow2(1) == 2;
    if k >= 2 {
      assert Pow2(k) == 4 * Pow2(k - 2);
      QuarterFirst(s, Pow2(k - 2));
      QuarterFirst(WithCrcBit(s, v), Pow2(k - 2));
    }
  }

  lemma QuarterFirst(s: int, d: nat)
    requires d > 0
    ensures s / (4 * d) == s / 4 / d
  {
    var q, r := s / 4, s % 4;
    var a, b := q / d, q % d;
    assert s == 4 * q + r && q == a * d + b;
    assert 4 * (a * d) == a * (4 * d);
    QuotientUnique(s, 4 * d, a, 4 * b + r);
  }

  /** A block with `crc` where its checksum belongs. */
  function Stamped(samples: seq<i32>, crc: Crc.Register): (r: seq<i32>)
    ensures |r| == |samples|
  {
    seq(|samples|, i requires 0 <= i < |samples| =>
      if i < SYNC_SAMPLES then WithCrcBit(samples[i], if crc[i] then 1 else 0) else samples[i])
  }

  /** A block with its own checksum there. */
  function Sealed(samples: seq<i32>): (r: seq<i32>)
    ensures |r| == |samples|
  {
    Stamped(samples, BlockCrc(samples))
  }

  lemma StampedBits(samples: seq<i32>, crc: Crc.Register, i: nat, k: nat)
    requires i < |samples|
    ensures i < SYNC_SAMPLES ==> Bit(Stamped(samples, crc)[i], 1) == if crc[i] then 1 else 0
    ensures k != 1 || i >= SYNC_SAMPLES ==> Bit(Stamped(samples, crc)[i], k) == Bit(samples[i], k)
  {
    if i < SYNC_SAMPLES {
      OtherBitsKept(samples[i], if crc[i] then 1 else 0, k);
    }
  }

  /** Sealing makes the stored checksum the block's own, and does not change it. */
  lemma SealHolds(samples: seq<i32>)
    requires |samples| >= SYNC_SAMPLES
    ensures BlockCrc(Sealed(samples)) == BlockCrc(samples) == StoredCrc(Sealed(samples))
  {
    hide Bit, Stamped, BlockCrc, CrcBytes;
    var crc, sealed := BlockCrc(samples), Sealed(samples);
    forall i | 0 <= i < |samples|
      ensures SameButCrcBit(sealed[i], samples[i], i < SYNC_SAMPLES)
    {
      forall k | 0 <= k < 24
        ensures (i < SYNC_SAMPLES && k == 1) || Bit(sealed[i], k) == Bit(samples[i], k)
      {
        StampedBits(samples, crc, i, k);
      }
    }
    CrcIgnoresItsOwnBits(sealed, samples);
    forall i | 0 <= i < 16
      ensures StoredCrc(sealed)[i] == crc[i]
    {
      StampedBits(samples, crc, i, 1);
    }
    assert BlockCrc(sealed) == crc by {
      SameBytesSameCrc(sealed, samples);
    }
  }

  lemma SameBytesSameCrc(a: seq<i32>, b: seq<i32>)
    requires CrcBytes(a) == CrcBytes(b)
    ensures BlockCrc(a) == BlockCrc(b)
  {
  }

  lemma {:induction false} SamePlane(a: seq<i32>, b: seq<i32>, from: nat, n: nat, k: nat)
    requires from + n <= |a| == |b| && forall i | from <= i < from + n :: Bit(a[i], k) == Bit(b[i], k)
    ensures Plane(a, from, n, k) == Plane(b, from, n, k)
  {
    if n > 0 {
      SamePlane(a, b, from, n - 1, k);
    }
  }

  /** A sealed block announces what it announced. */
  lemma SealKeepsSync(samples: seq<i32>)
    ensures ParseSync(Sealed(samples)) == ParseSync(samples)
  {
    hide Bit, Stamped, BlockCrc, Plane;
    if |samples| >= SYNC_SAMPLES {
      var crc, sealed := BlockCrc(samples), Sealed(samples);
      forall i | 0 <= i < SYNC_SAMPLES
        ensures Bit(sealed[i], 0) == Bit(samples[i], 0) && Bit(sealed[i], 2) == Bit(samples[i], 2)
      {
        StampedBits(samples, crc, i, 0);
        StampedBits(samples, crc, i, 2);
      }
      SamePlane(sealed, samples, 0, 8, 2);
      SamePlane(sealed, samples, 12, 4, 2);
    }
  }

  lemma {:induction false} SameSampleBits(s: int, t: int, low: nat, b: nat)
    requires forall k | low <= k < b :: Bit(s, k) == Bit(t, k)
    ensures SampleBits(s, low, b) == SampleBits(t, low, b)
    decreases b
  {
    if b > low {
      SameSampleBits(s, t, low, b - 1);
    }
  }

  lemma {:induction false} SamePayload(a: seq<i32>, b: seq<i32>, m: nat)
    requires |a| == |b| && forall i, k | 0 <= i < |a| && Low(i) <= k < m :: Bit(a[i], k) == Bit(b[i], k)
    ensures PayloadBits(a, m) == PayloadBits(b, m)
  {
    if a != [] {
      var n := |a| - 1;
      SamePayload(a[..n], b[..n], m);
      SameSampleBits(a[n], b[n], Low(n), m);
    }
  }

  /** Nor does sealing touch the payload. */
  lemma SealKeepsPayload(samples: seq<i32>, m: nat)
    ensures PayloadBits(Sealed(samples), m) == PayloadBits(samples, m)
  {
    var crc, sealed := BlockCrc(samples), Sealed(samples);
    forall i, k | 0 <= i < |samples| && Low(i) <= k < m
      ensures Bit(sealed[i], k) == Bit(samples[i], k)
    {
      StampedBits(samples, crc, i, k);
    }
    SamePayload(sealed, samples, m);
  }

  /** What the configuration parser makes of a block once it is sealed. */
  function FieldsOf(samples: seq<i32>, h: SyncHeader): Result<BlockInfo, BlockError> {
    var payload := PayloadBits(samples, h.lsbBits);
    match ParseFields(SourceOf(payload), |payload|)
    case Err(e) => Err(e)
    case Ok(f) => Ok(BlockInfo(h, f.streamIds, f.config, f.instructions))
  }

  /** Any block of the announced length is accepted once sealed exactly when its
      reserved bits are clear and its fields can be read. */
  lemma SealedIsAccepted(samples: seq<i32>, h: SyncHeader)
    requires SYNC_SAMPLES <= h.blockSize == |samples|
    ensures ParseBlock(Sealed(samples), h)
         == if ReservedClear(samples, |samples|) then FieldsOf(samples, h) else Err(ReservedBit)
  {
    var crc, sealed := BlockCrc(samples), Sealed(samples);
    assert sealed[..h.blockSize] == sealed;
    forall i | 0 <= i < |samples|
      ensures Bit(sealed[i], 0) == Bit(samples[i], 0)
    {
      StampedBits(samples, crc, i, 0);
    }
    assert ReservedClear(sealed, |samples|) == ReservedClear(samples, |samples|);
    SealHolds(samples);
    SealKeepsPayload(samples, h.lsbBits);
  }
}
