/** What the joined carriers of one stream sound like, told without a ring: every
    block ever decoded, and every carrier sample ever fed, kept for good. */
module AuroJoin {
  import opened Bytes
  import opened AuroBits
  import opened AuroUnmix

  const STREAMS := 16

  /** One restored stream of a decoded block. */
  datatype Output = Output(id: nat, samples: seq<i32>)

  /** A decoded block: where it starts in its carrier, and what it restores. */
  datatype Block = Block(start: nat, size: nat, outputs: seq<Output>)

  predicate WellFormed(b: Block) {
    forall j | 0 <= j < |b.outputs| :: |b.outputs[j].samples| == b.size
  }

  /** A sample a 24-bit output can hold. */
  predicate Is24Bit(v: i32) {
    -0x7F_FFFF <= v <= 0x7F_FFFF
  }

  ghost predicate Quiet(samples: seq<i32>) {
    forall i | 0 <= i < |samples| :: Is24Bit(samples[i])
  }

  /** What every decoded block is: at most three streams, of 24-bit samples. */
  ghost predicate Modest(b: Block) {
    WellFormed(b) && |b.outputs| <= 3 && forall j | 0 <= j < |b.outputs| :: Quiet(b.outputs[j].samples)
  }

  predicate Covers(b: Block, p: nat) {
    b.start <= p < b.start + b.size
  }

  /** When a block is handed over: with its last sample, or with the zero behind
      its header when it is no longer than that. */
  function Due(b: Block): nat {
    Max(b.start + b.size, b.start + SYNC_SAMPLES + 1)
  }

  /** What the first `n` outputs of a block give stream `id` at `p`. */
  function Values(b: Block, n: nat, id: nat, p: nat): seq<i32>
    requires WellFormed(b) && n <= |b.outputs| && Covers(b, p)
  {
    if n == 0 then []
    else Values(b, n - 1, id, p) + if b.outputs[n - 1].id == id then [b.outputs[n - 1].samples[p - b.start]] else []
  }

  function Given(b: Block, id: nat, p: nat): seq<i32>
    requires WellFormed(b)
  {
    if Covers(b, p) then Values(b, |b.outputs|, id, p) else []
  }

  /** A block and the carrier it was decoded from. */
  datatype Entry = Entry(carrier: nat, block: Block)

  ghost predicate Sane(log: seq<Entry>) {
    forall i | 0 <= i < |log| :: WellFormed(log[i].block)
  }

  /** Everything the blocks so far give stream `id` at `p`, in the order it came. */
  function Contributions(log: seq<Entry>, id: nat, p: nat): seq<i32>
    requires Sane(log)
  {
    if log == [] then []
    else Contributions(log[..|log| - 1], id, p) + Given(log[|log| - 1].block, id, p)
  }

  predicate Claimed(log: seq<Entry>, carrier: nat, p: nat) {
    log != [] && ((log[|log| - 1].carrier == carrier && Covers(log[|log| - 1].block, p))
                  || Claimed(log[..|log| - 1], carrier, p))
  }

  function Saturate(v: int): i32 {
    if v < -0x8000_0000 then -0x8000_0000 else if v > 0x7FFF_FFFF then 0x7FFF_FFFF else v
  }

  /** The first value, and every later one added to it with saturation. */
  function SaturatingSum(values: seq<i32>): i32
    requires values != []
  {
    if |values| == 1 then values[0]
    else Saturate(SaturatingSum(values[..|values| - 1]) + values[|values| - 1])
  }

  /** Division that truncates toward zero. */
  function Quotient(a: int, d: nat): int
    requires d > 0
  {
    if a >= 0 then a / d else -((0 - a) / d)
  }

  /** What several values at one place come to: the one, or their average. */
  function Blend(values: seq<i32>): int
    requires values != []
  {
    if |values| == 1 then values[0] else Quotient(SaturatingSum(values), Min(|values|, 255))
  }

  /** A carrier channel: the bed stream it plays as, and what it was fed. */
  datatype Carrier = Carrier(id: nat, fed: seq<i32>)

  /** Everything the join was told: which streams are wanted, the carriers, the blocks. */
  datatype Told = Told(wanted: seq<bool>, carriers: seq<Carrier>, log: seq<Entry>)

  ghost predicate Consistent(t: Told) {
    && |t.wanted| == STREAMS && Sane(t.log)
    && forall i | 0 <= i < |t.log| ::
         && t.log[i].carrier < |t.carriers|
         && t.log[i].block.start + t.log[i].block.size <= |t.carriers[t.log[i].carrier].fed|
  }

  predicate Wanted(wanted: seq<bool>, id: nat)
    requires |wanted| == STREAMS
  {
    id < STREAMS && wanted[id]
  }

  /** The first carrier from `c` on that plays as `id` and is unclaimed at `p`. */
  function Fallback(t: Told, id: nat, p: nat, c: nat): int
    requires c <= |t.carriers| && forall k | 0 <= k < |t.carriers| :: p < |t.carriers[k].fed|
    decreases |t.carriers| - c
  {
    if c == |t.carriers| then 0
    else if t.carriers[c].id == id && !Claimed(t.log, c, p) then t.carriers[c].fed[p]
    else Fallback(t, id, p, c + 1)
  }

  /** The sample of stream `id` at `p`. */
  function Sample(t: Told, id: nat, p: nat): int
    requires Consistent(t) && forall k | 0 <= k < |t.carriers| :: p < |t.carriers[k].fed|
  {
    if Wanted(t.wanted, id) && Contributions(t.log, id, p) != [] then Blend(Contributions(t.log, id, p))
    else Fallback(t, id, p, 0)
  }

  // ---- what is released stays as it was

  lemma ContributionsSnoc(log: seq<Entry>, e: Entry, id: nat, p: nat)
    requires Sane(log) && WellFormed(e.block)
    ensures Sane(log + [e]) && Contributions(log + [e], id, p) == Contributions(log, id, p) + Given(e.block, id, p)
  {
    assert (log + [e])[..|log|] == log;
  }

  lemma ClaimedSnoc(log: seq<Entry>, e: Entry, carrier: nat, p: nat)
    ensures Claimed(log + [e], carrier, p) <==> (e.carrier == carrier && Covers(e.block, p)) || Claimed(log, carrier, p)
  {
    assert (log + [e])[..|log|] == log;
  }

  /** Nothing is given where no block has reached. */
  lemma {:induction false} NothingBeyond(log: seq<Entry>, id: nat, p: nat)
    requires Sane(log) && forall i | 0 <= i < |log| :: log[i].block.start + log[i].block.size <= p
    ensures Contributions(log, id, p) == []
  {
    if log != [] {
      NothingBeyond(log[..|log| - 1], id, p);
    }
  }

  lemma {:induction false} UnclaimedBeyond(log: seq<Entry>, carrier: nat, p: nat)
    requires forall i | 0 <= i < |log| :: log[i].carrier == carrier ==> log[i].block.start + log[i].block.size <= p
    ensures !Claimed(log, carrier, p)
  {
    if log != [] {
      UnclaimedBeyond(log[..|log| - 1], carrier, p);
    }
  }

  /** More input: longer carriers, and blocks that start at `from` or later. */
  ghost predicate Grows(t: Told, u: Told, from: nat) {
    && u.wanted == t.wanted && |u.carriers| == |t.carriers|
    && (forall c | 0 <= c < |t.carriers| ::
          u.carriers[c].id == t.carriers[c].id && t.carriers[c].fed <= u.carriers[c].fed)
    && t.log <= u.log && forall i | |t.log| <= i < |u.log| :: u.log[i].block.start >= from
  }

  lemma {:induction false} ContributionsKept(log: seq<Entry>, more: seq<Entry>, id: nat, p: nat)
    requires Sane(more) && log <= more && forall i | |log| <= i < |more| :: more[i].block.start > p
    ensures Sane(log) && Contributions(more, id, p) == Contributions(log, id, p)
  {
    assert forall i | 0 <= i < |log| :: log[i] == more[i];
    if |more| == |log| {
      assert more == log;
    } else {
      ContributionsKept(log, more[..|more| - 1], id, p);
    }
  }

  lemma {:induction false} ClaimsKept(log: seq<Entry>, more: seq<Entry>, carrier: nat, p: nat)
    requires log <= more && forall i | |log| <= i < |more| :: more[i].block.start > p
    ensures Claimed(more, carrier, p) == Claimed(log, carrier, p)
  {
    if |more| == |log| {
      assert more == log;
    } else {
      ClaimsKept(log, more[..|more| - 1], carrier, p);
    }
  }

  lemma {:induction false} FallbackKept(t: Told, u: Told, from: nat, id: nat, p: nat, c: nat)
    requires Grows(t, u, from) && p < from && c <= |t.carriers|
    requires forall k | 0 <= k < |t.carriers| :: p < |t.carriers[k].fed|
    ensures Fallback(u, id, p, c) == Fallback(t, id, p, c)
    decreases |t.carriers| - c
  {
    if c < |t.carriers| {
      ClaimsKept(t.log, u.log, c, p);
      FallbackKept(t, u, from, id, p, c + 1);
    }
  }

  /** No later block reaches what was released, so nothing released changes. */
  lemma ReleasedIsFinal(t: Told, u: Told, from: nat, id: nat, p: nat)
    requires Consistent(t) && Consistent(u) && Grows(t, u, from) && p < from
    requires forall k | 0 <= k < |t.carriers| :: p < |t.carriers[k].fed|
    ensures Sample(u, id, p) == Sample(t, id, p)
  {
    ContributionsKept(t.log, u.log, id, p);
    FallbackKept(t, u, from, id, p, 0);
  }

  // ---- the order carriers are fed in does not matter

  function OfCarrier(log: seq<Entry>, c: nat): seq<Entry> {
    if log == [] then []
    else OfCarrier(log[..|log| - 1], c) + if log[|log| - 1].carrier == c then [log[|log| - 1]] else []
  }

  function Total(values: seq<i32>): int {
    if values == [] then 0 else Total(values[..|values| - 1]) + values[|values| - 1]
  }

  lemma {:induction false} TotalConcat(a: seq<i32>, b: seq<i32>)
    ensures Total(a + b) == Total(a) + Total(b)
  {
    if b == [] {
      assert a + b == a;
    } else {
      assert (a + b)[..|a + b| - 1] == a + b[..|b| - 1];
      TotalConcat(a, b[..|b| - 1]);
    }
  }

  /** Restored samples are 24-bit, and a place is not claimed past counting. */
  ghost predicate Tame(values: seq<i32>) {
    |values| <= 255 && Quiet(values)
  }

  /** Then the sum never saturates. */
  lemma {:induction false} TameSum(values: seq<i32>)
    requires values != [] && Tame(values)
    ensures SaturatingSum(values) == Total(values) && -0x7F_FFFF * |values| <= Total(values) <= 0x7F_FFFF * |values|
  {
    if |values| == 1 {
      assert values[..0] == [];
    } else {
      TameSum(values[..|values| - 1]);
    }
  }

  lemma {:induction false} OfCarrierSane(log: seq<Entry>, c: nat)
    requires Sane(log)
    ensures Sane(OfCarrier(log, c))
  {
    if log != [] {
      OfCarrierSane(log[..|log| - 1], c);
    }
  }

  function SumTo(part: nat -> int, n: nat): int {
    if n == 0 then 0 else SumTo(part, n - 1) + part(n - 1)
  }

  lemma {:induction false} SumWithOneMore(part: nat -> int, was: nat -> int, at: nat, more: int, n: nat)
    requires forall c: nat | c < n :: part(c) == was(c) + if c == at then more else 0
    ensures SumTo(part, n) == SumTo(was, n) + if at < n then more else 0
  {
    if n > 0 {
      SumWithOneMore(part, was, at, more, n - 1);
    }
  }

  lemma {:induction false} SumOfSame(part: nat -> int, other: nat -> int, n: nat)
    requires forall c: nat | c < n :: part(c) == other(c)
    ensures SumTo(part, n) == SumTo(other, n)
  {
    if n > 0 {
      SumOfSame(part, other, n - 1);
    }
  }

  lemma OfCarrierSnoc(log: seq<Entry>, front: seq<Entry>, e: Entry, c: nat)
    requires log == front + [e]
    ensures OfCarrier(log, c) == if e.carrier == c then OfCarrier(front, c) + [e] else OfCarrier(front, c)
  {
    assert log[..|log| - 1] == front;
    assert OfCarrier(front, c) + [] == OfCarrier(front, c);
  }

  /** One carrier's part of what stream `id` is given at `p`. */
  function PartOf(log: seq<Entry>, c: nat, id: nat, p: nat): seq<i32>
    requires Sane(log)
  {
    OfCarrierSane(log, c);
    Contributions(OfCarrier(log, c), id, p)
  }

  /** What one more block adds to its own carrier's part. */
  lemma PartStep(log: seq<Entry>, front: seq<Entry>, e: Entry, c: nat, id: nat, p: nat)
    requires log == front + [e] && Sane(log) && Sane(front) && WellFormed(e.block)
    ensures var was, now, given := PartOf(front, c, id, p), PartOf(log, c, id, p), Given(e.block, id, p);
            && |now| == |was| + (if e.carrier == c then |given| else 0)
            && Total(now) == Total(was) + if e.carrier == c then Total(given) else 0
  {
    OfCarrierSane(log, c);
    OfCarrierSane(front, c);
    OfCarrierSnoc(log, front, e, c);
    if e.carrier == c {
      ContributionsSnoc(OfCarrier(front, c), e, id, p);
      TotalConcat(PartOf(front, c, id, p), Given(e.block, id, p));
    }
  }

  /** How many values one carrier gives, and what they add up to. */
  function Counts(log: seq<Entry>, id: nat, p: nat): nat -> int
    requires Sane(log)
  {
    (c: nat) => |PartOf(log, c, id, p)|
  }

  function Totals(log: seq<Entry>, id: nat, p: nat): nat -> int
    requires Sane(log)
  {
    (c: nat) => Total(PartOf(log, c, id, p))
  }

  /** One more block adds to the sums over all carriers what it gives. */
  lemma SumsStep(log: seq<Entry>, front: seq<Entry>, e: Entry, n: nat, id: nat, p: nat)
    requires log == front + [e] && Sane(log) && Sane(front) && WellFormed(e.block) && e.carrier < n
    ensures SumTo(Counts(log, id, p), n) == SumTo(Counts(front, id, p), n) + |Given(e.block, id, p)|
    ensures SumTo(Totals(log, id, p), n) == SumTo(Totals(front, id, p), n) + Total(Given(e.block, id, p))
  {
    var given := Given(e.block, id, p);
    forall c: nat
      ensures Counts(log, id, p)(c) == Counts(front, id, p)(c) + if c == e.carrier then |given| else 0
      ensures Totals(log, id, p)(c) == Totals(front, id, p)(c) + if c == e.carrier then Total(given) else 0
    {
      PartStep(log, front, e, c, id, p);
    }
    SumWithOneMore(Counts(log, id, p), Counts(front, id, p), e.carrier, |given|, n);
    SumWithOneMore(Totals(log, id, p), Totals(front, id, p), e.carrier, Total(given), n);
  }

  lemma SumsOfNothing(n: nat, id: nat, p: nat)
    ensures SumTo(Counts([], id, p), n) == 0 && SumTo(Totals([], id, p), n) == 0
  {
    SumOfSame(Counts([], id, p), (c: nat) => 0, n);
    SumOfSame(Totals([], id, p), (c: nat) => 0, n);
    SumOfNothing(n);
  }

  /** Adding up in the order of arrival or carrier by carrier is the same. */
  lemma {:induction false} SplitByCarrier(log: seq<Entry>, n: nat, id: nat, p: nat)
    requires Sane(log) && forall i | 0 <= i < |log| :: log[i].carrier < n
    ensures |Contributions(log, id, p)| == SumTo(Counts(log, id, p), n)
    ensures Total(Contributions(log, id, p)) == SumTo(Totals(log, id, p), n)
  {
    if log == [] {
      SumsOfNothing(n, id, p);
    } else {
      var front, e := log[..|log| - 1], log[|log| - 1];
      SplitByCarrier(front, n, id, p);
      SumsStep(log, front, e, n, id, p);
      TotalConcat(Contributions(front, id, p), Given(e.block, id, p));
    }
  }

  lemma {:induction false} SumOfNothing(n: nat)
    ensures SumTo((c: nat) => 0, n) == 0
  {
    if n > 0 {
      SumOfNothing(n - 1);
    }
  }

  lemma {:induction false} ClaimedByOwn(log: seq<Entry>, c: nat, p: nat)
    ensures Claimed(log, c, p) == Claimed(OfCarrier(log, c), c, p)
  {
    if log != [] {
      var front, e := log[..|log| - 1], log[|log| - 1];
      assert log == front + [e];
      ClaimedByOwn(front, c, p);
      OfCarrierSnoc(log, front, e, c);
      if e.carrier == c {
        ClaimedSnoc(OfCarrier(front, c), e, c, p);
      }
    }
  }

  /** Carrier `c` gives both runs the same at `p`. */
  ghost predicate AlikeIn(t: Told, u: Told, c: nat, id: nat, p: nat)
    requires Sane(t.log) && Sane(u.log) && c < |t.carriers| == |u.carriers|
  {
    && t.carriers[c].id == u.carriers[c].id && p < |t.carriers[c].fed| && p < |u.carriers[c].fed|
    && t.carriers[c].fed[p] == u.carriers[c].fed[p]
    && PartOf(t.log, c, id, p) == PartOf(u.log, c, id, p)
    && Claimed(OfCarrier(t.log, c), c, p) == Claimed(OfCarrier(u.log, c), c, p)
  }

  /** Every carrier does, whichever order they came in. */
  ghost predicate AlikeAt(t: Told, u: Told, id: nat, p: nat) {
    && Sane(t.log) && Sane(u.log) && t.wanted == u.wanted && |t.carriers| == |u.carriers|
    && forall c: nat | c < |t.carriers| :: AlikeIn(t, u, c, id, p)
  }

  lemma SameParts(t: Told, u: Told, id: nat, p: nat)
    requires AlikeAt(t, u, id, p)
    ensures var n := |t.carriers|;
            && SumTo(Counts(t.log, id, p), n) == SumTo(Counts(u.log, id, p), n)
            && SumTo(Totals(t.log, id, p), n) == SumTo(Totals(u.log, id, p), n)
  {
    var n := |t.carriers|;
    forall c: nat | c < n
      ensures PartOf(t.log, c, id, p) == PartOf(u.log, c, id, p)
    {
      assert AlikeIn(t, u, c, id, p);
    }
    SumOfSame(Counts(t.log, id, p), Counts(u.log, id, p), n);
    SumOfSame(Totals(t.log, id, p), Totals(u.log, id, p), n);
  }

  lemma {:induction false} SameFallback(t: Told, u: Told, id: nat, p: nat, c: nat)
    requires AlikeAt(t, u, id, p) && c <= |t.carriers|
    requires forall k | 0 <= k < |t.carriers| :: p < |t.carriers[k].fed| && p < |u.carriers[k].fed|
    ensures Fallback(t, id, p, c) == Fallback(u, id, p, c)
    decreases |t.carriers| - c
  {
    if c < |t.carriers| {
      assert AlikeIn(t, u, c, id, p);
      ClaimedByOwn(t.log, c, p);
      ClaimedByOwn(u.log, c, p);
      SameFallback(t, u, id, p, c + 1);
    }
  }

  /** A sample depends on what each carrier gives alone. */
  lemma OrderDoesNotMatter(t: Told, u: Told, id: nat, p: nat)
    requires Consistent(t) && Consistent(u) && AlikeAt(t, u, id, p)
    requires forall k | 0 <= k < |t.carriers| :: p < |t.carriers[k].fed| && p < |u.carriers[k].fed|
    requires Tame(Contributions(t.log, id, p)) && Quiet(Contributions(u.log, id, p))
    ensures Sample(t, id, p) == Sample(u, id, p)
  {
    var x, y, n := Contributions(t.log, id, p), Contributions(u.log, id, p), |t.carriers|;
    SplitByCarrier(t.log, n, id, p);
    SplitByCarrier(u.log, n, id, p);
    SameParts(t, u, id, p);
    if x != [] {
      BlendsAlike(x, y);
    }
    SameFallback(t, u, id, p, 0);
  }

  lemma BlendsAlike(x: seq<i32>, y: seq<i32>)
    requires x != [] && |x| == |y| && Total(x) == Total(y) && Tame(x) && Quiet(y)
    ensures Blend(x) == Blend(y)
  {
    TameSum(x);
    TameSum(y);
    if |x| == 1 {
      assert x[..0] == [] && y[..0] == [];
    }
  }

  // ---- blocks of one carrier

  function Entries(c: nat, blocks: seq<Block>): (r: seq<Entry>)
    ensures |r| == |blocks|
  {
    seq(|blocks|, k requires 0 <= k < |blocks| => Entry(c, blocks[k]))
  }

  lemma EntriesSnoc(c: nat, blocks: seq<Block>, k: nat)
    requires k < |blocks|
    ensures Entries(c, blocks[..k + 1]) == Entries(c, blocks[..k]) + [Entry(c, blocks[k])]
  {
  }

  lemma EntriesBoth(c: nat, a: seq<Block>, b: seq<Block>)
    ensures Entries(c, a + b) == Entries(c, a) + Entries(c, b)
  {
  }

  lemma AppendOne(log: seq<Entry>, added: seq<Entry>, e: Entry)
    ensures log + (added + [e]) == log + added + [e]
  {
  }

  /** Blocks of one carrier leave what came of the others as it was. */
  lemma {:induction false} OfCarrierMore(log: seq<Entry>, c: nat, blocks: seq<Block>, k: nat)
    ensures OfCarrier(log + Entries(c, blocks), k) == OfCarrier(log, k) + if k == c then Entries(c, blocks) else []
  {
    if blocks == [] {
      assert log + Entries(c, blocks) == log;
    } else {
      var n := |blocks| - 1;
      var front, e := blocks[..n], Entry(c, blocks[n]);
      assert blocks[..n + 1] == blocks;
      EntriesSnoc(c, blocks, n);
      AppendOne(log, Entries(c, front), e);
      OfCarrierMore(log, c, front, k);
      OfCarrierSnoc(log + Entries(c, blocks), log + Entries(c, front), e, k);
      AppendOne(OfCarrier(log, k), Entries(c, front), e);
    }
  }

  lemma {:induction false} ValuesAre24Bit(b: Block, n: nat, id: nat, p: nat)
    requires Modest(b) && n <= |b.outputs| && Covers(b, p)
    ensures Quiet(Values(b, n, id, p)) && |Values(b, n, id, p)| <= n
  {
    if n > 0 {
      ValuesAre24Bit(b, n - 1, id, p);
      assert Quiet(b.outputs[n - 1].samples);
    }
  }

  /** Whatever was decoded, what a stream is given is 24-bit. */
  lemma {:induction false} ContributionsAre24Bit(log: seq<Entry>, id: nat, p: nat)
    requires Sane(log) && forall i | 0 <= i < |log| :: Modest(log[i].block)
    ensures Quiet(Contributions(log, id, p))
  {
    if log != [] {
      var last := log[|log| - 1].block;
      ContributionsAre24Bit(log[..|log| - 1], id, p);
      if Covers(last, p) {
        ValuesAre24Bit(last, |last.outputs|, id, p);
      }
    }
  }

  lemma {:induction false} SumAtMost(part: nat -> int, n: nat, most: nat)
    requires forall c: nat | c < n :: part(c) <= most
    ensures SumTo(part, n) <= n * most
  {
    if n > 0 {
      SumAtMost(part, n - 1, most);
      assert n * most == (n - 1) * most + most;
    }
  }
}
