/** The carriers of one stream, joined through rings: samples go in, decoded
    blocks land on top of them, and what lags far enough behind is taken out. */
module AuroUnfold {
  import opened Bytes
  import opened AuroBits
  import opened AuroUnmix
  import opened AuroJoin

  const RING := 16384
  const MAX_PUSH := 4096
  const LATENCY := MAX_BLOCK

  function Slot(index: nat): (s: nat)
    ensures s < RING
  {
    index % RING
  }

  lemma SlotsApart(i: nat, j: nat)
    requires i < j < i + RING
    ensures Slot(i) != Slot(j)
  {
  }

  lemma SlotWraps(i: nat)
    ensures Slot(i + RING) == Slot(i)
  {
  }

  /** A cell of an output ring: how often it was hit, and the saturating sum. */
  ghost predicate CellHolds(hits: nat, sum: i32, values: seq<i32>) {
    hits == Min(|values|, 255) && (values != [] ==> sum == SaturatingSum(values))
  }

  /** What stream and place are given. */
  type Giving = (nat, nat) -> seq<i32>

  /** Whether a carrier's place is claimed. */
  type Claiming = (nat, nat) -> bool

  function GivingOf(log: seq<Entry>): Giving
    requires Sane(log)
  {
    (id: nat, p: nat) => Contributions(log, id, p)
  }

  function ClaimingOf(log: seq<Entry>): Claiming {
    (c: nat, p: nat) => Claimed(log, c, p)
  }

  /** What one block has given after `j` whole outputs and `i` samples of the next. */
  function Partly(give: Giving, b: Block, j: nat, i: nat): Giving
    requires WellFormed(b) && j <= |b.outputs| && (i > 0 ==> j < |b.outputs|)
  {
    (id: nat, p: nat) =>
      if Covers(b, p) then give(id, p) + Values(b, if p < b.start + i then j + 1 else j, id, p) else give(id, p)
  }

  /** What the rings hold after each whole output. */
  ghost predicate Stages(stage: nat -> Giving, give: Giving, b: Block)
    requires WellFormed(b)
  {
    forall j: nat {:trigger Partly(give, b, j, 0)} | j <= |b.outputs| :: stage(j) == Partly(give, b, j, 0)
  }

  /** One call's output. */
  datatype Taken = Taken(ids: seq<nat>, from: nat, count: nat, frames: seq<int>)

  /** Each released position was taken once, in order. */
  predicate Chained(takes: seq<Taken>, released: nat) {
    if takes == [] then released == 0
    else
      var last := takes[|takes| - 1];
      last.from + last.count == released && Chained(takes[..|takes| - 1], last.from)
  }

  ghost predicate AllFed(t: Told, p: nat) {
    forall k | 0 <= k < |t.carriers| :: p <= |t.carriers[k].fed|
  }

  function Frame(t: Told, ids: seq<nat>, p: nat): (r: seq<int>)
    requires Consistent(t) && AllFed(t, p + 1)
    ensures |r| == |ids|
  {
    seq(|ids|, j requires 0 <= j < |ids| => Sample(t, ids[j], p))
  }

  function Frames(t: Told, ids: seq<nat>, from: nat, n: nat): seq<int>
    requires Consistent(t) && AllFed(t, from + n)
  {
    if n == 0 then [] else Frames(t, ids, from, n - 1) + Frame(t, ids, from + n - 1)
  }

  lemma {:induction false} FramesKept(t: Told, u: Told, ids: seq<nat>, from: nat, n: nat, released: nat)
    requires Consistent(t) && Consistent(u) && Grows(t, u, released) && from + n <= released && AllFed(t, released)
    ensures AllFed(u, from + n) && Frames(u, ids, from, n) == Frames(t, ids, from, n)
  {
    if n > 0 {
      FramesKept(t, u, ids, from, n - 1, released);
      forall j | 0 <= j < |ids|
        ensures Sample(u, ids[j], from + n - 1) == Sample(t, ids[j], from + n - 1)
      {
        ReleasedIsFinal(t, u, released, ids[j], from + n - 1);
      }
      assert Frame(u, ids, from + n - 1) == Frame(t, ids, from + n - 1);
    }
  }

  /** Every take so far says what all that was told says now. */
  ghost predicate Kept(takes: seq<Taken>, t: Told, released: nat)
    requires Consistent(t)
  {
    AllFed(t, released) && forall k | 0 <= k < |takes| :: KeptOne(takes[k], t, released)
  }

  ghost predicate KeptOne(x: Taken, t: Told, released: nat)
    requires Consistent(t) && AllFed(t, released)
  {
    x.from + x.count <= released && x.frames == Frames(t, x.ids, x.from, x.count)
  }

  lemma KeptGrows(takes: seq<Taken>, t: Told, u: Told, released: nat)
    requires Consistent(t) && Consistent(u) && Grows(t, u, released) && Kept(takes, t, released)
    ensures Kept(takes, u, released)
  {
    assert AllFed(u, released);
    forall k | 0 <= k < |takes|
      ensures KeptOne(takes[k], u, released)
    {
      assert KeptOne(takes[k], t, released);
      FramesKept(t, u, takes[k].ids, takes[k].from, takes[k].count, released);
    }
  }

  function MinOf(positions: seq<nat>): nat
    requires positions != []
  {
    if |positions| == 1 then positions[0]
    else Min(MinOf(positions[..|positions| - 1]), positions[|positions| - 1])
  }

  /** How far every carrier has come, less the latency. */
  function FrontierOf(positions: seq<nat>, latency: nat): nat {
    if positions == [] then 0 else Max(0, MinOf(positions) - latency)
  }

  lemma {:induction false} MinIsLeast(positions: seq<nat>, c: nat)
    requires c < |positions|
    ensures MinOf(positions) <= positions[c]
  {
    if c < |positions| - 1 {
      MinIsLeast(positions[..|positions| - 1], c);
    }
  }

  lemma {:induction false} MinIsOneOf(positions: seq<nat>, m: nat)
    requires positions != [] && forall c | 0 <= c < |positions| :: m <= positions[c]
    ensures m <= MinOf(positions)
  {
    if |positions| > 1 {
      MinIsOneOf(positions[..|positions| - 1], m);
    }
  }

  /** What may be released while a carrier stands at `position`. */
  predicate Releasable(position: nat, latency: nat, released: nat) {
    released <= Max(0, position - latency)
  }

  /** A latency covers a block that is due at most one sample past it. */
  predicate Covered(size: nat, latency: nat) {
    Max(size, SYNC_SAMPLES + 1) <= latency + 1
  }

  /** Exactly then no block of that size, handed over on time, can start before
      something was released. */
  lemma CoveredExactly(latency: nat, b: Block)
    ensures (forall position: nat, released: nat {:trigger Releasable(position, latency, released)}
               | Releasable(position, latency, released) && position < Due(b) :: released <= b.start)
       <==> Covered(b.size, latency)
  {
    if !Covered(b.size, latency) {
      assert Releasable(Due(b) - 1, latency, Due(b) - 1 - latency) && Due(b) - 1 - latency > b.start;
    }
  }

  class Unfolder {
    const sums: array2<i32>
    const hits: array2<nat>
    const plain: array2<i32>
    const claimed: array2<bool>
    const ids: seq<nat>
    const wanted: seq<bool>
    var positions: seq<nat>
    var released: nat
    var latency: nat
    ghost var told: Told
    ghost var takes: seq<Taken>

    ghost predicate Shaped()
      reads this
    {
      && sums.Length0 == hits.Length0 == STREAMS == |wanted| && sums.Length1 == hits.Length1 == RING
      && plain.Length0 == claimed.Length0 == |ids| == |positions| && plain.Length1 == claimed.Length1 == RING
      && sums != plain && sums as object != hits as object && plain as object != hits as object
      && claimed as object !in {sums as object, hits as object, plain as object} && latency <= LATENCY
    }

    /** The rings hold what every place not yet released is given. */
    ghost predicate RingsHold(give: Giving)
      requires Shaped()
      reads this, sums, hits
    {
      forall id: nat, p: nat {:trigger hits[id, Slot(p)]} | id < STREAMS && wanted[id]
        && released <= p < released + RING ::
        CellHolds(hits[id, Slot(p)], sums[id, Slot(p)], give(id, p))
    }

    /** And the carriers, as authored, with the places blocks claimed. */
    ghost predicate CarriersHold(fed: seq<Carrier>, claim: Claiming)
      requires Shaped() && |fed| == |positions|
      reads this, plain, claimed
    {
      forall c: nat, p: nat {:trigger plain[c, Slot(p)]} {:trigger claimed[c, Slot(p)]}
        | c < |positions| && released <= p < positions[c] && p < |fed[c].fed| ::
        plain[c, Slot(p)] == fed[c].fed[p] && claimed[c, Slot(p)] == claim(c, p)
    }

    ghost predicate Matches()
      requires Shaped()
      reads this
    {
      && Consistent(told) && told.wanted == wanted && |told.carriers| == |positions|
      && (forall c | 0 <= c < |positions| ::
            told.carriers[c].id == ids[c] && |told.carriers[c].fed| == positions[c]
              && released <= positions[c] <= released + RING)
    }

    ghost predicate Joined()
      reads this, sums, hits, plain, claimed
    {
      && Shaped() && Matches()
      && RingsHold(GivingOf(told.log)) && CarriersHold(told.carriers, ClaimingOf(told.log))
    }

    ghost predicate Valid()
      reads this, sums, hits, plain, claimed
    {
      Joined() && Kept(takes, told, released) && Chained(takes, released)
    }

    /** Nothing was released that still lags: so it stays, as long as the latency
        is not raised. */
    predicate Lagging()
      reads this
    {
      released <= FrontierOf(positions, latency)
    }

    constructor (ids: seq<nat>, outputs: seq<nat>)
      ensures Valid() && Lagging() && fresh(sums) && fresh(hits) && fresh(plain) && fresh(claimed)
      ensures told.log == [] && takes == [] && released == 0 && latency == LATENCY && this.ids == ids
      ensures positions == seq(|ids|, _ => 0)
      ensures |wanted| == STREAMS && forall id | 0 <= id < STREAMS :: wanted[id] <==> id in outputs
    {
      sums := new i32[STREAMS, RING]((_, _) => 0);
      hits := new nat[STREAMS, RING]((_, _) => 0);
      plain := new i32[|ids|, RING]((_, _) => 0);
      claimed := new bool[|ids|, RING]((_, _) => false);
      this.ids := ids;
      wanted := seq(STREAMS, id requires 0 <= id < STREAMS => id in outputs);
      positions := seq(|ids|, _ => 0);
      released, latency := 0, LATENCY;
      told := Told(seq(STREAMS, id requires 0 <= id < STREAMS => id in outputs),
                   seq(|ids|, c requires 0 <= c < |ids| => Carrier(ids[c], [])), []);
      takes := [];
      new;
    }

    // ---- feeding

    /** The samples as authored, no place of theirs claimed. */
    method WriteFed(c: nat, samples: seq<i32>)
      requires Shaped() && c < |positions| && released <= positions[c] && positions[c] + |samples| <= released + RING
      modifies plain, claimed
      ensures forall p: nat {:trigger plain[c, Slot(p)]} {:trigger claimed[c, Slot(p)]}
        | positions[c] <= p < positions[c] + |samples| ::
        plain[c, Slot(p)] == samples[p - positions[c]] && !claimed[c, Slot(p)]
      ensures forall k: nat, p: nat {:trigger plain[k, Slot(p)]} {:trigger claimed[k, Slot(p)]}
        | k < |positions| && released <= p < released + RING && (k != c || p < positions[c]) ::
        plain[k, Slot(p)] == old(plain[k, Slot(p)]) && claimed[k, Slot(p)] == old(claimed[k, Slot(p)])
    {
      for i := 0 to |samples|
        invariant forall p: nat {:trigger plain[c, Slot(p)]} {:trigger claimed[c, Slot(p)]}
          | positions[c] <= p < positions[c] + i ::
          plain[c, Slot(p)] == samples[p - positions[c]] && !claimed[c, Slot(p)]
        invariant forall k: nat, p: nat {:trigger plain[k, Slot(p)]} {:trigger claimed[k, Slot(p)]}
          | k < |positions| && released <= p < released + RING && (k != c || p < positions[c]) ::
          plain[k, Slot(p)] == old(plain[k, Slot(p)]) && claimed[k, Slot(p)] == old(claimed[k, Slot(p)])
      {
        var at := Slot(positions[c] + i);
        AllSlotsApart(released, positions[c] + i);
        plain[c, at] := samples[i];
        claimed[c, at] := false;
      }
    }

    method Feed(c: nat, samples: seq<i32>)
      requires Valid() && c < |positions| && positions[c] + |samples| <= released + RING
      modifies this`positions, this`told, plain, claimed
      ensures Valid() && positions == old(positions)[c := old(positions[c]) + |samples|]
      ensures told
        == old(told).(carriers := old(told.carriers)[c := Carrier(ids[c], old(told.carriers[c].fed) + samples)])
    {
      ghost var was := told;
      FeedRings(c, samples);
      KeptGrows(takes, was, told, released);
    }

    method FeedRings(c: nat, samples: seq<i32>)
      requires Joined() && c < |positions| && positions[c] + |samples| <= released + RING
      modifies this`positions, this`told, plain, claimed
      ensures Joined() && positions == old(positions)[c := old(positions[c]) + |samples|]
      ensures told
        == old(told).(carriers := old(told.carriers)[c := Carrier(ids[c], old(told.carriers[c].fed) + samples)])
    {
      ghost var was := told;
      WriteFed(c, samples);
      told := was.(carriers := was.carriers[c := Carrier(ids[c], was.carriers[c].fed + samples)]);
      positions := positions[c := positions[c] + |samples|];
      forall k: nat, p: nat | k < |positions| && released <= p < positions[k] && p < |told.carriers[k].fed|
        ensures plain[k, Slot(p)] == told.carriers[k].fed[p] && claimed[k, Slot(p)] == Claimed(told.log, k, p)
      {
        if k == c && p >= old(positions[c]) {
          UnclaimedBeyond(told.log, c, p);
        } else {
          assert was.carriers[k].fed[p] == told.carriers[k].fed[p];
        }
      }
    }

    // ---- a decoded block

    /** The block's places are claimed. */
    method Mark(c: nat, b: Block)
      requires Shaped() && c < |positions| && released <= b.start && b.start + b.size <= released + RING
      modifies claimed
      ensures forall k: nat, p: nat {:trigger claimed[k, Slot(p)]} | k < |positions|
        && released <= p < released + RING ::
        claimed[k, Slot(p)] == (old(claimed[k, Slot(p)]) || (k == c && Covers(b, p)))
    {
      for i := 0 to b.size
        invariant forall k: nat, p: nat {:trigger claimed[k, Slot(p)]} | k < |positions|
          && released <= p < released + RING ::
          claimed[k, Slot(p)] == (old(claimed[k, Slot(p)]) || (k == c && b.start <= p < b.start + i))
      {
        AllSlotsApart(released, b.start + i);
        claimed[c, Slot(b.start + i)] := true;
      }
    }

    /** One value on top of what a cell holds. */
    method Accumulate(id: nat, p: nat, v: i32, ghost give: Giving, ghost more: Giving)
      requires Shaped() && id < STREAMS && released <= p < released + RING && RingsHold(give) && wanted[id]
      requires more(id, p) == give(id, p) + [v] && forall i, q | i != id || q != p :: more(i, q) == give(i, q)
      modifies sums, hits
      ensures RingsHold(more)
    {
      var at := Slot(p);
      AllSlotsApart(released, p);
      CellStep(hits[id, at], sums[id, at], give(id, p), v);
      if hits[id, at] == 0 {
        sums[id, at] := v;
      } else {
        sums[id, at] := Saturate(sums[id, at] + v);
      }
      hits[id, at] := Min(hits[id, at] + 1, 255);
    }

    /** One output of a block, sample by sample. */
    method SpreadOutput(b: Block, j: nat, ghost give: Giving)
      requires Shaped() && WellFormed(b) && j < |b.outputs| && RingsHold(Partly(give, b, j, 0))
      requires released <= b.start && b.start + b.size <= released + RING
      modifies sums, hits
      ensures RingsHold(Partly(give, b, j + 1, 0))
    {
      var id, samples := b.outputs[j].id, b.outputs[j].samples;
      if id < STREAMS && wanted[id] {
        for i := 0 to b.size
          invariant RingsHold(Partly(give, b, j, i))
        {
          ghost var now, more := Partly(give, b, j, i), Partly(give, b, j, i + 1);
          PartlyStep(give, b, j, i);
          Accumulate(id, b.start + i, samples[i], now, more);
        }
        RowDone(give, b, j);
      } else {
        RowSkipped(give, b, j);
      }
    }

    lemma RingsAlike(give: Giving, same: Giving)
      requires Shaped() && RingsHold(give) && forall id, p :: same(id, p) == give(id, p)
      ensures RingsHold(same)
    {
    }

    lemma SpreadStarts(b: Block, give: Giving)
      requires Shaped() && WellFormed(b) && RingsHold(give)
      ensures RingsHold(Partly(give, b, 0, 0))
    {
      NoneYet(give, b);
    }

    method Spread(b: Block, ghost give: Giving)
      requires Shaped() && WellFormed(b) && RingsHold(give)
      requires released <= b.start && b.start + b.size <= released + RING
      modifies sums, hits
      ensures RingsHold(Partly(give, b, |b.outputs|, 0))
    {
      ghost var stage: nat -> Giving := (j: nat) => if j <= |b.outputs| then Partly(give, b, j, 0) else give;
      SpreadStarts(b, give);
      SpreadAll(b, give, stage);
    }

    method SpreadAll(b: Block, ghost give: Giving, ghost stage: nat -> Giving)
      requires Shaped() && WellFormed(b) && Stages(stage, give, b) && RingsHold(stage(0))
      requires released <= b.start && b.start + b.size <= released + RING
      modifies sums, hits
      ensures RingsHold(stage(|b.outputs|))
    {
      for j := 0 to |b.outputs|
        invariant RingsHold(stage(j))
      {
        SpreadStage(b, j, give, stage);
      }
    }

    method SpreadStage(b: Block, j: nat, ghost give: Giving, ghost stage: nat -> Giving)
      requires Shaped() && WellFormed(b) && Stages(stage, give, b) && j < |b.outputs| && RingsHold(stage(j))
      requires released <= b.start && b.start + b.size <= released + RING
      modifies sums, hits
      ensures RingsHold(stage(j + 1))
    {
      assert stage(j) == Partly(give, b, j, 0) && stage(j + 1) == Partly(give, b, j + 1, 0);
      SpreadOutput(b, j, give);
    }

    /** A block decoded from carrier `c` lands: its places are claimed, and its
        outputs added to the streams that are wanted. */
    method Deliver(c: nat, b: Block)
      requires Valid() && c < |positions| && WellFormed(b)
      requires released <= b.start && b.start + b.size <= positions[c]
      modifies this`told, sums, hits, claimed
      ensures Valid() && told == old(told).(log := old(told.log) + [Entry(c, b)])
    {
      ghost var was, more := told, told.log + [Entry(c, b)];
      ghost var give, claim := GivingOf(was.log), ClaimingOf(was.log);
      Mark(c, b);
      Spread(b, give);
      GivingGrows(was.log, c, b, give);
      RingsAlike(Partly(give, b, |b.outputs|, 0), GivingOf(more));
      ClaimingGrows(was.log, c, b);
      told := was.(log := more);
      KeptGrows(takes, was, told, released);
    }

    /** The next samples of one carrier, and the blocks they complete, each handed
        over on time and starting where nothing was released yet. */
    method Push(c: nat, samples: seq<i32>, blocks: seq<Block>)
      requires Valid() && c < |positions| && |samples| <= MAX_PUSH && positions[c] + |samples| <= released + RING
      requires forall k | 0 <= k < |blocks| ::
        && WellFormed(blocks[k]) && released <= blocks[k].start
        && positions[c] < Due(blocks[k]) <= positions[c] + |samples|
      modifies this`positions, this`told, plain, claimed, sums, hits
      ensures Valid() && positions == old(positions)[c := old(positions[c]) + |samples|]
      ensures told.carriers == old(told.carriers)[c := Carrier(ids[c], old(told.carriers[c].fed) + samples)]
      ensures told.log == old(told.log) + Entries(c, blocks)
      ensures told.wanted == old(told.wanted)
      ensures old(Lagging()) ==> Lagging()
    {
      Feed(c, samples);
      ghost var fed := told;
      for k := 0 to |blocks|
        invariant Valid() && told.carriers == fed.carriers && told.wanted == fed.wanted
        invariant told.log == fed.log + Entries(c, blocks[..k])
      {
        EntriesSnoc(c, blocks, k);
        AppendOne(fed.log, Entries(c, blocks[..k]), Entry(c, blocks[k]));
        Deliver(c, blocks[k]);
      }
      assert blocks[..|blocks|] == blocks;
      FrontierGrows(old(positions), positions, latency);
    }

    // ---- the latency

    /** Everything fed becomes takeable. */
    method Finish()
      requires Valid() && Lagging()
      modifies this`latency
      ensures Valid() && Lagging() && latency == 0
    {
      latency := 0;
    }

    /** Lag by `samples`, the default at most. What was released lags still exactly
        when nothing was, or the latency grows by no more than is ready now. */
    method SetLatency(samples: nat)
      requires Valid()
      modifies this`latency
      ensures Valid() && latency == Min(samples, LATENCY)
      ensures old(Lagging()) ==>
        (Lagging() <==> released == 0 || latency <= old(latency) + (old(FrontierOf(positions, latency)) - released))
    {
      latency := Min(samples, LATENCY);
    }

    method Frontier() returns (f: nat)
      requires Shaped()
      ensures f == FrontierOf(positions, latency)
    {
      if |positions| == 0 {
        return 0;
      }
      var least := positions[0];
      for c := 1 to |positions|
        invariant least == MinOf(positions[..c])
      {
        assert positions[..c + 1][..c] == positions[..c];
        least := Min(least, positions[c]);
      }
      assert positions[..|positions|] == positions;
      f := Max(0, least - latency);
    }

    /** How many frames can be taken now. */
    method ReadyNow() returns (n: nat)
      requires Shaped() && Lagging()
      ensures n == FrontierOf(positions, latency) - released
    {
      var f := Frontier();
      n := f - released;
    }

    // ---- taking

    /** The sample of one stream at a place not yet released. */
    method SampleAt(id: nat, p: nat) returns (v: int)
      requires Joined() && released <= p && AllFed(told, p + 1) && p < released + RING
      ensures v == Sample(told, id, p)
    {
      var at := Slot(p);
      if id < STREAMS && wanted[id] {
        assert CellHolds(hits[id, at], sums[id, at], Contributions(told.log, id, p));
        var n := hits[id, at];
        if n == 1 {
          return sums[id, at];
        }
        if n > 1 {
          return Quotient(sums[id, at], n);
        }
      }
      for c := 0 to |ids|
        invariant Fallback(told, id, p, 0) == Fallback(told, id, p, c)
      {
        assert plain[c, Slot(p)] == told.carriers[c].fed[p] && claimed[c, Slot(p)] == Claimed(told.log, c, p);
        if ids[c] == id && !claimed[c, at] {
          return plain[c, at];
        }
      }
      return 0;
    }

    /** One frame, interleaved in the order asked for. */
    method WriteFrame(asked: seq<nat>, p: nat, out: array<int>, base: nat)
      requires Joined() && released <= p && AllFed(told, p + 1) && p < released + RING && base + |asked| <= out.Length
      modifies out
      ensures out[base..base + |asked|] == Frame(told, asked, p) && out[..base] == old(out[..base])
    {
      for j := 0 to |asked|
        invariant out[..base] == old(out[..base])
        invariant forall k | 0 <= k < j :: out[base + k] == Sample(told, asked[k], p)
      {
        var v := SampleAt(asked[j], p);
        out[base + j] := v;
      }
    }

    method WriteFrames(asked: seq<nat>, n: nat, out: array<int>)
      requires Joined() && AllFed(told, released + n) && n <= RING && n * |asked| <= out.Length
      modifies out
      ensures out[..n * |asked|] == Frames(told, asked, released, n)
    {
      var base := 0;
      for f := 0 to n
        invariant base == f * |asked| && out.Length >= base && out[..base] == Frames(told, asked, released, f)
      {
        NextRow(f, n, |asked|);
        base := WriteRow(asked, f, out, base);
      }
    }

    method WriteRow(asked: seq<nat>, f: nat, out: array<int>, base: nat) returns (next: nat)
      requires Joined() && AllFed(told, released + f + 1) && f < RING && base + |asked| <= out.Length
      requires out[..base] == Frames(told, asked, released, f)
      modifies out
      ensures next == base + |asked| && out[..next] == Frames(told, asked, released, f + 1)
    {
      WriteFrame(asked, released + f, out, base);
      next := base + |asked|;
      assert out[..next] == out[..base] + out[base..next];
    }

    /** What was taken is cleared, so the rings are clean when they wrap back. */
    method ClearStreams(p: nat)
      requires Shaped() && released <= p < released + RING
      modifies hits, sums
      ensures forall id: nat {:trigger hits[id, Slot(p)]} | id < STREAMS && wanted[id] :: hits[id, Slot(p)] == 0
      ensures forall id: nat, q: nat {:trigger hits[id, Slot(q)]} {:trigger sums[id, Slot(q)]}
        | id < STREAMS && released <= q < released + RING && q != p ::
        hits[id, Slot(q)] == old(hits[id, Slot(q)]) && sums[id, Slot(q)] == old(sums[id, Slot(q)])
    {
      AllSlotsApart(released, p);
      for id := 0 to STREAMS
        invariant forall i: nat {:trigger hits[i, Slot(p)]} | i < id && wanted[i] :: hits[i, Slot(p)] == 0
        invariant forall i: nat, s: nat {:trigger hits[i, s]} {:trigger sums[i, s]} | i < STREAMS && s < RING
          && s != Slot(p) ::
          hits[i, s] == old(hits[i, s]) && sums[i, s] == old(sums[i, s])
      {
        if wanted[id] {
          hits[id, Slot(p)] := 0;
          sums[id, Slot(p)] := 0;
        }
      }
    }

    method ClearClaims(p: nat)
      requires Shaped() && released <= p < released + RING
      modifies claimed
      ensures forall c: nat, q: nat {:trigger claimed[c, Slot(q)]} | c < |positions|
        && released <= q < released + RING && q != p ::
        claimed[c, Slot(q)] == old(claimed[c, Slot(q)])
    {
      AllSlotsApart(released, p);
      for c := 0 to |positions|
        invariant forall k: nat, s: nat {:trigger claimed[k, s]} | k < |positions| && s < RING && s != Slot(p) ::
          claimed[k, s] == old(claimed[k, s])
      {
        claimed[c, Slot(p)] := false;
      }
    }

    method ClearPlace(p: nat)
      requires Shaped() && released <= p < released + RING
      modifies hits, sums, claimed
      ensures forall id: nat {:trigger hits[id, Slot(p)]} | id < STREAMS && wanted[id] :: hits[id, Slot(p)] == 0
      ensures forall id: nat, q: nat {:trigger hits[id, Slot(q)]} {:trigger sums[id, Slot(q)]}
        | id < STREAMS && released <= q < released + RING && q != p ::
        hits[id, Slot(q)] == old(hits[id, Slot(q)]) && sums[id, Slot(q)] == old(sums[id, Slot(q)])
      ensures forall c: nat, q: nat {:trigger claimed[c, Slot(q)]} | c < |positions|
        && released <= q < released + RING && q != p ::
        claimed[c, Slot(q)] == old(claimed[c, Slot(q)])
    {
      ClearStreams(p);
      ClearClaims(p);
    }

    method Clear(n: nat)
      requires Shaped() && n <= RING
      modifies hits, sums, claimed
      ensures forall id: nat, p: nat {:trigger hits[id, Slot(p)]} | id < STREAMS && wanted[id]
        && released <= p < released + n ::
        hits[id, Slot(p)] == 0
      ensures forall id: nat, q: nat {:trigger hits[id, Slot(q)]} {:trigger sums[id, Slot(q)]} | id < STREAMS
        && released + n <= q < released + RING ::
        hits[id, Slot(q)] == old(hits[id, Slot(q)]) && sums[id, Slot(q)] == old(sums[id, Slot(q)])
      ensures forall c: nat, q: nat {:trigger claimed[c, Slot(q)]} | c < |positions|
        && released + n <= q < released + RING ::
        claimed[c, Slot(q)] == old(claimed[c, Slot(q)])
    {
      hide Slot;
      for f := 0 to n
        invariant forall id: nat, p: nat {:trigger hits[id, Slot(p)]} | id < STREAMS && wanted[id]
          && released <= p < released + f ::
          hits[id, Slot(p)] == 0
        invariant forall id: nat, q: nat {:trigger hits[id, Slot(q)]} {:trigger sums[id, Slot(q)]} | id < STREAMS
          && released + f <= q < released + RING ::
          hits[id, Slot(q)] == old(hits[id, Slot(q)]) && sums[id, Slot(q)] == old(sums[id, Slot(q)])
        invariant forall c: nat, q: nat {:trigger claimed[c, Slot(q)]} | c < |positions|
          && released + f <= q < released + RING ::
          claimed[c, Slot(q)] == old(claimed[c, Slot(q)])
      {
        label Before:
        ClearPlace(released + f);
        forall id: nat, p: nat | id < STREAMS && wanted[id] && released <= p < released + f + 1
          ensures hits[id, Slot(p)] == 0
        {
          assert p < released + f ==> hits[id, Slot(p)] == old@Before(hits[id, Slot(p)]);
        }
      }
    }

    /** The window moves on by `n` places, which come back clean. */
    method MoveOn(n: nat)
      requires Joined() && n <= RING && AllFed(told, released + n)
      modifies this`released, hits, sums, claimed
      ensures Joined() && released == old(released) + n
    {
      ghost var end := released + RING;
      Clear(n);
      forall id: nat, p: nat | id < STREAMS && wanted[id] && released + n <= p < end + n
        ensures CellHolds(hits[id, Slot(p)], sums[id, Slot(p)], Contributions(told.log, id, p))
      {
        if p >= end {
          SlotWraps(p - RING);
          NothingBeyond(told.log, id, p);
        }
      }
      released := released + n;
    }

    /** Up to as many frames as fit, of what lags far enough behind, as all that
        was told says they are. */
    method Take(asked: seq<nat>, out: array<int>) returns (n: nat)
      requires Valid() && Lagging()
      modifies this`released, this`takes, out, hits, sums, claimed
      ensures Valid() && Lagging()
      ensures asked == [] ==> n == 0
      ensures asked != [] ==> n == Min(old(FrontierOf(positions, latency)) - old(released), out.Length / |asked|)
      ensures released == old(released) + n && n * |asked| <= out.Length
      ensures out[..n * |asked|] == Frames(told, asked, old(released), n)
      ensures takes == if asked == [] then old(takes)
        else old(takes) + [Taken(asked, old(released), n, out[..n * |asked|])]
    {
      if asked == [] {
        return 0;
      }
      var ready := ReadyNow();
      n := Min(ready, out.Length / |asked|);
      RoomFor(n, out.Length, |asked|);
      assert AllFed(told, released + n) by {
        BehindAll(positions, latency);
      }
      TakeSome(asked, n, out);
    }

    method TakeSome(asked: seq<nat>, n: nat, out: array<int>)
      requires Valid() && n * |asked| <= out.Length && AllFed(told, released + n) && n <= RING
      modifies this`released, this`takes, out, hits, sums, claimed
      ensures Valid() && released == old(released) + n
      ensures out[..n * |asked|] == Frames(told, asked, old(released), n)
      ensures takes == old(takes) + [Taken(asked, old(released), n, out[..n * |asked|])]
    {
      WriteFrames(asked, n, out);
      ghost var x := Taken(asked, released, n, out[..n * |asked|]);
      KeptMore(takes, told, released, x);
      MoveOn(n);
      takes := takes + [x];
    }
  }

  lemma RoomFor(n: nat, length: nat, k: nat)
    requires k > 0 && n <= length / k
    ensures n * k <= length
  {
    assert length / k * k <= length;
  }

  lemma NextRow(f: nat, n: nat, k: nat)
    requires f < n
    ensures f * k + k == (f + 1) * k <= n * k
  {
  }

  lemma BehindAll(positions: seq<nat>, latency: nat)
    ensures forall c | 0 <= c < |positions| :: FrontierOf(positions, latency) <= positions[c]
  {
    forall c | 0 <= c < |positions|
      ensures FrontierOf(positions, latency) <= positions[c]
    {
      MinIsLeast(positions, c);
    }
  }

  lemma KeptMore(takes: seq<Taken>, t: Told, released: nat, x: Taken)
    requires Consistent(t) && Kept(takes, t, released) && Chained(takes, released)
    requires x.from == released && AllFed(t, released + x.count) && x.frames == Frames(t, x.ids, x.from, x.count)
    ensures Kept(takes + [x], t, released + x.count) && Chained(takes + [x], released + x.count)
  {
    assert (takes + [x])[..|takes|] == takes;
    forall k | 0 <= k < |takes + [x]|
      ensures KeptOne((takes + [x])[k], t, released + x.count)
    {
      if k < |takes| {
        assert KeptOne(takes[k], t, released);
      }
    }
  }

  /** One more value in a cell. */
  lemma CellStep(hits: nat, sum: i32, values: seq<i32>, v: i32)
    requires CellHolds(hits, sum, values)
    ensures CellHolds(Min(hits + 1, 255), if hits == 0 then v else Saturate(sum + v), values + [v])
  {
    assert (values + [v])[..|values|] == values;
  }

  /** With its outputs spread and its places marked, the block is part of the log. */
  lemma GivingGrows(log: seq<Entry>, c: nat, b: Block, give: Giving)
    requires Sane(log) && WellFormed(b) && give == GivingOf(log)
    ensures Sane(log + [Entry(c, b)])
    ensures forall id, p :: GivingOf(log + [Entry(c, b)])(id, p) == Partly(give, b, |b.outputs|, 0)(id, p)
  {
    forall id: nat, p: nat
      ensures Sane(log + [Entry(c, b)]) && GivingOf(log + [Entry(c, b)])(id, p)
        == Partly(give, b, |b.outputs|, 0)(id, p)
    {
      ContributionsSnoc(log, Entry(c, b), id, p);
      assert give(id, p) + [] == give(id, p);
    }
  }

  lemma ClaimingGrows(log: seq<Entry>, c: nat, b: Block)
    ensures forall k, p :: ClaimingOf(log + [Entry(c, b)])(k, p) == (ClaimingOf(log)(k, p) || (k == c && Covers(b, p)))
  {
    forall k: nat, p: nat
      ensures ClaimingOf(log + [Entry(c, b)])(k, p) == (ClaimingOf(log)(k, p) || (k == c && Covers(b, p)))
    {
      ClaimedSnoc(log, Entry(c, b), k, p);
    }
  }

  lemma NoneYet(give: Giving, b: Block)
    requires WellFormed(b)
    ensures forall id, p :: Partly(give, b, 0, 0)(id, p) == give(id, p)
  {
    forall id: nat, p: nat
      ensures Partly(give, b, 0, 0)(id, p) == give(id, p)
    {
      assert give(id, p) + [] == give(id, p);
    }
  }

  lemma PartlyStep(give: Giving, b: Block, j: nat, i: nat)
    requires WellFormed(b) && j < |b.outputs| && i < b.size
    ensures var now, more, o := Partly(give, b, j, i), Partly(give, b, j, i + 1), b.outputs[j];
            && more(o.id, b.start + i) == now(o.id, b.start + i) + [o.samples[i]]
            && forall id, p | id != o.id || p != b.start + i :: more(id, p) == now(id, p)
  {
    var o, p := b.outputs[j], b.start + i;
    OneMoreValue(give(o.id, p), b, j, o.id, p);
    forall id: nat, q: nat | id != o.id || q != p
      ensures Partly(give, b, j, i + 1)(id, q) == Partly(give, b, j, i)(id, q)
    {
      if q == p {
        OneMoreValue(give(id, p), b, j, id, p);
      }
    }
  }

  lemma OneMoreValue(before: seq<i32>, b: Block, j: nat, id: nat, p: nat)
    requires WellFormed(b) && j < |b.outputs| && Covers(b, p)
    ensures var was, now := before + Values(b, j, id, p), before + Values(b, j + 1, id, p);
            now == if b.outputs[j].id == id then was + [b.outputs[j].samples[p - b.start]] else was
  {
    var values := Values(b, j, id, p);
    if b.outputs[j].id == id {
      assert before + (values + [b.outputs[j].samples[p - b.start]])
        == before + values + [b.outputs[j].samples[p - b.start]];
    } else {
      assert values + [] == values;
    }
  }

  lemma RowDone(give: Giving, b: Block, j: nat)
    requires WellFormed(b) && j < |b.outputs|
    ensures forall id, p :: Partly(give, b, j + 1, 0)(id, p) == Partly(give, b, j, b.size)(id, p)
  {
    forall id: nat, p: nat
      ensures Partly(give, b, j + 1, 0)(id, p) == Partly(give, b, j, b.size)(id, p)
    {
      if Covers(b, p) {
        assert !(p < b.start + 0) && p < b.start + b.size;
      }
    }
  }

  /** An output nobody asked for leaves the others as they are. */
  lemma RowSkipped(give: Giving, b: Block, j: nat)
    requires WellFormed(b) && j < |b.outputs|
    ensures forall id, p | id != b.outputs[j].id :: Partly(give, b, j + 1, 0)(id, p) == Partly(give, b, j, 0)(id, p)
  {
    forall id: nat, p: nat | id != b.outputs[j].id
      ensures Partly(give, b, j + 1, 0)(id, p) == Partly(give, b, j, 0)(id, p)
    {
      if Covers(b, p) {
        OneMoreValue(give(id, p), b, j, id, p);
      }
    }
  }

  lemma FrontierGrows(positions: seq<nat>, more: seq<nat>, latency: nat)
    requires |more| == |positions| && forall k | 0 <= k < |more| :: positions[k] <= more[k]
    ensures FrontierOf(positions, latency) <= FrontierOf(more, latency)
  {
    if positions != [] {
      forall k | 0 <= k < |more|
        ensures MinOf(positions) <= more[k]
      {
        MinIsLeast(positions, k);
      }
      MinIsOneOf(more, MinOf(positions));
    }
  }

  /** Within the ring's length of each other, other places have other slots. */
  lemma AllSlotsApart(released: nat, at: nat)
    requires released <= at < released + RING
    ensures forall p: nat {:trigger Slot(p)} | released <= p < released + RING && p != at :: Slot(p) != Slot(at)
  {
    forall p: nat | released <= p < released + RING && p != at
      ensures Slot(p) != Slot(at)
    {
      if p < at {
        SlotsApart(p, at);
      } else {
        SlotsApart(at, p);
      }
    }
  }

  // ---- whole runs

  /** The frame a take gave for one place. */
  function Row(x: Taken, p: nat): seq<int>
    requires x.from <= p < x.from + x.count && |x.frames| == x.count * |x.ids|
  {
    NextRow(p - x.from, x.count, |x.ids|);
    x.frames[(p - x.from) * |x.ids|..(p - x.from) * |x.ids| + |x.ids|]
  }

  lemma {:induction false} FramesLength(t: Told, ids: seq<nat>, from: nat, n: nat)
    requires Consistent(t) && AllFed(t, from + n)
    ensures |Frames(t, ids, from, n)| == n * |ids|
  {
    if n > 0 {
      FramesLength(t, ids, from, n - 1);
      NextRow(n - 1, n, |ids|);
    }
  }

  lemma {:induction false} FramesHoldFrame(t: Told, ids: seq<nat>, from: nat, n: nat, p: nat)
    requires Consistent(t) && AllFed(t, from + n) && from <= p < from + n
    ensures var k := (p - from) * |ids|;
            0 <= k <= k + |ids| <= |Frames(t, ids, from, n)|
              && Frames(t, ids, from, n)[k..k + |ids|] == Frame(t, ids, p)
  {
    FramesLength(t, ids, from, n - 1);
    NextRow(p - from, n, |ids|);
    var k := (p - from) * |ids|;
    var front := Frames(t, ids, from, n - 1);
    if p < from + n - 1 {
      FramesHoldFrame(t, ids, from, n - 1, p);
      assert (front + Frame(t, ids, from + n - 1))[k..k + |ids|] == front[k..k + |ids|];
    } else {
      assert k == |front|;
    }
  }

  /** Two runs that were told alike of a place gave the same frame for it. */
  lemma FramesAlike(t: Told, u: Told, x: Taken, y: Taken, released: nat, other: nat, p: nat)
    requires Consistent(t) && Consistent(u)
    requires AllFed(t, released) && KeptOne(x, t, released) && AllFed(u, other) && KeptOne(y, u, other)
    requires x.ids == y.ids && x.from <= p < x.from + x.count && y.from <= p < y.from + y.count
    requires forall id | id in x.ids ::
      AlikeAt(t, u, id, p) && Tame(Contributions(t.log, id, p)) && Quiet(Contributions(u.log, id, p))
    ensures |x.frames| == x.count * |x.ids| && |y.frames| == y.count * |y.ids| && Row(x, p) == Row(y, p)
  {
    FramesLength(t, x.ids, x.from, x.count);
    FramesLength(u, y.ids, y.from, y.count);
    FramesHoldFrame(t, x.ids, x.from, x.count, p);
    FramesHoldFrame(u, y.ids, y.from, y.count, p);
    forall j | 0 <= j < |x.ids|
      ensures Frame(t, x.ids, p)[j] == Frame(u, x.ids, p)[j]
    {
      assert x.ids[j] in x.ids;
      OrderDoesNotMatter(t, u, x.ids[j], p);
    }
    assert Frame(t, x.ids, p) == Frame(u, x.ids, p);
  }

  /** Raising the latency after a release leaves the frontier behind what was
      released, whatever the comment on it promises: five thousand samples in,
      all taken, and the default latency again. */
  method RaisedLatencyStrands() returns (u: Unfolder)
    ensures u.Valid() && u.positions == [5000] && u.released == 5000 && u.latency == LATENCY
    ensures FrontierOf(u.positions, u.latency) == 904 && !u.Lagging()
  {
    u := FedAndTaken(4096, 904);
    u.SetLatency(LATENCY);
  }

  /** One carrier fed twice, and everything of it taken. */
  method FedAndTaken(first: nat, second: nat) returns (u: Unfolder)
    requires first <= MAX_PUSH && second <= MAX_PUSH
    ensures u.Valid() && u.Lagging() && fresh(u) && u.positions == [first + second]
    ensures u.latency == 0 && u.released == first + second
  {
    hide Unfolder.Valid;
    u := FedTwice(first, second);
    u.Finish();
    var out := new int[first + second];
    var n := u.Take([0], out);
  }

  method FedTwice(first: nat, second: nat) returns (u: Unfolder)
    requires first <= MAX_PUSH && second <= MAX_PUSH
    ensures u.Valid() && u.Lagging() && u.released == 0 && u.positions == [first + second]
    ensures fresh(u) && fresh(u.sums) && fresh(u.hits) && fresh(u.claimed)
  {
    hide Unfolder.Valid, Unfolder.Lagging;
    u := new Unfolder([0], [0]);
    assert u.positions == [0];
    PushSilence(u, first);
    PushSilence(u, second);
  }

  method PushSilence(u: Unfolder, n: nat)
    requires u.Valid() && u.Lagging() && |u.positions| == 1 && n <= MAX_PUSH && u.positions[0] + n <= u.released + RING
    modifies u`positions, u`told, u.plain, u.claimed, u.sums, u.hits
    ensures u.Valid() && u.Lagging() && u.positions == [old(u.positions[0]) + n]
  {
    u.Push(0, seq(n, _ => 0), []);
  }
}
