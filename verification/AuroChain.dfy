/** The unfolder with its decoders: samples of every carrier in, frames out. What
    comes out depends on the samples each carrier was fed and on nothing else. */
module AuroChain {
  import opened Bytes
  import opened AuroRestore
  import Carrier = AuroCarrier
  import Join = AuroJoin
  import Overlap = AuroOverlap
  import Track = AuroTrack
  import Unfold = AuroUnfold

  // ---- what is told is what the samples decode to

  /** The blocks told of carrier `c` are those its own samples come to, in order. */
  ghost predicate DecodedOf(t: Join.Told, p: Track.Parser, amplify: Amplify, c: nat)
    requires c < |t.carriers|
  {
    Join.OfCarrier(t.log, c) == Join.Entries(c, Carrier.CarrierBlocks(p, amplify, t.carriers[c].fed))
  }

  ghost predicate Decoded(t: Join.Told, p: Track.Parser, amplify: Amplify) {
    && Join.Consistent(t) && (forall i | 0 <= i < |t.log| :: Join.Modest(t.log[i].block))
    && forall c: nat | c < |t.carriers| :: DecodedOf(t, p, amplify, c)
  }

  lemma NothingDecoded(t: Join.Told, p: Track.Parser, amplify: Amplify)
    requires Join.Consistent(t) && t.log == [] && forall c: nat | c < |t.carriers| :: t.carriers[c].fed == []
    ensures Decoded(t, p, amplify)
  {
  }

  lemma DecodedGrows(t: Join.Told, u: Join.Told, p: Track.Parser, amplify: Amplify, c: nat, samples: seq<i32>,
                     blocks: seq<Join.Block>)
    requires Decoded(t, p, amplify) && Join.Consistent(u) && c < |t.carriers| == |u.carriers|
    requires u.carriers[c].fed == t.carriers[c].fed + samples && u.carriers == t.carriers[c := u.carriers[c]]
    requires u.log == t.log + Join.Entries(c, blocks)
    requires Carrier.CarrierBlocks(p, amplify, u.carriers[c].fed)
          == Carrier.CarrierBlocks(p, amplify, t.carriers[c].fed) + blocks
    requires forall k | 0 <= k < |blocks| :: Join.Modest(blocks[k])
    ensures Decoded(u, p, amplify)
  {
    forall k: nat | k < |u.carriers|
      ensures DecodedOf(u, p, amplify, k)
    {
      assert DecodedOf(t, p, amplify, k);
      Join.OfCarrierMore(t.log, c, blocks, k);
      Join.EntriesBoth(c, Carrier.CarrierBlocks(p, amplify, t.carriers[c].fed), blocks);
    }
  }

  // ---- the same samples give the same frames

  /** No block of `more` beyond those of `heard` is longer than the latency covers. */
  ghost predicate LatencyCovers(p: Track.Parser, amplify: Amplify, heard: seq<i32>, more: seq<i32>, latency: nat) {
    var was, now := Carrier.CarrierBlocks(p, amplify, heard), Carrier.CarrierBlocks(p, amplify, more);
    forall k | |was| <= k < |now| :: Unfold.Covered(now[k].size, latency)
  }

  /** The default latency covers whatever can be decoded. */
  lemma DefaultCoversAll(p: Track.Parser, amplify: Amplify, heard: seq<i32>, more: seq<i32>)
    ensures LatencyCovers(p, amplify, heard, more, Unfold.LATENCY)
  {
  }

  /** What one carrier gives stream `id` at `at`, and whether it claims that place. */
  function Gives(p: Track.Parser, amplify: Amplify, heard: seq<i32>, c: nat, id: nat, at: nat): seq<i32> {
    Join.Contributions(Join.Entries(c, Carrier.CarrierBlocks(p, amplify, heard)), id, at)
  }

  predicate Claims(p: Track.Parser, amplify: Amplify, heard: seq<i32>, c: nat, at: nat) {
    Join.Claimed(Join.Entries(c, Carrier.CarrierBlocks(p, amplify, heard)), c, at)
  }

  /** Further samples do not change what lies the latency behind. */
  lemma MoreChangesNothing(p: Track.Parser, amplify: Amplify, heard: seq<i32>, more: seq<i32>, latency: nat, c: nat,
                           id: nat, at: nat)
    requires Track.Lawful(p) && heard <= more && LatencyCovers(p, amplify, heard, more, latency)
    requires at + latency < |heard|
    ensures Gives(p, amplify, more, c, id, at) == Gives(p, amplify, heard, c, id, at)
    ensures Claims(p, amplify, more, c, at) == Claims(p, amplify, heard, c, at)
  {
    Carrier.CarrierBlocksGrow(p, amplify, heard, more);
    var was, now := Carrier.CarrierBlocks(p, amplify, heard), Carrier.CarrierBlocks(p, amplify, more);
    var log, grown := Join.Entries(c, was), Join.Entries(c, now);
    forall i | |log| <= i < |grown|
      ensures grown[i].block.start > at
    {
      assert Unfold.Covered(now[i].size, latency);
    }
    Join.ContributionsKept(log, grown, id, at);
    Join.ClaimsKept(log, grown, c, at);
  }

  /** Two hearings of a carrier that agree on what lies at `at`: the same, or one
      the longer, both past it by the latency. */
  ghost predicate Agree(p: Track.Parser, amplify: Amplify, a: seq<i32>, b: seq<i32>, latency: nat, at: nat) {
    && at < |a| && at < |b|
    && (a == b
        || (at + latency < |a| && at + latency < |b|
            && ((a <= b && LatencyCovers(p, amplify, a, b, latency))
                || (b <= a && LatencyCovers(p, amplify, b, a, latency)))))
  }

  /** The same streams wanted of the same carriers, fed the same as far as matters. */
  ghost predicate SameSamples(p: Track.Parser, amplify: Amplify, t: Join.Told, u: Join.Told, latency: nat, at: nat) {
    && t.wanted == u.wanted && |t.carriers| == |u.carriers|
    && forall c: nat | c < |t.carriers| ::
         t.carriers[c].id == u.carriers[c].id && Agree(p, amplify, t.carriers[c].fed, u.carriers[c].fed, latency, at)
  }

  lemma AlikeIn(p: Track.Parser, amplify: Amplify, t: Join.Told, u: Join.Told, latency: nat, c: nat, id: nat, at: nat)
    requires Track.Lawful(p) && Decoded(t, p, amplify) && Decoded(u, p, amplify)
    requires c < |t.carriers| && SameSamples(p, amplify, t, u, latency, at)
    ensures Join.AlikeIn(t, u, c, id, at)
  {
    var a, b := t.carriers[c].fed, u.carriers[c].fed;
    assert DecodedOf(t, p, amplify, c) && DecodedOf(u, p, amplify, c) && Agree(p, amplify, a, b, latency, at);
    if a == b {
    } else if a <= b && LatencyCovers(p, amplify, a, b, latency) {
      MoreChangesNothing(p, amplify, a, b, latency, c, id, at);
    } else {
      MoreChangesNothing(p, amplify, b, a, latency, c, id, at);
    }
  }

  // ---- how often a place is hit

  /** One block more gives at most three values where it lies. */
  lemma HitsOfOne(before: seq<Join.Block>, last: Option<Join.Block>, c: nat, id: nat, at: nat)
    requires forall k | 0 <= k < |before| :: Join.Modest(before[k])
    requires last.Some? ==> Join.Modest(last.value)
    ensures Join.Sane(Join.Entries(c, before)) && Join.Sane(Join.Entries(c, before + Carrier.Listed(last)))
    ensures |Join.Contributions(Join.Entries(c, before + Carrier.Listed(last)), id, at)|
         <= |Join.Contributions(Join.Entries(c, before), id, at)|
          + if last.Some? then 3 * Overlap.One(last.value.start, last.value.size, at) else 0
  {
    Join.EntriesBoth(c, before, Carrier.Listed(last));
    if last.None? {
      assert before + [] == before;
    } else {
      assert Join.Entries(c, [last.value]) == [Join.Entry(c, last.value)];
      Join.ContributionsSnoc(Join.Entries(c, before), Join.Entry(c, last.value), id, at);
      if Join.Covers(last.value, at) {
        Join.ValuesAre24Bit(last.value, |last.value.outputs|, id, at);
      }
    }
  }

  lemma {:induction false} HitsByReports(reports: seq<Track.Report>, amplify: Amplify, c: nat, id: nat, at: nat)
    ensures |Join.Contributions(Join.Entries(c, Carrier.BlocksOf(reports, amplify)), id, at)|
         <= 3 * Overlap.Reporting(reports, at)
  {
    if reports != [] {
      var n := |reports| - 1;
      HitsByReports(reports[..n], amplify, c, id, at);
      HitsOfOne(Carrier.BlocksOf(reports[..n], amplify), Carrier.BlockOf(reports[n], amplify), c, id, at);
    }
  }

  /** A carrier gives a stream at most fifteen values at one place. */
  lemma FifteenHits(p: Track.Parser, amplify: Amplify, heard: seq<i32>, c: nat, id: nat, at: nat)
    requires Track.Lawful(p)
    ensures |Gives(p, amplify, heard, c, id, at)| <= 15
  {
    Overlap.FewOverlap(p, heard, at);
    HitsByReports(Track.TrackOf(p, heard).reports, amplify, c, id, at);
  }

  lemma HitsOfAll(p: Track.Parser, amplify: Amplify, t: Join.Told, id: nat, at: nat)
    requires Track.Lawful(p) && Decoded(t, p, amplify)
    ensures |Join.Contributions(t.log, id, at)| <= |t.carriers| * 15
  {
    var n := |t.carriers|;
    forall c: nat | c < n
      ensures Join.Counts(t.log, id, at)(c) <= 15
    {
      assert DecodedOf(t, p, amplify, c);
      FifteenHits(p, amplify, t.carriers[c].fed, c, id, at);
    }
    Join.SumAtMost(Join.Counts(t.log, id, at), n, 15);
    Join.SplitByCarrier(t.log, n, id, at);
  }

  /** Then a place sounds alike in both, and its sums do not saturate. (A hit is
      counted in a byte: seventeen carriers cannot exhaust it, and with more the
      places asked for must not.) */
  lemma PlaceAlike(p: Track.Parser, amplify: Amplify, t: Join.Told, u: Join.Told, latency: nat, id: nat, at: nat)
    requires Track.Lawful(p) && Decoded(t, p, amplify) && Decoded(u, p, amplify)
    requires SameSamples(p, amplify, t, u, latency, at)
    requires |t.carriers| <= 17 || |Join.Contributions(t.log, id, at)| <= 255
    ensures Join.AlikeAt(t, u, id, at)
    ensures Join.Tame(Join.Contributions(t.log, id, at)) && Join.Quiet(Join.Contributions(u.log, id, at))
  {
    forall c: nat | c < |t.carriers|
      ensures Join.AlikeIn(t, u, c, id, at)
    {
      AlikeIn(p, amplify, t, u, latency, c, id, at);
    }
    HitsOfAll(p, amplify, t, id, at);
    Join.ContributionsAre24Bit(t.log, id, at);
    Join.ContributionsAre24Bit(u.log, id, at);
  }

  /** Two runs fed the same, however the samples were cut into pushes, the carriers
      took turns and frames were taken in between, gave the same frame for every
      place both released. */
  lemma SameSamplesSameFrames(p: Track.Parser, amplify: Amplify, t: Join.Told, u: Join.Told, latency: nat,
                              x: Unfold.Taken, y: Unfold.Taken, released: nat, other: nat, at: nat)
    requires Track.Lawful(p) && Decoded(t, p, amplify) && Decoded(u, p, amplify)
    requires SameSamples(p, amplify, t, u, latency, at)
    requires Unfold.AllFed(t, released) && Unfold.KeptOne(x, t, released)
    requires Unfold.AllFed(u, other) && Unfold.KeptOne(y, u, other)
    requires x.ids == y.ids && x.from <= at < x.from + x.count && y.from <= at < y.from + y.count
    requires |t.carriers| <= 17 || forall id | id in x.ids :: |Join.Contributions(t.log, id, at)| <= 255
    ensures |x.frames| == x.count * |x.ids| && |y.frames| == y.count * |y.ids| && Unfold.Row(x, at) == Unfold.Row(y, at)
  {
    forall id | id in x.ids
      ensures Join.AlikeAt(t, u, id, at)
      ensures Join.Tame(Join.Contributions(t.log, id, at)) && Join.Quiet(Join.Contributions(u.log, id, at))
    {
      PlaceAlike(p, amplify, t, u, latency, id, at);
    }
    Unfold.FramesAlike(t, u, x, y, released, other, at);
  }

  // ---- the unfolder

  /** Decoder `d` has heard exactly `fed`. */
  ghost predicate IsAt(d: Carrier.ChannelDecoder, p: Track.Parser, amplify: Amplify, fed: seq<i32>)
    reads d, d.Repr
  {
    && d.Valid() && d.detector.p == p && d.amplify == amplify && d.detector.heard == fed
  }

  /** The next samples of one carrier, and the blocks they complete. */
  method DecodeOne(d: Carrier.ChannelDecoder, ghost p: Track.Parser, ghost amplify: Amplify, ghost fed: seq<i32>,
                   samples: seq<i32>)
    returns (blocks: seq<Join.Block>)
    requires IsAt(d, p, amplify, fed)
    modifies d.Repr
    ensures IsAt(d, p, amplify, fed + samples) && Completes(p, amplify, fed, samples, blocks)
  {
    blocks := d.Push(samples);
  }

  /** `blocks` are what `samples` complete behind `fed`. */
  ghost predicate Completes(p: Track.Parser, amplify: Amplify, fed: seq<i32>, samples: seq<i32>,
                            blocks: seq<Join.Block>) {
    && Carrier.CarrierBlocks(p, amplify, fed + samples) == Carrier.CarrierBlocks(p, amplify, fed) + blocks
    && forall k | 0 <= k < |blocks| :: Join.Modest(blocks[k]) && |fed| < Join.Due(blocks[k]) <= |fed + samples|
  }

  /** A decoder for each carrier, of storage allocated once. */
  method NewDecoders(n: nat, amplify: Amplify) returns (all: seq<Carrier.ChannelDecoder>, ghost owned: set<object>)
    ensures |all| == n && fresh(owned)
    ensures forall c | 0 <= c < n :: all[c] in owned && all[c].Repr <= owned
    ensures forall c, d | 0 <= c < d < n :: Disjoint(all[c], all[d])
    ensures forall c | 0 <= c < n :: IsAt(all[c], Track.BlockParser(), amplify, [])
  {
    all, owned := [], {};
    while |all| < n
      invariant |all| <= n && fresh(owned)
      invariant forall c | 0 <= c < |all| :: all[c] in owned && all[c].Repr <= owned
      invariant forall c, d | 0 <= c < d < |all| :: Disjoint(all[c], all[d])
      invariant forall c | 0 <= c < |all| :: IsAt(all[c], Track.BlockParser(), amplify, [])
    {
      var d := NewDecoder(amplify);
      all := all + [d];
      owned := owned + d.Repr;
    }
  }

  method NewDecoder(amplify: Amplify) returns (d: Carrier.ChannelDecoder)
    ensures fresh(d.Repr) && d in d.Repr && IsAt(d, Track.BlockParser(), amplify, [])
  {
    d := new Carrier.ChannelDecoder(amplify);
  }

  ghost predicate Disjoint(d: Carrier.ChannelDecoder, e: Carrier.ChannelDecoder) {
    d.Repr !! e.Repr && d !in e.Repr && e !in d.Repr
  }

  method NewRings(ids: seq<nat>, outputs: seq<nat>, ghost p: Track.Parser, ghost amplify: Amplify)
    returns (rings: Unfold.Unfolder)
    ensures rings.Valid() && rings.Lagging() && Decoded(rings.told, p, amplify)
    ensures fresh(rings) && fresh(rings.sums) && fresh(rings.hits) && fresh(rings.plain) && fresh(rings.claimed)
    ensures rings.released == 0 && rings.latency == Unfold.LATENCY && rings.takes == [] && rings.ids == ids
    ensures |rings.told.carriers| == |ids| && forall c | 0 <= c < |ids| :: rings.told.carriers[c].fed == []
    ensures |rings.told.wanted| == Join.STREAMS
    ensures forall id | 0 <= id < Join.STREAMS :: rings.told.wanted[id] <==> id in outputs
  {
    rings := new Unfold.Unfolder(ids, outputs);
    NothingDecoded(rings.told, p, amplify);
  }

  /** The rings have room for what comes behind `fed`. */
  predicate Fits(rings: Unfold.Unfolder, fed: seq<i32>, samples: seq<i32>)
    reads rings
  {
    |samples| <= Unfold.MAX_PUSH && |fed| + |samples| <= rings.released + Unfold.RING
  }

  function Fitting(ready: int, width: nat, room: nat): int {
    if width == 0 then 0 else Min(ready, room / width)
  }

  /** The takes so far, and this one. */
  predicate TakenOnto(was: seq<Unfold.Taken>, now: seq<Unfold.Taken>, asked: seq<nat>, from: nat, n: nat,
                      out: seq<int>) {
    if asked == [] then now == was
    else n * |asked| <= |out| && now == was + [Unfold.Taken(asked, from, n, out[..n * |asked|])]
  }

  /** Samples and what they complete, into the rings. */
  method PushRings(rings: Unfold.Unfolder, c: nat, samples: seq<i32>, blocks: seq<Join.Block>,
                   ghost p: Track.Parser, ghost amplify: Amplify)
    requires rings.Valid() && Decoded(rings.told, p, amplify) && c < |rings.told.carriers|
    requires Fits(rings, rings.told.carriers[c].fed, samples)
    requires Completes(p, amplify, rings.told.carriers[c].fed, samples, blocks)
    requires forall k | 0 <= k < |blocks| :: rings.released <= blocks[k].start
    modifies rings`positions, rings`told, rings.plain, rings.claimed, rings.sums, rings.hits
    ensures rings.Valid() && Decoded(rings.told, p, amplify) && (old(rings.Lagging()) ==> rings.Lagging())
    ensures |rings.told.carriers| == |old(rings.told.carriers)| && rings.told.wanted == old(rings.told.wanted)
    ensures rings.told.carriers == old(rings.told.carriers)[c := rings.told.carriers[c]]
    ensures rings.told.carriers[c].fed == old(rings.told.carriers[c].fed) + samples
  {
    ghost var was := rings.told;
    rings.Push(c, samples, blocks);
    DecodedGrows(was, rings.told, p, amplify, c, samples, blocks);
  }

  class CarrierUnfolder {
    const join: Unfold.Unfolder
    const decoders: seq<Carrier.ChannelDecoder>
    const amplify: Amplify
    ghost const p: Track.Parser
    ghost const Repr: set<object>

    /** Every decoder has storage of its own, none of it the rings'. */
    ghost predicate Apart()
      reads this, join
    {
      && (forall c | 0 <= c < |decoders| :: decoders[c] in Repr && decoders[c].Repr <= Repr)
      && (forall c, d | 0 <= c < d < |decoders| :: Disjoint(decoders[c], decoders[d]))
      && {this, join, join.sums, join.hits, join.plain, join.claimed} !! Repr
    }

    ghost function Storage(): set<object>
      reads this
    {
      {join as object, join.sums as object, join.hits as object, join.plain as object, join.claimed as object} + Repr
    }

    /** The decoders have heard what the rings were fed, all but the `c`-th. */
    ghost predicate InStep(c: nat)
      requires Apart()
      reads this, join, Repr
    {
      && |decoders| == |join.told.carriers|
      && forall k: nat | k < |decoders| && k != c :: IsAt(decoders[k], p, amplify, join.told.carriers[k].fed)
    }

    ghost predicate Valid()
      reads this, join, join.sums, join.hits, join.plain, join.claimed, Repr
    {
      Apart() && join.Valid() && Track.Lawful(p) && Decoded(join.told, p, amplify) && InStep(|decoders|)
    }

    ghost predicate Lagging()
      reads this, join
    {
      join.Lagging()
    }

    constructor (ids: seq<nat>, outputs: seq<nat>, amplify: Amplify)
      ensures Valid() && Lagging() && fresh(Storage()) && this.amplify == amplify
      ensures p == Track.BlockParser() && join.released == 0 && join.latency == Unfold.LATENCY && join.takes == []
      ensures join.ids == ids && |join.told.carriers| == |decoders| == |ids|
      ensures forall c | 0 <= c < |ids| :: decoders[c].Repr <= Repr
      ensures forall c | 0 <= c < |ids| :: join.told.carriers[c].fed == []
      ensures |join.told.wanted| == Join.STREAMS
      ensures forall id | 0 <= id < Join.STREAMS :: join.told.wanted[id] <==> id in outputs
    {
      hide IsAt, Unfold.Unfolder.Valid, Decoded;
      var rings := NewRings(ids, outputs, Track.BlockParser(), amplify);
      var all, owned := NewDecoders(|ids|, amplify);
      join, decoders := rings, all;
      this.amplify := amplify;
      p := Track.BlockParser();
      Repr := owned;
      new;
      Track.BlockParserIsLawful();
    }

    /** The next samples of a carrier, through its decoder and into the rings.
        No block they complete reaches a place already released, as long as the
        latency covers those blocks. */
    method Push(c: nat, samples: seq<i32>)
      requires Valid() && Lagging() && c < |decoders|
      requires Fits(join, join.told.carriers[c].fed, samples)
      requires LatencyCovers(p, amplify, join.told.carriers[c].fed, join.told.carriers[c].fed + samples, join.latency)
      modifies join`positions, join`told, join.plain, join.claimed, join.sums, join.hits, decoders[c].Repr
      ensures Valid() && Lagging() && join.latency == old(join.latency) && join.released == old(join.released)
      ensures join.told.carriers == old(join.told.carriers)[c := join.told.carriers[c]]
      ensures join.told.carriers[c].fed == old(join.told.carriers[c].fed) + samples
      ensures join.told.wanted == old(join.told.wanted)
    {
      hide IsAt, Unfold.Unfolder.Valid, Decoded;
      var blocks := DecodeNext(c, samples);
      AllUnreleased(samples, c, blocks);
      HandOver(c, samples, blocks);
    }

    method DecodeNext(c: nat, samples: seq<i32>) returns (blocks: seq<Join.Block>)
      requires Valid() && c < |decoders|
      modifies decoders[c].Repr
      ensures Apart() && join.Valid() && InStep(c)
      ensures IsAt(decoders[c], p, amplify, join.told.carriers[c].fed + samples)
      ensures Completes(p, amplify, join.told.carriers[c].fed, samples, blocks)
    {
      hide IsAt, Unfold.Unfolder.Valid, Decoded;
      blocks := DecodeOne(decoders[c], p, amplify, join.told.carriers[c].fed, samples);
    }

    method HandOver(c: nat, samples: seq<i32>, blocks: seq<Join.Block>)
      requires Apart() && join.Valid() && Track.Lawful(p) && Decoded(join.told, p, amplify)
      requires c < |decoders| && InStep(c) && IsAt(decoders[c], p, amplify, join.told.carriers[c].fed + samples)
      requires Completes(p, amplify, join.told.carriers[c].fed, samples, blocks)
      requires Fits(join, join.told.carriers[c].fed, samples)
      requires forall k | 0 <= k < |blocks| :: join.released <= blocks[k].start
      modifies join`positions, join`told, join.plain, join.claimed, join.sums, join.hits
      ensures Valid() && (old(Lagging()) ==> Lagging())
      ensures join.told.carriers == old(join.told.carriers)[c := join.told.carriers[c]]
      ensures join.told.carriers[c].fed == old(join.told.carriers[c].fed) + samples
      ensures join.told.wanted == old(join.told.wanted)
    {
      hide IsAt, Unfold.Unfolder.Valid, Decoded, Completes;
      PushRings(join, c, samples, blocks, p, amplify);
    }

    /** How many frames can be taken now. */
    method Ready() returns (n: nat)
      requires Valid() && Lagging()
      ensures n == Unfold.FrontierOf(join.positions, join.latency) - join.released
    {
      n := join.ReadyNow();
    }

    /** As many frames as are ready and fit. */
    method Take(asked: seq<nat>, out: array<int>) returns (n: nat)
      requires Valid() && Lagging() && out !in Repr
      modifies join`released, join`takes, out, join.hits, join.sums, join.claimed
      ensures Valid() && Lagging()
      ensures n == Fitting(old(Unfold.FrontierOf(join.positions, join.latency)) - old(join.released), |asked|,
        out.Length)
      ensures join.released == old(join.released) + n
      ensures TakenOnto(old(join.takes), join.takes, asked, old(join.released), n, out[..])
    {
      hide IsAt, Unfold.Unfolder.Valid, Decoded;
      n := join.Take(asked, out);
    }

    /** Lag by so many samples, the default at most. */
    method SetLatency(samples: nat)
      requires Valid() && Lagging()
      modifies join`latency
      ensures Valid() && join.latency == Min(samples, Unfold.LATENCY)
      ensures Lagging() <==>
        join.released == 0
        || join.latency <= old(join.latency) + (old(Unfold.FrontierOf(join.positions, join.latency)) - join.released)
    {
      hide IsAt, Unfold.Unfolder.Valid, Decoded;
      join.SetLatency(samples);
    }

    /** No more is coming: everything fed can be taken. */
    method Finish()
      requires Valid() && Lagging()
      modifies join`latency
      ensures Valid() && Lagging() && join.latency == 0
    {
      hide IsAt, Unfold.Unfolder.Valid, Decoded;
      join.Finish();
    }

    lemma FrontierOfOne()
      requires Valid() && |join.told.carriers| == 1
      ensures Unfold.FrontierOf(join.positions, join.latency) == Max(0, |join.told.carriers[0].fed| - join.latency)
    {
    }

    lemma AllUnreleased(samples: seq<i32>, c: nat, blocks: seq<Join.Block>)
      requires join.Valid() && Lagging() && c < |join.told.carriers|
      requires Completes(p, amplify, join.told.carriers[c].fed, samples, blocks)
      requires LatencyCovers(p, amplify, join.told.carriers[c].fed, join.told.carriers[c].fed + samples, join.latency)
      ensures forall k | 0 <= k < |blocks| :: join.released <= blocks[k].start
    {
      Unfold.MinIsLeast(join.positions, c);
      var fed := join.told.carriers[c].fed;
      NewOnesCovered(p, amplify, fed, fed + samples, join.latency, blocks);
    }
  }

  lemma NewOnesCovered(p: Track.Parser, amplify: Amplify, heard: seq<i32>, more: seq<i32>, latency: nat,
                       blocks: seq<Join.Block>)
    requires LatencyCovers(p, amplify, heard, more, latency)
    requires Carrier.CarrierBlocks(p, amplify, more) == Carrier.CarrierBlocks(p, amplify, heard) + blocks
    ensures forall k | 0 <= k < |blocks| :: Unfold.Covered(blocks[k].size, latency)
  {
    var was, now := Carrier.CarrierBlocks(p, amplify, heard), Carrier.CarrierBlocks(p, amplify, more);
    forall k | 0 <= k < |blocks|
      ensures Unfold.Covered(blocks[k].size, latency)
    {
      assert now[|was| + k] == blocks[k];
    }
  }

  // ---- two unfolders

  /** Either carrier's samples are the other's, or the first of them, with all that
      the rest completes covered by the latency. */
  ghost predicate OneStream(p: Track.Parser, amplify: Amplify, a: seq<i32>, b: seq<i32>, latency: nat) {
    (a <= b && LatencyCovers(p, amplify, a, b, latency)) || (b <= a && LatencyCovers(p, amplify, b, a, latency))
  }

  /** Two unfolders of the same streams, each fed as much of them as it pleases. */
  ghost predicate SameStreams(x: CarrierUnfolder, y: CarrierUnfolder, latency: nat)
    reads x, y, x.join, y.join
  {
    && x.p == y.p && x.amplify == y.amplify && x.join.ids == y.join.ids && x.join.told.wanted == y.join.told.wanted
    && x.join.latency == y.join.latency == latency && |x.join.told.carriers| == |y.join.told.carriers|
    && forall c | 0 <= c < |x.join.told.carriers| ::
         OneStream(x.p, x.amplify, x.join.told.carriers[c].fed, y.join.told.carriers[c].fed, latency)
  }

  /** Whatever either was fed beyond the other, and however each was fed and taken
      from: a place both have released, asked for alike, came out alike. */
  lemma SameStreamsSameFrames(x: CarrierUnfolder, y: CarrierUnfolder, k: nat, l: nat, at: nat)
    requires x.Valid() && x.Lagging() && y.Valid() && y.Lagging() && SameStreams(x, y, x.join.latency)
    requires k < |x.join.takes| && l < |y.join.takes| && x.join.takes[k].ids == y.join.takes[l].ids
    requires x.join.takes[k].from <= at < x.join.takes[k].from + x.join.takes[k].count
    requires y.join.takes[l].from <= at < y.join.takes[l].from + y.join.takes[l].count
    requires |x.join.ids| <= 17
      || forall id | id in x.join.takes[k].ids :: |Join.Contributions(x.join.told.log, id, at)| <= 255
    ensures |x.join.takes[k].frames| == x.join.takes[k].count * |x.join.takes[k].ids|
    ensures |y.join.takes[l].frames| == y.join.takes[l].count * |y.join.takes[l].ids|
    ensures Unfold.Row(x.join.takes[k], at) == Unfold.Row(y.join.takes[l], at)
  {
    var t, u, latency := x.join.told, y.join.told, x.join.latency;
    AllPast(x.join, at, k);
    AllPast(y.join, at, l);
    assert SameSamples(x.p, x.amplify, t, u, latency, at) by {
      forall c: nat | c < |t.carriers|
        ensures t.carriers[c].id == u.carriers[c].id
        ensures Agree(x.p, x.amplify, t.carriers[c].fed, u.carriers[c].fed, latency, at)
      {
        assert OneStream(x.p, x.amplify, t.carriers[c].fed, u.carriers[c].fed, latency);
      }
    }
    SameSamplesSameFrames(x.p, x.amplify, t, u, latency, x.join.takes[k], y.join.takes[l],
                          x.join.released, y.join.released, at);
  }

  /** What was taken lies the latency behind every carrier. */
  lemma AllPast(rings: Unfold.Unfolder, at: nat, k: nat)
    requires rings.Valid() && rings.Lagging() && k < |rings.takes| && at < rings.takes[k].from + rings.takes[k].count
    ensures Unfold.AllFed(rings.told, rings.released) && Unfold.KeptOne(rings.takes[k], rings.told, rings.released)
    ensures |rings.told.carriers| == |rings.ids|
    ensures forall c | 0 <= c < |rings.told.carriers| ::
      rings.told.carriers[c].id == rings.ids[c] && at + rings.latency < |rings.told.carriers[c].fed|
  {
    assert Unfold.KeptOne(rings.takes[k], rings.told, rings.released);
    forall c | 0 <= c < |rings.told.carriers|
      ensures at + rings.latency < |rings.told.carriers[c].fed|
    {
      Unfold.MinIsLeast(rings.positions, c);
    }
  }

  // ---- a latency that does not cover

  /** Whenever a carrier's first block is one the latency does not cover, feeding
      it up to the sample before the block is due, and taking whatever can be,
      releases places of that block before it lands. */
  method StrandsFirstBlock(amplify: Amplify, latency: nat, fed: seq<i32>, next: i32) returns (x: CarrierUnfolder)
    requires latency <= Unfold.LATENCY
    requires Carrier.CarrierBlocks(Track.BlockParser(), amplify, fed) == []
    requires Carrier.CarrierBlocks(Track.BlockParser(), amplify, fed + [next]) != []
    requires !Unfold.Covered(Carrier.CarrierBlocks(Track.BlockParser(), amplify, fed + [next])[0].size, latency)
    ensures x.Valid() && x.Lagging() && |x.join.told.carriers| == 1 && x.join.told.carriers[0].fed == fed
    ensures Carrier.CarrierBlocks(Track.BlockParser(), amplify, fed + [next])[0].start < x.join.released
  {
    hide CarrierUnfolder.Valid, CarrierUnfolder.Lagging, Carrier.CarrierBlocks;
    x := new CarrierUnfolder([0], [0], amplify);
    x.SetLatency(latency);
    var out := new int[Unfold.RING];
    var i := 0;
    while i < |fed|
      invariant i <= |fed| && UpTo(x, fed[..i], amplify, latency) && fresh(x.Storage()) && out !in x.Storage()
        && fresh(out)
    {
      var n := Min(Unfold.MAX_PUSH, |fed| - i);
      NoneBefore(amplify, fed, i, n);
      PushAndTake(x, fed[..i], fed[i..i + n], out, amplify, latency);
      i := i + n;
    }
    assert fed[..|fed|] == fed;
    FirstIsDueNext(amplify, fed, next, latency);
  }

  /** One carrier, fed so far, everything taken that can be. */
  ghost predicate UpTo(x: CarrierUnfolder, fed: seq<i32>, amplify: Amplify, latency: nat)
    reads x, x.join, x.join.sums, x.join.hits, x.join.plain, x.join.claimed, x.Repr
  {
    && x.Valid() && x.Lagging() && x.p == Track.BlockParser() && x.amplify == amplify && x.join.latency == latency
    && |x.decoders| == |x.join.told.carriers| == 1 && x.decoders[0].Repr <= x.Repr && x.join.told.carriers[0].fed == fed
    && x.join.released == Max(0, |fed| - latency)
  }

  method PushAndTake(x: CarrierUnfolder, fed: seq<i32>, samples: seq<i32>, out: array<int>, amplify: Amplify,
                     latency: nat)
    requires UpTo(x, fed, amplify, latency) && latency <= Unfold.LATENCY && |samples| <= Unfold.MAX_PUSH
    requires Carrier.CarrierBlocks(Track.BlockParser(), amplify, fed + samples) == []
    requires out !in x.Storage() && out.Length == Unfold.RING
    modifies x.Storage(), out
    ensures UpTo(x, fed + samples, amplify, latency)
  {
    hide CarrierUnfolder.Valid, CarrierUnfolder.Lagging, LatencyCovers, Carrier.CarrierBlocks, TakenOnto,
      Unfold.FrontierOf;
    NoneToCover(x.p, amplify, fed, fed + samples, latency);
    x.Push(0, samples);
    x.FrontierOfOne();
    var n := x.Take([0], out);
  }

  lemma NoneToCover(p: Track.Parser, amplify: Amplify, heard: seq<i32>, more: seq<i32>, latency: nat)
    requires Carrier.CarrierBlocks(p, amplify, more) == []
    ensures LatencyCovers(p, amplify, heard, more, latency)
  {
  }

  lemma NoneBefore(amplify: Amplify, fed: seq<i32>, i: nat, n: nat)
    requires Carrier.CarrierBlocks(Track.BlockParser(), amplify, fed) == [] && i + n <= |fed|
    ensures fed[..i + n] == fed[..i] + fed[i..i + n]
    ensures Carrier.CarrierBlocks(Track.BlockParser(), amplify, fed[..i] + fed[i..i + n]) == []
  {
    assert fed[..i + n] == fed[..i] + fed[i..i + n];
    Track.BlockParserIsLawful();
    Carrier.CarrierBlocksGrow(Track.BlockParser(), amplify, fed[..i + n], fed);
  }

  /** A first block is due with the sample that completes it, so with everything
      before that fed and taken, part of it is gone unless the latency covers it. */
  lemma FirstIsDueNext(amplify: Amplify, fed: seq<i32>, next: i32, latency: nat)
    requires Carrier.CarrierBlocks(Track.BlockParser(), amplify, fed) == []
    requires Carrier.CarrierBlocks(Track.BlockParser(), amplify, fed + [next]) != []
    ensures var b := Carrier.CarrierBlocks(Track.BlockParser(), amplify, fed + [next])[0];
            b.start < Max(0, |fed| - latency) <==> !Unfold.Covered(b.size, latency)
  {
    Track.BlockParserIsLawful();
    Carrier.CarrierBlocksGrow(Track.BlockParser(), amplify, fed, fed + [next]);
    assert Join.Due(Carrier.CarrierBlocks(Track.BlockParser(), amplify, fed + [next])[0]) == |fed| + 1;
  }
}
