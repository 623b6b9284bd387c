/** What an unfolder is told and what frames it gives, as a function of the samples
    each carrier was fed. */
module AuroHeard {
  import opened Bytes
  import opened AuroRestore
  import Carrier = AuroCarrier
  import Chain = AuroChain
  import Join = AuroJoin
  import Track = AuroTrack
  import Unfold = AuroUnfold

  /** The blocks of all carriers, carrier by carrier. */
  function LogOf(p: Track.Parser, amplify: Amplify, feds: seq<seq<i32>>): seq<Join.Entry> {
    if feds == [] then []
    else
      var n := |feds| - 1;
      LogOf(p, amplify, feds[..n]) + Join.Entries(n, Carrier.CarrierBlocks(p, amplify, feds[n]))
  }

  function WantedOf(outputs: seq<nat>): (r: seq<bool>)
    ensures |r| == Join.STREAMS
  {
    seq(Join.STREAMS, id requires 0 <= id < Join.STREAMS => id in outputs)
  }

  function CarriersOf(ids: seq<nat>, feds: seq<seq<i32>>): (r: seq<Join.Carrier>)
    requires |ids| == |feds|
    ensures |r| == |ids|
  {
    seq(|ids|, c requires 0 <= c < |ids| => Join.Carrier(ids[c], feds[c]))
  }

  function ToldOf(p: Track.Parser, amplify: Amplify, ids: seq<nat>, outputs: seq<nat>, feds: seq<seq<i32>>): Join.Told
    requires |ids| == |feds|
  {
    Join.Told(WantedOf(outputs), CarriersOf(ids, feds), LogOf(p, amplify, feds))
  }

  /** Blocks lie within the samples they come from. */
  lemma BlocksWithin(p: Track.Parser, amplify: Amplify, heard: seq<i32>)
    requires Track.Lawful(p)
    ensures var blocks := Carrier.CarrierBlocks(p, amplify, heard);
            forall k | 0 <= k < |blocks| :: Join.Modest(blocks[k]) && blocks[k].start + blocks[k].size <= |heard|
  {
    Carrier.CarrierBlocksGrow(p, amplify, [], heard);
    var was, blocks := Carrier.CarrierBlocks(p, amplify, []), Carrier.CarrierBlocks(p, amplify, heard);
    assert Track.TrackOf(p, []).reports == [];
    forall k | 0 <= k < |blocks|
      ensures Join.Modest(blocks[k]) && blocks[k].start + blocks[k].size <= |heard|
    {
      assert |was| <= k && Join.Due(blocks[k]) <= |heard|;
    }
  }

  /** An entry is of one of the carriers, modest and within what it was fed. */
  ghost predicate Fitting(e: Join.Entry, feds: seq<seq<i32>>) {
    e.carrier < |feds| && Join.Modest(e.block) && e.block.start + e.block.size <= |feds[e.carrier]|
  }

  lemma {:induction false} LogFits(p: Track.Parser, amplify: Amplify, feds: seq<seq<i32>>)
    requires Track.Lawful(p)
    ensures forall i | 0 <= i < |LogOf(p, amplify, feds)| :: Fitting(LogOf(p, amplify, feds)[i], feds)
  {
    if feds != [] {
      var n := |feds| - 1;
      LogFits(p, amplify, feds[..n]);
      BlocksWithin(p, amplify, feds[n]);
    }
  }

  lemma {:induction false} LogOfCarrier(p: Track.Parser, amplify: Amplify, feds: seq<seq<i32>>, c: nat)
    ensures Join.OfCarrier(LogOf(p, amplify, feds), c)
         == if c < |feds| then Join.Entries(c, Carrier.CarrierBlocks(p, amplify, feds[c])) else []
  {
    if feds != [] {
      var n := |feds| - 1;
      var front, blocks := LogOf(p, amplify, feds[..n]), Carrier.CarrierBlocks(p, amplify, feds[n]);
      assert LogOf(p, amplify, feds) == front + Join.Entries(n, blocks);
      LogOfCarrier(p, amplify, feds[..n], c);
      hide *;
      Join.OfCarrierMore(front, n, blocks, c);
      if c == n {
        assert [] + Join.Entries(n, blocks) == Join.Entries(n, blocks);
      } else {
        assert c < n ==> feds[..n][c] == feds[c];
        assert Join.OfCarrier(front, c) + [] == Join.OfCarrier(front, c);
      }
    }
  }

  /** It is what those samples decode to. */
  lemma ToldIsDecoded(p: Track.Parser, amplify: Amplify, ids: seq<nat>, outputs: seq<nat>, feds: seq<seq<i32>>)
    requires Track.Lawful(p) && |ids| == |feds|
    ensures Chain.Decoded(ToldOf(p, amplify, ids, outputs, feds), p, amplify)
  {
    var t := ToldOf(p, amplify, ids, outputs, feds);
    LogFits(p, amplify, feds);
    forall i | 0 <= i < |t.log|
      ensures Join.Modest(t.log[i].block) && t.log[i].carrier < |t.carriers|
      ensures t.log[i].block.start + t.log[i].block.size <= |t.carriers[t.log[i].carrier].fed|
    {
      assert Fitting(t.log[i], feds);
    }
    forall c: nat | c < |t.carriers|
      ensures Chain.DecodedOf(t, p, amplify, c)
    {
      LogOfCarrier(p, amplify, feds, c);
    }
  }

  // ---- frames

  /** Two tellings that are the same as far as matters up to `end` give the same
      frames up to there. */
  lemma {:induction false} FramesAgree(p: Track.Parser, amplify: Amplify, t: Join.Told, u: Join.Told, latency: nat,
                                       ids: seq<nat>, from: nat, n: nat)
    requires Track.Lawful(p) && Chain.Decoded(t, p, amplify) && Chain.Decoded(u, p, amplify) && |t.carriers| <= 17
    requires forall at: nat | from <= at < from + n :: Chain.SameSamples(p, amplify, t, u, latency, at)
    requires Unfold.AllFed(t, from + n) && Unfold.AllFed(u, from + n)
    ensures Unfold.Frames(t, ids, from, n) == Unfold.Frames(u, ids, from, n)
  {
    if n > 0 {
      var at := from + n - 1;
      FramesAgree(p, amplify, t, u, latency, ids, from, n - 1);
      forall j | 0 <= j < |ids|
        ensures Join.Sample(t, ids[j], at) == Join.Sample(u, ids[j], at)
      {
        PlaceAgrees(p, amplify, t, u, latency, ids[j], at);
      }
      assert Unfold.Frame(t, ids, at) == Unfold.Frame(u, ids, at);
    }
  }

  lemma PlaceAgrees(p: Track.Parser, amplify: Amplify, t: Join.Told, u: Join.Told, latency: nat, id: nat, at: nat)
    requires Track.Lawful(p) && Chain.Decoded(t, p, amplify) && Chain.Decoded(u, p, amplify) && |t.carriers| <= 17
    requires Chain.SameSamples(p, amplify, t, u, latency, at)
    requires Unfold.AllFed(t, at + 1) && Unfold.AllFed(u, at + 1)
    ensures Join.Sample(t, id, at) == Join.Sample(u, id, at)
  {
    Chain.PlaceAlike(p, amplify, t, u, latency, id, at);
    Join.OrderDoesNotMatter(t, u, id, at);
  }

  /** The frames of carriers fed so far, places `from` to `from + n`. */
  function FramesOf(p: Track.Parser, amplify: Amplify, ids: seq<nat>, outputs: seq<nat>, feds: seq<seq<i32>>,
                    from: nat, n: nat): seq<int>
    requires Track.Lawful(p) && |ids| == |feds| && forall c | 0 <= c < |feds| :: from + n <= |feds[c]|
  {
    ToldIsDecoded(p, amplify, ids, outputs, feds);
    Unfold.Frames(ToldOf(p, amplify, ids, outputs, feds), outputs, from, n)
  }

  /** Each carrier was fed more, all of it covered by the latency. */
  ghost predicate Grown(p: Track.Parser, amplify: Amplify, feds: seq<seq<i32>>, more: seq<seq<i32>>, latency: nat) {
    |feds| == |more| && forall c | 0 <= c < |feds| :: GrownIn(p, amplify, feds[c], more[c], latency)
  }

  ghost predicate GrownIn(p: Track.Parser, amplify: Amplify, fed: seq<i32>, more: seq<i32>, latency: nat) {
    fed <= more && Chain.LatencyCovers(p, amplify, fed, more, latency)
  }

  /** What lies the latency behind every carrier stays what it was. */
  lemma FramesStay(p: Track.Parser, amplify: Amplify, ids: seq<nat>, outputs: seq<nat>, feds: seq<seq<i32>>,
                   more: seq<seq<i32>>, latency: nat, from: nat, n: nat)
    requires Track.Lawful(p) && |ids| == |feds| <= 17 && Grown(p, amplify, feds, more, latency)
    requires forall c | 0 <= c < |feds| :: from + n + latency <= |feds[c]|
    ensures forall c | 0 <= c < |more| :: from + n <= |more[c]|
    ensures FramesOf(p, amplify, ids, outputs, more, from, n) == FramesOf(p, amplify, ids, outputs, feds, from, n)
  {
    var t, u := ToldOf(p, amplify, ids, outputs, feds), ToldOf(p, amplify, ids, outputs, more);
    ToldIsDecoded(p, amplify, ids, outputs, feds);
    ToldIsDecoded(p, amplify, ids, outputs, more);
    forall c | 0 <= c < |more|
      ensures from + n <= |more[c]|
    {
      assert GrownIn(p, amplify, feds[c], more[c], latency);
    }
    forall at: nat | from <= at < from + n
      ensures Chain.SameSamples(p, amplify, t, u, latency, at)
    {
      forall c: nat | c < |t.carriers|
        ensures Chain.Agree(p, amplify, t.carriers[c].fed, u.carriers[c].fed, latency, at)
      {
        assert GrownIn(p, amplify, feds[c], more[c], latency);
      }
    }
    FramesAgree(p, amplify, t, u, latency, outputs, from, n);
  }

  /** Frames of more samples are the frames there were, and then the rest. */
  lemma FramesGrow(p: Track.Parser, amplify: Amplify, ids: seq<nat>, outputs: seq<nat>, feds: seq<seq<i32>>,
                   more: seq<seq<i32>>, latency: nat, released: nat, end: nat)
    requires Track.Lawful(p) && |ids| == |feds| <= 17 && Grown(p, amplify, feds, more, latency)
    requires released > 0 ==> forall c | 0 <= c < |feds| :: released + latency <= |feds[c]|
    requires released <= end && forall c | 0 <= c < |more| :: end <= |more[c]|
    ensures FramesOf(p, amplify, ids, outputs, more, 0, end)
         == FramesOf(p, amplify, ids, outputs, feds, 0, released)
          + FramesOf(p, amplify, ids, outputs, more, released, end - released)
  {
    hide FramesOf, GrownIn, Track.Lawful;
    if released == 0 {
      FramesOfNone(p, amplify, ids, outputs, feds, 0);
      FramesOfNone(p, amplify, ids, outputs, more, 0);
    } else {
      FramesStay(p, amplify, ids, outputs, feds, more, latency, 0, released);
    }
    FramesOfJoin(p, amplify, ids, outputs, more, released, end);
  }

  lemma FramesOfNone(p: Track.Parser, amplify: Amplify, ids: seq<nat>, outputs: seq<nat>, feds: seq<seq<i32>>,
                     from: nat)
    requires Track.Lawful(p) && |ids| == |feds| && forall c | 0 <= c < |feds| :: from <= |feds[c]|
    ensures FramesOf(p, amplify, ids, outputs, feds, from, 0) == []
  {
    ToldIsDecoded(p, amplify, ids, outputs, feds);
  }

  lemma FramesOfJoin(p: Track.Parser, amplify: Amplify, ids: seq<nat>, outputs: seq<nat>, feds: seq<seq<i32>>,
                     middle: nat, end: nat)
    requires Track.Lawful(p) && |ids| == |feds| && middle <= end && forall c | 0 <= c < |feds| :: end <= |feds[c]|
    ensures FramesOf(p, amplify, ids, outputs, feds, 0, end)
         == FramesOf(p, amplify, ids, outputs, feds, 0, middle)
          + FramesOf(p, amplify, ids, outputs, feds, middle, end - middle)
  {
    hide Unfold.Frames, LogOf, Chain.DecodedOf, Track.Lawful;
    ToldIsDecoded(p, amplify, ids, outputs, feds);
    FramesJoin(ToldOf(p, amplify, ids, outputs, feds), outputs, 0, middle, end - middle);
  }

  lemma {:induction false} FramesJoin(t: Join.Told, ids: seq<nat>, from: nat, a: nat, b: nat)
    requires Join.Consistent(t) && Unfold.AllFed(t, from + a + b)
    ensures Unfold.Frames(t, ids, from, a + b) == Unfold.Frames(t, ids, from, a) + Unfold.Frames(t, ids, from + a, b)
  {
    if b > 0 {
      FramesJoin(t, ids, from, a, b - 1);
      FramesApart(Unfold.Frames(t, ids, from, a), Unfold.Frames(t, ids, from + a, b - 1),
        Unfold.Frame(t, ids, from + a + b - 1));
    }
  }

  lemma FramesApart(a: seq<int>, b: seq<int>, c: seq<int>)
    ensures a + b + c == a + (b + c)
  {
  }
}
