/** The unfolder as the stage drives it: fed whole carriers in chunks, drained after
    every frame, started with a replay of what was held. */
module AuroFeeding {
  import opened Bytes
  import opened AuroRuns
  import opened AuroStage
  import opened AuroUnfold
  import AuroRestore
  import Chain = AuroChain
  import Heard = AuroHeard
  import Join = AuroJoin
  import Track = AuroTrack

  /** The unfolder has come as far as `u` says. */
  ghost predicate UnfolderIs(x: Chain.CarrierUnfolder, env: Env, u: Progress)
    reads x, x.Storage()
  {
    && x.Valid() && x.Lagging() && x.p == Track.BlockParser() && x.amplify == env.amplify
    && x.join.ids == IdsOf(u.carriers) && x.join.told.wanted == Heard.WantedOf(u.outputs)
    && x.join.released == u.released && x.join.latency == u.latency && Feeds(x.join.told, u.fed)
    && (forall c | 0 <= c < |x.decoders| :: x.decoders[c].Repr <= x.Repr) && |x.decoders| == |u.fed| == |u.carriers|
  }

  ghost predicate Feeds(told: Join.Told, fed: seq<seq<i32>>) {
    |told.carriers| == |fed| && forall c | 0 <= c < |fed| :: told.carriers[c].fed == fed[c]
  }

  /** What the carriers come to next neither overruns the rings nor completes a block
      that the latency does not cover. */
  ghost predicate Handles(env: Env, u: Progress, all: seq<seq<i32>>) {
    && |u.fed| == |all| <= 17
    && Heard.Grown(Track.BlockParser(), env.amplify, u.fed, all, u.latency)
    && forall c | 0 <= c < |all| :: |all[c]| <= u.released + RING
  }

  /** So it is for level carriers and a short frame. */
  lemma HandlesShort(env: Env, u: Progress, all: seq<seq<i32>>, t: nat, n: nat)
    requires Level(u, t) && n <= RING - LATENCY && |u.carriers| <= 17
    requires Extends(u.fed, all) && AllCovered(env, all, u.latency) && forall c | 0 <= c < |all| :: |all[c]| == t + n
    ensures Handles(env, u, all)
  {
    hide AllCovered, Heard.Grown;
    GrownWithin(env, u.fed, all, u.latency);
  }

  /** Part of the way leaves the rest of it. */
  lemma HandlesPart(env: Env, u: Progress, part: seq<seq<i32>>, all: seq<seq<i32>>)
    requires Handles(env, u, all) && Extends(u.fed, part) && Extends(part, all)
    ensures Handles(env, u, part) && Handles(env, u.(fed := part), all)
  {
    hide Chain.LatencyCovers, Track.BlockParser;
    forall c | 0 <= c < |all|
      ensures Heard.GrownIn(Track.BlockParser(), env.amplify, u.fed[c], part[c], u.latency)
      ensures Heard.GrownIn(Track.BlockParser(), env.amplify, part[c], all[c], u.latency)
      ensures |part[c]| <= u.released + RING
    {
      assert Heard.GrownIn(Track.BlockParser(), env.amplify, u.fed[c], all[c], u.latency);
      CoversPart(env.amplify, u.fed[c], u.fed[c], part[c], all[c], u.latency);
      CoversPart(env.amplify, u.fed[c], part[c], all[c], all[c], u.latency);
    }
  }

  lemma FedExtends(fed: seq<seq<i32>>, c: nat, samples: seq<i32>)
    requires c < |fed|
    ensures Extends(fed, Fed(fed, c, samples))
  {
  }

  // ---- feeding

  method PushChunk(x: Chain.CarrierUnfolder, ghost env: Env, ghost u: Progress, c: nat, samples: seq<i32>)
    requires UnfolderIs(x, env, u) && c < |u.fed| && |samples| <= MAX_PUSH && Handles(env, u, Fed(u.fed, c, samples))
    modifies x.Storage()
    ensures UnfolderIs(x, env, u.(fed := Fed(u.fed, c, samples)))
  {
    hide Chain.CarrierUnfolder.Valid, Chain.CarrierUnfolder.Lagging, Track.BlockParser, Chain.LatencyCovers, IdsOf,
      Heard.WantedOf;
    assert Heard.GrownIn(Track.BlockParser(), env.amplify, u.fed[c], Fed(u.fed, c, samples)[c], u.latency);
    x.Push(c, samples);
  }

  lemma FedTwice(fed: seq<seq<i32>>, c: nat, a: seq<i32>, b: seq<i32>)
    requires c < |fed|
    ensures Fed(Fed(fed, c, a), c, b) == Fed(fed, c, a + b) && Fed(fed, c, []) == fed
    ensures Extends(Fed(fed, c, a), Fed(fed, c, a + b))
  {
    assert fed[c] + a + b == fed[c] + (a + b) && fed[c] + [] == fed[c];
  }

  /** One carrier's samples, in chunks the rings take. */
  method PushAll(x: Chain.CarrierUnfolder, ghost env: Env, ghost u: Progress, c: nat, samples: seq<i32>)
    requires UnfolderIs(x, env, u) && c < |u.fed| && Handles(env, u, Fed(u.fed, c, samples))
    modifies x.Storage()
    ensures UnfolderIs(x, env, u.(fed := Fed(u.fed, c, samples)))
  {
    hide UnfolderIs, Handles, Extends, Fed;
    var i := 0;
    FedTwice(u.fed, c, [], samples);
    while i < |samples|
      invariant i <= |samples| && UnfolderIs(x, env, u.(fed := Fed(u.fed, c, samples[..i])))
    {
      var n := Min(MAX_PUSH, |samples| - i);
      ChunkHandled(env, u, c, samples, i, n);
      PushChunk(x, env, u.(fed := Fed(u.fed, c, samples[..i])), c, samples[i..i + n]);
      i := i + n;
    }
    assert samples[..|samples|] == samples;
  }

  lemma ChunkHandled(env: Env, u: Progress, c: nat, samples: seq<i32>, i: nat, n: nat)
    requires c < |u.fed| && Handles(env, u, Fed(u.fed, c, samples)) && i + n <= |samples|
    ensures Fed(Fed(u.fed, c, samples[..i]), c, samples[i..i + n]) == Fed(u.fed, c, samples[..i + n])
    ensures Handles(env, u.(fed := Fed(u.fed, c, samples[..i])), Fed(u.fed, c, samples[..i + n]))
  {
    hide Handles;
    var now, next, all := Fed(u.fed, c, samples[..i]), Fed(u.fed, c, samples[..i + n]), Fed(u.fed, c, samples);
    assert samples[..i] + samples[i..i + n] == samples[..i + n] && samples[..i + n] + samples[i + n..] == samples;
    FedTwice(u.fed, c, samples[..i], samples[i..i + n]);
    FedTwice(u.fed, c, samples[..i + n], samples[i + n..]);
    FedExtends(u.fed, c, samples[..i + n]);
    FedExtends(u.fed, c, samples[..i]);
    HandlesPart(env, u, next, all);
    HandlesPart(env, u, now, next);
  }

  lemma {:induction false} FedInTurn(carriers: seq<nat>, fed: seq<seq<i32>>, lossless: seq<(nat, seq<i32>)>, i: nat)
    requires |fed| == |carriers| && i <= |lossless|
    ensures Extends(fed, FedFrame(carriers, fed, lossless[..i]))
    ensures Extends(FedFrame(carriers, fed, lossless[..i]), FedFrame(carriers, fed, lossless))
    decreases |lossless| - i
  {
    FedForward(carriers, fed, lossless[..i]);
    if i == |lossless| {
      assert lossless[..i] == lossless;
    } else {
      FedInTurn(carriers, fed, lossless, i + 1);
      assert lossless[..i + 1][..i] == lossless[..i];
    }
  }

  /** The speakers' samples, each to the carrier it plays on. */
  method FeedAll(x: Chain.CarrierUnfolder, ghost env: Env, ghost u: Progress, carriers: seq<nat>,
                 lossless: seq<(nat, seq<i32>)>)
    requires UnfolderIs(x, env, u) && |u.fed| == |u.carriers| && carriers == u.carriers
    requires Handles(env, u, FedFrame(carriers, u.fed, lossless))
    modifies x.Storage()
    ensures UnfolderIs(x, env, u.(fed := FedFrame(carriers, u.fed, lossless)))
  {
    hide UnfolderIs, Handles, Extends, Fed;
    for i := 0 to |lossless|
      invariant UnfolderIs(x, env, u.(fed := FedFrame(carriers, u.fed, lossless[..i])))
    {
      ghost var fed := FedFrame(carriers, u.fed, lossless[..i]);
      assert lossless[..i + 1][..i] == lossless[..i];
      var index := IndexOf(carriers, lossless[i].0);
      if index.Some? {
        FedInTurn(carriers, u.fed, lossless, i);
        FedInTurn(carriers, u.fed, lossless, i + 1);
        FedExtends(fed, index.value, lossless[i].1);
        SpeakerHandled(env, u, fed, FedFrame(carriers, u.fed, lossless[..i + 1]),
                       FedFrame(carriers, u.fed, lossless));
        PushAll(x, env, u.(fed := fed), index.value, lossless[i].1);
      }
    }
    assert lossless[..|lossless|] == lossless;
  }

  lemma SpeakerHandled(env: Env, u: Progress, now: seq<seq<i32>>, next: seq<seq<i32>>, all: seq<seq<i32>>)
    requires Handles(env, u, all) && Extends(u.fed, now) && Extends(now, next) && Extends(next, all)
    ensures Handles(env, u.(fed := now), next)
  {
    hide Handles;
    HandlesPart(env, u, next, all);
    HandlesPart(env, u, now, next);
  }

  // ---- the columns of a held frame

  /** One column; `None` when a sample is read past the end of the frame. */
  method ReadColumn(f: Frame, index: nat) returns (column: Option<seq<i32>>)
    ensures column.None? <==> exists s :: 0 <= s < f.samples && !InPcm(f, s, index)
    ensures column.Some? ==> column.value == Column(f, index)
  {
    var read := [];
    for s := 0 to f.samples
      invariant |read| == s && (forall k | 0 <= k < s :: InPcm(f, k, index)) && read == Column(f, index)[..s]
    {
      if s * f.channels + index >= |f.pcm| {
        assert !InPcm(f, s, index);
        return None;
      }
      read := read + [f.pcm[s * f.channels + index]];
    }
    column := Some(read);
  }

  /** As many of them as there are carriers; none are pushed before all were read. */
  method ReadColumns(f: Frame, n: nat) returns (columns: Option<seq<seq<i32>>>)
    ensures columns.Some? <==> Readable(f, n)
    ensures columns.Some? ==> |columns.value| == n && forall c | 0 <= c < n :: columns.value[c] == Column(f, c)
  {
    var all := [];
    for c := 0 to n
      invariant |all| == c && (forall k | 0 <= k < c :: all[k] == Column(f, k)) && Readable(f, c)
    {
      var column := ReadColumn(f, c);
      if column.None? {
        return None;
      }
      all := all + [column.value];
    }
    columns := Some(all);
  }

  /** The first so many carriers fed their columns. */
  function FedSome(fed: seq<seq<i32>>, f: Frame, n: nat): (r: seq<seq<i32>>)
    ensures |r| == |fed|
  {
    seq(|fed|, c requires 0 <= c < |fed| => if c < n then fed[c] + Column(f, c) else fed[c])
  }

  lemma FedSomeMore(fed: seq<seq<i32>>, f: Frame, n: nat)
    requires n < |fed|
    ensures Fed(FedSome(fed, f, n), n, Column(f, n)) == FedSome(fed, f, n + 1)
    ensures Extends(fed, FedSome(fed, f, n)) && Extends(FedSome(fed, f, n), FedSome(fed, f, n + 1))
    ensures Extends(FedSome(fed, f, n + 1), FedColumns(fed, f))
    ensures FedSome(fed, f, 0) == fed && FedSome(fed, f, |fed|) == FedColumns(fed, f)
  {
  }

  method PushColumns(x: Chain.CarrierUnfolder, ghost env: Env, ghost u: Progress, ghost f: Frame,
                     columns: seq<seq<i32>>)
    requires UnfolderIs(x, env, u) && Handles(env, u, FedColumns(u.fed, f))
    requires |columns| == |u.fed| && forall c | 0 <= c < |columns| :: columns[c] == Column(f, c)
    modifies x.Storage()
    ensures UnfolderIs(x, env, u.(fed := FedColumns(u.fed, f)))
  {
    hide UnfolderIs, Handles, Extends, Fed, Column;
    assert FedSome(u.fed, f, 0) == u.fed && FedSome(u.fed, f, |u.fed|) == FedColumns(u.fed, f);
    for c := 0 to |columns|
      invariant UnfolderIs(x, env, u.(fed := FedSome(u.fed, f, c)))
    {
      FedSomeMore(u.fed, f, c);
      SpeakerHandled(env, u, FedSome(u.fed, f, c), FedSome(u.fed, f, c + 1), FedColumns(u.fed, f));
      PushAll(x, env, u.(fed := FedSome(u.fed, f, c)), c, columns[c]);
    }
  }

  // ---- draining

  lemma PositionsAre(x: Chain.CarrierUnfolder, env: Env, u: Progress)
    requires UnfolderIs(x, env, u)
    ensures x.join.positions == Positions(u.fed)
  {
    hide Track.BlockParser, IdsOf, Heard.WantedOf;
  }

  lemma WholeFrames(ready: nat, width: nat)
    requires width > 0
    ensures Chain.Fitting(ready, width, ready * width) == ready
  {
    var q := ready * width / width;
    assert q * width <= ready * width < (q + 1) * width;
  }

  /** What an unfolder took last is what its carriers sound like there, whatever the
      order its samples came in. */
  lemma TakenIsHeard(x: Chain.CarrierUnfolder, env: Env, u: Progress, from: nat, n: nat)
    requires UnfolderIs(x, env, u) && Sound(u) && |u.carriers| <= 17 && from + n == u.released
    requires x.join.takes != [] && x.join.takes[|x.join.takes| - 1].ids == u.outputs
    requires x.join.takes[|x.join.takes| - 1].from == from && x.join.takes[|x.join.takes| - 1].count == n
    ensures x.join.takes[|x.join.takes| - 1].frames == Pcm(env, u, from, n)
  {
    hide Track.BlockParser, IdsOf, Heard.WantedOf, FrontierOf, Frames, Heard.LogOf, Chain.DecodedOf;
    var p, t := Track.BlockParser(), x.join.told;
    var heard := Heard.ToldOf(p, env.amplify, IdsOf(u.carriers), u.outputs, u.fed);
    var k := |x.join.takes| - 1;
    assert KeptOne(x.join.takes[k], t, x.join.released);
    Track.BlockParserIsLawful();
    WithinFed(u, u.released);
    Heard.ToldIsDecoded(p, env.amplify, IdsOf(u.carriers), u.outputs, u.fed);
    forall at: nat | from <= at < from + n
      ensures Chain.SameSamples(p, env.amplify, t, heard, u.latency, at)
    {
      forall c: nat | c < |t.carriers|
        ensures t.carriers[c].id == heard.carriers[c].id
        ensures Chain.Agree(p, env.amplify, t.carriers[c].fed, heard.carriers[c].fed, u.latency, at)
      {
      }
    }
    Heard.FramesAgree(p, env.amplify, t, heard, u.latency, u.outputs, from, n);
  }

  /** As many frames as are ready, with room for all of them. */
  method TakeReady(x: Chain.CarrierUnfolder, ghost env: Env, ghost u: Progress, outputs: seq<nat>, ready: nat)
    returns (pcm: seq<int>)
    requires UnfolderIs(x, env, u) && Sound(u) && |u.carriers| <= 17 && outputs == u.outputs != []
    requires ready == FrontierOf(Positions(u.fed), u.latency) - u.released
    modifies x.Storage()
    ensures UnfolderIs(x, env, u.(released := u.released + ready)) && pcm == Pcm(env, u, u.released, ready)
  {
    hide Track.BlockParser, IdsOf, Heard.WantedOf, FrontierOf, Pcm, Chain.CarrierUnfolder.Valid,
      Chain.CarrierUnfolder.Lagging;
    PositionsAre(x, env, u);
    WholeFrames(ready, |outputs|);
    var out := new int[ready * |outputs|];
    var n := x.Take(outputs, out);
    pcm := out[..n * |outputs|];
    TakenIsHeard(x, env, u.(released := u.released + ready), u.released, ready);
    PcmAlike(env, u, u.released + ready, u.released, ready);
  }

  /** Whatever is ready goes out, as one frame. */
  method Drain(x: Chain.CarrierUnfolder, ghost env: Env, ghost u: Progress, outputs: seq<nat>) returns (out: seq<Out>)
    requires UnfolderIs(x, env, u) && Sound(u) && |u.carriers| <= 17 && outputs == u.outputs
    modifies x.Storage()
    ensures UnfolderIs(x, env, Drained(env, u).0) && out == Drained(env, u).1
  {
    hide UnfolderIs, FrontierOf, Pcm;
    var ready := HowMany(x, env, u);
    if ready == 0 {
      return [];
    }
    var pcm := [];
    if outputs != [] {
      pcm := TakeReady(x, env, u, outputs, ready);
      out := [Unfolded(ready, |outputs|, pcm)];
    } else {
      PcmOfNone(env, u, u.released);
      out := [Unfolded(0, 0, [])];
    }
  }

  method HowMany(x: Chain.CarrierUnfolder, ghost env: Env, ghost u: Progress) returns (ready: nat)
    requires UnfolderIs(x, env, u) && Sound(u)
    ensures ready == FrontierOf(Positions(u.fed), u.latency) - u.released
  {
    hide Track.BlockParser, IdsOf, Heard.WantedOf, FrontierOf, Chain.CarrierUnfolder.Valid,
      Chain.CarrierUnfolder.Lagging;
    PositionsAre(x, env, u);
    ready := x.Ready();
  }

  // ---- the replay

  /** An unfolder for these carriers, lagging by one block of the detected size. */
  method Open(ghost env: Env, amplify: AuroRestore.Amplify, speakers: seq<nat>, blockSize: nat, outputs: seq<nat>)
    returns (x: Chain.CarrierUnfolder)
    requires amplify == env.amplify
    ensures fresh(x) && fresh(x.Storage()) && UnfolderIs(x, env, Opened(speakers, blockSize, outputs))
  {
    hide Track.BlockParser, IdsOf, FrontierOf, Chain.CarrierUnfolder.Valid;
    x := new Chain.CarrierUnfolder(IdsOf(speakers), outputs, amplify);
    assert x.join.told.wanted == Heard.WantedOf(outputs);
    x.SetLatency(blockSize);
  }

  /** Every held frame whose columns are all there, up to the first that lacks one,
      is one the unfolder can take. */
  ghost predicate Replayable(env: Env, u: Progress, held: seq<Held>)
    requires Sound(u)
  {
    held == [] ||
    var front, h := held[..|held| - 1], held[|held| - 1];
    && Replayable(env, u, front)
    && (AllReadable(held, |u.carriers|) ==> Handles(env, Replayed(env, u, front).0,
                                                    FedColumns(Replayed(env, u, front).0.fed, h.frame)))
  }

  ghost predicate AllReadable(held: seq<Held>, columns: nat) {
    forall i | 0 <= i < |held| :: Readable(held[i].frame, columns)
  }

  lemma {:induction false} ReplayableFront(env: Env, u: Progress, held: seq<Held>, n: nat)
    requires Sound(u) && Replayable(env, u, held) && n <= |held|
    ensures Replayable(env, u, held[..n])
    decreases |held|
  {
    if n == |held| {
      assert held[..n] == held;
    } else {
      var front := held[..|held| - 1];
      ReplayableFront(env, u, front, n);
      assert front[..n] == held[..n];
    }
  }

  /** One held frame: its columns, and what comes out after them. */
  method ReplayOne(x: Chain.CarrierUnfolder, ghost env: Env, ghost u: Progress, f: Frame, outputs: seq<nat>)
    returns (out: Option<seq<Out>>)
    requires UnfolderIs(x, env, u) && Sound(u) && outputs == u.outputs && |u.carriers| <= 17
    requires Readable(f, |u.carriers|) ==> Handles(env, u, FedColumns(u.fed, f))
    modifies x.Storage()
    ensures out.Some? <==> Readable(f, |u.carriers|)
    ensures Sound(u.(fed := FedColumns(u.fed, f)))
    ensures out.Some? ==>
      var (next, more) := Drained(env, u.(fed := FedColumns(u.fed, f))); UnfolderIs(x, env, next) && out.value == more
  {
    hide UnfolderIs, Handles, Readable, Drained, FrontierOf;
    FedOn(u, FedColumns(u.fed, f));
    var columns := ReadColumns(f, CarrierCount(x, env, u));
    if columns.None? {
      return None;
    }
    PushColumns(x, env, u, f, columns.value);
    var more := Drain(x, env, u.(fed := FedColumns(u.fed, f)), outputs);
    out := Some(more);
  }

  function CarrierCount(x: Chain.CarrierUnfolder, ghost env: Env, ghost u: Progress): (n: nat)
    requires UnfolderIs(x, env, u)
    reads x, x.Storage()
    ensures n == |u.carriers|
  {
    |x.decoders|
  }

  /** All of them, in order; `None` when a column was read past the end of a frame. */
  method ReplayAll(x: Chain.CarrierUnfolder, ghost env: Env, ghost u: Progress, held: seq<Held>, outputs: seq<nat>)
    returns (out: Option<seq<Out>>)
    requires UnfolderIs(x, env, u) && Sound(u) && outputs == u.outputs && |u.carriers| <= 17
    requires Replayable(env, u, held)
    modifies x.Storage()
    ensures out.Some? <==> AllReadable(held, |u.carriers|)
    ensures out.Some? ==>
      var (next, outs) := Replayed(env, u, held); UnfolderIs(x, env, next) && out.value == outs
  {
    hide UnfolderIs, Handles, Readable, Drained, Sound, FedColumns;
    var outs := [];
    for i := 0 to |held|
      invariant AllReadable(held[..i], |u.carriers|) && outs == Replayed(env, u, held[..i]).1
      invariant UnfolderIs(x, env, Replayed(env, u, held[..i]).0)
    {
      ghost var now := Replayed(env, u, held[..i]).0;
      OneMoreHeld(env, u, held, i);
      var more := ReplayOne(x, env, now, held[i].frame, outputs);
      if more.None? {
        return None;
      }
      outs := outs + more.value;
    }
    assert held[..|held|] == held;
    out := Some(outs);
  }

  lemma OneMoreHeld(env: Env, u: Progress, held: seq<Held>, i: nat)
    requires Sound(u) && i < |held| && Replayable(env, u, held) && AllReadable(held[..i], |u.carriers|)
    ensures AllReadable(held[..i + 1], |u.carriers|) <==> Readable(held[i].frame, |u.carriers|)
    ensures AllReadable(held, |u.carriers|) ==> Readable(held[i].frame, |u.carriers|)
    ensures var v := Replayed(env, u, held[..i]).0;
            && (Readable(held[i].frame, |u.carriers|) ==> Handles(env, v, FedColumns(v.fed, held[i].frame)))
            && Sound(v.(fed := FedColumns(v.fed, held[i].frame)))
            && Replayed(env, u, held[..i + 1])
               == (Drained(env, v.(fed := FedColumns(v.fed, held[i].frame))).0,
                   Replayed(env, u, held[..i]).1 + Drained(env, v.(fed := FedColumns(v.fed, held[i].frame))).1)
  {
    hide Handles, Readable, Drained, Sound, FedColumns;
    assert held[..i + 1] == held[..i] + [held[i]] && held[..i + 1][..i] == held[..i];
    ReplayableFront(env, u, held, i + 1);
    ReplayedSnoc(env, u, held[..i], held[i]);
  }
}
