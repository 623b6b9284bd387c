/** What every run of the stage keeps: samples are neither lost nor made up, and what
    comes out is what the carriers sound like, however long they were held back. */
module AuroRuns {
  import opened Bytes
  import opened AuroRestore
  import opened AuroStage
  import opened AuroUnfold
  import Carrier = AuroCarrier
  import Chain = AuroChain
  import Detector = AuroDetector
  import Heard = AuroHeard
  import Latch = AuroLatch
  import Track = AuroTrack

  function InputFrames(events: seq<Event>): seq<Frame> {
    if events == [] then []
    else
      var last := events[|events| - 1];
      InputFrames(events[..|events| - 1]) + if last.Route? then [last.x.frame] else []
  }

  function Passed(frames: seq<Frame>): (r: seq<Out>)
    ensures |r| == |frames|
  {
    seq(|frames|, i requires 0 <= i < |frames| => AsIs(frames[i]))
  }

  function FramesOf(held: seq<Held>): (r: seq<Frame>)
    ensures |r| == |held|
  {
    seq(|held|, i requires 0 <= i < |held| => held[i].frame)
  }

  function Total(frames: seq<Frame>): nat {
    if frames == [] then 0 else Total(frames[..|frames| - 1]) + frames[|frames| - 1].samples
  }

  lemma TotalSnoc(frames: seq<Frame>, f: Frame)
    ensures Total(frames + [f]) == Total(frames) + f.samples
  {
    assert (frames + [f])[..|frames|] == frames;
  }

  /** The samples that came out unfolded; a frame passed on as it is counts for none. */
  function Emitted(outs: seq<Out>): nat {
    if outs == [] then 0
    else Emitted(outs[..|outs| - 1]) + if outs[|outs| - 1].Unfolded? then outs[|outs| - 1].samples else 0
  }

  /** And what they sound like. */
  function PcmOf(outs: seq<Out>): seq<int> {
    if outs == [] then []
    else PcmOf(outs[..|outs| - 1]) + if outs[|outs| - 1].Unfolded? then outs[|outs| - 1].pcm else []
  }

  ghost predicate AllUnfolded(outs: seq<Out>) {
    forall i | 0 <= i < |outs| :: outs[i].Unfolded?
  }

  /** At most one more frame. */
  lemma OneMore(outs: seq<Out>, more: seq<Out>)
    requires |more| <= 1
    ensures Emitted(outs + more) == Emitted(outs) + if more != [] && more[0].Unfolded? then more[0].samples else 0
    ensures PcmOf(outs + more) == PcmOf(outs) + if more != [] && more[0].Unfolded? then more[0].pcm else []
  {
    if more == [] {
      assert outs + more == outs && PcmOf(outs) + [] == PcmOf(outs);
    } else {
      assert (outs + more)[..|outs|] == outs;
    }
  }

  /** All carriers stand at `t`, and all but the latency of it was taken. */
  ghost predicate Level(u: Progress, t: nat) {
    && u.fed != [] && |u.fed| == |u.carriers| && u.outputs != [] && u.latency <= LATENCY
    && (forall c | 0 <= c < |u.fed| :: |u.fed[c]| == t)
    && u.released == Max(0, t - u.latency)
  }

  lemma LevelFrontier(fed: seq<seq<i32>>, t: nat, latency: nat)
    requires fed != [] && forall c | 0 <= c < |fed| :: |fed[c]| == t
    ensures FrontierOf(Positions(fed), latency) == Max(0, t - latency)
  {
    MinIsLeast(Positions(fed), 0);
    MinIsOneOf(Positions(fed), t);
  }

  /** Level carriers that were fed on together and then drained are level again. */
  lemma DrainedLevel(env: Env, u: Progress, fed: seq<seq<i32>>, t: nat, n: nat)
    requires Sound(u) && Level(u, t) && |fed| == |u.fed| && forall c | 0 <= c < |fed| :: |fed[c]| == t + n
    ensures Sound(u.(fed := fed))
    ensures var (next, more) := Drained(env, u.(fed := fed));
            && Sound(next) && Level(next, t + n) && next == u.(fed := fed, released := next.released)
            && AllUnfolded(more) && |more| <= 1 && next.released == u.released + Emitted(more)
  {
    hide Pcm, FrontierOf;
    LevelFrontier(u.fed, t, u.latency);
    LevelFrontier(fed, t + n, u.latency);
    OneMore([], Drained(env, u.(fed := fed)).1);
    assert [] + Drained(env, u.(fed := fed)).1 == Drained(env, u.(fed := fed)).1;
  }

  lemma {:induction false} EmittedConcat(a: seq<Out>, b: seq<Out>)
    ensures Emitted(a + b) == Emitted(a) + Emitted(b)
  {
    if b == [] {
      assert a + b == a;
    } else {
      assert (a + b)[..|a + b| - 1] == a + b[..|b| - 1];
      EmittedConcat(a, b[..|b| - 1]);
    }
  }

  lemma BothUnfolded(a: seq<Out>, b: seq<Out>)
    requires AllUnfolded(a) && AllUnfolded(b)
    ensures AllUnfolded(a + b)
  {
  }

  /** What a replay feeds the carriers. */
  function ColumnsOf(columns: nat, frames: seq<Frame>): (r: seq<seq<i32>>)
    ensures |r| == columns
  {
    if frames == [] then Nothing(columns)
    else FedColumns(ColumnsOf(columns, frames[..|frames| - 1]), frames[|frames| - 1])
  }

  /** The carriers after a replay, and what came out of it. */
  ghost predicate Replaying(u: Progress, outs: seq<Out>, frames: seq<Frame>) {
    && Level(u, Total(frames)) && AllUnfolded(outs) && u.released == Emitted(outs)
    && u.fed == ColumnsOf(|u.carriers|, frames)
  }

  lemma ReplayStarts(u: Progress)
    requires Level(u, 0) && u.fed == Nothing(|u.carriers|)
    ensures Replaying(u, [], [])
  {
  }

  lemma ReplayGoesOn(env: Env, u: Progress, outs: seq<Out>, frames: seq<Frame>, f: Frame)
    requires Sound(u) && Replaying(u, outs, frames) && Sound(u.(fed := FedColumns(u.fed, f)))
    ensures var (next, more) := Drained(env, u.(fed := FedColumns(u.fed, f)));
            Replaying(next, outs + more, frames + [f])
  {
    hide Drained, FedColumns, Total;
    var fed := FedColumns(u.fed, f);
    ColumnsLevel(u, f, Total(frames));
    DrainedLevel(env, u, fed, Total(frames), f.samples);
    TotalSnoc(frames, f);
    EmittedConcat(outs, Drained(env, u.(fed := fed)).1);
    BothUnfolded(outs, Drained(env, u.(fed := fed)).1);
    assert (frames + [f])[..|frames|] == frames;
  }

  /** One held frame more. */
  lemma ReplayedSnoc(env: Env, u: Progress, front: seq<Held>, h: Held)
    requires Sound(u)
    ensures var (v, outs) := Replayed(env, u, front);
            && Sound(v.(fed := FedColumns(v.fed, h.frame)))
            && Replayed(env, u, front + [h])
            == var (next, more) := Drained(env, v.(fed := FedColumns(v.fed, h.frame))); (next, outs + more)
  {
    hide Drained, FrontierOf;
    var v := Replayed(env, u, front).0;
    FedOn(v, FedColumns(v.fed, h.frame));
    assert (front + [h])[..|front|] == front;
  }

  lemma ReplayOfNone(env: Env, u: Progress)
    requires Sound(u)
    ensures Replayed(env, u, []) == (u, [])
  {
  }

  lemma {:induction false} ReplayedLevel(env: Env, u: Progress, held: seq<Held>)
    requires Sound(u) && Level(u, 0) && u.fed == Nothing(|u.carriers|)
    ensures var (next, outs) := Replayed(env, u, held); Replaying(next, outs, FramesOf(held))
  {
    hide *;
    if held == [] {
      ReplayOfNone(env, u);
      NoFrames();
      ReplayStarts(u);
    } else {
      var front, h := held[..|held| - 1], held[|held| - 1];
      ReplayedLevel(env, u, front);
      assert held == front + [h];
      ReplayedSnoc(env, u, front, h);
      var (v, outs) := Replayed(env, u, front);
      ReplayGoesOn(env, v, outs, FramesOf(front), h.frame);
      FramesOfSnoc(front, h);
    }
  }

  lemma NoFrames()
    ensures FramesOf([]) == []
  {
  }

  lemma FramesOfSnoc(front: seq<Held>, h: Held)
    ensures FramesOf(front + [h]) == FramesOf(front) + [h.frame]
  {
  }

  lemma ColumnsLevel(u: Progress, f: Frame, t: nat)
    requires Level(u, t)
    ensures forall c | 0 <= c < |u.fed| :: |FedColumns(u.fed, f)[c]| == t + f.samples
  {
  }

  // ---- fair runs

  /** What a frame's lossless samples bring each carrier. */
  function Brought(carriers: seq<nat>, lossless: seq<(nat, seq<i32>)>): (r: seq<seq<i32>>)
    ensures |r| == |carriers|
  {
    FedFrame(carriers, Nothing(|carriers|), lossless)
  }

  /** Feeding adds, whatever the carriers were fed. */
  lemma {:induction false} FedAdds(carriers: seq<nat>, fed: seq<seq<i32>>, nothing: seq<seq<i32>>,
                                   lossless: seq<(nat, seq<i32>)>)
    requires |fed| == |carriers| && nothing == Nothing(|carriers|)
    ensures forall c | 0 <= c < |fed| ::
      FedFrame(carriers, fed, lossless)[c] == fed[c] + FedFrame(carriers, nothing, lossless)[c]
    decreases lossless
  {
    if lossless != [] {
      FedAdds(carriers, fed, nothing, lossless[..|lossless| - 1]);
    }
  }

  /** Every carrier gets as many samples as the frame has. */
  predicate EvenlyFed(carriers: seq<nat>, x: Input) {
    forall c | 0 <= c < |carriers| :: |Brought(carriers, x.lossless)[c]| == x.frame.samples
  }

  /** What the guard of the replay would be: a frame has no samples, or at least the
      channels that the first one has speakers. */
  predicate WideEnough(held: seq<Held>)
    requires held != []
  {
    forall i | 0 <= i < |held| :: held[i].frame.samples == 0 || |held[0].speakers| <= held[i].frame.channels
  }

  /** The replay stays in range under exactly that condition. */
  lemma InRangeExactly(held: seq<Held>)
    requires held != [] && forall i | 0 <= i < |held| :: Shaped(held[i].frame)
    ensures InRange(held) <==> WideEnough(held)
  {
    forall i | 0 <= i < |held|
      ensures Readable(held[i].frame, |held[0].speakers|)
         <==> held[i].frame.samples == 0 || |held[0].speakers| <= held[i].frame.channels
    {
      ReadableExactly(held[i].frame, |held[0].speakers|);
    }
  }

  /** A replay is of some channels into some streams, and no frame is too narrow. */
  predicate FairStart(env: Env, held: seq<Held>, a: Latch.Announcement)
    requires held != []
  {
    env.streams(a.config).Some? ==>
      && held[0].speakers != [] && env.streams(a.config).value != []
      && WideEnough(held) && forall i | 0 <= i < |held| :: Shaped(held[i].frame)
  }

  /** What latches with this frame. */
  function LatchedBy(env: Env, p: Phase, x: Input): Option<Latch.Announcement> {
    if p.Undecided? && x.frame.channels == |x.speakers| then
      SensedFrame(env, Readied(p.sensing, x.speakers), x.lossless).1
    else None
  }

  /** A confirmation is a fair start, and once confirmed the carriers are fed equally. */
  predicate FairEvent(env: Env, p: Phase, e: Event) {
    e.Route? ==>
      && (p.Unfolding? ==> EvenlyFed(p.u.carriers, e.x))
      && (p.Undecided? && LatchedBy(env, p, e.x).Some? ==>
            FairStart(env, p.held + [Held(e.x.frame, e.x.speakers)], LatchedBy(env, p, e.x).value))
  }

  ghost predicate Fair(env: Env, events: seq<Event>) {
    events == [] ||
    (Fair(env, events[..|events| - 1]) && FairEvent(env, Run(env, events[..|events| - 1]).0, events[|events| - 1]))
  }

  /** What is so after any fair run: undecided, nothing has gone out and everything
      is held, within the limit; ruled out, the input has gone out, each frame
      once, in order; confirmed, as many samples as came in have gone out, less
      the latency. */
  ghost predicate Conserved(p: Phase, outs: seq<Out>, frames: seq<Frame>) {
    match p
    case Undecided(_, held, heldSamples) =>
      outs == [] && FramesOf(held) == frames && heldSamples == Total(frames) <= HOLD_LIMIT
    case Plain => outs == Passed(frames)
    case Unfolding(u) =>
      && Sound(u) && Level(u, Total(frames))
      && AllUnfolded(outs) && Emitted(outs) == Max(0, Total(frames) - u.latency)
  }

  lemma RoutedConserved(env: Env, p: Phase, outs: seq<Out>, frames: seq<Frame>, x: Input)
    requires Able(p) && Conserved(p, outs, frames) && FairEvent(env, p, Route(x))
    ensures var r := Routed(env, p, x);
            r.Some? && Conserved(r.value.0, outs + r.value.1, frames + [x.frame])
  {
    if p.Unfolding? {
      UnfoldedConserved(env, p.u, outs, frames, x);
    } else if p.Plain? {
      assert Passed(frames + [x.frame]) == Passed(frames) + [AsIs(x.frame)];
    } else {
      HeldConserved(env, p, frames, x);
      assert outs + Routed(env, p, x).value.1 == Routed(env, p, x).value.1;
    }
  }

  lemma HeldConserved(env: Env, p: Phase, frames: seq<Frame>, x: Input)
    requires p.Undecided? && Conserved(p, [], frames) && FairEvent(env, p, Route(x))
    ensures var r := Routed(env, p, x); r.Some? && Conserved(r.value.0, r.value.1, frames + [x.frame])
  {
    hide SensedFrame, Readied, Started, FairStart, Level, Limit, Released, Passed;
    var more := p.held + [Held(x.frame, x.speakers)];
    FramesOfSnoc(p.held, Held(x.frame, x.speakers));
    TotalSnoc(frames, x.frame);
    ReleasedIsPassed(p.held, x.frame);
    ReleasedIsPassed(more, x.frame);
    if LatchedBy(env, p, x).Some? {
      hide Conserved;
      StartedConserved(env, more, LatchedBy(env, p, x).value);
    } else if x.frame.channels == |x.speakers| {
      AtMostHeld(SensedFrame(env, Readied(p.sensing, x.speakers), x.lossless).0, x.speakers);
    }
  }

  /** What is released is what was held, each frame as it is. */
  lemma ReleasedIsPassed(held: seq<Held>, f: Frame)
    ensures Released(held) == Passed(FramesOf(held))
    ensures Released(held) + [AsIs(f)] == Passed(FramesOf(held) + [f])
  {
  }

  lemma AtMostHeld(s: Detector.Sensing, speakers: seq<nat>)
    ensures Limit(s, speakers) <= HOLD_LIMIT
  {
  }

  lemma StartedConserved(env: Env, held: seq<Held>, a: Latch.Announcement)
    requires held != [] && FairStart(env, held, a)
    ensures var r := Started(env, held, a); r.Some? && Conserved(r.value.0, r.value.1, FramesOf(held))
  {
    hide Replayed, InRange, WideEnough, Shaped;
    assert Released(held) == Passed(FramesOf(held));
    if env.streams(a.config).Some? {
      InRangeExactly(held);
      var u := Opened(held[0].speakers, a.blockSize, env.streams(a.config).value);
      ReplayedLevel(env, u, held);
    }
  }

  lemma EvenlyFedOn(u: Progress, x: Input, t: nat)
    requires |u.fed| == |u.carriers| && EvenlyFed(u.carriers, x) && forall c | 0 <= c < |u.fed| :: |u.fed[c]| == t
    ensures forall c | 0 <= c < |u.fed| :: |FedFrame(u.carriers, u.fed, x.lossless)[c]| == t + x.frame.samples
  {
    hide FedFrame;
    FedAdds(u.carriers, u.fed, Nothing(|u.carriers|), x.lossless);
    forall c | 0 <= c < |u.fed|
      ensures |FedFrame(u.carriers, u.fed, x.lossless)[c]| == t + x.frame.samples
    {
      assert FedFrame(u.carriers, u.fed, x.lossless)[c] == u.fed[c] + Brought(u.carriers, x.lossless)[c];
    }
  }

  lemma UnfoldedConserved(env: Env, u: Progress, outs: seq<Out>, frames: seq<Frame>, x: Input)
    requires Conserved(Unfolding(u), outs, frames) && EvenlyFed(u.carriers, x)
    ensures var r := Routed(env, Unfolding(u), x);
            r.Some? && Conserved(r.value.0, outs + r.value.1, frames + [x.frame])
  {
    hide FedFrame, Drained, FrontierOf, Pcm, Total, Emitted, AllUnfolded, EvenlyFed;
    var fed := FedFrame(u.carriers, u.fed, x.lossless);
    EvenlyFedOn(u, x, Total(frames));
    DrainedLevel(env, u, fed, Total(frames), x.frame.samples);
    var (next, more) := Drained(env, u.(fed := fed));
    TotalSnoc(frames, x.frame);
    EmittedConcat(outs, more);
    BothUnfolded(outs, more);
  }

  lemma RuledOutConserved(p: Phase, outs: seq<Out>, frames: seq<Frame>)
    requires Conserved(p, outs, frames)
    ensures var (next, more) := RuledOut(p); Conserved(next, outs + more, frames)
  {
    var more := RuledOut(p).1;
    if p.Undecided? {
      assert outs + more == more && more == Passed(frames);
    } else {
      assert outs + more == outs;
    }
  }

  /** Samples are neither lost nor made up, whatever the stage decides, and it does
      not panic. */
  lemma {:induction false} RunsConserve(env: Env, events: seq<Event>)
    requires Fair(env, events)
    ensures var (p, outs) := Run(env, events); Conserved(p, outs, InputFrames(events))
  {
    if events != [] {
      hide Routed, Conserved, FairEvent, Able;
      var front, e := events[..|events| - 1], events[|events| - 1];
      RunsConserve(env, front);
      var (p, outs) := Run(env, front);
      if e.Route? {
        RoutedConserved(env, p, outs, InputFrames(front), e.x);
      } else {
        RuledOutConserved(p, outs, InputFrames(front));
        assert InputFrames(front) + [] == InputFrames(front);
      }
    } else {
      assert FramesOf([]) == [];
    }
  }

  /** A decision stands: nothing but a reset leaves either decided phase. */
  lemma {:induction false} DecisionsStand(env: Env, events: seq<Event>, more: seq<Event>)
    requires !Run(env, events).0.Undecided?
    ensures var p, q := Run(env, events).0, Run(env, events + more).0;
            && (p.Plain? ==> q.Plain?)
            && (p.Unfolding? ==> q.Unfolding? && q.u.carriers == p.u.carriers && q.u.latency == p.u.latency)
  {
    if more == [] {
      assert events + more == events;
    } else {
      hide Handled;
      var front := more[..|more| - 1];
      DecisionsStand(env, events, front);
      assert (events + more)[..|events + more| - 1] == events + front;
      DecisionStands(env, Run(env, events + front).0, more[|more| - 1]);
    }
  }

  lemma DecisionStands(env: Env, p: Phase, e: Event)
    requires Able(p) && !p.Undecided?
    ensures var q := Handled(env, p, e).0;
            && (p.Plain? ==> q.Plain?)
            && (p.Unfolding? ==> q.Unfolding? && q.u.carriers == p.u.carriers && q.u.latency == p.u.latency)
  {
    hide FedFrame, Pcm, FrontierOf;
  }

  /** A frame short enough never overruns the unfolder's rings. */
  lemma RingsHaveRoom(env: Env, events: seq<Event>, n: nat)
    requires Fair(env, events) && Run(env, events).0.Unfolding? && n <= RING - LATENCY
    ensures var u := Run(env, events).0.u; forall c | 0 <= c < |u.fed| :: |u.fed[c]| + n <= u.released + RING
  {
    hide Run, Fair, FrontierOf, InputFrames, Emitted;
    RunsConserve(env, events);
  }

  // ---- what comes out is what was fed

  /** What covers the blocks of more samples covers those of any part of them. */
  lemma CoversPart(amplify: Amplify, least: seq<i32>, a: seq<i32>, b: seq<i32>, all: seq<i32>, latency: nat)
    requires least <= a <= b <= all && Chain.LatencyCovers(Track.BlockParser(), amplify, least, all, latency)
    ensures Chain.LatencyCovers(Track.BlockParser(), amplify, a, b, latency)
  {
    hide Track.BlockParser, Carrier.CarrierBlocks;
    Track.BlockParserIsLawful();
    Carrier.CarrierBlocksGrow(Track.BlockParser(), amplify, least, a);
    Carrier.CarrierBlocksGrow(Track.BlockParser(), amplify, a, b);
    Carrier.CarrierBlocksGrow(Track.BlockParser(), amplify, b, all);
    var none, now, last := Carrier.CarrierBlocks(Track.BlockParser(), amplify, least),
                           Carrier.CarrierBlocks(Track.BlockParser(), amplify, b),
                           Carrier.CarrierBlocks(Track.BlockParser(), amplify, all);
    assert |none| <= |Carrier.CarrierBlocks(Track.BlockParser(), amplify, a)|;
    forall k | |Carrier.CarrierBlocks(Track.BlockParser(), amplify, a)| <= k < |now|
      ensures Covered(now[k].size, latency)
    {
      assert now[k] == last[k];
    }
  }

  /** Every block that the carriers' samples come to is one the latency covers. */
  ghost predicate AllCovered(env: Env, fed: seq<seq<i32>>, latency: nat) {
    forall c | 0 <= c < |fed| :: Chain.LatencyCovers(Track.BlockParser(), env.amplify, [], fed[c], latency)
  }

  ghost predicate Extends(fed: seq<seq<i32>>, more: seq<seq<i32>>) {
    |fed| == |more| && forall c | 0 <= c < |fed| :: fed[c] <= more[c]
  }

  lemma GrownWithin(env: Env, fed: seq<seq<i32>>, more: seq<seq<i32>>, latency: nat)
    requires Extends(fed, more) && AllCovered(env, more, latency)
    ensures Heard.Grown(Track.BlockParser(), env.amplify, fed, more, latency) && AllCovered(env, fed, latency)
  {
    hide Chain.LatencyCovers, Track.BlockParser;
    forall c | 0 <= c < |fed|
      ensures Heard.GrownIn(Track.BlockParser(), env.amplify, fed[c], more[c], latency)
      ensures Chain.LatencyCovers(Track.BlockParser(), env.amplify, [], fed[c], latency)
    {
      CoversPart(env.amplify, [], fed[c], more[c], more[c], latency);
      CoversPart(env.amplify, [], [], fed[c], more[c], latency);
    }
  }

  /** What has gone out is what the carriers sound like, up to there. */
  ghost predicate Heeded(env: Env, u: Progress, outs: seq<Out>)
    requires Sound(u)
  {
    PcmOf(outs) == Pcm(env, u, 0, u.released)
  }

  lemma PcmOfNone(env: Env, u: Progress, from: nat)
    requires Sound(u) && from <= FrontierOf(Positions(u.fed), u.latency)
    ensures Pcm(env, u, from, 0) == []
  {
    Track.BlockParserIsLawful();
    WithinFed(u, from);
    Heard.FramesOfNone(Track.BlockParser(), env.amplify, IdsOf(u.carriers), u.outputs, u.fed, from);
  }

  /** What was out stays as it was, and the rest follows it. */
  lemma PcmGrows(env: Env, u: Progress, fed: seq<seq<i32>>, t: nat, end: nat)
    requires Sound(u) && Level(u, t) && Sound(u.(fed := fed)) && |u.carriers| <= 17
    requires Heard.Grown(Track.BlockParser(), env.amplify, u.fed, fed, u.latency)
    requires u.released <= end <= FrontierOf(Positions(fed), u.latency)
    ensures var v := u.(fed := fed);
            Pcm(env, v, 0, end) == Pcm(env, u, 0, u.released) + Pcm(env, v, u.released, end - u.released)
  {
    hide Heard.FramesOf, Heard.GrownIn, Track.BlockParser, FrontierOf;
    var v := u.(fed := fed);
    Track.BlockParserIsLawful();
    WithinFed(v, end);
    WithinFed(u, u.released);
    Heard.FramesGrow(Track.BlockParser(), env.amplify, IdsOf(u.carriers), u.outputs, u.fed, fed, u.latency,
                     u.released, end);
  }

  /** What was released does not change what the carriers sound like. */
  lemma PcmAlike(env: Env, u: Progress, released: nat, from: nat, n: nat)
    requires Sound(u) && Sound(u.(released := released)) && from + n <= FrontierOf(Positions(u.fed), u.latency)
    ensures Pcm(env, u.(released := released), from, n) == Pcm(env, u, from, n)
  {
  }

  lemma DrainedHeeded(env: Env, u: Progress, outs: seq<Out>, fed: seq<seq<i32>>, t: nat, n: nat)
    requires Sound(u) && Level(u, t) && Heeded(env, u, outs) && |u.carriers| <= 17
    requires Extends(u.fed, fed) && AllCovered(env, fed, u.latency) && forall c | 0 <= c < |fed| :: |fed[c]| == t + n
    ensures Sound(u.(fed := fed))
    ensures var (next, more) := Drained(env, u.(fed := fed)); Sound(next) && Heeded(env, next, outs + more)
  {
    hide Pcm, FrontierOf, AllCovered, Heard.Grown;
    DrainedLevel(env, u, fed, t, n);
    PcmOfNone(env, u.(fed := fed), u.released);
    GrownWithin(env, u.fed, fed, u.latency);
    var (next, more) := Drained(env, u.(fed := fed));
    LevelFrontier(fed, t + n, u.latency);
    PcmGrows(env, u, fed, t, next.released);
    OneMore(outs, more);
    PcmAlike(env, u.(fed := fed), next.released, 0, next.released);
  }

  /** A replay feeds the carriers the frames' columns, whoever speaks in them. */
  lemma {:induction false} ReplayedFeeds(env: Env, u: Progress, held: seq<Held>)
    requires Sound(u) && u.fed == Nothing(|u.carriers|)
    ensures Replayed(env, u, held).0.fed == ColumnsOf(|u.carriers|, FramesOf(held))
  {
    if held == [] {
      assert FramesOf(held) == [];
    } else {
      hide *;
      var front, h := held[..|held| - 1], held[|held| - 1];
      assert held == front + [h];
      ReplayedFeeds(env, u, front);
      FramesOfSnoc(front, h);
      ColumnsSnoc(|u.carriers|, FramesOf(front), h.frame);
      ReplayedSnoc(env, u, front, h);
      DrainingFeedsNone(env, Replayed(env, u, front).0, h.frame);
    }
  }

  lemma DrainingFeedsNone(env: Env, u: Progress, f: Frame)
    requires Sound(u.(fed := FedColumns(u.fed, f)))
    ensures Drained(env, u.(fed := FedColumns(u.fed, f))).0.fed == FedColumns(u.fed, f)
  {
  }

  lemma ColumnsSnoc(columns: nat, frames: seq<Frame>, f: Frame)
    ensures ColumnsOf(columns, frames + [f]) == FedColumns(ColumnsOf(columns, frames), f)
  {
    assert (frames + [f])[..|frames|] == frames;
  }

  /** So the carriers are named by the first held frame alone: a later one with
      other speakers is fed under the first one's names, column by column. */
  lemma FirstFrameNames(env: Env, held: seq<Held>, a: Latch.Announcement)
    requires held != [] && Started(env, held, a).Some? && Started(env, held, a).value.0.Unfolding?
    ensures var u := Started(env, held, a).value.0.u;
            u.carriers == held[0].speakers && u.fed == ColumnsOf(|held[0].speakers|, FramesOf(held))
  {
    hide Replayed, InRange;
    ReplayedFeeds(env, Opened(held[0].speakers, a.blockSize, env.streams(a.config).value), held);
  }

  lemma {:induction false} ReplayedHeeded(env: Env, u: Progress, held: seq<Held>)
    requires Sound(u) && Level(u, 0) && u.fed == Nothing(|u.carriers|) && |u.carriers| <= 17
    requires AllCovered(env, ColumnsOf(|u.carriers|, FramesOf(held)), u.latency)
    ensures var (next, outs) := Replayed(env, u, held); Heeded(env, next, outs)
  {
    hide *;
    if held == [] {
      ReplayOfNone(env, u);
      NothingHeeded(env, u);
    } else {
      var front, h := held[..|held| - 1], held[|held| - 1];
      var (v, outs) := Replayed(env, u, front);
      assert held == front + [h];
      ReplayedFeeds(env, u, front);
      FramesOfSnoc(front, h);
      ColumnsSnoc(|u.carriers|, FramesOf(front), h.frame);
      FedColumnsExtends(v.fed, h.frame);
      GrownWithin(env, v.fed, FedColumns(v.fed, h.frame), u.latency);
      ReplayedHeeded(env, u, front);
      ReplayedLevel(env, u, front);
      ReplayedSnoc(env, u, front, h);
      ColumnHeeded(env, v, outs, FramesOf(front), h.frame);
    }
  }

  lemma NothingHeeded(env: Env, u: Progress)
    requires Sound(u) && Level(u, 0)
    ensures Heeded(env, u, [])
  {
    PcmOfNone(env, u, 0);
  }

  lemma FedColumnsExtends(fed: seq<seq<i32>>, f: Frame)
    ensures Extends(fed, FedColumns(fed, f))
  {
  }

  lemma ColumnHeeded(env: Env, u: Progress, outs: seq<Out>, frames: seq<Frame>, f: Frame)
    requires Sound(u) && Replaying(u, outs, frames) && Heeded(env, u, outs) && |u.carriers| <= 17
    requires AllCovered(env, FedColumns(u.fed, f), u.latency) && Sound(u.(fed := FedColumns(u.fed, f)))
    ensures var (next, more) := Drained(env, u.(fed := FedColumns(u.fed, f)));
            Sound(next) && Heeded(env, next, outs + more)
  {
    hide AllCovered, Heeded, Drained, FedColumns, Sound;
    ColumnsLevel(u, f, Total(frames));
    FedColumnsExtends(u.fed, f);
    DrainedHeeded(env, u, outs, FedColumns(u.fed, f), Total(frames), f.samples);
  }

  // ---- holding and replaying changes nothing

  ghost predicate Distinct(s: seq<nat>) {
    forall i, j | 0 <= i < j < |s| :: s[i] != s[j]
  }

  /** A frame's lossless samples as it has them itself, channel by channel. */
  function Bed(speakers: seq<nat>, f: Frame): (r: seq<(nat, seq<i32>)>)
    ensures |r| == |speakers|
  {
    seq(|speakers|, c requires 0 <= c < |speakers| => (speakers[c], Column(f, c)))
  }

  /** Frames of one layout, each with the lossless bed as its channels. */
  predicate SteadyEvent(speakers: seq<nat>, e: Event) {
    e.Route? ==>
      && e.x.speakers == speakers && Shaped(e.x.frame) && e.x.frame.channels == |speakers|
      && e.x.lossless == Bed(speakers, e.x.frame)
  }

  ghost predicate Steady(speakers: seq<nat>, events: seq<Event>) {
    forall i | 0 <= i < |events| :: SteadyEvent(speakers, events[i])
  }

  lemma {:induction false} IndexOfOwn(carriers: seq<nat>, c: nat)
    requires Distinct(carriers) && c < |carriers|
    ensures IndexOf(carriers, carriers[c]) == Some(c)
  {
    if c > 0 {
      assert carriers[1..][c - 1] == carriers[c];
      IndexOfOwn(carriers[1..], c - 1);
    }
  }

  /** One speaker's samples more, to its own carrier. */
  lemma BedSnoc(carriers: seq<nat>, fed: seq<seq<i32>>, f: Frame, n: nat)
    requires Distinct(carriers) && |fed| == |carriers| && n < |carriers|
    ensures FedFrame(carriers, fed, Bed(carriers, f)[..n + 1])
         == Fed(FedFrame(carriers, fed, Bed(carriers, f)[..n]), n, Column(f, n))
  {
    hide Column, Distinct, Fed, FedFrame, IndexOf;
    var bed := Bed(carriers, f);
    assert bed[..n + 1] == bed[..n] + [(carriers[n], Column(f, n))];
    IndexOfOwn(carriers, n);
    FedFrameSnoc(carriers, fed, bed[..n], carriers[n], Column(f, n));
  }

  lemma FedFrameSnoc(carriers: seq<nat>, fed: seq<seq<i32>>, front: seq<(nat, seq<i32>)>, speaker: nat,
                     samples: seq<i32>)
    requires |fed| == |carriers|
    ensures var was, i := FedFrame(carriers, fed, front), IndexOf(carriers, speaker);
            FedFrame(carriers, fed, front + [(speaker, samples)]) == if i.None? then was else Fed(was, i.value, samples)
  {
    hide Fed, IndexOf;
    assert (front + [(speaker, samples)])[..|front|] == front;
  }

  /** The first so many of them, each to its own carrier. */
  lemma {:induction false} BedFeeds(carriers: seq<nat>, fed: seq<seq<i32>>, f: Frame, n: nat)
    requires Distinct(carriers) && |fed| == |carriers| && n <= |carriers|
    ensures forall c | 0 <= c < |fed| ::
      FedFrame(carriers, fed, Bed(carriers, f)[..n])[c] == if c < n then fed[c] + Column(f, c) else fed[c]
  {
    if n == 0 {
      assert Bed(carriers, f)[..0] == [];
    } else {
      hide Column, Distinct, FedFrame, Bed;
      BedFeeds(carriers, fed, f, n - 1);
      BedSnoc(carriers, fed, f, n - 1);
    }
  }

  lemma BedFeedsAll(carriers: seq<nat>, fed: seq<seq<i32>>, f: Frame)
    requires Distinct(carriers) && |fed| == |carriers|
    ensures FedFrame(carriers, fed, Bed(carriers, f)) == FedColumns(fed, f)
  {
    hide Column, FedFrame, Distinct;
    BedFeeds(carriers, fed, f, |carriers|);
    assert Bed(carriers, f)[..|carriers|] == Bed(carriers, f);
  }

  /** Whatever was held, the carriers were fed the columns of all frames. */
  ghost predicate SteadyPhase(speakers: seq<nat>, p: Phase, frames: seq<Frame>) {
    match p
    case Undecided(_, held, _) =>
      && FramesOf(held) == frames
      && forall i | 0 <= i < |held| ::
           held[i].speakers == speakers && Shaped(held[i].frame) && held[i].frame.channels == |speakers|
    case Unfolding(u) => u.carriers == speakers && u.fed == ColumnsOf(|speakers|, frames)
    case Plain => true
  }

  /** No layout's list of streams is empty. */
  ghost predicate SomeStreams(env: Env) {
    forall config: nat :: env.streams(config) != Some([])
  }

  lemma SteadyStep(env: Env, speakers: seq<nat>, p: Phase, frames: seq<Frame>, x: Input)
    requires Distinct(speakers) && speakers != [] && SomeStreams(env)
    requires Able(p) && SteadyPhase(speakers, p, frames) && SteadyEvent(speakers, Route(x))
    ensures FairEvent(env, p, Route(x))
    ensures var r := Routed(env, p, x); r.Some? ==> SteadyPhase(speakers, r.value.0, frames + [x.frame])
  {
    hide Distinct, SomeStreams, SteadyEvent, FairEvent, Routed, SteadyPhase;
    if p.Unfolding? {
      SteadyFeed(env, speakers, p.u, frames, x);
    } else if p.Undecided? {
      SteadyStart(env, speakers, p, frames, x);
    } else {
      PlainIsSteady(env, speakers, frames + [x.frame], x);
    }
  }

  lemma PlainIsSteady(env: Env, speakers: seq<nat>, frames: seq<Frame>, x: Input)
    ensures FairEvent(env, Plain, Route(x))
    ensures var r := Routed(env, Plain, x); r.Some? && SteadyPhase(speakers, r.value.0, frames)
  {
  }

  lemma SteadyFeed(env: Env, speakers: seq<nat>, u: Progress, frames: seq<Frame>, x: Input)
    requires Distinct(speakers) && Sound(u) && SteadyPhase(speakers, Unfolding(u), frames)
    requires SteadyEvent(speakers, Route(x))
    ensures FairEvent(env, Unfolding(u), Route(x))
    ensures var r := Routed(env, Unfolding(u), x); r.Some? && SteadyPhase(speakers, r.value.0, frames + [x.frame])
  {
    hide FedFrame, FedColumns, Bed, Distinct, Routed;
    BedFeedsAll(speakers, u.fed, x.frame);
    BedFeedsAll(speakers, Nothing(|speakers|), x.frame);
    SteadyIsEven(speakers, x);
    ColumnsSnoc(|speakers|, frames, x.frame);
    RoutedExtends(env, u, x);
  }

  lemma SteadyStart(env: Env, speakers: seq<nat>, p: Phase, frames: seq<Frame>, x: Input)
    requires speakers != [] && SomeStreams(env) && p.Undecided? && SteadyPhase(speakers, p, frames)
    requires SteadyEvent(speakers, Route(x))
    ensures FairEvent(env, p, Route(x))
    ensures var r := Routed(env, p, x); r.Some? ==> SteadyPhase(speakers, r.value.0, frames + [x.frame])
  {
    hide SensedFrame, Readied, Started, Limit, Shaped, Bed;
    var more := p.held + [Held(x.frame, x.speakers)];
    FramesOfSnoc(p.held, Held(x.frame, x.speakers));
    assert more[0].speakers == speakers;
    if LatchedBy(env, p, x).Some? {
      SteadyOpens(env, speakers, more, LatchedBy(env, p, x).value);
    }
  }

  lemma SteadyOpens(env: Env, speakers: seq<nat>, held: seq<Held>, a: Latch.Announcement)
    requires held != [] && held[0].speakers == speakers
    ensures Started(env, held, a).Some? ==> SteadyPhase(speakers, Started(env, held, a).value.0, FramesOf(held))
  {
    hide Replayed, InRange;
    if Started(env, held, a).Some? && Started(env, held, a).value.0.Unfolding? {
      FirstFrameNames(env, held, a);
    }
  }

  lemma SteadyIsEven(speakers: seq<nat>, x: Input)
    requires FedFrame(speakers, Nothing(|speakers|), x.lossless) == FedColumns(Nothing(|speakers|), x.frame)
    ensures EvenlyFed(speakers, x)
  {
  }

  /** Such runs are fair, and the unfolder is fed all of every frame. */
  lemma {:induction false} SteadyRuns(env: Env, speakers: seq<nat>, events: seq<Event>)
    requires Distinct(speakers) && speakers != [] && SomeStreams(env) && Steady(speakers, events)
    ensures Fair(env, events) && SteadyPhase(speakers, Run(env, events).0, InputFrames(events))
  {
    if events == [] {
      assert FramesOf([]) == [];
    } else {
      hide Routed, FairEvent, Distinct, SomeStreams, SteadyEvent, Able;
      var front, e := events[..|events| - 1], events[|events| - 1];
      SteadyRuns(env, speakers, front);
      assert SteadyEvent(speakers, e);
      var p := Run(env, front).0;
      if e.Route? {
        SteadyStep(env, speakers, p, InputFrames(front), e.x);
        RunsConserve(env, front);
        RoutedConserved(env, p, Run(env, front).1, InputFrames(front), e.x);
      } else {
        NothingUnfair(env, p);
        assert InputFrames(front) + [] == InputFrames(front);
      }
    }
  }

  lemma NothingUnfair(env: Env, p: Phase)
    ensures FairEvent(env, p, NoLossless)
  {
  }

  /** What comes out of any fair run is what its carriers' samples sound like, as
      long as the latency covers their blocks. */
  lemma {:induction false} RunsHeeded(env: Env, events: seq<Event>)
    requires Fair(env, events) && Run(env, events).0.Unfolding?
    requires var u := Run(env, events).0.u; |u.carriers| <= 17 && AllCovered(env, u.fed, u.latency)
    ensures Heeded(env, Run(env, events).0.u, Run(env, events).1)
  {
    hide Routed, FairEvent, AllCovered, Heeded, Conserved, RuledOut, FrontierOf;
    var front, e := events[..|events| - 1], events[|events| - 1];
    var (p, outs) := Run(env, front);
    RunsConserve(env, front);
    if e.NoLossless? {
      PassedBy(p, outs);
      RunsHeeded(env, front);
    } else if p.Unfolding? {
      RoutedExtends(env, p.u, e.x);
      GrownWithin(env, p.u.fed, FedFrame(p.u.carriers, p.u.fed, e.x.lossless), p.u.latency);
      RunsHeeded(env, front);
      RoutedHeeded(env, p.u, outs, InputFrames(front), e.x);
    } else {
      StartHeeded(env, p, outs, InputFrames(front), e.x);
    }
  }

  lemma PassedBy(p: Phase, outs: seq<Out>)
    requires RuledOut(p).0.Unfolding?
    ensures RuledOut(p).0 == p && outs + RuledOut(p).1 == outs
  {
  }

  lemma RoutedExtends(env: Env, u: Progress, x: Input)
    requires Sound(u)
    ensures Extends(u.fed, FedFrame(u.carriers, u.fed, x.lossless))
    ensures var r := Routed(env, Unfolding(u), x);
            && r.Some? && r.value.0.Unfolding? && r.value.0.u.fed == FedFrame(u.carriers, u.fed, x.lossless)
            && r.value.0.u.latency == u.latency && r.value.0.u.carriers == u.carriers
  {
    hide FedFrame;
    FedForward(u.carriers, u.fed, x.lossless);
  }

  lemma RoutedHeeded(env: Env, u: Progress, outs: seq<Out>, frames: seq<Frame>, x: Input)
    requires Conserved(Unfolding(u), outs, frames) && FairEvent(env, Unfolding(u), Route(x)) && Heeded(env, u, outs)
    requires |u.carriers| <= 17 && AllCovered(env, FedFrame(u.carriers, u.fed, x.lossless), u.latency)
    ensures var r := Routed(env, Unfolding(u), x);
            r.Some? && r.value.0.Unfolding? && Heeded(env, r.value.0.u, outs + r.value.1)
  {
    hide FedFrame, Drained, AllCovered, Heeded;
    var fed := FedFrame(u.carriers, u.fed, x.lossless);
    RoutedExtends(env, u, x);
    EvenlyFedOn(u, x, Total(frames));
    DrainedHeeded(env, u, outs, fed, Total(frames), x.frame.samples);
  }

  lemma StartHeeded(env: Env, p: Phase, outs: seq<Out>, frames: seq<Frame>, x: Input)
    requires Able(p) && !p.Unfolding? && Conserved(p, outs, frames) && FairEvent(env, p, Route(x))
    requires var r := Routed(env, p, x);
             && r.Some? && r.value.0.Unfolding? && |r.value.0.u.carriers| <= 17
             && AllCovered(env, r.value.0.u.fed, r.value.0.u.latency)
    ensures Heeded(env, Routed(env, p, x).value.0.u, outs + Routed(env, p, x).value.1)
  {
    hide SensedFrame, Readied, InRange, Replayed, Limit, AllCovered, Heeded, FairEvent, Conserved;
    var more, a := p.held + [Held(x.frame, x.speakers)], LatchedBy(env, p, x).value;
    assert p.Undecided? && Routed(env, p, x) == Started(env, more, a);
    FirstFrameNames(env, more, a);
    assert outs == [] by {
      HeldBack(p, outs, frames);
    }
    assert outs + Routed(env, p, x).value.1 == Routed(env, p, x).value.1;
    StartIsFair(env, p, x);
    StartedHeeded(env, more, a);
  }

  lemma HeldBack(p: Phase, outs: seq<Out>, frames: seq<Frame>)
    requires p.Undecided? && Conserved(p, outs, frames)
    ensures outs == []
  {
  }

  lemma StartIsFair(env: Env, p: Phase, x: Input)
    requires p.Undecided? && FairEvent(env, p, Route(x)) && LatchedBy(env, p, x).Some?
    ensures FairStart(env, p.held + [Held(x.frame, x.speakers)], LatchedBy(env, p, x).value)
  {
  }

  lemma StartedHeeded(env: Env, held: seq<Held>, a: Latch.Announcement)
    requires held != [] && FairStart(env, held, a) && env.streams(a.config).Some?
    requires Started(env, held, a).Some? && |held[0].speakers| <= 17
    requires AllCovered(env, ColumnsOf(|held[0].speakers|, FramesOf(held)), Min(a.blockSize, LATENCY))
    ensures var (p, outs) := Started(env, held, a).value; p.Unfolding? && Heeded(env, p.u, outs)
  {
    hide Replayed, InRange, AllCovered, Heeded;
    ReplayedHeeded(env, Opened(held[0].speakers, a.blockSize, env.streams(a.config).value), held);
  }

  /** Holding frames back until the carrier is confirmed, and replaying them then,
      changes nothing that is heard: what comes out is what an unfolder gives for
      the samples of all frames, whenever the confirmation came. */
  lemma HoldingChangesNothing(env: Env, speakers: seq<nat>, events: seq<Event>)
    requires Distinct(speakers) && 0 < |speakers| <= 17 && SomeStreams(env) && Steady(speakers, events)
    requires Run(env, events).0.Unfolding?
    requires AllCovered(env, ColumnsOf(|speakers|, InputFrames(events)), Run(env, events).0.u.latency)
    ensures Fair(env, events)
    ensures var (p, outs), fed := Run(env, events), ColumnsOf(|speakers|, InputFrames(events));
            var n := Max(0, Total(InputFrames(events)) - p.u.latency);
            && p.u == Progress(speakers, fed, n, p.u.latency, p.u.outputs)
            && Emitted(outs) == n && Heeded(env, p.u, outs)
  {
    hide Fair, Steady, Distinct, SomeStreams, AllCovered, Run, FrontierOf, ColumnsOf, InputFrames, Emitted, PcmOf,
      AllUnfolded, Pcm;
    SteadyRuns(env, speakers, events);
    RunsConserve(env, events);
    RunsHeeded(env, events);
  }
}
