/** The Auro-3D stage itself: a detector over all channels while undecided, an
    unfolder once a carrier is confirmed. */
module AuroPipeline {
  import opened Bytes
  import opened AuroRuns
  import opened AuroStage
  import opened AuroFeeding
  import opened AuroUnfold
  import Chain = AuroChain
  import Detector = AuroDetector
  import Latch = AuroLatch
  import Track = AuroTrack

  datatype Stage =
    | Deciding(detector: Detector.Detector, held: seq<Held>, heldSamples: nat)
    | Running(unfolder: Chain.CarrierUnfolder, carriers: seq<nat>, outputs: seq<nat>)
    | Passing

  /** The detector has heard what `s` says. */
  ghost predicate DetectorIs(d: Detector.Detector, env: Env, s: Detector.Sensing)
    reads d, d.Repr
  {
    d.Valid() && d.p == Track.BlockParser() && d.known == env.known && d.sensing == s
  }

  // ---- detecting

  method NewDetector(env: Env, n: nat) returns (d: Detector.Detector)
    ensures fresh(d) && fresh(d.Repr) && DetectorIs(d, env, Detector.Sensing(seq(n, _ => []), []))
  {
    d := new Detector.Detector(n, env.known);
  }

  /** The detector, with a channel for every speaker once there is one. */
  method ReadyDetector(d: Detector.Detector, env: Env, ghost s: Detector.Sensing, speakers: seq<nat>)
    returns (now: Detector.Detector)
    requires DetectorIs(d, env, s)
    ensures DetectorIs(now, env, Readied(s, speakers))
    ensures now == d || (fresh(now) && fresh(now.Repr))
  {
    if |d.channels| > 0 {
      return d;
    }
    now := NewDetector(env, Channels(speakers));
  }

  method Hear(d: Detector.Detector, env: Env, ghost s: Detector.Sensing, speaker: nat, samples: seq<i32>)
    returns (r: Option<Latch.Announcement>)
    requires DetectorIs(d, env, s)
    modifies d.Repr
    ensures DetectorIs(d, env, Detector.Sensed(Track.BlockParser(), env.known, s, speaker, samples))
    ensures r == Detector.Latches(s, Detector.Sensed(Track.BlockParser(), env.known, s, speaker, samples))
  {
    hide Detector.Detector.Valid, Detector.Sensed, Detector.Latches, Track.BlockParser;
    r := d.Push(speaker, samples);
  }

  /** A frame's lossless samples; what latched last. */
  method HearAll(d: Detector.Detector, env: Env, ghost s: Detector.Sensing, lossless: seq<(nat, seq<i32>)>)
    returns (latched: Option<Latch.Announcement>)
    requires DetectorIs(d, env, s)
    modifies d.Repr
    ensures DetectorIs(d, env, SensedFrame(env, s, lossless).0) && latched == SensedFrame(env, s, lossless).1
  {
    hide DetectorIs, Detector.Sensed, Detector.Latches, Track.BlockParser;
    latched := None;
    for i := 0 to |lossless|
      invariant DetectorIs(d, env, SensedFrame(env, s, lossless[..i]).0)
      invariant latched == SensedFrame(env, s, lossless[..i]).1
    {
      assert lossless[..i + 1][..i] == lossless[..i];
      var r := Hear(d, env, SensedFrame(env, s, lossless[..i]).0, lossless[i].0, lossless[i].1);
      if r.Some? {
        latched := r;
      }
    }
    assert lossless[..|lossless|] == lossless;
  }

  method HoldLimit(d: Detector.Detector, env: Env, ghost s: Detector.Sensing, speakers: seq<nat>) returns (n: nat)
    requires DetectorIs(d, env, s)
    ensures n == Limit(s, speakers)
  {
    var any := d.HasValidBlock(speakers);
    n := if any then HOLD_LIMIT else NO_BLOCK_LIMIT;
  }

  method GiveUp(held: seq<Held>) returns (out: seq<Out>)
    ensures out == Released(held)
  {
    out := [];
    for i := 0 to |held|
      invariant out == Released(held)[..i]
    {
      out := out + [AsIs(held[i].frame)];
    }
  }

  // ---- starting to unfold

  /** A replay the unfolder can take: of at most seventeen carriers. */
  ghost predicate AcceptsStart(env: Env, held: seq<Held>, a: Latch.Announcement)
    requires held != []
  {
    env.streams(a.config).Some? ==>
      && |held[0].speakers| <= 17
      && Replayable(env, Opened(held[0].speakers, a.blockSize, env.streams(a.config).value), held)
  }

  /** An unfolder with everything held played into it, and what came out of it; none
      when the layout has no known streams. `None`: a column was read past the end
      of a held frame. */
  datatype Opening = NoLayout | Fresh(unfolder: Chain.CarrierUnfolder, outputs: seq<nat>)

  method StartUnfolding(env: Env, held: seq<Held>, a: Latch.Announcement) returns (o: Opening, out: Option<seq<Out>>)
    requires held != [] && AcceptsStart(env, held, a)
    ensures out.Some? <==> Started(env, held, a).Some?
    ensures out.Some? ==> out.value == Started(env, held, a).value.1
    ensures out.Some? && o.NoLayout? ==> Started(env, held, a).value.0 == Plain
    ensures out.Some? && o.Fresh? ==>
      var p := Started(env, held, a).value.0;
      && p.Unfolding? && p.u.carriers == held[0].speakers && p.u.outputs == o.outputs
      && fresh(o.unfolder) && fresh(o.unfolder.Storage()) && UnfolderIs(o.unfolder, env, p.u)
  {
    hide UnfolderIs, Replayable, Replayed, Readable, Opened;
    var streams := env.streams(a.config);
    if streams.None? {
      o := NoLayout;
      var all := GiveUp(held);
      out := Some(all);
      return;
    }
    var x := Open(env, env.amplify, held[0].speakers, a.blockSize, streams.value);
    OpenedFor(held[0].speakers, a.blockSize, streams.value);
    out := ReplayAll(x, env, Opened(held[0].speakers, a.blockSize, streams.value), held, streams.value);
    o := Fresh(x, streams.value);
  }

  lemma OpenedFor(speakers: seq<nat>, blockSize: nat, outputs: seq<nat>)
    ensures Opened(speakers, blockSize, outputs).carriers == speakers
    ensures Opened(speakers, blockSize, outputs).outputs == outputs
  {
  }

  lemma DrainingKeeps(env: Env, u: Progress)
    requires Sound(u)
    ensures var v := Drained(env, u).0;
            Sound(v) && v.carriers == u.carriers && v.outputs == u.outputs && v.fed == u.fed
  {
    hide Pcm, FrontierOf;
  }

  lemma StartedIsSound(env: Env, held: seq<Held>, a: Latch.Announcement)
    requires held != [] && Started(env, held, a).Some?
    ensures var p := Started(env, held, a).value.0;
            && Able(p)
            && (p.Plain? || (p.Unfolding? && p.u.carriers == held[0].speakers && env.streams(a.config).Some?))
  {
    hide Replayed;
  }

  /** What the stage can be given without overrunning the rings or delivering a block
      that its latency does not cover. */
  ghost predicate Accepts(env: Env, p: Phase, x: Input)
    requires Able(p)
  {
    match p
    case Plain => true
    case Unfolding(u) => |u.fed| == |u.carriers| && Handles(env, u, FedFrame(u.carriers, u.fed, x.lossless))
    case Undecided(_, held, _) =>
      LatchedBy(env, p, x).Some? ==>
        AcceptsStart(env, held + [Held(x.frame, x.speakers)], LatchedBy(env, p, x).value)
  }

  // ---- every fair run of short frames is accepted

  lemma {:induction false} ReplayableShort(env: Env, u: Progress, held: seq<Held>)
    requires Sound(u) && Level(u, 0) && u.fed == AuroStage.Nothing(|u.carriers|) && |u.carriers| <= 17
    requires forall f | f in FramesOf(held) :: f.samples <= RING - LATENCY
    requires AllCovered(env, ColumnsOf(|u.carriers|, FramesOf(held)), u.latency)
    ensures Replayable(env, u, held)
  {
    if held != [] {
      hide Sound, Level, AllCovered, Replayed, Handles, ColumnsOf, FedColumns, FramesOf;
      var front, h := held[..|held| - 1], held[|held| - 1];
      assert held == front + [h];
      FramesOfSnoc(front, h);
      var v := Replayed(env, u, front).0;
      ColumnsSnoc(|u.carriers|, FramesOf(front), h.frame);
      ReplayedFeeds(env, u, front);
      FedColumnsExtends(v.fed, h.frame);
      GrownWithin(env, v.fed, FedColumns(v.fed, h.frame), u.latency);
      ReplayableShort(env, u, front);
      ReplayedLevel(env, u, front);
      ColumnsHandled(env, v, h.frame, Total(FramesOf(front)));
    }
  }

  lemma ColumnsHandled(env: Env, u: Progress, f: Frame, t: nat)
    requires Level(u, t) && f.samples <= RING - LATENCY && |u.carriers| <= 17
    requires AllCovered(env, FedColumns(u.fed, f), u.latency)
    ensures Handles(env, u, FedColumns(u.fed, f))
  {
    hide AllCovered, Handles;
    ColumnsLevel(u, f, t);
    FedColumnsExtends(u.fed, f);
    HandlesShort(env, u, FedColumns(u.fed, f), t, f.samples);
  }

  /** The stage can be given whatever follows a fair run fairly, as long as the frames
      are short and the latency covers the blocks of what its carriers come to. */
  lemma ShortRunsAreAccepted(env: Env, events: seq<Event>, x: Input)
    requires Fair(env, events) && FairEvent(env, Run(env, events).0, Event.Route(x))
    requires x.frame.samples <= RING - LATENCY && forall f | f in InputFrames(events) :: f.samples <= RING - LATENCY
    requires var next := Handled(env, Run(env, events).0, Event.Route(x)).0;
             next.Unfolding? ==> |next.u.carriers| <= 17 && AllCovered(env, next.u.fed, next.u.latency)
    ensures Accepts(env, Run(env, events).0, x)
  {
    hide Routed, Handles, FairEvent, AllCovered, Fair, AcceptsStart, Run;
    var p := Run(env, events).0;
    RunsConserve(env, events);
    if p.Unfolding? {
      RoutedExtends(env, p.u, x);
      FedIsHandled(env, p.u, x, Total(InputFrames(events)));
    } else if p.Undecided? && LatchedBy(env, p, x).Some? {
      StartIsAccepted(env, p, x);
    }
  }

  lemma FedIsHandled(env: Env, u: Progress, x: Input, t: nat)
    requires Sound(u) && Level(u, t) && FairEvent(env, Unfolding(u), Event.Route(x)) && |u.carriers| <= 17
    requires x.frame.samples <= RING - LATENCY && AllCovered(env, FedFrame(u.carriers, u.fed, x.lossless), u.latency)
    ensures Handles(env, u, FedFrame(u.carriers, u.fed, x.lossless))
  {
    hide FedFrame, AllCovered, Handles;
    RoutedExtends(env, u, x);
    EvenlyFedOn(u, x, t);
    HandlesShort(env, u, FedFrame(u.carriers, u.fed, x.lossless), t, x.frame.samples);
  }

  lemma StartIsAccepted(env: Env, p: Phase, x: Input)
    requires p.Undecided? && FairEvent(env, p, Event.Route(x)) && LatchedBy(env, p, x).Some?
    requires x.frame.samples <= RING - LATENCY && forall f | f in FramesOf(p.held) :: f.samples <= RING - LATENCY
    requires var next := Handled(env, p, Event.Route(x)).0;
             next.Unfolding? ==> |next.u.carriers| <= 17 && AllCovered(env, next.u.fed, next.u.latency)
    ensures AcceptsStart(env, p.held + [Held(x.frame, x.speakers)], LatchedBy(env, p, x).value)
  {
    hide SensedFrame, Readied, InRange, Replayed, Replayable, Limit, AllCovered, FairEvent, FrontierOf;
    var held, a := p.held + [Held(x.frame, x.speakers)], LatchedBy(env, p, x).value;
    StartIsFair(env, p, x);
    StartedConserved(env, held, a);
    assert Routed(env, p, x) == Started(env, held, a);
    if env.streams(a.config).Some? {
      FirstFrameNames(env, held, a);
      FramesOfSnoc(p.held, Held(x.frame, x.speakers));
      ReplayableShort(env, Opened(held[0].speakers, a.blockSize, env.streams(a.config).value), held);
    }
  }

  class DtsAuroState {
    const env: Env
    var stage: Stage
    ghost var phase: Phase
    ghost var events: seq<Event>
    ghost var sent: seq<Out>
    ghost var Repr: set<object>

    /** The objects have come as far as the phase says. */
    ghost predicate Holds()
      reads this, Repr
    {
      && this in Repr
      && match stage
         case Deciding(d, held, heldSamples) =>
           && d in Repr && d.Repr <= Repr && this !in d.Repr && phase.Undecided? && phase.held == held
           && phase.heldSamples == heldSamples && DetectorIs(d, env, phase.sensing)
         case Running(x, carriers, outputs) =>
           && x in Repr && x.Storage() <= Repr && this !in x.Storage() && phase.Unfolding? && Sound(phase.u)
           && phase.u.carriers == carriers && phase.u.outputs == outputs && |carriers| <= 17
           && UnfolderIs(x, env, phase.u)
         case Passing => phase == Plain
    }

    ghost predicate Valid()
      reads this, Repr
    {
      Holds() && Able(phase) && (phase, sent) == Run(env, events)
    }

    constructor (env: Env)
      ensures Valid() && fresh(Repr) && this.env == env && events == [] && sent == [] && phase == START
    {
      this.env := env;
      var d := NewDetector(env, 0);
      stage := Deciding(d, [], 0);
      phase, events, sent := START, [], [];
      Repr := {this, d} + d.Repr;
    }

    method StartOver()
      modifies this
      ensures Holds() && fresh(Repr - {this}) && phase == START && events == old(events) && sent == old(sent)
    {
      var d := NewDetector(env, 0);
      stage := Deciding(d, [], 0);
      phase := START;
      Repr := {this, d} + d.Repr;
    }

    method Reset()
      modifies this
      ensures Valid() && fresh(Repr - {this}) && events == [] && sent == [] && phase == START
    {
      StartOver();
      events, sent := [], [];
    }

    /** One frame; what can go out now. Over a panic nothing does, and the stage is
        as good as new. */
    method Route(x: Input) returns (out: seq<Out>)
      requires Valid() && Accepts(env, phase, x)
      modifies Repr
      ensures Valid() && fresh(Repr - old(Repr))
      ensures (phase, out) == Handled(env, old(phase), Event.Route(x))
      ensures events == old(events) + [Event.Route(x)] && sent == old(sent) + out
    {
      hide UnfolderIs, DetectorIs, Routed, Accepts;
      RunSnoc(env, events, Event.Route(x));
      match stage {
        case Passing =>
          PlainPasses(x);
          out := [AsIs(x.frame)];
        case Running(_, _, _) => out := RouteRunning(x);
        case Deciding(_, _, _) => out := RouteUndecided(x);
      }
      events := events + [Event.Route(x)];
      sent := sent + out;
    }

    /** A frame without lossless output cannot be a carrier's. */
    method NotACarrier() returns (out: seq<Out>)
      requires Valid()
      modifies this
      ensures Valid() && Repr == old(Repr)
      ensures (phase, out) == RuledOut(old(phase))
      ensures events == old(events) + [NoLossless] && sent == old(sent) + out
    {
      hide UnfolderIs, DetectorIs, Sound, RuledOut;
      RunSnoc(env, events, NoLossless);
      out := RuleOut();
      events := events + [NoLossless];
      sent := sent + out;
    }

    method RuleOut() returns (out: seq<Out>)
      requires Holds() && Able(phase)
      modifies this`stage, this`phase
      ensures Holds() && Able(phase) && (phase, out) == RuledOut(old(phase))
    {
      hide UnfolderIs, DetectorIs, Sound;
      out := [];
      if stage.Deciding? {
        out := GiveUp(stage.held);
        stage, phase := Passing, Plain;
      }
    }

    lemma PlainPasses(x: Input)
      ensures Handled(env, Plain, Event.Route(x)) == (Plain, [AsIs(x.frame)])
    {
    }

    method RouteRunning(x: Input) returns (out: seq<Out>)
      requires Holds() && stage.Running? && Able(phase) && Accepts(env, phase, x)
      modifies Repr
      ensures Holds() && Able(phase) && Repr == old(Repr) && events == old(events) && sent == old(sent)
      ensures (phase, out) == Handled(env, old(phase), Event.Route(x))
    {
      hide UnfolderIs, Handles, FedFrame, FrontierOf, Drained;
      var unfolder, carriers, outputs := stage.unfolder, stage.carriers, stage.outputs;
      ghost var u := phase.u;
      ghost var fed := FedFrame(carriers, u.fed, x.lossless);
      FedForward(carriers, u.fed, x.lossless);
      FedOn(u, fed);
      FeedAll(unfolder, env, u, carriers, x.lossless);
      out := Drain(unfolder, env, u.(fed := fed), outputs);
      phase := Unfolding(Drained(env, u.(fed := fed)).0);
      DrainingKeeps(env, u.(fed := fed));
    }

    method RouteUndecided(x: Input) returns (out: seq<Out>)
      requires Holds() && stage.Deciding? && Able(phase) && Accepts(env, phase, x)
      modifies Repr
      ensures Holds() && Able(phase) && fresh(Repr - old(Repr)) && events == old(events) && sent == old(sent)
      ensures (phase, out) == Handled(env, old(phase), Event.Route(x))
    {
      hide UnfolderIs, DetectorIs, SensedFrame, Readied, AcceptsStart, Started, Limit;
      if x.frame.channels != |x.speakers| {
        var all := GiveUp(stage.held);
        stage, phase := Passing, Plain;
        return all + [AsIs(x.frame)];
      }
      var latched, d := Detect(x.speakers, x.lossless);
      ghost var now := SensedFrame(env, Readied(phase.sensing, x.speakers), x.lossless).0;
      var held, total := stage.held + [Held(x.frame, x.speakers)], stage.heldSamples + x.frame.samples;
      if latched.Some? {
        out := Confirm(held, latched.value);
      } else {
        out := KeepHeld(d, now, held, total, x.speakers);
      }
    }

    /** The frame's samples through the detector. */
    method Detect(speakers: seq<nat>, lossless: seq<(nat, seq<i32>)>)
      returns (latched: Option<Latch.Announcement>, d: Detector.Detector)
      requires Holds() && stage.Deciding?
      modifies Repr - {this}
      ensures var (now, announced) := SensedFrame(env, Readied(phase.sensing, speakers), lossless);
              DetectorIs(d, env, now) && latched == announced
      ensures this !in d.Repr && fresh({d} + d.Repr - old(Repr))
    {
      hide DetectorIs, SensedFrame, Readied;
      d := ReadyDetector(stage.detector, env, phase.sensing, speakers);
      latched := HearAll(d, env, Readied(phase.sensing, speakers), lossless);
    }

    /** Nothing is confirmed yet: more is held, unless it is too much. */
    method KeepHeld(d: Detector.Detector, ghost now: Detector.Sensing, held: seq<Held>, total: nat, speakers: seq<nat>)
      returns (out: seq<Out>)
      requires DetectorIs(d, env, now) && this !in d.Repr
      modifies this`stage, this`phase, this`Repr
      ensures Holds() && Able(phase) && Repr == {this} + if phase.Plain? then {} else {d} + d.Repr
      ensures (phase, out)
           == if total > Limit(now, speakers) then (Plain, Released(held)) else (Undecided(now, held, total), [])
    {
      hide DetectorIs, Limit;
      var limit := HoldLimit(d, env, now, speakers);
      if total > limit {
        out := GiveUp(held);
        stage, phase := Passing, Plain;
        Repr := {this};
      } else {
        out := [];
        stage, phase := Deciding(d, held, total), Undecided(now, held, total);
        Repr := {this, d} + d.Repr;
      }
    }

    /** The carrier is confirmed. */
    method Confirm(held: seq<Held>, a: Latch.Announcement) returns (out: seq<Out>)
      requires held != [] && AcceptsStart(env, held, a)
      modifies this
      ensures Holds() && Able(phase) && fresh(Repr - {this}) && events == old(events) && sent == old(sent)
      ensures (phase, out) == if Started(env, held, a).Some? then Started(env, held, a).value else (START, [])
    {
      hide UnfolderIs, DetectorIs, Replayable, Started;
      var o, all := StartUnfolding(env, held, a);
      if all.None? {
        StartOver();
        return [];
      }
      out := all.value;
      phase := Started(env, held, a).value.0;
      StartedIsSound(env, held, a);
      if o.NoLayout? {
        stage := Passing;
        Repr := {this};
      } else {
        stage := Running(o.unfolder, held[0].speakers, o.outputs);
        Repr := {this, o.unfolder} + o.unfolder.Storage();
      }
    }
  }
}
