/** A held frame narrower than the first one: the replay reads past its samples,
    the panic resets the stage, and every frame it held is lost. */
module AuroNarrow {
  import opened Bytes
  import opened AuroRuns
  import opened AuroStage
  import opened AuroFeeding
  import opened AuroUnfold
  import AuroRestore
  import Carrier = AuroCarrier
  import Chain = AuroChain
  import Detector = AuroDetector
  import Heard = AuroHeard
  import Latch = AuroLatch
  import Pipeline = AuroPipeline
  import Shortest = AuroShortest
  import Track = AuroTrack

  /** A frame makes the stage panic exactly when it confirms a carrier of a known
      layout and some held frame has samples but fewer channels than the first one
      has speakers. */
  lemma PanicsExactly(env: Env, p: Phase, x: Input)
    requires Able(p) && Shaped(x.frame)
    requires p.Undecided? ==> forall i | 0 <= i < |p.held| :: Shaped(p.held[i].frame)
    ensures Routed(env, p, x).None?
       <==> && LatchedBy(env, p, x).Some? && env.streams(LatchedBy(env, p, x).value.config).Some?
            && !WideEnough(p.held + [Held(x.frame, x.speakers)])
  {
    hide SensedFrame, Readied, Replayed, Limit, FedFrame, Drained, WideEnough, InRange, Shaped;
    if LatchedBy(env, p, x).Some? {
      InRangeExactly(p.held + [Held(x.frame, x.speakers)]);
    }
  }

  // ---- a run that loses its frames

  const ANNOUNCED := Latch.Announcement(62, 16)

  /** A block that announces a configuration, and the zero that reports it. */
  function Once(): seq<i32> {
    Shortest.Shortest() + [0]
  }

  function Thrice(): (r: seq<i32>)
    ensures |r| == 51
  {
    Once() + Once() + Once()
  }

  /** `p` takes `b` for a block. */
  ghost predicate TakesFor(p: Track.Parser, b: seq<i32>) {
    && |b| == 16 && (forall i | 0 <= i < 16 :: p.one(b[i])) && !p.one(0)
    && p.look(b) == Some(Shortest.HEADER) && p.judge(b, Shortest.HEADER) == Ok(Shortest.INFO)
  }

  lemma OneReported(p: Track.Parser, before: seq<i32>, b: seq<i32>)
    requires TakesFor(p, b) && Shortest.Idle(Track.TrackOf(p, before))
    ensures Shortest.Idle(Track.TrackOf(p, before + (b + [0])))
    ensures Track.TrackOf(p, before + (b + [0])).reports
         == Track.TrackOf(p, before).reports + [Track.Report(|before|, b, Shortest.HEADER, Shortest.INFO)]
  {
    hide Track.TrackOf, Shortest.Idle;
    assert before + (b + [0]) == before + b + [0];
    Shortest.ShortestIsReported(p, before, b, 0, Shortest.HEADER, Shortest.INFO);
  }

  lemma OnceReported(before: seq<i32>)
    requires Shortest.Idle(Track.TrackOf(Track.BlockParser(), before))
    ensures Shortest.Idle(Track.TrackOf(Track.BlockParser(), before + Once()))
    ensures Track.TrackOf(Track.BlockParser(), before + Once()).reports
         == Track.TrackOf(Track.BlockParser(), before).reports
          + [Track.Report(|before|, Shortest.Shortest(), Shortest.HEADER, Shortest.INFO)]
  {
    hide Track.TrackOf, Track.BlockParser, Shortest.Shortest, Shortest.Idle, Shortest.INFO, Shortest.HEADER;
    ShortestIsTaken();
    OneReported(Track.BlockParser(), before, Shortest.Shortest());
  }

  lemma ShortestIsTaken()
    ensures TakesFor(Track.BlockParser(), Shortest.Shortest())
  {
    hide Track.BlockParser, Shortest.Shortest;
    Shortest.ShortestIsValid();
    Shortest.ZeroIsNoOne();
  }

  lemma OneAnnounced(known: Detector.Known, before: seq<Track.Report>, r: Track.Report)
    requires known(62) && r.header == Shortest.HEADER && r.info == Shortest.INFO
    ensures Detector.Announcements(known, before + [r]) == Detector.Announcements(known, before) + [ANNOUNCED]
  {
    assert (before + [r])[..|before|] == before;
  }

  /** The detector hears the same announcement three times, and latches. */
  lemma ThriceAnnounced(known: Detector.Known, before: seq<i32>)
    requires known(62) && Shortest.Idle(Track.TrackOf(Track.BlockParser(), before))
    ensures Detector.Announcements(known, Detector.NewReports(Track.BlockParser(), before, Thrice()))
         == [ANNOUNCED, ANNOUNCED, ANNOUNCED]
  {
    hide Track.TrackOf, Track.BlockParser, Shortest.Shortest, Shortest.Idle, Once;
    OnceReported(before);
    OnceReported(before + Once());
    OnceReported(before + Once() + Once());
    assert before + Thrice() == before + Once() + Once() + Once();
    var r := Track.Report(|before|, Shortest.Shortest(), Shortest.HEADER, Shortest.INFO);
    var s := r.(start := |before + Once()|);
    var t := r.(start := |before + Once() + Once()|);
    assert Detector.NewReports(Track.BlockParser(), before, Thrice()) == [r, s, t];
    AllAnnounced(known, r, s, t);
  }

  lemma AllAnnounced(known: Detector.Known, r: Track.Report, s: Track.Report, t: Track.Report)
    requires known(62) && r.header == s.header == t.header == Shortest.HEADER
    requires r.info == s.info == t.info == Shortest.INFO
    ensures Detector.Announcements(known, [r, s, t]) == [ANNOUNCED, ANNOUNCED, ANNOUNCED]
  {
    NoneAnnounced(known);
    OneAnnounced(known, [], r);
    OneAnnounced(known, [] + [r], s);
    OneAnnounced(known, [] + [r] + [s], t);
    hide *;
    assert [] + [r] + [s] + [t] == [r, s, t];
    assert [] + [ANNOUNCED] + [ANNOUNCED] + [ANNOUNCED] == [ANNOUNCED, ANNOUNCED, ANNOUNCED];
  }

  lemma NoneAnnounced(known: Detector.Known)
    ensures Detector.Announcements(known, []) == []
  {
  }

  lemma ThreeLatch()
    ensures Latch.SeenAll([]).latched == None
    ensures Latch.SeenAll([ANNOUNCED, ANNOUNCED, ANNOUNCED]).latched == Some(ANNOUNCED)
  {
    var a := [ANNOUNCED, ANNOUNCED, ANNOUNCED];
    assert a[..2] == [ANNOUNCED, ANNOUNCED] && a[..2][..1] == [ANNOUNCED] && a[..2][..1][..0] == [];
    assert Latch.SeenAll([]) == Latch.Latch(None, None);
    assert Latch.SeenAll(a[..2][..1]) == Latch.Latch(Some(Latch.Candidate(ANNOUNCED, 1)), None);
    assert Latch.SeenAll(a[..2]) == Latch.Latch(Some(Latch.Candidate(ANNOUNCED, 2)), None);
  }

  /** A silent frame of two channels, and then one channel with a carrier's blocks:
      each frame is what a decoder makes of its bed. */
  function First(): Input {
    var f := Frame(1, 2, [0, 0]);
    Input(f, [0, 1], Bed([0, 1], f))
  }

  function Second(): Input {
    var f := Frame(51, 1, Thrice());
    Input(f, [1], Bed([1], f))
  }

  const HEARD := Detector.Sensing([[0], [0]], [])

  lemma SilenceIsIdle(p: Track.Parser)
    requires !p.one(0)
    ensures Shortest.Idle(Track.TrackOf(p, [0])) && Track.TrackOf(p, []).reports == [] == Track.TrackOf(p, [0]).reports
    ensures Track.TrackOf(p, [0]).valid == 0
  {
    assert [0][..0] == [];
  }

  lemma SilenceSensed(env: Env)
    ensures SensedFrame(env, Readied(Detector.Sensing([], []), [0, 1]), First().lossless) == (HEARD, None)
  {
    hide Track.TrackOf, Track.BlockParser, Latch.SeenAll;
    var p := Track.BlockParser();
    Shortest.ZeroIsNoOne();
    SilenceIsIdle(p);
    var x := First();
    assert Column(x.frame, 0) == [0] && Column(x.frame, 1) == [0];
    assert x.lossless == [(0, [0]), (1, [0])] && x.lossless[..1] == [(0, [0])] && x.lossless[..1][..0] == [];
    assert Channels([0, 1]) == 2 by {
      assert [0, 1][..1] == [0] && [0][..0] == [];
      assert Channels([0]) == 1;
    }
    var s := Readied(Detector.Sensing([], []), [0, 1]);
    assert s == Detector.Sensing([[], []], []);
    SilentPush(env.known, s, 0);
    var t := Detector.Sensed(p, env.known, s, 0, [0]);
    assert t == Detector.Sensing([[0], []], []);
    SilentPush(env.known, t, 1);
    assert Detector.Sensed(p, env.known, t, 1, [0]) == HEARD;
    ThreeLatch();
    assert SensedFrame(env, s, []) == (s, None);
    assert SensedFrame(env, s, x.lossless[..1]) == (t, None);
  }

  lemma SilentPush(known: Detector.Known, s: Detector.Sensing, c: nat)
    requires c < |s.heard| && s.heard[c] == []
    ensures Detector.Sensed(Track.BlockParser(), known, s, c, [0]) == s.(heard := s.heard[c := [0]])
  {
    hide Track.TrackOf, Track.BlockParser;
    Shortest.ZeroIsNoOne();
    SilenceIsIdle(Track.BlockParser());
    assert [] + [0] == [0] && s.announced + [] == s.announced;
    assert Detector.NewReports(Track.BlockParser(), [], [0]) == [];
  }

  lemma BlocksSensed(env: Env)
    requires env.known(62)
    ensures SensedFrame(env, Readied(HEARD, [1]), Second().lossless).1 == Some(ANNOUNCED)
  {
    hide Track.TrackOf, Track.BlockParser, Latch.SeenAll, Detector.NewReports, Detector.Announcements, Thrice;
    var p := Track.BlockParser();
    Shortest.ZeroIsNoOne();
    SilenceIsIdle(p);
    var x := Second();
    assert Column(x.frame, 0) == Thrice();
    assert x.lossless == [(1, Thrice())] && x.lossless[..0] == [];
    ThriceAnnounced(env.known, [0]);
    ThreeLatch();
    assert SensedFrame(env, HEARD, []) == (HEARD, None);
    var all := [ANNOUNCED, ANNOUNCED, ANNOUNCED];
    assert [] + all == all;
  }

  /** A first frame that confirms nothing is held. */
  lemma FirstIsHeld(env: Env, x: Input, now: Detector.Sensing)
    requires SensedFrame(env, Readied(Detector.Sensing([], []), x.speakers), x.lossless) == (now, None)
    requires x.frame.channels == |x.speakers| && x.frame.samples == 1
    ensures Run(env, [Route(x)]) == (Undecided(now, [Held(x.frame, x.speakers)], 1), [])
  {
    hide SensedFrame, Readied, Limit;
    NothingHeldYet(now, x.speakers);
    RunSnoc(env, [], Route(x));
    assert [] + [Route(x)] == [Route(x)];
    var none: seq<Out> := [];
    assert none + none == none;
    assert [] + [Held(x.frame, x.speakers)] == [Held(x.frame, x.speakers)];
    assert Run(env, []) == (START, []);
    assert Routed(env, START, x) == Some((Undecided(now, [Held(x.frame, x.speakers)], 1), []));
    assert Handled(env, START, Route(x)) == (Undecided(now, [Held(x.frame, x.speakers)], 1), []);
  }

  lemma NothingHeldYet(s: Detector.Sensing, speakers: seq<nat>)
    ensures 1 <= Limit(s, speakers)
  {
  }

  /** One that confirms a carrier, and has fewer channels than the first one had
      speakers, loses both. */
  lemma SecondLosesBoth(env: Env, a: Input, b: Input, now: Detector.Sensing)
    requires Run(env, [Route(a)]) == (Undecided(now, [Held(a.frame, a.speakers)], 1), [])
    requires SensedFrame(env, Readied(now, b.speakers), b.lossless).1 == Some(ANNOUNCED) && env.streams(62).Some?
    requires Shaped(a.frame) && Shaped(b.frame) && b.frame.samples > 0
    requires b.frame.channels == |b.speakers| < |a.speakers|
    ensures Routed(env, Run(env, [Route(a)]).0, b).None? && Run(env, [Route(a), Route(b)]) == (START, [])
  {
    hide SensedFrame, Readied, Limit;
    var p := Run(env, [Route(a)]).0;
    var held := p.held + [Held(b.frame, b.speakers)];
    assert !WideEnough(held) by {
      assert held[1].frame == b.frame && held[0].speakers == a.speakers;
    }
    PanicsExactly(env, p, b);
    RunSnoc(env, [Route(a)], Route(b));
    assert [Route(a)] + [Route(b)] == [Route(a), Route(b)];
  }

  /** The second frame confirms the carrier, and the replay reads a second column
      of it: two frames came in, and neither will come out. */
  lemma NarrowFrameLosesAll(env: Env, a: Input, b: Input)
    requires a == First() && b == Second() && env.known(62) && env.streams(62).Some?
    ensures SteadyEvent([0, 1], Route(a)) && SteadyEvent([1], Route(b))
    ensures Run(env, [Route(a)]).0 == Undecided(HEARD, [Held(a.frame, [0, 1])], 1)
    ensures Run(env, [Route(a), Route(b)]) == (START, [])
    ensures InputFrames([Route(a), Route(b)]) == [a.frame, b.frame]
  {
    SilenceSensed(env);
    BlocksSensed(env);
    hide Thrice, HEARD, SensedFrame, Readied, Run, InputFrames;
    FirstIsHeld(env, a, HEARD);
    SecondLosesBoth(env, a, b, HEARD);
    BothCameIn(Route(a), Route(b));
  }

  lemma BothCameIn(a: Event, b: Event)
    requires a.Route? && b.Route?
    ensures InputFrames([a, b]) == [a.x.frame, b.x.frame]
  {
    assert [a, b][..1] == [a] && [a][..0] == [];
    assert InputFrames([a]) == [a.x.frame];
  }

  // ---- the same run, of the stage itself

  lemma SilenceCovered(amplify: AuroRestore.Amplify)
    ensures Heard.GrownIn(Track.BlockParser(), amplify, [], [0], 16)
  {
    hide Track.TrackOf, Track.BlockParser, Carrier.BlockOf;
    Shortest.ZeroIsNoOne();
    SilenceIsIdle(Track.BlockParser());
    assert Carrier.CarrierBlocks(Track.BlockParser(), amplify, [0]) == [];
    Chain.NoneToCover(Track.BlockParser(), amplify, [], [0], 16);
  }

  /** A silent sample on each carrier can be taken, and the second frame is not read. */
  lemma BothReplayable(env: Env, a: Held, b: Held, outputs: seq<nat>)
    requires a == Held(Frame(1, 2, [0, 0]), [0, 1]) && Shaped(b.frame) && b.frame.samples > 0 && b.frame.channels == 1
    ensures Replayable(env, Opened([0, 1], 16, outputs), [a, b])
  {
    hide Track.BlockParser, Heard.GrownIn, Readable, Replayed, FrontierOf;
    var u := Opened([0, 1], 16, outputs);
    ReadableExactly(b.frame, 2);
    assert !AllReadable([a, b], 2) by {
      assert [a, b][1] == b;
    }
    assert [a, b][..1] == [a] && [a][..0] == [];
    ReplayOfNone(env, u);
    SilenceCovered(env.amplify);
    assert Column(a.frame, 0) == [0] && Column(a.frame, 1) == [0];
    assert [] + [0] == [0];
    assert FedColumns(u.fed, a.frame) == [[0], [0]];
    assert Handles(env, u, [[0], [0]]);
    assert Replayable(env, u, []);
    assert Replayable(env, u, [a]);
  }

  method RouteTwo(env: Env, a: Input, b: Input) returns (s: Pipeline.DtsAuroState)
    requires Pipeline.Accepts(env, START, a) && Run(env, [Route(a)]).0 == Handled(env, START, Route(a)).0
    requires Pipeline.Accepts(env, Run(env, [Route(a)]).0, b)
    ensures s.Valid() && s.env == env && s.events == [Route(a), Route(b)]
    ensures (s.phase, s.sent) == Run(env, [Route(a), Route(b)])
  {
    hide Pipeline.Accepts, Handled, Run, Pipeline.DtsAuroState.Holds, START;
    s := new Pipeline.DtsAuroState(env);
    var first := s.Route(a);
    var second := s.Route(b);
    assert [] + [Route(a)] + [Route(b)] == [Route(a), Route(b)];
  }

  /** Both frames are routed, nothing comes out, and nothing is held that could. */
  method RouteBoth(env: Env, a: Input, b: Input) returns (s: Pipeline.DtsAuroState)
    requires a == First() && b == Second() && env.known(62) && env.streams(62).Some?
    ensures s.Valid() && s.env == env && s.events == [Route(a), Route(b)]
    ensures s.phase == START && s.sent == []
  {
    hide SensedFrame, Readied, Thrice, Pipeline.DtsAuroState.Valid, Run, First, Second, Pipeline.Accepts;
    NarrowFrameLosesAll(env, a, b);
    FirstAccepted(env, a);
    SecondAccepted(env, a, b);
    RunOfOne(env, a);
    s := RouteTwo(env, a, b);
  }

  lemma RunOfOne(env: Env, a: Input)
    ensures Run(env, [Route(a)]).0 == Handled(env, START, Route(a)).0
  {
    assert [Route(a)][..0] == [];
  }

  lemma FirstAccepted(env: Env, a: Input)
    requires a == First()
    ensures Pipeline.Accepts(env, START, a)
  {
    hide Pipeline.AcceptsStart;
    SilenceSensed(env);
  }

  lemma SecondAccepted(env: Env, a: Input, b: Input)
    requires a == First() && b == Second() && env.known(62)
    ensures Pipeline.Accepts(env, Undecided(HEARD, [Held(a.frame, [0, 1])], 1), b)
  {
    hide Thrice, SensedFrame, Readied, Replayable;
    BlocksSensed(env);
    var held := [Held(a.frame, [0, 1])] + [Held(b.frame, [1])];
    assert held == [Held(a.frame, [0, 1]), Held(b.frame, [1])];
    if env.streams(62).Some? {
      BothReplayable(env, held[0], held[1], env.streams(62).value);
    }
  }
}
