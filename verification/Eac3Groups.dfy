/** Which frames a run of access units ought to become, told without a pipeline:
    every held core with exactly the dependents right behind it. */
module Eac3Groups {
  import opened Bytes
  import opened Eac3
  import opened Eac3Assembly

  /** What a unit that is no dependent comes to, with nothing in hand. */
  datatype Fate = Begins(core: Core) | Comes(frame: Frame) | Fails

  /** The guess is all of the clock that decides it. */
  function Guessing(guess: bool): Clock {
    START.(guess := guess)
  }

  function FateOf(u: AccessUnit, guess: bool): Fate {
    if u.legacy then
      if u.ac3.Some? then Begins(Legacy(u, u.ac3.value)) else Comes(Frame(Alone(u), u.legacySilence, false, false, 0))
    else
      var out := Routed(Guessing(guess), u).1;
      if out.Hold? then Begins(Plain(u, out.push)) else if out.frame.Ok? then Comes(out.frame.value) else Fails
  }

  function GuessBehind(u: AccessUnit, guess: bool): bool {
    if u.legacy then guess else Routed(Guessing(guess), u).0.guess
  }

  /** The payload that ends a group. */
  predicate EndsGroup(u: AccessUnit) {
    AsDependent(u, true) && CarriesJoc(HeldOf(u, true).info)
  }

  function HeldAll(units: seq<AccessUnit>): (r: seq<Held>)
    requires forall i | 0 <= i < |units| :: AsDependent(units[i], true)
    ensures |r| == |units|
  {
    seq(|units|, i requires 0 <= i < |units| => HeldOf(units[i], true))
  }

  /** How many of the units ahead belong to the core before them: dependents, no
      more than there is room for, and none behind the first that carries JOC. */
  function Own(units: seq<AccessUnit>, room: nat): (n: nat)
    ensures n <= |units| && n <= room
    ensures forall i | 0 <= i < n :: AsDependent(units[i], true)
    ensures forall i | 0 <= i < n - 1 :: !EndsGroup(units[i])
    ensures n < |units| && n < room ==> (n > 0 && EndsGroup(units[n - 1])) || !AsDependent(units[n], true)
    decreases units
  {
    if room == 0 || units == [] || !AsDependent(units[0], true) then 0
    else if EndsGroup(units[0]) then 1
    else 1 + Own(units[1..], room - 1)
  }

  /** The group's end is known: a unit follows it, or its last dependent carries JOC. */
  predicate Closed(units: seq<AccessUnit>, room: nat) {
    var n := Own(units, room);
    n < |units| || (n > 0 && EndsGroup(units[n - 1]))
  }

  /** A frame apart from when it plays. */
  function Undated(f: Frame): Frame {
    f.(at := 0)
  }

  function UndatedAll(frames: seq<Frame>): (r: seq<Frame>)
    ensures |r| == |frames|
  {
    seq(|frames|, i requires 0 <= i < |frames| => Undated(frames[i]))
  }

  function Complete(d: Decoders, p: Presentation): Frame {
    Undated(Presented(d, START, p).1)
  }

  function Room(p: Presentation): nat {
    if |p.dependents| < MAX_DEPENDENTS then MAX_DEPENDENTS - |p.dependents| else 0
  }

  function Extended(p: Presentation, units: seq<AccessUnit>): Presentation
    requires forall i | 0 <= i < |units| :: AsDependent(units[i], true)
  {
    p.(dependents := p.dependents + HeldAll(units))
  }

  /** Where a run stands: what is in hand, and what the next unit is guessed to be. */
  datatype Stand = Stand(open: Option<Presentation>, guess: bool)

  function StandOf(s: State): Stand {
    Stand(s.pending, s.clock.guess)
  }

  /** A frame that goes out when it comes. */
  predicate Passes(f: Frame, silenced: bool) {
    WellShaped(f) && !(TemporarySilence(f) && silenced)
  }

  /** The frames to come: the group in hand first, if it ends, then group by group,
      each core with its own; dependents that follow no core, or come too late for
      it, are passed over. A unit nothing can be made of is the last to matter. */
  function Expected(d: Decoders, at: Stand, units: seq<AccessUnit>, silenced: bool): seq<Frame>
    decreases |units|, if at.open.Some? then 1 else 0
  {
    if at.open.Some? then
      var n := Own(units, Room(at.open.value));
      if Closed(units, Room(at.open.value)) then
        [Complete(d, Extended(at.open.value, units[..n]))] + Expected(d, at.(open := None), units[n..], silenced)
      else []
    else if units == [] then []
    else if AsDependent(units[0], false) then Expected(d, at, units[1..], silenced)
    else
      var fate, guess := FateOf(units[0], at.guess), GuessBehind(units[0], at.guess);
      match fate
      case Begins(core) => Expected(d, Stand(Some(Presentation(core, [])), guess), units[1..], silenced)
      case Comes(f) =>
        if Passes(f, silenced) then [f] + Expected(d, Stand(None, guess), units[1..], silenced || TemporarySilence(f))
        else Expected(d, Stand(None, guess), units[1..], silenced)
      case Fails => []
  }

  /** Where they leave the run: nowhere, when nothing can be made of one of them. */
  function LeftOpen(at: Stand, units: seq<AccessUnit>): Option<Stand>
    decreases |units|, if at.open.Some? then 1 else 0
  {
    if at.open.Some? then
      var n := Own(units, Room(at.open.value));
      if Closed(units, Room(at.open.value)) then LeftOpen(at.(open := None), units[n..])
      else Some(at.(open := Some(Extended(at.open.value, units))))
    else if units == [] then Some(at)
    else if AsDependent(units[0], false) then LeftOpen(at, units[1..])
    else
      var fate, guess := FateOf(units[0], at.guess), GuessBehind(units[0], at.guess);
      match fate
      case Begins(core) => LeftOpen(Stand(Some(Presentation(core, [])), guess), units[1..])
      case Comes(_) => LeftOpen(Stand(None, guess), units[1..])
      case Fails => None
  }

  // ---- the pipeline does just that

  /** When a frame plays is all the clock decides about a presentation. */
  lemma CompleteAnyTime(d: Decoders, c: Clock, p: Presentation)
    ensures Undated(Presented(d, c, p).1) == Complete(d, p)
  {
  }

  lemma UndatedMore(frames: seq<Frame>, f: Frame)
    ensures UndatedAll(frames + [f]) == UndatedAll(frames) + [Undated(f)]
  {
  }

  lemma FinishedFrames(d: Decoders, s: State)
    ensures var t := Finished(d, s);
            && t.pending == None && t.silenced == s.silenced && t.clock.guess == s.clock.guess
            && UndatedAll(t.frames) == UndatedAll(s.frames) + if s.pending.Some? then [Complete(d, s.pending.value)]
               else []
  {
    if s.pending.Some? {
      CompleteAnyTime(d, s.clock, s.pending.value);
      UndatedMore(s.frames, Presented(d, s.clock, s.pending.value).1);
    }
  }

  /** Two routings that differ in when a frame plays, and in what no frame shows. */
  predicate SameButTime(x: (Clock, Outcome), y: (Clock, Outcome)) {
    && x.0.guess == y.0.guess && x.1.Hold? == y.1.Hold? && (x.1.Hold? ==> x.1 == y.1)
    && (x.1.Emit? ==> x.1.frame.Ok? == y.1.frame.Ok?)
    && (x.1.Emit? && x.1.frame.Ok? ==> Undated(x.1.frame.value) == y.1.frame.value)
  }

  lemma InspectedAnyTime(c: Clock, u: AccessUnit)
    ensures SameButTime(DecodeInspected(c, u), DecodeInspected(Guessing(c.guess), u))
  {
  }

  lemma IndependentAnyTime(c: Clock, u: AccessUnit, canCarry: bool)
    ensures SameButTime(DecodeIndependent(c, u, canCarry), DecodeIndependent(Guessing(c.guess), u, canCarry))
  {
    if canCarry && !c.guess {
    } else if u.objects.Objects? && (!canCarry || SelfContained(u.objects.push.info)) {
    } else {
      CoreAnyTime(c.(guess := false), u, canCarry);
    }
  }

  lemma CoreAnyTime(c: Clock, u: AccessUnit, canCarry: bool)
    ensures SameButTime(HoldOrEmitCore(c, u, canCarry), HoldOrEmitCore(Guessing(c.guess), u, canCarry))
  {
  }

  /** What a unit comes out as, the time of a frame aside, depends on the guess alone. */
  lemma RoutedAnyTime(c: Clock, u: AccessUnit)
    ensures SameButTime(Routed(c, u), Routed(Guessing(c.guess), u))
  {
    hide DecodeInspected, DecodeIndependent, SameButTime;
    InspectedAnyTime(c, u);
    IndependentAnyTime(c, u, u.header == Some(Independent));
  }

  lemma PassedFrames(s: State, f: Frame)
    ensures var t := Passed(s, f);
            && t.pending == s.pending && t.clock == s.clock
            && UndatedAll(t.frames) == UndatedAll(s.frames) + (if Passes(f, s.silenced) then [Undated(f)] else [])
            && t.silenced == (s.silenced || (Passes(f, s.silenced) && TemporarySilence(f)))
  {
    UndatedMore(s.frames, f);
  }

  /** A unit on its own does what its fate says. */
  lemma AloneStep(s: State, u: AccessUnit)
    requires s.pending == None
    ensures var (t, ok) := OnItsOwn(s, u);
            var fate := FateOf(u, s.clock.guess);
            && ok == !fate.Fails? && t.clock.guess == GuessBehind(u, s.clock.guess)
            && t.pending == (if fate.Begins? then Some(Presentation(fate.core, [])) else None)
            && UndatedAll(t.frames) == UndatedAll(s.frames)
                                     + (if fate.Comes? && Passes(fate.frame, s.silenced) then [fate.frame] else [])
            && t.silenced == (s.silenced || (fate.Comes? && Passes(fate.frame, s.silenced)
               && TemporarySilence(fate.frame)))
  {
    assert UndatedAll(s.frames) + [] == UndatedAll(s.frames);
    if u.legacy {
      var seen := s.(clock := s.clock.(diag := NotedInspection(s.clock.diag, u)));
      PassedFrames(seen.(clock := seen.clock.(total := s.clock.total + u.legacySilence.samples)),
                   Frame(Alone(u), u.legacySilence, false, false, s.clock.total));
    } else {
      RoutedAnyTime(s.clock, u);
      var (clock, out) := Routed(s.clock, u);
      if out.Emit? && out.frame.Ok? {
        PassedFrames(s.(clock := clock), out.frame.value);
      }
    }
  }

  /** A dependent that finds room joins; one that carries JOC ends the group; one
      that comes too late ends it too, and any that joins none is dropped. */
  lemma DependentStep(d: Decoders, s: State, u: AccessUnit)
    requires AsDependent(u, HasRoom(s))
    ensures var (t, ok) := Processed(d, s, u);
            && ok && t.silenced == s.silenced && t.clock.guess == s.clock.guess
            && if s.pending.None? then t == s.(dropped := s.dropped + 1)
               else if Room(s.pending.value) == 0 then
                 t.pending == None && UndatedAll(t.frames) == UndatedAll(s.frames) + [Complete(d, s.pending.value)]
               else if EndsGroup(u) then
                 && t.pending == None
                 && UndatedAll(t.frames) == UndatedAll(s.frames) + [Complete(d, Extended(s.pending.value, [u]))]
               else t.pending == Some(Extended(s.pending.value, [u])) && t.frames == s.frames
  {
    if s.pending.Some? {
      FinishedFrames(d, s.(dropped := s.dropped + 1));
      if HasRoom(s) {
        assert HeldAll([u]) == [HeldOf(u, true)];
        FinishedFrames(d, s.(pending := Some(Extended(s.pending.value, [u]))));
      }
    }
  }

  lemma ExtendedOnce(p: Presentation, units: seq<AccessUnit>, n: nat)
    requires 0 < n <= |units| && forall i | 0 <= i < n :: AsDependent(units[i], true)
    ensures Extended(Extended(p, [units[0]]), units[1..][..n - 1]) == Extended(p, units[..n])
  {
    assert units[..n] == [units[0]] + units[1..][..n - 1];
    assert HeldAll(units[..n]) == HeldAll([units[0]]) + HeldAll(units[1..][..n - 1]);
    assert p.dependents + (HeldAll([units[0]]) + HeldAll(units[1..][..n - 1]))
        == (p.dependents + HeldAll([units[0]])) + HeldAll(units[1..][..n - 1]);
  }

  /** Looking ahead from a core and taking dependents one at a time is the same. */
  lemma JoiningOne(d: Decoders, p: Presentation, guess: bool, units: seq<AccessUnit>, silenced: bool)
    requires units != [] && AsDependent(units[0], true) && !EndsGroup(units[0]) && Room(p) > 0
    ensures var q := Extended(p, [units[0]]);
            && Expected(d, Stand(Some(p), guess), units, silenced)
               == Expected(d, Stand(Some(q), guess), units[1..], silenced)
            && LeftOpen(Stand(Some(p), guess), units) == LeftOpen(Stand(Some(q), guess), units[1..])
  {
    var q, rest := Extended(p, [units[0]]), units[1..];
    var n := Own(rest, Room(q));
    assert Room(q) == Room(p) - 1;
    assert Own(units, Room(p)) == n + 1;
    ExtendedOnce(p, units, n + 1);
    assert units[n + 1..] == rest[n..];
    assert n > 0 ==> units[n] == rest[n - 1];
    assert units[..n + 1] == units || n + 1 < |units|;
    assert rest[..n] == rest || n < |rest|;
  }

  lemma EndingOne(d: Decoders, p: Presentation, guess: bool, units: seq<AccessUnit>, silenced: bool)
    requires units != [] && EndsGroup(units[0]) && Room(p) > 0
    ensures Expected(d, Stand(Some(p), guess), units, silenced)
         == [Complete(d, Extended(p, [units[0]]))] + Expected(d, Stand(None, guess), units[1..], silenced)
    ensures LeftOpen(Stand(Some(p), guess), units) == LeftOpen(Stand(None, guess), units[1..])
  {
    assert Own(units, Room(p)) == 1 && units[..1] == [units[0]];
  }

  /** A unit the group cannot take ends it. */
  lemma EndingBefore(d: Decoders, p: Presentation, guess: bool, units: seq<AccessUnit>, silenced: bool)
    requires units != [] && (Room(p) == 0 || !AsDependent(units[0], true))
    ensures Expected(d, Stand(Some(p), guess), units, silenced)
         == [Complete(d, p)] + Expected(d, Stand(None, guess), units, silenced)
    ensures LeftOpen(Stand(Some(p), guess), units) == LeftOpen(Stand(None, guess), units)
  {
    assert Own(units, Room(p)) == 0 && units[..0] == [] && units[0..] == units;
    assert HeldAll(units[..0]) == [] && p.dependents + [] == p.dependents;
  }

  lemma Appended(a: seq<Frame>, b: seq<Frame>, c: seq<Frame>)
    ensures a + b + c == a + (b + c)
  {
  }

  /** What is still to come behind one unit. */
  function Rest(d: Decoders, t: State, ok: bool, units: seq<AccessUnit>): seq<Frame> {
    if ok then Expected(d, StandOf(t), units, t.silenced) else []
  }

  function RestOpen(t: State, ok: bool, units: seq<AccessUnit>): Option<Stand> {
    if ok then LeftOpen(StandOf(t), units) else None
  }

  /** One unit: what it adds, and what is then still to come, is what was to come. */
  lemma StepIsExpected(d: Decoders, s: State, units: seq<AccessUnit>)
    requires units != []
    ensures var (t, ok) := Processed(d, s, units[0]);
            && UndatedAll(s.frames) + Expected(d, StandOf(s), units, s.silenced)
               == UndatedAll(t.frames) + Rest(d, t, ok, units[1..])
            && LeftOpen(StandOf(s), units) == RestOpen(t, ok, units[1..])
  {
    var u := units[0];
    if AsDependent(u, HasRoom(s)) {
      DependentIsExpected(d, s, units);
    } else {
      var was, f, guess := UndatedAll(s.frames), Finished(d, s), s.clock.guess;
      FinishedFrames(d, s);
      if s.pending.Some? {
        EndingBefore(d, s.pending.value, guess, units, s.silenced);
        Appended(was, [Complete(d, s.pending.value)], Expected(d, Stand(None, guess), units, s.silenced));
      } else {
        assert was + [] == was;
      }
      AloneIsExpected(d, f, units);
    }
  }

  lemma DependentIsExpected(d: Decoders, s: State, units: seq<AccessUnit>)
    requires units != [] && AsDependent(units[0], HasRoom(s))
    ensures var (t, ok) := Processed(d, s, units[0]);
            && ok && UndatedAll(s.frames) + Expected(d, StandOf(s), units, s.silenced)
                     == UndatedAll(t.frames) + Expected(d, StandOf(t), units[1..], t.silenced)
            && LeftOpen(StandOf(s), units) == LeftOpen(StandOf(t), units[1..])
  {
    var u, was, guess := units[0], UndatedAll(s.frames), s.clock.guess;
    DependentStep(d, s, u);
    if s.pending.Some? {
      var p := s.pending.value;
      var behind := Expected(d, Stand(None, guess), units[1..], s.silenced);
      if Room(p) == 0 {
        EndingBefore(d, p, guess, units, s.silenced);
        Appended(was, [Complete(d, p)], behind);
      } else if EndsGroup(u) {
        EndingOne(d, p, guess, units, s.silenced);
        Appended(was, [Complete(d, Extended(p, [u]))], behind);
      } else {
        JoiningOne(d, p, guess, units, s.silenced);
      }
    }
  }

  lemma AloneIsExpected(d: Decoders, s: State, units: seq<AccessUnit>)
    requires units != [] && !AsDependent(units[0], false) && s.pending == None
    ensures var (t, ok) := OnItsOwn(s, units[0]);
            && UndatedAll(s.frames) + Expected(d, StandOf(s), units, s.silenced)
               == UndatedAll(t.frames) + Rest(d, t, ok, units[1..])
            && LeftOpen(StandOf(s), units) == RestOpen(t, ok, units[1..])
  {
    var u, was := units[0], UndatedAll(s.frames);
    AloneStep(s, u);
    var fate := FateOf(u, s.clock.guess);
    if fate.Comes? {
      var (t, ok) := OnItsOwn(s, u);
      Appended(was, [fate.frame], Expected(d, StandOf(t), units[1..], t.silenced));
    }
    assert was + [] == was;
  }

  /** Every run of units, whatever header, inspection and decoders say of them: each
      core that was held comes out as exactly one frame, made of exactly the
      dependents right behind it, cut after the first that carries JOC or after
      eight; all frames come in the order of their cores; what is in hand at the
      end is the one group not known to be complete; and the run breaks off
      exactly at a unit nothing can be made of. */
  lemma {:induction false} RunGroupsAsExpected(d: Decoders, s: State, units: seq<AccessUnit>)
    ensures var (t, ok) := Run(d, s, units);
            && UndatedAll(t.frames) == UndatedAll(s.frames) + Expected(d, StandOf(s), units, s.silenced)
            && LeftOpen(StandOf(s), units) == if ok then Some(StandOf(t)) else None
    decreases units
  {
    if units == [] {
      NothingMore(d, s);
    } else {
      StepIsExpected(d, s, units);
      var (t, ok) := Processed(d, s, units[0]);
      if ok {
        RunGroupsAsExpected(d, t, units[1..]);
      } else {
        assert UndatedAll(t.frames) + [] == UndatedAll(t.frames);
      }
    }
  }

  lemma NothingMore(d: Decoders, s: State)
    ensures Expected(d, StandOf(s), [], s.silenced) == [] && LeftOpen(StandOf(s), []) == Some(StandOf(s))
    ensures UndatedAll(s.frames) + [] == UndatedAll(s.frames)
  {
    if s.pending.Some? {
      assert HeldAll([]) == [] && s.pending.value.dependents + [] == s.pending.value.dependents;
    }
  }

  /** A dependent that joins nothing, because no core precedes it or eight of its
      kind do, plays nothing: the second only ends the group it is too late for. */
  lemma DroppedDependentsDoNotPlay(d: Decoders, s: State, u: AccessUnit)
    requires InspectsAsDependent(u) && !HasRoom(s)
    ensures Processed(d, s, u) == (Finished(d, s.(dropped := s.dropped + 1)), true)
    ensures s.pending == None ==> Processed(d, s, u).0 == s.(dropped := s.dropped + 1)
    ensures s.pending.Some? ==>
      UndatedAll(Processed(d, s, u).0.frames) == UndatedAll(s.frames) + [Complete(d, s.pending.value)]
  {
    DependentStep(d, s, u);
  }

  // ---- units on which everything agrees

  /** The decoders, the inspection and the header agree on what a unit is. */
  predicate Regular(u: AccessUnit) {
    Agreeing(u) && (u.header != Some(Dependent) ==> HeaderAgrees(u, u.header == Some(Independent)))
  }

  /** Their fate is the inspection rule's, whatever the guess, and room or not they
      are dependents or are not. */
  lemma RegularFate(u: AccessUnit, guess: bool)
    requires Regular(u)
    ensures AsDependent(u, true) == AsDependent(u, false)
    ensures FateOf(u, guess) == FateOf(u, false)
    ensures !u.legacy ==> Routed(Guessing(guess), u).1 == DecodeInspected(START, u).1
  {
    if !u.legacy && u.header != Some(Dependent) {
      GuessIsTransparent(Guessing(guess), u, u.header == Some(Independent));
      GuessIsTransparent(Guessing(false), u, u.header == Some(Independent));
      InspectionIgnoresGuess(Guessing(guess), START, u);
      InspectionIgnoresGuess(Guessing(false), START, u);
    } else if !u.legacy {
      InspectionIgnoresGuess(Guessing(guess), START, u);
    }
  }

  /** So no guess shows in what a run of them becomes. */
  lemma {:induction false} RegularRunsIgnoreGuess(d: Decoders, at: Stand, guess: bool, units: seq<AccessUnit>,
                                                  silenced: bool)
    requires forall i | 0 <= i < |units| :: Regular(units[i])
    ensures Expected(d, at, units, silenced) == Expected(d, at.(guess := guess), units, silenced)
    decreases |units|, if at.open.Some? then 1 else 0
  {
    if at.open.Some? {
      var n := Own(units, Room(at.open.value));
      RegularRunsIgnoreGuess(d, at.(open := None), guess, units[n..], silenced);
    } else if units != [] {
      var u, rest := units[0], units[1..];
      if AsDependent(u, false) {
        RegularRunsIgnoreGuess(d, at, guess, rest, silenced);
      } else {
        RegularFate(u, at.guess);
        RegularFate(u, guess);
        var fate, one, two := FateOf(u, at.guess), GuessBehind(u, at.guess), GuessBehind(u, guess);
        if fate.Begins? {
          RegularRunsIgnoreGuess(d, Stand(Some(Presentation(fate.core, [])), one), two, rest, silenced);
        } else if fate.Comes? {
          RegularRunsIgnoreGuess(d, Stand(None, one), two, rest, silenced || TemporarySilence(fate.frame));
          RegularRunsIgnoreGuess(d, Stand(None, one), two, rest, silenced);
        }
      }
    }
  }

  // ---- frames in time

  /** Frames play one after the other, up to `total`. */
  predicate InTime(frames: seq<Frame>, total: nat) {
    frames == []
    || (var last := frames[|frames| - 1];
        last.at + last.pcm.samples <= total && InTime(frames[..|frames| - 1], last.at))
  }

  lemma InTimeMore(frames: seq<Frame>, total: nat, f: Frame, later: nat)
    requires InTime(frames, total) && total <= f.at && f.at + f.pcm.samples <= later
    ensures InTime(frames + [f], later)
  {
    assert (frames + [f])[..|frames|] == frames;
    InTimeLater(frames, total, f.at);
  }

  lemma InTimeLater(frames: seq<Frame>, total: nat, later: nat)
    requires InTime(frames, total) && total <= later
    ensures InTime(frames, later)
  {
  }

  lemma FinishedInTime(d: Decoders, s: State)
    requires InTime(s.frames, s.clock.total)
    ensures var t := Finished(d, s); InTime(t.frames, t.clock.total)
  {
    if s.pending.Some? {
      var (clock, frame) := Presented(d, s.clock, s.pending.value);
      InTimeMore(s.frames, s.clock.total, frame, clock.total);
    }
  }

  /** A frame decoded on the spot starts where the timeline stood and moves it on
      by its own length; anything else leaves it. */
  predicate MovesOn(c: Clock, r: (Clock, Outcome)) {
    if r.1.Emit? && r.1.frame.Ok? then
      r.1.frame.value.at == c.total && r.0.total == c.total + r.1.frame.value.pcm.samples
    else r.0.total == c.total
  }

  lemma InspectedInTime(c: Clock, u: AccessUnit)
    ensures MovesOn(c, DecodeInspected(c, u))
  {
  }

  lemma IndependentInTime(c: Clock, u: AccessUnit, canCarry: bool)
    ensures MovesOn(c, DecodeIndependent(c, u, canCarry))
  {
  }

  lemma OutcomeInTime(c: Clock, u: AccessUnit)
    ensures MovesOn(c, Routed(c, u))
  {
    hide DecodeInspected, DecodeIndependent, MovesOn;
    InspectedInTime(c, u);
    IndependentInTime(c, u, u.header == Some(Independent));
  }

  lemma AloneInTime(s: State, u: AccessUnit)
    requires InTime(s.frames, s.clock.total)
    ensures var t := OnItsOwn(s, u).0; InTime(t.frames, t.clock.total)
  {
    var total := s.clock.total;
    if u.legacy {
      if u.ac3.None? {
        var silence := Frame(Alone(u), u.legacySilence, false, false, total);
        InTimeMore(s.frames, total, silence, total + u.legacySilence.samples);
        InTimeLater(s.frames, total, total + u.legacySilence.samples);
      }
    } else {
      OutcomeInTime(s.clock, u);
      var (clock, out) := Routed(s.clock, u);
      if out.Emit? && out.frame.Ok? {
        InTimeMore(s.frames, total, out.frame.value, clock.total);
        InTimeLater(s.frames, total, clock.total);
      }
    }
  }

  /** Frames never overlap and come in the order they play, whatever the units are. */
  lemma {:induction false} FramesPlayInOrder(d: Decoders, s: State, units: seq<AccessUnit>)
    requires InTime(s.frames, s.clock.total)
    ensures var t := Run(d, s, units).0; InTime(t.frames, t.clock.total)
    decreases units
  {
    if units != [] {
      ProcessedInTime(d, s, units[0]);
      var (t, ok) := Processed(d, s, units[0]);
      if ok {
        FramesPlayInOrder(d, t, units[1..]);
      }
    }
  }

  lemma AttachedInTime(d: Decoders, s: State, h: Held)
    requires InTime(s.frames, s.clock.total)
    ensures var t := Attached(d, s, h); InTime(t.frames, t.clock.total)
  {
    FinishedInTime(d, s.(dropped := s.dropped + 1));
    if s.pending.Some? {
      FinishedInTime(d, s.(pending := Some(s.pending.value.(dependents := s.pending.value.dependents + [h]))));
    }
  }

  lemma ProcessedInTime(d: Decoders, s: State, u: AccessUnit)
    requires InTime(s.frames, s.clock.total)
    ensures var t := Processed(d, s, u).0; InTime(t.frames, t.clock.total)
  {
    if AsDependent(u, HasRoom(s)) {
      AttachedInTime(d, s, HeldOf(u, HasRoom(s)));
    } else {
      FinishedInTime(d, s);
      AloneInTime(Finished(d, s), u);
    }
  }
}
