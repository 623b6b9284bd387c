/** The E-AC-3 pipeline: access units of one drain after another in, frames out,
    held to the groups all the units since the last reset ought to make. */
module Eac3Drain {
  import opened Bytes
  import opened Eac3
  import opened Eac3Assembly
  import opened Eac3Groups

  /** Where a run of whole drains stands. */
  function StandBehind(guess: bool, drains: seq<seq<AccessUnit>>): Option<Stand> {
    if drains == [] then Some(Stand(None, guess))
    else
      var at := StandBehind(guess, drains[..|drains| - 1]);
      if at.Some? then LeftOpen(at.value, drains[|drains| - 1]) else None
  }

  /** The frames it comes to. One temporary silence may go out in every drain. */
  function ExpectedOf(d: Decoders, guess: bool, drains: seq<seq<AccessUnit>>): seq<Frame> {
    if drains == [] then []
    else
      var front := drains[..|drains| - 1];
      var at := StandBehind(guess, front);
      ExpectedOf(d, guess, front) + if at.Some? then Expected(d, at.value, drains[|drains| - 1], false) else []
  }

  lemma OneDrainMore(d: Decoders, guess: bool, drains: seq<seq<AccessUnit>>, units: seq<AccessUnit>)
    requires StandBehind(guess, drains).Some?
    ensures StandBehind(guess, drains + [units]) == LeftOpen(StandBehind(guess, drains).value, units)
    ensures ExpectedOf(d, guess, drains + [units])
         == ExpectedOf(d, guess, drains) + Expected(d, StandBehind(guess, drains).value, units, false)
  {
    assert (drains + [units])[..|drains|] == drains;
  }

  lemma UndatedBoth(a: seq<Frame>, b: seq<Frame>)
    ensures UndatedAll(a + b) == UndatedAll(a) + UndatedAll(b)
  {
  }

  lemma BehindSame(a: seq<Frame>, b: seq<Frame>, c: seq<Frame>)
    requires a + b == a + c
    ensures b == c
  {
    assert b == (a + b)[|a|..] && c == (a + c)[|a|..];
  }

  class Eac3Pipeline {
    const decoders: Decoders
    var pending: Option<Presentation>
    var guess: bool
    var total: nat
    var level: Option<nat>
    var diag: Diag
    var dropped: nat
    var silenced: bool
    var frames: seq<Frame>
    /** All that ever went out, what of it before this drain, and how much before
        the last reset; the guess then, and the drains since. */
    ghost var played: seq<Frame>
    ghost var kept: seq<Frame>
    ghost var earlier: nat
    ghost var firstGuess: bool
    ghost var drains: seq<seq<AccessUnit>>

    function ClockNow(): Clock
      reads this
    {
      Clock(guess, total, level, diag)
    }

    ghost function Snap(): State
      reads this
    {
      State(pending, ClockNow(), dropped, silenced, played)
    }

    /** The frames of this drain are the last that went out. */
    ghost predicate Joined()
      reads this
    {
      played == kept + frames
    }

    /** Since the last reset exactly the frames the drains ought to make went out,
        the one group not known to be complete is in hand, and nothing that ever
        went out overlaps in time. */
    ghost predicate Valid()
      reads this
    {
      && earlier <= |played| && UndatedAll(played[earlier..]) == ExpectedOf(decoders, firstGuess, drains)
      && StandBehind(firstGuess, drains) == Some(Stand(pending, guess))
      && InTime(played, total)
    }

    constructor (decoders: Decoders)
      ensures this.decoders == decoders && Valid() && Snap() == State(None, START, 0, false, []) && drains == []
    {
      this.decoders := decoders;
      pending, guess, total, level := None, false, 0, None;
      diag := Diag(0, 0, 0, 0, 0, 0, 0);
      dropped, silenced, frames := 0, false, [];
      played, kept, earlier, firstGuess, drains := [], [], 0, false, [];
    }

    // -- draining

    /** All units the extractor has, and whether it `broke` behind them. The frames
        out are those the units ought to become, continuing from what is in hand;
        the pipeline goes on unless it broke or nothing can be made of a unit, and
        then starts afresh, its timeline and its guess kept. */
    method Drain(units: seq<AccessUnit>, broke: bool) returns (out: seq<Frame>, ok: bool)
      requires Valid()
      modifies this
      ensures Valid() && played == old(played) + out
      ensures UndatedAll(out) == Expected(decoders, Stand(old(pending), old(guess)), units, false)
      ensures ok <==> !broke && LeftOpen(Stand(old(pending), old(guess)), units).Some?
      ensures ok ==> drains == old(drains) + [units] && firstGuess == old(firstGuess) && earlier == old(earlier)
      ensures !ok ==> drains == [] && pending == None && earlier == |played|
    {
      hide Expected, LeftOpen, ExpectedOf, StandBehind, UndatedAll, InTime;
      ghost var at, was := Stand(pending, guess), played;
      out, ok := DrainUnits(units);
      Account(was, out, Expected(decoders, at, units, false));
      if ok && !broke {
        OneDrainMore(decoders, firstGuess, drains, units);
        TailGrows(was, out, earlier);
        drains := drains + [units];
      } else {
        ok := false;
        Reset();
      }
    }

    method DrainUnits(units: seq<AccessUnit>) returns (out: seq<Frame>, ok: bool)
      requires InTime(played, total)
      modifies this`pending, this`guess, this`level, this`total, this`diag, this`dropped, this`silenced, this`frames
      modifies this`played, this`kept
      ensures InTime(played, total) && played == old(played) + out
      ensures UndatedAll(played) == UndatedAll(old(played))
        + Expected(decoders, Stand(old(pending), old(guess)), units, false)
      ensures LeftOpen(Stand(old(pending), old(guess)), units) == if ok then Some(Stand(pending, guess)) else None
    {
      frames, kept, silenced := [], played, false;
      assert played + [] == played;
      ghost var s := Snap();
      ok := ProcessAll(units);
      out := frames;
      RunGroupsAsExpected(decoders, s, units);
      FramesPlayInOrder(decoders, s, units);
    }

    /** What was in hand is forgotten. */
    method Reset()
      requires InTime(played, total)
      modifies this`pending, this`earlier, this`firstGuess, this`drains
      ensures Valid() && pending == None && drains == [] && earlier == |played|
    {
      pending := None;
      earlier, firstGuess, drains := |played|, guess, [];
    }

    method ProcessAll(units: seq<AccessUnit>) returns (ok: bool)
      requires Joined()
      modifies this`pending, this`guess, this`level, this`total, this`diag, this`dropped, this`silenced
      modifies this`frames, this`played
      ensures Joined() && kept == old(kept) && (Snap(), ok) == Run(decoders, old(Snap()), units)
    {
      var i := 0;
      while i < |units|
        invariant i <= |units| && Joined() && kept == old(kept)
        invariant Run(decoders, Snap(), units[i..]) == Run(decoders, old(Snap()), units)
      {
        assert units[i..][1..] == units[i + 1..] && units[i..][0] == units[i];
        ok := Process(units[i]);
        if !ok {
          return;
        }
        i := i + 1;
      }
      ok := true;
    }

    // -- decoding

    method BuildFrame(u: AccessUnit, p: Push, objects: bool) returns (r: Result<Frame, DecodeFailure>)
      modifies this`level, this`total
      ensures (ClockNow(), r) == Built(old(ClockNow()), u, p, objects)
    {
      level := Some(p.info.level);
      var base := total;
      total := total + p.pcm.samples;
      r := Ok(Frame(Alone(u), p.pcm, objects, p.metadata, base));
    }

    method EmitCoreFrame(u: AccessUnit, push: Option<Push>) returns (r: Result<Frame, DecodeFailure>)
      modifies this`level, this`total
      ensures (ClockNow(), r) == EmitCore(old(ClockNow()), u, push)
    {
      if push.Some? {
        r := BuildFrame(u, push.value, false);
      } else if u.standIn.Some? {
        r := Ok(Frame(Alone(u), u.standIn.value, false, false, total));
        total := total + u.standIn.value.samples;
      } else {
        r := Err(UnitFailed);
      }
    }

    method DecodeObjectFrame(u: AccessUnit, decoded: Option<Push>) returns (r: Result<Frame, DecodeFailure>)
      modifies this`level, this`total
      ensures (ClockNow(), r) == DecodeObjects(old(ClockNow()), u, decoded)
    {
      if u.objects.Objects? {
        r := BuildFrame(u, u.objects.push, true);
      } else {
        r := EmitCoreFrame(u, if decoded.Some? then decoded else u.core);
      }
    }

    method HoldOrEmit(u: AccessUnit, canCarry: bool) returns (out: Outcome)
      modifies this`level, this`total, this`diag
      ensures (ClockNow(), out) == HoldOrEmitCore(old(ClockNow()), u, canCarry)
    {
      var r;
      if u.core.Some? {
        var push := u.core.value;
        diag := Noted(diag, push.info);
        if canCarry && !SelfContained(push.info) {
          level := Some(push.info.level);
          return Hold(push);
        }
        r := EmitCoreFrame(u, u.core);
      } else {
        if InspectedAsCore(u) {
          return Emit(Err(CoreFailed));
        }
        diag := NotedInspection(diag, u);
        r := EmitCoreFrame(u, None);
      }
      out := Emit(r);
    }

    method DecodeSpeculating(u: AccessUnit, canCarry: bool) returns (out: Outcome)
      modifies this`guess, this`level, this`total, this`diag
      ensures (ClockNow(), out) == DecodeIndependent(old(ClockNow()), u, canCarry)
      ensures Agreeing(u) && HeaderAgrees(u, canCarry) ==> out == DecodeInspected(old(ClockNow()), u).1
    {
      if Agreeing(u) && HeaderAgrees(u, canCarry) {
        GuessIsTransparent(ClockNow(), u, canCarry);
      }
      if canCarry && !guess {
        var decoded: Option<Push> := u.core;
        if decoded.Some? {
          diag := Noted(diag, decoded.value.info);
          if !SelfContained(decoded.value.info) {
            level := Some(decoded.value.info.level);
            return Hold(decoded.value);
          }
          guess := true;
        } else {
          if InspectedAsCore(u) {
            return Emit(Err(CoreFailed));
          }
          diag := NotedInspection(diag, u);
        }
        var r := DecodeObjectFrame(u, decoded);
        return Emit(r);
      }
      if u.objects.Objects? && (!canCarry || SelfContained(u.objects.push.info)) {
        guess := true;
        diag := Noted(diag, u.objects.push.info);
        var r := BuildFrame(u, u.objects.push, true);
        return Emit(r);
      }
      guess := false;
      out := HoldOrEmit(u, canCarry);
    }

    method DecodeByInspection(u: AccessUnit) returns (out: Outcome)
      modifies this`level, this`total, this`diag
      ensures (ClockNow(), out) == DecodeInspected(old(ClockNow()), u)
    {
      if InspectedAsCore(u) {
        if u.core.None? {
          return Emit(Err(CoreFailed));
        }
        diag := NotedInspection(diag, u);
        level := Some(u.core.value.info.level);
        return Hold(u.core.value);
      }
      diag := NotedInspection(diag, u);
      var r := DecodeObjectFrame(u, None);
      out := Emit(r);
    }

    // -- presentations

    method MergeDependents(p: Presentation) returns (bed: Pcm, merged: bool)
      modifies this`diag
      ensures (bed, merged) == Bed(decoders, CorePcm(p.core), p.dependents)
      ensures diag == NotedAll(old(diag), p.dependents)
    {
      bed, merged := CorePcm(p.core), false;
      for i := 0 to |p.dependents|
        invariant (bed, merged) == Bed(decoders, CorePcm(p.core), p.dependents[..i])
        invariant diag == NotedAll(old(diag), p.dependents[..i])
      {
        assert p.dependents[..i + 1][..i] == p.dependents[..i];
        var h := p.dependents[i];
        diag := Noted(diag, h.info);
        var more := if h.channels.Some? then decoders.merge(bed, h.channels.value, h.info) else None;
        if more.Some? {
          bed, merged := more.value, true;
        }
      }
      assert p.dependents[..|p.dependents|] == p.dependents;
    }

    method Resolve(p: Presentation) returns (f: Frame)
      modifies this`level, this`total, this`diag
      ensures (ClockNow(), f) == Presented(decoders, old(ClockNow()), p)
    {
      var base := total;
      if p.dependents == [] {
        if p.core.Legacy? && p.core.unit.inspection.Ok? {
          level := Some(p.core.unit.inspection.value.level);
        }
        total := total + CorePcm(p.core).samples;
        return Frame(Group(p.core.unit, []), CorePcm(p.core), false, p.core.Plain? && p.core.push.metadata, base);
      }
      var bed, merged := MergeDependents(p);
      var last := p.dependents[|p.dependents| - 1];
      var from := Group(p.core.unit, Units(p.dependents));
      level := Some(last.info.level);
      if CarriesJoc(last.info) && !(merged && last.info.joc[0] == 5) {
        var answer := decoders.reconstruct(last.unit, bed);
        if answer.Objects? {
          level := Some(answer.push.info.level);
          total := total + answer.push.pcm.samples;
          return Frame(from, answer.push.pcm, true, answer.push.metadata, base);
        }
      }
      total := total + bed.samples;
      f := Frame(from, bed, false, false, base);
    }

    method FinishPresentation()
      requires Joined()
      modifies this`pending, this`level, this`total, this`diag, this`frames, this`played
      ensures Joined() && kept == old(kept)
      ensures Snap() == Finished(decoders, old(Snap()))
    {
      if pending.None? {
        return;
      }
      var p := pending.value;
      pending := None;
      var f := Resolve(p);
      Appended(kept, frames, [f]);
      frames, played := frames + [f], played + [f];
    }

    method PushDependent(h: Held)
      requires Joined()
      modifies this`pending, this`level, this`total, this`diag, this`dropped, this`frames, this`played
      ensures Joined() && kept == old(kept)
      ensures Snap() == Attached(decoders, old(Snap()), h)
    {
      if pending.None? {
        dropped := dropped + 1;
        return;
      }
      if |pending.value.dependents| >= MAX_DEPENDENTS {
        dropped := dropped + 1;
        FinishPresentation();
        return;
      }
      pending := Some(pending.value.(dependents := pending.value.dependents + [h]));
      if CarriesJoc(h.info) {
        FinishPresentation();
      }
    }

    /** A frame built on the spot, if it may go out. */
    method PassOn(f: Frame)
      requires Joined()
      modifies this`silenced, this`frames, this`played
      ensures Joined() && kept == old(kept)
      ensures Snap() == Passed(old(Snap()), f)
    {
      if !WellShaped(f) {
        return;
      }
      if TemporarySilence(f) {
        if silenced {
          return;
        }
        silenced := true;
      }
      Appended(kept, frames, [f]);
      frames, played := frames + [f], played + [f];
    }

    /** One access unit; `ok` is false when the pipeline asks to be reset. */
    method Process(u: AccessUnit) returns (ok: bool)
      requires Joined()
      modifies this`pending, this`guess, this`level, this`total, this`diag, this`dropped, this`silenced
      modifies this`frames, this`played
      ensures Joined() && kept == old(kept) && (Snap(), ok) == Processed(decoders, old(Snap()), u)
    {
      var isDependent := u.header == Some(Dependent);
      if isDependent && !u.legacy && pending.Some? && |pending.value.dependents| < MAX_DEPENDENTS {
        if u.dependent.Some? && u.dependent.value.info.frameType.Dependent? {
          PushDependent(Held(u, u.dependent.value.info, Some(u.dependent.value.pcm)));
          return true;
        }
      }
      if (u.legacy || isDependent) && u.inspection.Ok? && u.inspection.value.frameType.Dependent? {
        PushDependent(Held(u, u.inspection.value, None));
        return true;
      }
      FinishPresentation();
      ok := ProcessAlone(u);
    }

    method ProcessAlone(u: AccessUnit) returns (ok: bool)
      requires Joined()
      modifies this`pending, this`guess, this`level, this`total, this`diag, this`silenced, this`frames, this`played
      ensures Joined() && kept == old(kept) && (Snap(), ok) == OnItsOwn(old(Snap()), u)
    {
      if u.legacy {
        diag := NotedInspection(diag, u);
        if u.ac3.Some? {
          pending := Some(Presentation(Legacy(u, u.ac3.value), []));
          return true;
        }
        var silence := Frame(Alone(u), u.legacySilence, false, false, total);
        total := total + u.legacySilence.samples;
        PassOn(silence);
        return true;
      }
      var out;
      if u.header == Some(Dependent) {
        out := DecodeByInspection(u);
      } else {
        out := DecodeSpeculating(u, u.header == Some(Independent));
      }
      if out.Hold? {
        pending := Some(Presentation(Plain(u, out.push), []));
        return true;
      }
      if out.frame.Err? {
        return false;
      }
      PassOn(out.frame.value);
      return true;
    }
  }

  lemma Account(was: seq<Frame>, out: seq<Frame>, expected: seq<Frame>)
    requires UndatedAll(was + out) == UndatedAll(was) + expected
    ensures UndatedAll(out) == expected
  {
    UndatedBoth(was, out);
    BehindSame(UndatedAll(was), UndatedAll(out), expected);
  }

  lemma TailGrows(was: seq<Frame>, out: seq<Frame>, from: nat)
    requires from <= |was|
    ensures UndatedAll((was + out)[from..]) == UndatedAll(was[from..]) + UndatedAll(out)
  {
    assert (was + out)[from..] == was[from..] + out;
    UndatedBoth(was[from..], out);
  }
}
