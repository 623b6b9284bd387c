/** Presentations assembled: a core is held until the units behind it say which
    dependents are its own, and then comes out as one frame. */
module Eac3Assembly {
  import opened Bytes
  import opened Eac3

  /** A core in hand. */
  datatype Core = Legacy(unit: AccessUnit, pcm: Pcm) | Plain(unit: AccessUnit, push: Push)

  /** A dependent that has attached itself, with its channels if its decode gave any. */
  datatype Held = Held(unit: AccessUnit, info: Info, channels: Option<Pcm>)

  datatype Presentation = Presentation(core: Core, dependents: seq<Held>)

  /** `silenced` says a temporary silence already went out in this drain. */
  datatype State = State(pending: Option<Presentation>, clock: Clock, dropped: nat, silenced: bool, frames: seq<Frame>)

  const START: Clock := Clock(false, 0, None, Diag(0, 0, 0, 0, 0, 0, 0))

  function CorePcm(c: Core): Pcm {
    if c.Legacy? then c.pcm else c.push.pcm
  }

  function Units(deps: seq<Held>): (r: seq<AccessUnit>)
    ensures |r| == |deps|
  {
    if deps == [] then [] else Units(deps[..|deps| - 1]) + [deps[|deps| - 1].unit]
  }

  /** The bed after the first `n` dependents, merged in bitstream order, and
      whether any of them was. */
  function Bed(d: Decoders, core: Pcm, deps: seq<Held>): (Pcm, bool) {
    if deps == [] then (core, false)
    else
      var (bed, merged) := Bed(d, core, deps[..|deps| - 1]);
      var last := deps[|deps| - 1];
      var more := if last.channels.Some? then d.merge(bed, last.channels.value, last.info) else None;
      if more.Some? then (more.value, true) else (bed, merged)
  }

  function NotedAll(diag: Diag, deps: seq<Held>): Diag {
    if deps == [] then diag else Noted(NotedAll(diag, deps[..|deps| - 1]), deps[|deps| - 1].info)
  }

  /** The frame of a core and the dependents behind it: objects when the last of
      them carries JOC that can be reconstructed, the merged bed otherwise. */
  function Merged(d: Decoders, c: Clock, p: Presentation): (Clock, Frame)
    requires p.dependents != []
  {
    var last := p.dependents[|p.dependents| - 1];
    var (bed, merged) := Bed(d, CorePcm(p.core), p.dependents);
    var noted := c.(diag := NotedAll(c.diag, p.dependents), level := Some(last.info.level));
    var from := Group(p.core.unit, Units(p.dependents));
    var answer := if !CarriesJoc(last.info) || (merged && last.info.joc[0] == 5) then NoObjects
      else d.reconstruct(last.unit, bed);
    if answer.Objects? then
      (noted.(total := c.total + answer.push.pcm.samples, level := Some(answer.push.info.level)),
       Frame(from, answer.push.pcm, true, answer.push.metadata, c.total))
    else (noted.(total := c.total + bed.samples), Frame(from, bed, false, false, c.total))
  }

  /** The frame of a core nothing attached itself to. */
  function Standing(c: Clock, p: Core): (Clock, Frame) {
    var pcm := CorePcm(p);
    var level := if p.Legacy? && p.unit.inspection.Ok? then Some(p.unit.inspection.value.level) else c.level;
    (c.(total := c.total + pcm.samples, level := level),
     Frame(Group(p.unit, []), pcm, false, p.Plain? && p.push.metadata, c.total))
  }

  function Presented(d: Decoders, c: Clock, p: Presentation): (Clock, Frame) {
    if p.dependents == [] then Standing(c, p.core) else Merged(d, c, p)
  }

  /** Whatever is in hand is resolved into exactly one frame. */
  function Finished(d: Decoders, s: State): State {
    if s.pending.None? then s
    else
      var (clock, frame) := Presented(d, s.clock, s.pending.value);
      s.(pending := None, clock := clock, frames := s.frames + [frame])
  }

  /** A dependent joins the presentation in hand, unless there is none or it is full. */
  function Attached(d: Decoders, s: State, h: Held): State {
    if s.pending.None? then s.(dropped := s.dropped + 1)
    else if |s.pending.value.dependents| >= MAX_DEPENDENTS then Finished(d, s.(dropped := s.dropped + 1))
    else
      var joined := s.(pending := Some(s.pending.value.(dependents := s.pending.value.dependents + [h])));
      if CarriesJoc(h.info) then Finished(d, joined) else joined
  }

  predicate HasRoom(s: State) {
    s.pending.Some? && |s.pending.value.dependents| < MAX_DEPENDENTS
  }

  predicate DecodesAsDependent(u: AccessUnit) {
    u.header == Some(Dependent) && !u.legacy && u.dependent.Some? && u.dependent.value.info.frameType.Dependent?
  }

  predicate InspectsAsDependent(u: AccessUnit) {
    (u.legacy || u.header == Some(Dependent)) && u.inspection.Ok? && u.inspection.value.frameType.Dependent?
  }

  /** A frame that may go out: its samples are there. */
  predicate WellShaped(f: Frame) {
    f.pcm.samples > 0 && f.pcm.rate > 0 && f.pcm.channels > 0 && |f.pcm.data| == f.pcm.samples * f.pcm.channels
  }

  predicate TemporarySilence(f: Frame) {
    && f.pcm.rate != 0 && f.pcm.samples == SILENCE_SAMPLES && f.pcm.channels == SILENCE_CHANNELS && !f.metadata
    && forall i | 0 <= i < |f.pcm.data| :: f.pcm.data[i] == 0
  }

  /** A frame built on the spot goes out, unless it is malformed or a second
      temporary silence. */
  function Passed(s: State, f: Frame): State {
    if !WellShaped(f) || (TemporarySilence(f) && s.silenced) then s
    else s.(silenced := s.silenced || TemporarySilence(f), frames := s.frames + [f])
  }

  /** What a unit that is no dependent does, with nothing in hand, and whether the
      pipeline goes on: it asks to be reset when nothing can be made of the unit. */
  function OnItsOwn(s: State, u: AccessUnit): (State, bool) {
    if u.legacy then
      var seen := s.(clock := s.clock.(diag := NotedInspection(s.clock.diag, u)));
      if u.ac3.Some? then (seen.(pending := Some(Presentation(Legacy(u, u.ac3.value), []))), true)
      else (Passed(seen.(clock := seen.clock.(total := s.clock.total + u.legacySilence.samples)),
                   Frame(Alone(u), u.legacySilence, false, false, s.clock.total)), true)
    else
      var (clock, out) := Routed(s.clock, u);
      var seen := s.(clock := clock);
      if out.Hold? then (seen.(pending := Some(Presentation(Plain(u, out.push), []))), true)
      else if out.frame.Ok? then (Passed(seen, out.frame.value), true)
      else (seen, false)
  }

  /** By inspection when the header had called the unit a dependent, else by the guess. */
  function Routed(c: Clock, u: AccessUnit): (Clock, Outcome) {
    if u.header == Some(Dependent) then DecodeInspected(c, u)
    else DecodeIndependent(c, u, u.header == Some(Independent))
  }

  /** A unit that can join what is in hand is decoded for it, any other inspected. */
  predicate AsDependent(u: AccessUnit, room: bool) {
    (room && DecodesAsDependent(u)) || InspectsAsDependent(u)
  }

  function HeldOf(u: AccessUnit, room: bool): Held
    requires AsDependent(u, room)
  {
    if room && DecodesAsDependent(u) then Held(u, u.dependent.value.info, Some(u.dependent.value.pcm))
    else Held(u, u.inspection.value, None)
  }

  /** One access unit. */
  function Processed(d: Decoders, s: State, u: AccessUnit): (State, bool) {
    if AsDependent(u, HasRoom(s)) then (Attached(d, s, HeldOf(u, HasRoom(s))), true)
    else OnItsOwn(Finished(d, s), u)
  }

  /** A run of units, as far as one asks for a reset. */
  function Run(d: Decoders, s: State, units: seq<AccessUnit>): (State, bool)
    decreases units
  {
    if units == [] then (s, true)
    else
      var (next, ok) := Processed(d, s, units[0]);
      if ok then Run(d, next, units[1..]) else (next, false)
  }
}
