/** E-AC-3 access units and the pipeline's answers to them: which decoder a unit
    goes to, what is held, and what a finished presentation becomes. The decoders
    are what they answer, unit by unit. */
module Eac3 {
  import opened Bytes

  const MAX_DEPENDENTS := 8
  const SILENCE_SAMPLES := 1536
  const SILENCE_CHANNELS := 6

  datatype FrameType = LegacyAc3 | Independent | Dependent | Ac3Convert

  /** What a decoder or an inspection says about a unit: its type, the channel
      counts of the JOC payloads it carries, its own channels, its dialogue level. */
  datatype Info = Info(frameType: FrameType, joc: seq<nat>, oamd: nat, fullband: nat, level: nat)

  predicate CarriesJoc(i: Info) {
    |i.joc| > 0
  }

  /** A JOC payload the unit's own channels satisfy. */
  predicate SelfContained(i: Info) {
    exists k | 0 <= k < |i.joc| :: i.fullband >= i.joc[k]
  }

  datatype Pcm = Pcm(rate: nat, samples: nat, channels: nat, data: seq<int>)

  /** A decode: what the unit said, its channels, and whether metadata comes with them. */
  datatype Push = Push(info: Info, pcm: Pcm, metadata: bool)

  datatype ObjectAnswer = Objects(push: Push) | NoObjects | ObjectError

  datatype Failure = NotEac3 | Other

  /** An access unit, as its header, the inspection and each decoder take it.
      `standIn` is the silence that replaces a core whose decode failed in a way
      known to recover; a legacy frame always has one. */
  datatype AccessUnit = AccessUnit(
    header: Option<FrameType>, legacy: bool, inspection: Result<Info, Failure>,
    core: Option<Push>, objects: ObjectAnswer, dependent: Option<Push>, ac3: Option<Pcm>,
    standIn: Option<Pcm>, legacySilence: Pcm)

  /** The decoders that take more than the unit: a dependent's channels merged
      onto a bed, and objects reconstructed from a unit and a bed. */
  datatype Decoders = Decoders(
    merge: (Pcm, Pcm, Info) -> Option<Pcm>,
    reconstruct: (AccessUnit, Pcm) -> ObjectAnswer)

  datatype Diag = Diag(total: nat, legacy: nat, independent: nat, dependent: nat, convert: nat, joc: nat, oamd: nat)

  function Noted(d: Diag, i: Info): Diag {
    d.(total := d.total + 1,
       legacy := d.legacy + if i.frameType.LegacyAc3? then 1 else 0,
       independent := d.independent + if i.frameType.Independent? then 1 else 0,
       dependent := d.dependent + if i.frameType.Dependent? then 1 else 0,
       convert := d.convert + if i.frameType.Ac3Convert? then 1 else 0,
       joc := d.joc + if CarriesJoc(i) then 1 else 0,
       oamd := d.oamd + if i.oamd > 0 then 1 else 0)
  }

  function NotedInspection(d: Diag, u: AccessUnit): Diag {
    if u.inspection.Ok? then Noted(d, u.inspection.value)
    else d.(total := d.total + 1, legacy := d.legacy + if u.inspection.error.NotEac3? && u.legacy then 1 else 0)
  }

  /** What decoding moves: the guess which decoder the next unit calls for, the
      timeline, the dialogue level in force, the diagnostics. */
  datatype Clock = Clock(guess: bool, total: nat, level: Option<nat>, diag: Diag)

  /** Where a frame comes from: one unit alone, or a core and the dependents behind it. */
  datatype Origin = Alone(unit: AccessUnit) | Group(core: AccessUnit, dependents: seq<AccessUnit>)

  datatype Frame = Frame(from: Origin, pcm: Pcm, objects: bool, metadata: bool, at: nat)

  datatype DecodeFailure = CoreFailed | UnitFailed

  datatype Outcome = Emit(frame: Result<Frame, DecodeFailure>) | Hold(push: Push)

  // ---- the routing, as the pipeline does it

  /** A frame built now: the timeline and, when it says one, the level move. */
  function Built(c: Clock, u: AccessUnit, p: Push, objects: bool): (Clock, Result<Frame, DecodeFailure>) {
    (c.(total := c.total + p.pcm.samples, level := Some(p.info.level)),
     Ok(Frame(Alone(u), p.pcm, objects, p.metadata, c.total)))
  }

  /** A decoded core emitted, or the silence that stands in for it. */
  function EmitCore(c: Clock, u: AccessUnit, push: Option<Push>): (Clock, Result<Frame, DecodeFailure>) {
    if push.Some? then Built(c, u, push.value, false)
    else if u.standIn.Some? then
      (c.(total := c.total + u.standIn.value.samples), Ok(Frame(Alone(u), u.standIn.value, false, false, c.total)))
    else (c, Err(UnitFailed))
  }

  function DecodeObjects(c: Clock, u: AccessUnit, decoded: Option<Push>): (Clock, Result<Frame, DecodeFailure>) {
    if u.objects.Objects? then Built(c, u, u.objects.push, true)
    else EmitCore(c, u, if decoded.Some? then decoded else u.core)
  }

  predicate InspectedAsCore(u: AccessUnit) {
    u.inspection.Ok? && u.inspection.value.frameType.Independent? && !SelfContained(u.inspection.value)
  }

  function Emitted(r: (Clock, Result<Frame, DecodeFailure>)): (Clock, Outcome) {
    (r.0, Emit(r.1))
  }

  function HoldOrEmitCore(c: Clock, u: AccessUnit, canCarry: bool): (Clock, Outcome) {
    if u.core.Some? then
      var push := u.core.value;
      var seen := c.(diag := Noted(c.diag, push.info));
      if canCarry && !SelfContained(push.info) then (seen.(level := Some(push.info.level)), Hold(push))
      else Emitted(EmitCore(seen, u, u.core))
    else if InspectedAsCore(u) then (c, Emit(Err(CoreFailed)))
    else Emitted(EmitCore(c.(diag := NotedInspection(c.diag, u)), u, None))
  }

  /** Straight to the decoder the previous unit called for, the other one only
      when the answer says so. */
  function DecodeIndependent(c: Clock, u: AccessUnit, canCarry: bool): (Clock, Outcome) {
    if canCarry && !c.guess then
      if u.core.Some? then
        var push := u.core.value;
        var seen := c.(diag := Noted(c.diag, push.info));
        if !SelfContained(push.info) then (seen.(level := Some(push.info.level)), Hold(push))
        else Emitted(DecodeObjects(seen.(guess := true), u, u.core))
      else if InspectedAsCore(u) then (c, Emit(Err(CoreFailed)))
      else Emitted(DecodeObjects(c.(diag := NotedInspection(c.diag, u)), u, None))
    else if u.objects.Objects? && (!canCarry || SelfContained(u.objects.push.info)) then
      Emitted(Built(c.(guess := true, diag := Noted(c.diag, u.objects.push.info)), u, u.objects.push, true))
    else HoldOrEmitCore(c.(guess := false), u, canCarry)
  }

  /** The rule, decided on a stateless inspection. */
  function DecodeInspected(c: Clock, u: AccessUnit): (Clock, Outcome) {
    if InspectedAsCore(u) then
      if u.core.Some? then
        (c.(diag := NotedInspection(c.diag, u), level := Some(u.core.value.info.level)), Hold(u.core.value))
      else (c, Emit(Err(CoreFailed)))
    else Emitted(DecodeObjects(c.(diag := NotedInspection(c.diag, u)), u, None))
  }

  // ---- the speculation changes nothing but the guess

  /** Inspection and decoders agree on what a unit is, and a unit no inspection
      gets through no decoder does. */
  predicate Agreeing(u: AccessUnit) {
    && (u.core.Some? ==> u.inspection == Ok(u.core.value.info))
    && (u.objects.Objects? ==> u.inspection == Ok(u.objects.push.info))
    && (u.dependent.Some? ==> u.inspection == Ok(u.dependent.value.info))
  }

  /** The header tells the same type as the inspection that gets through. */
  predicate HeaderAgrees(u: AccessUnit, canCarry: bool) {
    u.inspection.Ok? ==> canCarry == u.inspection.value.frameType.Independent?
  }

  function Unguessed(c: Clock): Clock {
    c.(guess := false)
  }

  /** Whatever the guess, a unit comes out as the inspection rule says, and moves
      everything but the guess as the rule does. */
  lemma GuessIsTransparent(c: Clock, u: AccessUnit, canCarry: bool)
    requires Agreeing(u) && HeaderAgrees(u, canCarry)
    ensures var spec, rule := DecodeIndependent(c, u, canCarry), DecodeInspected(c, u);
            spec.1 == rule.1 && Unguessed(spec.0) == Unguessed(rule.0)
  {
  }

  /** A run of units through the pipeline, and through the rule. */
  function RunGuessing(c: Clock, units: seq<(AccessUnit, bool)>): (Clock, seq<Outcome>)
    decreases units
  {
    if units == [] then (c, [])
    else
      var (next, out) := DecodeIndependent(c, units[0].0, units[0].1);
      var (last, rest) := RunGuessing(next, units[1..]);
      (last, [out] + rest)
  }

  function RunInspecting(c: Clock, units: seq<(AccessUnit, bool)>): (Clock, seq<Outcome>)
    decreases units
  {
    if units == [] then (c, [])
    else
      var (next, out) := DecodeInspected(c, units[0].0);
      var (last, rest) := RunInspecting(next, units[1..]);
      (last, [out] + rest)
  }

  /** A whole stream decodes as the inspection rule says, from either guess. */
  lemma {:induction false} StreamsDecodeByTheRule(c: Clock, d: Clock, units: seq<(AccessUnit, bool)>)
    requires forall i | 0 <= i < |units| :: Agreeing(units[i].0) && HeaderAgrees(units[i].0, units[i].1)
    requires Unguessed(c) == Unguessed(d)
    ensures RunGuessing(c, units).1 == RunInspecting(d, units).1
    ensures Unguessed(RunGuessing(c, units).0) == Unguessed(RunInspecting(d, units).0)
    decreases units
  {
    if units != [] {
      var (u, canCarry) := units[0];
      GuessIsTransparent(c, u, canCarry);
      InspectionIgnoresGuess(c, d, u);
      StreamsDecodeByTheRule(DecodeIndependent(c, u, canCarry).0, DecodeInspected(d, u).0, units[1..]);
    }
  }

  lemma InspectionIgnoresGuess(c: Clock, d: Clock, u: AccessUnit)
    requires Unguessed(c) == Unguessed(d)
    ensures DecodeInspected(c, u).1 == DecodeInspected(d, u).1
    ensures Unguessed(DecodeInspected(c, u).0) == Unguessed(DecodeInspected(d, u).0)
  {
  }

  /** Decoders that answer differently make the guess show in what a unit comes out
      as, and exactly then: the object decoder finds objects, in a unit that may
      carry dependents, and takes it for complete where the core decoder, or the
      inspection when that fails, does not, or the other way about. */
  lemma GuessShowsExactly(c: Clock, u: AccessUnit, canCarry: bool)
    ensures DecodeIndependent(c.(guess := false), u, canCarry).1 != DecodeIndependent(c.(guess := true), u, canCarry).1
       <==> canCarry && u.objects.Objects? && SelfContained(u.objects.push.info) != CompleteToCore(u)
  {
    if canCarry && u.objects.Objects? {
      var p := u.objects.push;
      assert SelfContained(p.info) ==>
        DecodeIndependent(c.(guess := true), u, true).1 == Emit(Ok(Frame(Alone(u), p.pcm, true, p.metadata, c.total)));
    }
  }

  /** What a unit is without the object decoder being asked. */
  predicate CompleteToCore(u: AccessUnit) {
    if u.core.Some? then SelfContained(u.core.value.info) else !InspectedAsCore(u)
  }
}
