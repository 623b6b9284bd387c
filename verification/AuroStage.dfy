/** The Auro-3D stage behind the DTS-HD decoder: frames are held until the
    carrier is confirmed or ruled out, and then unfolded or passed on. */
module AuroStage {
  import opened Bytes
  import opened AuroBits
  import opened AuroRestore
  import opened AuroUnfold
  import Detector = AuroDetector
  import Heard = AuroHeard
  import Latch = AuroLatch
  import Track = AuroTrack

  const NO_BLOCK_LIMIT := 2 * MAX_BLOCK
  const HOLD_LIMIT := 4 * MAX_BLOCK

  /** A decoded frame: its channels interleaved. */
  datatype Frame = Frame(samples: nat, channels: nat, pcm: seq<i32>)

  /** One frame as it arrives: its bed's speakers, and the lossless samples of each. */
  datatype Input = Input(frame: Frame, speakers: seq<nat>, lossless: seq<(nat, seq<i32>)>)

  datatype Out = AsIs(frame: Frame) | Unfolded(samples: nat, channels: nat, pcm: seq<int>)

  datatype Held = Held(frame: Frame, speakers: seq<nat>)

  /** What the stage is given: the unfolder's gains, the configurations with known
      layouts, and the streams of each one's original layout where it has a list. */
  datatype Env = Env(amplify: Amplify, known: nat -> bool, streams: nat -> Option<seq<nat>>)

  /** What the carriers were fed, and how much of it is out. */
  datatype Progress = Progress(carriers: seq<nat>, fed: seq<seq<i32>>, released: nat, latency: nat, outputs: seq<nat>)

  datatype Phase =
    | Undecided(sensing: Detector.Sensing, held: seq<Held>, heldSamples: nat)
    | Unfolding(u: Progress)
    | Plain

  /** Nothing heard, nothing held. */
  const START := Undecided(Detector.Sensing([], []), [], 0)

  function Positions(fed: seq<seq<i32>>): (r: seq<nat>)
    ensures |r| == |fed|
  {
    seq(|fed|, c requires 0 <= c < |fed| => |fed[c]|)
  }

  predicate Sound(u: Progress) {
    |u.fed| == |u.carriers| && u.released <= FrontierOf(Positions(u.fed), u.latency)
  }

  /** The bed stream a speaker plays as. */
  function SpeakerStream(speaker: nat): nat {
    if speaker < 9 then [2, 0, 1, 4, 5, 3, 6, 7, 8][speaker] else 0xFF
  }

  function IdsOf(carriers: seq<nat>): (r: seq<nat>)
    ensures |r| == |carriers|
  {
    seq(|carriers|, c requires 0 <= c < |carriers| => SpeakerStream(carriers[c]))
  }

  // ---- detecting

  /** A detector with no channels yet gets one for every speaker up to the last. */
  function Readied(s: Detector.Sensing, speakers: seq<nat>): Detector.Sensing {
    if s.heard == [] then Detector.Sensing(seq(Channels(speakers), _ => []), []) else s
  }

  function Channels(speakers: seq<nat>): nat {
    if speakers == [] then 0 else Max(Channels(speakers[..|speakers| - 1]), speakers[|speakers| - 1] + 1)
  }

  /** A frame's lossless samples through the detector, and what latched last. */
  function SensedFrame(env: Env, s: Detector.Sensing, lossless: seq<(nat, seq<i32>)>)
    : (Detector.Sensing, Option<Latch.Announcement>)
    decreases lossless
  {
    if lossless == [] then (s, None)
    else
      var (was, before) := SensedFrame(env, s, lossless[..|lossless| - 1]);
      var (speaker, samples) := lossless[|lossless| - 1];
      var now := Detector.Sensed(Track.BlockParser(), env.known, was, speaker, samples);
      (now, if Detector.Latches(was, now).Some? then Detector.Latches(was, now) else before)
  }

  // ---- feeding

  /** The first carrier a speaker plays on. */
  function IndexOf(carriers: seq<nat>, speaker: nat): (i: Option<nat>)
    ensures i.Some? ==> i.value < |carriers| && carriers[i.value] == speaker
    ensures i.None? ==> speaker !in carriers
  {
    if carriers == [] then None
    else if carriers[0] == speaker then Some(0)
    else
      var i := IndexOf(carriers[1..], speaker);
      if i.None? then None else Some(i.value + 1)
  }

  function Fed(fed: seq<seq<i32>>, c: nat, samples: seq<i32>): (r: seq<seq<i32>>)
    requires c < |fed|
    ensures |r| == |fed|
  {
    fed[c := fed[c] + samples]
  }

  function Nothing(n: nat): (r: seq<seq<i32>>)
    ensures |r| == n && forall c | 0 <= c < n :: r[c] == []
  {
    seq(n, _ => [])
  }

  /** A frame's lossless samples, each to the carrier of its speaker. */
  function FedFrame(carriers: seq<nat>, fed: seq<seq<i32>>, lossless: seq<(nat, seq<i32>)>): (r: seq<seq<i32>>)
    requires |fed| == |carriers|
    ensures |r| == |fed|
    decreases lossless
  {
    if lossless == [] then fed
    else
      var front, (speaker, samples) := FedFrame(carriers, fed, lossless[..|lossless| - 1]), lossless[|lossless| - 1];
      var i := IndexOf(carriers, speaker);
      if i.None? then front else Fed(front, i.value, samples)
  }

  /** Every read of a held frame's column finds a sample. */
  ghost predicate Readable(f: Frame, columns: nat) {
    forall s, index | 0 <= s < f.samples && 0 <= index < columns :: InPcm(f, s, index)
  }

  ghost predicate InPcm(f: Frame, s: nat, index: nat) {
    s * f.channels + index < |f.pcm|
  }

  /** A frame as decoders make it. */
  predicate Shaped(f: Frame) {
    |f.pcm| == f.samples * f.channels
  }

  /** Reading the first carrier's columns off a frame stays in range exactly when it
      has no samples, or as many channels as there are carriers. */
  lemma ReadableExactly(f: Frame, columns: nat)
    requires Shaped(f)
    ensures Readable(f, columns) <==> f.samples == 0 || columns <= f.channels
  {
    if f.samples > 0 && columns > f.channels {
      var last := f.samples - 1;
      assert last * f.channels + f.channels == f.samples * f.channels;
      assert !InPcm(f, last, f.channels);
    } else if f.samples > 0 {
      forall s, index | 0 <= s < f.samples && 0 <= index < columns
        ensures InPcm(f, s, index)
      {
        assert s * f.channels + f.channels == (s + 1) * f.channels <= f.samples * f.channels;
      }
    }
  }

  /** One column of a frame; past its samples, nothing. */
  function Column(f: Frame, index: nat): (r: seq<i32>)
    ensures |r| == f.samples
  {
    seq(f.samples, s requires 0 <= s < f.samples =>
      if s * f.channels + index < |f.pcm| then f.pcm[s * f.channels + index] else 0)
  }

  /** Every carrier fed the column at its own index, whatever the frame's speakers. */
  function FedColumns(fed: seq<seq<i32>>, f: Frame): (r: seq<seq<i32>>)
    ensures |r| == |fed|
  {
    seq(|fed|, c requires 0 <= c < |fed| => fed[c] + Column(f, c))
  }

  // ---- draining

  /** Everything takeable is taken, as one frame. */
  function Drained(env: Env, u: Progress): (Progress, seq<Out>)
    requires Sound(u)
  {
    var ready := FrontierOf(Positions(u.fed), u.latency) - u.released;
    var n := if u.outputs == [] then 0 else ready;
    if ready == 0 then (u, [])
    else (u.(released := u.released + n), [Unfolded(n, |u.outputs|, Pcm(env, u, u.released, n))])
  }

  /** What the carriers fed so far sound like, from one place on. */
  function Pcm(env: Env, u: Progress, from: nat, n: nat): seq<int>
    requires Sound(u) && from + n <= FrontierOf(Positions(u.fed), u.latency)
  {
    Track.BlockParserIsLawful();
    BehindAll(Positions(u.fed), u.latency);
    WithinFed(u, from + n);
    Heard.FramesOf(Track.BlockParser(), env.amplify, IdsOf(u.carriers), u.outputs, u.fed, from, n)
  }

  lemma WithinFed(u: Progress, end: nat)
    requires end <= FrontierOf(Positions(u.fed), u.latency)
    ensures forall c | 0 <= c < |u.fed| :: end <= |u.fed[c]|
  {
    BehindAll(Positions(u.fed), u.latency);
    forall c | 0 <= c < |u.fed|
      ensures end <= |u.fed[c]|
    {
      assert Positions(u.fed)[c] == |u.fed[c]|;
    }
  }

  lemma FedOn(u: Progress, more: seq<seq<i32>>)
    requires Sound(u) && |more| == |u.fed| && forall c | 0 <= c < |more| :: u.fed[c] <= more[c]
    ensures Sound(u.(fed := more))
  {
    FrontierGrows(Positions(u.fed), Positions(more), u.latency);
  }

  lemma {:induction false} FedForward(carriers: seq<nat>, fed: seq<seq<i32>>, lossless: seq<(nat, seq<i32>)>)
    requires |fed| == |carriers|
    ensures forall c | 0 <= c < |fed| :: fed[c] <= FedFrame(carriers, fed, lossless)[c]
    decreases lossless
  {
    if lossless != [] {
      FedForward(carriers, fed, lossless[..|lossless| - 1]);
    }
  }

  // ---- the phases

  function Released(held: seq<Held>): (r: seq<Out>)
    ensures |r| == |held|
  {
    seq(|held|, i requires 0 <= i < |held| => AsIs(held[i].frame))
  }

  /** An unfolder for the carrier that was confirmed, with nothing in it yet. */
  function Opened(speakers: seq<nat>, blockSize: nat, outputs: seq<nat>): (u: Progress)
    ensures Sound(u)
  {
    Progress(speakers, Nothing(|speakers|), 0, Min(blockSize, LATENCY), outputs)
  }

  /** The held frames through the unfolder, one after the other. */
  function Replayed(env: Env, u: Progress, held: seq<Held>): (r: (Progress, seq<Out>))
    requires Sound(u)
    ensures Sound(r.0) && r.0.carriers == u.carriers && r.0.latency == u.latency && r.0.outputs == u.outputs
  {
    if held == [] then (u, [])
    else
      var (front, outs) := Replayed(env, u, held[..|held| - 1]);
      var fed := FedColumns(front.fed, held[|held| - 1].frame);
      FedOn(front, fed);
      var (last, more) := Drained(env, front.(fed := fed));
      (last, outs + more)
  }

  /** All columns read for the replay are there. */
  ghost predicate InRange(held: seq<Held>)
    requires held != []
  {
    forall i | 0 <= i < |held| :: Readable(held[i].frame, |held[0].speakers|)
  }

  /** The carrier is confirmed: what was held is replayed, unless the layout has no
      known streams. `None`: a column was read past the end of a frame. */
  ghost function Started(env: Env, held: seq<Held>, a: Latch.Announcement): Option<(Phase, seq<Out>)>
    requires held != []
  {
    if env.streams(a.config).None? then Some((Plain, Released(held)))
    else if !InRange(held) then None
    else
      var (u, outs) := Replayed(env, Opened(held[0].speakers, a.blockSize, env.streams(a.config).value), held);
      Some((Unfolding(u), outs))
  }

  predicate Able(p: Phase) {
    p.Unfolding? ==> Sound(p.u)
  }

  /** One frame. `None`: the stage panics over it. */
  ghost function Routed(env: Env, p: Phase, x: Input): (r: Option<(Phase, seq<Out>)>)
    requires Able(p)
    ensures r.Some? ==> Able(r.value.0)
  {
    match p
    case Plain => Some((Plain, [AsIs(x.frame)]))
    case Unfolding(u) =>
      var fed := FedFrame(u.carriers, u.fed, x.lossless);
      FedForward(u.carriers, u.fed, x.lossless);
      FedOn(u, fed);
      var (next, outs) := Drained(env, u.(fed := fed));
      Some((Unfolding(next), outs))
    case Undecided(sensing, held, heldSamples) =>
      if x.frame.channels != |x.speakers| then Some((Plain, Released(held) + [AsIs(x.frame)]))
      else
        var (now, latched) := SensedFrame(env, Readied(sensing, x.speakers), x.lossless);
        var more, total := held + [Held(x.frame, x.speakers)], heldSamples + x.frame.samples;
        if latched.Some? then Started(env, more, latched.value)
        else if total > Limit(now, x.speakers) then Some((Plain, Released(more)))
        else Some((Undecided(now, more, total), []))
  }

  /** How much is held before giving up: more once a block was valid. */
  ghost function Limit(s: Detector.Sensing, speakers: seq<nat>): nat {
    if Detector.AnyValid(Track.BlockParser(), s.heard, speakers) then HOLD_LIMIT else NO_BLOCK_LIMIT
  }

  /** A frame without lossless output rules the carrier out. */
  function RuledOut(p: Phase): (Phase, seq<Out>) {
    if p.Undecided? then (Plain, Released(p.held)) else (p, [])
  }

  datatype Event = Route(x: Input) | NoLossless

  /** A panic resets the stage, and what it held is lost. */
  ghost function Handled(env: Env, p: Phase, e: Event): (r: (Phase, seq<Out>))
    requires Able(p)
    ensures Able(r.0)
  {
    if e.NoLossless? then RuledOut(p)
    else
      var r := Routed(env, p, e.x);
      if r.Some? then r.value else (START, [])
  }

  ghost function Run(env: Env, events: seq<Event>): (r: (Phase, seq<Out>))
    ensures Able(r.0)
  {
    if events == [] then (START, [])
    else
      var (p, outs) := Run(env, events[..|events| - 1]);
      var (next, more) := Handled(env, p, events[|events| - 1]);
      (next, outs + more)
  }

  lemma RunSnoc(env: Env, events: seq<Event>, e: Event)
    ensures var (p, outs) := Run(env, events);
            Run(env, events + [e]) == (Handled(env, p, e).0, outs + Handled(env, p, e).1)
  {
    assert (events + [e])[..|events|] == events;
  }
}
