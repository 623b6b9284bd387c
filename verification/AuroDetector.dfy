/** The detector over all channels: one ring and candidate list a channel, and one
    latch that sees every channel's validated blocks as they are completed. */
module AuroDetector {
  import opened Bytes
  import opened AuroLatch
  import opened AuroTrack
  import AuroBits
  import Detect = AuroDetect

  /** The configurations whose original and carrier layouts are both known. */
  type Known = nat -> bool

  /** What a validated block says to the latch, if its layouts are known. */
  function AnnouncementOf(known: Known, r: Report): Option<Announcement> {
    if r.info.config.Some? && known(r.info.config.value) then
      Some(Announcement(r.info.config.value, r.info.header.blockSize))
    else None
  }

  function Listed(a: Option<Announcement>): seq<Announcement> {
    if a.Some? then [a.value] else []
  }

  function Announcements(known: Known, reports: seq<Report>): seq<Announcement> {
    if reports == [] then []
    else Announcements(known, reports[..|reports| - 1]) + Listed(AnnouncementOf(known, reports[|reports| - 1]))
  }

  lemma {:induction false} AnnouncementsBoth(known: Known, a: seq<Report>, b: seq<Report>)
    ensures Announcements(known, a + b) == Announcements(known, a) + Announcements(known, b)
  {
    if b == [] {
      assert a + b == a;
    } else {
      assert (a + b)[..|a + b| - 1] == a + b[..|b| - 1];
      AnnouncementsBoth(known, a, b[..|b| - 1]);
    }
  }

  /** What every channel has heard, and what was announced, in the order it came. */
  datatype Sensing = Sensing(heard: seq<seq<i32>>, announced: seq<Announcement>)

  /** The reports that `samples` complete behind `heard`. */
  function NewReports(p: Parser, heard: seq<i32>, samples: seq<i32>): seq<Report> {
    var was, now := TrackOf(p, heard).reports, TrackOf(p, heard + samples).reports;
    if |was| <= |now| then now[|was|..] else []
  }

  lemma ReportsJoin(p: Parser, heard: seq<i32>, samples: seq<i32>)
    requires Lawful(p)
    ensures TrackOf(p, heard + samples).reports == TrackOf(p, heard).reports + NewReports(p, heard, samples)
  {
    ReportsGrow(p, heard, heard + samples);
  }

  /** The next samples of one channel; a channel there is not is not heard. */
  function Sensed(p: Parser, known: Known, s: Sensing, channel: nat, samples: seq<i32>): (r: Sensing)
    ensures |r.heard| == |s.heard|
  {
    if channel >= |s.heard| then s
    else
      var heard := s.heard[channel];
      Sensing(s.heard[channel := heard + samples], s.announced + Announcements(known, NewReports(p, heard, samples)))
  }

  /** What latches with them, the first time only. */
  function Latches(s: Sensing, next: Sensing): Option<Announcement> {
    if SeenAll(s.announced).latched.Some? then None else SeenAll(next.announced).latched
  }

  // ---- whole runs

  datatype Pushed = Pushed(channel: nat, samples: seq<i32>)

  function SensedAll(p: Parser, known: Known, n: nat, pushes: seq<Pushed>): (r: Sensing)
    ensures |r.heard| == n
  {
    if pushes == [] then Sensing(seq(n, _ => []), [])
    else
      var last := pushes[|pushes| - 1];
      Sensed(p, known, SensedAll(p, known, n, pushes[..|pushes| - 1]), last.channel, last.samples)
  }

  lemma SensedMore(p: Parser, known: Known, n: nat, pushes: seq<Pushed>, last: Pushed)
    ensures SensedAll(p, known, n, pushes + [last])
         == Sensed(p, known, SensedAll(p, known, n, pushes), last.channel, last.samples)
  {
    assert (pushes + [last])[..|pushes|] == pushes;
  }

  /** Everything pushed to one channel. */
  function HeardOn(pushes: seq<Pushed>, c: nat): seq<i32> {
    if pushes == [] then []
    else
      var last := pushes[|pushes| - 1];
      HeardOn(pushes[..|pushes| - 1], c) + if last.channel == c then last.samples else []
  }

  /** A report, and the channel it is of. */
  datatype Arrival = Arrival(channel: nat, report: Report)

  function Arriving(channel: nat, reports: seq<Report>): (r: seq<Arrival>)
    ensures |r| == |reports|
  {
    seq(|reports|, i requires 0 <= i < |reports| => Arrival(channel, reports[i]))
  }

  /** The reports of all channels, in the order they are completed. */
  function Arrivals(p: Parser, n: nat, pushes: seq<Pushed>): seq<Arrival> {
    if pushes == [] then []
    else
      var front, last := pushes[..|pushes| - 1], pushes[|pushes| - 1];
      Arrivals(p, n, front)
      + if last.channel < n then Arriving(last.channel, NewReports(p, HeardOn(front, last.channel), last.samples))
        else []
  }

  function ReportsOf(arrivals: seq<Arrival>): (r: seq<Report>)
    ensures |r| == |arrivals|
  {
    seq(|arrivals|, i requires 0 <= i < |arrivals| => arrivals[i].report)
  }

  function OfChannel(arrivals: seq<Arrival>, c: nat): seq<Report> {
    if arrivals == [] then []
    else
      var last := arrivals[|arrivals| - 1];
      OfChannel(arrivals[..|arrivals| - 1], c) + if last.channel == c then [last.report] else []
  }

  lemma {:induction false} OfChannelMore(arrivals: seq<Arrival>, channel: nat, reports: seq<Report>, c: nat)
    ensures OfChannel(arrivals + Arriving(channel, reports), c)
      == OfChannel(arrivals, c) + if channel == c then reports else []
  {
    if reports == [] {
      assert arrivals + Arriving(channel, reports) == arrivals;
    } else {
      var n := |reports| - 1;
      var all := arrivals + Arriving(channel, reports);
      assert all[..|all| - 1] == arrivals + Arriving(channel, reports[..n]);
      OfChannelMore(arrivals, channel, reports[..n], c);
    }
  }

  lemma {:induction false} HeardIsPushed(p: Parser, known: Known, n: nat, pushes: seq<Pushed>, c: nat)
    requires c < n
    ensures SensedAll(p, known, n, pushes).heard[c] == HeardOn(pushes, c)
  {
    if pushes != [] {
      HeardIsPushed(p, known, n, pushes[..|pushes| - 1], c);
      assert HeardOn(pushes[..|pushes| - 1], c) + [] == HeardOn(pushes[..|pushes| - 1], c);
    }
  }

  /** Each channel's reports arrive in the order and number its samples come to. */
  lemma {:induction false} ArrivalsAreTracks(p: Parser, n: nat, pushes: seq<Pushed>, c: nat)
    requires Lawful(p) && c < n
    ensures OfChannel(Arrivals(p, n, pushes), c) == TrackOf(p, HeardOn(pushes, c)).reports
  {
    hide NewReports;
    if pushes == [] {
      assert TrackOf(p, []).reports == [];
    } else {
      hide TrackOf;
      var front, last := pushes[..|pushes| - 1], pushes[|pushes| - 1];
      var arrivals, heard := Arrivals(p, n, front), HeardOn(front, last.channel);
      ArrivalsAreTracks(p, n, front, c);
      assert HeardOn(front, c) + [] == HeardOn(front, c) && arrivals + [] == arrivals;
      if last.channel < n {
        OfChannelMore(arrivals, last.channel, NewReports(p, heard, last.samples), c);
        ReportsJoin(p, heard, last.samples);
      }
    }
  }

  lemma MoreArrived(known: Known, arrivals: seq<Arrival>, channel: nat, added: seq<Report>)
    ensures Announcements(known, ReportsOf(arrivals + Arriving(channel, added)))
         == Announcements(known, ReportsOf(arrivals)) + Announcements(known, added)
  {
    assert ReportsOf(arrivals + Arriving(channel, added)) == ReportsOf(arrivals) + added;
    AnnouncementsBoth(known, ReportsOf(arrivals), added);
  }

  lemma {:induction false} AnnouncedIsArrived(p: Parser, known: Known, n: nat, pushes: seq<Pushed>)
    ensures SensedAll(p, known, n, pushes).announced == Announcements(known, ReportsOf(Arrivals(p, n, pushes)))
  {
    if pushes == [] {
      assert Announcements(known, []) == [] && ReportsOf([]) == [];
    } else {
      hide TrackOf, NewReports, Announcements, ReportsOf, Arriving;
      var front, last := pushes[..|pushes| - 1], pushes[|pushes| - 1];
      AnnouncedIsArrived(p, known, n, front);
      var arrivals := Arrivals(p, n, front);
      if last.channel < n {
        HeardIsPushed(p, known, n, front, last.channel);
        MoreArrived(known, arrivals, last.channel, NewReports(p, HeardOn(front, last.channel), last.samples));
      } else {
        assert arrivals + [] == arrivals;
      }
    }
  }

  /** What the latch sees is the channels' own reports, each channel's in the order
      and number its samples come to, interleaved as they are completed. */
  lemma LatchSeesEveryChannel(p: Parser, known: Known, n: nat, pushes: seq<Pushed>)
    requires Lawful(p)
    ensures var s, arrivals := SensedAll(p, known, n, pushes), Arrivals(p, n, pushes);
            && (forall c: nat | c < n ::
                  s.heard[c] == HeardOn(pushes, c) && OfChannel(arrivals, c) == TrackOf(p, s.heard[c]).reports)
            && s.announced == Announcements(known, ReportsOf(arrivals))
  {
    hide *;
    forall c: nat | c < n
      ensures SensedAll(p, known, n, pushes).heard[c] == HeardOn(pushes, c)
      ensures OfChannel(Arrivals(p, n, pushes), c) == TrackOf(p, HeardOn(pushes, c)).reports
    {
      HeardIsPushed(p, known, n, pushes, c);
      ArrivalsAreTracks(p, n, pushes, c);
    }
    AnnouncedIsArrived(p, known, n, pushes);
  }

  /** So it latches on the first three of them in a row that agree. */
  lemma LatchesAcrossChannels(p: Parser, known: Known, n: nat, pushes: seq<Pushed>)
    requires Lawful(p)
    ensures var l, announced := SeenAll(SensedAll(p, known, n, pushes).announced).latched,
                                Announcements(known, ReportsOf(Arrivals(p, n, pushes)));
            && (l.None? <==> NoneBefore(announced, |announced|))
            && (l.Some? ==>
                  exists k: nat :: ThirdAt(announced, k) && NoneBefore(announced, k) && announced[k] == l.value)
  {
    LatchSeesEveryChannel(p, known, n, pushes);
    LatchesOnFirstThree(Announcements(known, ReportsOf(Arrivals(p, n, pushes))));
  }

  // ---- the detector

  /** A channel has a valid block among those asked about. */
  predicate AnyValid(p: Parser, heard: seq<seq<i32>>, channels: seq<nat>) {
    exists i | 0 <= i < |channels| :: channels[i] < |heard| && TrackOf(p, heard[channels[i]]).valid > 0
  }

  ghost predicate HasHeard(d: Detect.ChannelDetector, p: Parser, heard: seq<i32>)
    reads d, d.ring
  {
    d.Valid() && d.p == p && d.heard == heard
  }

  /** The next samples of a channel, and the reports they complete. */
  method HearOn(d: Detect.ChannelDetector, scratch: array<i32>, ghost p: Parser, ghost heard: seq<i32>,
                samples: seq<i32>)
    returns (reports: seq<Report>)
    requires HasHeard(d, p, heard) && Lawful(p) && scratch != d.ring && scratch.Length >= AuroBits.MAX_BLOCK
    modifies d, d.ring, scratch
    ensures HasHeard(d, p, heard + samples) && reports == NewReports(p, heard, samples)
  {
    reports := d.Push(samples, scratch);
    ReportsJoin(p, heard, samples);
    BehindSame(TrackOf(p, heard).reports, reports, NewReports(p, heard, samples));
  }

  /** A detector for each channel, of storage allocated once. */
  method NewChannels(n: nat) returns (all: seq<Detect.ChannelDetector>, room: array<i32>, ghost owned: set<object>)
    ensures |all| == n && room.Length == AuroBits.MAX_BLOCK && fresh(owned) && room in owned
    ensures forall c | 0 <= c < n :: {all[c], all[c].ring as object} <= owned && all[c].ring != room
    ensures forall c, d | 0 <= c < d < n :: all[c] != all[d] && all[c].ring != all[d].ring
    ensures forall c | 0 <= c < n :: all[c].Valid() && all[c].p == BlockParser() && all[c].heard == []
  {
    room := new i32[AuroBits.MAX_BLOCK](_ => 0);
    all, owned := [], {room};
    while |all| < n
      invariant |all| <= n && fresh(owned) && room in owned
      invariant forall c | 0 <= c < |all| :: {all[c], all[c].ring as object} <= owned && all[c].ring != room
      invariant forall c, d | 0 <= c < d < |all| :: all[c] != all[d] && all[c].ring != all[d].ring
      invariant forall c | 0 <= c < |all| :: all[c].Valid() && all[c].p == BlockParser() && all[c].heard == []
    {
      var d := new Detect.ChannelDetector();
      all := all + [d];
      owned := owned + {d, d.ring};
    }
  }

  class Detector {
    const channels: seq<Detect.ChannelDetector>
    const scratch: array<i32>
    const known: Known
    var candidate: Option<AuroLatch.Candidate>
    var latched: Option<Announcement>
    ghost const p: Parser
    ghost const Repr: set<object>
    ghost var sensing: Sensing
    ghost var pushes: seq<Pushed>

    /** The channels' storage is apart. */
    ghost predicate Owns() {
      && this in Repr && scratch in Repr && scratch.Length == AuroBits.MAX_BLOCK
      && (forall c | 0 <= c < |channels| ::
            {channels[c], channels[c].ring as object} <= Repr && channels[c].ring != scratch)
      && forall c, d | 0 <= c < d < |channels| :: channels[c] != channels[d] && channels[c].ring != channels[d].ring
    }

    /** Each channel has heard its part. */
    ghost predicate Hears(heard: seq<seq<i32>>)
      requires Owns()
      reads Repr - {this}
    {
      |heard| == |channels| && forall c: nat | c < |channels| :: HasHeard(channels[c], p, heard[c])
    }

    ghost predicate Valid()
      reads this, Repr
    {
      && Owns() && Lawful(p) && Hears(sensing.heard) && Latch(candidate, latched) == SeenAll(sensing.announced)
      && sensing == SensedAll(p, known, |channels|, pushes)
    }

    constructor (n: nat, known: Known)
      ensures Valid() && fresh(Repr) && p == BlockParser() && this.known == known
      ensures |channels| == n && sensing == Sensing(seq(n, _ => []), []) && pushes == []
    {
      var all, room, owned := NewChannels(n);
      channels, scratch := all, room;
      this.known := known;
      candidate, latched := None, None;
      p := BlockParser();
      Repr := {this} + owned;
      sensing, pushes := Sensing(seq(n, _ => []), []), [];
      new;
      BlockParserIsLawful();
    }

    /** The next samples of one channel; what latched with them, the first time only. */
    method Push(channel: nat, samples: seq<i32>) returns (r: Option<Announcement>)
      requires Valid()
      modifies Repr
      ensures Valid() && sensing == Sensed(p, known, old(sensing), channel, samples)
      ensures pushes == old(pushes) + [Pushed(channel, samples)]
      ensures r == Latches(old(sensing), sensing)
    {
      var already := latched.Some?;
      SensedMore(p, known, |channels|, pushes, Pushed(channel, samples));
      pushes := pushes + [Pushed(channel, samples)];
      if channel >= |channels| {
        return None;
      }
      hide HasHeard, NewReports, Announcements, SeenAll, Hears, Owns;
      var reports := HearChannel(channel, samples, sensing.heard);
      ObserveAll(reports);
      sensing := Sensed(p, known, sensing, channel, samples);
      r := if already then None else latched;
    }

    method HearChannel(channel: nat, samples: seq<i32>, ghost heard: seq<seq<i32>>) returns (reports: seq<Report>)
      requires Owns() && Lawful(p) && Hears(heard) && channel < |channels|
      modifies Repr - {this}
      ensures Owns() && Hears(heard[channel := heard[channel] + samples])
      ensures reports == NewReports(p, heard[channel], samples)
    {
      hide HasHeard, NewReports;
      reports := HearOn(channels[channel], scratch, p, heard[channel], samples);
    }

    method ObserveAll(reports: seq<Report>)
      requires Latch(candidate, latched) == SeenAll(sensing.announced)
      modifies this`candidate, this`latched
      ensures Latch(candidate, latched) == SeenAll(sensing.announced + Announcements(known, reports))
    {
      assert sensing.announced + Announcements(known, []) == sensing.announced;
      for i := 0 to |reports|
        invariant Latch(candidate, latched) == SeenAll(sensing.announced + Announcements(known, reports[..i]))
      {
        assert reports[..i + 1][..i] == reports[..i];
        Observe(reports[i], sensing.announced + Announcements(known, reports[..i]));
        AppendListed(sensing.announced, Announcements(known, reports[..i]), AnnouncementOf(known, reports[i]));
      }
      assert reports[..|reports|] == reports;
    }

    /** One validated block. A block without a known configuration counts for nothing. */
    method Observe(r: Report, ghost before: seq<Announcement>)
      requires Latch(candidate, latched) == SeenAll(before)
      modifies this`candidate, this`latched
      ensures Latch(candidate, latched) == SeenAll(before + Listed(AnnouncementOf(known, r)))
    {
      var a := AnnouncementOf(known, r);
      if a.None? {
        assert before + [] == before;
        return;
      }
      assert (before + [a.value])[..|before|] == before;
      if latched.Some? {
        return;
      }
      var agreed := if candidate.Some? && candidate.value.a == a.value then candidate.value.agreed + 1 else 1;
      candidate := Some(AuroLatch.Candidate(a.value, agreed));
      if agreed >= CONFIRMATIONS {
        latched := a;
      }
    }

    /** Whether any of these channels has had a valid block. */
    method HasValidBlock(asked: seq<nat>) returns (any: bool)
      requires Valid()
      ensures any == AnyValid(p, sensing.heard, asked)
    {
      for i := 0 to |asked|
        invariant forall j | 0 <= j < i :: !(asked[j] < |channels| && TrackOf(p, sensing.heard[asked[j]]).valid > 0)
      {
        if asked[i] < |channels| {
          assert HasHeard(channels[asked[i]], p, sensing.heard[asked[i]]);
          if channels[asked[i]].validBlocks > 0 {
            return true;
          }
        }
      }
      return false;
    }
  }

  lemma BehindSame(a: seq<Report>, b: seq<Report>, c: seq<Report>)
    requires a + b == a + c
    ensures b == c
  {
    assert b == (a + b)[|a|..] && c == (a + c)[|a|..];
  }

  lemma AppendListed(a: seq<Announcement>, b: seq<Announcement>, last: Option<Announcement>)
    ensures a + b + Listed(last) == a + (b + Listed(last))
  {
  }
}
