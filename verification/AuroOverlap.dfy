/** Blocks of one carrier may overlap, but not without bound: a candidate is taken
    up seventeen samples after it starts, and at most four are in waiting. */
module AuroOverlap {
  import opened Bytes
  import opened AuroTrack

  function One(start: nat, size: nat, at: nat): nat {
    if start <= at < start + size then 1 else 0
  }

  /** How many candidates in waiting cover the sample `at`. */
  function Waiters(pending: seq<Candidate>, at: nat): (n: nat)
    ensures n <= |pending|
  {
    if pending == [] then 0
    else
      var c := pending[|pending| - 1];
      Waiters(pending[..|pending| - 1], at) + One(c.start, c.size, at)
  }

  /** How many reports do. */
  function Reporting(reports: seq<Report>, at: nat): nat {
    if reports == [] then 0
    else
      var r := reports[|reports| - 1];
      Reporting(reports[..|reports| - 1], at) + One(r.start, |r.block|, at)
  }

  function Hits(t: Track, at: nat): nat {
    Waiters(t.pending, at) + Reporting(t.reports, at)
  }

  lemma {:induction false} WaitersWith(pending: seq<Candidate>, i: nat, c: Candidate, at: nat)
    requires i < |pending|
    ensures Waiters(pending[i := c], at) + One(pending[i].start, pending[i].size, at)
         == Waiters(pending, at) + One(c.start, c.size, at)
  {
    var last := |pending| - 1;
    if i == last {
      assert pending[i := c][..last] == pending[..last];
    } else {
      assert pending[i := c][..last] == pending[..last][i := c];
      WaitersWith(pending[..last], i, c, at);
    }
  }

  lemma WaitersWithout(pending: seq<Candidate>, i: nat, at: nat)
    requires i < |pending|
    ensures Waiters(SwapRemove(pending, i), at) + One(pending[i].start, pending[i].size, at) == Waiters(pending, at)
  {
    var last := pending[|pending| - 1];
    WaitersWith(pending, i, last, at);
  }

  lemma WaitersMore(pending: seq<Candidate>, c: Candidate, at: nat)
    ensures Waiters(pending + [c], at) == Waiters(pending, at) + One(c.start, c.size, at)
  {
    assert (pending + [c])[..|pending|] == pending;
  }

  lemma ReportingMore(reports: seq<Report>, r: Report, at: nat)
    ensures Reporting(reports + [r], at) == Reporting(reports, at) + One(r.start, |r.block|, at)
  {
    assert (reports + [r])[..|reports|] == reports;
  }

  /** Settling a candidate turns a waiter into a report, or into nothing. */
  lemma {:induction false} SettledHits(p: Parser, heard: seq<i32>, t: Track, i: nat, at: nat)
    requires i <= |t.pending|
    ensures Hits(Settled(p, heard, t, i), at) <= Hits(t, at)
    decreases |t.pending| - i
  {
    if i < |t.pending| {
      var c := t.pending[i];
      if c.start + c.size > |heard| {
        SettledHits(p, heard, t, i + 1, at);
      } else {
        WaitersWithout(t.pending, i, at);
        var v := Verdict(p, c.start, BlockOf(heard, c));
        if v.Some? {
          ReportingMore(t.reports, v.value, at);
        }
        SettledHits(p, heard, SettledAt(p, heard, t, i), i, at);
      }
    }
  }

  /** No report covers what was not heard yet. */
  lemma {:induction false} NoneReported(reports: seq<Report>, at: nat)
    requires forall i | 0 <= i < |reports| :: reports[i].start + |reports[i].block| <= at
    ensures Reporting(reports, at) == 0
  {
    if reports != [] {
      NoneReported(reports[..|reports| - 1], at);
    }
  }

  lemma UnheardHits(p: Parser, heard: seq<i32>, at: nat)
    requires Lawful(p) && |heard| <= at
    ensures Hits(TrackOf(p, heard), at) <= MAX_PENDING
  {
    TrackIsSound(p, heard);
    var t := TrackOf(p, heard);
    forall i | 0 <= i < |t.reports|
      ensures t.reports[i].start + |t.reports[i].block| <= at
    {
      assert Faithful(p, heard, t.reports[i]);
    }
    NoneReported(t.reports, at);
  }

  /** One candidate more can come to cover a sample after it was heard, and then no
      other does: between two of them lie seventeen samples. */
  predicate Bounded(t: Track, heard: seq<i32>, at: nat) {
    Hits(t, at) <= MAX_PENDING || (Hits(t, at) <= MAX_PENDING + 1 && t.ones + at < |heard|)
  }

  lemma ProposedBounded(p: Parser, front: seq<i32>, heard: seq<i32>, t: Track, at: nat)
    requires Bounded(t, front, at) && t.ones < |heard| == |front| + 1 && at < |heard|
    ensures Bounded(Proposed(p, heard, t), heard, at)
  {
    var now := Proposed(p, heard, t);
    if now.pending != t.pending {
      var c := now.pending[|t.pending|];
      WaitersMore(t.pending, c, at);
      assert now.pending == t.pending + [c];
    }
  }

  /** At most five blocks of a carrier, reported or in waiting, share a sample. */
  lemma {:induction false} FewOverlap(p: Parser, heard: seq<i32>, at: nat)
    requires Lawful(p)
    ensures Bounded(TrackOf(p, heard), heard, at)
    decreases |heard|
  {
    if |heard| <= at {
      UnheardHits(p, heard, at);
    } else {
      var front := heard[..|heard| - 1];
      FewOverlap(p, front, at);
      ProposedBounded(p, front, heard, TrackOf(p, front), at);
      SettledHits(p, heard, Proposed(p, heard, TrackOf(p, front)), 0, at);
    }
  }
}
