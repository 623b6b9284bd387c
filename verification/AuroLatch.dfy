/** The latch over all carriers of a stream: a configuration is announced once
    enough validated blocks in a row agree on it. */
module AuroLatch {
  import opened Bytes

  const CONFIRMATIONS := 3

  /** What a validated block with a known layout announces. */
  datatype Announcement = Announcement(config: nat, blockSize: nat)

  /** The announcement counted now, and how many blocks in a row agreed with it. */
  datatype Candidate = Candidate(a: Announcement, agreed: nat)

  datatype Latch = Latch(candidate: Option<Candidate>, latched: Option<Announcement>)

  function Seen(l: Latch, a: Announcement): Latch {
    if l.latched.Some? then l
    else
      var agreed := if l.candidate.Some? && l.candidate.value.a == a then l.candidate.value.agreed + 1 else 1;
      Latch(Some(Candidate(a, agreed)), if agreed >= CONFIRMATIONS then Some(a) else None)
  }

  function SeenAll(announced: seq<Announcement>): Latch {
    if announced == [] then Latch(None, None)
    else Seen(SeenAll(announced[..|announced| - 1]), announced[|announced| - 1])
  }

  /** Block `k` is the third in a row to say the same. */
  predicate ThirdAt(announced: seq<Announcement>, k: nat) {
    2 <= k < |announced| && announced[k] == announced[k - 1] == announced[k - 2]
  }

  predicate NoneBefore(announced: seq<Announcement>, n: nat) {
    forall k | 0 <= k < n :: !ThirdAt(announced, k)
  }

  /** How many of the last announcements agree. */
  function TrailingRun(announced: seq<Announcement>): nat {
    var n := |announced|;
    if n == 0 then 0
    else if n == 1 || announced[n - 1] != announced[n - 2] then 1
    else TrailingRun(announced[..n - 1]) + 1
  }

  /** Before anything latched, the candidate counts the trailing run. */
  lemma {:induction false} CountsTrailingRun(announced: seq<Announcement>)
    requires SeenAll(announced).latched.None?
    ensures var l, n := SeenAll(announced), |announced|;
            if n == 0 then l.candidate.None?
            else
              && l.candidate == Some(Candidate(announced[n - 1], TrailingRun(announced)))
              && TrailingRun(announced) < CONFIRMATIONS
  {
    var n := |announced|;
    if n > 0 {
      CountsTrailingRun(announced[..n - 1]);
    }
  }

  lemma {:induction false} RunOfThree(announced: seq<Announcement>)
    requires announced != []
    ensures TrailingRun(announced) >= CONFIRMATIONS <==> ThirdAt(announced, |announced| - 1)
  {
    var n := |announced|;
    if n >= 3 {
      var front := announced[..n - 1];
      assert front[..n - 2] == announced[..n - 2];
      assert TrailingRun(announced[..n - 2]) >= 1;
    }
  }

  lemma ThirdAtPrefix(announced: seq<Announcement>, n: nat)
    requires n <= |announced|
    ensures forall k: nat | k < n :: ThirdAt(announced[..n], k) == ThirdAt(announced, k)
  {
  }

  /** It latches on what three blocks in a row agreed on, the first time any three
      did, and on nothing else; and it never lets go. */
  lemma {:induction false} LatchesOnFirstThree(announced: seq<Announcement>)
    ensures var l := SeenAll(announced).latched;
            && (l.None? <==> NoneBefore(announced, |announced|))
            && (l.Some? ==>
                  exists k: nat :: ThirdAt(announced, k) && NoneBefore(announced, k) && announced[k] == l.value)
  {
    var n := |announced|;
    if n > 0 {
      var front := announced[..n - 1];
      LatchesOnFirstThree(front);
      ThirdAtPrefix(announced, n - 1);
      if SeenAll(front).latched.Some? {
        var k: nat :| ThirdAt(front, k) && NoneBefore(front, k) && front[k] == SeenAll(front).latched.value;
        assert ThirdAt(announced, k) && NoneBefore(announced, k);
      } else {
        CountsTrailingRun(front);
        RunOfThree(announced);
        assert SeenAll(announced).latched.Some? <==> TrailingRun(announced) >= CONFIRMATIONS;
      }
    }
  }
}
