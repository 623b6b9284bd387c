/** Finding where a stream starts in raw bytes: the scan for the earliest start
    in a window, and the host that shows a stream to a probe read by read. */
module Probe {
  import opened Bytes

  /** What a family makes of a candidate start at the first byte it is shown. */
  datatype Start = Claim | Need(needed: nat) | Reject

  datatype Verdict = Claimed | Pending | Nothing

  datatype Answer = Answer(verdict: Verdict, offset: nat, needed: nat)

  type Check = seq<byte> -> Start

  /** A position does not fit the answer's 32-bit field past `U32_MAX`. */
  function Offset(value: nat): nat {
    if value <= U32_MAX then value else U32_MAX
  }

  /** A decided answer survives more bytes; a pending one asks for more than it
      was shown, and nothing is claimed before the bytes it asked for. (No
      check is ever shown an empty slice.) */
  ghost predicate LawfulOn(check: Check, s: seq<byte>, t: seq<byte>) {
    s != [] ==>
      match check(s)
      case Need(n) => n > |s| && (|s| + |t| < n ==> !check(s + t).Claim?)
      case decided => check(s + t) == decided
  }

  ghost predicate Lawful(check: Check) {
    forall s, t :: LawfulOn(check, s, t)
  }

  /** No start of this family is pending past `most` bytes. */
  ghost predicate NeedsAtMost(check: Check, most: nat) {
    most > 0 && forall s :: s != [] && check(s).Need? ==> check(s).needed <= most
  }

  ghost predicate RejectedBefore(check: Check, data: seq<byte>, p: nat)
    requires p <= |data|
  {
    forall q | 0 <= q < p :: check(data[q..]) == Reject
  }

  /** `p` is the earliest start the whole stream holds, and it is a valid one. */
  ghost predicate EarliestStart(check: Check, stream: seq<byte>, p: nat) {
    p < |stream| && check(stream[p..]) == Claim && RejectedBefore(check, stream, p)
  }

  lemma EarliestStartIsUnique(check: Check, stream: seq<byte>, p: nat, q: nat)
    requires EarliestStart(check, stream, p) && EarliestStart(check, stream, q)
    ensures p == q
  {
  }

  /** The scan answers for the first candidate the check does not reject. */
  ghost predicate Answers(check: Check, data: seq<byte>, at: nat, r: Answer) {
    && at <= |data|
    && RejectedBefore(check, data, at)
    && (at == |data| ==> r == Answer(Nothing, Offset(at), 0))
    && (at < |data| ==>
          match check(data[at..])
          case Claim => r == Answer(Claimed, Offset(at), 0)
          case Need(n) => r == Answer(Pending, Offset(at), Offset(n))
          case Reject => false)
  }

  method ScanRaw(check: Check, data: seq<byte>) returns (r: Answer, ghost first: nat)
    ensures Answers(check, data, first, r)
    ensures |data| <= U32_MAX ==> Answers(check, data, r.offset, r)
  {
    for at := 0 to |data|
      invariant RejectedBefore(check, data, at)
    {
      match check(data[at..]) {
        case Claim => return Answer(Claimed, Offset(at), 0), at;
        case Need(needed) => return Answer(Pending, Offset(at), Offset(needed)), at;
        case Reject =>
      }
    }
    return Answer(Nothing, Offset(|data|), 0), |data|;
  }

  /** `Some(answer)` while the sync word is undecided or wrong; `None` once all of it is there. */
  function SyncPrefix(data: seq<byte>, sync: seq<byte>): (r: Option<Start>)
    ensures r == None <==> sync <= data
    ensures r == Some(Reject) <==> !(sync <= data) && !(data <= sync)
    ensures r.Some? && r != Some(Reject) ==> r == Some(Need(|sync|)) && |data| < |sync|
  {
    var shown := Min(|data|, |sync|);
    if data[..shown] != sync[..shown] then Some(Reject)
    else if shown < |sync| then Some(Need(|sync|))
    else assert data[..shown] == sync; None
  }

  lemma RejectionSurvives(check: Check, stream: seq<byte>, from: nat, read: nat, more: nat, at: nat)
    requires Lawful(check)
    requires from + at <= read <= more <= |stream|
    requires RejectedBefore(check, stream[..read], from)
    requires RejectedBefore(check, stream[from..read], at)
    ensures RejectedBefore(check, stream[..more], from + at)
  {
    forall q | 0 <= q < from + at
      ensures check(stream[..more][q..]) == Reject
    {
      if q < from {
        assert stream[..read][q..] == stream[q..read];
      } else {
        assert stream[from..read][q - from..] == stream[q..read];
      }
      assert LawfulOn(check, stream[q..read], stream[read..more]);
      assert stream[..more][q..] == stream[q..read] + stream[read..more];
    }
  }

  /** A claim seen on the bytes read so far holds of the whole stream. */
  lemma ClaimIsEarliest(check: Check, stream: seq<byte>, from: nat, read: nat, at: nat)
    requires Lawful(check)
    requires from + at < read <= |stream|
    requires RejectedBefore(check, stream[..read], from)
    requires RejectedBefore(check, stream[from..read], at)
    requires check(stream[from..read][at..]) == Claim
    ensures EarliestStart(check, stream, from + at)
  {
    RejectionSurvives(check, stream, from, read, |stream|, at);
    assert stream[..|stream|] == stream;
    assert stream[from..read][at..] == stream[from + at..read];
    assert LawfulOn(check, stream[from + at..read], stream[read..]);
    assert stream[from + at..] == stream[from + at..read] + stream[read..];
  }

  /** Up to `p`, no part of this stream leaves a start pending past `end`. */
  ghost predicate NeedsBy(check: Check, stream: seq<byte>, p: nat, end: nat) {
    p < end
    && forall q, r | 0 <= q <= p && q < r <= |stream| && check(stream[q..r]).Need? ::
         q + check(stream[q..r]).needed <= end
  }

  /** A family that bounds what it asks for does so on every stream. */
  lemma BoundedNeeds(check: Check, most: nat, stream: seq<byte>, p: nat)
    requires NeedsAtMost(check, most)
    ensures NeedsBy(check, stream, p, p + most)
  {
  }

  /** A window cannot rule out a start the whole stream holds, nor leave it
      pending once everything asked for has been shown. */
  lemma WindowCannotPass(check: Check, stream: seq<byte>, p: nat, end: nat, read: nat, from: nat, at: nat)
    requires Lawful(check) && NeedsBy(check, stream, p, end)
    requires EarliestStart(check, stream, p)
    requires from <= p && from + at <= read <= |stream|
    requires RejectedBefore(check, stream[from..read], at)
    ensures from + at <= p || read <= p
    ensures from + at < read && check(stream[from..read][at..]).Need? ==>
      from + at + check(stream[from..read][at..]).needed <= end
    ensures end <= read && from + at < read && check(stream[from..read][at..]) != Reject
            ==> from + at == p && check(stream[from..read][at..]) == Claim
  {
    if p < read {
      assert stream[from..read][p - from..] == stream[p..read];
      assert LawfulOn(check, stream[p..read], stream[read..]);
      assert stream[p..] == stream[p..read] + stream[read..];
    }
    if from + at < read && from + at <= p {
      assert stream[from..read][at..] == stream[from + at..read];
      assert LawfulOn(check, stream[from + at..read], stream[read..]);
      assert stream[from + at..] == stream[from + at..read] + stream[read..];
    }
  }

  datatype Replay = Replay(claim: Option<nat>, read: nat, shown: nat, calls: nat, mostNeeded: nat)

  /** The host has not run late: its next probe starts no further than the
      stream's start and waits for no more than what was asked for up to it. */
  ghost predicate OnTime(check: Check, stream: seq<byte>, from: nat, read: nat, waitUntil: nat) {
    forall p: nat, end: nat {:trigger NeedsBy(check, stream, p, end)}
      | EarliestStart(check, stream, p) && NeedsBy(check, stream, p, end) ::
      from <= p && (read == 0 || read < end) && waitUntil <= Max(end, read + 1)
  }

  /** A probe that claims nothing leaves the host on time. */
  lemma ProbeKeepsOnTime(check: Check, stream: seq<byte>, from: nat, before: nat, waitUntil: nat,
                         read: nat, at: nat, wait': nat)
    requires Lawful(check)
    requires OnTime(check, stream, from, before, waitUntil)
    requires from + at <= read <= |stream|
    requires RejectedBefore(check, stream[from..read], at)
    requires from + at == read ==> wait' == read + 1
    requires from + at < read ==> check(stream[from..read][at..]).Need? &&
                                  wait' <= from + at + check(stream[from..read][at..]).needed
    ensures OnTime(check, stream, from + at, read, wait')
  {
    forall p: nat, end: nat | EarliestStart(check, stream, p) && NeedsBy(check, stream, p, end)
      ensures from + at <= p && (read == 0 || read < end) && wait' <= Max(end, read + 1)
    {
      WindowCannotPass(check, stream, p, end, read, from, at);
    }
  }

  lemma SkippedReadKeepsOnTime(check: Check, stream: seq<byte>, from: nat, before: nat, waitUntil: nat, read: nat)
    requires OnTime(check, stream, from, before, waitUntil)
    requires before < read < waitUntil
    ensures OnTime(check, stream, from, read, waitUntil)
  {
  }

  /** Every start whose asking the stream answers has been claimed, by the first
      read that reached so far. */
  ghost predicate ClaimedInTime(check: Check, stream: seq<byte>, replay: Replay, before: nat) {
    forall p: nat, end: nat {:trigger NeedsBy(check, stream, p, end)}
      | EarliestStart(check, stream, p) && NeedsBy(check, stream, p, end) && end <= |stream| ::
      replay.claim == Some(p) && before < end
  }

  ghost predicate NeverMore(check: Check, replay: Replay) {
    forall most: nat {:trigger NeedsAtMost(check, most)} | NeedsAtMost(check, most) :: replay.mostNeeded <= most
  }

  /** What a probe of one window answers, its fields exact. */
  ghost predicate Exact(check: Check, window: seq<byte>, answer: Answer) {
    var at := answer.offset;
    && at <= |window| && (answer.verdict.Nothing? <==> at == |window|)
    && (answer.verdict.Claimed? ==> check(window[at..]) == Claim)
    && (answer.verdict.Pending? ==>
          check(window[at..]).Need? && |window| - at < answer.needed == Offset(check(window[at..]).needed))
  }

  lemma StillRejected(check: Check, stream: seq<byte>, from: nat, read: nat, more: nat)
    requires Lawful(check) && from <= read <= more <= |stream| && RejectedBefore(check, stream[..read], from)
    ensures RejectedBefore(check, stream[..more], from)
  {
    RejectionSurvives(check, stream, from, read, more, 0);
  }

  lemma NothingReadYet(check: Check, stream: seq<byte>)
    ensures OnTime(check, stream, 0, 0, 0) && RejectedBefore(check, stream[..0], 0)
  {
  }

  /** With everything read and nothing claimed, no start was answered in full. */
  lemma AllRead(check: Check, stream: seq<byte>, from: nat, waitUntil: nat, replay: Replay, before: nat)
    requires OnTime(check, stream, from, |stream|, waitUntil)
    ensures ClaimedInTime(check, stream, replay, before)
  {
  }

  /** What the host does with an exact answer that claims nothing. */
  lemma AnsweredOnTime(check: Check, stream: seq<byte>, from: nat, before: nat, waitUntil: nat, read: nat,
                       answer: Answer)
    requires Lawful(check) && OnTime(check, stream, from, before, waitUntil) && from < read <= |stream|
    requires Exact(check, stream[from..read], answer) && RejectedBefore(check, stream[from..read], answer.offset)
    ensures answer.verdict.Pending? ==>
      OnTime(check, stream, from + answer.offset, read, from + answer.offset + answer.needed)
    ensures answer.verdict.Nothing? ==> OnTime(check, stream, from + answer.offset, read, read + 1)
  {
    if answer.verdict.Pending? {
      ProbeKeepsOnTime(check, stream, from, before, waitUntil, read, answer.offset,
        from + answer.offset + answer.needed);
    } else if answer.verdict.Nothing? {
      ProbeKeepsOnTime(check, stream, from, before, waitUntil, read, answer.offset, read + 1);
    }
  }

  /** And with one that claims. */
  lemma ClaimedNow(check: Check, stream: seq<byte>, from: nat, before: nat, waitUntil: nat, read: nat, answer: Answer,
                   replay: Replay)
    requires Lawful(check) && OnTime(check, stream, from, before, waitUntil) && from < read <= |stream|
    requires Exact(check, stream[from..read], answer) && answer.verdict.Claimed?
    requires RejectedBefore(check, stream[..read], from) && RejectedBefore(check, stream[from..read], answer.offset)
    requires replay.claim == Some(from + answer.offset)
    ensures EarliestStart(check, stream, from + answer.offset) && ClaimedInTime(check, stream, replay, before)
  {
    ClaimIsEarliest(check, stream, from, read, answer.offset);
  }

  /** A request that was made is one of the family's. */
  lemma AskedMore(check: Check, window: seq<byte>, answer: Answer, replay: Replay)
    requires NeverMore(check, replay) && Exact(check, window, answer) && answer.verdict.Pending?
    ensures NeverMore(check, replay.(mostNeeded := Max(replay.mostNeeded, answer.needed)))
    ensures answer.needed > |window| - answer.offset
  {
  }

  lemma AskedNothing(check: Check, replay: Replay)
    requires replay.mostNeeded == 0
    ensures NeverMore(check, replay)
  {
  }

  lemma AskedSame(check: Check, replay: Replay, more: Replay)
    requires NeverMore(check, replay) && more.mostNeeded == replay.mostNeeded
    ensures NeverMore(check, more)
  {
  }

  /** One call of the probe: a window that fits 32 bits gets an exact answer, and of
      a longer one nothing is passed over either. */
  method ProbeWindow(check: Check, stream: seq<byte>, from: nat, read: nat) returns (answer: Answer)
    requires Lawful(check) && from < read <= |stream|
    requires RejectedBefore(check, stream[..read], from)
    ensures answer.offset <= read - from && RejectedBefore(check, stream[from..read], answer.offset)
    ensures RejectedBefore(check, stream[..read], from + answer.offset)
    ensures read - from < U32_MAX ==> Exact(check, stream[from..read], answer)
  {
    var window := stream[from..read];
    ghost var first;
    answer, first := ScanRaw(check, window);
    RejectionSurvives(check, stream, from, read, read, answer.offset);
    assert LawfulOn(check, window[answer.offset..], []);
  }

  /** The host's loop. As long as no window shown outgrows the 32 bits of an
      answer: what it claims is the earliest start of the whole stream, whatever the
      reads; when the stream holds one and answers all that is asked for up to it,
      it is claimed by the first read that reaches so far; and the loop's own
      assertion (`ok`: a pending start asks for more than it was shown) never fails. */
  method ReplayReads(check: Check, stream: seq<byte>, schedule: seq<nat>)
    returns (replay: Replay, ok: bool, ghost before: nat, ghost longest: nat)
    requires Lawful(check)
    ensures |stream| < U32_MAX ==> longest < U32_MAX
    ensures ok && replay.claim.None? ==> replay.read == |stream|
    ensures longest < U32_MAX ==>
      && ok && NeverMore(check, replay) && ClaimedInTime(check, stream, replay, before)
      && (replay.claim.Some? ==>
            EarliestStart(check, stream, replay.claim.value) && replay.claim.value < replay.read <= |stream|)
  {
    hide OnTime, ClaimedInTime, RejectedBefore, NeverMore, NeedsBy, EarliestStart, LawfulOn, Lawful, Exact;
    replay, ok := Replay(None, 0, 0, 0, 0), true;
    before, longest := 0, 0;
    var from: nat, waitUntil: nat, next := 0, 0, 0;
    NothingReadYet(check, stream);
    AskedNothing(check, replay);
    while replay.read < |stream|
      invariant replay.claim.None? && from <= replay.read <= |stream| && longest <= |stream|
      invariant RejectedBefore(check, stream[..replay.read], from)
      invariant longest < U32_MAX ==> NeverMore(check, replay) && OnTime(check, stream, from, replay.read, waitUntil)
      decreases |stream| - replay.read
    {
      var read := Max(if next < |schedule| then schedule[next] else |stream|, 1);
      next := next + 1;
      before := replay.read;
      ghost var was := replay;
      replay := replay.(read := Min(replay.read + read, |stream|));
      StillRejected(check, stream, from, before, replay.read);
      if replay.read < waitUntil || from >= replay.read {
        if longest < U32_MAX {
          SkippedReadKeepsOnTime(check, stream, from, before, waitUntil, replay.read);
          AskedSame(check, was, replay);
        }
        continue;
      }
      longest := Max(longest, replay.read - from);
      var answer := ProbeWindow(check, stream, from, replay.read);
      replay := replay.(calls := replay.calls + 1, shown := replay.shown + (replay.read - from));
      if longest < U32_MAX {
        AskedSame(check, was, replay);
        AnsweredOnTime(check, stream, from, before, waitUntil, replay.read, answer);
      }
      match answer.verdict {
        case Claimed =>
          ghost var claimed := replay.(claim := Some(from + answer.offset));
          if longest < U32_MAX {
            AskedSame(check, was, claimed);
            ClaimedNow(check, stream, from, before, waitUntil, replay.read, answer, claimed);
          }
          replay := replay.(claim := Some(from + answer.offset));
          return;
        case Pending =>
          if longest < U32_MAX {
            AskedMore(check, stream[from..replay.read], answer, replay);
          }
          if answer.needed <= replay.read - from - answer.offset {
            ok := false;
            return;
          }
          replay := replay.(mostNeeded := Max(replay.mostNeeded, answer.needed));
          from := from + answer.offset;
          waitUntil := from + answer.needed;
        case Nothing =>
          from := from + answer.offset;
          waitUntil := replay.read + 1;
      }
    }
    if longest < U32_MAX {
      AllRead(check, stream, from, waitUntil, replay, before);
    }
  }
}
