/** On a stream of back-to-back blocks the detector finds every block, at its
    start, once, in order, when its last sample arrives. */
module AuroCompleteness {
  import opened Bytes
  import opened AuroBits
  import opened AuroBlock
  import opened AuroTrack

  /** A block as an encoder sends it: sixteen ones, its reserved bits clear, and
      longer than its header, which announces its length. */
  ghost predicate Sent(p: Parser, b: seq<i32>) {
    && |b| > SYNC_SAMPLES
    && (forall i | 0 <= i < SYNC_SAMPLES :: p.one(b[i]))
    && (forall i | 0 < i < |b| && i % 16 == 0 :: !p.one(b[i]))
    && p.look(b).Some? && p.look(b).value.blockSize == |b|
  }

  /** Which is so of any samples the block parser takes for a block of that
      length with its reserved bits clear. */
  lemma AnnouncedBlockIsSent(b: seq<i32>)
    requires ParseSync(b).Some? && ParseSync(b).value.blockSize == |b| > SYNC_SAMPLES && ReservedClear(b, |b|)
    ensures Sent(BlockParser(), b)
  {
    assert AllSync(b);
  }

  /** Where the run of ones may stand after `r` samples of a block. */
  predicate RunWithin(ones: nat, r: nat) {
    if r == 0 then ones < SYNC_SAMPLES else if r <= SYNC_SAMPLES then ones >= r else ones <= (r - 1) % 16
  }

  /** The track after `r` samples of a block that starts where `u` was reached. */
  function Within(p: Parser, before: seq<i32>, b: seq<i32>, r: nat, u: Track): Track
    requires r <= |b|
  {
    var c := Candidate(|before|, |b|);
    if r <= SYNC_SAMPLES then u
    else if r < |b| then u.(pending := [c], admitted := u.admitted + 1)
    else Judged(p, before + b, c, u.(admitted := u.admitted + 1))
  }

  function Calm(t: Track): Track {
    t.(ones := 0)
  }

  lemma RunOn(ones: nat, r: nat, one: bool)
    requires RunWithin(ones, r) && (r < SYNC_SAMPLES ==> one) && (r > 0 && r % 16 == 0 ==> !one)
    ensures RunWithin(if one then ones + 1 else 0, r + 1)
    ensures !one && r != SYNC_SAMPLES ==> ones < SYNC_SAMPLES
    ensures r == SYNC_SAMPLES ==> ones >= SYNC_SAMPLES
  {
  }

  /** The header's closing zero proposes the block's own start. */
  lemma HeaderProposes(p: Parser, before: seq<i32>, b: seq<i32>, t: Track, heard: seq<i32>)
    requires Lawful(p) && Sent(p, b) && heard == before + b[..SYNC_SAMPLES + 1]
    requires t.ones < |heard| && t.ones >= SYNC_SAMPLES && t.pending == []
    ensures Proposed(p, heard, t) == Calm(t).(pending := [Candidate(|before|, |b|)], admitted := t.admitted + 1)
  {
    assert !p.one(b[SYNC_SAMPLES]);
    assert heard[|before|..|before| + SYNC_SAMPLES] == b[..SYNC_SAMPLES];
    assert LawfulHead(p, b);
  }

  lemma ProposedWithin(p: Parser, before: seq<i32>, b: seq<i32>, r: nat, t: Track, heard: seq<i32>)
    requires Lawful(p) && Sent(p, b) && r < |b| && heard == before + b[..r + 1]
    requires t.ones < |heard| && RunWithin(t.ones, r) && (r <= SYNC_SAMPLES ==> t.pending == [])
    ensures var q := Proposed(p, heard, t);
            && RunWithin(q.ones, r + 1)
            && Calm(q) == if r == SYNC_SAMPLES then
                 Calm(t).(pending := [Candidate(|before|, |b|)], admitted := t.admitted + 1)
                          else Calm(t)
  {
    assert heard[|heard| - 1] == b[r];
    RunOn(t.ones, r, p.one(b[r]));
    if r == SYNC_SAMPLES {
      HeaderProposes(p, before, b, t, heard);
    }
  }

  /** A lone candidate waits for its last sample. */
  lemma LoneSettled(p: Parser, heard: seq<i32>, t: Track, c: Candidate)
    requires t.pending == [c]
    ensures Settled(p, heard, t, 0) ==
            if c.start + c.size > |heard| then t else Judged(p, heard, c, t.(pending := []))
  {
    if c.start + c.size > |heard| {
      assert Settled(p, heard, t, 1) == t;
    } else {
      assert SwapRemove(t.pending, 0) == [];
      var r := SettledAt(p, heard, t, 0);
      assert Settled(p, heard, r, 0) == r;
    }
  }

  lemma JudgedIgnoresRun(p: Parser, heard: seq<i32>, c: Candidate, t: Track)
    requires c.start + c.size <= |heard|
    ensures Calm(Judged(p, heard, c, t)) == Judged(p, heard, c, Calm(t))
  {
  }

  /** One more sample of a block. */
  lemma OneSample(p: Parser, before: seq<i32>, b: seq<i32>, r: nat, u: Track, front: seq<i32>, heard: seq<i32>)
    requires Lawful(p) && Sent(p, b) && r < |b| && front == before + b[..r] && heard == before + b[..r + 1]
    requires u.pending == [] && u.ones == 0
    requires RunWithin(TrackOf(p, front).ones, r) && Calm(TrackOf(p, front)) == Within(p, before, b, r, u)
    ensures RunWithin(TrackOf(p, heard).ones, r + 1) && Calm(TrackOf(p, heard)) == Within(p, before, b, r + 1, u)
  {
    assert heard[..|heard| - 1] == front;
    var t := TrackOf(p, front);
    ProposedWithin(p, before, b, r, t, heard);
    var q := Proposed(p, heard, t);
    if r < SYNC_SAMPLES {
      assert Settled(p, heard, q, 0) == q;
    } else {
      var c := Candidate(|before|, |b|);
      LoneSettled(p, heard, q, c);
      if r + 1 == |b| {
        assert heard == before + b;
        JudgedIgnoresRun(p, heard, c, q.(pending := []));
      }
    }
  }

  lemma {:induction false} WholeBlock(p: Parser, before: seq<i32>, b: seq<i32>, r: nat)
    requires Lawful(p) && Sent(p, b) && r <= |b|
    requires TrackOf(p, before).pending == [] && TrackOf(p, before).ones < SYNC_SAMPLES
    ensures var t := TrackOf(p, before + b[..r]);
            RunWithin(t.ones, r) && Calm(t) == Within(p, before, b, r, Calm(TrackOf(p, before)))
  {
    if r == 0 {
      assert before + b[..0] == before;
    } else {
      WholeBlock(p, before, b, r - 1);
      OneSample(p, before, b, r - 1, Calm(TrackOf(p, before)), before + b[..r - 1], before + b[..r]);
    }
  }

  // ---- whole streams

  function Stream(blocks: seq<seq<i32>>): seq<i32> {
    if blocks == [] then [] else Stream(blocks[..|blocks| - 1]) + blocks[|blocks| - 1]
  }

  /** What hearing the blocks ought to come to: each judged once, in order, from
      its own start. */
  function Verdicts(p: Parser, blocks: seq<seq<i32>>): Track {
    if blocks == [] then START
    else
      var front, b, t := Stream(blocks[..|blocks| - 1]), blocks[|blocks| - 1], Verdicts(p, blocks[..|blocks| - 1]);
      Judged(p, front + b, Candidate(|front|, |b|), t.(admitted := t.admitted + 1))
  }

  /** A stream of whole blocks leaves nothing pending and every block judged once,
      in order; in the middle of a block that block alone is pending, from the
      sample behind its header on. */
  lemma {:induction false} EveryBlockIsFound(p: Parser, blocks: seq<seq<i32>>)
    requires Lawful(p) && forall i | 0 <= i < |blocks| :: Sent(p, blocks[i])
    ensures var t := TrackOf(p, Stream(blocks));
            Calm(t) == Verdicts(p, blocks) && t.pending == [] && t.ones < SYNC_SAMPLES
  {
    if blocks != [] {
      var front, b := blocks[..|blocks| - 1], blocks[|blocks| - 1];
      EveryBlockIsFound(p, front);
      WholeBlock(p, Stream(front), b, |b|);
      assert b[..|b|] == b;
      assert (|b| - 1) % 16 < 16;
      JudgedIgnoresRun(p, Stream(front) + b, Candidate(|Stream(front)|, |b|), TrackOf(p, Stream(front)));
    }
  }

  lemma OnlyTheOpenBlockWaits(p: Parser, blocks: seq<seq<i32>>, b: seq<i32>, r: nat)
    requires Lawful(p) && Sent(p, b) && r < |b| && forall i | 0 <= i < |blocks| :: Sent(p, blocks[i])
    ensures var t, start := TrackOf(p, Stream(blocks) + b[..r]), |Stream(blocks)|;
            && t.pending == (if r > SYNC_SAMPLES then [Candidate(start, |b|)] else [])
            && t.admitted == |blocks| + (if r > SYNC_SAMPLES then 1 else 0)
            && t.reports == Verdicts(p, blocks).reports
  {
    EveryBlockIsFound(p, blocks);
    WholeBlock(p, Stream(blocks), b, r);
    VerdictsCount(p, blocks);
  }

  lemma {:induction false} VerdictsCount(p: Parser, blocks: seq<seq<i32>>)
    ensures var t := Verdicts(p, blocks); t.admitted == |blocks|
  {
    if blocks != [] {
      VerdictsCount(p, blocks[..|blocks| - 1]);
    }
  }

  lemma OneValidMore(p: Parser, front: seq<seq<i32>>, b: seq<i32>, blocks: seq<seq<i32>>)
    requires blocks == front + [b] && p.look(b).Some? && p.judge(b, p.look(b).value).Ok?
    ensures var was, now, r := Verdicts(p, front), Verdicts(p, blocks),
      Report(|Stream(front)|, b, p.look(b).value, p.judge(b, p.look(b).value).value);
            && now.reports == was.reports + [r] && now.rejected == was.rejected
            && now.valid == was.valid + 1 && now.admitted == was.admitted + 1
  {
    assert blocks[..|blocks| - 1] == front;
    assert BlockOf(Stream(front) + b, Candidate(|Stream(front)|, |b|)) == b;
  }

  /** When every block passes, exactly the blocks are handed on, in order. */
  lemma {:induction false} ValidBlocksAreHandedOn(p: Parser, blocks: seq<seq<i32>>)
    requires Lawful(p) && forall i | 0 <= i < |blocks| ::
      Sent(p, blocks[i]) && p.judge(blocks[i], p.look(blocks[i]).value).Ok?
    ensures var t := Verdicts(p, blocks);
            && |t.reports| == t.valid == t.admitted == |blocks| && t.rejected == 0
            && forall i | 0 <= i < |blocks| ::
                 t.reports[i].block == blocks[i] && t.reports[i].start == |Stream(blocks[..i])|
  {
    if blocks != [] {
      var n := |blocks| - 1;
      var front, b := blocks[..n], blocks[n];
      hide Verdicts;
      assert blocks == front + [b] && Sent(p, blocks[n]);
      ValidBlocksAreHandedOn(p, front);
      OneValidMore(p, front, b, blocks);
      forall i | 0 <= i < |blocks|
        ensures Verdicts(p, blocks).reports[i].block == blocks[i]
        ensures Verdicts(p, blocks).reports[i].start == |Stream(blocks[..i])|
      {
        if i < n {
          assert front[i] == blocks[i] && front[..i] == blocks[..i];
        }
      }
    }
  }
}
