/** What a carrier channel's detector makes of everything it has heard: the
    specification its ring and its short candidate list are held to. */
module AuroTrack {
  import opened Bytes
  import opened AuroBits
  import opened AuroBlock
  import opened AuroHeaders

  const MAX_PENDING := 4

  /** How samples and blocks are told: the sync bit of a sample, the announcement
      of sixteen samples, and the verdict over a whole block. */
  datatype Parser = Parser(
    one: int -> bool,
    look: seq<i32> -> Option<SyncHeader>,
    judge: (seq<i32>, SyncHeader) -> Result<BlockInfo, BlockError>)

  function BlockParser(): Parser {
    Parser((s: int) => Bit(s, 0) == 1,
           (b: seq<i32>) => ParseSync(b),
           (b: seq<i32>, h: SyncHeader) => if SYNC_SAMPLES <= h.blockSize then ParseBlock(b, h) else Err(Truncated))
  }

  /** An announcement is of a block of 16 to 4096 samples and depends on the first
      sixteen alone; a block copied whole is never truncated. */
  ghost predicate LawfulLook(p: Parser, b: seq<i32>) {
    p.look(b).Some? ==> && |b| >= SYNC_SAMPLES && SYNC_SAMPLES <= p.look(b).value.blockSize <= MAX_BLOCK
  }

  ghost predicate LawfulHead(p: Parser, b: seq<i32>) {
    |b| >= SYNC_SAMPLES ==> p.look(b[..SYNC_SAMPLES]) == p.look(b)
  }

  ghost predicate LawfulJudge(p: Parser, b: seq<i32>, h: SyncHeader) {
    |b| == h.blockSize >= SYNC_SAMPLES ==> p.judge(b, h) != Err(Truncated)
  }

  ghost predicate Lawful(p: Parser) {
    && (forall b {:trigger p.look(b)} :: LawfulLook(p, b))
    && (forall b {:trigger LawfulHead(p, b)} :: LawfulHead(p, b))
    && (forall b, h {:trigger p.judge(b, h)} :: LawfulJudge(p, b, h))
  }

  lemma BlockParserIsLawful()
    ensures Lawful(BlockParser())
  {
    var p := BlockParser();
    forall b: seq<i32>
      ensures LawfulLook(p, b)
    {
      if ParseSync(b).Some? {
        HeaderBounds(b);
      }
    }
    forall b: seq<i32>
      ensures LawfulHead(p, b)
    {
      if |b| >= SYNC_SAMPLES {
        ParseSyncPrefix(b);
      }
    }
    forall b, h
      ensures LawfulJudge(p, b, h)
    {
      NotTruncated(b, h);
    }
  }

  lemma NotTruncated(b: seq<i32>, h: SyncHeader)
    ensures |b| == h.blockSize >= SYNC_SAMPLES ==> ParseBlock(b, h) != Err(Truncated)
  {
    if |b| == h.blockSize >= SYNC_SAMPLES {
      var payload := PayloadBits(b[..h.blockSize], h.lsbBits);
      FieldsNotTruncated(SourceOf(payload), |payload|);
    }
  }

  lemma FieldsNotTruncated(rd: Source, length: nat)
    ensures ParseFields(rd, length) != Err(Truncated)
  {
    var ids := [rd(48, 8), rd(56, 8), rd(64, 8), rd(72, 8)];
    var table := TableWords(Present(ids[0]) + Present(ids[1]) + Present(ids[2]) + Present(ids[3]));
    if table.Some? {
      BlocksNotTruncated(rd, length, Adol(112 + 32 * table.value, 0, None), rd(32, 8));
    }
  }

  lemma {:induction false} BlocksNotTruncated(rd: Source, length: nat, a: Adol, blocks: nat)
    ensures AdolBlocks(rd, length, a, blocks) != Err(Truncated)
    decreases blocks
  {
    if blocks > 0 {
      var b := a.(pos := a.pos + 8);
      InstructionsNotTruncated(rd, length, b);
      if AdolInstructions(rd, length, b).Ok? {
        BlocksNotTruncated(rd, length, AdolInstructions(rd, length, b).value, blocks - 1);
      }
    }
  }

  lemma {:induction false} InstructionsNotTruncated(rd: Source, length: nat, a: Adol)
    ensures AdolInstructions(rd, length, a) != Err(Truncated)
    decreases MAX_ADOL_INSTRUCTIONS - a.count
  {
    if a.count < MAX_ADOL_INSTRUCTIONS {
      var op := rd(a.pos, 8);
      if OperandBits(op).Some? {
        InstructionsNotTruncated(rd, length,
          Adol(a.pos + 8 + OperandBits(op).value, a.count + 1,
               if op == 0x1E then Some(rd(a.pos + 8, 8)) else a.config));
      }
    }
  }

  // ---- the track

  datatype Candidate = Candidate(start: nat, size: nat)

  /** A validated block as it is handed on. */
  datatype Report = Report(start: nat, block: seq<i32>, header: SyncHeader, info: BlockInfo)

  /** Everything a channel has come to, `admitted` counting the candidates ever taken up. */
  datatype Track = Track(
    ones: nat, pending: seq<Candidate>, admitted: nat, valid: nat, rejected: nat,
    minBits: nat, maxBits: nat, reports: seq<Report>)

  const START: Track := Track(0, [], 0, 0, 0, 0, 0, [])

  /** The block a candidate stands for. */
  function BlockOf(heard: seq<i32>, c: Candidate): seq<i32>
    requires c.start + c.size <= |heard|
  {
    heard[c.start..c.start + c.size]
  }

  /** The verdict over the samples of a block. */
  function Verdict(p: Parser, start: nat, block: seq<i32>): Option<Report> {
    var look := p.look(block);
    if look.None? then None
    else
      var judged := p.judge(block, look.value);
      if judged.Err? then None else Some(Report(start, block, look.value, judged.value))
  }

  function Counted(t: Track, v: Option<Report>): (r: Track)
    ensures r.ones == t.ones && r.pending == t.pending
  {
    if v.None? then t.(rejected := t.rejected + 1)
    else
      var m := v.value.header.lsbBits;
      t.(valid := t.valid + 1,
         minBits := if t.minBits == 0 || m < t.minBits then m else t.minBits,
         maxBits := if m > t.maxBits then m else t.maxBits,
         reports := t.reports + [v.value])
  }

  /** A complete candidate judged. */
  function Judged(p: Parser, heard: seq<i32>, c: Candidate, t: Track): (r: Track)
    requires c.start + c.size <= |heard|
    ensures r.ones == t.ones && r.pending == t.pending
  {
    Counted(t, Verdict(p, c.start, BlockOf(heard, c)))
  }

  /** Taking a candidate out by moving the last one into its place. */
  function SwapRemove(pending: seq<Candidate>, i: nat): (r: seq<Candidate>)
    requires i < |pending|
    ensures |r| == |pending| - 1
  {
    pending[i := pending[|pending| - 1]][..|pending| - 1]
  }

  /** The `i`-th candidate settled. */
  function SettledAt(p: Parser, heard: seq<i32>, t: Track, i: nat): (r: Track)
    requires i < |t.pending| && t.pending[i].start + t.pending[i].size <= |heard|
    ensures |r.pending| == |t.pending| - 1 && r.ones == t.ones
  {
    Judged(p, heard, t.pending[i], t.(pending := SwapRemove(t.pending, i)))
  }

  /** Every complete candidate from the `i`-th on is settled. */
  function Settled(p: Parser, heard: seq<i32>, t: Track, i: nat): (r: Track)
    requires i <= |t.pending|
    ensures r.ones == t.ones
    decreases |t.pending| - i
  {
    if i == |t.pending| then t
    else if t.pending[i].start + t.pending[i].size > |heard| then Settled(p, heard, t, i + 1)
    else Settled(p, heard, SettledAt(p, heard, t, i), i)
  }

  /** The last sample heard: a one lengthens the run; the zero that ends a long
      enough one proposes the sixteen samples before it. */
  function Proposed(p: Parser, heard: seq<i32>, t: Track): (r: Track)
    requires t.ones < |heard|
    ensures r.ones <= |heard|
  {
    if p.one(heard[|heard| - 1]) then t.(ones := t.ones + 1)
    else if t.ones < SYNC_SAMPLES then t.(ones := 0)
    else
      var start := |heard| - 1 - SYNC_SAMPLES;
      var look := p.look(heard[start..start + SYNC_SAMPLES]);
      if look.None? || |t.pending| >= MAX_PENDING then t.(ones := 0)
      else t.(ones := 0, pending := t.pending + [Candidate(start, look.value.blockSize)], admitted := t.admitted + 1)
  }

  function Listen(p: Parser, heard: seq<i32>, t: Track): (r: Track)
    requires t.ones < |heard|
    ensures r.ones <= |heard|
  {
    Settled(p, heard, Proposed(p, heard, t), 0)
  }

  /** The track of everything heard since the last reset. */
  function TrackOf(p: Parser, heard: seq<i32>): (t: Track)
    ensures t.ones <= |heard|
  {
    if heard == [] then START else Listen(p, heard, TrackOf(p, heard[..|heard| - 1]))
  }

  // ---- what every track keeps

  /** A candidate's header is still there to be read. */
  ghost predicate Announced(p: Parser, heard: seq<i32>, c: Candidate) {
    && c.start + SYNC_SAMPLES < |heard|
    && var look := p.look(heard[c.start..c.start + SYNC_SAMPLES]);
       look.Some? && look.value.blockSize == c.size
  }

  /** A report is of samples heard where it says, by both looks and the verdict. */
  ghost predicate Faithful(p: Parser, heard: seq<i32>, r: Report) {
    && r.start + |r.block| <= |heard| && heard[r.start..r.start + |r.block|] == r.block
    && p.look(r.block) == Some(r.header) && |r.block| == r.header.blockSize
    && p.judge(r.block, r.header) == Ok(r.info)
  }

  ghost predicate Sound(p: Parser, heard: seq<i32>, t: Track) {
    && |t.pending| <= MAX_PENDING
    && (forall i | 0 <= i < |t.pending| :: Announced(p, heard, t.pending[i]))
    && t.valid + t.rejected + |t.pending| == t.admitted && |t.reports| == t.valid
    && forall i | 0 <= i < |t.reports| :: Faithful(p, heard, t.reports[i])
  }

  /** No complete candidate is left among the first `n`. */
  ghost predicate Waiting(heard: seq<i32>, t: Track, n: nat) {
    n <= |t.pending| && forall i | 0 <= i < n :: t.pending[i].start + t.pending[i].size > |heard|
  }

  /** A candidate's whole block carries the announcement it was taken up for, so
      looking again at the copy tells the same. */
  lemma SecondLookAgrees(p: Parser, heard: seq<i32>, c: Candidate)
    requires Lawful(p) && Announced(p, heard, c) && c.start + c.size <= |heard|
    ensures var block, head := BlockOf(heard, c), heard[c.start..c.start + SYNC_SAMPLES];
            |block| == c.size >= SYNC_SAMPLES && p.look(block) == p.look(head)
  {
    var block, head := BlockOf(heard, c), heard[c.start..c.start + SYNC_SAMPLES];
    assert LawfulLook(p, head);
    assert block[..SYNC_SAMPLES] == head;
    assert LawfulHead(p, block);
  }

  lemma JudgedSound(p: Parser, heard: seq<i32>, c: Candidate, t: Track)
    requires Lawful(p) && Announced(p, heard, c) && c.start + c.size <= |heard|
    requires |t.pending| < MAX_PENDING && forall i | 0 <= i < |t.pending| :: Announced(p, heard, t.pending[i])
    requires t.valid + t.rejected + |t.pending| + 1 == t.admitted && |t.reports| == t.valid
    requires forall i | 0 <= i < |t.reports| :: Faithful(p, heard, t.reports[i])
    ensures Sound(p, heard, Judged(p, heard, c, t))
  {
    SecondLookAgrees(p, heard, c);
  }

  lemma SettledAtSound(p: Parser, heard: seq<i32>, t: Track, i: nat)
    requires Lawful(p) && Sound(p, heard, t) && i < |t.pending| && t.pending[i].start + t.pending[i].size <= |heard|
    ensures Sound(p, heard, SettledAt(p, heard, t, i))
  {
    JudgedSound(p, heard, t.pending[i], t.(pending := SwapRemove(t.pending, i)));
  }

  lemma {:induction false} SettledSound(p: Parser, heard: seq<i32>, t: Track, i: nat)
    requires Lawful(p) && Sound(p, heard, t) && i <= |t.pending| && Waiting(heard, t, i)
    ensures var r := Settled(p, heard, t, i); Sound(p, heard, r) && Waiting(heard, r, |r.pending|)
    decreases |t.pending| - i
  {
    if i < |t.pending| {
      if t.pending[i].start + t.pending[i].size > |heard| {
        SettledSound(p, heard, t, i + 1);
      } else {
        SettledAtSound(p, heard, t, i);
        SettledSound(p, heard, SettledAt(p, heard, t, i), i);
      }
    }
  }

  /** More samples leave what was heard, and so what was sound, as it was. */
  lemma SoundExtends(p: Parser, heard: seq<i32>, t: Track, more: seq<i32>)
    requires Sound(p, heard, t) && heard <= more
    ensures Sound(p, more, t)
  {
    forall i | 0 <= i < |t.pending|
      ensures Announced(p, more, t.pending[i])
    {
      var c := t.pending[i];
      assert more[c.start..c.start + SYNC_SAMPLES] == heard[c.start..c.start + SYNC_SAMPLES];
    }
    forall i | 0 <= i < |t.reports|
      ensures Faithful(p, more, t.reports[i])
    {
      var r := t.reports[i];
      assert more[r.start..r.start + |r.block|] == heard[r.start..r.start + |r.block|];
    }
  }

  lemma ProposedSound(p: Parser, heard: seq<i32>, t: Track)
    requires Sound(p, heard, t) && t.ones < |heard|
    ensures Sound(p, heard, Proposed(p, heard, t))
  {
  }

  /** Whatever was heard: the list is never over-full, every candidate's header
      reads as it did, every report is faithful, everything complete is settled,
      and verdicts and candidates in waiting add up to the candidates taken up. */
  lemma {:induction false} TrackIsSound(p: Parser, heard: seq<i32>)
    requires Lawful(p)
    ensures var t := TrackOf(p, heard); Sound(p, heard, t) && Waiting(heard, t, |t.pending|)
  {
    if heard != [] {
      var front := heard[..|heard| - 1];
      TrackIsSound(p, front);
      SoundExtends(p, front, TrackOf(p, front), heard);
      ProposedSound(p, heard, TrackOf(p, front));
      SettledSound(p, heard, Proposed(p, heard, TrackOf(p, front)), 0);
    }
  }

  // ---- when a block is handed on

  /** A candidate settled now: its last sample, or the zero behind its header, just came. */
  ghost predicate DueNow(heard: seq<i32>, c: Candidate) {
    c.start + c.size <= |heard| ==> |heard| == Max(c.start + c.size, c.start + SYNC_SAMPLES + 1)
  }

  /** When a block is handed on: with its last sample, or the zero behind its header. */
  function DueAt(r: Report): nat {
    Max(r.start + |r.block|, r.start + SYNC_SAMPLES + 1)
  }

  ghost predicate FreshReports(heard: seq<i32>, t: Track, known: nat) {
    forall i | known <= i < |t.reports| :: DueAt(t.reports[i]) == |heard|
  }

  lemma ProposedDue(p: Parser, front: seq<i32>, heard: seq<i32>)
    requires Lawful(p) && heard != [] && heard[..|heard| - 1] == front
    ensures var t := Proposed(p, heard, TrackOf(p, front));
            Sound(p, heard, t) && forall j | 0 <= j < |t.pending| :: DueNow(heard, t.pending[j])
  {
    TrackIsSound(p, front);
    SoundExtends(p, front, TrackOf(p, front), heard);
    ProposedSound(p, heard, TrackOf(p, front));
  }

  lemma {:induction false} SettledOnTime(p: Parser, heard: seq<i32>, t: Track, i: nat, known: nat)
    requires i <= |t.pending| && FreshReports(heard, t, known)
    requires forall j | 0 <= j < |t.pending| :: DueNow(heard, t.pending[j])
    ensures FreshReports(heard, Settled(p, heard, t, i), known) && t.reports <= Settled(p, heard, t, i).reports
    decreases |t.pending| - i
  {
    if i < |t.pending| {
      if t.pending[i].start + t.pending[i].size > |heard| {
        SettledOnTime(p, heard, t, i + 1, known);
      } else {
        var r := SettledAt(p, heard, t, i);
        assert FreshReports(heard, r, known) && t.reports <= r.reports;
        SettledOnTime(p, heard, r, i, known);
      }
    }
  }

  /** A block is handed on with its last sample, or with the seventeenth when it
      has no more than sixteen, and never earlier or later; reports are only added. */
  lemma HandedOnOnTime(p: Parser, heard: seq<i32>)
    requires Lawful(p) && heard != []
    ensures var before, t := TrackOf(p, heard[..|heard| - 1]), TrackOf(p, heard);
            before.reports <= t.reports && FreshReports(heard, t, |before.reports|)
  {
    var front := heard[..|heard| - 1];
    ProposedDue(p, front, heard);
    var t := Proposed(p, heard, TrackOf(p, front));
    SettledOnTime(p, heard, t, 0, |t.reports|);
  }

  /** Reports are only added, each exactly when it is due. */
  lemma {:induction false} ReportsGrow(p: Parser, heard: seq<i32>, more: seq<i32>)
    requires Lawful(p) && heard <= more
    ensures var was, now := TrackOf(p, heard).reports, TrackOf(p, more).reports;
            was <= now && forall i | |was| <= i < |now| :: |heard| < DueAt(now[i]) <= |more|
  {
    if |heard| == |more| {
      assert heard == more;
    } else {
      var front := more[..|more| - 1];
      ReportsGrow(p, heard, front);
      HandedOnOnTime(p, more);
    }
  }
}
