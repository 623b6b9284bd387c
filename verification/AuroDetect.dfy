/** The detector of one carrier channel: a fixed ring of recent samples and a
    list of at most four candidates, held to the track of all that was heard. */
module AuroDetect {
  import opened Bytes
  import opened AuroBits
  import opened AuroBlock
  import opened AuroTrack
  import opened AuroHeaders

  const RING := 8192

  function Slot(index: nat): nat {
    index % RING
  }

  lemma SlotsApart(i: nat, j: nat)
    requires i < j < i + RING
    ensures Slot(i) != Slot(j) && Slot(i) < RING && Slot(j) < RING
  {
  }

  /** The ring holds the last samples heard. */
  ghost predicate Holds(ring: seq<i32>, heard: seq<i32>) {
    |ring| == RING && forall i: nat {:trigger Slot(i)} | |heard| - RING <= i < |heard| :: ring[Slot(i)] == heard[i]
  }

  lemma HoldsOneMore(ring: seq<i32>, heard: seq<i32>, s: i32)
    requires Holds(ring, heard)
    ensures Slot(|heard|) < RING && Holds(ring[Slot(|heard|) := s], heard + [s])
  {
    var more, r := heard + [s], ring[Slot(|heard|) := s];
    forall i: nat | |more| - RING <= i < |more|
      ensures r[Slot(i)] == more[i]
    {
      if i < |heard| {
        SlotsApart(i, |heard|);
        assert more[i] == heard[i];
      }
    }
  }

  /** The parser is the block parser. (The triggers keep the checks themselves out
      of the detector's proofs.) */
  ghost predicate IsBlockParser(p: Parser) {
    && (forall s {:trigger Bit(s, 0)} :: p.one(s) == (Bit(s, 0) == 1))
    && (forall b: seq<i32> {:trigger ParseSync(b)} :: p.look(b) == ParseSync(b))
    && (forall b: seq<i32>, h: SyncHeader {:trigger ParseBlock(b, h)} | SYNC_SAMPLES <= h.blockSize ::
          p.judge(b, h) == ParseBlock(b, h))
  }

  lemma BlockParserIsOne()
    ensures IsBlockParser(BlockParser()) && Lawful(BlockParser())
  {
    BlockParserIsLawful();
  }

  /** What the format allows a block to be. */
  predicate InBounds(r: Report) {
    IsWidth(r.header.lsbBits) && |r.block| <= MAX_BLOCK
  }

  lemma TrackStep(p: Parser, front: seq<i32>, heard: seq<i32>, s: i32)
    requires Lawful(p) && heard == front + [s]
    ensures TrackOf(p, heard) == Listen(p, heard, TrackOf(p, front)) && heard[|heard| - 1] == s
    ensures var t := Proposed(p, heard, TrackOf(p, front));
            Sound(p, heard, t) && forall j | 0 <= j < |t.pending| :: DueNow(heard, t.pending[j])
  {
    assert heard[..|heard| - 1] == front;
    ProposedDue(p, front, heard);
  }

  /** Whatever settling adds is due now. */
  lemma NewReportsAreDue(p: Parser, heard: seq<i32>, t: Track)
    requires forall j | 0 <= j < |t.pending| :: DueNow(heard, t.pending[j])
    ensures var r := Settled(p, heard, t, 0).reports;
            t.reports <= r && forall i | 0 <= i < |r[|t.reports|..]| :: DueAt(r[|t.reports|..][i]) == |heard|
  {
    SettledOnTime(p, heard, t, 0, |t.reports|);
    assert FreshReports(heard, Settled(p, heard, t, 0), |t.reports|);
  }

  lemma TailOf(all: seq<Report>, before: seq<Report>, added: seq<Report>)
    requires all == before + added
    ensures all[|before|..] == added
  {
  }

  lemma OneMoreOf(heard: seq<i32>, samples: seq<i32>, i: nat)
    requires i <= |samples|
    ensures heard + samples[..0] == heard && heard + samples[..|samples|] == heard + samples
    ensures i < |samples| ==> heard + samples[..i + 1] == heard + samples[..i] + [samples[i]]
  {
  }

  lemma ReportsJoin(a: seq<Report>, b: seq<Report>)
    ensures a + [] == a && forall c: seq<Report> {:trigger a + (b + c)} :: a + (b + c) == a + b + c
  {
  }

  class ChannelDetector {
    const ring: array<i32>
    var count: nat
    var runOnes: nat
    var pending: seq<Candidate>
    var validBlocks: nat
    var rejected: nat
    var minBits: nat
    var maxBits: nat
    ghost const p: Parser
    ghost var heard: seq<i32>
    ghost var track: Track

    /** The fields tell the track, and the ring the samples it may still ask for. */
    ghost predicate Tells(t: Track)
      reads this
    {
      && runOnes == t.ones && pending == t.pending
      && validBlocks == t.valid && rejected == t.rejected && minBits == t.minBits && maxBits == t.maxBits
    }

    ghost predicate Ready()
      reads this, ring
    {
      && count == |heard| && Holds(ring[..], heard) && Lawful(p) && IsBlockParser(p)
    }

    ghost predicate Valid()
      reads this, ring
    {
      Ready() && track == TrackOf(p, heard) && Tells(track)
    }

    constructor ()
      ensures Valid() && heard == [] && p == BlockParser() && fresh(ring)
    {
      ring := new i32[RING](_ => 0);
      count, runOnes, pending := 0, 0, [];
      validBlocks, rejected, minBits, maxBits := 0, 0, 0, 0;
      p := BlockParser();
      heard := [];
      track := START;
      new;
      BlockParserIsOne();
    }

    /** Forgets everything heard; the ring keeps its storage. */
    method Reset()
      requires Valid()
      modifies this
      ensures Valid() && heard == []
    {
      count, runOnes, pending := 0, 0, [];
      validBlocks, rejected, minBits, maxBits := 0, 0, 0, 0;
      heard := [];
      track := START;
    }

    /** Samples still in the ring, copied out. */
    method CopyOut(start: nat, len: nat, into: array<i32>)
      requires Ready() && into != ring && len <= into.Length && start + len <= |heard| <= start + RING
      modifies into
      ensures Ready() && into[..len] == heard[start..start + len]
    {
      for i := 0 to len
        invariant Ready()
        invariant forall j | 0 <= j < i :: into[j] == heard[start + j]
      {
        into[i] := ring[Slot(start + i)];
      }
    }

    lemma TrackIs()
      requires Valid()
      ensures track == TrackOf(p, heard)
    {
    }

    /** Samples in; the blocks that were completed and validated out. */
    method Push(samples: seq<i32>, scratch: array<i32>) returns (blocks: seq<Report>)
      requires Valid() && scratch != ring && scratch.Length >= MAX_BLOCK
      modifies this, ring, scratch
      ensures Valid() && heard == old(heard) + samples
      ensures track.reports == old(track.reports) + blocks
      ensures forall i | 0 <= i < |blocks| :: InBounds(blocks[i]) && |old(heard)| < DueAt(blocks[i]) <= |heard|
    {
      blocks := [];
      OneMoreOf(heard, samples, 0);
      for i := 0 to |samples|
        invariant Valid() && heard == old(heard) + samples[..i]
        invariant track.reports == old(track.reports) + blocks
        invariant forall k | 0 <= k < |blocks| :: InBounds(blocks[k]) && |old(heard)| < DueAt(blocks[k]) <= |heard|
      {
        OneMoreOf(old(heard), samples, i);
        ReportsJoin(old(track.reports), blocks);
        var settled := Hear(samples[i], scratch);
        blocks := blocks + settled;
      }
    }

    method Hear(s: i32, scratch: array<i32>) returns (blocks: seq<Report>)
      requires Valid() && scratch != ring && scratch.Length >= MAX_BLOCK
      modifies this, ring, scratch
      ensures Valid() && heard == old(heard) + [s]
      ensures track.reports == old(track.reports) + blocks
      ensures forall i | 0 <= i < |blocks| :: InBounds(blocks[i]) && DueAt(blocks[i]) == |heard|
    {
      Store(s);
      TrackStep(p, old(heard), heard, s);
      blocks := ListenTo(s, scratch);
    }

    /** The last sample stored: a proposal, and whatever it completes. */
    method ListenTo(s: i32, scratch: array<i32>) returns (blocks: seq<Report>)
      requires Ready() && Tells(track) && track.ones < |heard| && heard[|heard| - 1] == s
      requires Sound(p, heard, Proposed(p, heard, track))
      requires forall j | 0 <= j < |Proposed(p, heard, track).pending| ::
        DueNow(heard, Proposed(p, heard, track).pending[j])
      requires scratch != ring && scratch.Length >= MAX_BLOCK
      modifies this`runOnes, this`pending, this`validBlocks, this`rejected, this`minBits, this`maxBits
      modifies this`track, scratch
      ensures Ready() && Tells(track) && track == Listen(p, heard, old(track))
      ensures track.reports == old(track.reports) + blocks
      ensures forall i | 0 <= i < |blocks| :: InBounds(blocks[i]) && DueAt(blocks[i]) == |heard|
    {
      Propose(s, scratch);
      track := Proposed(p, heard, track);
      NewReportsAreDue(p, heard, track);
      blocks := Settle(scratch);
      TailOf(track.reports, old(track.reports), blocks);
    }

    method Store(s: i32)
      requires Ready()
      modifies this`count, this`heard, ring
      ensures Ready() && heard == old(heard) + [s]
    {
      HoldsOneMore(ring[..], heard, s);
      ghost var was := ring[..];
      ring[Slot(count)] := s;
      assert ring[..] == was[Slot(count) := s];
      count := count + 1;
      heard := heard + [s];
    }

    /** A zero that ends a long enough run proposes a block. */
    method Propose(s: i32, scratch: array<i32>)
      requires Ready() && Tells(track) && track.ones < |heard| && heard[|heard| - 1] == s
      requires scratch != ring && scratch.Length >= MAX_BLOCK
      modifies this`runOnes, this`pending, scratch
      ensures Ready() && Tells(Proposed(p, heard, track))
    {
      var one := Bit(s, 0);
      if one != 0 {
        runOnes := runOnes + 1;
      } else {
        if runOnes >= SYNC_SAMPLES {
          var start := count - 1 - SYNC_SAMPLES;
          var header := LookBack(start, scratch);
          if header.Some? {
            if |pending| < MAX_PENDING {
              pending := pending + [Candidate(start, header.value.blockSize)];
            }
          }
        }
        runOnes := 0;
      }
    }

    /** The sixteen samples from `start` on, taken for a header. */
    method LookBack(start: nat, scratch: array<i32>) returns (header: Option<SyncHeader>)
      requires Ready() && start + SYNC_SAMPLES < |heard| <= start + RING
      requires scratch != ring && scratch.Length >= MAX_BLOCK
      modifies scratch
      ensures Ready() && header == p.look(heard[start..start + SYNC_SAMPLES])
    {
      CopyOut(start, SYNC_SAMPLES, scratch);
      header := ReadSync(scratch[..SYNC_SAMPLES]);
      assert p.look(scratch[..SYNC_SAMPLES]) == ParseSync(scratch[..SYNC_SAMPLES]);
    }

    /** Every candidate whose block is now complete is judged. */
    method Settle(scratch: array<i32>) returns (blocks: seq<Report>)
      requires Ready() && Tells(track) && Sound(p, heard, track)
      requires forall i | 0 <= i < |track.pending| :: DueNow(heard, track.pending[i])
      requires scratch != ring && scratch.Length >= MAX_BLOCK
      modifies this`pending, this`validBlocks, this`rejected, this`minBits, this`maxBits, this`track, scratch
      ensures Ready() && track == Settled(p, heard, old(track), 0) && Tells(track)
      ensures track.reports == old(track.reports) + blocks && forall k | 0 <= k < |blocks| :: InBounds(blocks[k])
    {
      hide Sound, InBounds, DueNow, Judged, TrackOf;
      ghost var first := track;
      blocks := [];
      var i := 0;
      while i < |pending|
        invariant Ready() && Tells(track) && Sound(p, heard, track) && i <= |pending|
        invariant forall j | 0 <= j < |track.pending| :: DueNow(heard, track.pending[j])
        invariant Settled(p, heard, track, i) == Settled(p, heard, first, 0)
        invariant track.reports == first.reports + blocks && forall k | 0 <= k < |blocks| :: InBounds(blocks[k])
        decreases |pending| - i
      {
        var c := pending[i];
        if c.start + c.size > count {
          i := i + 1;
        } else {
          SettledAtSound(p, heard, track, i);
          var report := Judge(i, c, scratch);
          if report.Some? {
            blocks := blocks + [report.value];
          }
        }
      }
    }

    /** One complete candidate is taken out and judged. */
    method Judge(i: nat, c: Candidate, scratch: array<i32>) returns (report: Option<Report>)
      requires Ready() && Tells(track) && Sound(p, heard, track) && i < |pending| && c == pending[i]
      requires c.start + c.size <= |heard| && DueNow(heard, c)
      requires scratch != ring && scratch.Length >= MAX_BLOCK
      modifies this`pending, this`validBlocks, this`rejected, this`minBits, this`maxBits, this`track, scratch
      ensures Ready() && track == SettledAt(p, heard, old(track), i) && Tells(track)
      ensures track.reports == old(track.reports) + (if report.Some? then [report.value] else [])
      ensures report.Some? ==> InBounds(report.value)
    {
      hide Verdict, InBounds, TrackOf, Faithful;
      ghost var now := SettledAt(p, heard, track, i);
      var last := |pending| - 1;
      report := ExamineAt(c, scratch);
      pending := pending[i := pending[last]][..last];
      Count(report, track.(pending := SwapRemove(track.pending, i)));
      track := now;
    }

    /** Its samples copied out and examined. */
    method ExamineAt(c: Candidate, scratch: array<i32>) returns (report: Option<Report>)
      requires Ready() && Announced(p, heard, c) && c.start + c.size <= |heard| <= c.start + RING && c.size <= MAX_BLOCK
      requires scratch != ring && scratch.Length >= MAX_BLOCK
      modifies scratch
      ensures Ready() && report == Verdict(p, c.start, BlockOf(heard, c)) && (report.Some? ==> InBounds(report.value))
    {
      hide Verdict, InBounds;
      SecondLookAgrees(p, heard, c);
      CopyOut(c.start, c.size, scratch);
      report := Examine(c.start, scratch[..c.size]);
    }

    /** The verdict is counted. */
    method Count(report: Option<Report>, ghost t: Track)
      requires Tells(t)
      modifies this`validBlocks, this`rejected, this`minBits, this`maxBits
      ensures Tells(Counted(t, report))
    {
      if report.None? {
        rejected := rejected + 1;
      } else {
        validBlocks := validBlocks + 1;
        var m := report.value.header.lsbBits;
        if minBits == 0 || m < minBits {
          minBits := m;
        }
        if m > maxBits {
          maxBits := m;
        }
      }
    }

    /** The second look at the header, and the checks over the whole block. */
    method Examine(start: nat, block: seq<i32>) returns (report: Option<Report>)
      requires Lawful(p) && IsBlockParser(p) && p.look(block).Some? && |block| <= MAX_BLOCK
      ensures report == Verdict(p, start, block) && (report.Some? ==> InBounds(report.value))
    {
      assert LawfulLook(p, block);
      var header := ReadSync(block);
      if header.None? {
        return None;
      }
      HeaderBounds(block);
      var verdict := ReadBlock(block, header.value);
      return if verdict.Ok? then Some(Report(start, block, header.value, verdict.value)) else None;
    }
  }
}
