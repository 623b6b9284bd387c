/** The packer of MAT payloads, as a specification, and the proof that reading
    its payloads gives the access units back. */
module MatRoundTrip {
  import opened Bytes
  import opened Mat

  /** What is laid out in the payloads: access units, and zero words between them. */
  datatype Item = Padding(words: nat) | Unit(bytes: seq<byte>)

  function Zeros(n: nat): (r: seq<byte>)
    ensures |r| == n && forall i | 0 <= i < n :: r[i] == 0
  {
    seq(n, _ => 0)
  }

  /** A unit's first word holds its length in words, in its low twelve bits. */
  predicate IsItem(i: Item) {
    i.Unit? ==> |i.bytes| >= 2 && ChunkSize(i.bytes[0], i.bytes[1]) == |i.bytes|
  }

  predicate AllItems(items: seq<Item>) {
    items == [] || (IsItem(items[0]) && AllItems(items[1..]))
  }

  function Flat(items: seq<Item>): seq<byte> {
    if items == [] then [] else Laid(items[0]) + Flat(items[1..])
  }

  function Laid(i: Item): seq<byte> {
    match i
    case Padding(words) => Zeros(2 * words)
    case Unit(bytes) => bytes
  }

  function Units(items: seq<Item>): seq<byte> {
    if items == [] then []
    else if items[0].Unit? then items[0].bytes + Units(items[1..])
    else Units(items[1..])
  }

  /** The codes a payload carries besides its content. */
  datatype Codes = Codes(start: seq<byte>, middle: seq<byte>, end: seq<byte>)

  function MatCodes(): Codes {
    Codes(MAT_START_CODE, MAT_MIDDLE_CODE, MAT_END_CODE)
  }

  /** All that reading past the codes relies on: their sizes, and that neither of
      the later two opens with a zero, where padding could run into it. */
  predicate CodesStandOut(k: Codes) {
    |k.start| == 20 && |k.middle| == 12 && |k.end| == 16 && k.middle[0] != 0 && k.end[0] != 0
  }

  lemma MatCodesStandOut()
    ensures CodesStandOut(MatCodes())
  {
  }

  /** One payload: the start code, and the content with the middle and end codes
      let in where it reaches their positions. */
  function Wrap(k: Codes, content: seq<byte>): seq<byte> {
    k.start + BeforeMiddle(k, content, MAT_MIDDLE_POS - 20)
  }

  function BeforeMiddle(k: Codes, c: seq<byte>, room: nat): seq<byte> {
    if |c| < room then c else c[..room] + k.middle + BeforeEnd(k, c[room..], MAT_END_POS - MAT_MIDDLE_POS - 12)
  }

  function BeforeEnd(k: Codes, c: seq<byte>, room: nat): seq<byte> {
    if |c| < room then c else c[..room] + k.end + c[room..]
  }

  /** Every chunk a reader returns until it has nothing more, and the reader left. */
  function Drain(r: Reader): (d: (seq<byte>, Reader))
    requires r.Consistent()
    ensures d.1.Consistent()
    decreases r.Measure()
  {
    var t := Round(r);
    if t.Again? then Drain(t.reader)
    else if t.outcome.Chunk? then
      var more := Drain(t.reader);
      (t.outcome.bytes + more.0, more.1)
    else ([], t.reader)
  }

  /** Payloads drained one after the other, a split chunk pending between them. */
  function DrainPayloads(payloads: seq<seq<byte>>, pending: Option<nat>): (d: (seq<byte>, Option<nat>))
    requires pending.Some? ==> pending.value > 0
  {
    if payloads == [] then ([], pending)
    else
      var first := Drain(Opened(payloads[0], pending));
      var more := DrainPayloads(payloads[1..], first.1.pending);
      (first.0 + more.0, more.1)
  }

  lemma {:induction false} NextReturnDrains(r: Reader)
    requires r.Consistent()
    ensures var t := NextReturn(r);
            Drain(r) == if t.outcome.Chunk? then (t.outcome.bytes + Drain(t.reader).0, Drain(t.reader).1)
              else ([], t.reader)
    decreases r.Measure()
  {
    if Round(r).Again? {
      NextReturnDrains(Round(r).reader);
    }
  }

  /** The host's loop: a payload, then chunks until there are none. */
  method PushIec61937(stream: MatStream, payload: seq<byte>) returns (out: seq<byte>)
    requires stream.Valid()
    modifies stream
    ensures stream.Valid()
    ensures (out, stream.Snap()) == Drain(Opened(payload, old(stream.pendingChunkBytes)))
  {
    stream.PushPayload(payload);
    ghost var all := Drain(stream.Snap());
    out := [];
    NothingYet(all, stream.Snap());
    while true
      invariant stream.Valid() && Follows(all, out, stream.Snap())
      decreases stream.Snap().Measure()
    {
      FollowsReturn(all, out, stream.Snap());
      var outcome := stream.NextChunk();
      if !outcome.Chunk? {
        return;
      }
      out := out + outcome.bytes;
    }
  }

  /** What came out so far and what is still to come are the whole. */
  ghost predicate Follows(all: (seq<byte>, Reader), out: seq<byte>, r: Reader) {
    r.Consistent() && all == (out + Drain(r).0, Drain(r).1)
  }

  lemma NothingYet(all: (seq<byte>, Reader), r: Reader)
    requires r.Consistent() && all == Drain(r)
    ensures Follows(all, [], r)
  {
    LeftUnit(all.0);
  }

  lemma Associates(a: seq<byte>, b: seq<byte>, c: seq<byte>)
    ensures a + (b + c) == (a + b) + c
  {
  }

  lemma LeftUnit(s: seq<byte>)
    ensures [] + s == s && s + [] == s
  {
  }

  lemma FollowsReturn(all: (seq<byte>, Reader), out: seq<byte>, r: Reader)
    requires Follows(all, out, r)
    ensures var t := NextReturn(r);
            if t.outcome.Chunk? then Follows(all, out + t.outcome.bytes, t.reader) else all == (out, t.reader)
  {
    NextReturnDrains(r);
    var t := NextReturn(r);
    if t.outcome.Chunk? {
      Associates(out, t.outcome.bytes, Drain(t.reader).0);
    } else {
      LeftUnit(out);
    }
  }

  /** What is read from content, and how many bytes of a chunk are still to come. */
  datatype Framed = Framed(bytes: seq<byte>, left: nat)

  /** The content alone, word by word, without codes or payload ends: the words
      of a chunk are kept, words that announce none are dropped. */
  function Deframe(c: seq<byte>, left: nat): Framed
    decreases |c|
  {
    if |c| < 2 then Framed([], left)
    else
      var want := Want(c[0], c[1], left);
      Prefixed(if want < 2 then [] else c[..2], Deframe(c[2..], if want < 2 then 0 else want - 2))
  }

  /** The bytes wanted from this word on: a chunk's rest, or a new chunk. */
  function Want(lo: byte, hi: byte, left: nat): nat {
    if left > 0 then left else ChunkSize(lo, hi)
  }

  function Prefixed(head: seq<byte>, f: Framed): Framed {
    Framed(head + f.bytes, f.left)
  }

  /** A chunk may be read in pieces. */
  lemma {:induction false} DeframePiece(c: seq<byte>, want: nat, n: nat)
    requires n % 2 == 0 && want % 2 == 0 && n <= want && n <= |c|
    ensures Deframe(c, want) == Prefixed(c[..n], Deframe(c[n..], want - n))
    decreases n
  {
    if n == 0 {
      assert c[0..] == c;
    } else {
      var d := c[2..];
      DeframePiece(d, want - 2, n - 2);
      assert Deframe(c, want) == Prefixed(c[..2], Deframe(d, want - 2));
      assert d[n - 2..] == c[n..];
      assert c[..n] == c[..2] + d[..n - 2];
      PrefixedTwice(c[..2], d[..n - 2], Deframe(c[n..], want - n));
    }
  }

  /** A chunk that opens the content is read as if it were pending. */
  lemma DeframeHeader(c: seq<byte>)
    requires |c| >= 2 && ChunkSize(c[0], c[1]) > 0
    ensures Deframe(c, 0) == Deframe(c, ChunkSize(c[0], c[1]))
  {
  }

  /** Where the content is cut does not matter. */
  lemma {:induction false} DeframeConcat(a: seq<byte>, b: seq<byte>, c: seq<byte>, left: nat)
    requires |a| % 2 == 0 && left % 2 == 0 && c == a + b
    ensures Deframe(c, left) == Prefixed(Deframe(a, left).bytes, Deframe(b, Deframe(a, left).left))
    ensures Deframe(a, left).left % 2 == 0
    decreases |a|
  {
    if a == [] {
      assert c == b;
    } else {
      var a', c' := a[2..], c[2..];
      assert c' == a' + b && c[..2] == a[..2] && c[0] == a[0] && c[1] == a[1];
      var want := Want(c[0], c[1], left);
      var left' := if want < 2 then 0 else want - 2;
      var head := if want < 2 then [] else c[..2];
      DeframeConcat(a', b, c', left');
      var rest := Deframe(a', left');
      assert Deframe(a, left) == Prefixed(head, rest);
      assert Deframe(c, left) == Prefixed(head, Deframe(c', left'));
      PrefixedTwice(head, rest.bytes, Deframe(b, rest.left));
    }
  }

  lemma PrefixedTwice(a: seq<byte>, b: seq<byte>, f: Framed)
    ensures Prefixed(a, Prefixed(b, f)) == Prefixed(a + b, f)
  {
    Associates(a, b, f.bytes);
  }

  /** A word that announces nothing is dropped. */
  lemma DeframeDrop(c: seq<byte>)
    requires |c| >= 2 && ChunkSize(c[0], c[1]) == 0
    ensures Deframe(c, 0) == Deframe(c[2..], 0)
  {
    LeftUnit(Deframe(c[2..], 0).bytes);
  }

  lemma {:induction false} DeframeZeros(c: seq<byte>, n: nat)
    requires n <= |c| && n % 2 == 0 && forall i | 0 <= i < n :: c[i] == 0
    ensures Deframe(c, 0) == Deframe(c[n..], 0)
    decreases n
  {
    if n == 0 {
      assert c[0..] == c;
    } else {
      DeframeDrop(c);
      DeframeZeros(c[2..], n - 2);
      assert c[2..][n - 2..] == c[n..];
    }
  }

  lemma DeframeItem(i: Item)
    requires IsItem(i)
    ensures |Laid(i)| % 2 == 0
    ensures Deframe(Laid(i), 0) == Framed(if i.Unit? then i.bytes else [], 0)
  {
    var c := Laid(i);
    if i.Padding? {
      DeframeZeros(c, |c|);
    } else {
      DeframeHeader(c);
      DeframePiece(c, |c|, |c|);
    }
  }

  /** Content laid out from items gives back the units. */
  lemma {:induction false} DeframeItems(items: seq<Item>)
    requires AllItems(items)
    ensures Deframe(Flat(items), 0) == Framed(Units(items), 0)
    decreases |items|
  {
    if items != [] {
      var head, tail := Laid(items[0]), Flat(items[1..]);
      DeframeItem(items[0]);
      DeframeItems(items[1..]);
      DeframeConcat(head, tail, Flat(items), 0);
      assert Deframe(head, 0).left == 0;
      LeftUnit(Units(items[1..]));
    }
  }

  function Left(pending: Option<nat>): nat {
    if pending.Some? then pending.value else 0
  }

  function Pend(left: nat): Option<nat> {
    if left > 0 then Some(left) else None
  }

  /** How far the next code is; past the content when both are behind. */
  function Room(r: Reader, c: seq<byte>): nat
    requires r.state.ReadingPayload?
  {
    if !r.state.middleCodeSkipped then Max(0, MAT_MIDDLE_POS - r.cursor)
    else if !r.state.endCodeSkipped then Max(0, MAT_END_POS - r.cursor)
    else |c| + 2
  }

  /** What a reader at this stage finds in front of content `c`. */
  function Ahead(k: Codes, r: Reader, c: seq<byte>): seq<byte>
    requires r.state.ReadingPayload?
  {
    if !r.state.middleCodeSkipped then BeforeMiddle(k, c, Room(r, c))
    else if !r.state.endCodeSkipped then BeforeEnd(k, c, Room(r, c))
    else c
  }

  predicate StageFits(r: Reader)
    requires r.state.ReadingPayload?
  {
    if !r.state.middleCodeSkipped then !r.state.endCodeSkipped && r.cursor <= MAT_MIDDLE_POS
    else if !r.state.endCodeSkipped then MAT_MIDDLE_POS + 12 <= r.cursor <= MAT_END_POS
    else r.cursor >= MAT_FRAME_SIZE
  }

  /** The reader stands word-aligned in a laid out payload, `c` of its content ahead. */
  ghost predicate LaidOut(k: Codes, r: Reader, c: seq<byte>) {
    && r.Consistent() && r.state.ReadingPayload? && StageFits(r)
    && |c| % 2 == 0 && r.cursor % 2 == 0 && Left(r.pending) % 2 == 0
    && r.buffer[r.cursor..] == Ahead(k, r, c)
  }

  /** Content comes first, then the next code, which does not open with a zero. */
  ghost predicate ContentFirst(rest: seq<byte>, c: seq<byte>, room: nat) {
    if |c| < room then rest == c
    else |rest| >= room + 12 && rest[..room] == c[..room] && rest[room] != 0
  }

  lemma AheadIsContent(k: Codes, r: Reader, c: seq<byte>)
    requires CodesStandOut(k) && r.state.ReadingPayload?
    ensures ContentFirst(Ahead(k, r, c), c, Room(r, c))
  {
  }

  lemma InsertStep(c: seq<byte>, room: nat, n: nat, code: seq<byte>, tail: seq<byte>)
    requires n <= room <= |c|
    ensures (c[..room] + code + tail)[n..] == c[n..][..room - n] + code + tail
    ensures c[n..][room - n..] == c[room..]
  {
  }

  lemma BeforeMiddleStep(k: Codes, c: seq<byte>, room: nat, n: nat)
    requires n <= room && n <= |c|
    ensures n <= |BeforeMiddle(k, c, room)| && BeforeMiddle(k, c, room)[n..] == BeforeMiddle(k, c[n..], room - n)
  {
    if room <= |c| {
      InsertStep(c, room, n, k.middle, BeforeEnd(k, c[room..], MAT_END_POS - MAT_MIDDLE_POS - 12));
    }
  }

  lemma BeforeEndStep(k: Codes, c: seq<byte>, room: nat, n: nat)
    requires n <= room && n <= |c|
    ensures n <= |BeforeEnd(k, c, room)| && BeforeEnd(k, c, room)[n..] == BeforeEnd(k, c[n..], room - n)
  {
    if room <= |c| {
      InsertStep(c, room, n, k.end, c[room..]);
    }
  }

  lemma AheadSteps(k: Codes, r: Reader, c: seq<byte>, n: nat)
    requires r.state.ReadingPayload? && StageFits(r) && n <= |c| && n <= Room(r, c) && n <= r.state.bytesRemaining
    ensures n <= |Ahead(k, r, c)| && Ahead(k, r.Advanced(n), c[n..]) == Ahead(k, r, c)[n..]
  {
    if !r.state.middleCodeSkipped {
      BeforeMiddleStep(k, c, Room(r, c), n);
    } else if !r.state.endCodeSkipped {
      BeforeEndStep(k, c, Room(r, c), n);
    }
  }

  lemma StepIntoContent(k: Codes, r: Reader, c: seq<byte>, n: nat)
    requires LaidOut(k, r, c) && n % 2 == 0 && n <= |c| && n <= Room(r, c) && n <= r.state.bytesRemaining
    ensures LaidOut(k, r.Advanced(n), c[n..])
  {
    AheadSteps(k, r, c, n);
    assert r.buffer[r.cursor + n..] == r.buffer[r.cursor..][n..];
  }

  lemma CodeStands(r: Reader, position: nat, code: seq<byte>, tail: seq<byte>)
    requires r.Consistent() && r.state.ReadingPayload? && r.cursor == position
    requires r.buffer[r.cursor..] == code + tail
    ensures TrySkip(r, position, code) == Skipped
    ensures r.buffer[r.cursor + |code|..] == tail
  {
    var rest := r.buffer[r.cursor..];
    assert r.buffer[r.cursor..r.cursor + |code|] == rest[..|code|];
    assert r.buffer[r.cursor + |code|..] == rest[|code|..];
  }

  /** A reader that stands on a code skips it. */
  lemma StepOverCode(k: Codes, r: Reader, c: seq<byte>)
    requires k == MatCodes() && LaidOut(k, r, c) && Room(r, c) == 0
    ensures r.state.bytesRemaining >= 12
    ensures var t := Round(r); t.Again? && LaidOut(k, t.reader, c) && t.reader.pending == r.pending
  {
    MatCodesStandOut();
    assert c[0..] == c && c[..0] == [];
    if !r.state.middleCodeSkipped {
      CodeStands(r, MAT_MIDDLE_POS, k.middle, BeforeEnd(k, c, MAT_END_POS - MAT_MIDDLE_POS - 12));
    } else {
      CodeStands(r, MAT_END_POS, k.end, c);
    }
  }

  /** Away from a code, a round reads content. */
  lemma ReadsContent(k: Codes, r: Reader, c: seq<byte>)
    requires CodesStandOut(k) && LaidOut(k, r, c) && Room(r, c) > 0
    ensures (c == []) == (r.state.bytesRemaining == 0)
    ensures c != [] ==> Round(r) == Content(r)
  {
    AheadIsContent(k, r, c);
  }

  /** The padding a round strips is padding of the content. */
  lemma PaddingIsContent(rest: seq<byte>, c: seq<byte>, room: nat)
    requires ContentFirst(rest, c, room) && room > 0 && room % 2 == 0 && |c| % 2 == 0 && c != []
    ensures var z := ZeroRun(rest);
            && z <= |c| && z <= room && (forall i | 0 <= i < z :: c[i] == 0)
            && |rest| >= 2 && rest[0] == c[0] && rest[1] == c[1]
  {
    if |c| >= room {
      assert forall i | 0 <= i < room :: rest[i] == rest[..room][i] == c[i];
    }
  }

  lemma AvailableContent(r: Reader, c: seq<byte>, size: nat)
    requires r.Consistent() && r.state.ReadingPayload? && StageFits(r) && size > 0
    requires ContentFirst(r.buffer[r.cursor..], c, Room(r, c)) && Room(r, c) > 0 && c != []
    ensures r.state.bytesRemaining > 0
    ensures var n := Min(size, Min(|c|, Room(r, c)));
            Available(r, size) == n && r.buffer[r.cursor..r.cursor + n] == c[..n]
  {
    var n, rest := Min(size, Min(|c|, Room(r, c))), r.buffer[r.cursor..];
    assert rest[..n] == c[..n] by {
      if |c| >= Room(r, c) {
        assert rest[..n] == rest[..Room(r, c)][..n];
      }
    }
    assert r.buffer[r.cursor..r.cursor + n] == rest[..n];
  }

  lemma NothingAhead(k: Codes, r: Reader, c: seq<byte>)
    requires CodesStandOut(k) && LaidOut(k, r, c) && r.state.bytesRemaining == 0
    ensures c == []
  {
    AheadIsContent(k, r, c);
    assert r.buffer[r.cursor..] == [];
  }

  lemma OtherPending(k: Codes, r: Reader, c: seq<byte>, left: nat)
    requires LaidOut(k, r, c) && left % 2 == 0
    ensures LaidOut(k, r.(pending := Pend(left)), c)
  {
  }

  lemma EvenMin(a: int, b: int)
    requires a % 2 == 0 && b % 2 == 0
    ensures Min(a, b) % 2 == 0
  {
  }

  /** Pieces end on words: the codes stand on them. */
  lemma PieceIsEven(k: Codes, r: Reader, c: seq<byte>, size: nat, n: nat)
    requires LaidOut(k, r, c) && Room(r, c) > 0 && c != [] && size > 0 && size % 2 == 0
    requires n == Min(size, Min(|c|, Room(r, c)))
    ensures n % 2 == 0 && n > 0
  {
    assert Room(r, c) % 2 == 0;
    EvenMin(|c|, Room(r, c));
    EvenMin(size, Min(|c|, Room(r, c)));
  }

  lemma PieceIsThere(k: Codes, r: Reader, c: seq<byte>, size: nat, n: nat)
    requires CodesStandOut(k) && LaidOut(k, r, c) && Room(r, c) > 0 && c != [] && size > 0
    requires n == Min(size, Min(|c|, Room(r, c)))
    ensures r.state.bytesRemaining > 0 && n <= r.state.bytesRemaining
    ensures Available(r, size) == n && r.buffer[r.cursor..r.cursor + n] == c[..n]
  {
    AheadIsContent(k, r, c);
    AvailableContent(r, c, size);
  }

  lemma PieceIsPassed(k: Codes, r: Reader, c: seq<byte>, size: nat, n: nat) returns (after: Reader)
    requires CodesStandOut(k) && LaidOut(k, r, c) && n <= |c| && n <= Room(r, c) && n <= r.state.bytesRemaining
    requires n <= size && size % 2 == 0 && n % 2 == 0
    ensures after == r.Advanced(n).(pending := Pend(size - n))
    ensures LaidOut(k, after, c[n..]) && (after.state.bytesRemaining == 0 ==> c[n..] == [])
  {
    StepIntoContent(k, r, c, n);
    after := r.Advanced(n).(pending := Pend(size - n));
    OtherPending(k, r.Advanced(n), c[n..], size - n);
    if after.state.bytesRemaining == 0 {
      NothingAhead(k, after, c[n..]);
    }
  }

  lemma PieceIsDelivered(r: Reader, piece: seq<byte>, size: nat, after: Reader)
    requires r.Consistent() && r.state.ReadingPayload? && r.state.bytesRemaining > 0 && size > 0
    requires Available(r, size) == |piece| && r.buffer[r.cursor..r.cursor + |piece|] == piece
    requires after == r.Advanced(|piece|).(pending := Pend(size - |piece|))
    ensures Deliver(r, size) == Return(Chunk(Swapped(piece)),
                                       if after.state.bytesRemaining == 0 then after.(state := WaitingForPayload)
                                         else after)
  {
  }

  /** What a reader gives and leaves pending is what the content says. */
  ghost predicate Gives(r: Reader, f: Framed) {
    r.Consistent() && Drain(r).0 == Swapped(f.bytes) && Drain(r).1.pending == Pend(f.left)
  }

  lemma WaitingGivesNothing(r: Reader)
    requires r.Consistent() && r.state.WaitingForPayload?
    ensures Gives(r, Framed([], Left(r.pending)))
  {
  }

  lemma AgainGives(r: Reader, f: Framed)
    requires r.Consistent() && Round(r).Again? && Gives(Round(r).reader, f)
    ensures Gives(r, f)
  {
  }

  lemma ChunkGives(r: Reader, piece: seq<byte>, after: Reader, f: Framed)
    requires r.Consistent() && Round(r) == Return(Chunk(Swapped(piece)), after) && Gives(after, f)
    requires |piece| % 2 == 0
    ensures Gives(r, Prefixed(piece, f))
  {
    SwappedConcat(piece, f.bytes);
  }

  /** What one round does to the content ahead. */
  datatype Move = Ends(after: Reader) | Goes(after: Reader, rest: seq<byte>) | Hands(after: Reader, n: nat)

  /** The round this move describes reads content as `Deframe` does. */
  ghost predicate Explains(k: Codes, r: Reader, c: seq<byte>, t: Turn, move: Move) {
    var f := Deframe(c, Left(r.pending));
    match move
    case Ends(after) =>
      t == Again(after) && after.Consistent() && after.state.WaitingForPayload? && f == Framed([], Left(after.pending))
    case Goes(after, rest) =>
      t == Again(after) && LaidOut(k, after, rest) && f == Deframe(rest, Left(after.pending))
    case Hands(after, n) =>
      && n <= |c| && n % 2 == 0 && t == Return(Chunk(Swapped(c[..n])), after) && after.Consistent()
      && f == Prefixed(c[..n], Deframe(c[n..], Left(after.pending)))
      && (LaidOut(k, after, c[n..]) || (c[n..] == [] && after.state.WaitingForPayload?))
  }

  lemma ChunkMove(k: Codes, r: Reader, c: seq<byte>, size: nat) returns (move: Move)
    requires CodesStandOut(k) && LaidOut(k, r, c) && size > 0 && size % 2 == 0 && c != [] && Room(r, c) > 0
    requires Deframe(c, Left(r.pending)) == Deframe(c, size)
    ensures r.state.bytesRemaining > 0 && Explains(k, r, c, Deliver(r, size), move)
  {
    var n := Min(size, Min(|c|, Room(r, c)));
    PieceIsEven(k, r, c, size, n);
    PieceIsThere(k, r, c, size, n);
    var after := PieceIsPassed(k, r, c, size, n);
    PieceIsDelivered(r, c[..n], size, after);
    move := HandsPiece(k, r, c, size, n, after);
  }

  lemma HandsPiece(k: Codes, r: Reader, c: seq<byte>, size: nat, n: nat, passed: Reader) returns (move: Move)
    requires r.Consistent() && r.state.ReadingPayload? && r.state.bytesRemaining > 0
    requires 0 < n <= size && n <= |c| && n % 2 == 0 && size % 2 == 0
    requires passed.pending == Pend(size - n) && LaidOut(k, passed, c[n..])
    requires passed.state.bytesRemaining == 0 ==> c[n..] == []
    requires Deliver(r, size) == Return(Chunk(Swapped(c[..n])),
                                        if passed.state.bytesRemaining == 0 then passed.(state := WaitingForPayload)
                                          else passed)
    requires Deframe(c, Left(r.pending)) == Deframe(c, size)
    ensures Explains(k, r, c, Deliver(r, size), move)
  {
    DeframePiece(c, size, n);
    move := Hands(if passed.state.bytesRemaining == 0 then passed.(state := WaitingForPayload) else passed, n);
  }

  lemma ZeroWordMove(k: Codes, r: Reader, c: seq<byte>) returns (move: Move)
    requires LaidOut(k, r, c) && r.pending.None? && |c| >= 2 && Room(r, c) >= 2 && r.state.bytesRemaining >= 2
    requires ChunkSize(c[0], c[1]) == 0 && Content(r) == Again(r.Advanced(2))
    ensures Explains(k, r, c, Content(r), move)
  {
    StepIntoContent(k, r, c, 2);
    DeframeDrop(c);
    move := Goes(r.Advanced(2), c[2..]);
  }

  lemma PaddingMove(k: Codes, r: Reader, c: seq<byte>, z: nat) returns (move: Move)
    requires CodesStandOut(k) && LaidOut(k, r, c) && r.pending.None? && z == ZeroRun(r.buffer[r.cursor..]) > 0
    requires z <= |c| && z <= Room(r, c) && forall i | 0 <= i < z :: c[i] == 0
    ensures r.state.bytesRemaining > 0 && Explains(k, r, c, Content(r), move)
  {
    StepIntoContent(k, r, c, z);
    DeframeZeros(c, z);
    if z == |r.buffer[r.cursor..]| {
      NothingAhead(k, r.Advanced(z), c[z..]);
      move := Ends(r.Finished());
    } else {
      move := Goes(r.Advanced(z), c[z..]);
    }
  }

  lemma ContentMove(k: Codes, r: Reader, c: seq<byte>) returns (move: Move)
    requires CodesStandOut(k) && LaidOut(k, r, c) && c != [] && Room(r, c) > 0 && r.state.bytesRemaining > 0
    ensures Explains(k, r, c, Content(r), move)
  {
    var rest := r.buffer[r.cursor..];
    var z := ZeroRun(rest);
    assert ContentFirst(rest, c, Room(r, c)) by {
      AheadIsContent(k, r, c);
    }
    PaddingIsContent(rest, c, Room(r, c));
    if r.pending.Some? {
      move := ChunkMove(k, r, c, r.pending.value);
    } else if z > 0 {
      move := PaddingMove(k, r, c, z);
    } else if ChunkSize(c[0], c[1]) == 0 {
      assert Room(r, c) % 2 == 0;
      move := ZeroWordMove(k, r, c);
    } else {
      DeframeHeader(c);
      move := ChunkMove(k, r, c, ChunkSize(c[0], c[1]));
    }
  }

  lemma RoundMove(k: Codes, r: Reader, c: seq<byte>) returns (move: Move)
    requires k == MatCodes() && LaidOut(k, r, c)
    ensures Explains(k, r, c, Round(r), move)
  {
    MatCodesStandOut();
    if Room(r, c) == 0 {
      StepOverCode(k, r, c);
      move := Goes(Round(r).reader, c);
    } else {
      ReadsContent(k, r, c);
      if c == [] {
        move := Ends(r.Finished());
      } else {
        move := ContentMove(k, r, c);
      }
    }
  }

  /** Draining a laid out payload reads its content. */
  lemma {:induction false} DrainsContent(k: Codes, r: Reader, c: seq<byte>)
    requires k == MatCodes() && LaidOut(k, r, c)
    ensures Gives(r, Deframe(c, Left(r.pending)))
    decreases r.Measure()
  {
    var move := RoundMove(k, r, c);
    match move {
      case Ends(after) => WaitingGivesNothing(after);
      case Goes(after, rest) => DrainsContent(k, after, rest);
      case Hands(after, n) =>
        if after.state.WaitingForPayload? {
          WaitingGivesNothing(after);
        } else {
          DrainsContent(k, after, c[n..]);
        }
        ChunkGives(r, c[..n], after, Deframe(c[n..], Left(after.pending)));
    }
  }

  /** A payload drains to its content. */
  lemma DrainsPayload(c: seq<byte>, pending: Option<nat>)
    requires |c| % 2 == 0 && Left(pending) % 2 == 0 && (pending.Some? ==> pending.value > 0)
    ensures Gives(Opened(Wrap(MatCodes(), c), pending), Deframe(c, Left(pending)))
  {
    var k := MatCodes();
    var r := Opened(Wrap(k, c), pending);
    MatCodesStandOut();
    StartsContent(k, r, c);
    DrainsContent(k, Round(r).reader, c);
    AgainGives(r, Deframe(c, Left(pending)));
  }

  lemma StartsContent(k: Codes, r: Reader, c: seq<byte>)
    requires k == MatCodes() && CodesStandOut(k) && |c| % 2 == 0 && Left(r.pending) % 2 == 0
    requires r.Consistent() && r == Opened(Wrap(k, c), r.pending)
    ensures Round(r).Again? && LaidOut(k, Round(r).reader, c) && Round(r).reader.pending == r.pending
  {
    assert r.buffer[..20] == k.start && r.buffer[20..] == BeforeMiddle(k, c, MAT_MIDDLE_POS - 20);
  }

  function Wrapped(k: Codes, parts: seq<seq<byte>>): (r: seq<seq<byte>>)
    ensures |r| == |parts|
  {
    if parts == [] then [] else [Wrap(k, parts[0])] + Wrapped(k, parts[1..])
  }

  predicate AllEven(parts: seq<seq<byte>>) {
    parts == [] || (|parts[0]| % 2 == 0 && AllEven(parts[1..]))
  }

  /** Every payload with these codes drains to its content. */
  ghost predicate CodesDrain(k: Codes) {
    forall c, left :: PayloadDrains(k, c, left)
  }

  ghost predicate PayloadDrains(k: Codes, c: seq<byte>, left: nat) {
    |c| % 2 == 0 && left % 2 == 0 ==> Gives(Opened(Wrap(k, c), Pend(left)), Deframe(c, left))
  }

  lemma MatCodesDrain()
    ensures CodesDrain(MatCodes())
  {
    forall c: seq<byte>, left: nat
      ensures PayloadDrains(MatCodes(), c, left)
    {
      if |c| % 2 == 0 && left % 2 == 0 {
        DrainsPayload(c, Pend(left));
      }
    }
  }

  /** Payloads drain to their contents, joined, wherever the content was cut. */
  lemma {:induction false} DrainsPayloads(k: Codes, parts: seq<seq<byte>>, left: nat)
    requires CodesDrain(k) && left % 2 == 0 && AllEven(parts)
    ensures var f := Deframe(Joined(parts), left);
            DrainPayloads(Wrapped(k, parts), Pend(left)) == (Swapped(f.bytes), Pend(f.left))
    decreases |parts|
  {
    if parts == [] {
      assert Swapped([]) == [];
    } else {
      var c, more, all := parts[0], Joined(parts[1..]), Joined(parts);
      var first, payloads := Deframe(c, left), Wrapped(k, parts);
      assert payloads[1..] == Wrapped(k, parts[1..]);
      assert PayloadDrains(k, c, left);
      PayloadsStep(payloads, Pend(left), first);
      DeframeConcat(c, more, all, left);
      DrainsPayloads(k, parts[1..], first.left);
      TwoPieces(c, left, Deframe(more, first.left), Deframe(all, left));
    }
  }

  lemma TwoPieces(c: seq<byte>, left: nat, rest: Framed, both: Framed)
    requires both == Prefixed(Deframe(c, left).bytes, rest)
    ensures Swapped(both.bytes) == Swapped(Deframe(c, left).bytes) + Swapped(rest.bytes) && both.left == rest.left
  {
    var words := DeframedWords(c, left);
    SwappedConcat(Deframe(c, left).bytes, rest.bytes);
  }

  lemma PayloadsStep(payloads: seq<seq<byte>>, pending: Option<nat>, f: Framed)
    requires payloads != [] && (pending.Some? ==> pending.value > 0)
    requires Gives(Opened(payloads[0], pending), f)
    ensures var more := DrainPayloads(payloads[1..], Pend(f.left));
            DrainPayloads(payloads, pending) == (Swapped(f.bytes) + more.0, more.1)
  {
  }

  lemma {:induction false} DeframedWords(c: seq<byte>, left: nat) returns (words: nat)
    ensures |Deframe(c, left).bytes| == 2 * words
    decreases |c|
  {
    if |c| < 2 {
      words := 0;
    } else {
      var want := Want(c[0], c[1], left);
      var left' := if want < 2 then 0 else want - 2;
      words := DeframedWords(c[2..], left');
      PrefixedLength(if want < 2 then [] else c[..2], Deframe(c[2..], left'));
      words := words + if want < 2 then 0 else 1;
    }
  }

  lemma PrefixedLength(head: seq<byte>, f: Framed)
    ensures |Prefixed(head, f).bytes| == |head| + |f.bytes|
  {
  }

  /** The round trip: access units laid out with any padding between them, and
      the content cut into payloads at any word, come back whole, in order and
      byte-swapped, with nothing left pending. */
  lemma RoundTrip(items: seq<Item>, parts: seq<seq<byte>>)
    requires AllItems(items) && Joined(parts) == Flat(items) && AllEven(parts)
    ensures DrainPayloads(Wrapped(MatCodes(), parts), None) == (Swapped(Units(items)), None)
  {
    MatCodesDrain();
    DrainsPayloads(MatCodes(), parts, 0);
    DeframeItems(items);
  }
}
