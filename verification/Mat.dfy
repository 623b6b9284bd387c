/** MAT de-framing: TrueHD access units inside the payloads of IEC 61937 bursts.
    A resumable reader skips the start, middle and end codes at their fixed
    offsets and the zero padding between units, and swaps the bytes of every
    sixteen-bit word. */
module Mat {
  import opened Bytes

  const MAT_START_CODE: seq<byte> := [
    0x9E, 0x07, 0x03, 0x00, 0x01, 0x84, 0x01, 0x01, 0x00, 0x80, 0xA5, 0x56, 0xF4, 0x3B, 0x83, 0x81,
    0x80, 0x49, 0xE0, 0x77]
  const MAT_MIDDLE_CODE: seq<byte> := [0xC1, 0xC3, 0x49, 0x42, 0xFA, 0x3B, 0x83, 0x82, 0x80, 0x49, 0xE0, 0x77]
  const MAT_END_CODE: seq<byte> := [
    0xC2, 0xC3, 0xC4, 0xC0, 0x00, 0x00, 0x00, 0x00, 0x00, 0x00, 0x00, 0x00, 0x00, 0x00, 0x11, 0x97]
  const MAT_MIDDLE_POS := 30708
  const MAT_FRAME_SIZE := 61424
  const MAT_END_POS := 61408

  /** The bytes of each word swapped; an odd last byte stays. */
  function Swapped(src: seq<byte>): (r: seq<byte>)
    ensures |r| == |src|
  {
    seq<byte>(|src|, i requires 0 <= i < |src| =>
      if i % 2 == 1 then src[i - 1] else if i + 1 < |src| then src[i + 1] else src[i])
  }

  method CopySwappedWords(src: seq<byte>) returns (out: array<byte>)
    ensures fresh(out) && out[..] == Swapped(src)
  {
    out := new byte[|src|](_ => 0);
    var evenLen := |src| - |src| % 2;
    var i := 0;
    while i < evenLen
      invariant i % 2 == 0 && i <= evenLen
      invariant forall k | 0 <= k < i :: out[k] == Swapped(src)[k]
    {
      out[i] := src[i + 1];
      out[i + 1] := src[i];
      i := i + 2;
    }
    if |src| != evenLen {
      out[|src| - 1] := src[|src| - 1];
    }
    assert forall k | 0 <= k < |src| :: out[..][k] == Swapped(src)[k];
  }

  lemma SwappedConcat(a: seq<byte>, b: seq<byte>)
    requires |a| % 2 == 0
    ensures Swapped(a + b) == Swapped(a) + Swapped(b)
  {
  }

  datatype ParserState =
    | WaitingForPayload
    | VerifyingMatStart(payloadSize: nat)
    | ReadingPayload(bytesRemaining: nat, matPosition: nat, middleCodeSkipped: bool, endCodeSkipped: bool)

  /** What a stream holds, as a value. */
  datatype Reader = Reader(buffer: seq<byte>, cursor: nat, state: ParserState, pending: Option<nat>) {
    /** A payload is buffered whole, so what remains of it and where it is read
        are told by the cursor. */
    predicate Consistent() {
      && cursor <= |buffer|
      && (pending.Some? ==> pending.value > 0)
      && (state.VerifyingMatStart? ==> cursor == 0 && state.payloadSize == |buffer|)
      && (state.ReadingPayload? ==> state.bytesRemaining == |buffer| - cursor && state.matPosition == cursor)
    }

    function Measure(): nat
      requires Consistent()
    {
      match state
      case WaitingForPayload => 0
      case VerifyingMatStart(_) => |buffer| + 2
      case ReadingPayload(_, _, _, _) => |buffer| - cursor + 1
    }

    function Advanced(n: nat): Reader
      requires state.ReadingPayload? && n <= state.bytesRemaining
    {
      this.(cursor := cursor + n,
            state := state.(bytesRemaining := state.bytesRemaining - n, matPosition := state.matPosition + n))
    }

    function Finished(): Reader {
      Reader([], 0, WaitingForPayload, pending)
    }
  }

  datatype Outcome = Chunk(bytes: seq<byte>) | Nothing | InvalidStart

  datatype Turn = Again(reader: Reader) | Return(outcome: Outcome, reader: Reader)

  datatype SkipCode = Skipped | NotHere | NeedMoreData

  function TrySkip(r: Reader, position: nat, code: seq<byte>): SkipCode
    requires r.Consistent() && r.state.ReadingPayload?
  {
    if r.cursor != position then NotHere
    else if |r.buffer| - r.cursor < |code| then NeedMoreData
    else if r.buffer[r.cursor..r.cursor + |code|] != code then NotHere
    else Skipped
  }

  /** How many bytes of zero words the bytes open with. */
  function ZeroRun(s: seq<byte>): (n: nat)
    ensures n <= |s| && n % 2 == 0
    ensures forall i | 0 <= i < n :: s[i] == 0
    ensures n + 2 <= |s| ==> s[n] != 0 || s[n + 1] != 0
  {
    if |s| >= 2 && s[0] == 0 && s[1] == 0 then 2 + ZeroRun(s[2..]) else 0
  }

  function ChunkSize(lo: byte, hi: byte): (n: nat)
    ensures n % 2 == 0
  {
    (lo + 256 * hi) % 4096 * 2
  }

  /** As much of a chunk as comes before the payload's end and the next code. */
  function Available(r: Reader, size: nat): (n: nat)
    requires r.Consistent() && r.state.ReadingPayload?
    ensures n <= size && n <= r.state.bytesRemaining
    ensures size > 0 && r.state.bytesRemaining > 0 ==> n > 0
  {
    var n := Min(size, r.state.bytesRemaining);
    var m := if !r.state.middleCodeSkipped && r.cursor < MAT_MIDDLE_POS then Min(n, MAT_MIDDLE_POS - r.cursor) else n;
    if !r.state.endCodeSkipped && r.cursor < MAT_END_POS then Min(m, MAT_END_POS - r.cursor) else m
  }

  /** A round keeps the reader consistent; it moves on unless nothing can. */
  predicate Progress(r: Reader, t: Turn)
    requires r.Consistent()
  {
    && t.reader.Consistent()
    && (t.Return? && t.outcome.Nothing? ==> t.reader == r)
    && (t.Again? || !t.outcome.Nothing? ==> t.reader.Measure() < r.Measure())
  }

  /** Hand over what is available of a chunk of `size` bytes; the rest is pending. */
  function Deliver(r: Reader, size: nat): (t: Turn)
    requires r.Consistent() && r.state.ReadingPayload? && size > 0 && r.state.bytesRemaining > 0
    ensures t.Return? && t.outcome.Chunk? && Progress(r, t)
  {
    var n := Available(r, size);
    var left := if size - n > 0 then Some(size - n) else None;
    var after := r.Advanced(n).(pending := left);
    Return(Chunk(Swapped(r.buffer[r.cursor..r.cursor + n])),
           if after.state.bytesRemaining == 0 then after.(state := WaitingForPayload) else after)
  }

  function SkippedCode(r: Reader, n: nat, middle: bool, end: bool): (t: Turn)
    requires r.Consistent() && r.state.ReadingPayload? && 0 < n <= r.state.bytesRemaining
    ensures t.Again? && Progress(r, t)
  {
    var after := r.Advanced(n);
    Again(after.(state := after.state.(middleCodeSkipped := middle, endCodeSkipped := end)))
  }

  /** A round that stands on content: the rest of a split chunk, padding, or a
      chunk's first word. */
  function Content(r: Reader): (t: Turn)
    requires r.Consistent() && r.state.ReadingPayload? && r.state.bytesRemaining > 0
    ensures Progress(r, t)
  {
    var rest := r.buffer[r.cursor..];
    var zeros := ZeroRun(rest);
    if r.pending.Some? then Deliver(r, r.pending.value)
    else if zeros > 0 then Again(if zeros == |rest| then r.Finished() else r.Advanced(zeros))
    else if |rest| < 2 then Return(Nothing, r)
    else
      var size := ChunkSize(rest[0], rest[1]);
      if size == 0 then Again(r.Advanced(2)) else Deliver(r, size)
  }

  function Start(r: Reader): (t: Turn)
    requires r.Consistent() && r.state.VerifyingMatStart?
    ensures Progress(r, t)
  {
    var n := |MAT_START_CODE|;
    if |r.buffer| < n then Return(Nothing, r)
    else if r.buffer[..n] != MAT_START_CODE then Return(InvalidStart, r.Finished())
    else Again(r.(cursor := n, state := ReadingPayload(|r.buffer| - n, n, false, false)))
  }

  /** A code that stands here is skipped before anything else. */
  function Reading(r: Reader, middle: SkipCode, end: SkipCode): (t: Turn)
    requires r.Consistent() && r.state.ReadingPayload? && r.state.bytesRemaining > 0
    requires middle.Skipped? ==> 12 <= r.state.bytesRemaining
    requires end.Skipped? ==> 16 <= r.state.bytesRemaining
    ensures Progress(r, t)
  {
    match middle
    case Skipped => SkippedCode(r, 12, true, r.state.endCodeSkipped)
    case NeedMoreData => Return(Nothing, r)
    case NotHere =>
      match end
      case Skipped => SkippedCode(r, 16, r.state.middleCodeSkipped, true)
      case NeedMoreData => Return(Nothing, r)
      case NotHere => Content(r)
  }

  /** One round of the reader's loop. */
  function Round(r: Reader): (t: Turn)
    requires r.Consistent()
    ensures Progress(r, t)
  {
    match r.state
    case WaitingForPayload => Return(Nothing, r)
    case VerifyingMatStart(_) => Start(r)
    case ReadingPayload(remaining, _, _, _) =>
      if remaining == 0 then Again(r.Finished()) else Reading(r, SkipMiddle(r), SkipEnd(r))
  }

  function SkipMiddle(r: Reader): (k: SkipCode)
    requires r.Consistent() && r.state.ReadingPayload?
    ensures k.Skipped? ==> 12 <= r.state.bytesRemaining
  {
    if r.state.middleCodeSkipped then NotHere else TrySkip(r, MAT_MIDDLE_POS, MAT_MIDDLE_CODE)
  }

  function SkipEnd(r: Reader): (k: SkipCode)
    requires r.Consistent() && r.state.ReadingPayload?
    ensures k.Skipped? ==> 16 <= r.state.bytesRemaining
  {
    if r.state.endCodeSkipped then NotHere else TrySkip(r, MAT_END_POS, MAT_END_CODE)
  }

  /** Rounds until the reader returns. */
  function NextReturn(r: Reader): (t: Turn)
    requires r.Consistent()
    ensures t.Return? && t.reader.Consistent()
    ensures !t.outcome.Nothing? ==> t.reader.Measure() < r.Measure()
    decreases r.Measure()
  {
    var t := Round(r);
    if t.Again? then NextReturn(t.reader) else t
  }

  method CountZeros(slice: seq<byte>) returns (stripBytes: nat)
    ensures stripBytes == ZeroRun(slice)
  {
    stripBytes := 0;
    assert slice[0..] == slice;
    while stripBytes + 1 < |slice| && slice[stripBytes] == 0 && slice[stripBytes + 1] == 0
      invariant stripBytes <= |slice| && ZeroRun(slice) == stripBytes + ZeroRun(slice[stripBytes..])
    {
      assert slice[stripBytes..][2..] == slice[stripBytes + 2..];
      stripBytes := stripBytes + 2;
    }
  }

  class MatStream {
    var buffer: seq<byte>
    var cursor: nat
    var state: ParserState
    var pendingChunkBytes: Option<nat>
    /** Chunk headers of size 0 skipped since the payload came. */
    var zeroSizeChunks: nat

    function Snap(): Reader
      reads this
    {
      Reader(buffer, cursor, state, pendingChunkBytes)
    }

    ghost predicate Valid()
      reads this
    {
      Snap().Consistent()
    }

    constructor ()
      ensures Valid() && Snap() == Reader([], 0, WaitingForPayload, None)
    {
      buffer, cursor, state, pendingChunkBytes, zeroSizeChunks := [], 0, WaitingForPayload, None, 0;
    }

    method Reset()
      modifies this
      ensures Valid() && Snap() == Reader([], 0, WaitingForPayload, None)
    {
      buffer, cursor, state, pendingChunkBytes, zeroSizeChunks := [], 0, WaitingForPayload, None, 0;
    }

    /** A new payload replaces the old one; a chunk the old one cut stays pending. */
    method PushPayload(payload: seq<byte>)
      requires Valid()
      modifies this
      ensures Valid() && Snap() == Opened(payload, old(pendingChunkBytes))
    {
      zeroSizeChunks := 0;
      buffer, cursor, state := payload, 0, VerifyingMatStart(|payload|);
    }

    method StripPaddingWords()
      requires Valid() && state.ReadingPayload? && ZeroRun(buffer[cursor..]) > 0
      modifies this`cursor, this`state
      ensures Valid() && Snap() == old(Snap()).Advanced(ZeroRun(old(buffer[cursor..])))
    {
      var stripBytes := CountZeros(buffer[cursor..]);
      cursor := cursor + stripBytes;
      state := state.(bytesRemaining := state.bytesRemaining - stripBytes,
        matPosition := state.matPosition + stripBytes);
    }

    /** Whether the chunk lies whole before the payload's end and the next code. */
    method FullChunkAvailable(size: nat) returns (full: bool)
      requires Valid() && state.ReadingPayload? && size > 0
      ensures full <==> Available(Snap(), size) == size
    {
      if size > state.bytesRemaining || |buffer| - cursor < size {
        return false;
      }
      if !state.middleCodeSkipped && state.matPosition < MAT_MIDDLE_POS && state.matPosition + size > MAT_MIDDLE_POS {
        return false;
      }
      if !state.endCodeSkipped && state.matPosition < MAT_END_POS && state.matPosition + size > MAT_END_POS {
        return false;
      }
      return true;
    }

    method TakeChunk(n: nat) returns (chunk: seq<byte>)
      requires Valid() && state.ReadingPayload? && n <= state.bytesRemaining
      modifies this`cursor
      ensures chunk == Swapped(old(buffer[cursor..cursor + n])) && cursor == old(cursor) + n
    {
      var out := CopySwappedWords(buffer[cursor..cursor + n]);
      cursor := cursor + n;
      chunk := out[..];
    }

    /** The chunk whole when it lies so, else as much of it as there is. */
    method AvailableNow(size: nat) returns (n: nat)
      requires Valid() && state.ReadingPayload? && size > 0
      ensures n == Available(Snap(), size)
    {
      var full := FullChunkAvailable(size);
      if full {
        return size;
      }
      n := Min(size, state.bytesRemaining);
      if !state.middleCodeSkipped && state.matPosition < MAT_MIDDLE_POS {
        n := Min(n, MAT_MIDDLE_POS - state.matPosition);
      }
      if !state.endCodeSkipped && state.matPosition < MAT_END_POS {
        n := Min(n, MAT_END_POS - state.matPosition);
      }
    }

    method DeliverChunk(size: nat) returns (chunk: seq<byte>)
      requires Valid() && state.ReadingPayload? && size > 0 && state.bytesRemaining > 0
      modifies this
      ensures Valid() && Return(Chunk(chunk), Snap()) == Deliver(old(Snap()), size)
    {
      var available := AvailableNow(size);
      chunk := TakeChunk(available);
      pendingChunkBytes := if size - available > 0 then Some(size - available) else None;
      var after := state.bytesRemaining - available;
      state := if after == 0
               then WaitingForPayload
               else state.(bytesRemaining := after, matPosition := state.matPosition + available);
    }

    /** One round over content; `done` when it returns. */
    method ReadContent() returns (done: bool, outcome: Outcome)
      requires Valid() && state.ReadingPayload? && state.bytesRemaining > 0
      modifies this
      ensures Valid()
      ensures Content(old(Snap())) == if done then Return(outcome, Snap()) else Again(Snap())
    {
      ghost var rest := buffer[cursor..];
      outcome := Nothing;
      if pendingChunkBytes.Some? {
        var chunk := DeliverChunk(pendingChunkBytes.value);
        return true, Chunk(chunk);
      }
      if |buffer| - cursor >= 2 && buffer[cursor] == 0 && buffer[cursor + 1] == 0 {
        StripPaddingWords();
        if state.bytesRemaining == 0 {
          buffer, cursor, state := [], 0, WaitingForPayload;
        }
        return false, Nothing;
      }
      if |buffer| - cursor < 2 {
        return true, Nothing;
      }
      var size := ChunkSize(buffer[cursor], buffer[cursor + 1]);
      if size == 0 {
        zeroSizeChunks := zeroSizeChunks + 1;
        cursor := cursor + 2;
        state := state.(bytesRemaining := state.bytesRemaining - 2, matPosition := state.matPosition + 2);
        return false, Nothing;
      }
      var chunk := DeliverChunk(size);
      return true, Chunk(chunk);
    }

    /** One round over a payload whose start code is not read yet. */
    method ReadStart() returns (done: bool, outcome: Outcome)
      requires Valid() && state.VerifyingMatStart?
      modifies this
      ensures Valid()
      ensures Start(old(Snap())) == if done then Return(outcome, Snap()) else Again(Snap())
    {
      var n := |MAT_START_CODE|;
      if |buffer| - cursor < n {
        return true, Nothing;
      }
      if buffer[cursor..cursor + n] != MAT_START_CODE {
        buffer, cursor, state := [], 0, WaitingForPayload;
        return true, InvalidStart;
      }
      cursor, state := cursor + n, ReadingPayload(state.payloadSize - n, n, false, false);
      return false, Nothing;
    }

    /** One round inside a payload: a code first, content otherwise. */
    method ReadPayload() returns (done: bool, outcome: Outcome)
      requires Valid() && state.ReadingPayload? && state.bytesRemaining > 0
      modifies this
      ensures Valid()
      ensures Reading(old(Snap()), SkipMiddle(old(Snap())), SkipEnd(old(Snap())))
              == if done then Return(outcome, Snap()) else Again(Snap())
    {
      var middle, end := SkipMiddle(Snap()), SkipEnd(Snap());
      if middle.Skipped? {
        cursor := cursor + 12;
        state := ReadingPayload(state.bytesRemaining - 12, state.matPosition + 12, true, state.endCodeSkipped);
        return false, Nothing;
      }
      if middle.NeedMoreData? {
        return true, Nothing;
      }
      if end.Skipped? {
        cursor := cursor + 16;
        state := ReadingPayload(state.bytesRemaining - 16, state.matPosition + 16, state.middleCodeSkipped, true);
        return false, Nothing;
      }
      if end.NeedMoreData? {
        return true, Nothing;
      }
      done, outcome := ReadContent();
    }

    method NextChunk() returns (outcome: Outcome)
      requires Valid()
      modifies this
      ensures Valid()
      ensures Return(outcome, Snap()) == NextReturn(old(Snap()))
    {
      while true
        invariant Valid() && NextReturn(Snap()) == NextReturn(old(Snap()))
        decreases Snap().Measure()
      {
        ghost var before := Snap();
        var done := false;
        if state.WaitingForPayload? {
          return Nothing;
        } else if state.VerifyingMatStart? {
          done, outcome := ReadStart();
        } else if state.bytesRemaining == 0 {
          buffer, cursor, state := [], 0, WaitingForPayload;
        } else {
          done, outcome := ReadPayload();
        }
        assert Round(before) == if done then Return(outcome, Snap()) else Again(Snap());
        if done {
          return;
        }
      }
    }
  }

  function Opened(payload: seq<byte>, pending: Option<nat>): Reader {
    Reader(payload, 0, VerifyingMatStart(|payload|), pending)
  }
}
