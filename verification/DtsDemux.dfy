/** Cutting a buffered DTS stream into core and core + extension frames. */
module DtsDemux {
  import opened Bytes
  import opened DtsProbe
  import opened Drain

  datatype ExssKind = Lossless | Lossy | CoreOnly

  datatype Profile = CoreProfile | HdProfile | MaProfile

  /** One call of a decoder, with the slices it is handed. */
  datatype Call =
    | DecodeCore(core: seq<byte>, profile: Profile)
    | DecodeHd(core: seq<byte>, exss: seq<byte>, profile: Profile)

  /** What the demuxer asks of the stream's own syntax: the core header, and the
      size and content of the extension substream the bytes open with. */
  datatype Syntax = Syntax(
    header: seq<byte> -> CoreHeader,
    size: seq<byte> -> Option<nat>,
    kind: seq<byte> -> ExssKind)

  /** An answer does not change when more bytes follow it, and a frame or a
      substream takes at least one byte. */
  ghost predicate PrefixStable(x: Syntax) {
    forall s, t :: HeaderIsStable(x, s, t) && SizeIsStable(x, s, t)
  }

  ghost predicate HeaderIsStable(x: Syntax, s: seq<byte>, t: seq<byte>) {
    x.header(s).Insufficient? || (x.header(s + t) == x.header(s) && (x.header(s).Frame? ==> x.header(s).size > 0))
  }

  ghost predicate SizeIsStable(x: Syntax, s: seq<byte>, t: seq<byte>) {
    x.size(s).Some? ==> 0 < x.size(s).value <= |s| && x.size(s + t) == x.size(s)
  }

  /** The core header parser is prefix-stable; only the substream's is assumed so. */
  lemma ParseHeaderIsStable(size: seq<byte> -> Option<nat>, kind: seq<byte> -> ExssKind)
    requires forall s, t :: SizeIsStable(Syntax(ParseHeader, size, kind), s, t)
    ensures PrefixStable(Syntax(ParseHeader, size, kind))
  {
    var x := Syntax(ParseHeader, size, kind);
    forall s: seq<byte>, t: seq<byte>
      ensures HeaderIsStable(x, s, t)
    {
      if !ParseHeader(s).Insufficient? {
        HeaderExtends(s, t);
      }
    }
  }

  /** The first occurrence of a four-byte word. */
  function Search(data: seq<byte>, needle: seq<byte>): (r: Option<nat>)
    requires |needle| == 4
    ensures r.Some? ==> r.value + 4 <= |data|
  {
    if |data| < 4 then None
    else if data[..4] == needle then Some(0)
    else After(Search(data[1..], needle), 1)
  }

  function After(found: Option<nat>, d: nat): Option<nat> {
    if found.None? then None else Some(d + found.value)
  }

  lemma {:induction false} SearchIsFirst(data: seq<byte>, needle: seq<byte>, i: nat)
    requires |needle| == 4 && i + 4 <= |data| && data[i..i + 4] == needle
    ensures Search(data, needle).Some? && Search(data, needle).value <= i
  {
    if data[..4] != needle {
      assert i > 0 && data[1..][i - 1..i + 3] == data[i..i + 4];
      SearchIsFirst(data[1..], needle, i - 1);
    }
  }

  lemma {:induction false} SearchHits(data: seq<byte>, needle: seq<byte>)
    requires |needle| == 4 && Search(data, needle).Some?
    ensures data[Search(data, needle).value..Search(data, needle).value + 4] == needle
  {
    if data[..4] != needle {
      SearchHits(data[1..], needle);
      var at := Search(data[1..], needle).value;
      assert data[1..][at..at + 4] == data[1 + at..at + 5];
    }
  }

  predicate WordAt(data: seq<byte>, needle: seq<byte>, i: nat) {
    i + 4 <= |data| && data[i..i + 4] == needle
  }

  /** Found there, and nowhere earlier; or nowhere. */
  ghost predicate IsFirst(data: seq<byte>, needle: seq<byte>, found: Option<nat>) {
    && (found.Some? ==> WordAt(data, needle, found.value))
    && forall i: nat | WordAt(data, needle, i) :: found.Some? && found.value <= i
  }

  lemma FirstOccurrence(data: seq<byte>, needle: seq<byte>)
    requires |needle| == 4
    ensures IsFirst(data, needle, Search(data, needle))
  {
    var found := Search(data, needle);
    if found.Some? {
      SearchHits(data, needle);
    }
    forall i: nat | WordAt(data, needle, i)
      ensures found.Some? && found.value <= i
    {
      SearchIsFirst(data, needle, i);
    }
  }

  method Find(data: seq<byte>, needle: seq<byte>) returns (r: Option<nat>)
    requires |needle| == 4
    ensures r == Search(data, needle) && IsFirst(data, needle, r)
  {
    hide IsFirst;
    FirstOccurrence(data, needle);
    var q := 0;
    assert data[0..] == data;
    while q + 4 <= |data|
      invariant q <= |data| && Search(data, needle) == After(Search(data[q..], needle), q)
    {
      assert data[q..][..4] == data[q..q + 4] && data[q..][1..] == data[q + 1..];
      if data[q..q + 4] == needle {
        return Some(q);
      }
      q := q + 1;
    }
    return None;
  }

  /** What the demuxer does with the frame a buffer opens with. */
  function Next(x: Syntax, rest: seq<byte>): (r: Step<Call>)
    ensures r.Stop? ==> r.from == 0
  {
    match x.header(rest)
    case Insufficient => Stop(0)
    case Invalid => Move(4, [])
    case Frame(fs) =>
      if |rest| < fs + 4 then Stop(0)
      else if rest[fs..fs + 4] != SUBSTREAM_SYNC then Move(fs, [DecodeCore(rest[..fs], CoreProfile)])
      else
        var es := x.size(rest[fs..]);
        if es.None? || |rest| < fs + es.value then Stop(0)
        else Move(fs + es.value, [HdCall(x, rest[..fs], rest[fs..fs + es.value])])
  }

  function HdCall(x: Syntax, core: seq<byte>, substream: seq<byte>): Call {
    match x.kind(substream)
    case Lossless => DecodeHd(core, substream, MaProfile)
    case Lossy => DecodeHd(core, substream, HdProfile)
    case CoreOnly => DecodeCore(core, HdProfile)
  }

  lemma NextIsStable(x: Syntax, rest: seq<byte>, more: seq<byte>)
    requires HeaderIsStable(x, rest, more) && |rest| >= 4
    requires x.header(rest).Frame? && x.header(rest).size <= |rest|
      ==> SizeIsStable(x, rest[x.header(rest).size..], more)
    ensures Next(x, rest).Move? ==> 0 < Next(x, rest).used <= |rest| && Next(x, rest + more) == Next(x, rest)
  {
    if x.header(rest).Frame? && x.header(rest).size + 4 <= |rest| {
      var fs := x.header(rest).size;
      assert (rest + more)[fs..fs + 4] == rest[fs..fs + 4];
      assert (rest + more)[..fs] == rest[..fs];
      assert (rest + more)[fs..] == rest[fs..] + more;
      var es := x.size(rest[fs..]);
      if es.Some? {
        assert (rest + more)[fs..fs + es.value] == rest[fs..fs + es.value];
      }
    }
  }

  /** Something that judges the frame a buffer opens with. */
  type Framer = seq<byte> -> Step<Call>

  ghost predicate FrameKeeps(next: Framer, rest: seq<byte>, t: seq<byte>) {
    |rest| >= 4 ==>
      match next(rest)
      case Stop(from) => from == 0
      case Move(n, _) => 0 < n <= |rest| && next(rest + t) == next(rest)
  }

  ghost predicate FramesKeep(next: Framer) {
    forall rest, t :: FrameKeeps(next, rest, t)
  }

  lemma NextKeeps(x: Syntax, next: Framer)
    requires PrefixStable(x) && forall s :: next(s) == Next(x, s)
    ensures FramesKeep(next)
  {
    forall rest: seq<byte>, t: seq<byte>
      ensures FrameKeeps(next, rest, t)
    {
      if |rest| >= 4 {
        assert HeaderIsStable(x, rest, t);
        if x.header(rest).Frame? && x.header(rest).size <= |rest| {
          assert SizeIsStable(x, rest[x.header(rest).size..], t);
        }
        NextIsStable(x, rest, t);
      }
    }
  }

  /** One turn of the demuxer: to the next core sync word, and the frame there. */
  function Turn(next: Framer, data: seq<byte>): Step<Call> {
    match Search(data, CORE_SYNC)
    case None => Stop(Max(0, |data| - 3))
    case Some(at) => Shift(next(data[at..]), at)
  }

  /** A word of the first buffer is found where it was once more bytes follow;
      without one, only its last three bytes can begin one. */
  lemma {:induction false} SearchExtends(a: seq<byte>, b: seq<byte>, needle: seq<byte>)
    requires |needle| == 4
    ensures var found, d := Search(a, needle), Max(0, |a| - 3);
            Search(a + b, needle) == if found.Some? then found else After(Search(a[d..] + b, needle), d)
    decreases |a|
  {
    if |a| < 4 {
      assert a[0..] == a;
    } else {
      assert (a + b)[..4] == a[..4] && (a + b)[1..] == a[1..] + b;
      if a[..4] != needle {
        SearchExtends(a[1..], b, needle);
        assert a[1..][Max(0, |a| - 4)..] == a[Max(0, |a| - 3)..];
      }
    }
  }

  /** Where the search agrees past `d` dropped bytes, so does the turn. */
  lemma TurnShifts(next: Framer, data: seq<byte>, rest: seq<byte>, d: nat)
    requires d <= |data| && rest == data[d..] && (d > 0 ==> |rest| >= 3)
    requires Search(data, CORE_SYNC) == After(Search(rest, CORE_SYNC), d)
    ensures Turn(next, data) == Shift(Turn(next, rest), d)
  {
    hide Search;
    var found := Search(rest, CORE_SYNC);
    if found.Some? {
      assert data[d + found.value..] == rest[found.value..];
    }
  }

  /** A frame taken at `at` is taken there whatever follows. */
  lemma TurnKeeps(next: Framer, data: seq<byte>, more: seq<byte>, rest: seq<byte>, moreRest: seq<byte>, at: nat)
    requires at + 4 <= |data| <= |more| && rest == data[at..] && moreRest == more[at..]
    requires Search(data, CORE_SYNC) == Some(at) && Search(more, CORE_SYNC) == Some(at)
    requires next(rest).Stop? ==> next(rest).from == 0
    requires next(rest).Move? ==> 0 < next(rest).used <= |rest| && next(moreRest) == next(rest)
    ensures Turn(next, data).Move? ==> 0 < Turn(next, data).used <= |data| && Turn(next, more) == Turn(next, data)
    ensures Turn(next, data).Stop? ==> Turn(next, data).from == at
  {
  }

  lemma {:induction false} SearchKeeps(s: seq<byte>, t: seq<byte>, needle: seq<byte>, at: nat)
    requires |needle| == 4 && Search(s, needle) == Some(at)
    ensures at + 4 <= |s| && Search(s + t, needle) == Some(at) && Search(s[at..] + t, needle) == Some(0)
  {
    SearchExtends(s, t, needle);
    SearchHits(s, needle);
    assert (s[at..] + t)[..4] == s[at..at + 4];
  }

  lemma {:induction false} SearchMisses(s: seq<byte>, t: seq<byte>, needle: seq<byte>)
    requires |needle| == 4 && Search(s, needle) == None
    ensures var d := Max(0, |s| - 3); Search(s + t, needle) == After(Search(s[d..] + t, needle), d)
  {
    SearchExtends(s, t, needle);
  }

  /** Turns do not depend on the bytes that follow them. */
  lemma TurnIsStable(next: Framer, reader: Reader<Call>)
    requires FramesKeep(next) && forall s :: reader(s) == Turn(next, s)
    ensures Stable(reader)
  {
    forall s: seq<byte>, t: seq<byte>
      ensures StableOn(reader, s, t)
    {
      TurnIsStableOn(next, s, t, s + t);
    }
  }

  lemma TurnIsStableOn(next: Framer, s: seq<byte>, t: seq<byte>, more: seq<byte>)
    requires FramesKeep(next) && more == s + t
    ensures match Turn(next, s)
            case Move(n, _) => 0 < n <= |s| && Turn(next, more) == Turn(next, s)
            case Stop(d) => d <= |s| && Turn(next, more) == Shift(Turn(next, s[d..] + t), d)
  {
    var found := Search(s, CORE_SYNC);
    if found.Some? {
      var at := found.value;
      SearchKeeps(s, t, CORE_SYNC, at);
      assert more[at..] == s[at..] + t;
      assert FrameKeeps(next, s[at..], t);
      TurnKeeps(next, s, more, s[at..], s[at..] + t, at);
      TurnShifts(next, more, s[at..] + t, at);
    } else {
      var d := Max(0, |s| - 3);
      SearchMisses(s, t, CORE_SYNC);
      assert more[d..] == s[d..] + t;
      TurnShifts(next, more, s[d..] + t, d);
    }
  }

  class DtsPipeline {
    const x: Syntax
    ghost const next: Framer
    ghost const reader: Reader<Call>
    var buf: seq<byte>
    var profile: Profile

    /** The reader is the demuxer's turn over this pipeline's syntax. */
    ghost predicate Wired() {
      && (forall s {:trigger Next(x, s)} :: next(s) == Next(x, s))
      && (forall s {:trigger Turn(next, s)} :: reader(s) == Turn(next, s)) && Stable(reader)
    }

    /** The buffer is what the last drain left. */
    ghost predicate Valid()
      reads this
    {
      Wired() && All(reader, buf) == Drained([], buf)
    }

    constructor (x: Syntax)
      requires PrefixStable(x)
      ensures Valid() && buf == [] && this.x == x && profile == CoreProfile
    {
      this.x := x;
      next := s => Next(x, s);
      reader := s => Turn((r: seq<byte>) => Next(x, r), s);
      buf := [];
      profile := CoreProfile;
      new;
      assert forall s :: next(s) == Next(x, s);
      NextKeeps(x, next);
      TurnIsStable(next, reader);
    }

    method Reset()
      requires Valid()
      modifies this
      ensures Valid() && buf == [] && profile == CoreProfile
    {
      buf := [];
      profile := CoreProfile;
      assert reader([]) == Turn(next, []) == Stop(0);
    }

    /** Find the next core sync word and judge the frame there. */
    method TakeTurn(rest: seq<byte>) returns (step: Step<Call>)
      requires Wired()
      ensures step == reader(rest)
    {
      var found := Find(rest, CORE_SYNC);
      if found.None? {
        step := Stop(Max(0, |rest| - 3));
        assert step == Turn(next, rest);
        return;
      }
      step := Shift(Next(x, rest[found.value..]), found.value);
      assert step == Turn(next, rest);
    }

    method PushRaw(data: seq<byte>) returns (calls: seq<Call>)
      requires Valid()
      modifies this
      ensures Valid()
      ensures Drained(calls, buf) == All(reader, old(buf) + data)
      ensures profile == LastProfile(calls, old(profile))
    {
      ghost var whole := All(reader, buf + data);
      TailIsDrained(reader, buf + data);
      buf := buf + data;
      calls := [];
      var consumed := 0;
      while true
        invariant consumed <= |buf| && buf == old(buf) + data
        invariant Continues(reader, whole, calls, buf[consumed..])
        invariant profile == LastProfile(calls, old(profile))
        decreases |buf| - consumed
      {
        var step := TakeTurn(buf[consumed..]);
        OneTurn(reader, whole, calls, buf, consumed, step);
        if step.Stop? {
          consumed := consumed + step.from;
          break;
        }
        consumed := consumed + step.used;
        calls := calls + step.output;
        profile := LastProfile(step.output, profile);
      }
      buf := buf[Min(consumed, |buf|)..];
    }
  }

  function LastProfile(calls: seq<Call>, before: Profile): Profile {
    if calls == [] then before else calls[|calls| - 1].profile
  }

  /** The calls made so far and those still to come are those of the whole. */
  ghost predicate Continues(reader: Reader<Call>, whole: Drained<Call>, calls: seq<Call>, rest: seq<byte>)
    requires Stable(reader)
  {
    whole == Drained(calls + All(reader, rest).output, All(reader, rest).tail)
  }

  lemma OneTurn(reader: Reader<Call>, whole: Drained<Call>, calls: seq<Call>, buf: seq<byte>, at: nat, step: Step<Call>)
    requires Stable(reader) && at <= |buf| && Continues(reader, whole, calls, buf[at..])
    requires step == reader(buf[at..])
    ensures step.Stop? ==> at + step.from <= |buf| && whole == Drained(calls, buf[at + step.from..])
    ensures step.Move? ==> 0 < step.used && at + step.used <= |buf| &&
                           Continues(reader, whole, calls + step.output, buf[at + step.used..])
  {
    var rest := buf[at..];
    assert StableOn(reader, rest, []);
    if step.Stop? {
      assert rest[step.from..] == buf[at + step.from..];
      assert calls + [] == calls;
    } else {
      assert rest[step.used..] == buf[at + step.used..];
      var more := All(reader, buf[at + step.used..]);
      assert calls + (step.output + more.output) == (calls + step.output) + more.output;
    }
  }
}
