/** Draining a buffer step by step as bytes arrive, for any reader whose steps
    do not depend on the bytes that follow them. */
module Drain {
  import opened Bytes

  /** What a reader does with a buffer: use up its first bytes for some output,
      or stop, keeping everything from `from` on. */
  datatype Step<+C> = Move(used: nat, output: seq<C>) | Stop(from: nat)

  type Reader<!C> = seq<byte> -> Step<C>

  datatype Drained<+C> = Drained(output: seq<C>, tail: seq<byte>)

  function Shift<C>(step: Step<C>, d: nat): Step<C> {
    match step
    case Move(n, out) => Move(d + n, out)
    case Stop(n) => Stop(d + n)
  }

  /** A move is made whatever follows; where the reader stopped, it resumes as
      if the bytes it dropped had never been there. */
  ghost predicate StableOn<C>(reader: Reader<C>, s: seq<byte>, t: seq<byte>) {
    match reader(s)
    case Move(n, _) => 0 < n <= |s| && reader(s + t) == reader(s)
    case Stop(d) => d <= |s| && reader(s + t) == Shift(reader(s[d..] + t), d)
  }

  ghost predicate Stable<C(!new)>(reader: Reader<C>) {
    forall s, t :: StableOn(reader, s, t)
  }

  /** Everything a buffer gives, and what stays for more bytes. */
  function All<C(!new)>(reader: Reader<C>, data: seq<byte>): (r: Drained<C>)
    requires Stable(reader)
    ensures |r.tail| <= |data|
    decreases |data|
  {
    assert StableOn(reader, data, []);
    match reader(data)
    case Stop(d) => Drained([], data[d..])
    case Move(n, out) =>
      var more := All(reader, data[n..]);
      Drained(out + more.output, more.tail)
  }

  /** What one step leaves of a drain. */
  lemma OneStep<C(!new)>(reader: Reader<C>, data: seq<byte>)
    requires Stable(reader)
    ensures reader(data).Stop? ==>
      reader(data).from <= |data| && All(reader, data) == Drained([], data[reader(data).from..])
    ensures reader(data).Move? ==>
      && reader(data).used <= |data|
      && var more := All(reader, data[reader(data).used..]);
         All(reader, data) == Drained(reader(data).output + more.output, more.tail)
  {
    assert StableOn(reader, data, []);
  }

  lemma DroppedBytesDoNotMatter<C(!new)>(reader: Reader<C>, data: seq<byte>, rest: seq<byte>, d: nat)
    requires Stable(reader) && d <= |data| && rest == data[d..]
    requires reader(data) == Shift(reader(rest), d)
    ensures All(reader, data) == All(reader, rest)
  {
    assert StableOn(reader, rest, []);
    var step := reader(rest);
    OneStep(reader, data);
    OneStep(reader, rest);
    if step.Stop? {
      assert rest[step.from..] == data[d + step.from..];
    } else {
      hide All;
      assert rest[step.used..] == data[d + step.used..];
    }
  }

  /** Draining after `a` and again after `b` gives the output of one drain of
      both, and leaves the same tail. */
  lemma {:induction false} CutDoesNotMatter<C(!new)>(reader: Reader<C>, a: seq<byte>, b: seq<byte>)
    requires Stable(reader)
    ensures var first := All(reader, a);
            var second := All(reader, first.tail + b);
            All(reader, a + b) == Drained(first.output + second.output, second.tail)
    decreases |a|
  {
    assert StableOn(reader, a, b) && StableOn(reader, a, []);
    match reader(a) {
      case Stop(d) =>
        assert (a + b)[d..] == a[d..] + b;
        DroppedBytesDoNotMatter(reader, a + b, a[d..] + b, d);
      case Move(n, out) =>
        assert (a + b)[n..] == a[n..] + b;
        CutDoesNotMatter(reader, a[n..], b);
        var more := All(reader, a[n..]);
        var second := All(reader, more.tail + b);
        assert out + (more.output + second.output) == (out + more.output) + second.output;
    }
  }

  /** A tail gives nothing more until more bytes come. */
  lemma TailIsDrained<C(!new)>(reader: Reader<C>, data: seq<byte>)
    requires Stable(reader)
    ensures All(reader, All(reader, data).tail) == Drained([], All(reader, data).tail)
  {
    CutDoesNotMatter(reader, data, []);
    var first := All(reader, data);
    assert data + [] == data && first.tail + [] == first.tail;
    assert |first.output + All(reader, first.tail).output| == |first.output|;
  }

  /** A run of pushes, each drained as it comes. */
  function Pushes<C(!new)>(reader: Reader<C>, buf: seq<byte>, pushes: seq<seq<byte>>): Drained<C>
    requires Stable(reader)
    decreases |pushes|
  {
    if pushes == [] then Drained([], buf)
    else
      var first := All(reader, buf + pushes[0]);
      var more := Pushes(reader, first.tail, pushes[1..]);
      Drained(first.output + more.output, more.tail)
  }

  /** However the bytes are cut into pushes, the output is the same, in the same
      order, and the same bytes stay buffered as when they are pushed at once. */
  lemma {:induction false} AnyCutIsOnePush<C(!new)>(reader: Reader<C>, buf: seq<byte>, pushes: seq<seq<byte>>)
    requires Stable(reader) && All(reader, buf) == Drained([], buf)
    ensures Pushes(reader, buf, pushes) == All(reader, buf + Joined(pushes))
    decreases |pushes|
  {
    if pushes == [] {
      assert buf + [] == buf;
    } else {
      var a, b := buf + pushes[0], Joined(pushes[1..]);
      assert buf + Joined(pushes) == a + b;
      TailIsDrained(reader, a);
      CutDoesNotMatter(reader, a, b);
      AnyCutIsOnePush(reader, All(reader, a).tail, pushes[1..]);
    }
  }
}
