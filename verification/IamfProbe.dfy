/** Where an IAMF stream starts: an IA sequence header OBU (IAMF 1.1 sections
    2.4, 3.2 and 3.4), the latest of those that read the same `iamf` code. */
module IamfProbe {
  import opened Bytes
  import opened Probe

  const OBU_SEQUENCE_HEADER := 31
  const IA_CODE: seq<byte> := [0x69, 0x61, 0x6D, 0x66]
  const MAX_PROFILE := 5
  const MAX_LEB128 := 8
  const MAX_PROBE_WITHOUT_EXTENSION := 15

  datatype Leb128 = Leb128(value: nat, end: nat)

  /** What a byte of a LEB128 adds to its value. */
  function Septet(b: byte, scale: nat): nat {
    b % 128 * scale
  }

  /** The bytes of a LEB128 from `pos` on, `value` read so far. */
  function Leb128From(s: seq<byte>, pos: nat, limit: nat, scale: nat, value: nat): (r: Result<Leb128, Probe.Start>)
    ensures r.Ok? ==> pos < r.value.end <= limit && r.value.end <= |s|
    ensures r.Err? ==> !r.error.Claim?
    ensures r.Err? && r.error.Need? ==> |s| < r.error.needed <= limit
    ensures r.Err? && r.error.Need? && pos <= |s| ==> r.error.needed == |s| + 1
    decreases limit - pos
  {
    if pos >= limit then Err(Reject)
    else if pos >= |s| then Err(Need(pos + 1))
    else if s[pos] < 128 then Ok(Leb128(value + Septet(s[pos], scale), pos + 1))
    else Leb128From(s, pos + 1, limit, scale * 128, value + Septet(s[pos], scale))
  }

  function Leb128At(s: seq<byte>, at: nat): Result<Leb128, Probe.Start> {
    Leb128From(s, at, at + MAX_LEB128, 1, 0)
  }

  method ReadLeb128(s: seq<byte>, at: nat) returns (r: Result<Leb128, Probe.Start>)
    ensures r == Leb128At(s, at)
  {
    var value: nat, scale: nat := 0, 1;
    for index := 0 to MAX_LEB128
      invariant Leb128At(s, at) == Leb128From(s, at + index, at + MAX_LEB128, scale, value)
    {
      if at + index >= |s| {
        return Err(Need(at + index + 1));
      }
      value := value + Septet(s[at + index], scale);
      scale := scale * 128;
      if s[at + index] < 128 {
        return Ok(Leb128(value, at + index + 1));
      }
    }
    return Err(Reject);
  }

  /** The checked fields of a sequence header at `s`: where its payload starts. */
  function HeaderFields(s: seq<byte>): (r: Result<nat, Probe.Start>)
    ensures r.Err? ==> !r.error.Claim?
    ensures r.Ok? ==> 2 <= r.value && r.value + 6 <= |s| && s[r.value..r.value + 4] == IA_CODE
  {
    if s == [] then Err(Need(1))
    else if s[0] / 8 != OBU_SEQUENCE_HEADER || s[0] / 2 % 2 != 0 then Err(Reject)
    else
      var obuSize := Leb128At(s, 1);
      if obuSize.Err? then Err(obuSize.error)
      else if s[0] % 2 == 0 then Payload(s, obuSize.value, obuSize.value.end)
      else
        var extension := Leb128At(s, obuSize.value.end);
        if extension.Err? then Err(extension.error)
        else Payload(s, obuSize.value, extension.value.end + extension.value.value)
  }

  function Payload(s: seq<byte>, obuSize: Leb128, payload: nat): (r: Result<nat, Probe.Start>)
    requires obuSize.end <= payload
    ensures r.Err? ==> !r.error.Claim?
    ensures r.Ok? ==> r.value == payload && payload + 6 <= |s| && s[payload..payload + 4] == IA_CODE
  {
    var end := payload + |IA_CODE| + 2;
    if obuSize.value < end - obuSize.end then Err(Reject)
    else if |s| < end then Err(Need(end))
    else if s[payload..payload + |IA_CODE|] != IA_CODE || s[payload + |IA_CODE|] > MAX_PROFILE then Err(Reject)
    else Ok(payload)
  }

  /** The rescan of later starts inside the size fields, from `next` on. */
  function Rescan(s: seq<byte>, payload: nat, next: nat): Probe.Start
    requires payload <= |s|
    decreases |s| - next
  {
    if next >= Min(payload, 1 + 2 * MAX_LEB128) then Claim
    else
      match HeaderFields(s[next..])
      case Ok(other) => if next + other == payload then Reject else Rescan(s, payload, next + 1)
      case Err(Need(needed)) => Need(next + needed)
      case _ => Rescan(s, payload, next + 1)
  }

  function Candidate(s: seq<byte>): Probe.Start {
    match HeaderFields(s)
    case Ok(payload) => Rescan(s, payload, 1)
    case Err(start) => start
  }

  method SequenceHeader(s: seq<byte>) returns (r: Probe.Start)
    ensures r == Candidate(s)
  {
    match HeaderFields(s) {
      case Err(start) => return start;
      case Ok(payload) =>
        for next := 1 to Min(payload, 1 + 2 * MAX_LEB128)
          invariant Candidate(s) == Rescan(s, payload, next)
        {
          match HeaderFields(s[next..]) {
            case Ok(other) =>
              if next + other == payload {
                return Reject;
              }
            case Err(Need(needed)) => return Need(next + needed);
            case _ =>
          }
        }
        return Claim;
    }
  }

  lemma {:induction false} Leb128Extends(s: seq<byte>, t: seq<byte>, pos: nat, limit: nat, scale: nat, value: nat)
    ensures var r := Leb128From(s, pos, limit, scale, value);
            (r.Err? && r.error.Need?) || Leb128From(s + t, pos, limit, scale, value) == r
    decreases limit - pos
  {
    if pos < limit && pos < |s| {
      assert (s + t)[pos] == s[pos];
      if s[pos] >= 128 {
        Leb128Extends(s, t, pos + 1, limit, scale * 128, value + Septet(s[pos], scale));
      }
    }
  }

  /** An answer about the header's fields is final, and a pending one stays the
      same until the bytes it asked for are there. */
  ghost predicate Settles(r: Result<nat, Probe.Start>, more: Result<nat, Probe.Start>, shown: nat, length: nat) {
    match r
    case Err(Need(n)) => n > shown && (length < n ==> more == r)
    case decided => more == decided
  }

  lemma PayloadExtends(s: seq<byte>, t: seq<byte>, obuSize: Leb128, payload: nat)
    requires obuSize.end <= payload
    ensures Settles(Payload(s, obuSize, payload), Payload(s + t, obuSize, payload), |s|, |s + t|)
  {
    if payload + 6 <= |s| {
      assert (s + t)[payload..payload + 4] == s[payload..payload + 4];
    }
  }

  lemma FieldsExtend(s: seq<byte>, t: seq<byte>)
    ensures Settles(HeaderFields(s), HeaderFields(s + t), |s|, |s + t|)
  {
    if s != [] && s[0] / 8 == OBU_SEQUENCE_HEADER && s[0] / 2 % 2 == 0 {
      assert (s + t)[0] == s[0] && (t == [] ==> s + t == s);
      Leb128Extends(s, t, 1, 1 + MAX_LEB128, 1, 0);
      var obuSize := Leb128At(s, 1);
      if obuSize.Ok? {
        if s[0] % 2 == 0 {
          PayloadExtends(s, t, obuSize.value, obuSize.value.end);
        } else {
          ExtensionExtends(s, t, obuSize.value);
        }
      }
    }
  }

  lemma ExtensionExtends(s: seq<byte>, t: seq<byte>, obuSize: Leb128)
    requires s != [] && s[0] / 8 == OBU_SEQUENCE_HEADER && s[0] / 2 % 2 == 0 && s[0] % 2 == 1
    requires Leb128At(s, 1) == Leb128At(s + t, 1) == Ok(obuSize)
    ensures Settles(HeaderFields(s), HeaderFields(s + t), |s|, |s + t|)
  {
    assert (s + t)[0] == s[0] && (t == [] ==> s + t == s);
    Leb128Extends(s, t, obuSize.end, obuSize.end + MAX_LEB128, 1, 0);
    var extension := Leb128At(s, obuSize.end);
    if extension.Ok? {
      PayloadExtends(s, t, obuSize, extension.value.end + extension.value.value);
    }
  }

  lemma {:induction false} RescanExtends(s: seq<byte>, t: seq<byte>, payload: nat, next: nat)
    requires payload <= |s|
    ensures match Rescan(s, payload, next)
            case Need(n) => n > |s| && (|s| + |t| < n ==> Rescan(s + t, payload, next) == Need(n))
            case decided => Rescan(s + t, payload, next) == decided
    decreases |s| - next
  {
    if next < Min(payload, 1 + 2 * MAX_LEB128) {
      FieldsExtend(s[next..], t);
      assert (s + t)[next..] == s[next..] + t;
      RescanExtends(s, t, payload, next + 1);
    }
  }

  /** The IAMF check obeys the law the replay relies on. */
  lemma CandidateIsLawful()
    ensures Lawful(Candidate)
  {
    forall s: seq<byte>, t: seq<byte>
      ensures LawfulOn(Candidate, s, t)
    {
      FieldsExtend(s, t);
      if HeaderFields(s).Ok? {
        RescanExtends(s, t, HeaderFields(s).value, 1);
      }
    }
  }

  /** The bytes at `later` are not a sequence header, or one with another payload. */
  ghost predicate ReadsElsewhere(s: seq<byte>, payload: nat, later: nat)
    requires later <= |s|
  {
    match HeaderFields(s[later..])
    case Ok(other) => later + other != payload
    case Err(start) => start == Reject
  }

  /** Of the starts whose size fields run over one another to the same code,
      only the latest is claimed. */
  lemma ClaimIsTheLatestReader(s: seq<byte>)
    requires Candidate(s) == Claim
    ensures HeaderFields(s).Ok?
    ensures forall later | 1 <= later < Min(HeaderFields(s).value, 1 + 2 * MAX_LEB128) ::
              ReadsElsewhere(s, HeaderFields(s).value, later)
  {
    RescanVisits(s, HeaderFields(s).value, 1);
  }

  lemma {:induction false} RescanVisits(s: seq<byte>, payload: nat, next: nat)
    requires payload <= |s| && Rescan(s, payload, next) == Claim
    ensures forall later | next <= later < Min(payload, 1 + 2 * MAX_LEB128) :: ReadsElsewhere(s, payload, later)
    decreases |s| - next
  {
    if next < Min(payload, 1 + 2 * MAX_LEB128) {
      assert ReadsElsewhere(s, payload, next);
      RescanVisits(s, payload, next + 1);
    }
  }

  // ---- how much an unextended start asks for

  /** The size announced by a header at `at`. */
  function SizeAt(s: seq<byte>, at: nat): nat {
    var r := Leb128At(s, at + 1);
    if r.Ok? then r.value.value else 0
  }

  /** An unextended header with room for code and profiles. */
  predicate Answers(s: seq<byte>, at: nat) {
    at < |s| && s[at] in {0xF8, 0xFC} && SizeAt(s, at) >= 6
  }

  /** The size byte 0x69 of an extension, that many bytes, code and profiles. */
  const EXTENDED_BY_CODE := 1 + 0x69 + 6

  /** An extended one, with room for the extension the letter `i` announces behind it. */
  predicate Asks(s: seq<byte>, at: nat) {
    at < |s| && s[at] in {0xF9, 0xFD} && SizeAt(s, at) >= EXTENDED_BY_CODE
  }

  lemma {:induction false} Leb128Shape(s: seq<byte>, pos: nat, limit: nat, scale: nat, value: nat)
    requires Leb128From(s, pos, limit, scale, value).Ok?
    ensures var end := Leb128From(s, pos, limit, scale, value).value.end;
            s[end - 1] < 128 && forall j | pos <= j < end - 1 :: s[j] >= 128
    decreases limit - pos
  {
    if s[pos] >= 128 {
      Leb128Shape(s, pos + 1, limit, scale * 128, value + Septet(s[pos], scale));
    }
  }

  lemma {:induction false} Leb128Ends(s: seq<byte>, pos: nat, limit: nat, scale: nat, value: nat, end: nat)
    requires pos < end <= limit && end <= |s| && s[end - 1] < 128 && forall j | pos <= j < end - 1 :: s[j] >= 128
    ensures Leb128From(s, pos, limit, scale, value).Ok? && Leb128From(s, pos, limit, scale, value).value.end == end
    decreases limit - pos
  {
    if s[pos] >= 128 {
      Leb128Ends(s, pos + 1, limit, scale * 128, value + Septet(s[pos], scale), end);
    }
  }

  /** Reading on from `at` or from the start of what lies there is the same. */
  lemma {:induction false} Leb128Shifts(s: seq<byte>, at: nat, pos: nat, limit: nat, scale: nat, value: nat)
    requires at <= |s|
    ensures var here, there := Leb128From(s[at..], pos, limit, scale, value),
      Leb128From(s, at + pos, at + limit, scale, value);
            && here.Ok? == there.Ok?
            && (here.Ok? ==> here.value.value == there.value.value && at + here.value.end == there.value.end)
    decreases limit - pos
  {
    if pos < limit && pos < |s[at..]| {
      assert s[at..][pos] == s[at + pos];
      if s[at + pos] >= 128 {
        Leb128Shifts(s, at, pos + 1, limit, scale * 128, value + Septet(s[at + pos], scale));
      }
    }
  }

  /** What lies inside the size field of a plain header ends where that does. */
  lemma InnerSize(s: seq<byte>, payload: nat, at: nat)
    requires s != [] && s[0] % 2 == 0 && HeaderFields(s) == Ok(payload) && 1 <= at < payload - 1
    ensures s[at] >= 128 && Leb128At(s[at..], 1).Ok?
    ensures Leb128At(s[at..], 1).value == Leb128(SizeAt(s, at), payload - at)
  {
    Leb128Shape(s, 1, 1 + MAX_LEB128, 1, 0);
    Leb128Ends(s, at + 1, at + 1 + MAX_LEB128, 1, 0, payload);
    Leb128Shifts(s, at, 1, 1 + MAX_LEB128, 1, 0);
  }

  /** The code's first letter, read as the size of an extension. */
  lemma CodeAsSize(s: seq<byte>, payload: nat, at: nat)
    requires at < payload < |s| && s[payload] == 0x69
    ensures Leb128At(s[at..], payload - at) == Ok(Leb128(0x69, payload - at + 1))
  {
    assert s[at..][payload - at] == 0x69;
  }

  /** What the rescan meets at one place. */
  lemma InnerFields(s: seq<byte>, payload: nat, at: nat)
    requires s != [] && s[0] % 2 == 0 && HeaderFields(s) == Ok(payload) && 1 <= at < payload - 1
    ensures var inner := HeaderFields(s[at..]);
            if Answers(s, at) then inner == Ok(payload - at)
            else if Asks(s, at) && |s| < payload + EXTENDED_BY_CODE then
              inner == Err(Need(payload + EXTENDED_BY_CODE - at))
            else inner == Err(Reject) || (inner.Ok? && inner.value != payload - at)
  {
    InnerSize(s, payload, at);
    var t := s[at..];
    assert t[0] == s[at];
    assert s[payload..payload + 4][0] == s[payload];
    assert t[payload - at..payload - at + 4] == s[payload..payload + 4] && t[payload - at + 4] == s[payload + 4];
    CodeAsSize(s, payload, at);
  }

  lemma LastSizeByte(s: seq<byte>, payload: nat)
    requires s != [] && s[0] % 2 == 0 && HeaderFields(s) == Ok(payload)
    ensures HeaderFields(s[payload - 1..]) == Err(Reject)
  {
    Leb128Shape(s, 1, 1 + MAX_LEB128, 1, 0);
    assert s[payload - 1..][0] == s[payload - 1];
  }

  /** Somewhere from `next` on an inner header asks, and none before it answers. */
  predicate AsksFirst(s: seq<byte>, payload: nat, next: nat) {
    exists at | next <= at < payload - 1 :: Asks(s, at) && NoneAnswers(s, next, at)
  }

  predicate NoneAnswers(s: seq<byte>, from: nat, to: nat) {
    forall k | from <= k < to :: !Answers(s, k)
  }

  lemma AsksFirstStep(s: seq<byte>, payload: nat, next: nat)
    requires next < payload - 1
    ensures AsksFirst(s, payload, next) <==> Asks(s, next) || (!Answers(s, next) && AsksFirst(s, payload, next + 1))
  {
    if Asks(s, next) {
      assert NoneAnswers(s, next, next);
    } else if AsksFirst(s, payload, next) {
      var at :| next <= at < payload - 1 && Asks(s, at) && NoneAnswers(s, next, at);
      assert NoneAnswers(s, next + 1, at);
    }
    if !Answers(s, next) && AsksFirst(s, payload, next + 1) {
      var at :| next + 1 <= at < payload - 1 && Asks(s, at) && NoneAnswers(s, next + 1, at);
      assert NoneAnswers(s, next, at);
    }
  }

  lemma RescanStep(s: seq<byte>, payload: nat, next: nat)
    requires s != [] && s[0] % 2 == 0 && HeaderFields(s) == Ok(payload) && 1 <= next < payload - 1
    ensures Rescan(s, payload, next)
         == if Answers(s, next) then Reject
            else if Asks(s, next) && |s| < payload + EXTENDED_BY_CODE then Need(payload + EXTENDED_BY_CODE)
            else Rescan(s, payload, next + 1)
  {
    hide Asks, Answers;
    InnerFields(s, payload, next);
  }

  lemma RescanEnds(s: seq<byte>, payload: nat, next: nat)
    requires s != [] && s[0] % 2 == 0 && HeaderFields(s) == Ok(payload) && 1 <= payload - 1 <= next
    ensures !Rescan(s, payload, next).Need? && !AsksFirst(s, payload, next)
  {
    hide HeaderFields;
    LastSizeByte(s, payload);
  }

  lemma {:induction false} RescanAsks(s: seq<byte>, payload: nat, next: nat)
    requires s != [] && s[0] % 2 == 0 && HeaderFields(s) == Ok(payload) && 1 <= next
    ensures Rescan(s, payload, next).Need? <==> |s| < payload + EXTENDED_BY_CODE && AsksFirst(s, payload, next)
    ensures Rescan(s, payload, next).Need? ==> Rescan(s, payload, next).needed == payload + EXTENDED_BY_CODE
    decreases |s| - next
  {
    if next >= payload - 1 {
      RescanEnds(s, payload, next);
    } else {
      hide AsksFirst, Asks, Answers, Rescan, HeaderFields;
      RescanStep(s, payload, next);
      AsksFirstStep(s, payload, next);
      RescanAsks(s, payload, next + 1);
    }
  }

  /** A start without the extension flag asks past fifteen bytes exactly when its
      fields are in order and its size field holds an extended header byte, of a
      size that takes in the code's first letter as the size of an extension, with
      no plain header byte of six or more before it, and the bytes behind that
      extension are not there. It then asks for those. */
  lemma PlainStartNeeds(s: seq<byte>)
    requires s != [] && s[0] % 2 == 0
    ensures var asks := Candidate(s).Need? && Candidate(s).needed > MAX_PROBE_WITHOUT_EXTENSION;
            && (asks <==>
                  && HeaderFields(s).Ok? && |s| < HeaderFields(s).value + EXTENDED_BY_CODE
                  && AsksFirst(s, HeaderFields(s).value, 1))
            && (asks ==> Candidate(s).needed == HeaderFields(s).value + EXTENDED_BY_CODE)
  {
    if HeaderFields(s).Ok? {
      RescanAsks(s, HeaderFields(s).value, 1);
    }
  }

  /** As here: nine bytes are the whole of a header, but 115 are asked for. */
  lemma PlainStartAsksTooMuch(s: seq<byte>)
    requires s == [0xF8, 0xF9, 0x7F, 0x69, 0x61, 0x6D, 0x66, 0, 0]
    ensures HeaderFields(s) == Ok(3) && Candidate(s) == Need(115)
  {
    assert Leb128From(s, 2, 1 + MAX_LEB128, 128, 0x79) == Ok(Leb128(0x79 + 0x7F * 128, 3));
    assert s[3..7] == IA_CODE;
    assert HeaderFields(s) == Ok(3);
    assert Leb128At(s, 2) == Ok(Leb128(0x7F, 3));
    assert Asks(s, 1) && NoneAnswers(s, 1, 1);
    RescanAsks(s, 3, 1);
  }
}
