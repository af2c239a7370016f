/**
  http_parser_append_message as a function of the parser's state and the bytes handed in, and
  what it is for: a message may arrive in any pieces.
 */
module HttpParsing {
  import opened Collections
  import opened HttpSyntax

  datatype Phase = InStartLine | InName | InValue(name: bytes) | HeadDone

  // What the header says; SIZE_MAX stands for (size_t)-1.
  datatype Info = Info(
    isResp: bool,
    contentLength: nat,
    transferLength: nat,
    version: Option<bytes>,
    verb: Option<bytes>,
    uri: Option<bytes>,
    code: Option<bytes>,
    phrase: Option<bytes>,
    headers: seq<(bytes, bytes)>,
    hasConnection: bool,
    hasContentLength: bool,
    hasKeepAlive: bool,
    expectContinue: bool,
    keepAlive: bool,
    chunked: bool)

  datatype Head = Head(phase: Phase, offset: nat, info: Info)

  datatype ChunkPhase = InData | InTrailer | ChunksDone

  datatype Parser = Parser(head: Head, chunkPhase: ChunkPhase, chunkOffset: nat, msg: bytes, complete: bool)

  datatype Verdict = NeedMore | Refused | Finished

  const SIZE_MAX: nat := 0xFFFF_FFFF_FFFF_FFFF

  // http_parser_init (http_parser.c:536-559)
  function Fresh(isResp: bool): Parser {
    var info := Info(isResp, if isResp then SIZE_MAX else 0, SIZE_MAX, None, None, None, None, None, [],
                     false, false, false, false, true, false);
    Parser(Head(InStartLine, 0, info), InData, 0, [], false)
  }

  // ---------------------------------------------------------------------------------
  // What a start line and a header field do to the state

  function Lower(c: byte): byte {
    if 65 <= c <= 90 then c + 32 else c
  }

  // Letters that differ in nothing but their case are taken for the same, and no others.
  lemma LowerIsCaseless(c: byte, d: byte)
    ensures Lower(c) == Lower(d) <==> c == d || (65 <= c <= 90 && d == c + 32) || (65 <= d <= 90 && c == d + 32)
  {
  }

  // strncasecmp over equal lengths
  function Folded(s: bytes): (r: bytes)
    ensures |r| == |s|
  {
    seq(|s|, i requires 0 <= i < |s| => Lower(s[i]))
  }

  function Text(s: string): (r: bytes)
    ensures |r| == |s|
  {
    seq(|s|, i requires 0 <= i < |s| => if (s[i] as int) < 256 then s[i] as int as byte else 0)
  }

  predicate SameName(a: bytes, b: string) {
    Folded(a) == Folded(Text(b))
  }

  predicate OldVersion(version: bytes) {
    version == Text("HTTP/1.0") || Text("HTTP/0") <= version
  }

  // Responses that never have a body
  predicate Bodyless(code: bytes) {
    Text("1") <= code || code == Text("204") || code == Text("304")
  }

  // __match_request_line and __match_status_line (http_parser.c:104-175)
  function Matched(h: Info, parts: Parts): Info {
    if h.isResp then
      h.(keepAlive := h.keepAlive && !OldVersion(parts.first),
         transferLength := if Bodyless(parts.second) then 0 else h.transferLength,
         version := Some(parts.first), code := Some(parts.second), phrase := Some(parts.third))
    else
      h.(keepAlive := h.keepAlive && !OldVersion(parts.third),
         verb := Some(parts.first), uri := Some(parts.second), version := Some(parts.third))
  }

  predicate IsDigitAt(s: bytes, i: nat) {
    i < |s| && 48 <= s[i] <= 57
  }

  // atol on digits: their value up to the first byte that is none
  function Decimal(s: bytes, i: nat, acc: nat): nat
    decreases |s| - i
  {
    if IsDigitAt(s, i) then Decimal(s, i + 1, 10 * acc + (s[i] - 48)) else acc
  }

  datatype Field = Expect | Connection | KeepAlive | ContentLength | TransferEncoding | AnyOther

  function FieldOf(name: bytes): Field {
    if SameName(name, "Expect") then Expect
    else if SameName(name, "Connection") then Connection
    else if SameName(name, "Keep-Alive") then KeepAlive
    else if SameName(name, "Content-Length") then ContentLength
    else if SameName(name, "Transfer-Encoding") then TransferEncoding
    else AnyOther
  }

  // All that the parser can read out of a value
  datatype Meaning = Meaning(continues: bool, keepsAlive: bool, closes: bool, identity: bool, length: Option<nat>)

  function MeaningOf(value: bytes): Meaning {
    Meaning(SameName(value, "100-continue"), SameName(value, "Keep-Alive"), SameName(value, "close"), SameName(value, "identity"),
            if IsDigitAt(value, 0) && |value| <= 15 then Some(Decimal(value, 0, 0)) else None)
  }

  // __check_message_header (http_parser.c:177-232)
  function Checked(h: Info, name: bytes, value: bytes): Info {
    Applied(h, FieldOf(name), MeaningOf(value))
  }

  function Applied(h: Info, field: Field, m: Meaning): Info {
    match field
    case Expect => h.(expectContinue := h.expectContinue || m.continues)
    case Connection => h.(hasConnection := true, keepAlive := m.keepsAlive || (h.keepAlive && !m.closes))
    case KeepAlive => h.(hasKeepAlive := true)
    case ContentLength =>
      h.(hasContentLength := true, contentLength := if m.length.Some? then m.length.value else h.contentLength)
    case TransferEncoding => h.(chunked := !m.identity)
    case AnyOther => h
  }

  // http_parser_add_header (http_parser.c:720-733)
  function Added(h: Info, name: bytes, value: bytes): Info {
    Checked(h.(headers := h.headers + [(name, value)]), name, value)
  }

  // The first field of that name, in any case
  function FieldAt(fields: seq<(bytes, bytes)>, name: bytes): (i: nat)
    ensures i <= |fields| && (i < |fields| ==> Folded(fields[i].0) == Folded(name))
    ensures forall j :: 0 <= j < i ==> Folded(fields[j].0) != Folded(name)
  {
    if fields == [] || Folded(fields[0].0) == Folded(name) then 0 else 1 + FieldAt(fields[1..], name)
  }

  // __set_message_header (http_parser.c:64-102): the old spelling of the name stays unless the
  // value has outgrown its place.
  function FieldSet(fields: seq<(bytes, bytes)>, name: bytes, value: bytes): seq<(bytes, bytes)> {
    var i := FieldAt(fields, name);
    if i == |fields| then fields + [(name, value)]
    else fields[i := (if |value| > |fields[i].1| then name else fields[i].0, value)]
  }

  // The first field of that name has the new value, and its name, if not spelled as before, is spelled
  // as given; no other field changes.  Without one, the field is added at the end.
  ghost predicate IsSet(before: seq<(bytes, bytes)>, after: seq<(bytes, bytes)>, name: bytes, value: bytes) {
    && (forall i :: 0 <= i < |before| && Folded(before[i].0) == Folded(name) && (forall j :: 0 <= j < i ==> Folded(before[j].0) != Folded(name)) ==>
          && |after| == |before| && after[i].1 == value && Folded(after[i].0) == Folded(name)
          && after[i].0 == (if |value| > |before[i].1| then name else before[i].0)
          && forall j :: 0 <= j < |before| && j != i ==> after[j] == before[j])
    && ((forall j :: 0 <= j < |before| ==> Folded(before[j].0) != Folded(name)) ==> after == before + [(name, value)])
  }

  lemma FieldSetSets(fields: seq<(bytes, bytes)>, name: bytes, value: bytes)
    ensures IsSet(fields, FieldSet(fields, name, value), name, value)
  {
    var k := FieldAt(fields, name);
    assert k == |fields| || Folded(fields[k].0) == Folded(name);
  }

  // ---------------------------------------------------------------------------------
  // The two loops

  // One turn of __parse_message_header (http_parser.c:411-425): the state once the stage is done
  function HeadStep(h: Head, rest: bytes): Stage<Head>
    requires !h.phase.HeadDone?
  {
    match h.phase
    case InStartLine => (
      match StartLine(rest)
      case More => More
      case Bad => Bad
      case Done(parts, used) =>
        Done(if parts.None? then Head(InStartLine, h.offset + used, h.info)
             else Head(InName, h.offset + used, Matched(h.info, parts.value)), used))
    case InName => (
      match HeaderName(rest)
      case More => More
      case Bad => Bad
      case Done(name, used) =>
        Done(Head(if name.None? then HeadDone else InValue(name.value), h.offset + used, h.info), used))
    case InValue(name) => (
      match HeaderValue(rest)
      case More => More
      case Bad => Bad
      case Done(value, used) => Done(Head(InName, h.offset + used, Added(h.info, name, value)), used))
  }

  function Lookahead(h: Head): nat {
    if h.phase.InValue? then 1 else 0
  }

  lemma HeadStepStable(h: Head, s: bytes, t: bytes)
    requires !h.phase.HeadDone? && s <= t
    ensures Stable(HeadStep(h, s), HeadStep(h, t), |s|, Lookahead(h))
    ensures HeadStep(h, t).Done? ==> HeadStep(h, t).value.offset == h.offset + HeadStep(h, t).used
  {
    match h.phase
    case InStartLine => StartLineStable(s, t);
    case InName => HeaderNameStable(s, t);
    case InValue(_) => HeaderValueStable(s, t);
  }

  // __parse_message_header (http_parser.c:404-428)
  function RunHead(h: Head, s: bytes): (Head, Verdict)
    requires h.offset <= |s|
    decreases |s| - h.offset
  {
    if h.phase.HeadDone? then (h, Finished)
    else
      var rest := s[h.offset..];
      HeadStepStable(h, rest, rest);
      match HeadStep(h, rest)
      case More => (h, NeedMore)
      case Bad => (h, Refused)
      case Done(h1, _) => RunHead(h1, s)
  }

  // One turn of __parse_chunk (http_parser.c:519-531)
  function ChunkStep(phase: ChunkPhase, rest: bytes): Stage<ChunkPhase>
    requires !phase.ChunksDone?
  {
    if phase.InData? then
      match ChunkData(rest)
      case More => More
      case Bad => Bad
      case Done(last, used) => Done(if last then InTrailer else InData, used)
    else
      match TrailerPart(rest)
      case More => More
      case Bad => Bad
      case Done(empty, used) => Done(if empty then ChunksDone else InTrailer, used)
  }

  lemma ChunkStepStable(phase: ChunkPhase, s: bytes, t: bytes)
    requires !phase.ChunksDone? && s <= t
    ensures Stable(ChunkStep(phase, s), ChunkStep(phase, t), |s|, 0)
  {
    if phase.InData? { ChunkDataStable(s, t); } else { TrailerPartStable(s, t); }
  }

  // __parse_chunk (http_parser.c:512-534)
  function RunChunks(phase: ChunkPhase, offset: nat, s: bytes): (ChunkPhase, nat, Verdict)
    requires offset <= |s|
    decreases |s| - offset
  {
    if phase.ChunksDone? then (phase, offset, Finished)
    else
      var rest := s[offset..];
      ChunkStepStable(phase, rest, rest);
      match ChunkStep(phase, rest)
      case More => (phase, offset, NeedMore)
      case Bad => (phase, offset, Refused)
      case Done(phase1, used) => RunChunks(phase1, offset + used, s)
  }

  // http_parser.c:596-602, once the header is there
  function Settled(p: Parser): Parser {
    if p.head.info.chunked then p.(chunkOffset := p.head.offset, chunkPhase := InData)
    else if p.head.info.transferLength == SIZE_MAX then p.(head := p.head.(info := p.head.info.(transferLength := p.head.info.contentLength)))
    else p
  }

  // http_parser.c:605-633: the verdict, and where the message ends if it is complete
  function RunBody(p: Parser): (Parser, Verdict)
    requires p.head.offset <= |p.msg| && p.chunkOffset <= |p.msg|
  {
    if p.head.info.transferLength != SIZE_MAX then
      var total := p.head.offset + p.head.info.transferLength;
      if |p.msg| >= total then (p.(msg := p.msg[..total], complete := true), Finished) else (p, NeedMore)
    else if !p.head.info.chunked then (p, NeedMore)
    else
      var (phase, offset, v) := RunChunks(p.chunkPhase, p.chunkOffset, p.msg);
      var p1 := p.(chunkPhase := phase, chunkOffset := offset);
      RunChunksWithin(p.chunkPhase, p.chunkOffset, p.msg);
      if v == Finished then (p1.(msg := p.msg[..offset], complete := true), Finished) else (p1, v)
  }

  // http_parser_append_message (http_parser.c:561-634): the new state, the verdict, and *n
  function Append(p: Parser, q: bytes): (Parser, Verdict, int)
    requires InBounds(p)
  {
    if p.complete then (p, Finished, 0)
    else
      var msg := p.msg + q;
      var (h, v) := RunHead(p.head, msg);
      RunHeadWithin(p.head, msg);
      var p1 := p.(head := h, msg := msg);
      if v != Finished then (p1, v, |q|)
      else
        var (p2, w) := RunBody(if p.head.phase.HeadDone? then p1 else Settled(p1));
        (p2, w, if w == Finished then |q| - (|msg| - |p2.msg|) else |q|)
  }

  predicate InBounds(p: Parser) {
    p.head.offset <= |p.msg| && p.chunkOffset <= |p.msg|
  }

  lemma {:induction false} RunHeadWithin(h: Head, s: bytes)
    requires h.offset <= |s|
    ensures h.offset <= RunHead(h, s).0.offset <= |s|
    ensures RunHead(h, s).1 == Finished <==> RunHead(h, s).0.phase.HeadDone?
    ensures !h.phase.HeadDone? && RunHead(h, s).1 == Finished ==> h.offset < RunHead(h, s).0.offset
    decreases |s| - h.offset
  {
    if !h.phase.HeadDone? {
      var rest := s[h.offset..];
      HeadStepStable(h, rest, rest);
      if HeadStep(h, rest).Done? { RunHeadWithin(HeadStep(h, rest).value, s); }
    }
  }

  lemma {:induction false} RunChunksWithin(phase: ChunkPhase, offset: nat, s: bytes)
    requires offset <= |s|
    ensures offset <= RunChunks(phase, offset, s).1 <= |s|
    ensures RunChunks(phase, offset, s).2 == Finished <==> RunChunks(phase, offset, s).0.ChunksDone?
    decreases |s| - offset
  {
    if !phase.ChunksDone? {
      var rest := s[offset..];
      ChunkStepStable(phase, rest, rest);
      if ChunkStep(phase, rest).Done? { RunChunksWithin(ChunkStep(phase, rest).value, offset + ChunkStep(phase, rest).used, s); }
    }
  }

  // ---------------------------------------------------------------------------------
  // More bytes do not change a verdict, and parsing goes on where it stopped.

  lemma {:induction false} RunHeadSplit(h: Head, s: bytes, t: bytes)
    requires h.offset <= |s| && s <= t
    ensures RunHead(h, s).0.offset <= |s|
    ensures RunHead(h, s).1 == NeedMore ==> RunHead(h, t) == RunHead(RunHead(h, s).0, t)
    ensures RunHead(h, s).1 != NeedMore ==> RunHead(h, t) == RunHead(h, s)
    ensures RunHead(h, t).1 == Finished && RunHead(h, t).0.offset <= |s| ==> RunHead(h, s) == RunHead(h, t)
    decreases |s| - h.offset
  {
    if !h.phase.HeadDone? {
      var a, b := s[h.offset..], t[h.offset..];
      HeadStepStable(h, a, b);
      HeadStepStable(h, a, a);
      RunHeadWithin(h, t);
      HeadStepStable(h, b, b);
      if HeadStep(h, b).Done? {
        RunHeadWithin(HeadStep(h, b).value, t);
      }
      if HeadStep(h, a).Done? {
        RunHeadSplit(HeadStep(h, a).value, s, t);
      }
    }
  }

  lemma {:induction false} RunChunksSplit(phase: ChunkPhase, offset: nat, s: bytes, t: bytes)
    requires offset <= |s| && s <= t
    ensures RunChunks(phase, offset, s).1 <= |s|
    ensures var (phase1, offset1, v) := RunChunks(phase, offset, s);
      if v == NeedMore then RunChunks(phase, offset, t) == RunChunks(phase1, offset1, t)
      else RunChunks(phase, offset, t) == RunChunks(phase, offset, s)
    ensures RunChunks(phase, offset, t).2 == Finished && RunChunks(phase, offset, t).1 <= |s| ==>
      RunChunks(phase, offset, s) == RunChunks(phase, offset, t)
    decreases |s| - offset
  {
    hide ChunkStep;
    if !phase.ChunksDone? {
      var a, b := s[offset..], t[offset..];
      ChunkStepStable(phase, a, b);
      ChunkStepStable(phase, a, a);
      ChunkStepStable(phase, b, b);
      if ChunkStep(phase, b).Done? {
        RunChunksWithin(ChunkStep(phase, b).value, offset + ChunkStep(phase, b).used, t);
      }
      if ChunkStep(phase, a).Done? {
        RunChunksSplit(ChunkStep(phase, a).value, offset + ChunkStep(phase, a).used, s, t);
      }
    }
  }

  // ---------------------------------------------------------------------------------
  // http_parser_append_message over pieces

  // A parser that asked for more: nothing can be made of the bytes it has.
  ghost predicate Waiting(p: Parser) {
    && InBounds(p) && !p.complete
    && (!p.head.phase.HeadDone? ==> RunHead(p.head, p.msg) == (p.head, NeedMore))
    && (p.head.phase.HeadDone? ==> RunBody(p) == (p, NeedMore) && BodyFollows(p))
  }

  // The chunks come after the header.
  predicate BodyFollows(p: Parser) {
    p.head.info.transferLength == SIZE_MAX && p.head.info.chunked ==> p.head.offset <= p.chunkOffset
  }

  lemma FreshWaiting(isResp: bool)
    ensures Waiting(Fresh(isResp))
  {
    assert StartLineFrom([], 0).More?;
  }

  lemma RunBodySplit(p: Parser, t: bytes)
    requires InBounds(p) && p.msg <= t
    ensures var (p1, v) := RunBody(p); var (p2, w) := RunBody(p.(msg := t));
      if v == NeedMore then InBounds(p1) && p1.msg == p.msg && RunBody(p1) == (p1, NeedMore) && (p2, w) == RunBody(p1.(msg := t))
      else w == v && p2 == p1.(msg := p2.msg) && (v == Finished ==> p2 == p1)
    ensures var (p2, w) := RunBody(p.(msg := t));
      RunBody(p) == (p, NeedMore) && w == Finished ==> |p.msg| < |p2.msg| <= |t|
  {
    RunChunksWithin(p.chunkPhase, p.chunkOffset, p.msg);
    RunChunksWithin(p.chunkPhase, p.chunkOffset, t);
    RunChunksSplit(p.chunkPhase, p.chunkOffset, p.msg, t);
    RunChunksSplit(p.chunkPhase, p.chunkOffset, p.msg, p.msg);
  }

  // *n is never more than what was handed in nor less than nothing.
  lemma AppendCounts(p: Parser, q: bytes)
    requires Waiting(p)
    ensures 0 <= Append(p, q).2 <= |q|
    ensures Append(p, q).1 == NeedMore ==> Waiting(Append(p, q).0) && Append(p, q).0.msg == p.msg + q
    ensures Append(p, q).1 == Finished ==> Append(p, q).0.head.offset <= |Append(p, q).0.msg| <= |p.msg + q|
  {
    var msg := p.msg + q;
    RunHeadWithin(p.head, msg);
    RunHeadSplit(p.head, p.msg, msg);
    RunHeadSplit(p.head, msg, msg);
    var (h, v) := RunHead(p.head, msg);
    if v == Finished {
      var p1 := p.(head := h, msg := msg);
      if p.head.phase.HeadDone? {
        RunBodySplit(p, msg);
        RunBodySplit(p1, msg);
        RunBodyBeyond(p1);
      } else {
        RunBodySplit(Settled(p1), msg);
        assert BodyFollows(Settled(p1));
        RunBodyBeyond(Settled(p1));
      }
    }
  }

  // A message ends after its header.
  lemma RunBodyBeyond(p: Parser)
    requires InBounds(p)
    ensures var (p1, v) := RunBody(p); v == Finished ==> |p1.msg| <= |p.msg|
    ensures var (p1, v) := RunBody(p); v == Finished && BodyFollows(p) ==> p.head.offset <= |p1.msg|
    ensures var (p1, v) := RunBody(p); BodyFollows(p) ==> BodyFollows(p1)
  {
    RunChunksWithin(p.chunkPhase, p.chunkOffset, p.msg);
  }

  // The same result up to the bytes behind a refused message.
  ghost predicate Agree(a: (Parser, Verdict, int), b: (Parser, Verdict, int)) {
    && a.1 == b.1 && a.0.head == b.0.head && a.0.chunkPhase == b.0.chunkPhase && a.0.chunkOffset == b.0.chunkOffset
    && (a.1 != Refused ==> a.0 == b.0 && a.2 == b.2)
  }

  // Two pieces, or both at once.
  lemma AppendSplit(p: Parser, a: bytes, b: bytes)
    requires Waiting(p)
    ensures Append(p, a).1 != NeedMore ==> Agree(Append(p, a + b), Append(p, a))
    ensures Append(p, a).1 == NeedMore ==>
      var (p1, _, _) := Append(p, a); InBounds(p1) && (var (p2, v, n) := Append(p1, b); Append(p, a + b) == (p2, v, |a| + n))
  {
    hide RunChunks, HeadStep;
    var s, t := p.msg + a, p.msg + (a + b);
    assert s + b == t;
    RunHeadWithin(p.head, s);
    RunHeadSplit(p.head, s, t);
    AppendCounts(p, a);
    var (h, v) := RunHead(p.head, s);
    if v == Finished {
      var p1 := p.(head := h, msg := s);
      RunBodySplit(if p.head.phase.HeadDone? then p1 else Settled(p1), t);
    }
  }

  // The pieces one after the other, stopping at the first that settles it.
  function Feed(p: Parser, pieces: seq<bytes>): (Parser, Verdict, int)
    requires InBounds(p)
    decreases |pieces|
  {
    if pieces == [] then (p, NeedMore, 0)
    else
      var (p1, v, n) := Append(p, pieces[0]);
      AppendInBounds(p, pieces[0]);
      if v != NeedMore then (p1, v, n)
      else var (p2, w, m) := Feed(p1, pieces[1..]); (p2, w, n + m)
  }

  lemma AppendInBounds(p: Parser, q: bytes)
    requires InBounds(p)
    ensures Append(p, q).1 == NeedMore ==> InBounds(Append(p, q).0)
  {
    var msg := p.msg + q;
    var (h, v) := RunHead(p.head, msg);
    RunHeadWithin(p.head, msg);
    if v == Finished && !p.complete {
      var p1 := p.(head := h, msg := msg);
      var p2 := if p.head.phase.HeadDone? then p1 else Settled(p1);
      RunChunksWithin(p2.chunkPhase, p2.chunkOffset, msg);
    }
  }

  // However a message is cut up, the parser's verdict, start line, header fields, flags and
  // offsets are those of one call on the whole; and so are the bytes consumed and the body when
  // the message is complete.
  lemma {:induction false} AnySplit(p: Parser, pieces: seq<bytes>)
    requires Waiting(p)
    ensures Agree(Feed(p, pieces), Append(p, Flat(pieces)))
    decreases |pieces|
  {
    if pieces == [] {
      assert p.msg + [] == p.msg;
    } else {
      AppendSplit(p, pieces[0], Flat(pieces[1..]));
      AppendCounts(p, pieces[0]);
      var (p1, v, n) := Append(p, pieces[0]);
      if v == NeedMore {
        AnySplit(p1, pieces[1..]);
      }
    }
  }

  lemma SplitIndependent(isResp: bool, pieces: seq<bytes>, others: seq<bytes>)
    requires Flat(pieces) == Flat(others)
    ensures Agree(Feed(Fresh(isResp), pieces), Feed(Fresh(isResp), others))
  {
    FreshWaiting(isResp);
    AnySplit(Fresh(isResp), pieces);
    AnySplit(Fresh(isResp), others);
  }
}
