/**
  HttpMessage::encode against the parser: what is sent is read back as it was
  (sections 3.1 and 3.2 of RFC 7230).
 */
module HttpRoundTrip {
  import opened Collections
  import opened HttpSyntax
  import opened HttpParsing

  type FieldList = seq<(bytes, bytes)>

  // One header line (http_parser.c:49-54)
  function FieldLine(name: bytes, value: bytes): bytes {
    name + [COLON, SP] + value + [CR, LF]
  }

  function FieldLines(fields: FieldList): bytes {
    if fields == [] then [] else FieldLine(fields[0].0, fields[0].1) + FieldLines(fields[1..])
  }

  function LineOf(start: Parts): bytes {
    start.first + [SP] + start.second + [SP] + start.third
  }

  // What HttpMessage::encode sends (HttpMessage.cc:126-181)
  function Encoded(start: Parts, fields: FieldList, body: bytes): bytes {
    LineOf(start) + [CR, LF] + FieldLines(fields) + [CR, LF] + body
  }

  // ---------------------------------------------------------------------------------

  predicate PlainStart(start: Parts) {
    && SP !in start.first && SP !in start.second
    && CR !in LineOf(start) && 0 !in LineOf(start)
    && |LineOf(start)| < START_LINE_MAX
  }

  // Token-like: text without a colon that is not taken for a folded line or the header's end
  predicate PlainName(name: bytes) {
    && |name| < HEADER_NAME_MAX && COLON !in name && (forall c :: c in name ==> !NotText(c))
    && (name != [] ==> !Blank(name[0])) && !StartsCrLf(name)
  }

  predicate PlainValue(value: bytes) {
    && |value| < HEADER_VALUE_MAX && CR !in value && (forall c :: c in value ==> !NotText(c))
    && (value != [] ==> !Blank(value[0]) && !Blank(value[|value| - 1]))
  }

  predicate PlainFields(fields: FieldList) {
    forall i :: 0 <= i < |fields| ==> PlainName(fields[i].0) && PlainValue(fields[i].1)
  }

  // The header the fields add up to
  function AllAdded(h: Info, fields: FieldList): Info
    decreases |fields|
  {
    if fields == [] then h else AllAdded(Added(h, fields[0].0, fields[0].1), fields[1..])
  }

  lemma SplitsBack(start: Parts)
    requires PlainStart(start)
    ensures SplitLine(LineOf(start)) == Some(start)
  {
    var line := LineOf(start);
    var a := |start.first|;
    assert line[..a] == start.first;
    FindAt(line, SP, a);
    var rest := line[a + 1..];
    assert rest == start.second + [SP] + start.third;
    assert rest[..|start.second|] == start.second;
    FindAt(rest, SP, |start.second|);
    assert rest[|start.second| + 1..] == start.third;
  }

  lemma {:induction false} StartLineReads(line: bytes, rest: bytes, i: nat)
    requires CR !in line && 0 !in line && |line| < START_LINE_MAX && i <= |line|
    requires SplitLine(line).Some?
    ensures StartLineFrom(line + [CR, LF] + rest, i) == Done(Some(SplitLine(line).value), |line| + 2)
    decreases |line| - i
  {
    var s := line + [CR, LF] + rest;
    if i == |line| {
      assert s[..i] == line;
    } else {
      assert s[i] == line[i];
      StartLineReads(line, rest, i + 1);
    }
  }

  lemma {:induction false} NameReads(name: bytes, rest: bytes, i: nat)
    requires |name| < HEADER_NAME_MAX && COLON !in name && (forall c :: c in name ==> !NotText(c)) && i <= |name|
    ensures HeaderNameFrom(name + [COLON] + rest, i) == Done(Some(name), |name| + 1)
    decreases |name| - i
  {
    var s := name + [COLON] + rest;
    if i == |name| {
      assert s[..i] == name;
    } else {
      assert s[i] == name[i];
      NameReads(name, rest, i + 1);
    }
  }

  lemma {:induction false} TextReads(value: bytes, rest: bytes, i: nat)
    requires PlainValue(value) && i <= |value| && rest != [] && !Blank(rest[0])
    ensures ValueText([SP] + value + [CR, LF] + rest, i + 1, value[..i]) == Done(value, |value| + 3)
    decreases |value| - i
  {
    var s := [SP] + value + [CR, LF] + rest;
    if i == |value| {
      assert value[..i] == value && TrimRight(value) == value;
      assert s[i + 1] == CR && s[i + 2] == LF && s[i + 3] == rest[0];
    } else {
      assert s[i + 1] == value[i];
      TextReads(value, rest, i + 1);
      assert value[..i] + [value[i]] == value[..i + 1];
    }
  }

  lemma ValueReads(value: bytes, rest: bytes)
    requires PlainValue(value) && rest != [] && !Blank(rest[0])
    ensures HeaderValue([SP] + value + [CR, LF] + rest) == Done(value, |value| + 3)
  {
    var s := [SP] + value + [CR, LF] + rest;
    assert s[1] == if value == [] then CR else value[0];
    assert ValueLine(s, 0, []) == ValueLine(s, 1, []) == ValueText(s, 1, value[..0]);
    TextReads(value, rest, 0);
  }

  // One turn that is done
  lemma OneTurn(h: Head, s: bytes)
    requires !h.phase.HeadDone? && h.offset <= |s| && HeadStep(h, s[h.offset..]).Done?
    ensures HeadStep(h, s[h.offset..]).value.offset <= |s|
    ensures RunHead(h, s) == RunHead(HeadStep(h, s[h.offset..]).value, s)
  {
    HeadStepStable(h, s[h.offset..], s[h.offset..]);
  }

  lemma NameTurn(h: Head, s: bytes, name: bytes, tail: bytes)
    requires h.phase == InName && h.offset <= |s| && s[h.offset..] == name + [COLON] + tail && PlainName(name)
    ensures h.offset + |name| + 1 <= |s|
    ensures RunHead(h, s) == RunHead(Head(InValue(name), h.offset + |name| + 1, h.info), s)
  {
    var rest := name + [COLON] + tail;
    assert !StartsCrLf(rest) by {
      if |name| >= 2 { assert rest[1] == name[1]; }
    }
    NameReads(name, tail, 0);
    OneTurn(h, s);
  }

  lemma ValueTurn(h: Head, s: bytes, name: bytes, value: bytes, rest: bytes)
    requires h.phase == InValue(name) && h.offset <= |s| && s[h.offset..] == [SP] + value + [CR, LF] + rest
    requires PlainValue(value) && rest != [] && !Blank(rest[0])
    ensures h.offset + |value| + 3 <= |s|
    ensures RunHead(h, s) == RunHead(Head(InName, h.offset + |value| + 3, Added(h.info, name, value)), s)
  {
    ValueReads(value, rest);
    OneTurn(h, s);
  }

  lemma FieldPlaces(s: bytes, from: nat, name: bytes, value: bytes, rest: bytes)
    requires from <= |s| && s[from..] == FieldLine(name, value) + rest
    ensures s[from..] == name + [COLON] + ([SP] + value + [CR, LF] + rest)
    ensures from + |name| + |value| + 4 == from + |FieldLine(name, value)| <= |s|
    ensures s[from + |name| + 1..] == [SP] + value + [CR, LF] + rest
    ensures s[from + |FieldLine(name, value)|..] == rest
  {
    assert s[from + |name| + 1..] == s[from..][|name| + 1..];
    assert s[from + |FieldLine(name, value)|..] == s[from..][|FieldLine(name, value)|..];
  }

  // One field line
  lemma FieldReads(h: Head, s: bytes, name: bytes, value: bytes, rest: bytes)
    requires h.phase == InName && h.offset <= |s| && s[h.offset..] == FieldLine(name, value) + rest
    requires PlainName(name) && PlainValue(value) && rest != [] && !Blank(rest[0])
    ensures h.offset + |FieldLine(name, value)| <= |s| && s[h.offset + |FieldLine(name, value)|..] == rest
    ensures RunHead(h, s) == RunHead(Head(InName, h.offset + |FieldLine(name, value)|, Added(h.info, name, value)), s)
  {
    hide RunHead, Added, PlainName, PlainValue, FieldLine, Blank;
    var tail := [SP] + value + [CR, LF] + rest;
    var h1 := Head(InValue(name), h.offset + |name| + 1, h.info);
    FieldPlaces(s, h.offset, name, value, rest);
    NameTurn(h, s, name, tail);
    ValueTurn(h1, s, name, value, rest);
  }

  lemma EndReads(h: Head, s: bytes, body: bytes)
    requires h.phase == InName && h.offset <= |s| && s[h.offset..] == [CR, LF] + body
    ensures RunHead(h, s) == (Head(HeadDone, h.offset + 2, h.info), Finished)
  {
    OneTurn(h, s);
  }

  // The first of several lines
  lemma FirstFieldReads(h: Head, s: bytes, fields: FieldList, body: bytes) returns (h1: Head)
    requires h.phase == InName && h.offset <= |s| && s[h.offset..] == FieldLines(fields) + [CR, LF] + body
    requires PlainFields(fields) && fields != []
    ensures h1.phase == InName && h1.offset <= |s| && s[h1.offset..] == FieldLines(fields[1..]) + [CR, LF] + body
    ensures RunHead(h, s) == RunHead(h1, s) && AllAdded(h.info, fields) == AllAdded(h1.info, fields[1..])
    ensures h1.offset + |FieldLines(fields[1..])| == h.offset + |FieldLines(fields)|
  {
    var name, value := fields[0].0, fields[0].1;
    var line, rest := FieldLine(name, value), FieldLines(fields[1..]) + [CR, LF] + body;
    assert FieldLines(fields) + [CR, LF] + body == line + rest;
    NextLineStarts(fields[1..], body);
    FieldReads(h, s, name, value, rest);
    h1 := Head(InName, h.offset + |line|, Added(h.info, name, value));
  }

  lemma {:induction false} FieldsRead(h: Head, s: bytes, fields: FieldList, body: bytes)
    requires h.phase == InName && h.offset <= |s| && s[h.offset..] == FieldLines(fields) + [CR, LF] + body && PlainFields(fields)
    ensures RunHead(h, s) == (Head(HeadDone, h.offset + |FieldLines(fields)| + 2, AllAdded(h.info, fields)), Finished)
    decreases |fields|
  {
    hide RunHead, Added;
    if fields == [] {
      assert FieldLines(fields) + [CR, LF] + body == [CR, LF] + body;
      EndReads(h, s, body);
    } else {
      var h1 := FirstFieldReads(h, s, fields, body);
      FieldsRead(h1, s, fields[1..], body);
    }
  }

  // The byte after a header line never makes it look folded.
  lemma NextLineStarts(fields: FieldList, body: bytes)
    requires PlainFields(fields)
    ensures var rest := FieldLines(fields) + [CR, LF] + body; rest != [] && !Blank(rest[0])
  {
    if fields != [] {
      var line := FieldLine(fields[0].0, fields[0].1);
      assert (FieldLines(fields) + [CR, LF] + body)[0] == line[0];
      assert line[0] == if fields[0].0 == [] then COLON else fields[0].0[0];
    }
  }

  // ---------------------------------------------------------------------------------
  // The whole message

  function InfoOf(isResp: bool, start: Parts, fields: FieldList): Info {
    AllAdded(Matched(Fresh(isResp).head.info, start), fields)
  }

  predicate StartIs(info: Info, start: Parts) {
    if info.isResp then info.version == Some(start.first) && info.code == Some(start.second) && info.phrase == Some(start.third)
    else info.verb == Some(start.first) && info.uri == Some(start.second) && info.version == Some(start.third)
  }

  predicate SameStart(h: Info, h': Info) {
    && h'.isResp == h.isResp && h'.version == h.version
    && h'.verb == h.verb && h'.uri == h.uri && h'.code == h.code && h'.phrase == h.phrase
  }

  lemma AppliedKeepsStart(h: Info, field: Field, m: Meaning)
    ensures SameStart(h, Applied(h, field, m)) && Applied(h, field, m).headers == h.headers
  {
  }

  lemma AddedKeepsStart(h: Info, name: bytes, value: bytes)
    ensures SameStart(h, Added(h, name, value)) && Added(h, name, value).headers == h.headers + [(name, value)]
  {
    AppliedKeepsStart(h.(headers := h.headers + [(name, value)]), FieldOf(name), MeaningOf(value));
  }

  lemma {:induction false} AllAddedHeaders(h: Info, fields: FieldList)
    ensures SameStart(h, AllAdded(h, fields)) && AllAdded(h, fields).headers == h.headers + fields
    decreases |fields|
  {
    if fields != [] {
      AddedKeepsStart(h, fields[0].0, fields[0].1);
      AllAddedHeaders(Added(h, fields[0].0, fields[0].1), fields[1..]);
      assert h.headers + [fields[0]] + fields[1..] == h.headers + fields;
    }
  }

  // The length of body the header announces is the body's.
  predicate Sized(info: Info, body: bytes) {
    && |body| < SIZE_MAX
    && if info.transferLength != SIZE_MAX then info.transferLength == |body| else !info.chunked && info.contentLength == |body|
  }

  lemma HeaderReads(isResp: bool, start: Parts, fields: FieldList, body: bytes)
    requires PlainStart(start) && PlainFields(fields)
    ensures RunHead(Fresh(isResp).head, Encoded(start, fields, body))
         == (Head(HeadDone, |LineOf(start)| + 2 + |FieldLines(fields)| + 2, InfoOf(isResp, start, fields)), Finished)
  {
    var s, line := Encoded(start, fields, body), LineOf(start);
    var h := Fresh(isResp).head;
    var rest := FieldLines(fields) + [CR, LF] + body;
    assert s == line + [CR, LF] + rest;
    assert s[0..] == s;
    SplitsBack(start);
    assert line != [] && line[0] != CR;
    StartLineReads(line, rest, 0);
    OneTurn(h, s);
    var h1 := Head(InName, |line| + 2, Matched(h.info, start));
    assert s[h1.offset..] == rest;
    FieldsRead(h1, s, fields, body);
  }

  // What follows the header is the body it announces.
  lemma BodyReads(p: Parser, body: bytes)
    requires p.head.phase.HeadDone? && |body| <= |p.msg| && p.head.offset == |p.msg| - |body| && InBounds(p)
    requires Sized(p.head.info, body) && p.chunkOffset == 0 && !p.complete
    ensures RunBody(Settled(p)) == (Settled(p).(complete := true), Finished)
    ensures Settled(p).head.info == p.head.info.(transferLength := Settled(p).head.info.transferLength)
  {
    assert p.msg[..|p.msg|] == p.msg;
  }

  lemma MessageReads(isResp: bool, start: Parts, fields: FieldList, body: bytes) returns (p: Parser)
    requires PlainStart(start) && PlainFields(fields) && Sized(InfoOf(isResp, start, fields), body)
    ensures var s := Encoded(start, fields, body); Append(Fresh(isResp), s) == (p, Finished, |s|) && p.msg == s
    ensures p.complete && p.head.offset <= |p.msg| && p.msg[p.head.offset..] == body
    ensures var info := InfoOf(isResp, start, fields); p.head.info == info.(transferLength := p.head.info.transferLength)
  {
    var s := Encoded(start, fields, body);
    HeaderReads(isResp, start, fields, body);
    assert [] + s == s;
    assert s[|s| - |body|..] == body && |s| == |LineOf(start)| + 2 + |FieldLines(fields)| + 2 + |body|;
    var h := RunHead(Fresh(isResp).head, s).0;
    BodyReads(Fresh(isResp).(head := h, msg := s), body);
    p := Settled(Fresh(isResp).(head := h, msg := s)).(complete := true);
  }

  // What encode sends is read back in one call: the same start line, the same fields in the
  // same order, the same body, and no byte left over.
  lemma RoundTrip(isResp: bool, start: Parts, fields: FieldList, body: bytes)
    requires PlainStart(start) && PlainFields(fields) && Sized(InfoOf(isResp, start, fields), body)
    ensures var s := Encoded(start, fields, body); var (p, v, n) := Append(Fresh(isResp), s);
      && v == Finished && n == |s| && p.complete && p.msg == s
      && StartIs(p.head.info, start) && p.head.info.headers == fields
      && p.head.offset <= |s| && p.msg[p.head.offset..] == body
  {
    var p := MessageReads(isResp, start, fields, body);
    AllAddedHeaders(Matched(Fresh(isResp).head.info, start), fields);
  }

  // ... and however the bytes arrive.
  lemma RoundTripInPieces(isResp: bool, start: Parts, fields: FieldList, body: bytes, pieces: seq<bytes>)
    requires PlainStart(start) && PlainFields(fields) && Sized(InfoOf(isResp, start, fields), body)
    requires Flat(pieces) == Encoded(start, fields, body)
    ensures var s := Encoded(start, fields, body); var (p, v, n) := Feed(Fresh(isResp), pieces);
      && v == Finished && n == |s| && StartIs(p.head.info, start) && p.head.info.headers == fields
      && p.head.offset <= |p.msg| && p.msg[p.head.offset..] == body
  {
    RoundTrip(isResp, start, fields, body);
    FreshWaiting(isResp);
    AnySplit(Fresh(isResp), pieces);
  }

  // ---------------------------------------------------------------------------------
  // A Content-Length field that tells the size of the body

  function Digits(n: nat): (s: bytes)
    ensures s != [] && forall i :: 0 <= i < |s| ==> IsDigitAt(s, i)
  {
    if n < 10 then [48 + n]
    else
      var more := Digits(n / 10);
      var s := more + [48 + n % 10];
      assert forall i :: 0 <= i < |more| ==> IsDigitAt(more, i) && s[i] == more[i];
      s
  }

  lemma {:induction false} DecimalPrefix(s: bytes, d: byte, i: nat, acc: nat)
    requires i <= |s| && 48 <= d <= 57 && forall k :: i <= k < |s| ==> IsDigitAt(s, k)
    ensures Decimal(s + [d], i, acc) == 10 * Decimal(s, i, acc) + (d - 48)
    decreases |s| - i
  {
    if i < |s| {
      assert (s + [d])[i] == s[i] && IsDigitAt(s, i);
      DecimalPrefix(s, d, i + 1, 10 * acc + (s[i] - 48));
    } else {
      assert IsDigitAt(s + [d], i) && !IsDigitAt(s + [d], i + 1) && !IsDigitAt(s, i);
      assert Decimal(s + [d], i, acc) == Decimal(s + [d], i + 1, 10 * acc + (d - 48));
    }
  }

  lemma {:induction false} DigitsRead(n: nat)
    ensures Decimal(Digits(n), 0, 0) == n
  {
    if n >= 10 {
      DigitsRead(n / 10);
      DecimalPrefix(Digits(n / 10), 48 + n % 10, 0, 0);
    } else {
      assert Digits(n) == [] + [48 + n];
      DecimalPrefix([], 48 + n, 0, 0);
    }
  }

  function Pow10(k: nat): nat {
    if k == 0 then 1 else 10 * Pow10(k - 1)
  }

  lemma {:induction false} DigitsShort(n: nat, k: nat)
    requires n < Pow10(k) && k > 0
    ensures |Digits(n)| <= k
    decreases k
  {
    if n >= 10 { DigitsShort(n / 10, k - 1); }
  }

  // No other field touches the length or the transfer coding.
  predicate Unsized(fields: FieldList) {
    forall i :: 0 <= i < |fields| ==> FieldOf(fields[i].0) != ContentLength && FieldOf(fields[i].0) != TransferEncoding
  }

  lemma {:induction false} UnsizedKeeps(h: Info, fields: FieldList)
    requires Unsized(fields)
    ensures var h' := AllAdded(h, fields);
      h'.contentLength == h.contentLength && h'.chunked == h.chunked && h'.transferLength == h.transferLength
    decreases |fields|
  {
    if fields != [] {
      OtherField(h, fields[0].0, fields[0].1);
      UnsizedKeeps(Added(h, fields[0].0, fields[0].1), fields[1..]);
    }
  }

  lemma OtherField(h: Info, name: bytes, value: bytes)
    requires FieldOf(name) != ContentLength && FieldOf(name) != TransferEncoding
    ensures var h' := Added(h, name, value);
      h'.contentLength == h.contentLength && h'.chunked == h.chunked && h'.transferLength == h.transferLength
  {
  }

  // The last field of a kind, or none
  function LastOf(fields: FieldList, field: Field): Option<bytes> {
    if fields == [] then None
    else if FieldOf(fields[|fields| - 1].0) == field then Some(fields[|fields| - 1].1)
    else LastOf(fields[..|fields| - 1], field)
  }

  // The body comes in chunks if and only if the last Transfer-Encoding is another than identity.
  lemma {:induction false} LastTransferEncoding(h: Info, fields: FieldList)
    ensures var last := LastOf(fields, TransferEncoding);
      AllAdded(h, fields).chunked == if last.Some? then !SameName(last.value, "identity") else h.chunked
    decreases |fields|
  {
    if fields != [] {
      var n := |fields| - 1;
      LastTransferEncoding(h, fields[..n]);
      AllAddedLast(h, fields);
      ChunkedAfter(AllAdded(h, fields[..n]), fields[n].0, fields[n].1);
      hide Added, SameName, FieldOf;
    }
  }

  lemma ChunkedAfter(h: Info, name: bytes, value: bytes)
    ensures Added(h, name, value).chunked == if FieldOf(name) == TransferEncoding then !SameName(value, "identity") else h.chunked
  {
    hide FieldOf, SameName, IsDigitAt, Decimal;
  }

  lemma AllAddedLast(h: Info, fields: FieldList)
    requires fields != []
    ensures var n := |fields| - 1; AllAdded(h, fields) == Added(AllAdded(h, fields[..n]), fields[n].0, fields[n].1)
  {
    var n := |fields| - 1;
    assert fields == fields[..n] + [fields[n]];
    AllAddedSplit(h, fields[..n], [fields[n]]);
    hide Added;
    assert AllAdded(AllAdded(h, fields[..n]), [fields[n]]) == Added(AllAdded(h, fields[..n]), fields[n].0, fields[n].1);
  }

  // A Content-Length the parser reads a number from
  predicate Readable(name: bytes, value: bytes) {
    FieldOf(name) == ContentLength && IsDigitAt(value, 0) && |value| <= 15
  }

  function LastReadable(fields: FieldList): Option<bytes> {
    if fields == [] then None
    else if Readable(fields[|fields| - 1].0, fields[|fields| - 1].1) then Some(fields[|fields| - 1].1)
    else LastReadable(fields[..|fields| - 1])
  }

  // The length is that of the last Content-Length that begins with a digit and is at most 15 long.
  lemma {:induction false} LastContentLength(h: Info, fields: FieldList)
    ensures var last := LastReadable(fields);
      AllAdded(h, fields).contentLength == if last.Some? then Decimal(last.value, 0, 0) else h.contentLength
    decreases |fields|
  {
    if fields != [] {
      var n := |fields| - 1;
      LastContentLength(h, fields[..n]);
      AllAddedLast(h, fields);
      LengthAfter(AllAdded(h, fields[..n]), fields[n].0, fields[n].1);
      hide Added, Readable, Decimal;
    }
  }

  lemma LengthAfter(h: Info, name: bytes, value: bytes)
    ensures Added(h, name, value).contentLength == if Readable(name, value) then Decimal(value, 0, 0) else h.contentLength
  {
    hide FieldOf, SameName, IsDigitAt, Decimal, Applied;
    AppliedLengths(h.(headers := h.headers + [(name, value)]), FieldOf(name), MeaningOf(value));
  }

  lemma AppliedLengths(h: Info, field: Field, m: Meaning)
    ensures var h' := Applied(h, field, m);
      && h'.contentLength == (if field.ContentLength? && m.length.Some? then m.length.value else h.contentLength)
      && h'.transferLength == h.transferLength && h'.isResp == h.isResp
  {
  }

  lemma {:induction false} AllAddedSplit(h: Info, a: FieldList, b: FieldList)
    ensures AllAdded(h, a + b) == AllAdded(AllAdded(h, a), b)
    decreases |a|
  {
    if a == [] {
      assert a + b == b;
    } else {
      assert (a + b)[1..] == a[1..] + b;
      AllAddedSplit(Added(h, a[0].0, a[0].1), a[1..], b);
    }
  }

  lemma ContentLengthSizes(isResp: bool, start: Parts, before: FieldList, name: bytes, after: FieldList, body: bytes)
    requires Unsized(before) && Unsized(after) && FieldOf(name) == ContentLength
    requires |body| < Pow10(15) && (isResp ==> !Bodyless(start.second))
    ensures Sized(InfoOf(isResp, start, before + [(name, Digits(|body|))] + after), body)
  {
    var value := Digits(|body|);
    var h := Matched(Fresh(isResp).head.info, start);
    DigitsRead(|body|);
    DigitsShort(|body|, 15);
    assert Pow10(15) < SIZE_MAX;
    AllAddedSplit(h, before + [(name, value)], after);
    AllAddedSplit(h, before, [(name, value)]);
    UnsizedKeeps(h, before);
    var h1 := AllAdded(h, before);
    assert AllAdded(h1, [(name, value)]) == Added(h1, name, value);
    UnsizedKeeps(Added(h1, name, value), after);
    assert IsDigitAt(value, 0);
  }
}
