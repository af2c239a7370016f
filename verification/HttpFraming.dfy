/**
  What a header says of its message: how long the body is (section 3.3.3 of RFC 7230), and
  whether the connection is to be kept (section 6.3), as http_parser.c takes it.
 */
module HttpFraming {
  import opened Collections
  import opened HttpSyntax
  import opened HttpParsing
  import opened HttpRoundTrip
  import opened HttpChunks
  import opened HttpChunkCoding

  // ---------------------------------------------------------------------------------
  // The length of the body

  function Header(start: Parts, fields: FieldList): bytes {
    HttpRoundTrip.LineOf(start) + [CR, LF] + FieldLines(fields) + [CR, LF]
  }

  datatype Kind = NoBody | Sized(n: nat) | InChunks | ToTheEnd

  // 1xx, 204 and 304
  predicate NeverABody(code: bytes) {
    (code != [] && code[0] == 49) || code == [50, 48, 52] || code == [51, 48, 52]
  }

  // The status code before the last Transfer-Encoding, that before the last readable
  // Content-Length; a response without any goes on to the end of the connection.
  function KindOf(isResp: bool, start: Parts, fields: FieldList): Kind {
    var coding, length := LastOf(fields, TransferEncoding), LastReadable(fields);
    if isResp && NeverABody(start.second) then NoBody
    else if coding.Some? && !SameName(coding.value, "identity") then InChunks
    else if length.Some? then Kind.Sized(Decimal(length.value, 0, 0))
    else if isResp then ToTheEnd
    else NoBody
  }

  lemma BodylessCodes(code: bytes)
    ensures Bodyless(code) <==> NeverABody(code)
  {
    assert Text("204") == [50, 48, 52] && Text("304") == [51, 48, 52];
    assert Text("1") == [49];
    assert code != [] ==> ([49] <= code <==> code[0] == 49);
  }

  lemma {:induction false} TransferLengthKept(h: Info, fields: FieldList)
    ensures AllAdded(h, fields).transferLength == h.transferLength && AllAdded(h, fields).isResp == h.isResp
    decreases |fields|
  {
    if fields != [] {
      AddedTransferLength(h, fields[0].0, fields[0].1);
      TransferLengthKept(Added(h, fields[0].0, fields[0].1), fields[1..]);
    }
  }

  lemma AddedTransferLength(h: Info, name: bytes, value: bytes)
    ensures Added(h, name, value).transferLength == h.transferLength && Added(h, name, value).isResp == h.isResp
  {
    hide FieldOf, MeaningOf, Applied;
    AppliedLengths(h.(headers := h.headers + [(name, value)]), FieldOf(name), MeaningOf(value));
  }

  lemma {:induction false} ReadableShort(fields: FieldList)
    ensures LastReadable(fields).Some? ==> |LastReadable(fields).value| <= 15
  {
    if fields != [] { ReadableShort(fields[..|fields| - 1]); }
  }

  lemma {:induction false} DecimalBelow(s: bytes, i: nat, acc: nat, k: nat)
    requires i <= |s| && acc < Pow10(k)
    ensures Decimal(s, i, acc) < Pow10(k + |s| - i)
    decreases |s| - i
  {
    if i < |s| {
      assert Pow10(k + 1) == 10 * Pow10(k);
      if IsDigitAt(s, i) {
        DecimalBelow(s, i + 1, 10 * acc + (s[i] - 48), k + 1);
      } else {
        Pow10Grows(k, |s| - i);
      }
    }
  }

  lemma {:induction false} Pow10Grows(k: nat, n: nat)
    ensures Pow10(k) <= Pow10(k + n)
  {
    if n > 0 { Pow10Grows(k, n - 1); }
  }

  // What the parser notes of each kind
  predicate Notes(info: Info, kind: Kind) {
    match kind
    case NoBody => info.transferLength == 0 || (info.transferLength == SIZE_MAX && !info.chunked && info.contentLength == 0)
    case Sized(n) => info.transferLength == SIZE_MAX && !info.chunked && info.contentLength == n < SIZE_MAX
    case InChunks => info.transferLength == SIZE_MAX && info.chunked
    case ToTheEnd => info.transferLength == SIZE_MAX && !info.chunked && info.contentLength == SIZE_MAX
  }

  // It is what the header says.
  lemma HeaderSays(isResp: bool, start: Parts, fields: FieldList)
    ensures Notes(InfoOf(isResp, start, fields), KindOf(isResp, start, fields))
  {
    hide AllAdded, LastOf, LastReadable, Decimal, SameName, Bodyless, NeverABody, Pow10;
    var h := Matched(Fresh(isResp).head.info, start);
    BodylessCodes(start.second);
    TransferLengthKept(h, fields);
    LastTransferEncoding(h, fields);
    LastContentLength(h, fields);
    ReadableShort(fields);
    var length := LastReadable(fields);
    if length.Some? {
      FifteenDigits(length.value);
    }
  }

  lemma FifteenTens()
    ensures Pow10(15) < SIZE_MAX
  {
    assert Pow10(5) == 100000;
    assert Pow10(10) == 10000000000;
  }

  lemma FifteenDigits(value: bytes)
    requires |value| <= 15
    ensures Decimal(value, 0, 0) < SIZE_MAX
  {
    hide Decimal;
    FifteenTens();
    DecimalBelow(value, 0, 0, 0);
    Pow10Grows(|value|, 15 - |value|);
  }

  // The header read, the body is looked at.
  lemma HeaderThenBody(isResp: bool, start: Parts, fields: FieldList, rest: bytes) returns (p: Parser)
    requires PlainStart(start) && PlainFields(fields)
    ensures var s := Header(start, fields) + rest;
      && p == Fresh(isResp).(head := Head(HeadDone, |Header(start, fields)|, InfoOf(isResp, start, fields)), msg := s)
      && InBounds(p) && InBounds(Settled(p))
      && var (p2, w) := RunBody(Settled(p));
         Append(Fresh(isResp), s) == (p2, w, if w == Finished then |p2.msg| else |s|)
  {
    hide InfoOf, RunBody, FieldLines, PlainStart, PlainFields;
    var s := Header(start, fields) + rest;
    assert s == Encoded(start, fields, rest) && [] + s == s;
    HeaderReads(isResp, start, fields, rest);
    p := Fresh(isResp).(head := Head(HeadDone, |Header(start, fields)|, InfoOf(isResp, start, fields)), msg := s);
  }

  // Where a message ends, as far as its header can tell: at the header's end, so many bytes after
  // it, never before the connection does, or where its chunks end.
  ghost predicate EndsBy(kind: Kind, head: bytes, rest: bytes, msg: bytes, v: Verdict) {
    match kind
    case NoBody => v == Finished && msg == head
    case Sized(n) => if |rest| >= n then v == Finished && msg == head + rest[..n] else v == NeedMore && msg == head + rest
    case ToTheEnd => v == NeedMore && msg == head + rest
    case InChunks =>
      var (phase, end, w) := RunChunks(InData, |head|, head + rest);
      v == w && (v == Finished ==> |head| <= end <= |head + rest| && msg == (head + rest)[..end])
  }

  lemma BodyEnds(p: Parser, kind: Kind, head: bytes, rest: bytes)
    requires Notes(p.head.info, kind) && p.msg == head + rest && p.head.offset == |head| && p.chunkOffset == 0
    ensures InBounds(Settled(p))
    ensures var (p2, v) := RunBody(Settled(p));
      && EndsBy(kind, head, rest, p2.msg, v) && p2.head.offset == |head|
      && (v == Finished ==> p2.complete && head <= p2.msg <= p.msg)
  {
    hide RunChunks;
    RunChunksWithin(InData, |head|, p.msg);
    if kind.Sized? && |rest| >= kind.n {
      assert p.msg[..|head| + kind.n] == head + rest[..kind.n];
    }
    assert p.msg[..|head|] == head;
  }

  lemma Framing(isResp: bool, start: Parts, fields: FieldList, rest: bytes)
    requires PlainStart(start) && PlainFields(fields)
    ensures var head := Header(start, fields); var (p, v, n) := Append(Fresh(isResp), head + rest);
      && EndsBy(KindOf(isResp, start, fields), head, rest, p.msg, v) && p.head.offset == |head|
      && (v == Finished ==> p.complete && head <= p.msg <= head + rest && n == |p.msg|)
  {
    hide Header, InfoOf, KindOf, RunBody, EndsBy, Append, Settled, PlainStart, PlainFields, Notes;
    HeaderSays(isResp, start, fields);
    var p := HeaderThenBody(isResp, start, fields, rest);
    BodyEnds(p, KindOf(isResp, start, fields), Header(start, fields), rest);
  }

  // A chunked message ends where its coding does, whatever comes behind it.
  lemma ChunkedFraming(isResp: bool, start: Parts, fields: FieldList, blocks: seq<Block>, e: Ending, more: bytes)
    requires PlainStart(start) && PlainFields(fields) && KindOf(isResp, start, fields).InChunks?
    requires (forall i :: 0 <= i < |blocks| ==> PlainBlock(blocks[i])) && PlainEnding(e)
    ensures var head, body := Header(start, fields), ChunkedBody(blocks, e);
      var (p, v, n) := Append(Fresh(isResp), head + (body + more));
      v == Finished && p.complete && p.head.offset == |head| && p.msg == head + body && n == |head + body|
  {
    hide Header, KindOf, ChunkedBody, RunChunks;
    var head, body := Header(start, fields), ChunkedBody(blocks, e);
    Framing(isResp, start, fields, body + more);
    BodyRead(head, blocks, e);
    assert head + (body + more) == (head + body) + more;
    RunChunksSplit(InData, |head|, head + body, head + (body + more));
    assert (head + (body + more))[..|head + body|] == head + body;
  }

  // ---------------------------------------------------------------------------------
  // The fields the parser knows

  // Its names in lower case
  function Known(field: Field): bytes {
    match field
    case Expect => [101, 120, 112, 101, 99, 116]
    case Connection => [99, 111, 110, 110, 101, 99, 116, 105, 111, 110]
    case KeepAlive => [107, 101, 101, 112, 45, 97, 108, 105, 118, 101]
    case ContentLength => [99, 111, 110, 116, 101, 110, 116, 45, 108, 101, 110, 103, 116, 104]
    case TransferEncoding => [116, 114, 97, 110, 115, 102, 101, 114, 45, 101, 110, 99, 111, 100, 105, 110, 103]
    case AnyOther => []
  }

  lemma FoldedText(s: string, t: bytes)
    requires |s| == |t| && forall i :: 0 <= i < |s| ==> (s[i] as int) < 256 && Lower(s[i] as int) == t[i]
    ensures Folded(Text(s)) == t
  {
  }

  lemma NameIs(name: bytes, s: string, t: bytes)
    requires |s| == |t| && forall i :: 0 <= i < |s| ==> (s[i] as int) < 256 && Lower(s[i] as int) == t[i]
    ensures SameName(name, s) <==> Folded(name) == t
  {
    FoldedText(s, t);
  }

  // A field is known by its name in any case.
  lemma KnownByName(name: bytes, field: Field)
    requires field != AnyOther
    ensures FieldOf(name) == field <==> Folded(name) == Known(field)
  {
    NameIs(name, "Expect", Known(Expect));
    NameIs(name, "Connection", Known(Connection));
    NameIs(name, "Keep-Alive", Known(KeepAlive));
    NameIs(name, "Content-Length", Known(ContentLength));
    NameIs(name, "Transfer-Encoding", Known(TransferEncoding));
    hide SameName, Folded;
    assert |Known(Expect)| == 6 && |Known(ContentLength)| == 14 && |Known(TransferEncoding)| == 17;
    assert Known(Connection)[0] == 99 && Known(KeepAlive)[0] == 107;
  }

  // ---------------------------------------------------------------------------------
  // Whether the connection is kept

  // "HTTP/1.0", or a version of HTTP/0
  predicate BeforeKeepAlive(version: bytes) {
    version == [72, 84, 84, 80, 47, 49, 46, 48] || [72, 84, 84, 80, 47, 48] <= version
  }

  lemma OldVersions(version: bytes)
    ensures OldVersion(version) <==> BeforeKeepAlive(version)
  {
    assert Text("HTTP/1.0") == [72, 84, 84, 80, 47, 49, 46, 48];
    assert Text("HTTP/0") == [72, 84, 84, 80, 47, 48];
  }

  // A Connection field that says keep-alive or close
  predicate Decisive(name: bytes, value: bytes) {
    FieldOf(name) == Connection && (SameName(value, "keep-alive") || SameName(value, "close"))
  }

  function LastDecisive(fields: FieldList): Option<bytes> {
    if fields == [] then None
    else if Decisive(fields[|fields| - 1].0, fields[|fields| - 1].1) then Some(fields[|fields| - 1].1)
    else LastDecisive(fields[..|fields| - 1])
  }

  lemma {:induction false} LastConnection(h: Info, fields: FieldList)
    ensures var last := LastDecisive(fields);
      AllAdded(h, fields).keepAlive == if last.Some? then SameName(last.value, "keep-alive") else h.keepAlive
    decreases |fields|
  {
    if fields != [] {
      var n := |fields| - 1;
      LastConnection(h, fields[..n]);
      AllAddedLast(h, fields);
      KeptAfter(AllAdded(h, fields[..n]), fields[n].0, fields[n].1);
      hide Added, Decisive, SameName;
    }
  }

  lemma KeptAfter(h: Info, name: bytes, value: bytes)
    ensures Added(h, name, value).keepAlive == if Decisive(name, value) then SameName(value, "keep-alive") else h.keepAlive
  {
    hide FieldOf, SameName, IsDigitAt, Decimal, Applied;
    AppliedKept(h.(headers := h.headers + [(name, value)]), FieldOf(name), MeaningOf(value));
    SpelledAlike(value);
  }

  lemma AppliedKept(h: Info, field: Field, m: Meaning)
    ensures Applied(h, field, m).keepAlive == if field.Connection? then m.keepsAlive || (h.keepAlive && !m.closes) else h.keepAlive
  {
  }

  // How the source spells the word does not matter, and it is not the other one.
  lemma SpelledAlike(value: bytes)
    ensures SameName(value, "Keep-Alive") <==> SameName(value, "keep-alive")
    ensures !(SameName(value, "keep-alive") && SameName(value, "close"))
  {
    NameIs(value, "Keep-Alive", Known(KeepAlive));
    NameIs(value, "keep-alive", Known(KeepAlive));
    assert SameName(value, "close") ==> |value| == 5;
  }

  // The last Connection field that says so decides; without one the version does.
  lemma Persistence(isResp: bool, start: Parts, fields: FieldList)
    ensures var last := LastDecisive(fields);
      InfoOf(isResp, start, fields).keepAlive
      == if last.Some? then SameName(last.value, "keep-alive")
         else !BeforeKeepAlive(if isResp then start.first else start.third)
  {
    hide AllAdded, LastDecisive, SameName, OldVersion, Bodyless;
    LastConnection(Matched(Fresh(isResp).head.info, start), fields);
    OldVersions(if isResp then start.first else start.third);
  }
  // ---------------------------------------------------------------------------------
  // What else the parser notes

  predicate Has(fields: FieldList, field: Field) {
    exists i :: 0 <= i < |fields| && FieldOf(fields[i].0) == field
  }

  predicate AsksToContinue(fields: FieldList) {
    exists i :: 0 <= i < |fields| && FieldOf(fields[i].0) == Expect && SameName(fields[i].1, "100-continue")
  }

  // A field is noted if it is there anywhere, and an expectation if any Expect field says so.
  lemma {:induction false} FieldsNoted(h: Info, fields: FieldList)
    ensures var h' := AllAdded(h, fields);
      && h'.hasConnection == (h.hasConnection || Has(fields, Connection))
      && h'.hasKeepAlive == (h.hasKeepAlive || Has(fields, KeepAlive))
      && h'.hasContentLength == (h.hasContentLength || Has(fields, ContentLength))
      && h'.expectContinue == (h.expectContinue || AsksToContinue(fields))
      && h'.headers == h.headers + fields
    decreases |fields|
  {
    hide Added, SameName, FieldOf;
    if fields == [] {
      assert h.headers + [] == h.headers;
    } else {
      var n := |fields| - 1;
      FieldsNoted(h, fields[..n]);
      AllAddedLast(h, fields);
      NotedAfter(AllAdded(h, fields[..n]), fields[n].0, fields[n].1);
      MoreFields(fields);
      assert h.headers + fields == h.headers + fields[..n] + [fields[n]];
    }
  }

  lemma MoreFields(fields: FieldList)
    requires fields != []
    ensures var n := |fields| - 1;
      && (forall field: Field :: Has(fields, field) <==> Has(fields[..n], field) || FieldOf(fields[n].0) == field)
      && (AsksToContinue(fields) <==> AsksToContinue(fields[..n]) || (FieldOf(fields[n].0) == Expect && SameName(fields[n].1, "100-continue")))
  {
    hide FieldOf, SameName;
    var n := |fields| - 1;
    assert forall i :: 0 <= i < n ==> fields[..n][i] == fields[i];
  }

  lemma NotedAfter(h: Info, name: bytes, value: bytes)
    ensures var h' := Added(h, name, value);
      && h'.hasConnection == (h.hasConnection || FieldOf(name) == Connection)
      && h'.hasKeepAlive == (h.hasKeepAlive || FieldOf(name) == KeepAlive)
      && h'.hasContentLength == (h.hasContentLength || FieldOf(name) == ContentLength)
      && h'.expectContinue == (h.expectContinue || (FieldOf(name) == Expect && SameName(value, "100-continue")))
      && h'.headers == h.headers + [(name, value)]
  {
    hide FieldOf, SameName, IsDigitAt, Decimal, Applied;
    NotedApplied(h.(headers := h.headers + [(name, value)]), FieldOf(name), MeaningOf(value));
  }

  lemma NotedApplied(h: Info, field: Field, m: Meaning)
    ensures var h' := Applied(h, field, m);
      && h'.hasConnection == (h.hasConnection || field.Connection?)
      && h'.hasKeepAlive == (h.hasKeepAlive || field.KeepAlive?)
      && h'.hasContentLength == (h.hasContentLength || field.ContentLength?)
      && h'.expectContinue == (h.expectContinue || (field.Expect? && m.continues))
      && h'.headers == h.headers
  {
    match field
    case Expect => assert Applied(h, field, m).expectContinue == (h.expectContinue || m.continues);
    case Connection =>
    case KeepAlive =>
    case ContentLength =>
    case TransferEncoding =>
    case AnyOther =>
  }
}
