/**
  From one end to the other: a message is encoded, sent as Communicator::send_message does
  (src/net/Communicator.cc:467-487), and parsed by the peer.
 */
module HttpDelivery {
  import opened Collections
  import opened HttpSyntax
  import opened HttpParsing
  import opened HttpRoundTrip
  import opened HttpParserObject
  import opened HttpMessageOut
  import opened SendVectors

  const ENCODE_IOV_MAX := 8192

  // A message the parser is made for, and that says how long its body is
  ghost predicate Sendable(isResp: bool, start: Parts, fields: FieldList, body: bytes) {
    PlainStart(start) && PlainFields(fields) && Sized(InfoOf(isResp, start, fields), body)
  }

  // Fed with the pieces a new parser completes this message, with no byte left over.
  ghost predicate Arrives(isResp: bool, pieces: seq<bytes>, start: Parts, fields: FieldList, body: bytes) {
    var (p, v, n) := Feed(Fresh(isResp), pieces);
    && v == Finished && n == |Flat(pieces)| && StartIs(p.head.info, start) && p.head.info.headers == fields
    && p.head.offset <= |p.msg| && p.msg[p.head.offset..] == body
  }

  // However what was sent is cut up on its way, the message arrives.
  ghost predicate Delivered(sent: bytes, start: Parts, fields: FieldList, body: bytes) {
    forall isResp, pieces :: Sendable(isResp, start, fields, body) && Flat(pieces) == sent ==>
      Arrives(isResp, pieces, start, fields, body)
  }

  // Read as the request or response it is, the start line gives back the fields it was made of.
  ghost predicate ReadsAs(start: Parts, verb: Option<bytes>, uri: Option<bytes>, version: Option<bytes>, code: Option<bytes>, phrase: Option<bytes>) {
    forall h: Info :: StartIs(h, start) && h.isResp == verb.None? ==>
      h.version == version && if h.isResp then h.code == code && h.phrase == phrase else h.verb == verb && h.uri == uri
  }

  lemma EncodedIsDelivered(start: Parts, fields: FieldList, body: bytes)
    ensures Delivered(Encoded(start, fields, body), start, fields, body)
  {
    forall isResp, pieces | Sendable(isResp, start, fields, body) && Flat(pieces) == Encoded(start, fields, body)
      ensures Arrives(isResp, pieces, start, fields, body)
    {
      RoundTripInPieces(isResp, start, fields, body, pieces);
    }
  }

  lemma SentReadsAs(start: Parts, verb: Option<bytes>, uri: Option<bytes>, version: Option<bytes>, code: Option<bytes>, phrase: Option<bytes>)
    requires SentStart(verb, uri, version, code, phrase) == Some(start)
    ensures ReadsAs(start, verb, uri, version, code, phrase)
  {
  }

  // send_message, up to the last write event: the socket takes a prefix of the message, and when the
  // sending is complete all of it, once; then the peer reads what was to be sent.  It is complete
  // if the message can be encoded, no reply is broken and the socket takes everything often enough.
  method Send(message: HttpMessage, sock: Socket, ready: nat) returns (outcome: WriteOutcome)
    requires message.Valid() && AllValid(message.parser.headerList)
    modifies message`outputBody, sock
    ensures old(sock.accepted) <= sock.accepted
    ensures outcome.Complete? ==>
      var q := message.parser; var start := SentStart(q.verb, q.uri, q.version, q.code, q.phrase);
      start.Some? && Delivered(sock.accepted[|old(sock.accepted)|..], start.value, Fields(q.headerList), old(Flat(message.outputBody)))
    ensures outcome.Complete? ==>
      var q := message.parser; ReadsAs(SentStart(q.verb, q.uri, q.version, q.code, q.phrase).value, q.verb, q.uri, q.version, q.code, q.phrase)
    ensures
      var q := message.parser; var start := SentStart(q.verb, q.uri, q.version, q.code, q.phrase);
      && start.Some? && 7 + |q.headerList| < ENCODE_IOV_MAX && old(Sound(sock.replies) == sock.replies) && ready >= old(Blocks(sock.replies))
      && ENCODE_IOV_MAX <= IOV_MAX * old(Calls(sock.replies, |Encoded(start.value, Fields(q.headerList), Flat(message.outputBody))|))
      ==> outcome.Complete?
  {
    hide Delivered, ReadsAs, Encoded, Fields, Flat, SentStart, Left, Breaks, Calls, Sound, Blocks;
    var result, vectors := message.Encode(ENCODE_IOV_MAX);
    if !result.Vectors? {
      return Failed;
    }
    var first := new bytes[result.cnt](i requires 0 <= i < result.cnt reads vectors => vectors[i]);
    assert first[..] == vectors[..result.cnt];
    ghost var q := message.parser;
    ghost var start := SentStart(q.verb, q.uri, q.version, q.code, q.phrase);
    ghost var before, encoded := sock.accepted, Flat(first[..]);
    SentReadsAs(start.value, q.verb, q.uri, q.version, q.code, q.phrase);
    EncodedIsDelivered(start.value, Fields(q.headerList), Flat(message.outputBody));
    if Sound(sock.replies) == sock.replies && ENCODE_IOV_MAX <= IOV_MAX * Calls(sock.replies, |encoded|) {
      CallsSuffice(first[..], sock.replies);
    }
    outcome := SendMessage(sock, first, ready);
    assert outcome.Complete? ==> sock.accepted[|before|..] == encoded;
  }
}
