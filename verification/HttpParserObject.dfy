/**
  src/protocol/http_parser.c: the parser object, its buffers and its scanning loops, proved to
  do what HttpParsing says.
 */
module HttpParserObject {
  import opened Collections
  import opened HttpSyntax
  import opened HttpParsing

  const MSGBUF_INIT_SIZE := 2048

  datatype HeaderState = HPS_START_LINE | HPS_HEADER_NAME | HPS_HEADER_VALUE | HPS_HEADER_COMPLETE

  // struct __header_line: buf may be longer than the line it holds.
  datatype HeaderLine = HeaderLine(nameLen: nat, valueLen: nat, buf: bytes) {
    predicate Valid() {
      && nameLen + valueLen + 4 <= |buf|
      && buf[nameLen] == COLON && buf[nameLen + 1] == SP
      && buf[nameLen + 2 + valueLen] == CR && buf[nameLen + 3 + valueLen] == LF
    }

    function Name(): bytes
      requires Valid()
    {
      buf[..nameLen]
    }

    function Value(): bytes
      requires Valid()
    {
      buf[nameLen + 2..nameLen + 2 + valueLen]
    }

    // What encode sends of it (HttpMessage.cc:150-151)
    function Line(): bytes
      requires Valid()
    {
      buf[..nameLen + 2 + valueLen + 2]
    }
  }

  ghost predicate AllValid(lines: seq<HeaderLine>) {
    forall i :: 0 <= i < |lines| ==> lines[i].Valid()
  }

  ghost function Fields(lines: seq<HeaderLine>): seq<(bytes, bytes)>
    requires AllValid(lines)
  {
    seq(|lines|, i requires 0 <= i < |lines| => (lines[i].Name(), lines[i].Value()))
  }

  class HttpParser {
    var headerState: HeaderState
    var chunkState: ChunkPhase
    var headerOffset: nat
    var chunkOffset: nat
    var contentLength: nat
    var transferLength: nat
    var version: Option<bytes>
    var verb: Option<bytes>
    var uri: Option<bytes>
    var code: Option<bytes>
    var phrase: Option<bytes>
    var headerList: seq<HeaderLine>
    const namebuf: array<byte>
    var msgbuf: array<byte>
    var msgsize: nat
    var hasConnection: bool
    var hasContentLength: bool
    var hasKeepAlive: bool
    var expectContinue: bool
    var keepAlive: bool
    var chunked: bool
    var complete: bool
    const isResp: bool

    ghost predicate Valid()
      reads this, namebuf, msgbuf
    {
      && namebuf.Length == HEADER_NAME_MAX && msgsize <= msgbuf.Length && namebuf != msgbuf
      && AllValid(headerList)
    }

    // The C string in namebuf
    ghost function PendingName(): bytes
      reads namebuf
    {
      namebuf[..Find(namebuf[..], 0)]
    }

    ghost function GetPhase(): Phase
      reads this`headerState, namebuf
    {
      match headerState
      case HPS_START_LINE => InStartLine
      case HPS_HEADER_NAME => InName
      case HPS_HEADER_VALUE => InValue(PendingName())
      case HPS_HEADER_COMPLETE => HeadDone
    }

    ghost function GetInfo(): Info
      requires AllValid(headerList)
      reads this`contentLength, this`transferLength, this`version, this`verb, this`uri, this`code, this`phrase, this`headerList
      reads this`hasConnection, this`hasContentLength, this`hasKeepAlive, this`expectContinue, this`keepAlive, this`chunked
    {
      Info(isResp, contentLength, transferLength, version, verb, uri, code, phrase, Fields(headerList),
           hasConnection, hasContentLength, hasKeepAlive, expectContinue, keepAlive, chunked)
    }

    ghost function GetHead(): Head
      requires Valid()
      reads this, namebuf, msgbuf
    {
      Head(GetPhase(), headerOffset, GetInfo())
    }

    ghost function State(): Parser
      requires Valid()
      reads this, namebuf, msgbuf
    {
      Parser(GetHead(), chunkState, chunkOffset, msgbuf[..msgsize], complete)
    }

    // http_parser_init (http_parser.c:536-559)
    constructor (isResp: bool)
      ensures Valid() && State() == Fresh(isResp) && fresh(namebuf) && fresh(msgbuf)
    {
      this.isResp := isResp;
      headerState, chunkState, headerOffset, chunkOffset := HPS_START_LINE, InData, 0, 0;
      transferLength, contentLength := SIZE_MAX, if isResp then SIZE_MAX else 0;
      version, verb, uri, code, phrase := None, None, None, None, None;
      headerList := [];
      namebuf := new byte[HEADER_NAME_MAX];
      msgbuf := new byte[0];
      msgsize := 0;
      hasConnection, hasContentLength, hasKeepAlive, expectContinue := false, false, false, false;
      keepAlive, chunked, complete := true, false, false;
    }

    // __match_request_line and __match_status_line (http_parser.c:104-175)
    method Match(parts: Parts)
      requires Valid()
      modifies this`keepAlive, this`transferLength, this`version, this`verb, this`uri, this`code, this`phrase
      ensures Valid() && GetInfo() == Matched(old(GetInfo()), parts)
    {
      hide OldVersion, Bodyless, AllValid, Fields;
      if isResp {
        if OldVersion(parts.first) {
          keepAlive := false;
        }
        if Bodyless(parts.second) {
          transferLength := 0;
        }
        version, code, phrase := Some(parts.first), Some(parts.second), Some(parts.third);
      } else {
        if OldVersion(parts.third) {
          keepAlive := false;
        }
        verb, uri, version := Some(parts.first), Some(parts.second), Some(parts.third);
      }
    }

    // The bytes behind ptr
    ghost function Rest(ptr: nat): bytes
      requires Valid() && ptr <= msgsize
      reads this, namebuf, msgbuf
    {
      msgbuf[ptr..msgsize]
    }

    // The scanning loop of __parse_start_line (http_parser.c:237-295)
    method ScanStartLine(ptr: nat) returns (stage: Stage<Option<Parts>>)
      requires Valid() && ptr <= msgsize
      ensures stage == StartLine(Rest(ptr))
    {
      ghost var rest := Rest(ptr);
      var len := msgsize - ptr;
      if len >= 2 && msgbuf[ptr] == CR && msgbuf[ptr + 1] == LF {
        return Done(None, 2);
      }
      var startLine := new byte[START_LINE_MAX];
      var min := if START_LINE_MAX <= len then START_LINE_MAX else len;
      var i := 0;
      while i < min
        invariant 0 <= i <= min && startLine[..i] == rest[..i]
        invariant StartLine(rest) == StartLineFrom(rest, i)
      {
        startLine[i] := msgbuf[ptr + i];
        assert startLine[i] == rest[i] && (i + 1 < len ==> rest[i + 1] == msgbuf[ptr + i + 1]);
        if startLine[i] == CR {
          if i == len - 1 {
            return More;
          }
          if msgbuf[ptr + i + 1] != LF {
            return Bad;
          }
          var line := startLine[..i];
          assert line == rest[..i];
          match SplitLine(line)
          case None => return Bad;
          case Some(parts) => return Done(Some(parts), i + 2);
        }
        if startLine[i] == 0 {
          return Bad;
        }
        i := i + 1;
      }
      if i == START_LINE_MAX {
        return Bad;
      }
      return More;
    }

    // __parse_start_line (http_parser.c:234-295)
    method ParseStartLine() returns (ret: int)
      requires Valid() && headerOffset <= msgsize && headerState == HPS_START_LINE
      modifies this`headerOffset, this`headerState
      modifies this`keepAlive, this`transferLength, this`version, this`verb, this`uri, this`code, this`phrase
      ensures Valid() && Answers(ret, HeadStep(old(GetHead()), Rest(old(headerOffset))), old(GetHead()), GetHead())
    {
      var stage := ScanStartLine(headerOffset);
      match stage
      case More => return 0;
      case Bad => return -2;
      case Done(None, used) =>
        headerOffset := headerOffset + used;
        return 1;
      case Done(Some(parts), used) =>
        Match(parts);
        headerOffset := headerOffset + used;
        headerState := HPS_HEADER_NAME;
        return 1;
    }

    // The scanning loop of __parse_header_name (http_parser.c:300-329)
    method ScanHeaderName(ptr: nat) returns (stage: Stage<Option<bytes>>)
      requires Valid() && ptr <= msgsize
      modifies namebuf
      ensures Valid() && stage == HeaderName(Rest(ptr))
      ensures stage.Done? && stage.value.Some? ==> PendingName() == stage.value.value
    {
      ghost var rest := Rest(ptr);
      var len := msgsize - ptr;
      if len >= 2 && msgbuf[ptr] == CR && msgbuf[ptr + 1] == LF {
        return Done(None, 2);
      }
      var min := if HEADER_NAME_MAX <= len then HEADER_NAME_MAX else len;
      var i := 0;
      while i < min
        invariant 0 <= i <= min && namebuf[..i] == rest[..i] && 0 !in rest[..i]
        invariant HeaderName(rest) == HeaderNameFrom(rest, i)
      {
        assert msgbuf[ptr + i] == rest[i];
        if msgbuf[ptr + i] == COLON {
          namebuf[i] := 0;
          assert namebuf[..i] == rest[..i];
          CString(namebuf[..], i);
          return Done(Some(namebuf[..i]), i + 1);
        }
        if NotText(msgbuf[ptr + i]) {
          return Bad;
        }
        namebuf[i] := msgbuf[ptr + i];
        i := i + 1;
      }
      if i == HEADER_NAME_MAX {
        return Bad;
      }
      return More;
    }

    // __parse_header_name (http_parser.c:297-330)
    method ParseHeaderName() returns (ret: int)
      requires Valid() && headerOffset <= msgsize && headerState == HPS_HEADER_NAME
      modifies this`headerOffset, this`headerState, namebuf
      ensures Valid() && Answers(ret, HeadStep(old(GetHead()), Rest(old(headerOffset))), old(GetHead()), GetHead())
    {
      var stage := ScanHeaderName(headerOffset);
      match stage
      case More => return 0;
      case Bad => return -2;
      case Done(name, used) =>
        headerOffset := headerOffset + used;
        headerState := if name.None? then HPS_HEADER_COMPLETE else HPS_HEADER_VALUE;
        return 1;
    }

    // The first inner loop of __parse_header_value (http_parser.c:342-351): to the next byte
    // that is no blank, or the end.
    method SkipBlanks(ptr: nat, p0: nat, ghost acc: bytes) returns (p: nat)
      requires Valid() && ptr <= msgsize && p0 <= msgsize - ptr
      ensures p0 <= p <= msgsize - ptr && (p < msgsize - ptr ==> !Blank(msgbuf[ptr + p]))
      ensures ValueLine(Rest(ptr), p0, acc) == ValueLine(Rest(ptr), p, acc)
    {
      p := p0;
      while p < msgsize - ptr && Blank(msgbuf[ptr + p])
        invariant p0 <= p <= msgsize - ptr
        invariant ValueLine(Rest(ptr), p0, acc) == ValueLine(Rest(ptr), p, acc)
      {
        assert Rest(ptr)[p] == msgbuf[ptr + p];
        p := p + 1;
      }
    }

    // The second one (http_parser.c:353-369): text up to a carriage return, appended to value.
    method ScanText(ptr: nat, p0: nat, value: array<byte>, i0: nat) returns (p: nat, i: nat, stop: Option<Stage<bytes>>)
      requires Valid() && ptr <= msgsize && p0 < msgsize - ptr
      requires value.Length == HEADER_VALUE_MAX && i0 <= value.Length && value != msgbuf && value != namebuf
      modifies value
      ensures p < msgsize - ptr && i <= value.Length
      ensures stop.Some? ==> ValueText(Rest(ptr), p0, old(value[..i0])) == stop.value
      ensures stop.None? ==> p0 < p && i < value.Length
      ensures stop.None? ==> ValueText(Rest(ptr), p0, old(value[..i0])) == ValueEnd(Rest(ptr), p, value[..i])
    {
      ghost var rest, goal := Rest(ptr), ValueText(Rest(ptr), p0, value[..i0]);
      p, i := p0, i0;
      while true
        invariant p0 <= p < msgsize - ptr && i <= value.Length && rest == Rest(ptr)
        invariant goal == ValueText(rest, p, value[..i])
        decreases msgsize - ptr - p
      {
        if i == HEADER_VALUE_MAX {
          return p, i, Some(Bad);
        }
        ghost var acc := value[..i];
        value[i] := msgbuf[ptr + p];
        assert value[..i] == acc && value[i] == rest[p];
        if p + 1 == msgsize - ptr {
          return p, i, Some(More);
        }
        p := p + 1;
        if value[i] == CR {
          return p, i, None;
        }
        if NotText(value[i]) {
          return p, i, Some(Bad);
        }
        assert value[..i + 1] == acc + [value[i]];
        i := i + 1;
      }
    }

    // http_parser.c:379-385
    method TrimBlanks(value: array<byte>, i0: nat) returns (i: nat)
      requires i0 <= value.Length
      ensures i <= i0 && value[..i] == TrimRight(value[..i0])
    {
      i := i0;
      while i > 0 && Blank(value[i - 1])
        invariant i <= i0 && TrimRight(value[..i]) == TrimRight(value[..i0])
      {
        assert value[..i][..i - 1] == value[..i - 1];
        i := i - 1;
      }
    }

    // __parse_header_value up to the value (http_parser.c:335-394)
    method ScanHeaderValue(ptr: nat) returns (stage: Stage<bytes>)
      requires Valid() && ptr <= msgsize
      ensures stage == HeaderValue(Rest(ptr))
    {
      var headerValue := new byte[HEADER_VALUE_MAX];
      ghost var rest := Rest(ptr);
      var p, i := 0, 0;
      assert headerValue[..0] == [];
      while true
        invariant p <= msgsize - ptr && i <= HEADER_VALUE_MAX && rest == Rest(ptr)
        invariant HeaderValue(rest) == ValueLine(rest, p, headerValue[..i])
        decreases msgsize - ptr - p
      {
        ghost var acc := headerValue[..i];
        ghost var p0 := p;
        p := SkipBlanks(ptr, p, acc);
        if p == msgsize - ptr {
          return More;
        }
        assert rest[p] == msgbuf[ptr + p];
        var stop;
        p, i, stop := ScanText(ptr, p, headerValue, i);
        if stop.Some? {
          return stop.value;
        }
        assert rest[p] == msgbuf[ptr + p];
        if msgbuf[ptr + p] != LF {
          return Bad;
        }
        if p + 1 == msgsize - ptr {
          return More;
        }
        i := TrimBlanks(headerValue, i);
        assert rest[p + 1] == msgbuf[ptr + p + 1];
        if !Blank(msgbuf[ptr + p + 1]) {
          return Done(headerValue[..i], p + 1);
        }
        ghost var trimmed := headerValue[..i];
        headerValue[i] := SP;
        assert headerValue[..i + 1] == trimmed + [SP];
        p, i := p + 2, i + 1;
      }
    }

    // ---------------------------------------------------------------------------------
    // Header fields

    // __add_message_header (http_parser.c:38-62)
    method AddMessageHeader(name: bytes, value: bytes)
      requires AllValid(headerList)
      modifies this`headerList
      ensures AllValid(headerList) && Fields(headerList) == old(Fields(headerList)) + [(name, value)]
    {
      var line := NewLine(name, value);
      headerList := headerList + [line];
    }

    // __set_message_header (http_parser.c:64-102)
    method SetMessageHeader(name: bytes, value: bytes)
      requires AllValid(headerList)
      modifies this`headerList
      ensures AllValid(headerList) && Fields(headerList) == FieldSet(old(Fields(headerList)), name, value)
      ensures IsSet(old(Fields(headerList)), Fields(headerList), name, value)
    {
      hide IsSet;
      ghost var fields := Fields(headerList);
      FieldSetSets(fields, name, value);
      var i := 0;
      while i < |headerList|
        invariant i <= |headerList| == |fields| && headerList == old(headerList)
        invariant forall j :: 0 <= j < i ==> Folded(fields[j].0) != Folded(name)
      {
        var line := headerList[i];
        assert fields[i] == (line.Name(), line.Value());
        if line.nameLen == |name| && Folded(line.buf[..line.nameLen]) == Folded(name) {
          if |value| > line.valueLen {
            headerList := headerList[i := NewLine(name, value)];
          } else {
            headerList := headerList[i := Rewritten(line, value)];
          }
          assert FieldAt(fields, name) == i;
          assert headerList[i].Value() == value;
          return;
        }
        assert |Folded(fields[i].0)| == |fields[i].0| && |Folded(name)| == |name|;
        i := i + 1;
      }
      AddMessageHeader(name, value);
    }

    // An Expect field (http_parser.c:186-187)
    method CheckExpect(value: bytes)
      modifies this`expectContinue
      ensures expectContinue <==> old(expectContinue) || MeaningOf(value).continues
    {
      hide Strncasecmp, MeaningOf;
      ValueByLength(value);
      if |value| == 12 && Strncasecmp(value, "100-continue", 12) {
        expectContinue := true;
      }
    }

    // A Connection or a Keep-Alive field, or another one of that length (http_parser.c:192-204)
    method CheckConnection(name: bytes, value: bytes)
      requires |name| == 10
      modifies this`hasConnection, this`keepAlive, this`hasKeepAlive
      ensures FieldOf(name).Connection? || FieldOf(name).KeepAlive? || FieldOf(name).AnyOther?
      ensures hasConnection <==> old(hasConnection) || FieldOf(name).Connection?
      ensures hasKeepAlive <==> old(hasKeepAlive) || FieldOf(name).KeepAlive?
      ensures FieldOf(name).Connection? ==> (keepAlive <==> MeaningOf(value).keepsAlive || (old(keepAlive) && !MeaningOf(value).closes))
      ensures !FieldOf(name).Connection? ==> keepAlive == old(keepAlive)
    {
      hide Strncasecmp, FieldOf, MeaningOf;
      NameByLength(name);
      ValueByLength(value);
      if Strncasecmp(name, "Connection", 10) {
        hasConnection := true;
        if |value| == 10 && Strncasecmp(value, "Keep-Alive", 10) {
          keepAlive := true;
        } else if |value| == 5 && Strncasecmp(value, "close", 5) {
          keepAlive := false;
        }
      } else if Strncasecmp(name, "Keep-Alive", 10) {
        hasKeepAlive := true;
      }
    }

    // A Content-Length field (http_parser.c:209-216)
    method CheckContentLength(value: bytes)
      modifies this`hasContentLength, this`contentLength
      ensures hasContentLength
      ensures contentLength == if MeaningOf(value).length.Some? then MeaningOf(value).length.value else old(contentLength)
    {
      hasContentLength := true;
      if IsDigitAt(value, 0) && |value| <= 15 {
        contentLength := Decimal(value, 0, 0);
      }
    }

    // A Transfer-Encoding field (http_parser.c:224-227)
    method CheckTransferEncoding(value: bytes)
      modifies this`chunked
      ensures chunked <==> !MeaningOf(value).identity
    {
      hide Strncasecmp, MeaningOf;
      ValueByLength(value);
      if |value| != 8 || !Strncasecmp(value, "identity", 8) {
        chunked := true;
      } else {
        chunked := false;
      }
    }

    // __check_message_header (http_parser.c:177-232)
    method CheckMessageHeader(name: bytes, value: bytes)
      requires Valid()
      modifies this`expectContinue, this`hasConnection, this`keepAlive, this`hasKeepAlive, this`hasContentLength
      modifies this`contentLength, this`chunked
      ensures Valid() && GetInfo() == Checked(old(GetInfo()), name, value)
    {
      hide FieldOf, MeaningOf, Strncasecmp, AllValid, Fields;
      NameByLength(name);
      if |name| == 6 {
        if Strncasecmp(name, "Expect", 6) {
          CheckExpect(value);
        }
      } else if |name| == 10 {
        CheckConnection(name, value);
      } else if |name| == 14 {
        if Strncasecmp(name, "Content-Length", 14) {
          CheckContentLength(value);
        }
      } else if |name| == 17 {
        if Strncasecmp(name, "Transfer-Encoding", 17) {
          CheckTransferEncoding(value);
        }
      }
    }

    // http_parser_add_header (http_parser.c:720-733)
    method AddHeader(name: bytes, value: bytes)
      requires Valid()
      modifies this`expectContinue, this`hasConnection, this`keepAlive, this`hasKeepAlive, this`hasContentLength
      modifies this`contentLength, this`chunked, this`headerList
      ensures Valid() && GetInfo() == Added(old(GetInfo()), name, value)
    {
      ghost var h := GetInfo();
      AddMessageHeader(name, value);
      assert GetInfo() == h.(headers := h.headers + [(name, value)]);
      CheckMessageHeader(name, value);
    }

    // http_parser_set_header (http_parser.c:735-748)
    method SetHeader(name: bytes, value: bytes)
      requires Valid()
      modifies this`expectContinue, this`hasConnection, this`keepAlive, this`hasKeepAlive, this`hasContentLength
      modifies this`contentLength, this`chunked, this`headerList
      ensures Valid() && GetInfo() == Checked(old(GetInfo()).(headers := FieldSet(old(GetInfo()).headers, name, value)), name, value)
    {
      ghost var h := GetInfo();
      SetMessageHeader(name, value);
      assert GetInfo() == h.(headers := FieldSet(h.headers, name, value));
      CheckMessageHeader(name, value);
    }

    // __parse_header_value (http_parser.c:332-402)
    method ParseHeaderValue() returns (ret: int)
      requires Valid() && headerOffset <= msgsize && headerState == HPS_HEADER_VALUE
      modifies this`headerOffset, this`headerState
      modifies this`expectContinue, this`hasConnection, this`keepAlive, this`hasKeepAlive, this`hasContentLength
      modifies this`contentLength, this`chunked, this`headerList
      ensures Valid() && Answers(ret, HeadStep(old(GetHead()), Rest(old(headerOffset))), old(GetHead()), GetHead())
    {
      hide HeaderValue, AllValid, Fields, Added, Find;
      var stage := ScanHeaderValue(headerOffset);
      match stage
      case More => return 0;
      case Bad => return -2;
      case Done(value, used) =>
        AddHeader(namebuf[..Find(namebuf[..], 0)], value);
        headerOffset := headerOffset + used;
        headerState := HPS_HEADER_NAME;
        return 1;
    }

    // __parse_message_header (http_parser.c:404-428)
    method ParseMessageHeader() returns (ret: int)
      requires Valid() && headerOffset <= msgsize && headerState != HPS_HEADER_COMPLETE
      modifies this`headerOffset, this`headerState, namebuf
      modifies this`keepAlive, this`transferLength, this`version, this`verb, this`uri, this`code, this`phrase
      modifies this`expectContinue, this`hasConnection, this`hasKeepAlive, this`hasContentLength
      modifies this`contentLength, this`chunked, this`headerList
      ensures Valid() && msgbuf[..msgsize] == old(msgbuf[..msgsize])
      ensures GetHead() == RunHead(old(GetHead()), msgbuf[..msgsize]).0
      ensures ret == Code(RunHead(old(GetHead()), msgbuf[..msgsize]).1)
    {
      hide GetInfo, AllValid;
      ghost var h0, msg := GetHead(), msgbuf[..msgsize];
      ret := 1;
      while ret > 0
        invariant Valid() && msgbuf[..msgsize] == msg && headerOffset <= msgsize && headerState != HPS_HEADER_COMPLETE
        invariant ret > 0 ==> RunHead(h0, msg) == RunHead(GetHead(), msg)
        invariant ret <= 0 ==> RunHead(h0, msg).0 == GetHead() && ret == Code(RunHead(h0, msg).1)
        decreases ret > 0, msgsize - headerOffset
      {
        ghost var h := GetHead();
        ghost var offset := headerOffset;
        assert Rest(offset) == msg[offset..];
        HeadStepStable(h, msg[offset..], msg[offset..]);
        if headerState == HPS_START_LINE {
          ret := ParseStartLine();
        } else if headerState == HPS_HEADER_VALUE {
          ret := ParseHeaderValue();
        } else {
          ret := ParseHeaderName();
          if headerState == HPS_HEADER_COMPLETE {
            return 1;
          }
        }
      }
    }

    // ---------------------------------------------------------------------------------
    // Chunks

    // __parse_chunk_data up to the offset (http_parser.c:435-479)
    method ScanChunkData(ptr: nat) returns (stage: Stage<bool>)
      requires Valid() && ptr <= msgsize
      ensures stage == ChunkData(Rest(ptr))
    {
      ghost var rest := Rest(ptr);
      var chunkLine := new byte[CHUNK_LINE_MAX];
      var len := msgsize - ptr;
      var min := if CHUNK_LINE_MAX <= len then CHUNK_LINE_MAX else len;
      var i := 0;
      while i < min
        invariant 0 <= i <= min && chunkLine[..i] == rest[..i]
        invariant ChunkData(rest) == ChunkDataFrom(rest, i)
      {
        chunkLine[i] := msgbuf[ptr + i];
        assert chunkLine[i] == rest[i];
        if chunkLine[i] == CR {
          if i == len - 1 {
            return More;
          }
          if msgbuf[ptr + i + 1] != LF {
            return Bad;
          }
          assert chunkLine[..i] == rest[..i];
          var (size, digits) := Strtol(chunkLine[..i]);
          if digits == 0 {
            return Bad;
          }
          if size == 0 {
            return Done(true, i + 2);
          }
          if size < 0 || size >= CHUNK_SIZE_MAX {
            return Bad;
          }
          if len < size + i + 4 {
            return More;
          }
          return Done(false, size + i + 4);
        }
        i := i + 1;
      }
      if i == CHUNK_LINE_MAX {
        return Bad;
      }
      return More;
    }

    // __parse_trailer_part up to the offset (http_parser.c:485-509)
    method ScanTrailerPart(ptr: nat) returns (stage: Stage<bool>)
      requires Valid() && ptr <= msgsize
      ensures stage == TrailerPart(Rest(ptr))
    {
      ghost var rest := Rest(ptr);
      var len := msgsize - ptr;
      var min := if TRAILER_LINE_MAX <= len then TRAILER_LINE_MAX else len;
      var i := 0;
      while i < min
        invariant 0 <= i <= min
        invariant TrailerPart(rest) == TrailerPartFrom(rest, i)
      {
        assert msgbuf[ptr + i] == rest[i];
        if msgbuf[ptr + i] == CR {
          if i == len - 1 {
            return More;
          }
          assert msgbuf[ptr + i + 1] == rest[i + 1];
          if msgbuf[ptr + i + 1] != LF {
            return Bad;
          }
          return Done(i == 0, i + 2);
        }
        i := i + 1;
      }
      if i == TRAILER_LINE_MAX {
        return Bad;
      }
      return More;
    }

    // __parse_chunk (http_parser.c:512-534)
    method ParseChunk() returns (ret: int)
      requires Valid() && chunkOffset <= msgsize && !chunkState.ChunksDone?
      modifies this`chunkOffset, this`chunkState
      ensures Valid()
      ensures (chunkState, chunkOffset, VerdictOf(ret)) == RunChunks(old(chunkState), old(chunkOffset), msgbuf[..msgsize])
    {
      ghost var msg := msgbuf[..msgsize];
      ghost var phase0, offset0 := chunkState, chunkOffset;
      while true
        invariant Valid() && chunkOffset <= msgsize && !chunkState.ChunksDone?
        invariant RunChunks(phase0, offset0, msg) == RunChunks(chunkState, chunkOffset, msg)
        decreases msgsize - chunkOffset
      {
        assert Rest(chunkOffset) == msg[chunkOffset..];
        ChunkStepStable(chunkState, Rest(chunkOffset), Rest(chunkOffset));
        var stage;
        if chunkState.InData? {
          stage := ScanChunkData(chunkOffset);
        } else {
          stage := ScanTrailerPart(chunkOffset);
        }
        match stage {
          case More => return 0;
          case Bad => return -2;
          case Done(last, used) =>
            chunkOffset := chunkOffset + used;
            if chunkState.InData? {
              chunkState := if last then InTrailer else InData;
            } else if last {
              chunkState := ChunksDone;
              return 1;
            }
        }
      }
    }

    // ---------------------------------------------------------------------------------

    // The buffer made large enough (http_parser.c:572-586)
    method Reserve(n: nat)
      requires Valid()
      modifies this`msgbuf
      ensures Valid() && msgsize + n + 1 <= msgbuf.Length && msgbuf[..msgsize] == old(msgbuf[..msgsize])
      ensures msgbuf == old(msgbuf) || fresh(msgbuf)
    {
      if msgsize + n + 1 > msgbuf.Length {
        var newSize := if MSGBUF_INIT_SIZE >= 2 * msgbuf.Length then MSGBUF_INIT_SIZE else 2 * msgbuf.Length;
        while newSize < msgsize + n + 1
          invariant newSize > 0
          decreases msgsize + n + 1 - newSize
        {
          newSize := newSize * 2;
        }
        var newBase := new byte[newSize];
        forall i | 0 <= i < msgsize {
          newBase[i] := msgbuf[i];
        }
        msgbuf := newBase;
      }
    }

    // http_parser.c:572-589
    method Store(buf: bytes)
      requires Valid()
      modifies this`msgbuf, this`msgsize, msgbuf
      ensures Valid() && msgsize == old(msgsize) + |buf| && msgbuf[..msgsize] == old(msgbuf[..msgsize]) + buf
      ensures msgbuf == old(msgbuf) || fresh(msgbuf)
      ensures GetHead() == old(GetHead())
    {
      Reserve(|buf|);
      ghost var msg := msgbuf[..msgsize];
      forall i | 0 <= i < |buf| {
        msgbuf[msgsize + i] := buf[i];
      }
      assert msgbuf[..msgsize] == msg;
      assert msgbuf[msgsize..msgsize + |buf|] == buf;
      assert msgbuf[..msgsize + |buf|] == msgbuf[..msgsize] + msgbuf[msgsize..msgsize + |buf|];
      msgsize := msgsize + |buf|;
    }

    // http_parser.c:596-602
    method Settle()
      requires Valid()
      modifies this`chunkOffset, this`chunkState, this`transferLength
      ensures Valid() && State() == Settled(old(State()))
    {
      if chunked {
        chunkOffset := headerOffset;
        chunkState := InData;
      } else if transferLength == SIZE_MAX {
        transferLength := contentLength;
      }
    }

    // http_parser.c:605-633
    method FinishBody(n0: int) returns (ret: int, n: int)
      requires Valid() && headerOffset <= msgsize && chunkOffset <= msgsize
      modifies this`chunkOffset, this`chunkState, this`msgsize, this`complete
      ensures Valid() && (State(), VerdictOf(ret)) == RunBody(old(State()))
      ensures n == if ret > 0 then n0 - (old(msgsize) - msgsize) else n0
    {
      hide RunChunks, PendingName, AllValid, Fields;
      ghost var p := State();
      RunChunksWithin(chunkState, chunkOffset, p.msg);
      AtTheEnd(chunkOffset, p.msg);
      if transferLength != SIZE_MAX {
        var total := headerOffset + transferLength;
        if msgsize >= total {
          n := n0 - (msgsize - total);
          assert msgbuf[..total] == msgbuf[..msgsize][..total];
          msgsize := total;
          complete := true;
          return 1, n;
        }
        return 0, n0;
      }
      if !chunked {
        return 0, n0;
      }
      if !chunkState.ChunksDone? {
        ret := ParseChunk();
        if ret <= 0 {
          return ret, n0;
        }
      }
      n := n0 - (msgsize - chunkOffset);
      assert msgbuf[..chunkOffset] == msgbuf[..msgsize][..chunkOffset];
      msgsize := chunkOffset;
      complete := true;
      return 1, n;
    }

    // http_parser_append_message (http_parser.c:561-634): the return value, and *n afterwards
    method AppendMessage(buf: bytes) returns (ret: int, n: int)
      requires Valid() && InBounds(State())
      modifies this, namebuf, msgbuf
      ensures Valid() && (State(), VerdictOf(ret), n) == Append(old(State()), buf)
      ensures msgbuf == old(msgbuf) || fresh(msgbuf)
    {
      hide GetInfo, PendingName, AllValid, RunBody;
      ghost var p := State();
      if complete {
        return 1, 0;
      }
      Store(buf);
      ghost var msg := msgbuf[..msgsize];
      RunHeadWithin(p.head, msg);
      assert p.head.phase.HeadDone? ==> RunHead(p.head, msg) == (p.head, Finished);
      hide RunHead;
      if headerState != HPS_HEADER_COMPLETE {
        ret := ParseMessageHeader();
        assert State() == p.(head := RunHead(p.head, msg).0, msg := msg);
        if ret <= 0 {
          return ret, |buf|;
        }
        Settle();
      }
      ret, n := FinishBody(|buf|);
    }
  }

  // strncasecmp(a, b, n) == 0, where neither ends before its n-th byte
  predicate Strncasecmp(a: bytes, b: string, n: nat)
    requires n <= |a| && n <= |b|
  {
    forall i :: 0 <= i < n ==> Lower(a[i]) == Lower(Text(b)[i])
  }

  // Over the whole length that is the names being the same in any case.
  lemma ComparedWhole(a: bytes, b: string)
    ensures SameName(a, b) <==> |a| == |b| && Strncasecmp(a, b, |b|)
  {
    var c := Text(b);
    if SameName(a, b) {
      forall i | 0 <= i < |b| ensures Lower(a[i]) == Lower(c[i]) {
        assert Folded(a)[i] == Folded(c)[i];
      }
    }
  }

  // The length tells which names are to be compared; no two names are the same.
  lemma NameByLength(name: bytes)
    ensures FieldOf(name) ==
      if |name| == 6 && Strncasecmp(name, "Expect", 6) then Expect
      else if |name| == 10 && Strncasecmp(name, "Connection", 10) then Connection
      else if |name| == 10 && Strncasecmp(name, "Keep-Alive", 10) then KeepAlive
      else if |name| == 14 && Strncasecmp(name, "Content-Length", 14) then ContentLength
      else if |name| == 17 && Strncasecmp(name, "Transfer-Encoding", 17) then TransferEncoding
      else AnyOther
  {
    ComparedWhole(name, "Expect");
    ComparedWhole(name, "Connection");
    ComparedWhole(name, "Keep-Alive");
    ComparedWhole(name, "Content-Length");
    ComparedWhole(name, "Transfer-Encoding");
    hide SameName, Strncasecmp;
  }

  lemma ValueByLength(value: bytes)
    ensures var m := MeaningOf(value);
      && (m.continues <==> |value| == 12 && Strncasecmp(value, "100-continue", 12))
      && (m.keepsAlive <==> |value| == 10 && Strncasecmp(value, "Keep-Alive", 10))
      && (m.closes <==> |value| == 5 && Strncasecmp(value, "close", 5))
      && (m.identity <==> |value| == 8 && Strncasecmp(value, "identity", 8))
      && m.length == if IsDigitAt(value, 0) && |value| <= 15 then Some(Decimal(value, 0, 0)) else None
  {
    ComparedWhole(value, "100-continue");
    ComparedWhole(value, "Keep-Alive");
    ComparedWhole(value, "close");
    ComparedWhole(value, "identity");
    hide SameName, Strncasecmp;
  }

  lemma AtTheEnd(offset: nat, s: bytes)
    requires offset <= |s|
    ensures RunChunks(ChunksDone, offset, s) == (ChunksDone, offset, Finished)
  {
  }

  function VerdictOf(ret: int): Verdict {
    if ret > 0 then Finished else if ret == 0 then NeedMore else Refused
  }

  // The return value of a verdict
  function Code(v: Verdict): int {
    match v
    case NeedMore => 0
    case Refused => -2
    case Finished => 1
  }

  function NewLine(name: bytes, value: bytes): (line: HeaderLine)
    ensures line.Valid() && line.Name() == name && line.Value() == value
  {
    HeaderLine(|name|, |value|, name + [COLON, SP] + value + [CR, LF])
  }

  // A value no longer than the old one, written over it (http_parser.c:93-96)
  function Rewritten(line: HeaderLine, value: bytes): (line': HeaderLine)
    requires line.Valid() && |value| <= line.valueLen
    ensures line'.Valid() && line'.Name() == line.Name() && line'.Value() == value
  {
    var at := line.nameLen + 2;
    HeaderLine(line.nameLen, |value|, line.buf[..at] + value + [CR, LF] + line.buf[at + |value| + 2..])
  }

  // Whatever was set before, a line reads as name, colon, space, value, CRLF.
  lemma LineReads(line: HeaderLine)
    requires line.Valid()
    ensures line.Line() == line.Name() + [COLON, SP] + line.Value() + [CR, LF]
  {
    var at := line.nameLen + 2 + line.valueLen;
    assert line.buf[..at + 2] == line.buf[..at] + [line.buf[at], line.buf[at + 1]];
    assert line.buf[..at] == line.buf[..line.nameLen + 2] + line.Value();
    assert line.buf[..line.nameLen + 2] == line.Name() + [line.buf[line.nameLen], line.buf[line.nameLen + 1]];
  }

  lemma CString(s: bytes, i: nat)
    requires i < |s| && s[i] == 0 && 0 !in s[..i]
    ensures Find(s, 0) == i
  {
    var j := Find(s, 0);
    assert forall k :: 0 <= k < i ==> s[k] == s[..i][k];
    assert forall k :: 0 <= k < j ==> s[k] == s[..j][k];
  }

  // What a stage's return value means: the step taken, nothing yet, or never.
  ghost predicate Answers(ret: int, stage: Stage<Head>, before: Head, after: Head) {
    match stage
    case More => ret == 0 && after == before
    case Bad => ret == -2 && after == before
    case Done(h, _) => ret == 1 && after == h
  }
}
