/**
  src/util/HttpUtil.cc: the cursor over the chunks of a parsed body, and its agreement with the
  parser that stepped over them before (section 4.1 of RFC 7230).
 */
module HttpChunks {
  import opened Collections
  import opened HttpSyntax
  import opened HttpParsing

  // ---------------------------------------------------------------------------------
  // What the parser stepped over

  // The end of the chunk-size line
  function LineEnd(s: bytes): nat {
    Find(s, CR)
  }

  // A chunk the parser is done with: the data between its size line and the two bytes after it
  function ChunkBytes(s: bytes): (data: bytes)
    requires ChunkData(s).Done? && !ChunkData(s).value
  {
    ChunkShape(s);
    s[LineEnd(s) + 2..ChunkData(s).used - 2]
  }

  // The size on the line tells how far the parser goes.
  predicate Measured(s: bytes, stage: Stage<bool>)
    requires stage.Done?
  {
    var i := LineEnd(s);
    var (size, digits) := Strtol(s[..i]);
    digits > 0 && if stage.value then size == 0 && stage.used == i + 2
                  else 0 < size < CHUNK_SIZE_MAX && stage.used == size + i + 4 <= |s|
  }

  // What being done with a chunk means
  lemma ChunkShape(s: bytes)
    requires ChunkData(s).Done?
    ensures var i := LineEnd(s); i + 1 < |s| && s[i] == CR
    ensures Measured(s, ChunkData(s))
  {
    ChunkShapeFrom(s, 0);
  }

  lemma {:induction false} ChunkShapeFrom(s: bytes, i: nat)
    requires i <= |s| && ChunkDataFrom(s, i).Done? && CR !in s[..i]
    ensures var j := LineEnd(s); i <= j && j + 1 < |s| && s[j] == CR
    ensures Measured(s, ChunkDataFrom(s, i))
    decreases |s| - i
  {
    if s[i] == CR {
      FindAt(s, CR, i);
    } else {
      assert s[..i + 1] == s[..i] + [s[i]];
      ChunkShapeFrom(s, i + 1);
    }
  }

  // The chunks of a body that the parser went through from offset on, in order
  function Chunks(body: bytes, offset: nat): seq<bytes>
    requires offset <= |body|
    decreases |body| - offset
  {
    var rest := body[offset..];
    ChunkDataStable(rest, rest);
    if ChunkData(rest).Done? && !ChunkData(rest).value
    then [ChunkBytes(rest)] + Chunks(body, offset + ChunkData(rest).used)
    else []
  }

  ghost predicate Accepted(body: bytes, offset: nat)
    requires offset <= |body|
  {
    RunChunks(InData, offset, body) == (ChunksDone, |body|, Finished)
  }

  // No NUL byte in the size line of a chunk; the last size line, which is 0, may hold one.
  predicate CleanLines(body: bytes, offset: nat)
    requires offset <= |body|
    decreases |body| - offset
  {
    var rest := body[offset..];
    ChunkDataStable(rest, rest);
    ChunkData(rest).Done? && !ChunkData(rest).value ==>
      0 !in rest[..LineEnd(rest)] && CleanLines(body, offset + ChunkData(rest).used)
  }

  // A prefix up to the first NUL, as C string functions see it
  function CStr(s: bytes): bytes {
    s[..Find(s, 0)]
  }

  // ---------------------------------------------------------------------------------
  // strtol on the body from a chunk's beginning on finds what it found on the line alone.

  // Up to place n the two sequences are the same, and t has a carriage return there.
  predicate LineOf(line: bytes, t: bytes) {
    |line| < |t| && t[..|line|] == line && t[|line|] == CR
  }

  lemma {:induction false} SkipSpaceLine(line: bytes, t: bytes, p: nat)
    requires LineOf(line, t) && p <= |line| && SkipSpace(line, p) < |line|
    ensures SkipSpace(t, p) == SkipSpace(line, p)
    decreases |line| - p
  {
    assert p < |line| ==> line[p] == t[p];
    if p < |line| && Space(line[p]) { SkipSpaceLine(line, t, p + 1); }
  }

  lemma {:induction false} EndOfDigitsLine(line: bytes, t: bytes, p: nat)
    requires LineOf(line, t) && p <= |line|
    ensures EndOfDigits(t, p) == EndOfDigits(line, p)
    decreases |line| - p
  {
    assert p < |line| ==> line[p] == t[p];
    if IsHexAt(line, p) { EndOfDigitsLine(line, t, p + 1); }
  }

  lemma {:induction false} HexValueLine(line: bytes, t: bytes, p: nat, q: nat)
    requires LineOf(line, t) && p <= q <= |line| && forall k :: p <= k < q ==> IsHexAt(line, k) && IsHexAt(t, k)
    ensures HexValue(t, p, q) == HexValue(line, p, q)
  {
    if p < q {
      assert IsHexAt(line, q - 1) && line[q - 1] == t[q - 1];
      HexValueLine(line, t, p, q - 1);
    }
  }

  lemma StrtolLine(line: bytes, t: bytes)
    requires LineOf(line, t) && Strtol(line).1 > 0
    ensures Strtol(t) == Strtol(line) && Strtol(line).1 <= |line|
  {
    assert forall k :: 0 <= k < |line| ==> line[k] == t[k];
    var a := SkipSpace(line, 0);
    var b := SkipSign(line, a);
    var c := SkipPrefix(line, b);
    assert c < |line|;
    SkipSpaceLine(line, t, 0);
    assert SkipSign(t, a) == b && SkipPrefix(t, b) == c;
    EndOfDigitsLine(line, t, c);
    HexValueLine(line, t, c, EndOfDigits(line, c));
  }

  // The cursor's reading of one chunk is the parser's.
  lemma SameChunk(s: bytes)
    requires ChunkData(s).Done? && 0 !in s[..LineEnd(s)]
    ensures var c := CStr(s); var (size, digits) := Strtol(c);
      && 0 < digits <= LineEnd(s) < |c| && (size == 0 <==> ChunkData(s).value)
      && digits + Find(c[digits..], CR) == LineEnd(s)
      && (size != 0 ==> 0 < size && ChunkData(s).used == LineEnd(s) + size + 4 <= |s|)
  {
    var i, c := LineEnd(s), CStr(s);
    ChunkShape(s);
    var line := s[..i];
    assert forall k :: 0 <= k < i ==> s[k] == line[k];
    assert i < Find(s, 0) by {
      assert forall k :: 0 <= k <= i ==> s[k] != 0;
    }
    assert c[..i] == line && c[i] == CR;
    StrtolLine(line, c);
    var digits := Strtol(c).1;
    var tail := c[digits..];
    assert tail[i - digits] == CR;
    assert CR !in tail[..i - digits] by {
      forall k | 0 <= k < i - digits ensures tail[k] != CR { assert tail[k] == s[..i][digits + k]; }
    }
    FindAt(tail, CR, i - digits);
  }

  // A NUL byte ends the number, whatever follows it.
  lemma {:induction false} SkipSpaceStops(line: bytes, t: bytes, p: nat)
    requires line + [0] <= t && p <= |line|
    ensures SkipSpace(t, p) == SkipSpace(line, p)
    decreases |line| - p
  {
    assert t[|line|] == (line + [0])[|line|] && (p < |line| ==> line[p] == (line + [0])[p] == t[p]);
    if p < |line| && Space(line[p]) { SkipSpaceStops(line, t, p + 1); }
  }

  lemma {:induction false} EndOfDigitsStops(line: bytes, t: bytes, p: nat)
    requires line + [0] <= t && p <= |line|
    ensures EndOfDigits(t, p) == EndOfDigits(line, p)
    decreases |line| - p
  {
    assert t[|line|] == (line + [0])[|line|] && (p < |line| ==> line[p] == (line + [0])[p] == t[p]);
    if IsHexAt(line, p) { EndOfDigitsStops(line, t, p + 1); }
  }

  lemma {:induction false} HexValueStops(line: bytes, t: bytes, p: nat, q: nat)
    requires line + [0] <= t && p <= q <= |line| && forall k :: p <= k < q ==> IsHexAt(line, k) && IsHexAt(t, k)
    ensures HexValue(t, p, q) == HexValue(line, p, q)
  {
    if p < q {
      assert IsHexAt(line, q - 1) && line[q - 1] == (line + [0])[q - 1] == t[q - 1];
      HexValueStops(line, t, p, q - 1);
    }
  }

  lemma StrtolStops(line: bytes, t: bytes)
    requires line + [0] <= t
    ensures Strtol(t) == Strtol(line)
  {
    assert t[|line|] == (line + [0])[|line|] == 0;
    assert forall k :: 0 <= k < |line| ==> line[k] == (line + [0])[k] == t[k];
    var a := SkipSpace(line, 0);
    var b := SkipSign(line, a);
    var c := SkipPrefix(line, b);
    SkipSpaceStops(line, t, 0);
    assert SkipSign(t, a) == b && SkipPrefix(t, b) == c;
    EndOfDigitsStops(line, t, c);
    HexValueStops(line, t, c, EndOfDigits(line, c));
  }

  // Whether or not the line is clean the cursor reads the parser's size.
  lemma SameSize(s: bytes)
    requires ChunkData(s).Done?
    ensures var c := CStr(s); var (size, digits) := Strtol(c);
      && 0 < digits <= LineEnd(s) && digits <= |c| && (size == 0 <==> ChunkData(s).value)
      && (size != 0 ==> 0 < size && ChunkData(s).used == LineEnd(s) + size + 4 <= |s|)
  {
    if 0 !in s[..LineEnd(s)] {
      SameChunk(s);
    } else {
      ChunkShape(s);
      NulFirst(s, LineEnd(s));
      var line, c := s[..LineEnd(s)], CStr(s);
      assert c + [0] == line[..|c| + 1];
      StrtolStops(c, line);
    }
  }

  lemma NulFirst(s: bytes, end: nat)
    requires end <= |s| && 0 in s[..end]
    ensures Find(s, 0) < end && s[Find(s, 0)] == 0
  {
    var k :| 0 <= k < end && s[..end][k] == 0;
    assert forall j :: 0 <= j < Find(s, 0) ==> s[..Find(s, 0)][j] == s[j];
  }

  // The cursor looks for the carriage return with strchr, which a NUL byte stops: it finds one
  // on exactly the clean lines.
  lemma CarriageReturnFoundIffClean(s: bytes)
    requires ChunkData(s).Done?
    ensures var c := CStr(s); var digits := Strtol(c).1;
      digits <= |c| && (CR in c[digits..] <==> 0 !in s[..LineEnd(s)])
  {
    SameSize(s);
    ChunkShape(s);
    var c := CStr(s);
    var digits := Strtol(c).1;
    if 0 !in s[..LineEnd(s)] {
      SameChunk(s);
      assert c[digits..][LineEnd(s) - digits] == CR;
    } else {
      NulFirst(s, LineEnd(s));
      assert forall k :: 0 <= k < |c| - digits ==> c[digits..][k] == s[..LineEnd(s)][digits + k];
    }
  }

  // ---------------------------------------------------------------------------------
  // The cursor over a body

  // What next does at a place (HttpUtil.cc:432-446).  Lost: strchr finds nothing, and the source
  // goes on from the null pointer; Astray: the chunk would run past the body.
  datatype Move = Chunk(data: bytes, next: nat) | End | Lost | Astray

  function Moved(body: bytes, pos: nat): Move
    requires pos <= |body|
  {
    var cur := body[pos..];
    var (size, digits) := Strtol(CStr(cur));
    if size == 0 then End
    else
      var rest := CStr(cur)[digits..];
      var line := digits + Find(rest, CR);
      if CR !in rest then Lost
      else if size < 0 || line + size + 4 > |cur| then Astray
      else Chunk(cur[line + 2..line + 2 + size], pos + line + size + 4)
  }

  // All that the calls of next return from a place on, and whether they get to the end
  function Reads(body: bytes, pos: nat): (seq<bytes>, bool)
    requires pos <= |body|
    decreases |body| - pos
  {
    match Moved(body, pos)
    case Chunk(data, next) => var (more, ends) := Reads(body, next); ([data] + more, ends)
    case End => ([], true)
    case _ => ([], false)
  }

  // Where a cursor over a parsed body may stand
  ghost predicate Standing(body: bytes, pos: nat) {
    pos <= |body| && (body[pos..] == [] || Accepted(body, pos))
  }

  // At a chunk of an accepted body
  lemma Opened(body: bytes, pos: nat)
    requires pos < |body| && Accepted(body, pos)
    ensures var rest := body[pos..]; ChunkData(rest).Done?
    ensures var rest := body[pos..]; !ChunkData(rest).value ==>
      var next := pos + ChunkData(rest).used; next <= |body| && Accepted(body, next)
  {
    hide ChunkData;
    var rest := body[pos..];
    ChunkDataStable(rest, rest);
  }

  lemma NothingLeft(body: bytes, pos: nat)
    requires pos <= |body| && body[pos..] == []
    ensures Moved(body, pos).End? && Chunks(body, pos) == [] && CleanLines(body, pos)
  {
  }

  lemma FirstChunk(body: bytes, pos: nat)
    requires pos <= |body| && ChunkData(body[pos..]).Done? && !ChunkData(body[pos..]).value
    requires pos + ChunkData(body[pos..]).used <= |body|
    ensures var rest := body[pos..]; var next := pos + ChunkData(rest).used;
      && Chunks(body, pos) == [ChunkBytes(rest)] + Chunks(body, next)
      && (CleanLines(body, pos) <==> 0 !in rest[..LineEnd(rest)] && CleanLines(body, next))
  {
    hide ChunkData;
  }

  lemma LastChunk(body: bytes, pos: nat)
    requires pos <= |body| && ChunkData(body[pos..]).Done? && ChunkData(body[pos..]).value
    ensures Chunks(body, pos) == [] && CleanLines(body, pos)
  {
    hide ChunkData;
  }

  // What next makes of a clean line is the parser's chunk and the place behind it, of another
  // nothing, and of the last size line, clean or not, the end.
  lemma MovedChunk(body: bytes, pos: nat)
    requires pos <= |body| && ChunkData(body[pos..]).Done?
    ensures var rest := body[pos..]; var used := ChunkData(rest).used;
      if ChunkData(rest).value then Moved(body, pos) == End
      else if 0 in rest[..LineEnd(rest)] then Moved(body, pos) == Lost
      else pos + used <= |body| && Moved(body, pos) == Chunk(ChunkBytes(rest), pos + used)
  {
    var rest := body[pos..];
    ChunkShape(rest);
    SameSize(rest);
    CarriageReturnFoundIffClean(rest);
    if 0 !in rest[..LineEnd(rest)] { SameChunk(rest); }
    hide ChunkData, CStr, Strtol, Measured, LineEnd;
  }

  lemma Step(body: bytes, pos: nat)
    requires Standing(body, pos)
    ensures pos <= |body|
    ensures var move := Moved(body, pos);
      && !move.Astray?
      && (move.End? ==> Chunks(body, pos) == [] && CleanLines(body, pos))
      && (move.Lost? ==> Chunks(body, pos) != [] && !CleanLines(body, pos))
      && (move.Chunk? ==> pos < move.next && Standing(body, move.next))
      && (move.Chunk? ==> Chunks(body, pos) == [move.data] + Chunks(body, move.next))
      && (move.Chunk? ==> (CleanLines(body, pos) <==> CleanLines(body, move.next)))
  {
    hide ChunkData, Moved, Accepted, CleanLines, Chunks;
    var rest := body[pos..];
    if rest == [] {
      NothingLeft(body, pos);
    } else {
      Opened(body, pos);
      MovedChunk(body, pos);
      ChunkDataStable(rest, rest);
      if ChunkData(rest).value { LastChunk(body, pos); } else { FirstChunk(body, pos); }
    }
  }

  // On any body the parser has accepted the cursor returns the parser's chunks, in order, and gets
  // to the end, if and only if no size line but the last holds a NUL byte; if one does, it
  // returns the chunks before that line.
  lemma {:induction false} ReadsAllIffClean(body: bytes, pos: nat)
    requires Standing(body, pos)
    ensures Reads(body, pos) == (Chunks(body, pos), true) <==> CleanLines(body, pos)
    ensures !CleanLines(body, pos) ==> !Reads(body, pos).1 && Reads(body, pos).0 < Chunks(body, pos)
    decreases |body| - pos
  {
    hide Moved, Accepted, CleanLines, Chunks;
    Step(body, pos);
    var move := Moved(body, pos);
    if move.Chunk? {
      ReadsAllIffClean(body, move.next);
      var more, chunks := Reads(body, move.next).0, Chunks(body, move.next);
      assert [move.data] + more == [move.data] + chunks ==> more == chunks by {
        assert ([move.data] + more)[1..] == more && ([move.data] + chunks)[1..] == chunks;
      }
    }
  }

  // "1 NUL CRLF x CRLF 0 CRLF CRLF" is a body the parser accepts and the cursor is lost on.
  lemma LostOnNul()
    ensures var b: bytes := [49, 0, CR, LF, 120, CR, LF, ZERO, CR, LF, CR, LF];
      Accepted(b, 0) && !CleanLines(b, 0) && Chunks(b, 0) == [[120]] && Reads(b, 0) == ([], false)
  {
    var b: bytes := [49, 0, CR, LF, 120, CR, LF, ZERO, CR, LF, CR, LF];
    OneChunk(b);
    TwoTurns(b);
    Step(b, 0);
    NulFirst(b, 2);
  }

  lemma OneChunk(b: bytes)
    requires b == [49, 0, CR, LF, 120, CR, LF, ZERO, CR, LF, CR, LF]
    ensures ChunkData(b) == Done(false, 7) && LineEnd(b) == 2
    ensures ChunkBytes(b) == [120]
    ensures ChunkData(b[7..]) == Done(true, 3) && TrailerPart(b[10..]) == Done(true, 2)
  {
    FindAt(b, CR, 2);
    assert b[..2] == [49, 0];
    assert EndOfDigits([49, 0], 1) == 1;
    assert HexValue([49, 0], 0, 1) == 1;
    assert Strtol([49, 0]) == (1, 1);
    assert ChunkDataFrom(b, 2) == Done(false, 7);
    assert ChunkDataFrom(b, 1) == Done(false, 7);
    LastLine(b[7..]);
    assert TrailerPartFrom(b[10..], 0) == Done(true, 2);
  }

  lemma LastLine(s: bytes)
    requires s == [ZERO, CR, LF, CR, LF]
    ensures ChunkData(s) == Done(true, 3)
  {
    assert s[..1] == [ZERO];
    assert EndOfDigits([ZERO], 0) == 1;
    assert HexValue([ZERO], 0, 1) == 0;
    assert Strtol([ZERO]) == (0, 1);
    assert ChunkDataFrom(s, 1) == Done(true, 3);
  }

  lemma TwoTurns(b: bytes)
    requires b == [49, 0, CR, LF, 120, CR, LF, ZERO, CR, LF, CR, LF]
    ensures Accepted(b, 0) && Chunks(b, 0) == [[120]]
  {
    OneChunk(b);
    assert b[0..] == b;
    hide ChunkData, TrailerPart, LineEnd;
    assert RunChunks(ChunksDone, 12, b) == (ChunksDone, 12, Finished);
    assert RunChunks(InTrailer, 10, b) == (ChunksDone, 12, Finished);
    assert RunChunks(InData, 7, b) == (ChunksDone, 12, Finished);
    LastChunk(b, 7);
    FirstChunk(b, 0);
  }

  // In the last size line a NUL byte does no harm.
  lemma NulInLastLine()
    ensures var b: bytes := [ZERO, 0, CR, LF, CR, LF]; Accepted(b, 0) && CleanLines(b, 0) && Reads(b, 0) == ([], true)
  {
    var b: bytes := [ZERO, 0, CR, LF, CR, LF];
    assert b[..2] == [ZERO, 0];
    assert EndOfDigits([ZERO, 0], 1) == 1;
    assert HexValue([ZERO, 0], 0, 1) == 0;
    assert Strtol([ZERO, 0]) == (0, 1);
    assert ChunkDataFrom(b, 2) == Done(true, 4);
    assert ChunkDataFrom(b, 1) == Done(true, 4);
    assert TrailerPartFrom(b[4..], 0) == Done(true, 2);
    assert b[0..] == b;
    assert RunChunks(ChunksDone, 6, b) == (ChunksDone, 6, Finished);
    assert RunChunks(InTrailer, 4, b) == (ChunksDone, 6, Finished);
    Step(b, 0);
    MovedChunk(b, 0);
  }

  // What a call of next brings; Gone when the source would go on from a null pointer.
  datatype Outcome = Got(chunk: bytes) | Over | Gone

  class HttpChunkCursor {
    const body: bytes
    var pos: nat
    const chunked: bool
    var end: bool

    // Everything before pos has been returned.
    ghost predicate Valid()
      reads this
    {
      chunked && !end ==> Standing(body, pos)
    }

    // What is still to come
    ghost function Remaining(): seq<bytes>
      requires Valid()
      reads this
    {
      if end then [] else if chunked then Chunks(body, pos) else [body]
    }

    // The cursor will get to the end.
    ghost predicate Readable()
      requires Valid()
      reads this
    {
      chunked && !end ==> CleanLines(body, pos)
    }

    // HttpUtil.cc:404-417, for a message that has been parsed
    constructor (body: bytes, chunked: bool)
      requires chunked ==> body == [] || Accepted(body, 0)
      ensures Valid() && this.body == body && this.chunked == chunked
      ensures Remaining() == if chunked then Chunks(body, 0) else [body]
      ensures Readable() <==> (chunked ==> CleanLines(body, 0))
    {
      this.body := body;
      this.chunked := chunked;
      pos := 0;
      end := false;
    }

    // HttpUtil.cc:419-447
    method Next() returns (outcome: Outcome)
      requires Valid()
      modifies this
      ensures Valid()
      ensures outcome.Over? <==> old(Remaining()) == []
      ensures outcome.Over? ==> Remaining() == [] && old(Readable())
      ensures outcome.Got? ==> old(Remaining()) == [outcome.chunk] + Remaining() && (Readable() <==> old(Readable()))
      ensures outcome.Gone? ==> !old(Readable())
      ensures outcome.Gone? <==> chunked && !old(end) && old(pos) <= |body| && Moved(body, old(pos)).Lost?
    {
      hide Standing, CleanLines, Chunks, CStr, Strtol;
      if end {
        return Over;
      }
      if !chunked {
        end := true;
        return Got(body);
      }
      Step(body, pos);
      var cur := body[pos..];
      var (size, digits) := Strtol(CStr(cur));
      if size == 0 {
        end := true;
        return Over;
      }
      var rest := CStr(cur)[digits..];
      var at := Find(rest, CR);
      if at == |rest| {
        return Gone;
      }
      var line := digits + at;
      var data := cur[line + 2..line + 2 + size];
      pos := pos + line + size + 4;
      return Got(data);
    }
  }

  // decode_chunked_body (HttpUtil.cc:77-94): it comes to an end if and only if the lines are clean,
  // with the concatenation of the chunks.
  method DecodeChunkedBody(body: bytes, chunked: bool) returns (result: Option<bytes>)
    requires chunked ==> body == [] || Accepted(body, 0)
    ensures result.Some? <==> (chunked ==> CleanLines(body, 0))
    ensures result.Some? ==> result.value == if chunked then Flat(Chunks(body, 0)) else body
  {
    hide Standing, Accepted, CleanLines, Chunks, Moved;
    var cursor := new HttpChunkCursor(body, chunked);
    var decoded: bytes := [];
    ghost var all, readable := cursor.Remaining(), cursor.Readable();
    var more := true;
    while more
      invariant cursor.Valid() && cursor.body == body && cursor.chunked == chunked && fresh(cursor)
      invariant decoded + Flat(cursor.Remaining()) == Flat(all) && (more ==> (cursor.Readable() <==> readable))
      invariant !more ==> cursor.Remaining() == [] && readable
      decreases more, |cursor.Remaining()|
    {
      ghost var before := cursor.Remaining();
      var outcome := cursor.Next();
      if outcome.Gone? {
        return None;
      }
      if outcome.Got? {
        assert before[1..] == cursor.Remaining();
        decoded := decoded + outcome.chunk;
      } else {
        more := false;
      }
    }
    assert Flat([body]) == body + Flat([]);
    assert decoded + [] == decoded;
    return Some(decoded);
  }

  // ---------------------------------------------------------------------------------
  // From the parser to the cursor

  lemma {:induction false} Shifted(phase: ChunkPhase, offset: nat, s: bytes, from: nat)
    requires from <= offset <= |s|
    ensures var (phase1, offset1, v) := RunChunks(phase, offset, s);
      RunChunks(phase, offset - from, s[from..]) == (phase1, offset1 - from, v)
    decreases |s| - offset
  {
    if !phase.ChunksDone? {
      var rest := s[offset..];
      assert s[from..][offset - from..] == rest;
      ChunkStepStable(phase, rest, rest);
      if ChunkStep(phase, rest).Done? {
        Shifted(ChunkStep(phase, rest).value, offset + ChunkStep(phase, rest).used, s, from);
      }
    }
  }

  // The body of every message the parser completes in chunks is accepted from its first byte.
  lemma ParsedBodyAccepted(p: Parser)
    requires InBounds(p) && BodyFollows(p) && p.head.info.transferLength == SIZE_MAX && p.head.info.chunked
    requires p.chunkPhase == InData && p.chunkOffset == p.head.offset && RunBody(p).1 == Finished
    ensures var msg := RunBody(p).0.msg; p.head.offset <= |msg| && Accepted(msg[p.head.offset..], 0)
  {
    var from := p.head.offset;
    var (phase, offset, v) := RunChunks(InData, from, p.msg);
    RunChunksWithin(InData, from, p.msg);
    var msg := p.msg[..offset];
    RunChunksSplit(InData, from, msg, p.msg);
    Shifted(InData, from, msg, from);
  }

  // ... however it arrived.
  lemma ChunkedMessageAccepted(isResp: bool, pieces: seq<bytes>)
    requires Feed(Fresh(isResp), pieces).1 == Finished
    ensures var p := Feed(Fresh(isResp), pieces).0;
      p.head.info.transferLength == SIZE_MAX && p.head.info.chunked ==>
        p.head.offset <= |p.msg| && Accepted(p.msg[p.head.offset..], 0)
  {
    var p0 := Fresh(isResp);
    FreshWaiting(isResp);
    AnySplit(p0, pieces);
    var msg := p0.msg + Flat(pieces);
    var (h, v) := RunHead(p0.head, msg);
    RunHeadWithin(p0.head, msg);
    if v == Finished && h.info.transferLength == SIZE_MAX && h.info.chunked {
      var p1 := Settled(p0.(head := h, msg := msg));
      if RunBody(p1).1 == Finished { ParsedBodyAccepted(p1); }
    }
  }
}
