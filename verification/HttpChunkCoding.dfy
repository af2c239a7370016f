/**
  The chunked coding (section 4.1 of RFC 7230) against what reads it: a body put together from
  blocks is stepped over by the parser and cut up again by the cursor as it was.
 */
module HttpChunkCoding {
  import opened Collections
  import opened HttpSyntax
  import opened HttpParsing
  import opened HttpChunks

  // ---------------------------------------------------------------------------------
  // Hexadecimal numbers

  // The digit of that value, in either case
  predicate IsHexOf(c: byte, d: nat) {
    (d < 10 && c == 48 + d) || (10 <= d < 16 && (c == 55 + d || c == 87 + d))
  }

  // The digits come from repeated division by sixteen.
  predicate Spells(s: bytes, n: nat)
    decreases n
  {
    if n < 16 then |s| == 1 && IsHexOf(s[0], n)
    else |s| > 1 && Spells(s[..|s| - 1], n / 16) && IsHexOf(s[|s| - 1], n % 16)
  }

  function HexDigits(n: nat, upper: bool): (s: bytes)
    ensures Spells(s, n)
  {
    var d := n % 16;
    var c: byte := if d < 10 then 48 + d else if upper then 55 + d else 87 + d;
    if n < 16 then [c]
    else
      var more := HexDigits(n / 16, upper);
      assert (more + [c])[..|more|] == more;
      more + [c]
  }

  lemma HexOfDigit(c: byte, d: nat)
    requires IsHexOf(c, d)
    ensures HexDigit(c) == Some(d) && !Space(c) && c != 43 && c != 45 && c != 120 && c != 88 && c != CR && c != 0
  {
  }

  lemma {:induction false} SpelledDigits(s: bytes, n: nat)
    requires Spells(s, n)
    ensures s != [] && forall i :: 0 <= i < |s| ==> HexDigit(s[i]).Some? && IsHexOf(s[i], HexDigit(s[i]).value)
    decreases n
  {
    if n < 16 {
      HexOfDigit(s[0], n);
    } else {
      var more := s[..|s| - 1];
      SpelledDigits(more, n / 16);
      HexOfDigit(s[|s| - 1], n % 16);
      forall i | 0 <= i < |s| ensures HexDigit(s[i]).Some? && IsHexOf(s[i], HexDigit(s[i]).value) {
        if i < |more| { assert s[i] == more[i]; }
      }
    }
  }

  // The same digits elsewhere
  lemma {:induction false} SameDigits(s: bytes, t: bytes, c: nat, q: nat)
    requires q <= |s| && c + q <= |t|
    requires forall k :: 0 <= k < q ==> IsHexAt(s, k) && t[c + k] == s[k]
    ensures forall k :: c <= k < c + q ==> IsHexAt(t, k)
    ensures HexValue(t, c, c + q) == HexValue(s, 0, q)
    decreases q
  {
    forall k | c <= k < c + q ensures IsHexAt(t, k) { assert IsHexAt(s, k - c); }
    if q > 0 {
      assert IsHexAt(s, q - 1) && t[c + (q - 1)] == s[q - 1];
      SameDigits(s, t, c, q - 1);
    }
  }

  lemma {:induction false} SpelledValue(s: bytes, n: nat)
    requires Spells(s, n)
    ensures forall k :: 0 <= k < |s| ==> IsHexAt(s, k)
    ensures HexValue(s, 0, |s|) == n
    decreases n
  {
    SpelledDigits(s, n);
    assert IsHexAt(s, |s| - 1);
    if n < 16 {
      HexOfDigit(s[0], n);
      assert HexValue(s, 0, 0) == 0;
    } else {
      var more := s[..|s| - 1];
      SpelledValue(more, n / 16);
      SameDigits(more, s, 0, |more|);
      HexOfDigit(s[|s| - 1], n % 16);
    }
  }

  // Nothing that would make the number before it longer, nor a prefix of a zero
  predicate Tame(tail: bytes) {
    tail == [] || (HexDigit(tail[0]).None? && tail[0] != 120 && tail[0] != 88)
  }

  lemma {:induction false} DigitsEnd(t: bytes, p: nat, q: nat)
    requires p <= q <= |t| && (forall k :: p <= k < q ==> IsHexAt(t, k)) && !IsHexAt(t, q)
    ensures EndOfDigits(t, p) == q
    decreases q - p
  {
    if p < q {
      assert IsHexAt(t, p);
      DigitsEnd(t, p + 1, q);
    }
  }

  // What may come before the digits: white space, a sign, a prefix
  predicate Spaces(s: bytes) {
    forall c :: c in s ==> c == 32 || 9 <= c <= 13
  }

  datatype Sign = Unsigned | Plus | Minus {
    function Bytes(): bytes {
      if Plus? then [43] else if Minus? then [45] else []
    }
  }

  predicate IsPrefix(prefix: bytes) {
    prefix == [] || prefix == [48, 120] || prefix == [48, 88]
  }

  lemma {:induction false} SpaceSkipped(t: bytes, p: nat, q: nat)
    requires p <= q < |t| && (forall k :: p <= k < q ==> t[k] == 32 || 9 <= t[k] <= 13) && !(t[q] == 32 || 9 <= t[q] <= 13)
    ensures SkipSpace(t, p) == q
    decreases q - p
  {
    if p < q { SpaceSkipped(t, p + 1, q); }
  }

  // Where the digits begin
  lemma Started(space: bytes, sign: Sign, prefix: bytes, s: bytes, n: nat, tail: bytes)
    requires Spaces(space) && IsPrefix(prefix) && Spells(s, n) && Tame(tail)
    ensures var t, a := space + sign.Bytes() + prefix + s + tail, |space|; var b := a + |sign.Bytes()|; var c := b + |prefix|;
      && SkipSpace(t, 0) == a && SkipSign(t, a) == b && SkipPrefix(t, b) == c
      && a < |t| && (t[a] == 45 <==> sign.Minus?) && (b > a <==> !sign.Unsigned?)
  {
    var t, a := space + sign.Bytes() + prefix + s + tail, |space|;
    var b := a + |sign.Bytes()|;
    var c := b + |prefix|;
    SpelledDigits(s, n);
    HexOfDigit(s[0], HexDigit(s[0]).value);
    if |s| > 1 { HexOfDigit(s[1], HexDigit(s[1]).value); }
    hide HexDigit, Spells;
    forall k | 0 <= k < a ensures t[k] == 32 || 9 <= t[k] <= 13 { assert t[k] == space[k] && space[k] in space; }
    assert t[c] == s[0] && t[b] == (prefix + s)[0] && t[a] == (sign.Bytes() + prefix + s)[0];
    assert c + 1 < |t| ==> t[c + 1] == if |s| > 1 then s[1] else tail[0];
    assert prefix != [] ==> t[b + 1] == prefix[1];
    SpaceSkipped(t, 0, a);
  }

  // The number with its sign, as near as a long comes to it
  function AsLong(sign: Sign, n: nat): int {
    if sign.Minus? then (if n > LONG_MAX + 1 then -LONG_MAX - 1 else 0 - n) else if n > LONG_MAX then LONG_MAX else n
  }

  lemma PutTogether(t: bytes, sign: Sign, a: nat, b: nat, c: nat, d: nat, n: nat)
    requires a < |t| && SkipSpace(t, 0) == a && SkipSign(t, a) == b && SkipPrefix(t, b) == c && EndOfDigits(t, c) == d > c
    requires HexValue(t, c, d) == n && (t[a] == 45 <==> sign.Minus?) && (b > a <==> !sign.Unsigned?)
    ensures Strtol(t) == (AsLong(sign, n), d)
  {
  }

  // A number is read back, with its sign, if it fits a long, and nothing of what follows it.
  lemma StrtolReads(space: bytes, sign: Sign, prefix: bytes, s: bytes, n: nat, tail: bytes)
    requires Spaces(space) && IsPrefix(prefix) && Spells(s, n) && Tame(tail)
    ensures var before := space + sign.Bytes() + prefix; Strtol(before + s + tail) == (AsLong(sign, n), |before| + |s|)
  {
    hide Spells, HexDigit, SkipSpace, SkipSign, SkipPrefix, EndOfDigits, HexValue, Strtol, Spaces, IsPrefix, Tame;
    var a := |space|;
    var b := a + |sign.Bytes()|;
    var c := b + |prefix|;
    var t, d := space + sign.Bytes() + prefix + s + tail, c + |s|;
    Started(space, sign, prefix, s, n, tail);
    SpelledValue(s, n);
    SpelledDigits(s, n);
    assert forall k :: 0 <= k < |s| ==> t[c + k] == s[k];
    SameDigits(s, t, c, |s|);
    assert t[d..] == tail;
    NoDigit(t, d, tail);
    DigitsEnd(t, c, d);
    PutTogether(t, sign, a, b, c, d, n);
  }

  lemma NoDigit(t: bytes, d: nat, tail: bytes)
    requires d <= |t| && t[d..] == tail && Tame(tail)
    ensures !IsHexAt(t, d)
  {
    if d < |t| { assert t[d] == t[d..][0]; }
  }

  // Without a digit there nothing is read.
  lemma StrtolReadsNothing(space: bytes, sign: Sign, tail: bytes)
    requires Spaces(space)
    requires tail != [] ==> HexDigit(tail[0]).None? && (sign.Unsigned? ==> !(tail[0] == 32 || 9 <= tail[0] <= 13) && tail[0] != 43 && tail[0] != 45)
    ensures Strtol(space + sign.Bytes() + tail) == (0, 0)
  {
    var t, a := space + sign.Bytes() + tail, |space|;
    var b := a + |sign.Bytes()|;
    forall k | 0 <= k < a ensures t[k] == 32 || 9 <= t[k] <= 13 { assert t[k] == space[k] && space[k] in space; }
    assert t[b..] == tail && (a < |t| ==> t[a] == (sign.Bytes() + tail)[0]);
    if a < |t| {
      SpaceSkipped(t, 0, a);
    } else {
      AllSpace(t, 0);
    }
    if b < |t| { assert t[b] == t[b..][0]; }
    DigitsEnd(t, b, b);
  }

  lemma {:induction false} AllSpace(t: bytes, p: nat)
    requires p <= |t| && forall k :: p <= k < |t| ==> t[k] == 32 || 9 <= t[k] <= 13
    ensures SkipSpace(t, p) == |t|
    decreases |t| - p
  {
    if p < |t| { AllSpace(t, p + 1); }
  }

  // ---------------------------------------------------------------------------------
  // Chunked bodies

  // A chunk: its size in hexadecimal, an extension, and the data
  datatype Block = Block(size: bytes, ext: bytes, data: bytes)

  predicate PlainExtension(ext: bytes) {
    Tame(ext) && CR !in ext && 0 !in ext
  }

  predicate PlainBlock(b: Block) {
    && 0 < |b.data| < CHUNK_SIZE_MAX && Spells(b.size, |b.data|)
    && PlainExtension(b.ext) && |b.size| + |b.ext| < CHUNK_LINE_MAX
  }

  function Coded(b: Block): bytes {
    b.size + b.ext + [CR, LF] + b.data + [CR, LF]
  }

  function CodedAll(blocks: seq<Block>): bytes {
    if blocks == [] then [] else Coded(blocks[0]) + CodedAll(blocks[1..])
  }

  // What follows the chunks: a size line of zero, and lines of a trailer
  datatype Ending = Ending(size: bytes, ext: bytes, trailer: seq<bytes>)

  predicate PlainLine(line: bytes) {
    0 < |line| < TRAILER_LINE_MAX && CR !in line
  }

  predicate PlainEnding(e: Ending) {
    && Spells(e.size, 0) && PlainExtension(e.ext) && |e.size| + |e.ext| < CHUNK_LINE_MAX
    && forall i :: 0 <= i < |e.trailer| ==> PlainLine(e.trailer[i])
  }

  function TrailerLines(lines: seq<bytes>): bytes {
    if lines == [] then [CR, LF] else lines[0] + [CR, LF] + TrailerLines(lines[1..])
  }

  function CodedEnd(e: Ending): bytes {
    e.size + e.ext + [CR, LF] + TrailerLines(e.trailer)
  }

  function ChunkedBody(blocks: seq<Block>, e: Ending): bytes {
    CodedAll(blocks) + CodedEnd(e)
  }

  function DataOf(blocks: seq<Block>): seq<bytes> {
    seq(|blocks|, i requires 0 <= i < |blocks| => blocks[i].data)
  }

  // The size line is read to its end.
  lemma {:induction false} LineScanned(line: bytes, rest: bytes, i: nat)
    requires CR !in line && |line| < CHUNK_LINE_MAX && i <= |line|
    ensures ChunkDataFrom(line + [CR, LF] + rest, i) == ChunkDataFrom(line + [CR, LF] + rest, |line|)
    decreases |line| - i
  {
    if i < |line| {
      assert (line + [CR, LF] + rest)[i] == line[i];
      LineScanned(line, rest, i + 1);
    }
  }

  lemma LineRead(size: bytes, n: nat, ext: bytes, rest: bytes)
    requires Spells(size, n) && PlainExtension(ext) && |size| + |ext| < CHUNK_LINE_MAX && n < CHUNK_SIZE_MAX
    requires n > 0 ==> |rest| >= n + 2
    ensures var s := size + ext + [CR, LF] + rest; var i := |size| + |ext|;
      && ChunkData(s) == (if n == 0 then Done(true, i + 2) else Done(false, i + n + 4))
      && LineEnd(s) == i && s[..i] == size + ext && 0 !in s[..i]
  {
    var line, i := size + ext, |size| + |ext|;
    var s := line + [CR, LF] + rest;
    SpelledDigits(size, n);
    forall k | 0 <= k < |line| ensures line[k] != CR && line[k] != 0 {
      if k < |size| { HexOfDigit(size[k], HexDigit(size[k]).value); }
    }
    assert s[..i] == line;
    FindAt(s, CR, i);
    assert [] + Unsigned.Bytes() + [] + size + ext == line;
    StrtolReads([], Unsigned, [], size, n, ext);
    LineScanned(line, rest, 0);
  }

  lemma BlockRead(b: Block, rest: bytes)
    requires PlainBlock(b)
    ensures var s := Coded(b) + rest;
      ChunkData(s) == Done(false, |Coded(b)|) && ChunkBytes(s) == b.data && 0 !in s[..LineEnd(s)]
  {
    var more := b.data + [CR, LF] + rest;
    assert Coded(b) + rest == b.size + b.ext + [CR, LF] + more;
    LineRead(b.size, |b.data|, b.ext, more);
  }

  lemma {:induction false} TrailerScanned(line: bytes, rest: bytes, i: nat)
    requires CR !in line && |line| < TRAILER_LINE_MAX && i <= |line|
    ensures TrailerPartFrom(line + [CR, LF] + rest, i) == Done(line == [], |line| + 2)
    decreases |line| - i
  {
    if i < |line| {
      assert (line + [CR, LF] + rest)[i] == line[i];
      TrailerScanned(line, rest, i + 1);
    }
  }

  // One turn of the parser's loop
  lemma Turn(phase: ChunkPhase, offset: nat, s: bytes)
    requires offset <= |s| && !phase.ChunksDone? && ChunkStep(phase, s[offset..]).Done?
    ensures offset + ChunkStep(phase, s[offset..]).used <= |s|
    ensures RunChunks(phase, offset, s) == RunChunks(ChunkStep(phase, s[offset..]).value, offset + ChunkStep(phase, s[offset..]).used, s)
  {
    ChunkStepStable(phase, s[offset..], s[offset..]);
  }

  lemma {:induction false} TrailerRead(before: bytes, lines: seq<bytes>)
    requires forall i :: 0 <= i < |lines| ==> PlainLine(lines[i])
    ensures var s := before + TrailerLines(lines); RunChunks(InTrailer, |before|, s) == (ChunksDone, |s|, Finished)
    decreases |lines|
  {
    var s := before + TrailerLines(lines);
    assert s[|before|..] == TrailerLines(lines);
    if lines == [] {
      assert TrailerLines(lines) == [] + [CR, LF] + [];
      TrailerScanned([], [], 0);
      Turn(InTrailer, |before|, s);
    } else {
      var line, rest := lines[0], TrailerLines(lines[1..]);
      TrailerScanned(line, rest, 0);
      Turn(InTrailer, |before|, s);
      assert s == (before + (line + [CR, LF])) + rest;
      TrailerRead(before + (line + [CR, LF]), lines[1..]);
    }
  }

  lemma EndingRead(before: bytes, e: Ending)
    requires PlainEnding(e)
    ensures var s := before + CodedEnd(e);
      && RunChunks(InData, |before|, s) == (ChunksDone, |s|, Finished)
      && Chunks(s, |before|) == [] && CleanLines(s, |before|)
  {
    hide RunChunks, Chunks, CleanLines, ChunkData;
    var s, line := before + CodedEnd(e), e.size + e.ext + [CR, LF];
    assert s[|before|..] == CodedEnd(e);
    LineRead(e.size, 0, e.ext, TrailerLines(e.trailer));
    Turn(InData, |before|, s);
    assert s == (before + line) + TrailerLines(e.trailer);
    TrailerRead(before + line, e.trailer);
    LastChunk(s, |before|);
  }

  // Behind anything a body of such blocks is gone through to its end, its chunks are the blocks'
  // data in order, and its size lines are clean.
  lemma {:induction false} BodyRead(before: bytes, blocks: seq<Block>, e: Ending)
    requires (forall i :: 0 <= i < |blocks| ==> PlainBlock(blocks[i])) && PlainEnding(e)
    ensures var s := before + ChunkedBody(blocks, e);
      && RunChunks(InData, |before|, s) == (ChunksDone, |s|, Finished)
      && Chunks(s, |before|) == DataOf(blocks) && CleanLines(s, |before|)
    decreases |blocks|
  {
    hide ChunkData, Coded, CodedEnd, RunChunks, Chunks, CleanLines, PlainBlock, PlainEnding;
    var s := before + ChunkedBody(blocks, e);
    if blocks == [] {
      assert s == before + CodedEnd(e);
      EndingRead(before, e);
    } else {
      var coded, rest := Coded(blocks[0]), ChunkedBody(blocks[1..], e);
      assert s == (before + coded) + rest && s[|before|..] == coded + rest;
      BlockRead(blocks[0], rest);
      Turn(InData, |before|, s);
      BodyRead(before + coded, blocks[1..], e);
      FirstChunk(s, |before|);
      assert DataOf(blocks) == [blocks[0].data] + DataOf(blocks[1..]);
    }
  }

  // A chunked body is accepted, its chunks are what was put into them, and the cursor, which
  // on such a body comes to the end, gives them back.
  lemma ChunkRoundTrip(blocks: seq<Block>, e: Ending)
    requires (forall i :: 0 <= i < |blocks| ==> PlainBlock(blocks[i])) && PlainEnding(e)
    ensures var body := ChunkedBody(blocks, e);
      Accepted(body, 0) && Chunks(body, 0) == DataOf(blocks) && Reads(body, 0) == (DataOf(blocks), true)
  {
    var body := ChunkedBody(blocks, e);
    assert [] + body == body && body[0..] == body;
    BodyRead([], blocks, e);
    ReadsAllIffClean(body, 0);
  }

  // Encoding a body as chunks and decoding it is the identity on their concatenation.
  method Decode(blocks: seq<Block>, e: Ending) returns (decoded: bytes)
    requires (forall i :: 0 <= i < |blocks| ==> PlainBlock(blocks[i])) && PlainEnding(e)
    ensures decoded == Flat(DataOf(blocks))
  {
    hide Accepted, CleanLines, Chunks, ChunkedBody;
    ChunkRoundTrip(blocks, e);
    ReadsAllIffClean(ChunkedBody(blocks, e), 0);
    var result := DecodeChunkedBody(ChunkedBody(blocks, e), true);
    return result.value;
  }
}
