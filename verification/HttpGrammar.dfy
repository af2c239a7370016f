/**
  Exactly which bytes each stage of the parser takes, and which it refuses
  (http_parser.c:234-330, 482-510), without reference to how they are scanned.
 */
module HttpGrammar {
  import opened Collections
  import opened HttpSyntax

  // ---------------------------------------------------------------------------------
  // The start line

  // No carriage return and no NUL byte before place k
  predicate OneLine(s: bytes, k: nat)
    requires k <= |s|
  {
    forall j :: 0 <= j < k ==> s[j] != CR && s[j] != 0
  }

  predicate Spaced(line: bytes, parts: Parts) {
    line == parts.first + [SP] + parts.second + [SP] + parts.third && SP !in parts.first && SP !in parts.second
  }

  predicate TwoSpaces(line: bytes) {
    exists i, j :: 0 <= i < j < |line| && line[i] == SP && line[j] == SP
  }

  predicate IsStartLine(s: bytes, parts: Parts, n: nat) {
    && 2 <= n <= |s| && n - 2 < START_LINE_MAX && OneLine(s, n - 2) && s[n - 2] == CR && s[n - 1] == LF
    && Spaced(s[..n - 2], parts)
  }

  predicate NoStartLine(s: bytes, k: nat) {
    && k <= |s| && k <= START_LINE_MAX && OneLine(s, k)
    && (k == START_LINE_MAX || (k < |s| && s[k] == 0)
        || (k + 1 < |s| && s[k] == CR && (s[k + 1] != LF || !TwoSpaces(s[..k]))))
  }

  lemma CutAtSpace(line: bytes, a: nat)
    requires a < |line| && line[a] == SP
    ensures line == line[..a] + [SP] + line[a + 1..]
  {
  }

  lemma Regrouped(first: bytes, second: bytes, third: bytes)
    ensures first + [SP] + (second + [SP] + third) == first + [SP] + second + [SP] + third
  {
  }

  lemma SplitIsSpaced(line: bytes, parts: Parts)
    requires SplitLine(line) == Some(parts)
    ensures Spaced(line, parts)
  {
    hide Find;
    var a := Find(line, SP);
    var rest := line[a + 1..];
    var b := Find(rest, SP);
    CutAtSpace(line, a);
    CutAtSpace(rest, b);
    Regrouped(line[..a], rest[..b], rest[b + 1..]);
  }

  lemma SpacedSplits(line: bytes, parts: Parts)
    requires Spaced(line, parts)
    ensures SplitLine(line) == Some(parts)
  {
    var n, m := |parts.first|, |parts.second|;
    assert line[..n] == parts.first && line[n] == SP;
    FindAt(line, SP, n);
    var rest := line[n + 1..];
    assert rest == parts.second + [SP] + parts.third;
    assert rest[..m] == parts.second && rest[m] == SP && rest[m + 1..] == parts.third;
    FindAt(rest, SP, m);
  }

  // A line comes apart at its first two spaces.
  lemma SplitFound(line: bytes, parts: Parts)
    ensures SplitLine(line) == Some(parts) <==> Spaced(line, parts)
  {
    hide SplitLine, Spaced;
    if SplitLine(line) == Some(parts) { SplitIsSpaced(line, parts); }
    if Spaced(line, parts) { SpacedSplits(line, parts); }
  }

  lemma SplitNeedsTwo(line: bytes)
    ensures SplitLine(line).Some? <==> TwoSpaces(line)
  {
    var a := Find(line, SP);
    if a < |line| {
      var rest := line[a + 1..];
      var b := Find(rest, SP);
      if b < |rest| { assert line[a + 1 + b] == SP; }
      forall j | a < j < |line| && line[j] == SP ensures SP in rest {
        assert rest[j - a - 1] == SP;
      }
      assert rest[..|rest|] == rest;
    } else {
      assert line[..|line|] == line;
    }
    forall i | 0 <= i < a ensures line[i] != SP { assert line[i] == line[..a][i]; }
  }

  lemma {:induction false} LineScanned(s: bytes, i: nat, k: nat)
    requires i <= k <= |s| && k <= START_LINE_MAX && forall j :: i <= j < k ==> s[j] != CR && s[j] != 0
    ensures StartLineFrom(s, i) == StartLineFrom(s, k)
    decreases k - i
  {
    if i < k { LineScanned(s, i + 1, k); }
  }

  function LineStop(s: bytes, i: nat): (k: nat)
    requires i <= |s| && i <= START_LINE_MAX
    ensures i <= k <= |s| && k <= START_LINE_MAX && forall j :: i <= j < k ==> s[j] != CR && s[j] != 0
    ensures k == START_LINE_MAX || k == |s| || s[k] == CR || s[k] == 0
    decreases |s| - i
  {
    if i == START_LINE_MAX || i == |s| || s[i] == CR || s[i] == 0 then i else LineStop(s, i + 1)
  }

  // What is taken as a start line
  lemma StartLineTaken(s: bytes, parts: Parts, n: nat)
    ensures StartLine(s) == Done(Some(parts), n) <==> !StartsCrLf(s) && IsStartLine(s, parts, n)
  {
    var k := LineStop(s, 0);
    LineScanned(s, 0, k);
    SplitFound(s[..k], parts);
    hide SplitLine, Spaced;
    if IsStartLine(s, parts, n) {
      assert k == n - 2;
    }
  }

  // ... and what is refused, as soon as it is seen
  lemma StartLineRefused(s: bytes)
    ensures StartLine(s).Bad? <==> !StartsCrLf(s) && exists k :: NoStartLine(s, k)
  {
    var k := LineStop(s, 0);
    LineScanned(s, 0, k);
    SplitNeedsTwo(s[..k]);
    hide SplitLine, TwoSpaces;
    if StartLine(s).Bad? { assert NoStartLine(s, k); }
    forall j | NoStartLine(s, j) ensures j == k { }
  }

  // ---------------------------------------------------------------------------------
  // The name of a header field

  // Text without a colon before place k
  predicate NameUpTo(s: bytes, k: nat)
    requires k <= |s|
  {
    forall j :: 0 <= j < k ==> s[j] != COLON && 0 < s[j] < 128
  }

  predicate IsHeaderName(s: bytes, name: bytes, n: nat) {
    1 <= n <= |s| && n - 1 < HEADER_NAME_MAX && NameUpTo(s, n - 1) && s[n - 1] == COLON && name == s[..n - 1]
  }

  predicate NoHeaderName(s: bytes, k: nat) {
    && k <= |s| && k <= HEADER_NAME_MAX && NameUpTo(s, k)
    && (k == HEADER_NAME_MAX || (k < |s| && (s[k] == 0 || s[k] >= 128)))
  }

  lemma {:induction false} NameScanned(s: bytes, i: nat, k: nat)
    requires i <= k <= |s| && k <= HEADER_NAME_MAX && forall j :: i <= j < k ==> s[j] != COLON && 0 < s[j] < 128
    ensures HeaderNameFrom(s, i) == HeaderNameFrom(s, k)
    decreases k - i
  {
    if i < k { NameScanned(s, i + 1, k); }
  }

  function NameStop(s: bytes, i: nat): (k: nat)
    requires i <= |s| && i <= HEADER_NAME_MAX
    ensures i <= k <= |s| && k <= HEADER_NAME_MAX && forall j :: i <= j < k ==> s[j] != COLON && 0 < s[j] < 128
    ensures k == HEADER_NAME_MAX || k == |s| || s[k] == COLON || s[k] == 0 || s[k] >= 128
    decreases |s| - i
  {
    if i == HEADER_NAME_MAX || i == |s| || s[i] == COLON || s[i] == 0 || s[i] >= 128 then i else NameStop(s, i + 1)
  }

  lemma HeaderNameTaken(s: bytes, name: bytes, n: nat)
    ensures HeaderName(s) == Done(Some(name), n) <==> !StartsCrLf(s) && IsHeaderName(s, name, n)
  {
    var k := NameStop(s, 0);
    NameScanned(s, 0, k);
  }

  lemma HeaderNameRefused(s: bytes)
    ensures HeaderName(s).Bad? <==> !StartsCrLf(s) && exists k :: NoHeaderName(s, k)
  {
    var k := NameStop(s, 0);
    NameScanned(s, 0, k);
    if HeaderName(s).Bad? { assert NoHeaderName(s, k); }
    forall j | NoHeaderName(s, j) ensures j == k { }
  }

  // ---------------------------------------------------------------------------------
  // Size lines and trailer lines

  predicate NoReturn(s: bytes, k: nat)
    requires k <= |s|
  {
    forall j :: 0 <= j < k ==> s[j] != CR
  }

  function ReturnStop(s: bytes, max: nat, i: nat): (k: nat)
    requires i <= |s| && i <= max
    ensures i <= k <= |s| && k <= max && forall j :: i <= j < k ==> s[j] != CR
    ensures k == max || k == |s| || s[k] == CR
    decreases |s| - i
  {
    if i == max || i == |s| || s[i] == CR then i else ReturnStop(s, max, i + 1)
  }

  lemma {:induction false} TrailerScanned(s: bytes, i: nat, k: nat)
    requires i <= k <= |s| && k <= TRAILER_LINE_MAX && forall j :: i <= j < k ==> s[j] != CR
    ensures TrailerPartFrom(s, i) == TrailerPartFrom(s, k)
    decreases k - i
  {
    if i < k { TrailerScanned(s, i + 1, k); }
  }

  // Any line without a carriage return is a trailer line, and an empty one the end.
  lemma TrailerTaken(s: bytes, empty: bool, n: nat)
    ensures TrailerPart(s) == Done(empty, n) <==>
      2 <= n <= |s| && n - 2 < TRAILER_LINE_MAX && NoReturn(s, n - 2) && s[n - 2] == CR && s[n - 1] == LF && (empty <==> n == 2)
  {
    var k := ReturnStop(s, TRAILER_LINE_MAX, 0);
    TrailerScanned(s, 0, k);
  }

  predicate NoTrailer(s: bytes, k: nat) {
    k <= |s| && k <= TRAILER_LINE_MAX && NoReturn(s, k) && (k == TRAILER_LINE_MAX || (k + 1 < |s| && s[k] == CR && s[k + 1] != LF))
  }

  lemma TrailerRefused(s: bytes)
    ensures TrailerPart(s).Bad? <==> exists k :: NoTrailer(s, k)
  {
    var k := ReturnStop(s, TRAILER_LINE_MAX, 0);
    TrailerScanned(s, 0, k);
    if TrailerPart(s).Bad? { assert NoTrailer(s, k); }
    forall j | NoTrailer(s, j) ensures j == k { }
  }

  lemma {:induction false} ChunkScanned(s: bytes, i: nat, k: nat)
    requires i <= k <= |s| && k <= CHUNK_LINE_MAX && forall j :: i <= j < k ==> s[j] != CR
    ensures ChunkDataFrom(s, i) == ChunkDataFrom(s, k)
    decreases k - i
  {
    if i < k { ChunkScanned(s, i + 1, k); }
  }

  // A size line of k bytes, and what strtol makes of it
  predicate SizeLine(s: bytes, k: nat, size: int) {
    && k + 1 < |s| && k < CHUNK_LINE_MAX && NoReturn(s, k) && s[k] == CR && s[k + 1] == LF
    && Strtol(s[..k]).1 > 0 && Strtol(s[..k]).0 == size
  }

  // The last chunk is its size line; any other has its data and two more bytes behind it.
  lemma ChunkTaken(s: bytes, last: bool, n: nat)
    ensures ChunkData(s) == Done(last, n) <==>
      exists k: nat, size :: SizeLine(s, k, size) && 0 <= size < CHUNK_SIZE_MAX && (last <==> size == 0)
        && n == k + 2 + (if size == 0 then 0 else size + 2) && n <= |s|
  {
    var k := ReturnStop(s, CHUNK_LINE_MAX, 0);
    ChunkScanned(s, 0, k);
    hide Strtol;
    if ChunkData(s) == Done(last, n) {
      assert SizeLine(s, k, Strtol(s[..k]).0);
    }
    forall j: nat, size | SizeLine(s, j, size) ensures j == k { }
  }

  predicate NoSizeLine(s: bytes, k: nat) {
    && k <= |s| && k <= CHUNK_LINE_MAX && NoReturn(s, k)
    && (k == CHUNK_LINE_MAX
        || (k + 1 < |s| && s[k] == CR
            && (s[k + 1] != LF || Strtol(s[..k]).1 == 0 || Strtol(s[..k]).0 < 0 || Strtol(s[..k]).0 >= CHUNK_SIZE_MAX)))
  }

  lemma ChunkRefused(s: bytes)
    ensures ChunkData(s).Bad? <==> exists k :: NoSizeLine(s, k)
  {
    var k := ReturnStop(s, CHUNK_LINE_MAX, 0);
    ChunkScanned(s, 0, k);
    hide Strtol;
    if ChunkData(s).Bad? { assert NoSizeLine(s, k); }
    forall j | NoSizeLine(s, j) ensures j == k { }
  }
}
