/**
  What src/protocol/http_parser.c recognises, stage by stage, as functions of the bytes that
  follow the current offset: a stage needs more bytes, refuses, or is done having used some.
  Each is shown to depend only on the bytes it reads (section 3 of RFC 7230 is what it parses).
 */
module HttpSyntax {
  import opened Collections

  type byte = b: int | 0 <= b < 256
  type bytes = seq<byte>

  // The bytes of consecutive pieces
  function Flat(pieces: seq<bytes>): bytes {
    if pieces == [] then [] else pieces[0] + Flat(pieces[1..])
  }

  lemma {:induction false} FlatSplit(a: seq<bytes>, b: seq<bytes>)
    ensures Flat(a + b) == Flat(a) + Flat(b)
  {
    if a == [] {
      assert a + b == b;
    } else {
      assert (a + b)[1..] == a[1..] + b;
      FlatSplit(a[1..], b);
    }
  }

  datatype Stage<T> = More | Bad | Done(value: T, used: nat)

  const CR: byte := 13
  const LF: byte := 10
  const SP: byte := 32
  const HT: byte := 9
  const COLON: byte := 58
  const ZERO: byte := 48

  const START_LINE_MAX := 8192
  const HEADER_NAME_MAX := 64
  const HEADER_VALUE_MAX := 8192
  const CHUNK_LINE_MAX := 1024
  const TRAILER_LINE_MAX := 8192
  const CHUNK_SIZE_MAX := 0x8000_0000 - CHUNK_LINE_MAX - 4
  const LONG_MAX := 0x7FFF_FFFF_FFFF_FFFF

  // (signed char)c <= 0
  predicate NotText(c: byte) {
    c == 0 || c >= 128
  }

  predicate Blank(c: byte) {
    c == SP || c == HT
  }

  predicate StartsCrLf(s: bytes) {
    |s| >= 2 && s[0] == CR && s[1] == LF
  }

  // strchr within the sequence: the first place of c, or the length
  function Find(s: bytes, c: byte): (i: nat)
    ensures i <= |s| && c !in s[..i] && (i < |s| ==> s[i] == c)
  {
    if s == [] || s[0] == c then 0 else 1 + Find(s[1..], c)
  }

  lemma FindAt(s: bytes, c: byte, i: nat)
    requires i < |s| && s[i] == c && c !in s[..i]
    ensures Find(s, c) == i
  {
    assert forall k :: 0 <= k < i ==> s[k] == s[..i][k];
    assert forall k :: 0 <= k < Find(s, c) ==> s[k] == s[..Find(s, c)][k];
  }

  datatype Parts = Parts(first: bytes, second: bytes, third: bytes)

  // The three fields of a start line: the last one may contain spaces.
  function SplitLine(line: bytes): Option<Parts> {
    var a := Find(line, SP);
    if a == |line| then None
    else
      var rest := line[a + 1..];
      var b := Find(rest, SP);
      if b == |rest| then None else Some(Parts(line[..a], rest[..b], rest[b + 1..]))
  }

  // __parse_start_line (http_parser.c:234-295); an empty line is skipped
  function StartLine(s: bytes): Stage<Option<Parts>> {
    if StartsCrLf(s) then Done(None, 2) else StartLineFrom(s, 0)
  }

  function StartLineFrom(s: bytes, i: nat): Stage<Option<Parts>>
    requires i <= |s|
    decreases |s| - i
  {
    if i == START_LINE_MAX then Bad
    else if i == |s| then More
    else if s[i] == CR then
      if i + 1 == |s| then More
      else if s[i + 1] != LF then Bad
      else match SplitLine(s[..i]) {
        case None => Bad
        case Some(parts) => Done(Some(parts), i + 2)
      }
    else if s[i] == 0 then Bad
    else StartLineFrom(s, i + 1)
  }

  // __parse_header_name (http_parser.c:297-330); an empty line ends the header
  function HeaderName(s: bytes): Stage<Option<bytes>> {
    if StartsCrLf(s) then Done(None, 2) else HeaderNameFrom(s, 0)
  }

  function HeaderNameFrom(s: bytes, i: nat): Stage<Option<bytes>>
    requires i <= |s|
    decreases |s| - i
  {
    if i == HEADER_NAME_MAX then Bad
    else if i == |s| then More
    else if s[i] == COLON then Done(Some(s[..i]), i + 1)
    else if NotText(s[i]) then Bad
    else HeaderNameFrom(s, i + 1)
  }

  // Trailing blanks cut off (http_parser.c:379-385)
  function TrimRight(v: bytes): (r: bytes)
    ensures r <= v && (r != [] ==> !Blank(r[|r| - 1]))
  {
    if v != [] && Blank(v[|v| - 1]) then TrimRight(v[..|v| - 1]) else v
  }

  // __parse_header_value (http_parser.c:332-402): a value, its folded lines joined by one space.
  // At p: before a line, within one with acc collected so far, and after its carriage return.
  function ValueLine(s: bytes, p: nat, acc: bytes): Stage<bytes>
    requires p <= |s|
    decreases |s| - p, 1
  {
    if p == |s| then More
    else if Blank(s[p]) then ValueLine(s, p + 1, acc)
    else ValueText(s, p, acc)
  }

  function ValueText(s: bytes, p: nat, acc: bytes): Stage<bytes>
    requires p < |s|
    decreases |s| - p, 0
  {
    if |acc| == HEADER_VALUE_MAX then Bad
    else if p + 1 == |s| then More
    else if s[p] == CR then ValueEnd(s, p + 1, acc)
    else if NotText(s[p]) then Bad
    else ValueText(s, p + 1, acc + [s[p]])
  }

  function ValueEnd(s: bytes, p: nat, acc: bytes): Stage<bytes>
    requires p < |s|
    decreases |s| - p, 0
  {
    if s[p] != LF then Bad
    else if p + 1 == |s| then More
    else if Blank(s[p + 1]) then ValueLine(s, p + 2, TrimRight(acc) + [SP])
    else Done(TrimRight(acc), p + 1)
  }

  function HeaderValue(s: bytes): Stage<bytes> {
    ValueLine(s, 0, [])
  }

  // ---------------------------------------------------------------------------------
  // strtol(s, &end, 16) on the bytes of s: the value and how many bytes were read, 0 for none

  predicate Space(c: byte) {
    9 <= c <= 13 || c == SP
  }

  function HexDigit(c: byte): Option<nat> {
    if 48 <= c <= 57 then Some(c - 48)
    else if 65 <= c <= 70 then Some(c - 55)
    else if 97 <= c <= 102 then Some(c - 87)
    else None
  }

  function SkipSpace(s: bytes, p: nat): (q: nat)
    requires p <= |s|
    ensures p <= q <= |s| && (q < |s| ==> !Space(s[q]))
    decreases |s| - p
  {
    if p < |s| && Space(s[p]) then SkipSpace(s, p + 1) else p
  }

  function SkipSign(s: bytes, p: nat): (q: nat)
    requires p <= |s|
    ensures p <= q <= |s|
  {
    if p < |s| && (s[p] == 43 || s[p] == 45) then p + 1 else p
  }

  predicate IsHexAt(s: bytes, p: nat) {
    p < |s| && HexDigit(s[p]).Some?
  }

  // "0x" counts as a prefix only if a digit follows.
  function SkipPrefix(s: bytes, p: nat): (q: nat)
    requires p <= |s|
    ensures p <= q <= |s|
  {
    if p + 1 < |s| && s[p] == ZERO && (s[p + 1] == 120 || s[p + 1] == 88) && IsHexAt(s, p + 2) then p + 2 else p
  }

  function EndOfDigits(s: bytes, p: nat): (q: nat)
    requires p <= |s|
    ensures p <= q <= |s| && !IsHexAt(s, q) && forall k :: p <= k < q ==> IsHexAt(s, k)
    decreases |s| - p
  {
    if IsHexAt(s, p) then EndOfDigits(s, p + 1) else p
  }

  function HexValue(s: bytes, p: nat, q: nat): nat
    requires p <= q <= |s| && forall k :: p <= k < q ==> IsHexAt(s, k)
  {
    if p == q then 0
    else
      assert IsHexAt(s, q - 1);
      16 * HexValue(s, p, q - 1) + HexDigit(s[q - 1]).value
  }

  function Clamped(v: int): int {
    if v > LONG_MAX then LONG_MAX else if v < -LONG_MAX - 1 then -LONG_MAX - 1 else v
  }

  function Strtol(s: bytes): (r: (int, nat))
    ensures r.1 <= |s|
  {
    var a := SkipSpace(s, 0);
    var b := SkipSign(s, a);
    var c := SkipPrefix(s, b);
    var d := EndOfDigits(s, c);
    if d == c then (0, 0)
    else
      var v: int := HexValue(s, c, d);
      (Clamped(if b > a && s[a] == 45 then -v else v), d)
  }

  // __parse_chunk_data (http_parser.c:432-480): whether it was the last chunk
  function ChunkData(s: bytes): Stage<bool> {
    ChunkDataFrom(s, 0)
  }

  function ChunkDataFrom(s: bytes, i: nat): Stage<bool>
    requires i <= |s|
    decreases |s| - i
  {
    if i == CHUNK_LINE_MAX then Bad
    else if i == |s| then More
    else if s[i] == CR then
      if i + 1 == |s| then More
      else if s[i + 1] != LF then Bad
      else
        var (size, digits) := Strtol(s[..i]);
        if digits == 0 then Bad
        else if size == 0 then Done(true, i + 2)
        else if 0 < size < CHUNK_SIZE_MAX then
          if |s| < size + i + 4 then More else Done(false, size + i + 4)
        else Bad
    else ChunkDataFrom(s, i + 1)
  }

  // __parse_trailer_part (http_parser.c:482-510): whether the line was empty
  function TrailerPart(s: bytes): Stage<bool> {
    TrailerPartFrom(s, 0)
  }

  function TrailerPartFrom(s: bytes, i: nat): Stage<bool>
    requires i <= |s|
    decreases |s| - i
  {
    if i == TRAILER_LINE_MAX then Bad
    else if i == |s| then More
    else if s[i] == CR then
      if i + 1 == |s| then More
      else if s[i + 1] != LF then Bad
      else Done(i == 0, i + 2)
    else TrailerPartFrom(s, i + 1)
  }

  // ---------------------------------------------------------------------------------
  // A stage's answer on a prefix stays its answer; and a longer input tells nothing about a
  // stage that was done within the shorter one.

  // look: how many bytes beyond the ones used the stage has read
  ghost predicate Stable<T>(onPrefix: Stage<T>, onWhole: Stage<T>, prefix: nat, look: nat) {
    && (!onPrefix.More? ==> onWhole == onPrefix)
    && (onWhole.Done? && onWhole.used + look <= prefix ==> onPrefix == onWhole)
    && (onPrefix.Done? ==> 0 < onPrefix.used && onPrefix.used + look <= prefix)
  }

  lemma {:induction false} StartLineFromUsed(t: bytes, i: nat)
    requires i <= |t|
    ensures StartLineFrom(t, i).Done? ==> i + 2 <= StartLineFrom(t, i).used <= |t|
    decreases |t| - i
  {
    if i != START_LINE_MAX && i < |t| && t[i] != CR && t[i] != 0 { StartLineFromUsed(t, i + 1); }
  }

  lemma {:induction false} StartLineFromStable(s: bytes, t: bytes, i: nat)
    requires s <= t && i <= |s|
    ensures Stable(StartLineFrom(s, i), StartLineFrom(t, i), |s|, 0)
    decreases |s| - i
  {
    StartLineFromUsed(t, i);
    if i != START_LINE_MAX && i < |s| {
      if s[i] == CR {
        assert s[..i] == t[..i];
      } else if s[i] != 0 {
        StartLineFromStable(s, t, i + 1);
      }
    }
  }

  lemma StartLineStable(s: bytes, t: bytes)
    requires s <= t
    ensures Stable(StartLine(s), StartLine(t), |s|, 0)
  {
    StartLineFromStable(s, t, 0);
  }

  lemma {:induction false} HeaderNameFromUsed(t: bytes, i: nat)
    requires i <= |t|
    ensures HeaderNameFrom(t, i).Done? ==> i + 1 <= HeaderNameFrom(t, i).used <= |t|
    decreases |t| - i
  {
    if i != HEADER_NAME_MAX && i < |t| && t[i] != COLON && !NotText(t[i]) { HeaderNameFromUsed(t, i + 1); }
  }

  lemma {:induction false} HeaderNameFromStable(s: bytes, t: bytes, i: nat)
    requires s <= t && i <= |s|
    ensures Stable(HeaderNameFrom(s, i), HeaderNameFrom(t, i), |s|, 0)
    decreases |s| - i
  {
    HeaderNameFromUsed(t, i);
    if i != HEADER_NAME_MAX && i < |s| {
      if s[i] == COLON {
        assert s[..i] == t[..i];
      } else if !NotText(s[i]) {
        HeaderNameFromStable(s, t, i + 1);
      }
    }
  }

  lemma HeaderNameStable(s: bytes, t: bytes)
    requires s <= t
    ensures Stable(HeaderName(s), HeaderName(t), |s|, 0)
  {
    HeaderNameFromStable(s, t, 0);
    if StartsCrLf(t) { HeaderNameAfterCr(s); }
  }

  // One carriage return says nothing yet.
  lemma HeaderNameAfterCr(s: bytes)
    ensures |s| == 1 && s[0] == CR ==> HeaderNameFrom(s, 0).More?
  {
    if |s| == 1 && s[0] == CR { assert HeaderNameFrom(s, 0) == HeaderNameFrom(s, 1); }
  }

  lemma {:induction false} ValueUsed(t: bytes, p: nat, acc: bytes)
    requires p <= |t|
    ensures ValueLine(t, p, acc).Done? ==> p < ValueLine(t, p, acc).used < |t|
    ensures p < |t| ==> ValueText(t, p, acc).Done? ==> p < ValueText(t, p, acc).used < |t|
    ensures p < |t| ==> ValueEnd(t, p, acc).Done? ==> p < ValueEnd(t, p, acc).used < |t|
    decreases |t| - p
  {
    if p < |t| {
      ValueUsed(t, p + 1, acc);
      ValueUsed(t, p + 1, acc + [t[p]]);
      if p + 1 < |t| { ValueUsed(t, p + 2, TrimRight(acc) + [SP]); }
    }
  }

  lemma {:induction false} ValueStable(s: bytes, t: bytes, p: nat, acc: bytes)
    requires s <= t && p <= |s|
    ensures Stable(ValueLine(s, p, acc), ValueLine(t, p, acc), |s|, 1)
    ensures p < |s| ==> Stable(ValueText(s, p, acc), ValueText(t, p, acc), |s|, 1)
    ensures p < |s| ==> Stable(ValueEnd(s, p, acc), ValueEnd(t, p, acc), |s|, 1)
    decreases |s| - p
  {
    hide TrimRight, NotText, Blank;
    ValueUsed(t, p, acc);
    if p < |s| {
      ValueStable(s, t, p + 1, acc);
      ValueStable(s, t, p + 1, acc + [s[p]]);
      if p + 1 < |s| { ValueStable(s, t, p + 2, TrimRight(acc) + [SP]); }
    }
  }

  lemma HeaderValueStable(s: bytes, t: bytes)
    requires s <= t
    ensures Stable(HeaderValue(s), HeaderValue(t), |s|, 1)
  {
    ValueStable(s, t, 0, []);
  }

  lemma {:induction false} ChunkDataFromUsed(t: bytes, i: nat)
    requires i <= |t|
    ensures ChunkDataFrom(t, i).Done? ==> i + 2 <= ChunkDataFrom(t, i).used <= |t|
    decreases |t| - i
  {
    if i != CHUNK_LINE_MAX && i < |t| && t[i] != CR { ChunkDataFromUsed(t, i + 1); }
  }

  lemma {:induction false} ChunkDataFromStable(s: bytes, t: bytes, i: nat)
    requires s <= t && i <= |s|
    ensures Stable(ChunkDataFrom(s, i), ChunkDataFrom(t, i), |s|, 0)
    decreases |s| - i
  {
    ChunkDataFromUsed(t, i);
    if i != CHUNK_LINE_MAX && i < |s| {
      if s[i] == CR {
        assert s[..i] == t[..i];
      } else {
        ChunkDataFromStable(s, t, i + 1);
      }
    }
  }

  lemma ChunkDataStable(s: bytes, t: bytes)
    requires s <= t
    ensures Stable(ChunkData(s), ChunkData(t), |s|, 0)
  {
    ChunkDataFromStable(s, t, 0);
  }

  lemma {:induction false} TrailerPartFromUsed(t: bytes, i: nat)
    requires i <= |t|
    ensures TrailerPartFrom(t, i).Done? ==> i + 2 <= TrailerPartFrom(t, i).used <= |t|
    decreases |t| - i
  {
    if i != TRAILER_LINE_MAX && i < |t| && t[i] != CR { TrailerPartFromUsed(t, i + 1); }
  }

  lemma {:induction false} TrailerPartFromStable(s: bytes, t: bytes, i: nat)
    requires s <= t && i <= |s|
    ensures Stable(TrailerPartFrom(s, i), TrailerPartFrom(t, i), |s|, 0)
    decreases |s| - i
  {
    TrailerPartFromUsed(t, i);
    if i != TRAILER_LINE_MAX && i < |s| && s[i] != CR { TrailerPartFromStable(s, t, i + 1); }
  }

  lemma TrailerPartStable(s: bytes, t: bytes)
    requires s <= t
    ensures Stable(TrailerPart(s), TrailerPart(t), |s|, 0)
  {
    TrailerPartFromStable(s, t, 0);
  }
}
