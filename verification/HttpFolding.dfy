/**
  A header value that is folded over several lines (section 3.2.4 of RFC 7230): the parser reads
  its lines joined by one space each, without the blanks around them.
 */
module HttpFolding {
  import opened HttpSyntax

  datatype Line = Line(lead: bytes, text: bytes, trail: bytes)

  predicate Blanks(s: bytes) {
    forall c :: c in s ==> Blank(c)
  }

  predicate PlainText(text: bytes) {
    && text != [] && !Blank(text[0]) && !Blank(text[|text| - 1])
    && forall c :: c in text ==> c != CR && !NotText(c)
  }

  predicate PlainLine(line: Line) {
    Blanks(line.lead) && PlainText(line.text) && Blanks(line.trail)
  }

  // The lines as they come: each but the first begins with a blank.
  function Raw(lines: seq<Line>): bytes {
    if lines == [] then [] else lines[0].lead + lines[0].text + lines[0].trail + [CR, LF] + Raw(lines[1..])
  }

  function Joined(lines: seq<Line>): bytes
    requires lines != []
  {
    if |lines| == 1 then lines[0].text else lines[0].text + [SP] + Joined(lines[1..])
  }

  predicate Foldable(lines: seq<Line>) {
    lines != [] && forall i :: 0 <= i < |lines| ==> PlainLine(lines[i]) && (i > 0 ==> lines[i].lead != [])
  }

  lemma {:induction false} Trimmed(text: bytes, trail: bytes)
    requires Blanks(trail) && (text == [] || !Blank(text[|text| - 1]))
    ensures TrimRight(text + trail) == text
    decreases |trail|
  {
    if trail == [] {
      assert text + trail == text;
    } else {
      var v, n := text + trail, |trail| - 1;
      assert v[|v| - 1] == trail[n] && v[..|v| - 1] == text + trail[..n];
      Trimmed(text, trail[..n]);
    }
  }

  lemma {:induction false} LeadSkipped(s: bytes, p: nat, q: nat, acc: bytes)
    requires p <= q <= |s| && forall k :: p <= k < q ==> Blank(s[k])
    ensures ValueLine(s, p, acc) == ValueLine(s, q, acc)
    decreases q - p
  {
    if p < q { LeadSkipped(s, p + 1, q, acc); }
  }

  lemma {:induction false} TextScanned(s: bytes, p: nat, q: nat, acc: bytes)
    requires p <= q < |s| && |acc| + (q - p) <= HEADER_VALUE_MAX
    requires forall k :: p <= k < q ==> s[k] != CR && !NotText(s[k])
    ensures ValueText(s, p, acc) == ValueText(s, q, acc + s[p..q])
    decreases q - p
  {
    if p == q {
      assert acc + s[p..q] == acc;
    } else {
      TextScanned(s, p + 1, q, acc + [s[p]]);
      assert acc + [s[p]] + s[p + 1..q] == acc + s[p..q];
    }
  }

  // Where the parts of a line are
  lemma Placed(s: bytes, p: nat, line: Line, more: bytes)
    requires p <= |s| && s[p..] == line.lead + line.text + line.trail + [CR, LF] + more && PlainLine(line)
    ensures var a := p + |line.lead|; var b := a + |line.text| + |line.trail|;
      && b + 2 <= |s| && s[b] == CR && s[b + 1] == LF && s[b + 2..] == more
      && (forall k :: p <= k < a ==> Blank(s[k])) && a < b && !Blank(s[a]) && s[a..b] == line.text + line.trail
      && forall k :: a <= k < b ==> s[k] != CR && !NotText(s[k])
  {
    var a := p + |line.lead|;
    var b := a + |line.text| + |line.trail|;
    assert |s| - p == |s[p..]|;
    forall k | p <= k < a ensures Blank(s[k]) { assert s[k] == s[p..][k - p] == line.lead[k - p]; }
    assert s[a] == s[p..][a - p] == line.text[0];
    assert s[b] == s[p..][b - p] && s[b + 1] == s[p..][b + 1 - p];
    assert s[b + 2..] == s[p..][b + 2 - p..];
    assert s[a..b] == s[p..][a - p..b - p] == line.text + line.trail;
    forall k | a <= k < b ensures s[k] != CR && !NotText(s[k]) {
      assert s[k] == (line.text + line.trail)[k - a];
      if k - a < |line.text| { assert s[k] in line.text; } else { assert s[k] in line.trail; }
    }
  }

  lemma LineTrimmed(acc: bytes, line: Line)
    requires PlainLine(line)
    ensures TrimRight(acc + line.text + line.trail) == acc + line.text
  {
    assert (acc + line.text)[|acc| + |line.text| - 1] == line.text[|line.text| - 1];
    Trimmed(acc + line.text, line.trail);
  }

  // One line up to its line feed
  lemma LineRead(s: bytes, p: nat, acc: bytes, line: Line, more: bytes)
    requires p <= |s| && s[p..] == line.lead + line.text + line.trail + [CR, LF] + more && PlainLine(line)
    requires |acc| + |line.text| + |line.trail| < HEADER_VALUE_MAX
    ensures var b := p + |line.lead| + |line.text| + |line.trail|;
      && b + 2 <= |s| && ValueLine(s, p, acc) == ValueEnd(s, b + 1, acc + line.text + line.trail) && s[b + 2..] == more
      && s[b + 1] == LF && TrimRight(acc + line.text + line.trail) == acc + line.text
  {
    hide PlainLine, TrimRight, NotText, Blank;
    var a := p + |line.lead|;
    var b := a + |line.text| + |line.trail|;
    Placed(s, p, line, more);
    LeadSkipped(s, p, a, acc);
    TextScanned(s, a, b, acc);
    assert acc + s[a..b] == acc + line.text + line.trail;
    LineTrimmed(acc, line);
  }

  // Behind the line feed: another line, or the end
  lemma Continued(s: bytes, b: nat, acc: bytes, value: bytes, more: bytes)
    requires b + 2 <= |s| && s[b + 1] == LF && s[b + 2..] == more && more != [] && TrimRight(acc) == value
    ensures Blank(more[0]) ==> s[b + 3..] == more[1..] && ValueEnd(s, b + 1, acc) == ValueLine(s, b + 3, value + [SP])
    ensures !Blank(more[0]) ==> ValueEnd(s, b + 1, acc) == Done(value, b + 2)
  {
    assert |s| - (b + 2) == |more| && s[b + 2] == s[b + 2..][0];
    assert s[b + 3..] == s[b + 2..][1..];
  }

  // The lines but the first, the blank that tells them from another field taken off
  lemma Following(lines: seq<Line>) returns (rest: seq<Line>)
    requires Foldable(lines) && |lines| >= 2
    ensures Foldable(rest) && |rest| == |lines| - 1
    ensures Raw(lines[1..]) != [] && Blank(Raw(lines[1..])[0]) && Raw(lines[1..])[1..] == Raw(rest)
    ensures Joined(lines) == lines[0].text + [SP] + Joined(rest)
  {
    var next := lines[1];
    rest := [next.(lead := next.lead[1..])] + lines[2..];
    assert lines[1..][1..] == lines[2..] && rest[1..] == lines[2..];
    assert next.lead[0] in next.lead;
    assert Raw(lines[1..]) == [next.lead[0]] + Raw(rest);
    assert Joined(rest) == Joined(lines[1..]);
    FoldableRest(lines, rest);
  }

  lemma FoldableRest(lines: seq<Line>, rest: seq<Line>)
    requires Foldable(lines) && |lines| >= 2 && rest == [lines[1].(lead := lines[1].lead[1..])] + lines[2..]
    ensures Foldable(rest)
  {
    forall i | 0 <= i < |rest| ensures PlainLine(rest[i]) && (i > 0 ==> rest[i].lead != []) {
      assert PlainLine(lines[i + 1]);
      if i > 0 { assert rest[i] == lines[i + 1]; }
    }
  }

  lemma FirstLine(lines: seq<Line>, rest: bytes)
    requires lines != []
    ensures var line := lines[0]; Raw(lines) + rest == line.lead + line.text + line.trail + [CR, LF] + (Raw(lines[1..]) + rest)
    ensures |Raw(lines)| == |lines[0].lead| + |lines[0].text| + |lines[0].trail| + 2 + |Raw(lines[1..])|
    ensures |lines| == 1 ==> Raw(lines[1..]) == [] && Joined(lines) == lines[0].text
  {
    var head, more := lines[0].lead + lines[0].text + lines[0].trail + [CR, LF], Raw(lines[1..]);
    assert Raw(lines) == head + more;
    Regrouped(head, more, rest);
  }

  lemma Regrouped(a: bytes, b: bytes, c: bytes)
    ensures (a + b) + c == a + (b + c)
  {
  }

  // What is read of the lines, and where: another line, or the end
  lemma {:induction false} LinesRead(s: bytes, p: nat, acc: bytes, lines: seq<Line>, rest: bytes)
    requires p <= |s| && s[p..] == Raw(lines) + rest && Foldable(lines) && rest != []
    requires |acc| + |Raw(lines)| < HEADER_VALUE_MAX
    ensures !Blank(rest[0]) ==> ValueLine(s, p, acc) == Done(acc + Joined(lines), p + |Raw(lines)|)
    ensures Blank(rest[0]) ==> p + |Raw(lines)| < |s|
    ensures Blank(rest[0]) ==> ValueLine(s, p, acc) == ValueLine(s, p + |Raw(lines)| + 1, acc + Joined(lines) + [SP])
    decreases |lines|
  {
    hide Raw, Joined, PlainText, Blanks, ValueLine, ValueEnd, TrimRight, Blank;
    var line, more := lines[0], Raw(lines[1..]) + rest;
    var b := p + |line.lead| + |line.text| + |line.trail|;
    FirstLine(lines, rest);
    LineRead(s, p, acc, line, more);
    Continued(s, b, acc + line.text + line.trail, acc + line.text, more);
    if |lines| == 1 {
      assert more == rest;
    } else {
      var rest1 := Following(lines);
      assert more[1..] == Raw(rest1) + rest;
      LinesRead(s, b + 3, acc + line.text + [SP], rest1, rest);
      assert acc + line.text + [SP] + Joined(rest1) == acc + (line.text + [SP] + Joined(rest1));
    }
  }

  // However a value is folded, and whatever blanks are around its lines, their texts are read,
  // joined by single spaces, up to the line that does not begin with a blank.
  lemma FoldedValueReads(lines: seq<Line>, rest: bytes)
    requires Foldable(lines) && |Raw(lines)| < HEADER_VALUE_MAX && rest != [] && !Blank(rest[0])
    ensures HeaderValue(Raw(lines) + rest) == Done(Joined(lines), |Raw(lines)|)
  {
    var s := Raw(lines) + rest;
    assert s[0..] == s && [] + Joined(lines) == Joined(lines);
    LinesRead(s, 0, [], lines, rest);
  }

  // ---------------------------------------------------------------------------------
  // What is refused

  // Bytes a line may hold
  predicate Text(text: bytes) {
    (text == [] || !Blank(text[0])) && forall c :: c in text ==> c != CR && !NotText(c)
  }

  // The lines before the one that is being read, if any
  predicate Before(lines: seq<Line>, lead: bytes) {
    (lines == [] || (Foldable(lines) && lead != [])) && Blanks(lead) && |Raw(lines)| < HEADER_VALUE_MAX
  }

  function Collected(lines: seq<Line>): bytes {
    if lines == [] then [] else Joined(lines) + [SP]
  }

  // Up to the text of the last line
  lemma TextEntered(lines: seq<Line>, lead: bytes, rest: bytes)
    requires Before(lines, lead) && rest != [] && !Blank(rest[0])
    ensures var s, p := Raw(lines) + lead + rest, |Raw(lines)| + |lead|;
      s[p..] == rest && HeaderValue(s) == ValueText(s, p, Collected(lines))
  {
    hide Joined, Foldable, ValueLine;
    var s, n, p := Raw(lines) + lead + rest, |Raw(lines)|, |Raw(lines)| + |lead|;
    LeadIsBlank(s, n, lead, rest);
    if lines != [] {
      assert s[0..] == Raw(lines) + (lead + rest);
      LinesRead(s, 0, [], lines, lead + rest);
      assert [] + Joined(lines) + [SP] == Collected(lines);
      LeadSkipped(s, n + 1, p, Collected(lines));
    } else {
      LeadSkipped(s, 0, p, []);
    }
    NowText(s, p, Collected(lines));
  }

  lemma LeadIsBlank(s: bytes, n: nat, lead: bytes, rest: bytes)
    requires n <= |s| && s[n..] == lead + rest && Blanks(lead) && rest != []
    ensures n + |lead| < |s| && s[n + |lead|..] == rest && s[n + |lead|] == rest[0]
    ensures forall k :: n <= k < n + |lead| ==> Blank(s[k])
    ensures lead != [] ==> Blank((lead + rest)[0])
  {
    assert s[n + |lead|..] == s[n..][|lead|..];
    forall k | n <= k < n + |lead| ensures Blank(s[k]) { assert s[k] == s[n..][k - n] == lead[k - n]; }
    if lead != [] { assert lead[0] in lead; }
  }

  lemma NowText(s: bytes, p: nat, acc: bytes)
    requires p < |s| && !Blank(s[p])
    ensures ValueLine(s, p, acc) == ValueText(s, p, acc)
  {
  }

  lemma TextPassed(s: bytes, p: nat, acc: bytes, text: bytes, n: nat)
    requires p <= |s| && text <= s[p..] && Text(text) && n <= |text| && p + n < |s| && |acc| + n <= HEADER_VALUE_MAX
    ensures ValueText(s, p, acc) == ValueText(s, p + n, acc + text[..n])
  {
    forall k | p <= k < p + n ensures s[k] != CR && !NotText(s[k]) { assert s[k] == s[p..][k - p] == text[k - p] && text[k - p] in text; }
    assert s[p..p + n] == s[p..][..n] == text[..n];
    TextScanned(s, p, p + n, acc);
  }

  // A byte that is no text, and a carriage return without a line feed
  lemma BadByteRefused(lines: seq<Line>, lead: bytes, text: bytes, bad: bytes)
    requires Before(lines, lead) && Text(text) && |Collected(lines)| + |text| <= HEADER_VALUE_MAX
    requires |bad| >= 2 && (NotText(bad[0]) || (bad[0] == CR && bad[1] != LF))
    ensures HeaderValue(Raw(lines) + lead + (text + bad)).Bad?
  {
    hide Raw, Joined, Foldable, HeaderValue;
    var rest := text + bad;
    var s, p := Raw(lines) + lead + rest, |Raw(lines)| + |lead|;
    TextEntered(lines, lead, rest);
    TextPassed(s, p, Collected(lines), text, |text|);
    var q := p + |text|;
    assert s[q] == s[p..][|text|] == bad[0] && s[q + 1] == s[p..][|text| + 1] == bad[1];
  }

  // More text than there is room for
  lemma LongValueRefused(lines: seq<Line>, lead: bytes, text: bytes, more: bytes)
    requires Before(lines, lead) && Text(text) && more != []
    requires |Collected(lines)| <= HEADER_VALUE_MAX <= |Collected(lines)| + |text| && text != []
    ensures HeaderValue(Raw(lines) + lead + (text + more)).Bad?
  {
    hide Raw, Joined, Foldable, HeaderValue;
    var rest := text + more;
    var s, p := Raw(lines) + lead + rest, |Raw(lines)| + |lead|;
    var n := HEADER_VALUE_MAX - |Collected(lines)|;
    TextEntered(lines, lead, rest);
    TextPassed(s, p, Collected(lines), text, n);
  }
}
