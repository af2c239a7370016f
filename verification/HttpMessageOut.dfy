/**
  src/protocol/HttpMessage.cc: a message is laid out in at most max vectors, the blocks of its
  body joined into one where there would be too many.
 */
module HttpMessageOut {
  import opened Collections
  import opened HttpSyntax
  import opened HttpRoundTrip
  import opened HttpParserObject

  datatype EncodeResult = Vectors(cnt: nat) | EBADMSG | EOVERFLOW

  lemma Merged(blocks: seq<bytes>, pos: nat)
    requires pos <= |blocks|
    ensures Flat(blocks[..pos] + [Flat(blocks[pos..])]) == Flat(blocks)
  {
    var rest := blocks[pos..];
    assert blocks == blocks[..pos] + rest;
    FlatSplit(blocks[..pos], rest);
    FlatSplit(blocks[..pos], [Flat(rest)]);
    assert Flat([Flat(rest)]) == Flat(rest) + Flat([]);
  }

  // The lines the header cursor yields
  function LinesOf(lines: seq<HeaderLine>): seq<bytes>
    requires forall i :: 0 <= i < |lines| ==> lines[i].Valid()
  {
    seq(|lines|, i requires 0 <= i < |lines| => lines[i].Line())
  }

  lemma {:induction false} LinesAreFields(lines: seq<HeaderLine>)
    requires AllValid(lines)
    ensures Flat(LinesOf(lines)) == FieldLines(Fields(lines))
    decreases |lines|
  {
    if lines != [] {
      LineReads(lines[0]);
      LinesAreFields(lines[1..]);
      assert LinesOf(lines)[1..] == LinesOf(lines[1..]);
      assert Fields(lines)[1..] == Fields(lines[1..]);
    }
  }

  class HttpMessage {
    const parser: HttpParser
    var outputBody: seq<bytes>
    var outputBodySize: nat

    ghost predicate Valid()
      reads this
    {
      outputBodySize == |Flat(outputBody)|
    }

    constructor (parser: HttpParser)
      ensures Valid() && outputBody == [] && this.parser == parser
    {
      this.parser := parser;
      outputBody, outputBodySize := [], 0;
    }

    // HttpMessage.cc:17-50
    method AppendOutputBody(buf: bytes)
      requires Valid()
      modifies this
      ensures Valid() && Flat(outputBody) == old(Flat(outputBody)) + buf
    {
      FlatSplit(outputBody, [buf]);
      assert Flat([buf]) == buf + Flat([]);
      outputBody := outputBody + [buf];
      outputBodySize := outputBodySize + |buf|;
    }

    // HttpMessage.cc:52-65
    method ClearOutputBody()
      modifies this
      ensures Valid() && outputBody == []
    {
      outputBody, outputBodySize := [], 0;
    }

    // combine_from (HttpMessage.cc:67-95): the blocks from pos on become one of the given size.
    method CombineFrom(pos: nat, size: nat)
      requires Valid() && pos < |outputBody| && size == |Flat(outputBody[pos..])|
      modifies this`outputBody
      ensures Valid() && outputBody == old(outputBody[..pos]) + [old(Flat(outputBody[pos..]))]
      ensures Flat(outputBody) == old(Flat(outputBody))
    {
      hide Flat;
      ghost var all, rest := outputBody, outputBody[pos..];
      var block := new byte[size];
      var ptr := 0;
      while pos < |outputBody|
        invariant outputBodySize == |Flat(all)|
        invariant pos <= |outputBody| <= |all| && outputBody == all[..pos] + all[pos + |all| - |outputBody|..]
        invariant 0 <= ptr <= block.Length && block[..ptr] + Flat(outputBody[pos..]) == Flat(rest)
        decreases |outputBody|
      {
        var entry := outputBody[pos];
        FlatFirst(outputBody, pos);
        ghost var sofar := block[..ptr];
        forall i | 0 <= i < |entry| {
          block[ptr + i] := entry[i];
        }
        assert block[..ptr + |entry|] == sofar + entry;
        outputBody := outputBody[..pos] + outputBody[pos + 1..];
        assert outputBody[pos..] == old(outputBody)[pos + |all| - |outputBody|..];
        ptr := ptr + |entry|;
      }
      FlatNone(outputBody[pos..]);
      assert block[..] == block[..ptr] == Flat(rest);
      outputBody := outputBody + [block[..]];
      assert outputBody == all[..pos] + [Flat(rest)];
      Merged(all, pos);
      assert Flat(outputBody) == Flat(all);
    }

    // The start line's three parts as encode takes them (HttpMessage.cc:107-124)
    method StartLineParts() returns (parts: Option<Parts>)
      ensures parts == SentStart(parser.verb, parser.uri, parser.version, parser.code, parser.phrase)
    {
      var first, second, third := parser.verb, parser.uri, parser.version;
      if first.None? {
        first, second, third := parser.version, parser.code, parser.phrase;
      }
      if first.None? || second.None? || third.None? {
        return None;
      }
      return Some(Parts(first.value, second.value, third.value));
    }

    // HttpMessage.cc:126-164: start line, header fields and the empty line
    method EncodeHead(start: Parts, vectors: array<bytes>) returns (ret: Option<nat>)
      requires vectors.Length >= 6 && AllValid(parser.headerList)
      modifies vectors
      ensures ret.None? <==> 6 + |parser.headerList| + 1 >= vectors.Length
      ensures ret.Some? ==> ret.value == 7 + |parser.headerList| < vectors.Length
      ensures ret.Some? ==>
        Flat(vectors[..ret.value]) == LineOf(start) + [CR, LF] + FieldLines(Fields(parser.headerList)) + [CR, LF]
    {
      hide Flat, LineOf, FieldLines, Fields, LinesOf;
      vectors[0], vectors[1] := start.first, [SP];
      vectors[2], vectors[3] := start.second, [SP];
      vectors[4], vectors[5] := start.third, [CR, LF];
      assert vectors[..6] == [start.first, [SP], start.second, [SP], start.third, [CR, LF]];
      SixVectors(start.first, start.second, start.third);
      var lines := parser.headerList;
      ghost var head := Flat(vectors[..6]);
      NoLines(lines, head);
      var i := 6;
      var k := 0;
      while k < |lines|
        invariant 0 <= k <= |lines| && i == 6 + k <= vectors.Length
        invariant Flat(vectors[..i]) == head + Flat(LinesOf(lines[..k]))
      {
        if i == vectors.Length {
          break;
        }
        ghost var sofar := vectors[..i];
        vectors[i] := lines[k].Line();
        assert vectors[..i + 1] == sofar + [lines[k].Line()];
        FlatLast(sofar, lines[k].Line());
        OneMoreLine(lines, k, head);
        i, k := i + 1, k + 1;
      }
      if i + 1 >= vectors.Length {
        return None;
      }
      assert lines[..k] == lines;
      LinesAreFields(lines);
      ghost var sofar := vectors[..i];
      vectors[i] := [CR, LF];
      assert vectors[..i + 1] == sofar + [[CR, LF]];
      FlatLast(sofar, [CR, LF]);
      return Some(i + 1);
    }

    // encode (HttpMessage.cc:97-184), given room for the start line at least
    method Encode(max: nat) returns (result: EncodeResult, vectors: array<bytes>)
      requires Valid() && max >= 6 && AllValid(parser.headerList)
      modifies this`outputBody
      ensures Valid() && Flat(outputBody) == old(Flat(outputBody)) && fresh(vectors)
      ensures var start := SentStart(parser.verb, parser.uri, parser.version, parser.code, parser.phrase);
        && (result.EBADMSG? <==> start.None?)
        && (result.EOVERFLOW? <==> start.Some? && 7 + |parser.headerList| >= max)
        && (result.Vectors? ==> start.Some? && result.cnt <= max == vectors.Length)
        && (result.Vectors? ==>
              Flat(vectors[..result.cnt]) == Encoded(start.value, Fields(parser.headerList), Flat(outputBody)))
    {
      hide Flat, LineOf, FieldLines, Fields;
      vectors := new bytes[max](i => []);
      var start := StartLineParts();
      if start.None? {
        return EBADMSG, vectors;
      }
      var head := EncodeHead(start.value, vectors);
      if head.None? {
        return EOVERFLOW, vectors;
      }
      var i := head.value;
      ghost var before := Flat(vectors[..i]);
      var size := outputBodySize;
      var pos := 0;
      assert outputBody[0..] == outputBody;
      FlatNone(outputBody[..0]);
      while pos < |outputBody|
        invariant Valid() && Flat(outputBody) == old(Flat(outputBody))
        invariant 0 <= pos <= |outputBody| && i <= max && (pos < |outputBody| ==> i < max)
        invariant size == |Flat(outputBody[pos..])|
        invariant Flat(vectors[..i]) == before + Flat(outputBody[..pos])
        decreases |outputBody| - pos
      {
        if i + 1 == max && pos + 1 != |outputBody| {
          ghost var done := outputBody[..pos];
          CombineFrom(pos, size);
          assert outputBody[..pos] == done;
          assert |outputBody| == pos + 1;
        }
        var block := outputBody[pos];
        ghost var sofar := vectors[..i];
        vectors[i] := block;
        assert vectors[..i + 1] == sofar + [block];
        FlatLast(sofar, block);
        assert outputBody[..pos + 1] == outputBody[..pos] + [block];
        FlatLast(outputBody[..pos], block);
        FlatFirst(outputBody, pos);
        FlatNone(outputBody[pos + 1..]);
        size := size - |block|;
        i, pos := i + 1, pos + 1;
      }
      assert outputBody[..pos] == outputBody;
      return Vectors(i), vectors;
    }
  }

  function SentStart(verb: Option<bytes>, uri: Option<bytes>, version: Option<bytes>, code: Option<bytes>, phrase: Option<bytes>): Option<Parts> {
    if verb.Some? then if uri.Some? && version.Some? then Some(Parts(verb.value, uri.value, version.value)) else None
    else if version.Some? && code.Some? && phrase.Some? then Some(Parts(version.value, code.value, phrase.value))
    else None
  }

  lemma FlatFirst(blocks: seq<bytes>, pos: nat)
    requires pos < |blocks|
    ensures Flat(blocks[pos..]) == blocks[pos] + Flat(blocks[pos + 1..])
  {
    assert blocks[pos..][1..] == blocks[pos + 1..];
  }

  lemma FlatNone(blocks: seq<bytes>)
    ensures blocks == [] ==> Flat(blocks) == []
  {
  }

  lemma NoLines(lines: seq<HeaderLine>, head: bytes)
    requires AllValid(lines)
    ensures head == head + Flat(LinesOf(lines[..0]))
  {
    assert Flat([]) == [];
  }

  lemma OneMoreLine(lines: seq<HeaderLine>, k: nat, head: bytes)
    requires AllValid(lines) && k < |lines|
    ensures head + Flat(LinesOf(lines[..k + 1])) == head + Flat(LinesOf(lines[..k])) + lines[k].Line()
  {
    assert LinesOf(lines[..k + 1]) == LinesOf(lines[..k]) + [lines[k].Line()];
    FlatLast(LinesOf(lines[..k]), lines[k].Line());
  }

  lemma FlatLast(vectors: seq<bytes>, v: bytes)
    ensures Flat(vectors + [v]) == Flat(vectors) + v
  {
    FlatSplit(vectors, [v]);
    assert Flat([v]) == v + Flat([]);
  }

  lemma SixVectors(first: bytes, second: bytes, third: bytes)
    ensures Flat([first, [SP], second, [SP], third, [CR, LF]]) == LineOf(Parts(first, second, third)) + [CR, LF]
  {
    var v := [first, [SP], second, [SP], third, [CR, LF]];
    var w1 := v[1..];
    var w2 := w1[1..];
    var w3 := w2[1..];
    var w4 := w3[1..];
    var w5 := w4[1..];
    assert Flat(w5) == [CR, LF] + Flat([]);
    assert Flat(w4) == third + Flat(w5);
    assert Flat(w3) == [SP] + Flat(w4);
    assert Flat(w2) == second + Flat(w3);
    assert Flat(w1) == [SP] + Flat(w2);
  }
}
