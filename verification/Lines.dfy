// What the parser makes of any one line, and what any sent message arrives as.
module Lines {
  import opened Options
  import opened Splitting
  import opened ProtocolMessages
  import opened ProtocolText
  import opened ParserRuns
  import opened Chunks
  import opened RoundTrip
  import opened BufferedParsers

  // The position of the first c, or the length.
  function IndexOf(s: string, c: char): nat {
    if s == "" || s[0] == c then 0 else 1 + IndexOf(s[1..], c)
  }

  lemma {:induction false} IndexIs(s: string, c: char, i: nat)
    requires i <= |s| && c !in s[..i] && (i < |s| ==> s[i] == c)
    ensures IndexOf(s, c) == i
    decreases i
  {
    if i > 0 {
      assert s[0] == s[..i][0];
      assert s[1..][..i - 1] == s[..i][1..];
      IndexIs(s[1..], c, i - 1);
    }
  }

  lemma {:induction false} FoundAt(s: string, c: char)
    ensures var i := IndexOf(s, c); i <= |s| && c !in s[..i] && (i < |s| ==> s[i] == c)
    decreases |s|
  {
    if s != "" && s[0] != c {
      FoundAt(s[1..], c);
      var i := IndexOf(s, c);
      assert s[..i] == [s[0]] + s[1..][..i - 1];
    }
  }

  lemma {:induction false} FoundBefore(s: string, c: char, k: nat)
    requires k < |s| && s[k] == c
    ensures IndexOf(s, c) <= k
    decreases k
  {
    if k > 0 && s[0] != c { FoundBefore(s[1..], c, k - 1); }
  }

  // The text up to and including its first colon, or all of it.
  function UpToColon(s: string): string {
    var j := IndexOf(s, ':');
    if j < |s| then s[..j + 1] else s
  }

  lemma {:induction false} FindColon(s: string)
    ensures var i := IndexOf(s, ':'); Find(s, LINE_DELIMITER, 0) == if i < |s| then i else -1
  {
    var i := IndexOf(s, ':');
    FoundAt(s, ':');
    forall k: nat | k < i
      ensures !OccursAt(s, LINE_DELIMITER, k)
    {
      assert s[k] == s[..i][k] && s[k..k + 1] == [s[k]];
    }
    if i < |s| {
      assert s[i..i + 1] == [s[i]];
      FindIsLeast(s, LINE_DELIMITER, 0, i);
    } else {
      FindNone(s, LINE_DELIMITER, 0);
    }
  }

  lemma {:induction false} FirstTokens(line: string)
    ensures var i, fields := IndexOf(line, ':'), Split(line, LINE_DELIMITER);
      if i + 1 >= |line| then |fields| < 2
      else |fields| >= 2 && fields[0] == line[..i] + ":" && fields[1] == UpToColon(line[i + 1..])
  {
    var i := IndexOf(line, ':');
    FindColon(line);
    FoundAt(line, ':');
    if i < |line| {
      var rest := line[i + 1..];
      FindColon(rest);
    }
  }

  lemma {:induction false} FieldTaken(st: ParserState, line: string, name: string, value: string)
    requires !st.first
    requires var fields := Split(line, LINE_DELIMITER); |fields| >= 2 && fields[0] == name + ":" && fields[1] == value
    ensures FullLine(st, line) == (st.(data := st.data[name := value]), None)
  {
    assert (name + ":")[..|name|] == name;
  }

  lemma {:induction false} FieldRefused(st: ParserState, line: string)
    requires !st.first && |Split(line, LINE_DELIMITER)| < 2
    ensures FullLine(st, line) == (st, Some(MissingDelimiter))
  {
  }

  // A complete field line throws exactly if its first colon is missing or its last character. Otherwise
  // the name is what is in front of that colon, and the value ends with the next colon or the line.
  lemma {:induction false} FieldLineExact(st: ParserState, line: string)
    requires !st.first
    ensures var i := IndexOf(line, ':');
      FullLine(st, line) ==
      if i + 1 >= |line| then (st, Some(MissingDelimiter))
      else (st.(data := st.data[line[..i] := UpToColon(line[i + 1..])]), None)
  {
    var i := IndexOf(line, ':');
    FirstTokens(line);
    if i + 1 < |line| {
      FieldTaken(st, line, line[..i], UpToColon(line[i + 1..]));
    } else {
      FieldRefused(st, line);
    }
  }

  // The method whose text is this line, unless the parser refuses it.
  ghost predicate NamesMethod(line: string, m: MethodName) {
    m != PARSING_FAILED && SerializeMethodName(m) == line
  }

  // Any token that ends in a newline, behind whatever was cached of its line.
  lemma {:induction false} LineExact(r: Run, line: string)
    requires r.Ok()
    ensures var whole, q, st := r.st.line + line, Feed(r, line + "\n"), r.st.(line := "");
      var i := IndexOf(whole, ':');
      && q.out == r.out
      && if |whole| + 1 > 10000000 then q.st == r.st && q.error == Some(LineTooLong)
         else if r.st.first && |whole| + 1 > 32 then q.st == r.st && q.error == Some(MethodNameTooLong)
         else if r.st.first then
           && (q.Ok() <==> exists m :: NamesMethod(whole, m))
           && (q.Ok() ==> NamesMethod(whole, q.st.methodName) && q.st == st.(methodName := q.st.methodName, first := false))
           && (!q.Ok() ==> q.st == st && q.error == Some(MethodNameNotAllowed))
         else if i + 1 >= |whole| then q.st == st && q.error == Some(MissingDelimiter)
         else q.st == st.(data := st.data[whole[..i] := UpToColon(whole[i + 1..])]) && q.error == None
  {
    var token, whole, st := line + "\n", r.st.line + line, r.st.(line := "");
    assert token[|token| - 1..] == "\n" && token[..|token| - 1] == line;
    if !st.first {
      FieldLineExact(st, whole);
    } else {
      MethodLine(whole);
    }
  }

  lemma MethodLine(line: string)
    ensures ParseMethodName(line) != PARSING_FAILED ==> NamesMethod(line, ParseMethodName(line))
    ensures forall m :: NamesMethod(line, m) ==> ParseMethodName(line) == m
  {
    if line in METHOD_NAME_TABLE { TableIsInverse(line); }
    forall m | NamesMethod(line, m)
      ensures ParseMethodName(line) == m
    {
      SerializeIsInverse(m);
    }
  }

  // A token without a newline is cached, within the same limits.
  lemma PartExact(r: Run, part: string)
    requires r.Ok() && (part == "" || part[|part| - 1] != '\n')
    ensures var size := |r.st.line| + |part|;
      Feed(r, part) ==
      if size > 10000000 then r.(error := Some(LineTooLong))
      else if r.st.first && size > 32 then r.(error := Some(MethodNameTooLong))
      else r.(st := r.st.(line := r.st.line + part))
  {
    if part != "" { assert part[|part| - 1..] == [part[|part| - 1]]; }
  }

  // ---- Any message a sender may write ----

  lemma {:induction false} FieldColon(f: Field)
    ensures IndexOf(FieldLine(f), ':') <= |f.0|
  {
    assert FieldLine(f)[|f.0|] == ':';
    FoundBefore(FieldLine(f), ':', |f.0|);
  }

  // What a field arrives as.
  function Arrives(f: Field): Field {
    var i := IndexOf(FieldLine(f), ':');
    FieldColon(f);
    (FieldLine(f)[..i], UpToColon(FieldLine(f)[i + 1..]))
  }

  function AllArrive(order: seq<Field>): (fields: seq<Field>)
    ensures |fields| == |order| && forall i :: 0 <= i < |order| ==> fields[i] == Arrives(order[i])
  {
    seq(|order|, i requires 0 <= i < |order| => Arrives(order[i]))
  }

  // The parser takes its line.
  predicate Passes(f: Field) {
    && '\n' !in FieldLine(f) && |FieldLine(f)| + 1 <= 10000000
    && IndexOf(FieldLine(f), ':') + 1 < |FieldLine(f)|
  }

  ghost predicate AllPass(order: seq<Field>) {
    forall i :: 0 <= i < |order| ==> Passes(order[i])
  }

  lemma {:induction false} FieldArrives(r: Run, f: Field)
    requires AtLineStart(r) && !r.st.first && Passes(f)
    ensures Feed(r, FieldLine(f) + "\n") == r.(st := r.st.(data := r.st.data[Arrives(f).0 := Arrives(f).1]))
  {
    assert "" + FieldLine(f) == FieldLine(f);
    LineExact(r, FieldLine(f));
  }

  lemma {:induction false} FieldsArrive(r: Run, order: seq<Field>)
    requires AtLineStart(r) && !r.st.first && AllPass(order)
    ensures Text(r, LinesText(FieldLines(order))) == r.(st := r.st.(data := SetFields(r.st.data, AllArrive(order))))
    decreases |order|
  {
    if order != [] {
      var f, rest := order[0], order[1..];
      assert Passes(f);
      assert FieldLines(order)[1..] == FieldLines(rest) && AllArrive(order)[1..] == AllArrive(rest);
      TextLine(r, FieldLine(f), LinesText(FieldLines(rest)));
      FieldArrives(r, f);
      assert forall i :: 0 <= i < |rest| ==> rest[i] == order[i + 1];
      FieldsArrive(Feed(r, FieldLine(f) + "\n"), rest);
    }
  }

  lemma FieldLineGood(f: Field)
    requires Passes(f)
    ensures GoodLine(FieldLine(f))
  {
    assert FieldLine(f)[|f.0|] == ':';
  }

  lemma {:induction false} SentLinesGood(m: MethodName, order: seq<Field>)
    requires AllPass(order)
    ensures forall i :: 0 <= i < |order| + 1 ==> GoodLine(MessageLines(m, order)[i])
    ensures order == [] ==> !EndsWithReturn(MessageLines(m, order)[0])
  {
    MethodTextPlain(m);
    var name := SerializeMethodName(m);
    assert name[|name| - 1] in name;
    forall i | 0 < i < |order| + 1
      ensures GoodLine(MessageLines(m, order)[i])
    {
      FieldLineGood(order[i - 1]);
    }
  }

  lemma {:induction false} MessageTextArrives(out: seq<ProtocolData>, m: MethodName, order: seq<Field>)
    requires m != PARSING_FAILED && AllPass(order)
    ensures EndMessage(Text(Run(FRESH, out, None), LinesText(MessageLines(m, order)))) ==
            Run(FRESH, out + [ProtocolData(m, SetFields(map[], AllArrive(order)))], None)
  {
    var r := Run(FRESH, out, None);
    var name := SerializeMethodName(m);
    MethodTextPlain(m);
    assert MessageLines(m, order)[1..] == FieldLines(order);
    TextLine(r, name, LinesText(FieldLines(order)));
    FeedMethod(r, m);
    FieldsArrive(Feed(r, name + "\n"), order);
  }

  // A message whose lines all pass, the last one not ending in a carriage return, arrives with the
  // fields its lines say, whatever follows it.
  lemma {:induction false} SentArrives(out: seq<ProtocolData>, m: MethodName, order: seq<Field>, rest: string)
    requires m != PARSING_FAILED && AllPass(order)
    requires order != [] ==> !EndsWithReturn(FieldLine(order[|order| - 1]))
    ensures Parse(Run(FRESH, out, None), MessageText(m, order) + rest) ==
            Parse(Run(FRESH, out + [ProtocolData(m, SetFields(map[], AllArrive(order)))], None), rest)
  {
    var ls := MessageLines(m, order);
    SentLinesGood(m, order);
    FindEndAfter(ls, rest);
    assert MessageText(m, order) == LinesText(ls) + END_SEQUENCE;
    ParseEnd(Run(FRESH, out, None), LinesText(ls), rest);
    MessageTextArrives(out, m, order);
  }

  // A value with a colon inside arrives cut behind its first colon, and every other one as it was sent.
  lemma {:induction false} ValueArrives(f: Field)
    requires ':' !in f.0
    ensures Arrives(f) == (f.0, UpToColon(f.1))
    ensures UpToColon(f.1) == f.1 <==> f.1 == "" || ':' !in f.1[..|f.1| - 1]
  {
    var line, j := FieldLine(f), IndexOf(f.1, ':');
    assert line[|f.0|] == ':' && line[..|f.0|] == f.0 && line[|f.0| + 1..] == f.1;
    IndexIs(line, ':', |f.0|);
    FoundAt(f.1, ':');
    if j + 1 < |f.1| {
      assert f.1[..|f.1| - 1][j] == ':';
    } else if f.1 != "" {
      assert f.1[..|f.1| - 1] == f.1[..j][..|f.1| - 1];
    }
  }

  // ---- What a call hands to its caller ----

  function Handed(result: ParseResult): seq<ProtocolData> {
    match result
    case Messages(messages) => messages
    case _ => []
  }

  // A call hands over nothing at all if it completed no message, and all of them otherwise; but one that
  // throws hands over none.
  lemma ResultExact(r: Run)
    ensures r.error.Some? ==> ResultOf(r) == Thrown(r.error.value)
    ensures r.error.None? ==> Handed(ResultOf(r)) == r.out && (ResultOf(r) == Nothing <==> r.out == [])
  {
  }

  // So messages that would arrive in calls of their own are lost behind a bad rest in the same chunk.
  lemma {:induction false} ErrorHidesMessages(st: ParserState, a: string, b: string)
    requires CleanCut(a + b, |a|)
    requires var first := Parse(Run(st, [], None), a); first.Ok() && !Parse(Run(first.st, [], None), b).Ok()
    ensures Handed(ResultOf(Parse(Run(st, [], None), a))) == Parse(Run(st, [], None), a).out
    ensures ResultOf(Parse(Run(st, [], None), a + b)).Thrown? && Handed(ResultOf(Parse(Run(st, [], None), a + b))) == []
  {
    var r := Run(st, [], None);
    ParseConcat(r, a, b);
    ParseBehind(Parse(r, a), b);
  }
}
