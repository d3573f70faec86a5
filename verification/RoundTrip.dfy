// Parsing what was serialized: exactly which messages come back, and that a stream of them does.
module RoundTrip {
  import opened Options
  import opened Splitting
  import opened ProtocolMessages
  import opened ProtocolText
  import opened ParserRuns
  import opened Chunks

  predicate CanonicalField(name: string, value: string) {
    && ':' !in name && '\n' !in name
    && value != "" && '\n' !in value && ':' !in value[..|value| - 1]
  }

  ghost predicate CanonicalData(data: map<string, string>) {
    forall name :: name in data ==> CanonicalField(name, data[name])
  }

  predicate FitsLine(f: Field) {
    |FieldLine(f)| + 1 <= MAX_LINE_LENGTH
  }

  predicate EndsWithReturn(s: string) {
    s != "" && s[|s| - 1] == '\r'
  }

  // What a sender can check before serializing: the message survives the parser.
  ghost predicate Sendable(m: ProtocolData, order: seq<Field>) {
    && m.methodName != PARSING_FAILED
    && CanonicalData(m.data)
    && (forall i :: 0 <= i < |order| ==> FitsLine(order[i]))
    && (order != [] ==> !EndsWithReturn(order[|order| - 1].1))
  }

  // ---- The parser only ever caches and puts out canonical data ----

  ghost predicate CanonicalRun(r: Run) {
    && '\n' !in r.st.line
    && CanonicalData(r.st.data)
    && r.st.methodName != PARSING_FAILED
    && forall i :: 0 <= i < |r.out| ==> CanonicalData(r.out[i].data) && r.out[i].methodName != PARSING_FAILED
  }

  lemma TokenChars(t: string, c: char)
    requires Terminated(t, [c]) || Unterminated(t, [c])
    ensures t != "" && c !in t[..|t| - 1]
    ensures Terminated(t, [c]) ==> t[|t| - 1] == c
  {
    if Terminated(t, [c]) { assert t[|t| - 1..][0] == c; }
    forall i: nat | i < |t| - 1
      ensures t[i] != c
    {
      assert !OccursAt(t, [c], i) && t[i..i + 1] == [t[i]];
    }
  }

  lemma {:induction false} TokenOfWhole(ts: seq<string>, i: nat, c: char)
    requires i < |ts| && c !in Concat(ts)
    ensures c !in ts[i]
    decreases |ts|
  {
    assert forall x :: x in ts[0] || x in Concat(ts[1..]) ==> x in Concat(ts);
    if i > 0 { TokenOfWhole(ts[1..], i - 1, c); }
  }

  lemma FieldsCanonical(line: string)
    requires '\n' !in line && |Split(line, LINE_DELIMITER)| >= 2
    ensures var fields := Split(line, LINE_DELIMITER);
      fields[0] != "" && CanonicalField(fields[0][..|fields[0]| - 1], fields[1])
  {
    var fields := Split(line, LINE_DELIMITER);
    SplitLossless(line, LINE_DELIMITER);
    assert LINE_DELIMITER == [':'];
    assert Terminated(fields[0], LINE_DELIMITER);
    TokenChars(fields[0], ':');
    TokenChars(fields[1], ':');
    TokenOfWhole(fields, 0, '\n');
    TokenOfWhole(fields, 1, '\n');
  }

  lemma FeedKeeps(r: Run, piece: string)
    requires CanonicalRun(r) && piece != "" && '\n' !in piece[..|piece| - 1]
    ensures CanonicalRun(Feed(r, piece))
  {
    if r.Ok() && Piece(r.st, piece).1.None? {
      if EndsWith(piece, END_OF_LINE) {
        var line := r.st.line + piece[..|piece| - 1];
        if !r.st.first { FieldsCanonical(line); }
      } else {
        assert piece == piece[..|piece| - 1] + [piece[|piece| - 1]];
        assert piece[|piece| - 1..] == [piece[|piece| - 1]];
      }
    }
  }

  lemma {:induction false} TextKeeps(r: Run, s: string)
    requires CanonicalRun(r)
    ensures CanonicalRun(Text(r, s))
    decreases |s|
  {
    if '\n' in s {
      var line, rest := FirstLine(s);
      TextLine(r, line, rest);
      assert (line + "\n")[..|line + "\n"| - 1] == line;
      FeedKeeps(r, line + "\n");
      TextKeeps(Feed(r, line + "\n"), rest);
    } else {
      TextPlain(r, s);
      if s != "" { FeedKeeps(r, s); }
    }
  }

  lemma {:induction false} ParseKeeps(r: Run, data: string)
    requires CanonicalRun(r)
    ensures CanonicalRun(Parse(r, data))
    decreases |data|
  {
    if Find(data, END_SEQUENCE, 0) == -1 {
      ParseNoEnd(r, data);
      TextKeeps(r, data);
    } else {
      var body, rest := FirstMessage(data);
      ParseEnd(r, body, rest);
      TextKeeps(r, body);
      ParseKeeps(EndMessage(Text(r, body)), rest);
    }
  }

  // No message the parser puts out has an empty value, whatever it is fed in whatever chunks.
  lemma {:induction false} ParsedIsCanonical(r: Run, chunks: seq<string>)
    requires CanonicalRun(r)
    ensures CanonicalRun(ParseAll(r, chunks))
    decreases |chunks|
  {
    if chunks != [] {
      ParseKeeps(r, chunks[0]);
      ParsedIsCanonical(Parse(r, chunks[0]), chunks[1..]);
    }
  }

  // ---- One line ----

  lemma SplitField(f: Field)
    requires CanonicalField(f.0, f.1)
    ensures var fields := Split(FieldLine(f), LINE_DELIMITER);
      |fields| >= 2 && fields[0] == f.0 + ":" && fields[1] == f.1
  {
    var t := f.0 + ":";
    assert t[|f.0|..|f.0| + 1] == LINE_DELIMITER;
    forall i: nat | i < |f.0|
      ensures !OccursAt(t, LINE_DELIMITER, i)
    {
      assert t[i..i + 1][0] == f.0[i] && f.0[i] in f.0;
    }
    FindIsLeast(t, LINE_DELIMITER, 0, |f.0|);
    assert FieldLine(f) == t + f.1;
    SplitFirst(t, f.1, LINE_DELIMITER);
    SplitValue(f.1);
  }

  lemma SplitValue(v: string)
    requires v != "" && ':' !in v[..|v| - 1]
    ensures Split(v, LINE_DELIMITER) == [v]
  {
    forall i: nat | i < |v| - 1
      ensures !OccursAt(v, LINE_DELIMITER, i)
    {
      NoColonAt(v, i);
    }
    SplitSingle(v, LINE_DELIMITER);
  }

  lemma NoColonAt(v: string, i: nat)
    requires i < |v| - 1 && ':' !in v[..|v| - 1]
    ensures !OccursAt(v, LINE_DELIMITER, i)
  {
    assert v[i..i + 1][0] == v[..|v| - 1][i];
  }

  ghost predicate AtLineStart(r: Run) {
    r.Ok() && r.st.line == ""
  }

  lemma FeedFullLine(r: Run, line: string)
    requires AtLineStart(r)
    ensures EndsWith(line + "\n", END_OF_LINE) && "" + (line + "\n")[..|line + "\n"| - 1] == line
  {
    assert (line + "\n")[|line + "\n"| - 1..] == "\n";
  }

  lemma FeedField(r: Run, f: Field)
    requires AtLineStart(r) && !r.st.first && CanonicalField(f.0, f.1)
    ensures Feed(r, FieldLine(f) + "\n") ==
            if FitsLine(f) then r.(st := r.st.(data := r.st.data[f.0 := f.1])) else r.(error := Some(LineTooLong))
  {
    FeedFullLine(r, FieldLine(f));
    SplitField(f);
    assert (f.0 + ":")[..|f.0|] == f.0;
  }

  lemma FeedMethod(r: Run, m: MethodName)
    requires AtLineStart(r) && r.st.first
    ensures var q := Feed(r, SerializeMethodName(m) + "\n");
      q.Ok() == (m != PARSING_FAILED) && (q.Ok() ==> q == r.(st := r.st.(methodName := m, first := false)))
  {
    FeedFullLine(r, SerializeMethodName(m));
    SerializeIsInverse(m);
    MethodTextPlain(m);
  }

  // ---- The lines of one message ----

  lemma {:induction false} FeedFields(r: Run, order: seq<Field>)
    requires AtLineStart(r) && !r.st.first
    requires forall i :: 0 <= i < |order| ==> CanonicalField(order[i].0, order[i].1)
    ensures var q := Text(r, LinesText(FieldLines(order)));
      if forall i :: 0 <= i < |order| ==> FitsLine(order[i])
      then q == r.(st := r.st.(data := SetFields(r.st.data, order)))
      else !q.Ok()
    decreases |order|
  {
    if order != [] {
      var f, rest := order[0], order[1..];
      assert FieldLines(order)[1..] == FieldLines(rest);
      TextLine(r, FieldLine(f), LinesText(FieldLines(rest)));
      FeedField(r, f);
      var q := Feed(r, FieldLine(f) + "\n");
      if FitsLine(f) {
        FeedFields(q, rest);
        assert forall i :: 0 < i < |order| ==> order[i] == rest[i - 1];
      } else {
        FeedAllStops(q, Split(LinesText(FieldLines(rest)), END_OF_LINE));
      }
    }
  }

  lemma FeedMessage(out: seq<ProtocolData>, m: MethodName, order: seq<Field>)
    requires forall i :: 0 <= i < |order| ==> CanonicalField(order[i].0, order[i].1)
    ensures var q := Text(Run(FRESH, out, None), LinesText(MessageLines(m, order)));
      if m != PARSING_FAILED && forall i :: 0 <= i < |order| ==> FitsLine(order[i])
      then q == Run(ParserState(m, SetFields(map[], order), "", false), out, None)
      else !q.Ok()
  {
    var r := Run(FRESH, out, None);
    var name, fields := SerializeMethodName(m), LinesText(FieldLines(order));
    var q := Feed(r, name + "\n");
    assert Text(r, LinesText(MessageLines(m, order))) == Text(q, fields) by {
      MethodTextPlain(m);
      assert MessageLines(m, order)[1..] == FieldLines(order);
      TextLine(r, name, fields);
    }
    FeedMethod(r, m);
    if m != PARSING_FAILED {
      FeedFields(q, order);
    } else {
      FeedAllStops(q, Split(fields, END_OF_LINE));
    }
  }

  // ---- Where the end sequence is found behind some lines ----

  predicate GoodLine(l: string) {
    '\n' !in l && l != "\r"
  }

  ghost function EndAfter(ls: seq<string>): int
    requires ls != []
  {
    |LinesText(ls)| - if EndsWithReturn(ls[|ls| - 1]) then 2 else 0
  }

  lemma FindEndOne(l: string, rest: string)
    requires GoodLine(l)
    ensures Find(l + "\n" + END_SEQUENCE + rest, END_SEQUENCE, 0) == |l| + 1 - if EndsWithReturn(l) then 2 else 0
  {
    var more := END_SEQUENCE + rest;
    var s := l + "\n" + END_SEQUENCE + rest;
    assert s == l + "\n" + more;
    NoEndInLine(l, more, s);
    var p := if EndsWithReturn(l) then |l| - 1 else |l| + 1;
    assert s[p..p + 4] == END_SEQUENCE;
    FindIsLeast(s, END_SEQUENCE, 0, p);
  }

  lemma FindEndBehind(l: string, next: string, more: string, tail: string)
    requires GoodLine(l) && GoodLine(next) && more == next + "\n" + tail && Find(more, END_SEQUENCE, 0) != -1
    ensures Find(l + "\n" + more, END_SEQUENCE, 0) == |l| + 1 + Find(more, END_SEQUENCE, 0)
  {
    var s := l + "\n" + more;
    NextLineApart(next, tail, more);
    NoEndInLine(l, more, s);
    FindLater(l + "\n", more, s);
  }

  lemma LinesApart(ls: seq<string>, tail: string)
    requires ls != []
    ensures LinesText(ls) + tail == ls[0] + "\n" + (LinesText(ls[1..]) + tail)
  {
  }

  lemma {:induction false} FindEndAfter(ls: seq<string>, rest: string)
    requires ls != [] && forall i :: 0 <= i < |ls| ==> GoodLine(ls[i])
    ensures Find(LinesText(ls) + END_SEQUENCE + rest, END_SEQUENCE, 0) == EndAfter(ls)
    decreases |ls|
  {
    if |ls| == 1 {
      assert LinesText(ls) == ls[0] + "\n";
      FindEndOne(ls[0], rest);
    } else {
      FindEndAfter(ls[1..], rest);
      FindEndMore(ls, LinesText(ls[1..]) + END_SEQUENCE + rest, rest);
    }
  }

  lemma FindEndMore(ls: seq<string>, more: string, rest: string)
    requires |ls| > 1 && GoodLine(ls[0]) && GoodLine(ls[1]) && more == LinesText(ls[1..]) + END_SEQUENCE + rest
    requires Find(more, END_SEQUENCE, 0) == EndAfter(ls[1..])
    ensures Find(LinesText(ls) + END_SEQUENCE + rest, END_SEQUENCE, 0) == EndAfter(ls)
  {
    var tail := END_SEQUENCE + rest;
    assert LinesText(ls) + END_SEQUENCE + rest == LinesText(ls) + tail && more == LinesText(ls[1..]) + tail;
    LinesApart(ls, tail);
    LinesApart(ls[1..], tail);
    FindEndBehind(ls[0], ls[1], more, LinesText(ls[1..][1..]) + tail);
    assert EndAfter(ls) == |ls[0]| + 1 + EndAfter(ls[1..]);
  }

  lemma FindLater(head: string, more: string, s: string)
    requires s == head + more && Find(more, END_SEQUENCE, 0) != -1
    requires forall i: nat :: i < |head| ==> !OccursAt(s, END_SEQUENCE, i)
    ensures Find(s, END_SEQUENCE, 0) == |head| + Find(more, END_SEQUENCE, 0)
  {
    assert s[|head|..] == more;
    FindInSuffix(s, END_SEQUENCE, |head|);
    var p := Find(s, END_SEQUENCE, |head|);
    FindIsLeast(s, END_SEQUENCE, 0, p);
  }

  // Inside a line the end sequence starts at most at its final '\r', and then "\r\n" must follow.
  lemma NoEndInLine(l: string, more: string, s: string)
    requires s == l + "\n" + more && '\n' !in l
    ensures forall i: nat :: i <= |l| && OccursAt(s, END_SEQUENCE, i) ==>
              i == |l| - 1 && EndsWithReturn(l) && "\r\n" <= more
  {
    forall j: nat | j < |l|
      ensures s[j] == l[j] && s[j] != '\n'
    {
      assert l[j] in l;
    }
    forall i: nat | i <= |l| && OccursAt(s, END_SEQUENCE, i)
      ensures i == |l| - 1 && EndsWithReturn(l) && "\r\n" <= more
    {
      var w := s[i..i + 4];
      assert w[0] == s[i] && w[1] == s[i + 1] && w[2] == s[i + 2] && w[3] == s[i + 3];
      assert i == |l| - 1;
      assert s[i + 2] == more[0] && s[i + 3] == more[1];
    }
  }

  lemma NextLineApart(l: string, tail: string, more: string)
    requires GoodLine(l) && more == l + "\n" + tail
    ensures !("\r\n" <= more)
  {
    assert more[|l|] == '\n';
    if |l| > 1 {
      assert more[1] == l[1] && l[1] in l;
    } else if |l| == 1 {
      assert more[0] == l[0] && l == [l[0]];
    }
  }

  // ---- One message in a stream ----

  lemma MessageLinesGood(m: MethodName, order: seq<Field>)
    requires forall i :: 0 <= i < |order| ==> CanonicalField(order[i].0, order[i].1)
    ensures forall i :: 0 <= i < |order| + 1 ==> GoodLine(MessageLines(m, order)[i])
  {
    MethodTextPlain(m);
    forall i | 0 < i < |order| + 1
      ensures GoodLine(MessageLines(m, order)[i])
    {
      var f := order[i - 1];
      assert FieldLine(f)[|f.0|] == ':';
    }
  }

  lemma LastLineReturn(m: MethodName, order: seq<Field>)
    requires forall i :: 0 <= i < |order| ==> CanonicalField(order[i].0, order[i].1)
    ensures EndsWithReturn(MessageLines(m, order)[|order|]) <==> order != [] && EndsWithReturn(order[|order| - 1].1)
  {
    MethodTextPlain(m);
    if order == [] {
      var name := SerializeMethodName(m);
      assert name[|name| - 1] in name;
    } else {
      var f := order[|order| - 1];
      assert FieldLine(f)[|FieldLine(f)| - 1] == f.1[|f.1| - 1];
    }
  }

  lemma OrderedCanonical(m: ProtocolData, order: seq<Field>)
    requires IsOrder(m.data, order) && CanonicalData(m.data)
    ensures forall i :: 0 <= i < |order| ==> CanonicalField(order[i].0, order[i].1)
  {
    SetFieldsHolds(map[], order);
  }

  lemma SendableArrives(out: seq<ProtocolData>, m: ProtocolData, order: seq<Field>, rest: string)
    requires IsOrder(m.data, order) && Sendable(m, order)
    ensures Parse(Run(FRESH, out, None), MessageText(m.methodName, order) + rest) == Parse(Run(FRESH, out + [m], None), rest)
  {
    OrderedCanonical(m, order);
    var ls := MessageLines(m.methodName, order);
    MessageLinesGood(m.methodName, order);
    LastLineReturn(m.methodName, order);
    FindEndAfter(ls, rest);
    assert MessageText(m.methodName, order) == LinesText(ls) + END_SEQUENCE;
    ParseEnd(Run(FRESH, out, None), LinesText(ls), rest);
    FeedMessage(out, m.methodName, order);
  }

  lemma UnsendableThrows(out: seq<ProtocolData>, m: ProtocolData, order: seq<Field>, rest: string)
    requires IsOrder(m.data, order) && CanonicalData(m.data) && !Sendable(m, order)
    requires !("\r\n" <= rest)
    ensures !Parse(Run(FRESH, out, None), MessageText(m.methodName, order) + rest).Ok()
  {
    OrderedCanonical(m, order);
    var r := Run(FRESH, out, None);
    var ls := MessageLines(m.methodName, order);
    var text := LinesText(ls);
    MessageLinesGood(m.methodName, order);
    LastLineReturn(m.methodName, order);
    FindEndAfter(ls, rest);
    var s := text + END_SEQUENCE + rest;
    assert MessageText(m.methodName, order) + rest == s;
    if EndsWithReturn(ls[|order|]) {
      EarlyEnd(r, ls, rest);
    } else {
      ParseEnd(r, text, rest);
      FeedMessage(out, m.methodName, order);
      TokenAllStops(EndMessage(Text(r, text)), Split(rest, END_SEQUENCE));
    }
  }

  // A value ending in '\r' closes the message two characters early and leaves "\r\n" behind.
  lemma EarlyEnd(r: Run, ls: seq<string>, rest: string)
    requires ls != [] && EndsWithReturn(ls[|ls| - 1]) && !("\r\n" <= rest)
    requires Find(LinesText(ls) + END_SEQUENCE + rest, END_SEQUENCE, 0) == |LinesText(ls)| - 2
    ensures !Parse(r, LinesText(ls) + END_SEQUENCE + rest).Ok()
  {
    var text := LinesText(ls);
    var s := text + END_SEQUENCE + rest;
    var body := text[..|text| - 2];
    var p := |text| - 2;
    assert s[p..p + 4] == END_SEQUENCE;
    assert s[p + 4..] == "\r\n" + rest;
    assert s == s[..p] + s[p..p + 4] + s[p + 4..];
    assert s == body + END_SEQUENCE + ("\r\n" + rest);
    ParseEnd(r, body, "\r\n" + rest);
    var next := EndMessage(Text(r, body));
    if next.Ok() {
      StartsApart("\r\n", rest);
      ParseConcat(next, "\r\n", rest);
      NoEndIn("\r\n");
      ParseNoEnd(next, "\r\n");
      BareReturn(next);
      TokenAllStops(Text(next, "\r\n"), Split(rest, END_SEQUENCE));
    } else {
      TokenAllStops(next, Split("\r\n" + rest, END_SEQUENCE));
    }
  }

  // ---- Streams ----

  function StreamText(ms: seq<ProtocolData>, orders: seq<seq<Field>>): string
    requires |ms| == |orders|
  {
    if ms == [] then "" else MessageText(ms[0].methodName, orders[0]) + StreamText(ms[1..], orders[1..])
  }

  ghost predicate AllOrdered(ms: seq<ProtocolData>, orders: seq<seq<Field>>) {
    |ms| == |orders| && forall i :: 0 <= i < |ms| ==> IsOrder(ms[i].data, orders[i])
  }

  ghost predicate AllSendable(ms: seq<ProtocolData>, orders: seq<seq<Field>>)
    requires |ms| == |orders|
  {
    forall i :: 0 <= i < |ms| ==> Sendable(ms[i], orders[i])
  }

  lemma StreamStart(ms: seq<ProtocolData>, orders: seq<seq<Field>>)
    requires |ms| == |orders|
    ensures !("\r\n" <= StreamText(ms, orders))
  {
    if ms != [] {
      var name := SerializeMethodName(ms[0].methodName);
      MethodTextPlain(ms[0].methodName);
      assert StreamText(ms, orders)[0] == name[0] && name[0] in name;
    }
  }

  lemma OutputMoved(out: seq<ProtocolData>, ms: seq<ProtocolData>)
    requires ms != []
    ensures (out + [ms[0]]) + ms[1..] == out + ms
  {
  }

  lemma {:induction false} StreamArrives(out: seq<ProtocolData>, ms: seq<ProtocolData>, orders: seq<seq<Field>>)
    requires AllOrdered(ms, orders) && AllSendable(ms, orders)
    ensures Parse(Run(FRESH, out, None), StreamText(ms, orders)) == Run(FRESH, out + ms, None)
    decreases |ms|
  {
    if ms == [] {
      assert out + ms == out;
    } else {
      var first, rest := ms[0], StreamText(ms[1..], orders[1..]);
      SendableArrives(out, first, orders[0], rest);
      StreamArrives(out + [first], ms[1..], orders[1..]);
      OutputMoved(out, ms);
    }
  }

  lemma RestUnsendable(ms: seq<ProtocolData>, orders: seq<seq<Field>>)
    requires |ms| == |orders| && ms != [] && !AllSendable(ms, orders) && Sendable(ms[0], orders[0])
    ensures !AllSendable(ms[1..], orders[1..])
  {
    var i :| 0 <= i < |ms| && !Sendable(ms[i], orders[i]);
    assert ms[1..][i - 1] == ms[i] && orders[1..][i - 1] == orders[i];
  }

  lemma {:induction false} StreamThrows(out: seq<ProtocolData>, ms: seq<ProtocolData>, orders: seq<seq<Field>>)
    requires AllOrdered(ms, orders) && !AllSendable(ms, orders)
    requires forall i :: 0 <= i < |ms| ==> CanonicalData(ms[i].data)
    ensures !Parse(Run(FRESH, out, None), StreamText(ms, orders)).Ok()
    decreases |ms|
  {
    var m, order, rest := ms[0], orders[0], StreamText(ms[1..], orders[1..]);
    assert StreamText(ms, orders) == MessageText(m.methodName, order) + rest;
    if Sendable(m, order) {
      SendableArrives(out, m, order, rest);
      RestUnsendable(ms, orders);
      StreamThrows(out + [m], ms[1..], orders[1..]);
    } else {
      StreamStart(ms[1..], orders[1..]);
      UnsendableThrows(out, m, order, rest);
    }
  }

  // A stream of messages, each with its fields in any order, comes back as exactly that list
  // with an empty cache if and only if every message is sendable.
  lemma StreamRoundTrip(ms: seq<ProtocolData>, orders: seq<seq<Field>>)
    requires AllOrdered(ms, orders)
    ensures Parse(START, StreamText(ms, orders)) == Run(FRESH, ms, None) <==> AllSendable(ms, orders)
  {
    if AllSendable(ms, orders) {
      StreamArrives([], ms, orders);
      assert [] + ms == ms;
    } else if Parse(START, StreamText(ms, orders)) == Run(FRESH, ms, None) {
      ParseKeeps(START, StreamText(ms, orders));
      StreamThrows([], ms, orders);
    }
  }

  // The same over a connection that delivers the stream in chunks with clean cuts.
  lemma ChunkedRoundTrip(ms: seq<ProtocolData>, orders: seq<seq<Field>>, chunks: seq<string>)
    requires AllOrdered(ms, orders) && AllSendable(ms, orders)
    requires Whole(chunks) == StreamText(ms, orders) && CleanCuts(chunks)
    ensures ParseAll(START, chunks) == Run(FRESH, ms, None)
  {
    StreamRoundTrip(ms, orders);
    ChunkInvariance(START, chunks);
  }
}
