// Cutting the input of the streaming parser: which cuts it cannot notice, and which it does.
module Chunks {
  import opened Options
  import opened Splitting
  import opened ProtocolMessages
  import opened ParserRuns

  // Equal runs, where two runs that threw count as equal whatever they threw.
  ghost predicate Same(r: Run, q: Run) {
    if r.Ok() && q.Ok() then r == q else !r.Ok() && !q.Ok()
  }

  lemma FeedAllSame(r: Run, q: Run, lines: seq<string>)
    requires Same(r, q)
    ensures Same(FeedAll(r, lines), FeedAll(q, lines))
  {
    if !r.Ok() {
      FeedAllStops(r, lines);
      FeedAllStops(q, lines);
    }
  }

  lemma TokenAllSame(r: Run, q: Run, ts: seq<string>)
    requires Same(r, q)
    ensures Same(TokenAll(r, ts), TokenAll(q, ts))
  {
    if !r.Ok() {
      TokenAllStops(r, ts);
      TokenAllStops(q, ts);
    }
  }

  // ---- Within one message: lines ----

  predicate NoNewline(s: string) {
    Find(s, END_OF_LINE, 0) == -1
  }

  lemma NewlineFree(s: string)
    ensures NoNewline(s) <==> '\n' !in s
  {
    if '\n' in s {
      var i :| 0 <= i < |s| && s[i] == '\n';
      assert OccursAt(s, END_OF_LINE, i);
    } else {
      forall i: nat
        ensures !OccursAt(s, END_OF_LINE, i)
      {
        if i + 1 <= |s| { assert s[i..i + 1][0] == s[i] && s[i] in s; }
      }
      FindNone(s, END_OF_LINE, 0);
    }
  }

  // Receiving a line in two parts or at once.
  lemma PieceMerge(r: Run, a: string, b: string)
    requires '\n' !in a && b != ""
    ensures Same(Feed(Feed(r, a), b), Feed(r, a + b))
  {
    if r.Ok() {
      if a != "" { assert a[|a| - 1] in a && a[|a| - 1..] == [a[|a| - 1]]; }
      assert EndsWith(a + b, END_OF_LINE) <==> EndsWith(b, END_OF_LINE) by {
        assert (a + b)[|a + b| - 1..] == b[|b| - 1..];
      }
      assert r.st.line + a + b == r.st.line + (a + b);
      if EndsWith(b, END_OF_LINE) {
        assert (r.st.line + a) + b[..|b| - 1] == r.st.line + (a + b)[..|a + b| - 1];
      }
    }
  }

  lemma TextPlain(r: Run, a: string)
    requires '\n' !in a
    ensures Text(r, a) == if a == "" then r else Feed(r, a)
  {
    NewlineFree(a);
    if a != "" { assert FeedAll(r, [a]) == FeedAll(Feed(r, a), [a][1..]); }
  }

  lemma TextLine(r: Run, line: string, rest: string)
    requires '\n' !in line
    ensures Text(r, line + "\n" + rest) == Text(Feed(r, line + "\n"), rest)
  {
    var t := line + "\n";
    NewlineFree(line);
    assert OccursAt(t, END_OF_LINE, |line|);
    forall i: nat | i < |line|
      ensures !OccursAt(t, END_OF_LINE, i)
    {
      assert t[i..i + 1][0] == line[i] && line[i] in line;
    }
    FindIsLeast(t, END_OF_LINE, 0, |line|);
    SplitFirst(t, rest, END_OF_LINE);
    var ts := [t] + Split(rest, END_OF_LINE);
    assert ts[0] == t && ts[1..] == Split(rest, END_OF_LINE);
  }

  lemma FirstLine(s: string) returns (line: string, rest: string)
    requires '\n' in s
    ensures s == line + "\n" + rest && '\n' !in line
    decreases |s|
  {
    if s[0] == '\n' {
      line, rest := "", s[1..];
    } else {
      line, rest := FirstLine(s[1..]);
      line := [s[0]] + line;
      assert s == [s[0]] + s[1..];
    }
  }

  lemma {:induction false} TextConcat(r: Run, a: string, b: string)
    ensures Same(Text(Text(r, a), b), Text(r, a + b))
    decreases |a|
  {
    if '\n' in a {
      var line, rest := FirstLine(a);
      TextLine(r, line, rest);
      TextLine(r, line, rest + b);
      assert a + b == line + "\n" + (rest + b);
      TextConcat(Feed(r, line + "\n"), rest, b);
    } else {
      TextTail(r, a, b);
    }
  }

  lemma TextTail(r: Run, a: string, b: string)
    requires '\n' !in a
    ensures Same(Text(Text(r, a), b), Text(r, a + b))
  {
    TextPlain(r, a);
    if a == "" {
      assert a + b == b;
    } else if b == "" {
      assert a + b == a;
      TextPlain(Feed(r, a), b);
    } else if '\n' in b {
      var line, rest := FirstLine(b);
      TextLine(Feed(r, a), line, rest);
      assert a + b == (a + line) + "\n" + rest;
      TextLine(r, a + line, rest);
      PieceMerge(r, a, line + "\n");
      assert a + (line + "\n") == (a + line) + "\n";
      FeedAllSame(Feed(Feed(r, a), line + "\n"), Feed(r, a + line + "\n"), Split(rest, END_OF_LINE));
    } else {
      TextPlain(Feed(r, a), b);
      TextPlain(r, a + b);
      PieceMerge(r, a, b);
    }
  }

  // ---- Between messages: end sequences ----

  // The cut at k is not strictly inside an end sequence that split finds in s.
  predicate CleanCut(s: string, k: nat)
    decreases |s|
  {
    var p := Find(s, END_SEQUENCE, 0);
    p == -1 || k <= p || (p + 4 <= k && CleanCut(s[p + 4..], k - p - 4))
  }

  lemma ParseNoEnd(r: Run, a: string)
    requires Find(a, END_SEQUENCE, 0) == -1
    ensures Parse(r, a) == Text(r, a)
  {
    if a != "" {
      assert !EndsWith(a, END_SEQUENCE) by {
        if EndsWith(a, END_SEQUENCE) { assert OccursAt(a, END_SEQUENCE, |a| - 4); }
      }
      assert TokenAll(r, [a]) == TokenAll(Token(r, a), [a][1..]);
    }
  }

  lemma ParseEnd(r: Run, body: string, rest: string)
    requires Find(body + END_SEQUENCE + rest, END_SEQUENCE, 0) == |body|
    ensures Parse(r, body + END_SEQUENCE + rest) == Parse(EndMessage(Text(r, body)), rest)
  {
    var s := body + END_SEQUENCE + rest;
    var t := body + END_SEQUENCE;
    SplitOff(s, END_SEQUENCE, |body|, t, rest);
    var ts := Split(s, END_SEQUENCE);
    assert ts[0] == t && ts[1..] == Split(rest, END_SEQUENCE);
    assert t[|t| - 4..] == END_SEQUENCE && t[..|t| - 4] == body;
  }

  // The first message of s and what follows it.
  lemma FirstMessage(s: string) returns (body: string, rest: string)
    requires Find(s, END_SEQUENCE, 0) != -1
    ensures s == body + END_SEQUENCE + rest && Find(s, END_SEQUENCE, 0) == |body|
  {
    var p := Find(s, END_SEQUENCE, 0);
    body, rest := s[..p], s[p + 4..];
    assert s[p..p + 4] == END_SEQUENCE;
    assert s == s[..p] + s[p..p + 4] + s[p + 4..];
  }

  lemma {:induction false} ParseConcat(r: Run, a: string, b: string)
    requires CleanCut(a + b, |a|)
    ensures Same(Parse(Parse(r, a), b), Parse(r, a + b))
    decreases |a|
  {
    var s := a + b;
    var p := Find(s, END_SEQUENCE, 0);
    if p != -1 && p + 4 <= |a| {
      var body, rest := FirstMessage(s);
      var tail := a[p + 4..];
      assert rest == tail + b && a == body + END_SEQUENCE + tail by {
        assert s[p + 4..] == rest && s[..p + 4] == body + END_SEQUENCE;
      }
      assert s[p + 4..] == rest;
      FindCutLater(a, b);
      ParseEnd(r, body, tail);
      ParseEnd(r, body, rest);
      ParseConcat(EndMessage(Text(r, body)), tail, b);
    } else {
      ParseConcatTail(r, a, b);
    }
  }

  lemma FindCutLater(a: string, b: string)
    requires Find(a + b, END_SEQUENCE, 0) != -1 && Find(a + b, END_SEQUENCE, 0) + 4 <= |a|
    ensures Find(a, END_SEQUENCE, 0) == Find(a + b, END_SEQUENCE, 0)
  {
    var p := Find(a + b, END_SEQUENCE, 0);
    assert (a + b)[p..p + 4] == a[p..p + 4];
    assert OccursAt(a, END_SEQUENCE, p);
    FindInPrefix(a, b, END_SEQUENCE);
  }

  lemma ParseConcatTail(r: Run, a: string, b: string)
    requires Find(a + b, END_SEQUENCE, 0) == -1 || |a| <= Find(a + b, END_SEQUENCE, 0)
    ensures Same(Parse(Parse(r, a), b), Parse(r, a + b))
  {
    FindCutBefore(a, b, END_SEQUENCE);
    FindAfterPrefix(a, b, END_SEQUENCE);
    ParseNoEnd(r, a);
    if Find(b, END_SEQUENCE, 0) == -1 {
      ParseNoEnd(Text(r, a), b);
      ParseNoEnd(r, a + b);
      TextConcat(r, a, b);
    } else {
      var body, rest := FirstMessage(b);
      assert a + b == (a + body) + END_SEQUENCE + rest;
      ParseEnd(Text(r, a), body, rest);
      ParseEnd(r, a + body, rest);
      TextConcat(r, a, body);
      TokenAllSame(EndMessage(Text(Text(r, a), body)), EndMessage(Text(r, a + body)), Split(rest, END_SEQUENCE));
    }
  }

  // ---- Any number of chunks ----

  function Whole(chunks: seq<string>): string {
    Concat(chunks)
  }

  // No cut between the chunks lies strictly inside an end sequence that split finds in the whole.
  ghost predicate CleanCuts(chunks: seq<string>) {
    forall k :: 0 <= k <= |chunks| ==> CleanCut(Whole(chunks), |Whole(chunks[..k])|)
  }

  lemma {:induction false} CleanCutLater(a: string, s: string, k: nat)
    requires CleanCut(a + s, |a|) && CleanCut(a + s, |a| + k)
    ensures CleanCut(s, k)
    decreases |a|
  {
    var p := Find(a + s, END_SEQUENCE, 0);
    if p != -1 && p + 4 <= |a| {
      assert (a + s)[p + 4..] == a[p + 4..] + s;
      CleanCutLater(a[p + 4..], s, k);
    } else {
      FindAfterPrefix(a, s, END_SEQUENCE);
      if p != -1 { assert (a + s)[p + 4..] == s[p - |a| + 4..]; }
    }
  }

  lemma CleanCutsRest(chunks: seq<string>)
    requires chunks != [] && CleanCuts(chunks)
    ensures CleanCut(chunks[0] + Whole(chunks[1..]), |chunks[0]|)
    ensures CleanCuts(chunks[1..])
  {
    var a, rest := chunks[0], chunks[1..];
    assert chunks[..1] == [a] && Whole([a]) == a + Whole([a][1..]) && a + "" == a;
    forall k | 0 <= k <= |rest|
      ensures CleanCut(Whole(rest), |Whole(rest[..k])|)
    {
      assert chunks[..k + 1][0] == a && chunks[..k + 1][1..] == rest[..k];
      CleanCutLater(a, Whole(rest), |Whole(rest[..k])|);
    }
  }

  // Chunk invariance: from any state, parsing the chunks one by one throws exactly when parsing
  // the whole does; otherwise the messages and all four cached fields agree.
  lemma {:induction false} ChunkInvariance(r: Run, chunks: seq<string>)
    requires CleanCuts(chunks)
    ensures Same(ParseAll(r, chunks), Parse(r, Whole(chunks)))
    decreases |chunks|
  {
    if chunks != [] {
      CleanCutsRest(chunks);
      ChunkInvariance(Parse(r, chunks[0]), chunks[1..]);
      ParseConcat(r, chunks[0], Whole(chunks[1..]));
    }
  }


  // ---- A cut inside an end sequence is noticed ----

  lemma {:induction false} LineDone(r: Run, s: string)
    requires s != "" && s[|s| - 1] == '\n' && Text(r, s).Ok()
    ensures Text(r, s).st.line == ""
    decreases |s|
  {
    if !r.Ok() { FeedAllStops(r, Split(s, END_OF_LINE)); }
    var line, rest := FirstLine(s);
    TextLine(r, line, rest);
    var q := Feed(r, line + "\n");
    if !q.Ok() { FeedAllStops(q, Split(rest, END_OF_LINE)); }
    assert (line + "\n")[|line + "\n"| - 1..] == END_OF_LINE;
    PieceDone(r.st, line + "\n");
    if rest != "" { LineDone(q, rest); }
  }

  lemma PieceDone(st: ParserState, line: string)
    requires EndsWith(line, END_OF_LINE) && Piece(st, line).1.None?
    ensures Piece(st, line).0.line == ""
  {
  }

  // A line that is just "\r" is never a method name and never a field.
  lemma BareReturn(q: Run)
    requires q.Ok() && q.st.line == ""
    ensures !Text(q, "\r\n").Ok()
  {
    assert "\r" + "\n" + "" == "\r\n";
    TextLine(q, "\r", "");
    assert !OccursAt("\r", LINE_DELIMITER, 0);
    FindNone("\r", LINE_DELIMITER, 0);
    assert Split("\r", LINE_DELIMITER) == ["\r"];
    assert "" + "\r\n"[..1] == "\r";
  }

  lemma StartsApart(head: string, rest: string)
    requires head == "\n" || (head == "\r\n" && !("\r\n" <= rest))
    ensures CleanCut(head + rest, |head|)
  {
    var s := head + rest;
    forall i: nat | i < |head|
      ensures !OccursAt(s, END_SEQUENCE, i)
    {
      if i + 4 <= |s| {
        var w := s[i..i + 4];
        assert w[0] == s[i] && w[2] == s[i + 2] && w[3] == s[i + 3];
      }
    }
    var p := Find(s, END_SEQUENCE, 0);
    assert p == -1 || OccursAt(s, END_SEQUENCE, p);
  }

  // One more "\r\n" in front makes a text that parses unparsable.
  lemma {:induction false} OddReturns(q: Run, out: seq<ProtocolData>, rest: string)
    requires q.Ok() && q.st.line == ""
    requires Parse(Run(FRESH, out, None), rest).Ok()
    ensures !Parse(q, "\r\n" + rest).Ok()
    decreases |rest|
  {
    if "\r\n" <= rest {
      var rest2 := rest[2..];
      assert rest == "\r\n" + rest2;
      assert "\r\n" + rest == "" + END_SEQUENCE + rest2;
      assert OccursAt("" + END_SEQUENCE + rest2, END_SEQUENCE, 0);
      ParseEnd(q, "", rest2);
      var next := EndMessage(Text(q, ""));
      if Parse(next, rest2).Ok() {
        OddReturns(Run(FRESH, out, None), next.out, rest2);
      }
    } else {
      StartsApart("\r\n", rest);
      ParseConcat(q, "\r\n", rest);
      NoEndIn("\r\n");
      ParseNoEnd(q, "\r\n");
      BareReturn(q);
      TokenAllStops(Text(q, "\r\n"), Split(rest, END_SEQUENCE));
    }
  }

  lemma NoEndIn(s: string)
    requires |s| < 4
    ensures Find(s, END_SEQUENCE, 0) == -1
  {
  }

  // A newline that completes a line, then "\r\n" and the rest of a text that parses.
  lemma NewlineThenReturns(r: Run, out: seq<ProtocolData>, rest: string)
    requires Parse(Run(FRESH, out, None), rest).Ok()
    ensures !Parse(r, "\n" + ("\r\n" + rest)).Ok()
  {
    var more := "\r\n" + rest;
    StartsApart("\n", more);
    ParseConcat(r, "\n", more);
    NoEndIn("\n");
    ParseNoEnd(r, "\n");
    var q := Text(r, "\n");
    if q.Ok() {
      LineDone(r, "\n");
      OddReturns(q, out, rest);
    } else {
      TokenAllStops(q, Split(more, END_SEQUENCE));
    }
  }

  // The three ways to cut the end sequence behind body.
  lemma CutAfterOne(r: Run, out: seq<ProtocolData>, body: string, rest: string)
    requires Find(body + "\r", END_SEQUENCE, 0) == -1 && Parse(Run(FRESH, out, None), rest).Ok()
    ensures !Parse(Parse(r, body + "\r"), "\n" + ("\r\n" + rest)).Ok()
  {
    NewlineThenReturns(Parse(r, body + "\r"), out, rest);
  }

  lemma CutAfterTwo(r: Run, out: seq<ProtocolData>, body: string, rest: string)
    requires Find(body + "\r\n", END_SEQUENCE, 0) == -1 && Parse(Run(FRESH, out, None), rest).Ok()
    ensures !Parse(Parse(r, body + "\r\n"), "\r\n" + rest).Ok()
  {
    ParseNoEnd(r, body + "\r\n");
    var q := Text(r, body + "\r\n");
    if q.Ok() {
      LineDone(r, body + "\r\n");
      OddReturns(q, out, rest);
    } else {
      TokenAllStops(q, Split("\r\n" + rest, END_SEQUENCE));
    }
  }

  lemma CutAfterThree(r: Run, body: string, rest: string)
    requires Find(body + "\r\n\r", END_SEQUENCE, 0) == -1
    ensures !Parse(Parse(r, body + "\r\n\r"), "\n" + rest).Ok()
  {
    var a := body + "\r\n\r";
    ParseNoEnd(r, a);
    var q := Text(r, body + "\r\n");
    assert a == (body + "\r\n") + "\r" && a + "\n" == (body + "\r\n") + "\r\n";
    TextConcat(r, body + "\r\n", "\r\n");
    if q.Ok() {
      LineDone(r, body + "\r\n");
      BareReturn(q);
    } else {
      FeedAllStops(q, Split("\r\n", END_OF_LINE));
    }
    TextConcat(r, a, "\n");
    StartsApart("\n", rest);
    ParseConcat(Text(r, a), "\n", rest);
    NoEndIn("\n");
    ParseNoEnd(Text(r, a), "\n");
    TokenAllStops(Text(Text(r, a), "\n"), Split(rest, END_SEQUENCE));
  }

  lemma RestOfCut(a: string, b: string, body: string, rest: string)
    requires a + b == body + END_SEQUENCE + rest && |body| + 4 <= |a|
    ensures a == body + END_SEQUENCE + a[|body| + 4..] && rest == a[|body| + 4..] + b
  {
    var s := a + b;
    assert a == s[..|a|] && s[|body| + 4..] == rest;
  }

  lemma {:induction false} DirtyCutThrows(r: Run, a: string, b: string)
    requires !CleanCut(a + b, |a|) && Parse(r, a + b).Ok()
    ensures !Parse(Parse(r, a), b).Ok()
    decreases |a|
  {
    var s := a + b;
    var body, rest := FirstMessage(s);
    var p := |body|;
    ParseEnd(r, body, rest);
    var next := EndMessage(Text(r, body));
    assert s[p + 4..] == rest && s[..p + 4] == body + END_SEQUENCE;
    if p + 4 <= |a| {
      var tail := a[p + 4..];
      RestOfCut(a, b, body, rest);
      FindCutLater(a, b);
      ParseEnd(r, body, tail);
      DirtyCutThrows(next, tail, b);
    } else {
      if !next.Ok() { TokenAllStops(next, Split(rest, END_SEQUENCE)); }
      FindCutBefore(a, b, END_SEQUENCE);
      CutInEnd(r, next.out, a, b, body, rest);
    }
  }

  // The two sides of a cut inside the end sequence behind body.
  lemma CutSides(a: string, b: string, body: string, rest: string)
    requires a + b == body + "\r\n\r\n" + rest && |body| < |a| < |body| + 4
    ensures |a| == |body| + 1 ==> a == body + "\r" && b == "\n" + ("\r\n" + rest)
    ensures |a| == |body| + 2 ==> a == body + "\r\n" && b == "\r\n" + rest
    ensures |a| == |body| + 3 ==> a == body + "\r\n\r" && b == "\n" + rest
  {
    var s := body + "\r\n\r\n" + rest;
    assert a == s[..|a|] && b == s[|a|..];
  }

  lemma CutInEnd(r: Run, out: seq<ProtocolData>, a: string, b: string, body: string, rest: string)
    requires a + b == body + END_SEQUENCE + rest && |body| < |a| < |body| + 4
    requires Find(a, END_SEQUENCE, 0) == -1 && Parse(Run(FRESH, out, None), rest).Ok()
    ensures !Parse(Parse(r, a), b).Ok()
  {
    CutSides(a, b, body, rest);
    if |a| == |body| + 1 {
      CutAfterOne(r, out, body, rest);
    } else if |a| == |body| + 2 {
      CutAfterTwo(r, out, body, rest);
    } else {
      CutAfterThree(r, body, rest);
    }
  }

  // Input that parses in one call also parses in two exactly when the cut is clean.
  lemma CutCharacterised(r: Run, a: string, b: string)
    requires Parse(r, a + b).Ok()
    ensures CleanCut(a + b, |a|) <==> Parse(Parse(r, a), b) == Parse(r, a + b)
    ensures !CleanCut(a + b, |a|) ==> !Parse(Parse(r, a), b).Ok()
  {
    if CleanCut(a + b, |a|) {
      ParseConcat(r, a, b);
    } else {
      DirtyCutThrows(r, a, b);
    }
  }
}
