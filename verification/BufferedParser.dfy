// src/game_logic/protocol/BufferedParser.cpp: the streaming parser. ParserRuns says what a
// sequence of parse calls computes; the class does it in place and is proved equal to it.
module ParserRuns {
  import opened Options
  import opened Splitting
  import opened ProtocolMessages

  const MAX_LINE_LENGTH: nat := 10000000
  const MAX_METHOD_NAME_LENGTH: nat := 32
  const END_SEQUENCE: string := "\r\n\r\n"
  const LINE_DELIMITER: string := ":"
  const END_OF_LINE: string := "\n"

  datatype ParseError = LineTooLong | MethodNameTooLong | MethodNameNotAllowed | MissingDelimiter

  // The four cached fields.
  datatype ParserState = ParserState(methodName: MethodName, data: map<string, string>, line: string, first: bool)

  const FRESH: ParserState := ParserState(UNINITIALIZED, map[], "", true)

  // A parse in progress: the cached fields, the messages put out so far, and the exception, if one was thrown.
  datatype Run = Run(st: ParserState, out: seq<ProtocolData>, error: Option<ParseError>) {
    predicate Ok() { error.None? }
  }

  predicate EndsWith(s: string, d: string) {
    |s| >= |d| && s[|s| - |d|..] == d
  }

  // A complete line, without its newline.
  function FullLine(st: ParserState, line: string): (ParserState, Option<ParseError>) {
    if st.first then
      var name := ParseMethodName(line);
      if name == PARSING_FAILED then (st, Some(MethodNameNotAllowed))
      else (st.(methodName := name, first := false), None)
    else
      var fields := Split(line, LINE_DELIMITER);
      SplitLossless(line, LINE_DELIMITER);
      if |fields| < 2 then (st, Some(MissingDelimiter))
      else (st.(data := st.data[fields[0][..|fields[0]| - 1] := fields[1]]), None)
  }

  // One token of split(msg, "\n"): a complete line, or the part of a line received so far.
  function Piece(st: ParserState, line: string): (ParserState, Option<ParseError>) {
    if |st.line| + |line| > MAX_LINE_LENGTH then (st, Some(LineTooLong))
    else if st.first && |line| + |st.line| > MAX_METHOD_NAME_LENGTH then (st, Some(MethodNameTooLong))
    else if !EndsWith(line, END_OF_LINE) then (st.(line := st.line + line), None)
    else FullLine(st.(line := ""), st.line + line[..|line| - 1])
  }

  function Feed(r: Run, line: string): Run {
    if !r.Ok() then r
    else
      var (st, error) := Piece(r.st, line);
      Run(st, r.out, error)
  }

  function FeedAll(r: Run, lines: seq<string>): Run
    decreases |lines|
  {
    if lines == [] then r else FeedAll(Feed(r, lines[0]), lines[1..])
  }

  function Text(r: Run, s: string): Run {
    FeedAll(r, Split(s, END_OF_LINE))
  }

  function EndMessage(r: Run): Run {
    if !r.Ok() then r else Run(FRESH, r.out + [ProtocolData(r.st.methodName, r.st.data)], None)
  }

  // One token of split(data, END_SEQUENCE).
  function Token(r: Run, t: string): Run {
    if EndsWith(t, END_SEQUENCE) then EndMessage(Text(r, t[..|t| - 4])) else Text(r, t)
  }

  function TokenAll(r: Run, ts: seq<string>): Run
    decreases |ts|
  {
    if ts == [] then r else TokenAll(Token(r, ts[0]), ts[1..])
  }

  // One call of parse; a run that has already thrown stays as it is.
  function Parse(r: Run, data: string): Run {
    TokenAll(r, Split(data, END_SEQUENCE))
  }

  function ParseAll(r: Run, chunks: seq<string>): Run
    decreases |chunks|
  {
    if chunks == [] then r else ParseAll(Parse(r, chunks[0]), chunks[1..])
  }

  const START: Run := Run(FRESH, [], None)

  lemma FeedAllAppend(r: Run, a: seq<string>, x: string)
    ensures FeedAll(r, a + [x]) == Feed(FeedAll(r, a), x)
    decreases |a|
  {
    if a != [] {
      assert (a + [x])[1..] == a[1..] + [x];
      FeedAllAppend(Feed(r, a[0]), a[1..], x);
    }
  }

  lemma TokenAllAppend(r: Run, a: seq<string>, x: string)
    ensures TokenAll(r, a + [x]) == Token(TokenAll(r, a), x)
    decreases |a|
  {
    if a != [] {
      assert (a + [x])[1..] == a[1..] + [x];
      TokenAllAppend(Token(r, a[0]), a[1..], x);
    }
  }

  // A thrown exception is final.
  lemma FeedAllStops(r: Run, lines: seq<string>)
    requires !r.Ok()
    ensures FeedAll(r, lines) == r
    decreases |lines|
  {
    if lines != [] { FeedAllStops(r, lines[1..]); }
  }

  lemma TokenAllStops(r: Run, ts: seq<string>)
    requires !r.Ok()
    ensures TokenAll(r, ts) == r
    decreases |ts|
  {
    if ts != [] {
      FeedAllStops(r, Split(ts[0], END_OF_LINE));
      if EndsWith(ts[0], END_SEQUENCE) { FeedAllStops(r, Split(ts[0][..|ts[0]| - 4], END_OF_LINE)); }
      TokenAllStops(r, ts[1..]);
    }
  }

  // A parse adds its messages behind the ones already put out and looks at nothing else of the run.
  function Behind(out: seq<ProtocolData>, r: Run): Run {
    Run(r.st, out + r.out, r.error)
  }

  lemma FeedAllBehind(out: seq<ProtocolData>, r: Run, lines: seq<string>)
    ensures FeedAll(Behind(out, r), lines) == Behind(out, FeedAll(r, lines))
    decreases |lines|
  {
    if lines != [] { FeedAllBehind(out, Feed(r, lines[0]), lines[1..]); }
  }

  lemma {:induction false} TokenAllBehind(out: seq<ProtocolData>, r: Run, ts: seq<string>)
    ensures TokenAll(Behind(out, r), ts) == Behind(out, TokenAll(r, ts))
    decreases |ts|
  {
    if ts != [] {
      var t := ts[0];
      if EndsWith(t, END_SEQUENCE) {
        var body := Split(t[..|t| - 4], END_OF_LINE);
        FeedAllBehind(out, r, body);
        var q := FeedAll(r, body);
        assert out + (q.out + [ProtocolData(q.st.methodName, q.st.data)]) == (out + q.out) + [ProtocolData(q.st.methodName, q.st.data)];
      } else {
        FeedAllBehind(out, r, Split(t, END_OF_LINE));
      }
      TokenAllBehind(out, Token(r, t), ts[1..]);
    }
  }

  // Separate parse calls and one accumulated run put out the same messages.
  lemma ParseBehind(r: Run, data: string)
    requires r.Ok()
    ensures Parse(r, data) == Behind(r.out, Parse(Run(r.st, [], None), data))
  {
    var q := Run(r.st, [], None);
    assert Behind(r.out, q) == r;
    TokenAllBehind(r.out, q, Split(data, END_SEQUENCE));
  }
}

module BufferedParsers {
  import opened Options
  import opened Splitting
  import opened ProtocolMessages
  import opened ParserRuns

  datatype ParseResult = Nothing | Messages(messages: seq<ProtocolData>) | Thrown(error: ParseError)

  // What one parse call hands to its caller.
  function ResultOf(r: Run): ParseResult {
    if r.error.Some? then Thrown(r.error.value) else if r.out == [] then Nothing else Messages(r.out)
  }

  class BufferedParser {
    var savedMethod: MethodName
    var savedData: map<string, string>
    var savedLine: string
    var isSavedLineFirst: bool

    function State(): ParserState
      reads this
    {
      ParserState(savedMethod, savedData, savedLine, isSavedLineFirst)
    }

    constructor ()
      ensures State() == FRESH
    {
      savedMethod := UNINITIALIZED;
      savedData := map[];
      savedLine := "";
      isSavedLineFirst := true;
    }

    method ClearCache()
      modifies this
      ensures State() == FRESH
    {
      savedLine := "";
      isSavedLineFirst := true;
      savedMethod := UNINITIALIZED;
      savedData := map[];
    }

    // split: a scan that moves the start of the next token behind each delimiter it finds.
    static method SplitText(s: string, delimiter: string) returns (res: seq<string>)
      requires delimiter != ""
      ensures res == Split(s, delimiter)
    {
      var start := 0;
      res := [];
      var end := Find(s, delimiter, start);
      ScanStarts(s, delimiter);
      while end != -1
        invariant 0 <= start <= |s| && end == Find(s, delimiter, start)
        invariant Scan(s, delimiter, start, res) == Split(s, delimiter)
        decreases |s| - start
      {
        ghost var before, done := start, res;
        var token := s[start..end + |delimiter|];
        start := end + |delimiter|;
        res := res + [token];
        ScanStep(s, delimiter, before, end, done, token, start, res);
        end := Find(s, delimiter, start);
      }
      ScanEnds(s, delimiter, start, res);
      var rest := s[start..];
      if rest != "" {
        res := res + [rest];
      }
    }

    // The body of the loop of parseMsgLines, for one token.
    method ParseLine(token: string) returns (error: Option<ParseError>)
      modifies this
      ensures (State(), error) == Piece(old(State()), token)
    {
      var line := token;
      if |savedLine| + |line| > MAX_LINE_LENGTH {
        return Some(LineTooLong);
      }
      if isSavedLineFirst && |line| + |savedLine| > MAX_METHOD_NAME_LENGTH {
        return Some(MethodNameTooLong);
      }
      if !EndsWith(line, END_OF_LINE) {
        savedLine := savedLine + line;
        return None;
      }
      line := line[..|line| - 1];
      if savedLine != "" {
        line := savedLine + line;
        savedLine := "";
      }
      assert line == old(savedLine) + token[..|token| - 1];
      if isSavedLineFirst {
        var parsedName := ParseMethodName(line);
        if parsedName == PARSING_FAILED {
          return Some(MethodNameNotAllowed);
        }
        savedMethod := parsedName;
        isSavedLineFirst := false;
      } else {
        var lineFields := SplitText(line, LINE_DELIMITER);
        if |lineFields| < 2 {
          return Some(MissingDelimiter);
        }
        SplitLossless(line, LINE_DELIMITER);
        var attrName := lineFields[0][..|lineFields[0]| - 1];
        savedData := savedData[attrName := lineFields[1]];
      }
      return None;
    }

    method ParseMsgLines(lines: seq<string>) returns (error: Option<ParseError>)
      modifies this
      ensures forall out :: Run(State(), out, error) == FeedAll(Run(old(State()), out, None), lines)
    {
      error := None;
      for i := 0 to |lines|
        invariant error.None?
        invariant forall out :: Run(State(), out, None) == FeedAll(Run(old(State()), out, None), lines[..i])
      {
        ghost var before := State();
        error := ParseLine(lines[i]);
        forall out
          ensures Run(State(), out, error) == FeedAll(Run(old(State()), out, None), lines[..i + 1])
        {
          assert lines[..i + 1] == lines[..i] + [lines[i]];
          FeedAllAppend(Run(old(State()), out, None), lines[..i], lines[i]);
        }
        if error.Some? {
          forall out
            ensures Run(State(), out, error) == FeedAll(Run(old(State()), out, None), lines)
          {
            FeedAllSplit(Run(old(State()), out, None), lines, i + 1);
            FeedAllStops(Run(State(), out, error), lines[i + 1..]);
          }
          return;
        }
      }
      assert lines[..|lines|] == lines;
    }

    static lemma FeedAllSplit(r: Run, lines: seq<string>, k: nat)
      requires k <= |lines|
      ensures FeedAll(r, lines) == FeedAll(FeedAll(r, lines[..k]), lines[k..])
      decreases |lines|
    {
      if k > 0 {
        assert lines[..k][1..] == lines[1..][..k - 1];
        FeedAllSplit(Feed(r, lines[0]), lines[1..], k - 1);
      }
    }

    static lemma TokenAllSplit(r: Run, ts: seq<string>, k: nat)
      requires k <= |ts|
      ensures TokenAll(r, ts) == TokenAll(TokenAll(r, ts[..k]), ts[k..])
      decreases |ts|
    {
      if k > 0 {
        assert ts[..k][1..] == ts[1..][..k - 1];
        TokenAllSplit(Token(r, ts[0]), ts[1..], k - 1);
      }
    }

    // parse: the messages completed by this chunk, with the rest kept in the cache.
    method ParseChunk(data: string) returns (result: ParseResult)
      modifies this
      ensures var r := Parse(Run(old(State()), [], None), data);
        State() == r.st && result == ResultOf(r)
    {
      var output: seq<ProtocolData> := [];
      var messages := SplitText(data, END_SEQUENCE);
      ghost var r0 := Run(State(), [], None);
      for i := 0 to |messages|
        invariant TokenAll(r0, messages[..i]) == Run(State(), output, None)
      {
        var msg := messages[i];
        assert messages[..i + 1] == messages[..i] + [msg];
        TokenAllAppend(r0, messages[..i], msg);
        var containsEndSeq := EndsWith(msg, END_SEQUENCE);
        if containsEndSeq {
          msg := msg[..|msg| - 4];
        }
        var lines := SplitText(msg, END_OF_LINE);
        ghost var before := Run(State(), output, None);
        var error := ParseMsgLines(lines);
        assert Text(before, msg) == Run(State(), output, error);
        if error.Some? {
          TokenAllSplit(r0, messages, i + 1);
          TokenAllStops(Run(State(), output, error), messages[i + 1..]);
          return Thrown(error.value);
        }
        if containsEndSeq {
          output := output + [ProtocolData(savedMethod, savedData)];
          ClearCache();
        }
      }
      assert messages[..|messages|] == messages;
      result := if output == [] then Nothing else Messages(output);
    }
  }
}
