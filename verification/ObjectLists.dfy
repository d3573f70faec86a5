// serializeObjectList (src/game_logic/protocol/ProtocolData.cpp:65-89) and a decoder for lists of rows.
module ObjectLists {
  import opened Splitting

  type Row = seq<string>

  function JoinItems(row: Row): string {
    if row == [] then "" else if |row| == 1 then row[0] else row[0] + "," + JoinItems(row[1..])
  }

  function RowText(row: Row): string {
    "{" + JoinItems(row) + "}"
  }

  // Rows one after the other; commas says which of them are followed by a comma.
  function RowsText(rows: seq<Row>, commas: seq<bool>): string
    requires |rows| == |commas|
  {
    if rows == [] then ""
    else RowText(rows[0]) + (if commas[0] then "," else "") + RowsText(rows[1..], commas[1..])
  }

  function ListText(rows: seq<Row>): string {
    if rows == [] then "" else if |rows| == 1 then RowText(rows[0]) else RowText(rows[0]) + "," + ListText(rows[1..])
  }

  lemma {:induction false} JoinAppend(row: Row, x: string)
    ensures JoinItems(row + [x]) == if row == [] then x else JoinItems(row) + "," + x
    decreases |row|
  {
    if row != [] {
      assert (row + [x])[1..] == row[1..] + [x];
      JoinAppend(row[1..], x);
    }
  }

  lemma {:induction false} ListTextAppend(rows: seq<Row>, row: Row)
    ensures ListText(rows + [row]) == if rows == [] then RowText(row) else ListText(rows) + "," + RowText(row)
    decreases |rows|
  {
    if rows != [] {
      assert (rows + [row])[1..] == rows[1..] + [row];
      ListTextAppend(rows[1..], row);
    }
  }

  // The inner loop, for one row behind what was written before.
  method SerializeRow(line: Row, start: string) returns (output: string)
    ensures output == start + RowText(line)
  {
    var isFirstItem := true;
    output := start + "{";
    for k := 0 to |line|
      invariant isFirstItem == (k == 0)
      invariant output == start + "{" + JoinItems(line[..k])
    {
      assert line[..k + 1] == line[..k] + [line[k]];
      JoinAppend(line[..k], line[k]);
      if isFirstItem {
        isFirstItem := false;
      } else {
        output := output + ",";
      }
      output := output + line[k];
    }
    assert line[..|line|] == line;
    output := output + "}";
    assert output == start + RowText(line);
  }

  method SerializeObjectList(list: seq<Row>) returns (output: string)
    ensures output == ListText(list)
  {
    output := "";
    var isFirstLine := true;
    for i := 0 to |list|
      invariant isFirstLine == (i == 0)
      invariant output == ListText(list[..i])
    {
      var line := list[i];
      if isFirstLine {
        isFirstLine := false;
      } else {
        output := output + ",";
      }
      output := SerializeRow(line, output);
      assert list[..i + 1] == list[..i] + [line];
      ListTextAppend(list[..i], line);
    }
    assert list[..|list|] == list;
  }

  // ---- Decoding ----

  function SplitItems(s: string): (row: Row)
    decreases |s|
  {
    var c := Find(s, ",", 0);
    if c == -1 then [s] else [s[..c]] + SplitItems(s[c + 1..])
  }

  function AfterComma(s: string): (rest: string)
    ensures |rest| <= |s|
  {
    if "," <= s then s[1..] else s
  }

  function DecodeRows(s: string): (rows: seq<Row>)
    decreases |s|
  {
    var e := Find(s, "}", 0);
    if e < 1 || s[0] != '{' then []
    else [SplitItems(s[1..e])] + DecodeRows(AfterComma(s[e + 1..]))
  }

  predicate GoodItem(x: string) {
    ',' !in x && '}' !in x
  }

  predicate GoodRow(row: Row) {
    row != [] && forall i :: 0 <= i < |row| ==> GoodItem(row[i])
  }

  predicate GoodRows(rows: seq<Row>) {
    forall i :: 0 <= i < |rows| ==> GoodRow(rows[i])
  }

  lemma FindChar(a: string, c: char, b: string)
    requires c !in a
    ensures Find(a + [c] + b, [c], 0) == |a| && Find(a, [c], 0) == -1
  {
    var s := a + [c] + b;
    assert s[|a|..|a| + 1] == [c];
    forall i: nat | i < |a|
      ensures !OccursAt(s, [c], i) && !OccursAt(a, [c], i)
    {
      assert s[i..i + 1] == [a[i]] && a[i..i + 1] == [a[i]] && a[i] in a;
    }
    FindIsLeast(s, [c], 0, |a|);
    FindNone(a, [c], 0);
  }

  lemma SplitFirstItem(x: string, rest: string)
    requires GoodItem(x)
    ensures SplitItems(x + [','] + rest) == [x] + SplitItems(rest)
  {
    var s := x + [','] + rest;
    FindChar(x, ',', rest);
    assert s[|x| + 1..] == rest && s[..|x|] == x;
  }

  lemma {:induction false} NoBrace(row: Row)
    requires GoodRow(row)
    ensures '}' !in JoinItems(row)
    decreases |row|
  {
    if |row| > 1 { NoBrace(row[1..]); }
  }

  lemma JoinTwo(row: Row)
    requires |row| > 1
    ensures JoinItems(row) == row[0] + [','] + JoinItems(row[1..])
  {
    assert row[0] + "," + JoinItems(row[1..]) == row[0] + [','] + JoinItems(row[1..]);
  }

  lemma {:induction false} SplitJoin(row: Row)
    requires GoodRow(row)
    ensures SplitItems(JoinItems(row)) == row
    decreases |row|
  {
    var first, more := row[0], row[1..];
    if more == [] {
      FindChar(first, ',', "");
      assert JoinItems(row) == first;
    } else {
      SplitJoin(more);
      JoinTwo(row);
      SplitFirstItem(first, JoinItems(more));
      assert [first] + more == row;
    }
  }

  lemma {:induction false} DecodeText(rows: seq<Row>, commas: seq<bool>)
    requires |rows| == |commas| && GoodRows(rows)
    ensures DecodeRows(RowsText(rows, commas)) == rows
    decreases |rows|
  {
    if rows != [] {
      var more := RowsText(rows[1..], commas[1..]);
      var rest := (if commas[0] then "," else "") + more;
      assert RowsText(rows, commas) == RowText(rows[0]) + rest;
      DecodeFirst(rows[0], rest);
      assert AfterComma(rest) == more by {
        RowsTextStart(rows[1..], commas[1..]);
      }
      DecodeText(rows[1..], commas[1..]);
    }
  }

  lemma DecodeFirst(row: Row, rest: string)
    requires GoodRow(row)
    ensures DecodeRows(RowText(row) + rest) == [row] + DecodeRows(AfterComma(rest))
  {
    var head := "{" + JoinItems(row);
    var s := head + ['}'] + rest;
    SplitJoin(row);
    NoBrace(row);
    FindChar(head, '}', rest);
    assert s == RowText(row) + rest && s[1..|head|] == JoinItems(row) && s[|head| + 1..] == rest;
  }

  lemma RowsTextStart(rows: seq<Row>, commas: seq<bool>)
    requires |rows| == |commas|
    ensures !("," <= RowsText(rows, commas))
  {
    if rows != [] { assert RowsText(rows, commas)[0] == '{'; }
  }

  lemma {:induction false} ListAsRows(rows: seq<Row>)
    ensures ListText(rows) == RowsText(rows, seq(|rows|, i => i < |rows| - 1))
    decreases |rows|
  {
    if |rows| == 1 {
      assert RowsText(rows[1..], []) == "";
      assert RowText(rows[0]) + "" + "" == RowText(rows[0]);
    } else if rows != [] {
      var commas := seq(|rows|, i => i < |rows| - 1);
      ListAsRows(rows[1..]);
      assert commas[1..] == seq(|rows[1..]|, i => i < |rows[1..]| - 1);
    }
  }

  lemma ItemsGood(s: string)
    requires '}' !in s
    ensures GoodRow(SplitItems(s))
    decreases |s|
  {
    var c := Find(s, ",", 0);
    var x := if c == -1 then s else s[..c];
    forall i: nat | i < |x|
      ensures x[i] != ','
    {
      assert !OccursAt(s, ",", i) && s[i..i + 1] == [s[i]];
    }
    if c != -1 { ItemsGood(s[c + 1..]); }
  }

  lemma DecodedGood(s: string)
    ensures GoodRows(DecodeRows(s))
    decreases |s|
  {
    var e := Find(s, "}", 0);
    if e >= 1 && s[0] == '{' {
      forall i: nat | 1 <= i < e
        ensures s[i] != '}'
      {
        assert !OccursAt(s, "}", i) && s[i..i + 1] == [s[i]];
      }
      ItemsGood(s[1..e]);
      var rest := s[e + 1..];
      DecodedGood(AfterComma(rest));
    }
  }

  // The decoder inverts serializeObjectList exactly on the lists whose rows have at least one
  // item and whose items are free of ',' and '}'.
  lemma ListRoundTrip(rows: seq<Row>)
    ensures DecodeRows(ListText(rows)) == rows <==> GoodRows(rows)
  {
    if GoodRows(rows) {
      ListAsRows(rows);
      DecodeText(rows, seq(|rows|, i => i < |rows| - 1));
    }
    DecodedGood(ListText(rows));
  }

  // ---- Which texts belong to one list only ----

  lemma {:induction false} RowExchange(rows: seq<Row>, i: nat, row: Row)
    requires i < |rows| && RowText(rows[i]) == RowText(row)
    ensures ListText(rows[i := row]) == ListText(rows)
    decreases |rows|
  {
    if i > 0 {
      assert rows[i := row][1..] == rows[1..][i - 1 := row];
      RowExchange(rows[1..], i - 1, row);
    } else {
      assert rows[0 := row][1..] == rows[1..];
    }
  }

  // A row without items reads like a row with one empty item.
  lemma EmptyRowExchange(rows: seq<Row>, i: nat)
    requires i < |rows| && rows[i] == []
    ensures ListText(rows[i := [""]]) == ListText(rows)
  {
    RowExchange(rows, i, [""]);
  }

  // An item with a comma reads like the two items before and behind the comma.
  lemma {:induction false} CommaExchange(pre: Row, a: string, b: string, post: Row)
    ensures JoinItems(pre + [a + "," + b] + post) == JoinItems(pre + [a, b] + post)
    decreases |pre|
  {
    var one, two := pre + [a + "," + b] + post, pre + [a, b] + post;
    if pre == [] {
      assert two[1..] == [b] + post && one[1..] == post;
      if post == [] {
        assert two[1..] == [b];
      } else {
        assert ([b] + post)[1..] == post;
        assert a + "," + (b + "," + JoinItems(post)) == (a + "," + b) + "," + JoinItems(post);
      }
    } else {
      assert one[1..] == pre[1..] + [a + "," + b] + post && two[1..] == pre[1..] + [a, b] + post;
      CommaExchange(pre[1..], a, b, post);
    }
  }

  // An item with "},{" reads like two rows.
  lemma {:induction false} BraceExchange(pre: seq<Row>, first: Row, second: Row, post: seq<Row>)
    ensures var item := JoinItems(first) + "},{" + JoinItems(second);
      ListText(pre + [[item]] + post) == ListText(pre + [first, second] + post)
    decreases |pre|
  {
    var row: Row := [JoinItems(first) + "},{" + JoinItems(second)];
    var one, two := pre + [row] + post, pre + [first, second] + post;
    assert RowText(row) == RowText(first) + "," + RowText(second);
    if pre == [] {
      assert two[1..] == [second] + post && one[1..] == post;
      if post == [] {
        assert two[1..] == [second];
      } else {
        assert ([second] + post)[1..] == post;
        assert RowText(first) + "," + (RowText(second) + "," + ListText(post)) == RowText(row) + "," + ListText(post);
      }
    } else {
      assert one[1..] == pre[1..] + [row] + post && two[1..] == pre[1..] + [first, second] + post;
      BraceExchange(pre[1..], first, second, post);
    }
  }

  ghost predicate Determined(rows: seq<Row>) {
    forall other :: ListText(other) == ListText(rows) ==> other == rows
  }

  predicate SingleItem(rows: seq<Row>) {
    |rows| == 1 && |rows[0]| == 1 && rows[0][0] != "" && ',' !in rows[0][0]
  }

  lemma JoinHasComma(row: Row)
    requires |row| >= 2
    ensures ',' in JoinItems(row)
  {
    JoinTwo(row);
    assert JoinItems(row)[|row[0]|] == ',';
  }

  lemma ListHasComma(rows: seq<Row>)
    requires |rows| >= 2
    ensures ',' in ListText(rows)
  {
    assert ListText(rows)[|RowText(rows[0])|] == ',';
  }

  lemma SingleDetermined(x: string, other: seq<Row>)
    requires x != "" && ',' !in x && ListText(other) == "{" + x + "}"
    ensures other == [[x]]
  {
    assert ',' !in ListText(other);
    if |other| >= 2 { ListHasComma(other); }
    assert |other| == 1;
    var row := other[0];
    assert RowText(row)[1..|RowText(row)| - 1] == JoinItems(row);
    assert ("{" + x + "}")[1..|x| + 1] == x;
    assert JoinItems(row) == x;
    if |row| >= 2 { JoinHasComma(row); }
    assert row == [x];
    assert other == [row];
  }

  // Some other list has the same text.
  lemma Undetermined(rows: seq<Row>) returns (other: seq<Row>)
    requires rows != [] && !SingleItem(rows)
    ensures other != rows && ListText(other) == ListText(rows)
  {
    if |rows| >= 2 {
      BraceExchange([], rows[0], rows[1], rows[2..]);
      other := [] + [[JoinItems(rows[0]) + "},{" + JoinItems(rows[1])]] + rows[2..];
      assert [] + [rows[0], rows[1]] + rows[2..] == rows;
    } else if rows[0] == [] {
      other := [[""]];
    } else if rows[0] == [""] {
      other := [[]];
    } else if |rows[0]| >= 2 {
      var row := rows[0];
      CommaExchange([], row[0], row[1], row[2..]);
      other := [[] + [row[0] + "," + row[1]] + row[2..]];
      assert [] + [row[0], row[1]] + row[2..] == row;
    } else {
      var x := rows[0][0];
      var k :| 0 <= k < |x| && x[k] == ',';
      CommaExchange([], x[..k], x[k + 1..], []);
      other := [[x[..k], x[k + 1..]]];
      assert x[..k] + "," + x[k + 1..] == x;
      assert [] + [x] + [] == [x] && [] + [x[..k], x[k + 1..]] + [] == other[0];
    }
  }

  // The text alone determines the list only for the empty list and for a single row with a single
  // non-empty item free of commas; every other list shares its text with another one.
  lemma DeterminedIff(rows: seq<Row>)
    ensures Determined(rows) <==> rows == [] || SingleItem(rows)
  {
    if rows == [] {
    } else if SingleItem(rows) {
      forall other | ListText(other) == ListText(rows)
        ensures other == rows
      {
        var x := rows[0][0];
        assert rows[0] == [x] && rows == [[x]];
        SingleDetermined(x, other);
      }
    } else {
      var other := Undetermined(rows);
    }
  }
}
