// serializeUndirectedEdges (src/game_logic/game_room/GameGraph.cpp:63-78): the edge list sent to the players.
module GraphText {
  import opened Cycles
  import opened GameGraphs
  import opened Decimals
  import opened ObjectLists

  type Pair = (nat, nat)

  function PairRow(p: Pair): Row {
    [Decimal(p.0), Decimal(p.1)]
  }

  function PairRows(ps: seq<Pair>): (rows: seq<Row>)
    ensures |rows| == |ps| && forall i :: 0 <= i < |ps| ==> rows[i] == PairRow(ps[i])
  {
    seq(|ps|, i requires 0 <= i < |ps| => PairRow(ps[i]))
  }

  // Every item is followed by a comma except the pair (n-2,n-1).
  function PairCommas(n: nat, ps: seq<Pair>): (commas: seq<bool>)
    ensures |commas| == |ps| && forall i :: 0 <= i < |ps| ==> commas[i] == (ps[i] != (n - 2, n - 1))
  {
    seq(|ps|, i requires 0 <= i < |ps| => ps[i] != (n - 2, n - 1))
  }

  function EdgesText(n: nat, ps: seq<Pair>): string {
    RowsText(PairRows(ps), PairCommas(n, ps))
  }

  // The edges met by the nested loops before they reach (i,j).
  ghost function EdgesUpTo(n: nat, g: Graph, i: nat, j: nat): seq<Pair>
    decreases i, j
  {
    if j > 0 then EdgesUpTo(n, g, i, j - 1) + (if j - 1 > i && (i, j - 1) in g then [(i, j - 1)] else [])
    else if i > 0 then EdgesUpTo(n, g, i - 1, n)
    else []
  }

  ghost function EdgeList(n: nat, g: Graph): seq<Pair> {
    EdgesUpTo(n, g, n, 0)
  }

  predicate Before(p: Pair, q: Pair) {
    p.0 < q.0 || (p.0 == q.0 && p.1 < q.1)
  }

  lemma EdgesStep(n: nat, g: Graph, i: nat, j: nat)
    ensures EdgesUpTo(n, g, i, j + 1) ==
            if j > i && (i, j) in g then EdgesUpTo(n, g, i, j) + [(i, j)] else EdgesUpTo(n, g, i, j)
    ensures i > 0 ==> EdgesUpTo(n, g, i, 0) == EdgesUpTo(n, g, i - 1, n)
  {
  }

  ghost predicate SortedEdges(n: nat, g: Graph, ps: seq<Pair>, end: Pair) {
    && (forall k, l :: 0 <= k < l < |ps| ==> Before(ps[k], ps[l]))
    && (forall k :: 0 <= k < |ps| ==> Before(ps[k], end) && ps[k].0 < ps[k].1 < n && ps[k] in g)
  }

  ghost predicate AllEdgesBefore(n: nat, g: Graph, ps: seq<Pair>, end: Pair) {
    forall u: nat, v: nat :: (u, v) in g && u < v < n && Before((u, v), end) ==> (u, v) in ps
  }

  lemma {:induction false} EdgesUpToSorted(n: nat, g: Graph, i: nat, j: nat)
    requires j <= n
    ensures SortedEdges(n, g, EdgesUpTo(n, g, i, j), (i, j))
    decreases i, j
  {
    if j > 0 {
      EdgesUpToSorted(n, g, i, j - 1);
      EdgesStep(n, g, i, j - 1);
    } else if i > 0 {
      EdgesUpToSorted(n, g, i - 1, n);
      EdgesStep(n, g, i, 0);
    }
  }

  lemma CompleteStep(n: nat, g: Graph, qs: seq<Pair>, ps: seq<Pair>, i: nat, j: nat)
    requires AllEdgesBefore(n, g, qs, (i, j)) && ps == if j > i && (i, j) in g then qs + [(i, j)] else qs
    ensures AllEdgesBefore(n, g, ps, (i, j + 1))
  {
    forall u: nat, v: nat | (u, v) in g && u < v < n && Before((u, v), (i, j + 1))
      ensures (u, v) in ps
    {
      if !Before((u, v), (i, j)) { assert ps[|ps| - 1] == (u, v); }
    }
  }

  lemma CompleteRow(n: nat, g: Graph, ps: seq<Pair>, i: nat)
    requires AllEdgesBefore(n, g, ps, (i, n))
    ensures AllEdgesBefore(n, g, ps, (i + 1, 0))
  {
  }

  lemma {:induction false} EdgesUpToComplete(n: nat, g: Graph, i: nat, j: nat)
    requires j <= n
    ensures AllEdgesBefore(n, g, EdgesUpTo(n, g, i, j), (i, j))
    decreases i, j
  {
    if j > 0 {
      EdgesUpToComplete(n, g, i, j - 1);
      EdgesStep(n, g, i, j - 1);
      CompleteStep(n, g, EdgesUpTo(n, g, i, j - 1), EdgesUpTo(n, g, i, j), i, j - 1);
    } else if i > 0 {
      EdgesUpToComplete(n, g, i - 1, n);
      EdgesStep(n, g, i, 0);
      CompleteRow(n, g, EdgesUpTo(n, g, i - 1, n), i - 1);
    }
  }

  // Each edge once, smaller node first, in strict lexicographic order.
  lemma EdgeListSorted(n: nat, g: Graph)
    requires Within(g, n) && Symmetric(g) && LoopFree(g)
    ensures forall k, l :: 0 <= k < l < |EdgeList(n, g)| ==> Before(EdgeList(n, g)[k], EdgeList(n, g)[l])
    ensures forall u: nat, v: nat :: (u, v) in EdgeList(n, g) <==> u < v && (u, v) in g
  {
    EdgesUpToSorted(n, g, n, 0);
    EdgesUpToComplete(n, g, n, 0);
  }

  lemma RowsTextFirst(row: Row, rows: seq<Row>, comma: bool, commas: seq<bool>)
    requires |rows| == |commas|
    ensures RowsText([row] + rows, [comma] + commas) == RowText(row) + (if comma then "," else "") + RowsText(rows, commas)
  {
    assert ([row] + rows)[1..] == rows && ([comma] + commas)[1..] == commas;
  }

  lemma Regroup(a: string, b: string, c: string, d: string)
    ensures a + (b + c + d) == (a + b) + c + d
  {
  }

  lemma {:induction false} RowsTextAppend(rows: seq<Row>, commas: seq<bool>, row: Row, comma: bool)
    requires |rows| == |commas|
    ensures RowsText(rows + [row], commas + [comma]) == RowsText(rows, commas) + RowText(row) + (if comma then "," else "")
    decreases |rows|
  {
    if rows == [] {
      assert [row][1..] == [] && [comma][1..] == [];
    } else {
      var head, rest := RowText(rows[0]) + (if commas[0] then "," else ""), RowsText(rows[1..], commas[1..]);
      RowsTextAppend(rows[1..], commas[1..], row, comma);
      assert rows + [row] == [rows[0]] + (rows[1..] + [row]) && commas + [comma] == [commas[0]] + (commas[1..] + [comma]);
      RowsTextFirst(rows[0], rows[1..] + [row], commas[0], commas[1..] + [comma]);
      Regroup(head, rest, RowText(row), if comma then "," else "");
    }
  }

  lemma PairText(x: string, y: string)
    ensures RowText([x, y]) == "{" + x + "," + y + "}"
  {
    assert [x, y][1..] == [y];
    assert JoinItems([x, y]) == x + "," + JoinItems([y]);
  }

  lemma PairsAppend(n: nat, ps: seq<Pair>, p: Pair)
    ensures PairRows(ps + [p]) == PairRows(ps) + [PairRow(p)]
    ensures PairCommas(n, ps + [p]) == PairCommas(n, ps) + [p != (n - 2, n - 1)]
  {
  }

  lemma EdgesTextAppend(n: nat, ps: seq<Pair>, p: Pair)
    ensures var t := EdgesText(n, ps) + "{" + Decimal(p.0) + "," + Decimal(p.1) + "}";
      EdgesText(n, ps + [p]) == if p.0 == n - 2 && p.1 == n - 1 then t else t + ","
  {
    var x, y := Decimal(p.0), Decimal(p.1);
    PairsAppend(n, ps, p);
    RowsTextAppend(PairRows(ps), PairCommas(n, ps), PairRow(p), p != (n - 2, n - 1));
    PairText(x, y);
  }

  method SerializeUndirectedEdges(board: GameGraph) returns (result: string)
    requires board.Valid()
    ensures result == EdgesText(board.n, EdgeList(board.n, board.Edges()))
  {
    var n := board.n;
    ghost var g := board.Edges();
    result := "";
    for i := 0 to n
      invariant result == EdgesText(n, EdgesUpTo(n, g, i, 0))
    {
      for j := 0 to n
        invariant result == EdgesText(n, EdgesUpTo(n, g, i, j))
      {
        EdgesStep(n, g, i, j);
        if j <= i {
          continue;
        }
        var _, present := board.HasUndirectedEdge(i, j);
        if !present {
          continue;
        }
        EdgesTextAppend(n, EdgesUpTo(n, g, i, j), (i, j));
        result := result + "{" + Decimal(i) + "," + Decimal(j) + "}";
        if i == n - 2 && j == n - 1 {
          continue;
        }
        result := result + ",";
      }
      EdgesStep(n, g, i + 1, 0);
    }
  }

  // ---- The commas ----

  lemma Comma(a: string, b: string, c: string)
    ensures a + "," + (b + c) == (a + "," + b) + c
  {
  }

  lemma {:induction false} RowsTextList(rows: seq<Row>, commas: seq<bool>)
    requires |rows| == |commas| && forall i :: 0 <= i < |rows| - 1 ==> commas[i]
    ensures RowsText(rows, commas) == ListText(rows) + if rows != [] && commas[|rows| - 1] then "," else ""
    decreases |rows|
  {
    if |rows| > 1 {
      RowsTextList(rows[1..], commas[1..]);
      Comma(RowText(rows[0]), ListText(rows[1..]), if commas[|rows| - 1] then "," else "");
    } else if |rows| == 1 {
      assert RowsText(rows[1..], commas[1..]) == "";
    }
  }

  lemma HasEdges(n: nat, g: Graph, ps: seq<Pair>)
    requires Symmetric(g) && LoopFree(g) && forall u: nat, v: nat :: (u, v) in ps <==> u < v && (u, v) in g
    ensures ps == [] <==> g == {}
  {
    if ps != [] {
      var (u, v) := ps[0];
      assert (u, v) in ps;
    }
    if p: (nat, nat) :| p in g {
      var (u, v) := p;
      assert (u, v) in g && (v, u) in g && (u, u) !in g;
      assert (u, v) in ps || (v, u) in ps;
    }
  }

  lemma LastComma(n: nat, ps: seq<Pair>)
    requires n >= 2 && ps != [] && forall k :: 0 <= k < |ps| - 1 ==> Before(ps[k], ps[|ps| - 1])
    requires forall k :: 0 <= k < |ps| ==> ps[k].0 < ps[k].1 < n
    ensures (n - 2, n - 1) in ps <==> !PairCommas(n, ps)[|ps| - 1]
  {
    if (n - 2, n - 1) in ps {
      var k :| 0 <= k < |ps| && ps[k] == (n - 2, n - 1);
      assert k == |ps| - 1;
    }
  }

  // The text is the comma-separated list of the edges, and ends with one more comma exactly if there are
  // edges, but not the last possible one.
  lemma TrailingComma(n: nat, g: Graph)
    requires Within(g, n) && Symmetric(g) && LoopFree(g) && n >= 2
    ensures var ps := EdgeList(n, g);
      EdgesText(n, ps) == ListText(PairRows(ps)) + if g != {} && (n - 2, n - 1) !in g then "," else ""
  {
    var ps := EdgeList(n, g);
    EdgesUpToSorted(n, g, n, 0);
    EdgeListSorted(n, g);
    var commas := PairCommas(n, ps);
    forall i | 0 <= i < |ps| - 1
      ensures commas[i]
    {
      assert Before(ps[i], ps[|ps| - 1]);
    }
    RowsTextList(PairRows(ps), commas);
    HasEdges(n, g, ps);
    if ps != [] { LastComma(n, ps); }
  }

  // ---- The text determines the graph ----

  function DecodePair(row: Row): Pair {
    if |row| == 2 && IsDigits(row[0]) && IsDigits(row[1]) then (DigitsValue(row[0]), DigitsValue(row[1])) else (0, 0)
  }

  function DecodePairs(s: string): seq<Pair> {
    var rows := DecodeRows(s);
    seq(|rows|, i requires 0 <= i < |rows| => DecodePair(rows[i]))
  }

  lemma PairRowGood(p: Pair)
    ensures GoodRow(PairRow(p)) && DecodePair(PairRow(p)) == p
  {
    DecimalRoundTrip(p.0);
    DecimalRoundTrip(p.1);
  }

  lemma DecodeEdges(n: nat, ps: seq<Pair>)
    ensures DecodePairs(EdgesText(n, ps)) == ps
  {
    forall i | 0 <= i < |ps|
      ensures GoodRow(PairRow(ps[i])) && DecodePair(PairRow(ps[i])) == ps[i]
    {
      PairRowGood(ps[i]);
    }
    DecodeText(PairRows(ps), PairCommas(n, ps));
  }

  // Boards that serialize to the same text are the same board.
  lemma EqualTextEqualGraph(n: nat, g: Graph, h: Graph)
    requires Within(g, n) && Symmetric(g) && LoopFree(g)
    requires Within(h, n) && Symmetric(h) && LoopFree(h)
    ensures EdgesText(n, EdgeList(n, g)) == EdgesText(n, EdgeList(n, h)) <==> g == h
  {
    DecodeEdges(n, EdgeList(n, g));
    DecodeEdges(n, EdgeList(n, h));
    EdgeListSorted(n, g);
    EdgeListSorted(n, h);
    if EdgeList(n, g) == EdgeList(n, h) {
      forall p: Pair
        ensures p in g <==> p in h
      {
        var (u, v) := p;
        assert (u, v) in g <==> (v, u) in g;
        assert (u, v) in h <==> (v, u) in h;
        assert (u, u) !in g && (u, u) !in h;
        assert u < v ==> ((u, v) in g <==> (u, v) in h);
        assert v < u ==> ((v, u) in g <==> (v, u) in h);
      }
    }
  }
}
