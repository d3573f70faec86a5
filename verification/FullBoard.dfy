// Full boards on six nodes: the only way a round fills all fifteen edges without a loss.
module FullBoard {
  import opened Cycles
  import opened GameGraphs
  import opened GraphGrowth
  import opened GameRules

  // The second mover's edges: {0,x} and the complete graph on the four nodes other than 0 and x.
  ghost function SecondShape(x: nat): Graph {
    set i: nat, j: nat | i < 6 && j < 6 && i != j && ((i == 0 || i == x) == (j == 0 || j == x)) :: (i, j)
  }

  // The opener's edges: every edge between {0,x} and the other four nodes.
  ghost function FirstShape(x: nat): Graph {
    set i: nat, j: nat | i < 6 && j < 6 && ((i == 0 || i == x) != (j == 0 || j == x)) :: (i, j)
  }

  ghost predicate Full(b: Board) {
    b.one + b.two == AllPairs(GAME_NODE_NUM)
  }

  ghost predicate ColoursK6(c: Graph, d: Graph) {
    && SoundGraph(6, c) && SoundGraph(6, d)
    && c !! d
    && forall i: nat, j: nat :: i < 6 && j < 6 && i != j ==> (i, j) in c || (i, j) in d
  }

  lemma NoTriangleAt(g: Graph, x: nat, y: nat, z: nat)
    requires !TriangleNear0(g) && Reaches(g, 0, x)
    ensures !Triangle(g, x, y, z)
  {
  }

  // y and z are two neighbours of 0 in the same colour: their own edge has the other colour.
  lemma NeighboursDiffer(c: Graph, d: Graph, y: nat, z: nat)
    requires ColoursK6(c, d) && (0, y) in c && (0, z) in c && y != z
    ensures (y, z) in d
  {
    ReachesSelf(c, 0);
    NoTriangleAt(c, 0, y, z);
  }

  ghost predicate ThreeNeighbours(c: Graph, p: nat, q: nat, r: nat) {
    (0, p) in c && (0, q) in c && (0, r) in c && p != q && q != r && p != r
  }

  // x and y are neighbours of 0 in different colours; three neighbours share y's colour.
  lemma CrossEdge(c: Graph, d: Graph, p: nat, q: nat, r: nat, x: nat, y: nat)
    requires ColoursK6(c, d) && ThreeNeighbours(c, p, q, r)
    requires (0, x) in d && (0, y) in c
    ensures (x, y) in c
  {
    if (x, y) in d {
      var s := if y != p then p else q;
      var t := if y != r && s != r then r else q;
      NeighboursDiffer(c, d, y, s);
      NeighboursDiffer(c, d, y, t);
      NeighboursDiffer(c, d, s, t);
      ReachesEdge(d, 0, x);
      ReachesEdge(d, x, y);
      ReachesTrans(d, 0, x, y);
      NoTriangleAt(d, y, s, t);
    }
  }

  // At most one neighbour of 0 has the minority colour.
  lemma OneMinority(c: Graph, d: Graph, p: nat, q: nat, r: nat, x: nat, z: nat)
    requires ColoursK6(c, d) && ThreeNeighbours(c, p, q, r)
    requires (0, x) in d && (0, z) in d
    ensures x == z
  {
    if x != z {
      NeighboursDiffer(d, c, x, z);
      CrossEdge(c, d, p, q, r, x, p);
      CrossEdge(c, d, p, q, r, z, p);
      ReachesEdge(c, 0, p);
      NoTriangleAt(c, p, x, z);
    }
  }

  // Some colour gives 0 at least three of its five neighbours.
  lemma MajorityColour(c: Graph, d: Graph) returns (p: nat, q: nat, r: nat)
    requires ColoursK6(c, d)
    ensures ThreeNeighbours(c, p, q, r) || ThreeNeighbours(d, p, q, r)
  {
    var inC := seq(6, (i: nat) => (0, i) in c);
    assert forall i: nat :: 1 <= i < 6 ==> (0, i) in if inC[i] then c else d;
    if inC[1] == inC[2] {
      var k := if inC[3] == inC[1] then 3 else if inC[4] == inC[1] then 4 else 5;
      if inC[k] == inC[1] { return 1, 2, k; } else { return 3, 4, 5; }
    } else {
      var s, t := if inC[3] == inC[1] then 1 else 2, if inC[3] == inC[1] then 2 else 1;
      var k := if inC[4] == inC[3] then 4 else 5;
      if inC[k] == inC[3] { return s, 3, k; } else { return t, 4, 5; }
    }
  }

  // The colouring is forced: 0 has a single minority neighbour x, or none.
  lemma ForcedColouring(c: Graph, d: Graph, p: nat, q: nat, r: nat)
    requires ColoursK6(c, d) && ThreeNeighbours(c, p, q, r)
    ensures (forall i: nat :: 1 <= i < 6 ==> (0, i) in c) || (exists x: nat :: 1 <= x < 6 && d == SecondShape(x) && c == FirstShape(x))
  {
    if x: nat :| 1 <= x < 6 && (0, x) in d {
      forall i: nat, j: nat | i < 6 && j < 6 && i != j
        ensures (i, j) in d <==> (i, j) in SecondShape(x)
        ensures (i, j) in c <==> (i, j) in FirstShape(x)
      {
        ShapeOfPair(c, d, p, q, r, x, i, j);
      }
      PairsEqual(d, SecondShape(x));
      PairsEqual(c, FirstShape(x));
    }
  }

  lemma PairsEqual(g: Graph, h: Graph)
    requires Within(g, 6) && LoopFree(g) && Within(h, 6) && LoopFree(h)
    requires forall i: nat, j: nat :: i < 6 && j < 6 && i != j ==> ((i, j) in g <==> (i, j) in h)
    ensures g == h
  {
    forall e: (nat, nat)
      ensures e in g <==> e in h
    {
      var (u, v) := e;
      assert (u, v) in g || (u, v) in h ==> u < 6 && v < 6 && u != v;
    }
  }

  lemma ShapeOfPair(c: Graph, d: Graph, p: nat, q: nat, r: nat, x: nat, i: nat, j: nat)
    requires ColoursK6(c, d) && ThreeNeighbours(c, p, q, r)
    requires 1 <= x < 6 && (0, x) in d && i < 6 && j < 6 && i != j
    ensures (i, j) in d <==> ((i == 0 || i == x) == (j == 0 || j == x))
    ensures (i, j) in c <==> ((i == 0 || i == x) != (j == 0 || j == x))
  {
    if (0, i) in d { OneMinority(c, d, p, q, r, x, i); }
    if (0, j) in d { OneMinority(c, d, p, q, r, x, j); }
    if i != 0 && j != 0 {
      if i == x {
        CrossEdge(c, d, p, q, r, x, j);
      } else if j == x {
        CrossEdge(c, d, p, q, r, x, i);
      } else {
        NeighboursDiffer(c, d, i, j);
      }
    }
  }

  // ---- Counting the two shapes ----

  lemma ShapesPartition(x: nat)
    ensures AllPairs(6) == SecondShape(x) + FirstShape(x)
    ensures SecondShape(x) !! FirstShape(x)
  {
    forall e: (nat, nat)
      ensures e in AllPairs(6) <==> e in SecondShape(x) + FirstShape(x)
    {
      var (i, j) := e;
      assert (i, j) in AllPairs(6) <==> i < 6 && j < 6 && i != j;
    }
  }

  lemma SecondShapeParts(x: nat)
    requires 1 <= x < 6
    ensures SecondShape(x) == {(0, x), (x, 0)} + PairsIn(Nodes(6) - {0, x})
  {
    forall e: (nat, nat)
      ensures e in SecondShape(x) <==> e in {(0, x), (x, 0)} + PairsIn(Nodes(6) - {0, x})
    {
      var (i, j) := e;
    }
  }

  lemma RestSize(n: nat, drop: set<nat>)
    requires drop <= Nodes(n)
    ensures |PairsIn(Nodes(n) - drop)| == (n - |drop|) * (n - |drop| - 1)
  {
    NodesSize(n);
    PairsSize(Nodes(n) - drop);
    assert Nodes(n) == (Nodes(n) - drop) + drop;
  }

  lemma PairSize(x: nat)
    requires x != 0
    ensures |{(0, x), (x, 0)}| == 2
  {
    assert (0, x) != (x, 0);
  }

  // The K4 on the nodes other than 0 and x.
  lemma InnerSize(x: nat)
    requires 1 <= x < 6
    ensures |PairsIn(Nodes(6) - {0, x})| == 12
  {
    var drop: set<nat> := {0, x};
    assert |drop| == 2;
    RestSize(6, drop);
  }

  lemma SecondSize(x: nat)
    requires 1 <= x < 6
    ensures |SecondShape(x)| == 14
  {
    InnerSize(x);
    SecondShapeParts(x);
    PairSize(x);
  }

  lemma AllPairsSize()
    ensures |AllPairs(6)| == 30
  {
    NodesSize(6);
    PairsSize(Nodes(6));
  }

  lemma ShapeSizes(x: nat)
    requires 1 <= x < 6
    ensures |SecondShape(x)| == 14 && |FirstShape(x)| == 16
  {
    SecondSize(x);
    AllPairsSize();
    ShapesPartition(x);
  }

  // If 0 had no minority neighbour, one player would own just the five edges at 0.
  lemma StarTooUneven(c: Graph, d: Graph)
    requires ColoursK6(c, d)
    requires forall i: nat :: 1 <= i < 6 ==> (0, i) in c
    ensures |d| == |c| + 10
  {
    var drop: set<nat> := {0};
    var others := Nodes(6) - drop;
    StarParts(c, d, others);
    assert |d| == 20 by {
      RestSize(6, drop);
    }
    assert |others| == 5 by {
      NodesSize(6);
      assert Nodes(6) == others + drop;
    }
    StarSize(others);
  }

  lemma StarSize(others: set<nat>)
    requires 0 !in others
    ensures |Row(others, 0) + Column(others, 0)| == 2 * |others|
  {
    RowSize(others, 0);
    assert Row(others, 0) !! Column(others, 0);
  }

  lemma StarParts(c: Graph, d: Graph, others: set<nat>)
    requires ColoursK6(c, d) && others == Nodes(6) - {0}
    requires forall i: nat :: 1 <= i < 6 ==> (0, i) in c
    ensures d == PairsIn(others) && c == Row(others, 0) + Column(others, 0)
  {
    forall i: nat, j: nat | i < 6 && j < 6 && i != j
      ensures (i, j) in d <==> i != 0 && j != 0
      ensures (i, j) in c <==> i == 0 || j == 0
    {
      if i != 0 && j != 0 { NeighboursDiffer(c, d, i, j); }
    }
    PairsEqual(d, PairsIn(others));
    PairsEqual(c, Row(others, 0) + Column(others, 0));
  }

  // ---- The theorem ----

  // The player on turn moved second in this round and owns {0,x} plus the K4;
  // the opener owns the K2,4 between the two parts.
  ghost predicate DrawnShape(b: Board, x: nat) {
    1 <= x < 6 && b.OnTurn() == SecondShape(x) && b.Waiting() == FirstShape(x)
  }

  lemma FullIsColouring(b: Board)
    requires BoardInv(6, b) && Full(b)
    ensures ColoursK6(b.one, b.two) && ColoursK6(b.two, b.one)
  {
    forall i: nat, j: nat | i < 6 && j < 6 && i != j
      ensures (i, j) in b.one || (i, j) in b.two
    {
      assert (i, j) in AllPairs(6);
    }
  }

  lemma FullBoardShape(b: Board)
    requires BoardInv(6, b) && Full(b)
    ensures exists x :: DrawnShape(b, x)
  {
    FullIsColouring(b);
    var mine, theirs := b.OnTurn(), b.Waiting();
    var p, q, r := MajorityColour(mine, theirs);
    var c, d := if ThreeNeighbours(mine, p, q, r) then mine else theirs, if ThreeNeighbours(mine, p, q, r) then theirs else mine;
    ForcedColouring(c, d, p, q, r);
    if forall i: nat :: 1 <= i < 6 ==> (0, i) in c {
      StarTooUneven(c, d);
      assert false;
    } else {
      var x: nat :| 1 <= x < 6 && d == SecondShape(x) && c == FirstShape(x);
      ShapeSizes(x);
      assert DrawnShape(b, x);
    }
  }

  // Walks in the second mover's shape never leave {0,x}.
  lemma {:induction false} SecondShapeComponent(x: nat, p: seq<nat>, v: nat)
    requires 1 <= x < 6 && Connects(SecondShape(x), p, 0, v)
    ensures v == 0 || v == x
    decreases |p|
  {
    if |p| > 1 {
      assert (p[|p| - 1 - 1], p[|p| - 1]) in SecondShape(x);
      SecondShapeComponent(x, p[..|p| - 1], p[|p| - 2]);
    }
  }

  lemma ShapesSound(x: nat)
    requires 1 <= x < 6
    ensures SoundGraph(6, FirstShape(x)) && SoundGraph(6, SecondShape(x))
  {
    var s := SecondShape(x);
    forall a, b, c | Reaches(s, 0, a)
      ensures !Triangle(s, a, b, c)
    {
      var p :| Connects(s, p, 0, a);
      SecondShapeComponent(x, p, a);
    }
  }

  // A reachable board is full exactly when it has this one shape, for some x; every
  // such board is reached, so every other way to fill the board declared a loss before.
  lemma FullBoardTheorem(b: Board)
    ensures Reachable(6, b) && Full(b) <==> exists x :: DrawnShape(b, x)
  {
    ReachableIffInvariant(6, b);
    if Reachable(6, b) && Full(b) {
      FullBoardShape(b);
    }
    if x :| DrawnShape(b, x) {
      DrawnSound(b, x);
    }
  }

  lemma DrawnSound(b: Board, x: nat)
    requires DrawnShape(b, x)
    ensures BoardInv(6, b) && Full(b)
  {
    ShapesSound(x);
    ShapeSizes(x);
    ShapesPartition(x);
  }

  // Such a round never ends: every further command is refused.
  lemma FullBoardStuck(b: Board, run: seq<Attempt>)
    requires Full(b)
    ensures PlayAll(6, b, run) == b
    decreases |run|
  {
    if run != [] {
      FullBoardStuck(b, run[..|run| - 1]);
      var a := run[|run| - 1];
      assert IsValidEdge(6, a.source, a.destination) ==> (a.source, a.destination) in AllPairs(6);
    }
  }
}
