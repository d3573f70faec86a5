// The rules of src/game_logic/game_room/Game.cpp:79-160 on the two boards alone: whose turn
// it is, which edges may be taken, who loses, and what a finished round leaves behind.
module GameRules {
  import opened Cycles
  import opened GameGraphs
  import opened GraphGrowth

  const GAME_NODE_NUM: nat := 6

  datatype Board = Board(one: Graph, two: Graph, playerOneTurn: bool) {
    function OnTurn(): Graph { if playerOneTurn then one else two }
    function Waiting(): Graph { if playerOneTurn then two else one }
  }

  // One GAME_COMMAND whose edge text parsed to two numbers.
  datatype Attempt = Attempt(byOne: bool, source: nat, destination: nat)

  function InitBoard(playerOneTurn: bool): Board {
    Board({}, {}, playerOneTurn)
  }

  predicate Accepted(n: nat, b: Board, a: Attempt) {
    && a.byOne == b.playerOneTurn
    && IsValidEdge(n, a.source, a.destination)
    && (a.source, a.destination) !in b.one
    && (a.source, a.destination) !in b.two
  }

  function Place(b: Board, a: Attempt): Board {
    var e := UndirectedEdge(a.source, a.destination);
    if b.playerOneTurn then Board(b.one + e, b.two, false) else Board(b.one, b.two + e, true)
  }

  // The mover has just closed a triangle in node 0's component.
  ghost predicate Loses(b: Board, a: Attempt) {
    TriangleNear0(b.OnTurn() + UndirectedEdge(a.source, a.destination))
  }

  ghost function Play(n: nat, b: Board, a: Attempt): Board {
    if !Accepted(n, b, a) then b
    else if Loses(b, a) then InitBoard(!b.playerOneTurn)
    else Place(b, a)
  }

  ghost function PlayAll(n: nat, b: Board, run: seq<Attempt>): Board {
    if run == [] then b else Play(n, PlayAll(n, b, run[..|run| - 1]), run[|run| - 1])
  }

  ghost predicate Reachable(n: nat, b: Board) {
    exists run :: PlayAll(n, InitBoard(true), run) == b
  }

  ghost predicate SoundGraph(n: nat, g: Graph) {
    Within(g, n) && Symmetric(g) && LoopFree(g) && !TriangleNear0(g)
  }

  // The player on turn owns as many edges as the opponent, or one fewer (edges count twice here).
  ghost predicate FairTurn(b: Board) {
    |b.Waiting()| == |b.OnTurn()| || |b.Waiting()| == |b.OnTurn()| + 2
  }

  ghost predicate BoardInv(n: nat, b: Board) {
    SoundGraph(n, b.one) && SoundGraph(n, b.two) && b.one !! b.two && FairTurn(b)
  }

  // ---- Every run keeps the invariant ----

  lemma PlaceKeeps(n: nat, b: Board, a: Attempt)
    requires BoardInv(n, b) && Accepted(n, b, a) && !Loses(b, a)
    ensures BoardInv(n, Place(b, a))
  {
    var e := UndirectedEdge(a.source, a.destination);
    assert e !! b.one && e !! b.two;
    assert |b.OnTurn() + e| == |b.OnTurn()| + 2;
  }

  lemma PlayKeeps(n: nat, b: Board, a: Attempt)
    requires BoardInv(n, b)
    ensures BoardInv(n, Play(n, b, a))
  {
    if Accepted(n, b, a) && !Loses(b, a) {
      PlaceKeeps(n, b, a);
    }
  }

  lemma {:induction false} RunKeeps(n: nat, b: Board, run: seq<Attempt>)
    requires BoardInv(n, b)
    ensures BoardInv(n, PlayAll(n, b, run))
    decreases |run|
  {
    if run != [] {
      RunKeeps(n, b, run[..|run| - 1]);
      PlayKeeps(n, PlayAll(n, b, run[..|run| - 1]), run[|run| - 1]);
    }
  }

  // ---- Every board that satisfies the invariant is reached by some run ----

  lemma Continue(n: nat, b: Board, a: Attempt)
    requires Reachable(n, b)
    ensures Reachable(n, Play(n, b, a))
  {
    var run :| PlayAll(n, InitBoard(true), run) == b;
    assert (run + [a])[..|run|] == run;
    assert PlayAll(n, InitBoard(true), run + [a]) == Play(n, b, a);
  }

  lemma StartReachable(n: nat)
    ensures Reachable(n, InitBoard(true))
  {
    assert PlayAll(n, InitBoard(true), []) == InitBoard(true);
  }

  // The opener can lose in five moves, after which player two opens the next round.
  lemma OtherStartReachable(n: nat)
    requires n >= 4
    ensures Reachable(n, InitBoard(false))
  {
    var b0 := InitBoard(true);
    StartReachable(n);
    var a1, a2, a3, a4, a5 := Attempt(true, 0, 1), Attempt(false, 0, 3), Attempt(true, 0, 2), Attempt(false, 1, 3), Attempt(true, 1, 2);
    var p1: Graph := {(0, 1), (1, 0)};
    var p2: Graph := {(0, 3), (3, 0)};
    var p3: Graph := p1 + {(0, 2), (2, 0)};
    var p4: Graph := p2 + {(1, 3), (3, 1)};
    TriangleFreeMono(p1, p3);
    TriangleFreeMono(p2, p4);
    Continue(n, b0, a1);
    assert Play(n, b0, a1) == Board(p1, {}, false);
    Continue(n, Board(p1, {}, false), a2);
    assert Play(n, Board(p1, {}, false), a2) == Board(p1, p2, true);
    Continue(n, Board(p1, p2, true), a3);
    assert Play(n, Board(p1, p2, true), a3) == Board(p3, p2, false);
    Continue(n, Board(p3, p2, false), a4);
    assert Play(n, Board(p3, p2, false), a4) == Board(p3, p4, true);
    Continue(n, Board(p3, p4, true), a5);
    var last := p3 + UndirectedEdge(1, 2);
    ReachesSelf(last, 0);
    assert Triangle(last, 0, 1, 2);
  }

  lemma TriangleFreeMono(g: Graph, h: Graph)
    requires g <= h && !TriangleNear0(h)
    ensures !TriangleNear0(g)
  {
    if TriangleNear0(g) { TriangleNear0Mono(g, h); }
  }

  // Taking back one edge of the player who moved last.
  function TakeBack(b: Board, e: Graph): Board {
    if b.playerOneTurn then Board(b.one, b.two - e, false) else Board(b.one - e, b.two, true)
  }

  lemma {:induction false} InvariantReachable(n: nat, b: Board)
    requires n >= 4 && BoardInv(n, b)
    ensures Reachable(n, b)
    decreases |b.one| + |b.two|
  {
    if b.Waiting() == {} {
      assert b.OnTurn() == {};
      StartReachable(n);
      OtherStartReachable(n);
    } else {
      var p: (nat, nat) :| p in b.Waiting();
      var (u, v) := p;
      var e := UndirectedEdge(u, v);
      assert (v, u) in b.Waiting();
      assert |b.Waiting() - e| == |b.Waiting()| - 2;
      var before := TakeBack(b, e);
      TriangleFreeMono(b.Waiting() - e, b.Waiting());
      assert before.OnTurn() + e == b.Waiting();
      InvariantReachable(n, before);
      var a := Attempt(before.playerOneTurn, u, v);
      Continue(n, before, a);
      assert Play(n, before, a) == b;
    }
  }

  // The reachable boards are exactly the boards of the invariant, over any number of rounds.
  lemma ReachableIffInvariant(n: nat, b: Board)
    requires n >= 4
    ensures Reachable(n, b) <==> BoardInv(n, b)
  {
    if Reachable(n, b) {
      var run :| PlayAll(n, InitBoard(true), run) == b;
      RunKeeps(n, InitBoard(true), run);
    }
    if BoardInv(n, b) {
      InvariantReachable(n, b);
    }
  }

  // ---- Whose turn it is ----

  ghost function AcceptedCount(n: nat, b: Board, run: seq<Attempt>): nat {
    if run == [] then 0
    else
      AcceptedCount(n, b, run[..|run| - 1])
      + if Accepted(n, PlayAll(n, b, run[..|run| - 1]), run[|run| - 1]) then 1 else 0
  }

  // A player whose move closes the triangle leaves the next round, on empty boards, to the opponent.
  lemma LoserWaits(n: nat, b: Board, a: Attempt)
    requires Accepted(n, b, a) && Loses(b, a)
    ensures Play(n, b, a) == Board({}, {}, !a.byOne)
  {
  }

  // Over any number of lost rounds the opener is on turn exactly after an even number of accepted commands.
  lemma {:induction false} TurnParity(n: nat, b: Board, run: seq<Attempt>)
    ensures PlayAll(n, b, run).playerOneTurn == b.playerOneTurn <==> AcceptedCount(n, b, run) % 2 == 0
    decreases |run|
  {
    if run != [] { TurnParity(n, b, run[..|run| - 1]); }
  }

  // The command at k is accepted after those in front of it.
  ghost predicate AcceptedAt(n: nat, b: Board, run: seq<Attempt>, k: nat) {
    k < |run| && Accepted(n, PlayAll(n, b, run[..k]), run[k])
  }

  lemma {:induction false} CountGrows(n: nat, b: Board, run: seq<Attempt>, j: nat, k: nat)
    requires j < k <= |run| && AcceptedAt(n, b, run, j)
    requires forall i :: j < i < k ==> !AcceptedAt(n, b, run, i)
    ensures AcceptedCount(n, b, run[..k]) == AcceptedCount(n, b, run[..j]) + 1
    decreases k
  {
    var last: nat := k - 1;
    assert run[..k][..last] == run[..last] && run[..k][last] == run[last];
    if j < last {
      CountGrows(n, b, run, j, last);
      assert !AcceptedAt(n, b, run, last);
    }
  }

  // So accepted commands alternate between the players, also across the end of a round.
  lemma TurnsAlternate(n: nat, b: Board, run: seq<Attempt>, j: nat, k: nat)
    requires j < k && AcceptedAt(n, b, run, j) && AcceptedAt(n, b, run, k)
    requires forall i :: j < i < k ==> !AcceptedAt(n, b, run, i)
    ensures run[k].byOne == !run[j].byOne
  {
    TurnParity(n, b, run[..j]);
    TurnParity(n, b, run[..k]);
    CountGrows(n, b, run, j, k);
  }

  // ---- How long a round lasts ----

  ghost predicate IsNode(i: nat, n: nat) {
    i < n
  }

  ghost function Nodes(n: nat): (s: set<nat>)
    ensures forall i: nat :: i in s <==> i < n
  {
    set i: nat | i < n && IsNode(i, n)
  }

  lemma {:induction false} NodesSize(n: nat)
    ensures |Nodes(n)| == n
  {
    if n == 0 {
      assert Nodes(0) == {};
    } else {
      NodesSize(n - 1);
      assert Nodes(n) == Nodes(n - 1) + {n - 1};
    }
  }

  // All ordered pairs of different nodes of s.
  ghost function PairsIn(s: set<nat>): Graph {
    set i: nat, j: nat | i in s && j in s && i != j :: (i, j)
  }

  ghost function AllPairs(n: nat): Graph {
    PairsIn(Nodes(n))
  }

  ghost function Row(s: set<nat>, k: nat): Graph {
    set i: nat | i in s :: (i, k)
  }

  ghost function Column(s: set<nat>, k: nat): Graph {
    set i: nat | i in s :: (k, i)
  }

  lemma {:induction false} RowSize(s: set<nat>, k: nat)
    ensures |Row(s, k)| == |s| && |Column(s, k)| == |s|
  {
    if s == {} {
      assert Row(s, k) == {} && Column(s, k) == {};
    } else {
      var x :| x in s;
      var t := s - {x};
      RowSize(t, k);
      assert Row(s, k) == Row(t, k) + {(x, k)};
      assert Column(s, k) == Column(t, k) + {(k, x)};
    }
  }

  lemma PairsGrow(t: set<nat>, x: nat)
    requires x !in t
    ensures |PairsIn(t + {x})| == |PairsIn(t)| + |Row(t, x)| + |Column(t, x)|
  {
    var inner, row, column := PairsIn(t), Row(t, x), Column(t, x);
    assert inner !! row && (inner + row) !! column;
    assert PairsIn(t + {x}) == inner + row + column;
  }

  lemma {:induction false} PairsSize(s: set<nat>)
    ensures |PairsIn(s)| == |s| * (|s| - 1)
  {
    if s == {} {
      assert PairsIn(s) == {};
    } else {
      var x :| x in s;
      var t := s - {x};
      var m := |t|;
      PairsSize(t);
      RowSize(t, x);
      PairsGrow(t, x);
      assert s == t + {x};
      assert (m + 1) * m == m * (m - 1) + m + m;
    }
  }

  lemma PairsOf(n: nat, g: Graph)
    requires Within(g, n) && LoopFree(g)
    ensures g <= AllPairs(n)
  {
    forall p: (nat, nat) | p in g
      ensures p in AllPairs(n)
    {
      var (u, v) := p;
      assert (u, v) in g && (u, u) !in g;
      assert (u, v) in AllPairs(n);
    }
  }

  lemma SubsetSize<T>(a: set<T>, b: set<T>)
    requires a <= b
    ensures |a| <= |b|
  {
    assert b == a + (b - a);
  }

  ghost predicate NoLoss(n: nat, b: Board, run: seq<Attempt>) {
    forall k :: 0 <= k < |run| && Accepted(n, PlayAll(n, b, run[..k]), run[k]) ==>
      !Loses(PlayAll(n, b, run[..k]), run[k])
  }

  lemma {:induction false} RoundEdges(n: nat, opener: bool, run: seq<Attempt>)
    requires NoLoss(n, InitBoard(opener), run)
    ensures var b := PlayAll(n, InitBoard(opener), run);
      BoardInv(n, b) && |b.one| + |b.two| == 2 * AcceptedCount(n, InitBoard(opener), run)
    decreases |run|
  {
    if run != [] {
      var k := |run| - 1;
      var before := PlayAll(n, InitBoard(opener), run[..k]);
      forall i | 0 <= i < k
        ensures run[..k][..i] == run[..i]
      {
      }
      RoundEdges(n, opener, run[..k]);
      if Accepted(n, before, run[k]) {
        assert !Loses(before, run[k]);
        PlaceKeeps(n, before, run[k]);
        var e := UndirectedEdge(run[k].source, run[k].destination);
        assert e !! before.OnTurn();
        assert |before.OnTurn() + e| == |before.OnTurn()| + 2;
      }
    }
  }

  // A round has at most n(n-1)/2 accepted commands: 15 on the game's six nodes.
  lemma RoundLength(n: nat, opener: bool, run: seq<Attempt>)
    requires NoLoss(n, InitBoard(opener), run)
    ensures 2 * AcceptedCount(n, InitBoard(opener), run) <= n * (n - 1)
  {
    RoundEdges(n, opener, run);
    var b := PlayAll(n, InitBoard(opener), run);
    PairsOf(n, b.one);
    PairsOf(n, b.two);
    SubsetSize(b.one + b.two, AllPairs(n));
    PairsSize(Nodes(n));
    NodesSize(n);
  }
}
