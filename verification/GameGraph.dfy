// src/game_logic/game_room/GameGraph.cpp: the adjacency matrix of one player's
// edges and the depth-first search for the shortest cycle through node 0's component.
module GameGraphs {
  import opened Cycles

  function UndirectedEdge(u: nat, v: nat): (e: Graph) {
    {(u, v), (v, u)}
  }

  predicate IsValidEdge(n: nat, source: nat, destination: nat) {
    source != destination && source < n && destination < n
  }

  class GameGraph {
    const n: nat                 // GAME_NODE_NUM
    const adj: array2<nat>       // _adjacencyMatrix

    ghost predicate Valid()
      reads adj
    {
      && 1 <= n < INT_MAX
      && adj.Length0 == n && adj.Length1 == n
      && forall i, j :: 0 <= i < n && 0 <= j < n ==> adj[i, j] == adj[j, i] && adj[i, j] <= 1
    }

    ghost function Edges(): (g: Graph)
      requires Valid()
      reads adj
      ensures Within(g, n) && Symmetric(g)
      ensures forall u: nat, v: nat :: u < n && v < n ==> ((u, v) in g <==> adj[u, v] == 1)
    {
      set i: nat, j: nat | i < n && j < n && adj[i, j] == 1 :: (i, j)
    }

    constructor (n: nat)
      requires 1 <= n < INT_MAX
      ensures this.n == n && fresh(adj)
      ensures Valid() && Edges() == {}
    {
      this.n := n;
      adj := new nat[n, n]((i, j) => 0);
    }

    method HasUndirectedEdge(source: nat, destination: nat) returns (valid: bool, present: bool)
      requires Valid()
      ensures valid == IsValidEdge(n, source, destination)
      ensures present <==> valid && (source, destination) in Edges()
    {
      valid := IsValidEdge(n, source, destination);
      present := valid && adj[source, destination] == 1 && adj[destination, source] == 1;
    }

    method AddUndirectedEdge(source: nat, destination: nat)
      requires Valid() && source < n && destination < n
      modifies adj
      ensures Valid()
      ensures Edges() == old(Edges()) + UndirectedEdge(source, destination)
    {
      adj[source, destination] := 1;
      adj[destination, source] := 1;
    }

    method Clear()
      requires Valid()
      modifies adj
      ensures Valid() && Edges() == {}
    {
      for i := 0 to n
        invariant Valid0()
        invariant forall a, b :: 0 <= a < i && 0 <= b < n ==> adj[a, b] == 0
      {
        for j := 0 to n
          invariant Valid0()
          invariant forall a, b :: 0 <= a < i && 0 <= b < n ==> adj[a, b] == 0
          invariant forall b :: 0 <= b < j ==> adj[i, b] == 0
        {
          adj[i, j] := 0;
        }
      }
    }

    // The shape of the matrix, which clearing keeps even while symmetry is broken.
    ghost predicate Valid0() {
      1 <= n < INT_MAX && adj.Length0 == n && adj.Length1 == n
    }

    // depth[v] is the position of v on the path walked so far, counted from 1, or -1.
    ghost predicate OnPath(path: seq<nat>, node: nat, parent: int, d: int, depth: seq<int>)
      requires Valid()
      reads adj
    {
      && node < n && |depth| == n && d == |path| + 1
      && Distinct(path)
      && (forall i :: 0 <= i < |path| ==> path[i] < n && depth[path[i]] == i + 1)
      && (forall v: nat :: v < n && v !in path ==> depth[v] == -1)
      && parent == (if path == [] then -1 else path[|path| - 1])
      && Walk(Edges(), path + [node])
      && (path + [node])[0] == 0
      && (|path| >= 2 ==> node != path[|path| - 2])
    }

    // _findShortestCycle: depth is passed by value, so each branch explores its own
    // simple path; the answer is the least loop among the lassos that continue that path.
    method FindShortestCycleFrom(node: nat, parent: int, d: int, depth: seq<int>, ghost path: seq<nat>)
      returns (answer: int)
      requires Valid() && OnPath(path, node, parent, d, depth)
      ensures MinLasso(Edges(), path + [node], answer)
      decreases n - |path|
    {
      ghost var here := path + [node];
      if depth[node] != -1 {
        answer := d - depth[node];
        ClosesLasso(path, node, parent, d, depth);
        return;
      }
      FirstVisit(path, node, parent, d, depth);
      ghost var g := Edges();
      var marked := depth[node := d];
      answer := INT_MAX;
      for v := 0 to n
        invariant MinLassoBelow(g, here, v, answer)
      {
        if v != parent && adj[node, v] != 0 {
          StepOnPath(path, node, parent, d, depth, v);
          var other := FindShortestCycleFrom(v, node, d + 1, marked, here);
          TakeBranch(g, here, v, answer, other);
          answer := if other < answer then other else answer;
        } else {
          SkipBranch(path, node, parent, v, answer);
        }
      }
      AllBranchesTaken(path, node, answer);
    }

    lemma FirstVisit(path: seq<nat>, node: nat, parent: int, d: int, depth: seq<int>)
      requires Valid() && OnPath(path, node, parent, d, depth) && depth[node] == -1
      ensures node !in path && |path| < n
    {
      DistinctBelow(path + [node], n);
    }

    lemma StepOnPath(path: seq<nat>, node: nat, parent: int, d: int, depth: seq<int>, v: nat)
      requires Valid() && OnPath(path, node, parent, d, depth) && node !in path
      requires v < n && v != parent && adj[node, v] != 0
      ensures OnPath(path + [node], v, node, d + 1, depth[node := d])
    {
      var here := path + [node];
      var next := here + [v];
      assert (node, v) in Edges();
      forall i | 0 < i < |next|
        ensures (next[i - 1], next[i]) in Edges()
      {
        if i < |here| { assert next[i - 1] == here[i - 1] && next[i] == here[i]; }
      }
      assert next[0] == here[0];
    }

    lemma ClosesLasso(path: seq<nat>, node: nat, parent: int, d: int, depth: seq<int>)
      requires Valid() && OnPath(path, node, parent, d, depth) && depth[node] != -1
      ensures MinLasso(Edges(), path + [node], d - depth[node])
    {
      var here := path + [node];
      var k := IndexOf(path, node);
      assert here[..|here| - 1] == path;
      assert Lasso(Edges(), here) && LoopLength(here) == d - depth[node];
      DistinctBelow(path, n);
      forall q | Lasso(Edges(), q) && Extends(q, here)
        ensures q == here
      {
        var body := q[..|q| - 1];
        assert forall j :: k < j < |body| ==> body[j] != body[k];
        assert forall j :: k < j < |body| ==> q[j] == body[j];
        assert q[k] == q[|path|];
      }
    }

    // A lasso goes along an edge, and not back where it came from.
    static lemma NextOnLasso(g: Graph, path: seq<nat>, node: nat, q: seq<nat>)
      requires Lasso(g, q) && Extends(q, path + [node]) && |q| > |path| + 1
      ensures (node, q[|path| + 1]) in g
      ensures path != [] ==> q[|path| + 1] != path[|path| - 1]
    {
      var k := |path|;
      assert q[k] == node && (q[k + 1 - 1], q[k + 1]) in g;
      if k > 0 {
        assert q[k - 1] == path[k - 1];
        if |q| > k + 2 {
          var body := q[..|q| - 1];
          assert body[k - 1] != body[k + 1];
        }
      }
    }

    lemma SkipBranch(path: seq<nat>, node: nat, parent: int, v: nat, r: int)
      requires Valid() && node < n && v < n
      requires parent == (if path == [] then -1 else path[|path| - 1])
      requires v == parent || adj[node, v] == 0
      requires MinLassoBelow(Edges(), path + [node], v, r)
      ensures MinLassoBelow(Edges(), path + [node], v + 1, r)
    {
      forall q | Lasso(Edges(), q) && Extends(q, path + [node]) && |q| > |path| + 1
        ensures q[|path| + 1] != v
      {
        NextOnLasso(Edges(), path, node, q);
      }
    }

    // Every lasso that continues a simple path goes on to some node of the board.
    lemma AllBranchesTaken(path: seq<nat>, node: nat, r: int)
      requires Valid() && node !in path
      requires MinLassoBelow(Edges(), path + [node], n, r)
      ensures MinLasso(Edges(), path + [node], r)
    {
      forall q | Lasso(Edges(), q) && Extends(q, path + [node])
        ensures |q| > |path| + 1 && q[|path| + 1] < n
      {
        var k := IndexOf(q[..|q| - 1], q[|q| - 1]);
        assert k < |path| ==> q[k] == path[k] && path[k] in path;
        assert (q[|path| + 1 - 1], q[|path| + 1]) in Edges();
      }
    }

    // findShortestCycle on any matrix; on a loop-free one it is the girth of node 0's component.
    method FindShortestCycle() returns (answer: int)
      requires Valid()
      ensures MinLasso(Edges(), [0], answer)
      ensures LoopFree(Edges()) ==> IsGirthNear0(Edges(), answer)
    {
      var depth := seq(n, i => -1);
      assert [] + [0] == [0];
      answer := FindShortestCycleFrom(0, -1, 1, depth, []);
      if LoopFree(Edges()) {
        MinLassoIsGirth(Edges(), n, answer);
      }
    }

    method HasCycleOfLength3() returns (found: bool)
      requires Valid()
      ensures LoopFree(Edges()) ==> (found <==> TriangleNear0(Edges()))
    {
      var answer := FindShortestCycle();
      if LoopFree(Edges()) {
        GirthThreeIsTriangle(Edges(), answer);
      }
      found := answer == 3;
    }
  }
}
