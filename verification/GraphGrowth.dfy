// How reachability and the loss test of the board change when one edge is added.
module GraphGrowth {
  import opened Cycles
  import opened GameGraphs

  lemma ReachesSelf(g: Graph, u: nat)
    ensures Reaches(g, u, u)
  {
    assert Connects(g, [u], u, u);
  }

  lemma ReachesTrans(g: Graph, u: nat, v: nat, w: nat)
    requires Reaches(g, u, v) && Reaches(g, v, w)
    ensures Reaches(g, u, w)
  {
    var p :| Connects(g, p, u, v);
    var q :| Connects(g, q, v, w);
    JoinWalks(g, p, q);
  }

  lemma ReachesEdge(g: Graph, u: nat, v: nat)
    requires (u, v) in g
    ensures Reaches(g, u, v)
  {
    assert Connects(g, [u, v], u, v);
  }

  lemma ReachesMono(g: Graph, h: Graph, u: nat, v: nat)
    requires g <= h && Reaches(g, u, v)
    ensures Reaches(h, u, v)
  {
    var p :| Connects(g, p, u, v);
    assert Connects(h, p, u, v);
  }

  // A smaller board has no triangle near node 0 that the larger one lacks.
  lemma TriangleNear0Mono(g: Graph, h: Graph)
    requires g <= h && TriangleNear0(g)
    ensures TriangleNear0(h)
  {
    var a, b, c :| Triangle(g, a, b, c) && Reaches(g, 0, a);
    ReachesMono(g, h, 0, a);
    assert Triangle(h, a, b, c);
  }

  ghost predicate CrossesEdge(g: Graph, u: nat, v: nat, s: nat, t: nat) {
    || Reaches(g, s, t)
    || (Reaches(g, s, u) && Reaches(g, v, t))
    || (Reaches(g, s, v) && Reaches(g, u, t))
  }

  lemma {:induction false} WalkCrosses(g: Graph, u: nat, v: nat, p: seq<nat>, s: nat, t: nat)
    requires Connects(g + UndirectedEdge(u, v), p, s, t)
    ensures CrossesEdge(g, u, v, s, t)
    decreases |p|
  {
    ReachesSelf(g, t);
    if |p| > 1 {
      var w := p[|p| - 2];
      var last := (p[|p| - 1 - 1], p[|p| - 1]);
      assert last in g + UndirectedEdge(u, v) && last == (w, t);
      WalkCrosses(g, u, v, p[..|p| - 1], s, w);
      if last in g {
        ReachesEdge(g, w, t);
        if Reaches(g, s, w) { ReachesTrans(g, s, w, t); }
        if Reaches(g, v, w) { ReachesTrans(g, v, w, t); }
        if Reaches(g, u, w) { ReachesTrans(g, u, w, t); }
      }
    }
  }

  // With one more edge, a node is reached the old way or through that edge.
  lemma ReachesGrown(g: Graph, u: nat, v: nat, s: nat, t: nat)
    ensures Reaches(g + UndirectedEdge(u, v), s, t) <==> CrossesEdge(g, u, v, s, t)
  {
    var h := g + UndirectedEdge(u, v);
    if Reaches(h, s, t) {
      var p :| Connects(h, p, s, t);
      WalkCrosses(g, u, v, p, s, t);
    }
    ReachesEdge(h, u, v);
    ReachesEdge(h, v, u);
    if Reaches(g, s, t) { ReachesMono(g, h, s, t); }
    if Reaches(g, s, u) && Reaches(g, v, t) {
      ReachesMono(g, h, s, u);
      ReachesMono(g, h, v, t);
      ReachesTrans(h, s, u, v);
      ReachesTrans(h, s, v, t);
    }
    if Reaches(g, s, v) && Reaches(g, u, t) {
      ReachesMono(g, h, s, v);
      ReachesMono(g, h, u, t);
      ReachesTrans(h, s, v, u);
      ReachesTrans(h, s, u, t);
    }
  }

  ghost predicate ShareNeighbour(g: Graph, u: nat, v: nat) {
    exists w :: (u, w) in g && (v, w) in g
  }

  ghost predicate TriangleIn(g: Graph, s: nat) {
    exists a, b, c :: Triangle(g, a, b, c) && Reaches(g, s, a)
  }

  // u is in node 0's component, v is not, and v brings a triangle along.
  ghost predicate JoinsTriangle(g: Graph, u: nat, v: nat) {
    Reaches(g, 0, u) && !Reaches(g, 0, v) && TriangleIn(g, v)
  }

  ghost predicate LosesByAdding(g: Graph, u: nat, v: nat) {
    || (ShareNeighbour(g, u, v) && Reaches(g, 0, u) && Reaches(g, 0, v))
    || JoinsTriangle(g, u, v)
    || JoinsTriangle(g, v, u)
  }

  // The loss test after a move, in terms of the board before the move.
  lemma IncrementalLossTest(g: Graph, u: nat, v: nat)
    requires Symmetric(g) && LoopFree(g) && u != v && (u, v) !in g
    requires !TriangleNear0(g)
    ensures TriangleNear0(g + UndirectedEdge(u, v)) <==> LosesByAdding(g, u, v)
  {
    var h := g + UndirectedEdge(u, v);
    if a, b, c :| Triangle(h, a, b, c) && Reaches(h, 0, a) {
      GrownTriangleLoses(g, u, v, a, b, c);
    }
    if ShareNeighbour(g, u, v) && Reaches(g, 0, u) {
      var w :| (u, w) in g && (v, w) in g;
      ReachesMono(g, h, 0, u);
      assert Triangle(h, u, v, w);
    }
    if JoinsTriangle(g, u, v) { JoiningLoses(g, u, v); }
    if JoinsTriangle(g, v, u) { JoiningLoses(g, v, u); assert UndirectedEdge(u, v) == UndirectedEdge(v, u); }
  }

  lemma JoiningLoses(g: Graph, u: nat, v: nat)
    requires JoinsTriangle(g, u, v)
    ensures TriangleNear0(g + UndirectedEdge(u, v))
  {
    var h := g + UndirectedEdge(u, v);
    var a, b, c :| Triangle(g, a, b, c) && Reaches(g, v, a);
    ReachesGrown(g, u, v, 0, a);
    assert Triangle(h, a, b, c);
  }

  lemma GrownTriangleLoses(g: Graph, u: nat, v: nat, a: nat, b: nat, c: nat)
    requires Symmetric(g) && LoopFree(g) && u != v && (u, v) !in g && !TriangleNear0(g)
    requires Triangle(g + UndirectedEdge(u, v), a, b, c) && Reaches(g + UndirectedEdge(u, v), 0, a)
    ensures LosesByAdding(g, u, v)
  {
    ReachesGrown(g, u, v, 0, a);
    if Triangle(g, a, b, c) {
      if Reaches(g, 0, u) && Reaches(g, v, a) {
        if Reaches(g, 0, v) { ReachesTrans(g, 0, v, a); }
      } else {
        if Reaches(g, 0, u) { ReachesTrans(g, 0, u, a); }
      }
    } else {
      var w := if {a, b} == {u, v} then c else if {b, c} == {u, v} then a else b;
      assert (u, w) in g && (v, w) in g;
      SharedComponent(g, u, v, w);
      SharedReached(g, u, v, w, a);
    }
  }

  lemma SharedComponent(g: Graph, u: nat, v: nat, w: nat)
    requires Symmetric(g) && (u, w) in g && (v, w) in g
    ensures Reaches(g, u, v) && Reaches(g, v, u) && Reaches(g, w, u) && Reaches(g, w, v)
  {
    ReachesEdge(g, u, w);
    ReachesEdge(g, w, v);
    ReachesEdge(g, v, w);
    ReachesEdge(g, w, u);
    ReachesTrans(g, u, w, v);
    ReachesTrans(g, v, w, u);
  }

  lemma SharedReached(g: Graph, u: nat, v: nat, w: nat, a: nat)
    requires Reaches(g, u, v) && Reaches(g, v, u) && Reaches(g, w, u) && Reaches(g, w, v)
    requires a in {u, v, w} && CrossesEdge(g, u, v, 0, a)
    ensures Reaches(g, 0, u) && Reaches(g, 0, v)
  {
    if Reaches(g, 0, w) {
      ReachesTrans(g, 0, w, u);
      ReachesTrans(g, 0, w, v);
    } else if Reaches(g, 0, u) {
      ReachesTrans(g, 0, u, v);
    } else {
      ReachesTrans(g, 0, v, u);
    }
  }
}
