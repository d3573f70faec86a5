// Walks, simple cycles and lassos of a finite graph, and the bridge between the
// depth-first search of the game board and the girth of node 0's component.
module Cycles {

  const INT_MAX: nat := 2147483647

  // A graph is the set of its ordered adjacent pairs; an undirected edge is there in both directions.
  type Graph = set<(nat, nat)>

  ghost predicate Within(g: Graph, n: nat) {
    forall u: nat, v: nat :: (u, v) in g ==> u < n && v < n
  }

  ghost predicate Symmetric(g: Graph) {
    forall u: nat, v: nat :: (u, v) in g ==> (v, u) in g
  }

  ghost predicate LoopFree(g: Graph) {
    forall u: nat :: (u, u) !in g
  }

  ghost predicate Distinct<T>(s: seq<T>) {
    forall i, j :: 0 <= i < j < |s| ==> s[i] != s[j]
  }

  ghost predicate Walk(g: Graph, p: seq<nat>) {
    p != [] && forall i :: 0 < i < |p| ==> (p[i - 1], p[i]) in g
  }

  ghost predicate Connects(g: Graph, p: seq<nat>, u: nat, v: nat) {
    Walk(g, p) && p[0] == u && p[|p| - 1] == v
  }

  ghost predicate Reaches(g: Graph, u: nat, v: nat) {
    exists p :: Connects(g, p, u, v)
  }

  // A simple cycle lists each of its nodes once; the closing edge goes from the last to the first.
  ghost predicate SimpleCycle(g: Graph, c: seq<nat>) {
    |c| >= 3 && Distinct(c) && Walk(g, c) && (c[|c| - 1], c[0]) in g
  }

  ghost predicate CycleNear0(g: Graph, c: seq<nat>) {
    SimpleCycle(g, c) && Reaches(g, 0, c[0])
  }

  // The specification of the search: the length of a shortest simple cycle in
  // node 0's component, or INT_MAX when that component has none.
  ghost predicate IsGirthNear0(g: Graph, r: int) {
    if r == INT_MAX then
      forall c :: !CycleNear0(g, c)
    else
      && (exists c :: CycleNear0(g, c) && |c| == r)
      && (forall c :: CycleNear0(g, c) ==> r <= |c|)
  }

  ghost predicate Triangle(g: Graph, a: nat, b: nat, c: nat) {
    a != b && b != c && a != c && (a, b) in g && (b, c) in g && (c, a) in g
  }

  ghost predicate TriangleNear0(g: Graph) {
    exists a, b, c :: Triangle(g, a, b, c) && Reaches(g, 0, a)
  }

  // ---- Lassos: what one branch of the search walks before it closes on itself ----

  function IndexOf<T(==)>(s: seq<T>, x: T): (i: nat)
    requires x in s
    ensures i < |s| && s[i] == x
    ensures forall k :: 0 <= k < i ==> s[k] != x
  {
    if s[0] == x then 0 else 1 + IndexOf(s[1..], x)
  }

  ghost predicate Lasso(g: Graph, q: seq<nat>) {
    && |q| >= 2
    && q[0] == 0
    && Walk(g, q)
    && Distinct(q[..|q| - 1])
    && q[|q| - 1] in q[..|q| - 1]
    && (|q| >= 3 ==> q[|q| - 1] != q[|q| - 3])
  }

  ghost function LoopLength(q: seq<nat>): int
    requires |q| >= 2 && q[|q| - 1] in q[..|q| - 1]
  {
    |q| - 1 - IndexOf(q[..|q| - 1], q[|q| - 1])
  }

  ghost predicate Extends(q: seq<nat>, prefix: seq<nat>) {
    prefix <= q
  }

  // r is the least loop length of any lasso that begins with the given prefix.
  ghost predicate MinLasso(g: Graph, prefix: seq<nat>, r: int) {
    && r <= INT_MAX
    && (r != INT_MAX ==> exists q :: Lasso(g, q) && Extends(q, prefix) && LoopLength(q) == r)
    && (forall q :: Lasso(g, q) && Extends(q, prefix) ==> r <= LoopLength(q))
  }

  // The same minimum, over the lassos whose next node after `here` is below v.
  ghost predicate MinLassoBelow(g: Graph, here: seq<nat>, v: nat, r: int) {
    && r <= INT_MAX
    && (r != INT_MAX ==> exists q :: Lasso(g, q) && Extends(q, here) && LoopLength(q) == r)
    && (forall q :: Lasso(g, q) && Extends(q, here) && |q| > |here| && q[|here|] < v ==> r <= LoopLength(q))
  }

  lemma TakeBranch(g: Graph, here: seq<nat>, v: nat, r: int, b: int)
    requires MinLassoBelow(g, here, v, r) && MinLasso(g, here + [v], b)
    ensures MinLassoBelow(g, here, v + 1, if b < r then b else r)
  {
    if b < r {
      var q :| Lasso(g, q) && Extends(q, here + [v]) && LoopLength(q) == b;
      assert Extends(q, here);
    }
    forall q | Lasso(g, q) && Extends(q, here) && |q| > |here| && q[|here|] == v
      ensures b <= LoopLength(q)
    {
      assert Extends(q, here + [v]);
    }
  }

  // ---- Pigeonhole ----

  lemma {:induction false} DistinctBelow(s: seq<nat>, n: nat)
    requires Distinct(s)
    requires forall i :: 0 <= i < |s| ==> s[i] < n
    ensures |s| <= n
  {
    if s != [] {
      assert s[0] < n;
      if n - 1 in s {
        var k := IndexOf(s, n - 1);
        DistinctBelow(s[..k] + s[k + 1..], n - 1);
      } else {
        DistinctBelow(s, n - 1);
      }
    }
  }

  lemma WalkWithin(g: Graph, p: seq<nat>, n: nat)
    requires Within(g, n) && Walk(g, p) && p[0] < n
    ensures forall i :: 0 <= i < |p| ==> p[i] < n
  {
    forall i | 0 <= i < |p|
      ensures p[i] < n
    {
      if i > 0 { assert (p[i - 1], p[i]) in g; }
    }
  }

  // ---- Soundness: a lasso carries a simple cycle of its loop length ----

  lemma LassoGivesCycle(g: Graph, q: seq<nat>) returns (c: seq<nat>)
    requires Lasso(g, q) && LoopFree(g)
    ensures CycleNear0(g, c) && |c| == LoopLength(q)
  {
    var body := q[..|q| - 1];
    var k := IndexOf(body, q[|q| - 1]);
    c := body[k..];
    assert (q[|q| - 2], q[|q| - 1]) in g;
    assert c[|c| - 1] == q[|q| - 2] && c[0] == q[|q| - 1];
    forall i | 0 < i < |c|
      ensures (c[i - 1], c[i]) in g
    {
      assert (q[k + i - 1], q[k + i]) in g;
    }
    var p := q[..k + 1];
    assert Connects(g, p, 0, c[0]);
  }

  // ---- Completeness: a cycle in node 0's component is the loop of some lasso ----

  lemma JoinWalks(g: Graph, p: seq<nat>, q: seq<nat>)
    requires Walk(g, p) && Walk(g, q) && p[|p| - 1] == q[0]
    ensures Connects(g, p + q[1..], p[0], q[|q| - 1])
  {
    var r := p + q[1..];
    forall i | 0 < i < |r|
      ensures (r[i - 1], r[i]) in g
    {
      if i < |p| {
        assert r[i - 1] == p[i - 1] && r[i] == p[i];
      } else {
        assert r[i] == q[i - |p| + 1];
        assert r[i - 1] == q[i - |p|];
      }
    }
  }

  ghost predicate FirstHit(p: seq<nat>, c: seq<nat>) {
    p != [] && Distinct(p) && p[|p| - 1] in c && forall i :: 0 <= i < |p| - 1 ==> p[i] !in c
  }

  // Any walk onto a cycle can be cut down to a simple walk that meets the cycle only at its end.
  lemma {:induction false} FirstHitWalk(g: Graph, p: seq<nat>, c: seq<nat>) returns (w: seq<nat>)
    requires Walk(g, p) && p[|p| - 1] in c
    ensures Walk(g, w) && w[0] == p[0] && FirstHit(w, c)
    decreases |p|
  {
    if i :| 0 <= i < |p| - 1 && p[i] in c {
      w := FirstHitWalk(g, p[..i + 1], c);
    } else if i, j :| 0 <= i < j < |p| && p[i] == p[j] {
      var front, back := p[..i + 1], p[j..];
      JoinWalks(g, front, back);
      w := FirstHitWalk(g, front + back[1..], c);
    } else {
      w := p;
    }
  }

  lemma RotateCycle(g: Graph, c: seq<nat>, k: nat)
    requires SimpleCycle(g, c) && k < |c|
    ensures SimpleCycle(g, c[k..] + c[..k])
  {
    var r := c[k..] + c[..k];
    forall i | 0 < i < |r|
      ensures (r[i - 1], r[i]) in g
    {
      if i < |c| - k {
        assert r[i] == c[k + i] && r[i - 1] == c[k + i - 1];
      } else if i == |c| - k {
        assert r[i] == c[0] && r[i - 1] == c[|c| - 1];
      } else {
        assert r[i] == c[i - (|c| - k)] && r[i - 1] == c[i - (|c| - k) - 1];
      }
    }
    if k > 0 {
      assert r[0] == c[k] && r[|r| - 1] == c[k - 1];
    } else {
      assert r == c;
    }
  }

  lemma CycleGivesLasso(g: Graph, c: seq<nat>) returns (q: seq<nat>)
    requires CycleNear0(g, c)
    ensures Lasso(g, q) && LoopLength(q) == |c|
  {
    var p :| Connects(g, p, 0, c[0]);
    var w := FirstHitWalk(g, p, c);
    var k := IndexOf(c, w[|w| - 1]);
    var r := c[k..] + c[..k];
    RotateCycle(g, c, k);
    var loop := r + [r[0]];
    assert Walk(g, loop);
    JoinWalks(g, w, loop);
    q := w + loop[1..];
    var body := q[..|q| - 1];
    assert body == w + r[1..];
    assert q[|q| - 1] == r[0] == w[|w| - 1] == body[|w| - 1];
    assert |q| >= 3 && q[|q| - 3] == if |r| == 3 then r[1] else r[|r| - 2];
    LassoBodyDistinct(w, r, c);
    assert Distinct(body);
    var i := IndexOf(body, q[|q| - 1]);
    assert i == |w| - 1;
  }

  lemma LassoBodyDistinct(w: seq<nat>, r: seq<nat>, c: seq<nat>)
    requires FirstHit(w, c) && Distinct(r) && r != [] && r[0] == w[|w| - 1]
    requires forall i :: 0 <= i < |r| ==> r[i] in c
    ensures Distinct(w + r[1..])
  {
    var b := w + r[1..];
    forall i, j | 0 <= i < j < |b|
      ensures b[i] != b[j]
    {
      if i >= |w| {
        assert b[i] == r[i - |w| + 1] && b[j] == r[j - |w| + 1];
      } else if j >= |w| {
        assert b[j] == r[j - |w| + 1];
        if i == |w| - 1 { assert b[i] == r[0]; }
      }
    }
  }

  lemma CycleWithin(g: Graph, c: seq<nat>, n: nat)
    requires Within(g, n) && SimpleCycle(g, c)
    ensures |c| <= n
  {
    WalkWithin(g, c, n);
    DistinctBelow(c, n);
  }

  // The least lasso from node 0 is the girth of node 0's component.
  lemma MinLassoIsGirth(g: Graph, n: nat, r: int)
    requires Within(g, n) && n < INT_MAX
    requires LoopFree(g) && MinLasso(g, [0], r)
    ensures IsGirthNear0(g, r)
  {
    forall c | CycleNear0(g, c)
      ensures r <= |c|
      ensures r != INT_MAX
    {
      var q := CycleGivesLasso(g, c);
      assert Extends(q, [0]);
      CycleWithin(g, c, n);
    }
    if r != INT_MAX {
      var q :| Lasso(g, q) && Extends(q, [0]) && LoopLength(q) == r;
      var c := LassoGivesCycle(g, q);
    }
  }

  // A girth of 3 is exactly a triangle in node 0's component.
  lemma GirthThreeIsTriangle(g: Graph, r: int)
    requires IsGirthNear0(g, r)
    ensures r == 3 <==> TriangleNear0(g)
  {
    if r == 3 {
      var c :| CycleNear0(g, c) && |c| == 3;
      assert (c[0], c[1]) in g && (c[1], c[2]) in g;
      assert Triangle(g, c[0], c[1], c[2]);
    }
    if a, b, c :| Triangle(g, a, b, c) && Reaches(g, 0, a) {
      assert CycleNear0(g, [a, b, c]);
    }
  }
}
