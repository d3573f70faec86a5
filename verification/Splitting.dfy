// BufferedParser::split (src/game_logic/protocol/BufferedParser.cpp:103-122) and std::string::find.
module Splitting {

  predicate OccursAt(s: string, d: string, i: nat) {
    i + |d| <= |s| && s[i..i + |d|] == d
  }

  // std::string::find with -1 for npos: the least position at or after `from`.
  function Find(s: string, d: string, from: nat): (r: int)
    requires from <= |s|
    ensures r == -1 || (from <= r && OccursAt(s, d, r))
    ensures forall i: nat :: from <= i && (r == -1 || i < r) ==> !OccursAt(s, d, i)
    decreases |s| - from
  {
    if from + |d| > |s| then -1
    else if OccursAt(s, d, from) then from
    else if from == |s| then -1
    else Find(s, d, from + 1)
  }

  // The tokens of s; each keeps the delimiter that ends it, and an empty rest is dropped.
  function Split(s: string, d: string): (ts: seq<string>)
    requires d != ""
    decreases |s|
  {
    var p := Find(s, d, 0);
    if p == -1 then (if s == "" then [] else [s])
    else [s[..p + |d|]] + Split(s[p + |d|..], d)
  }

  lemma FindIsLeast(s: string, d: string, from: nat, p: nat)
    requires from <= p && OccursAt(s, d, p)
    requires forall i: nat :: from <= i < p ==> !OccursAt(s, d, i)
    ensures Find(s, d, from) == p
  {
  }

  lemma FindNone(s: string, d: string, from: nat)
    requires from <= |s|
    requires forall i: nat :: from <= i ==> !OccursAt(s, d, i)
    ensures Find(s, d, from) == -1
  {
  }

  lemma FindInSuffix(s: string, d: string, from: nat)
    requires from <= |s|
    ensures Find(s, d, from) == if Find(s[from..], d, 0) == -1 then -1 else from + Find(s[from..], d, 0)
  {
    var t := s[from..];
    var q := Find(t, d, 0);
    forall i: nat | from <= i
      ensures OccursAt(s, d, i) <==> OccursAt(t, d, i - from)
    {
      if i + |d| <= |s| { assert t[i - from..i - from + |d|] == s[i..i + |d|]; }
    }
    if q == -1 { FindNone(s, d, from); } else { FindIsLeast(s, d, from, from + q); }
  }

  // What follows a first occurrence does not change where it is found.
  lemma FindInPrefix(a: string, b: string, d: string)
    requires Find(a, d, 0) != -1
    ensures Find(a + b, d, 0) == Find(a, d, 0)
  {
    var p := Find(a, d, 0);
    var s := a + b;
    assert s[p..p + |d|] == a[p..p + |d|];
    forall i: nat | i < p
      ensures !OccursAt(s, d, i)
    {
      assert s[i..i + |d|] == a[i..i + |d|];
      assert !OccursAt(a, d, i);
    }
    FindIsLeast(s, d, 0, p);
  }

  // The scan from a later start splits the rest.
  lemma SplitFrom(s: string, d: string, from: nat, p: int)
    requires d != "" && from <= |s| && p == Find(s, d, from)
    ensures p == -1 && s[from..] == "" ==> Split(s[from..], d) == []
    ensures p == -1 && s[from..] != "" ==> Split(s[from..], d) == [s[from..]]
    ensures p != -1 ==> Split(s[from..], d) == [s[from..p + |d|]] + Split(s[p + |d|..], d)
  {
    FindInSuffix(s, d, from);
    if p != -1 {
      SplitOff(s[from..], d, p - from, s[from..p + |d|], s[p + |d|..]);
    }
  }

  // What a scan that has collected res in front of start will end with.
  ghost function Scan(s: string, d: string, start: nat, res: seq<string>): seq<string>
    requires d != "" && start <= |s|
  {
    res + Split(s[start..], d)
  }

  lemma ScanStarts(s: string, d: string)
    requires d != ""
    ensures Scan(s, d, 0, []) == Split(s, d)
  {
    assert s[0..] == s;
    assert [] + Split(s, d) == Split(s, d);
  }

  lemma ScanStep(s: string, d: string, start: nat, end: nat, res: seq<string>, token: string, next: nat, res': seq<string>)
    requires d != "" && start <= |s| && end == Find(s, d, start)
    requires next == end + |d| && token == s[start..next] && res' == res + [token]
    ensures Scan(s, d, next, res') == Scan(s, d, start, res)
  {
    SplitFrom(s, d, start, end);
    Regroup(res, token, Split(s[next..], d));
  }

  lemma Regroup(done: seq<string>, token: string, rest: seq<string>)
    ensures done + ([token] + rest) == (done + [token]) + rest
  {
  }

  lemma ScanEnds(s: string, d: string, start: nat, res: seq<string>)
    requires d != "" && start <= |s| && Find(s, d, start) == -1
    ensures Scan(s, d, start, res) == if s[start..] == "" then res else res + [s[start..]]
  {
    SplitFrom(s, d, start, -1);
  }

  lemma SplitOff(t: string, d: string, q: nat, first: string, rest: string)
    requires d != "" && Find(t, d, 0) == q
    requires first == t[..q + |d|] && rest == t[q + |d|..]
    ensures Split(t, d) == [first] + Split(rest, d)
  {
  }

  // A prefix that ends before the delimiter does cannot contain it.
  lemma FindCutBefore(a: string, b: string, d: string)
    requires Find(a + b, d, 0) == -1 || |a| < Find(a + b, d, 0) + |d|
    ensures Find(a, d, 0) == -1
  {
    if Find(a, d, 0) != -1 { FindInPrefix(a, b, d); }
  }

  // When no occurrence starts inside a, the first one of a + b is the first one of b.
  lemma FindAfterPrefix(a: string, b: string, d: string)
    requires Find(a + b, d, 0) == -1 || |a| <= Find(a + b, d, 0)
    ensures Find(b, d, 0) == if Find(a + b, d, 0) == -1 then -1 else Find(a + b, d, 0) - |a|
  {
    var s := a + b;
    assert s[|a|..] == b;
    FindInSuffix(s, d, |a|);
    var p := Find(s, d, 0);
    if p != -1 { FindIsLeast(s, d, |a|, p); } else { FindNone(s, d, |a|); }
  }

  // ---- split is lossless and canonical ----

  function Concat(ts: seq<string>): string {
    if ts == [] then "" else ts[0] + Concat(ts[1..])
  }

  predicate Terminated(t: string, d: string) {
    |t| >= |d| && Find(t, d, 0) == |t| - |d|
  }

  predicate Unterminated(t: string, d: string) {
    t != "" && Find(t, d, 0) == -1
  }

  // Every token ends with its only delimiter, except that the last may have none.
  ghost predicate Canonical(ts: seq<string>, d: string) {
    && (forall i :: 0 <= i < |ts| - 1 ==> Terminated(ts[i], d))
    && (ts != [] ==> Terminated(ts[|ts| - 1], d) || Unterminated(ts[|ts| - 1], d))
  }

  lemma {:induction false} SplitLossless(s: string, d: string)
    requires d != ""
    ensures Concat(Split(s, d)) == s && Canonical(Split(s, d), d)
    decreases |s|
  {
    var p := Find(s, d, 0);
    if p == -1 {
      if s != "" { OneToken(s, d); }
    } else {
      var t, rest := s[..p + |d|], s[p + |d|..];
      FirstToken(s, d, p, t);
      SplitLossless(rest, d);
      CanonicalFirst(t, Split(rest, d), d);
      SplitOff(s, d, p, t, rest);
      Halves(s, p + |d|);
    }
  }

  lemma OneToken(s: string, d: string)
    requires s != "" && d != "" && Find(s, d, 0) == -1
    ensures Split(s, d) == [s] && Concat([s]) == s && Canonical([s], d)
  {
    assert [s][1..] == [];
    assert s + "" == s;
  }

  lemma Halves(s: string, k: nat)
    requires k <= |s|
    ensures s[..k] + s[k..] == s
  {
  }

  lemma CanonicalFirst(t: string, ts: seq<string>, d: string)
    requires d != "" && Terminated(t, d) && Canonical(ts, d)
    ensures Canonical([t] + ts, d) && Concat([t] + ts) == t + Concat(ts)
  {
    var all := [t] + ts;
    assert all[1..] == ts;
    assert forall i :: 0 < i < |all| ==> all[i] == ts[i - 1];
  }

  lemma OccursInPrefix(s: string, d: string, k: nat, i: nat)
    requires k <= |s|
    ensures OccursAt(s[..k], d, i) <==> OccursAt(s, d, i) && i + |d| <= k
  {
    if i + |d| <= k { assert s[..k][i..i + |d|] == s[i..i + |d|]; }
  }

  lemma FirstToken(s: string, d: string, p: nat, t: string)
    requires Find(s, d, 0) == p && t == s[..p + |d|]
    ensures Terminated(t, d)
  {
    OccursInPrefix(s, d, p + |d|, p);
    forall i: nat | i < p
      ensures !OccursAt(t, d, i)
    {
      OccursInPrefix(s, d, p + |d|, i);
    }
    FindIsLeast(t, d, 0, p);
  }

  lemma SplitFirst(t: string, rest: string, d: string)
    requires d != "" && Terminated(t, d)
    ensures Split(t + rest, d) == [t] + Split(rest, d)
  {
    FindInPrefix(t, rest, d);
    assert (t + rest)[..|t|] == t && (t + rest)[|t|..] == rest;
  }

  lemma {:induction false} CanonicalUnique(ts: seq<string>, d: string)
    requires d != "" && Canonical(ts, d)
    ensures Split(Concat(ts), d) == ts
    decreases |ts|
  {
    if ts != [] {
      var rest := ts[1..];
      forall i | 0 <= i < |rest| - 1
        ensures Terminated(rest[i], d)
      {
        assert rest[i] == ts[i + 1];
      }
      assert rest != [] ==> rest[|rest| - 1] == ts[|ts| - 1];
      CanonicalUnique(rest, d);
      if Terminated(ts[0], d) {
        SplitFirst(ts[0], Concat(rest), d);
      } else {
        assert rest == [] && ts[0] + "" == ts[0];
      }
    }
  }

  lemma SplitSingle(t: string, d: string)
    requires d != "" && (Terminated(t, d) || Unterminated(t, d))
    ensures Split(t, d) == [t]
  {
    CanonicalUnique([t], d);
    assert Concat([t]) == t + Concat([t][1..]) && t + "" == t;
  }

  // The tokens of s are the only canonical list of tokens that concatenates to s.
  lemma SplitCharacterised(s: string, d: string, ts: seq<string>)
    requires d != ""
    ensures ts == Split(s, d) <==> Concat(ts) == s && Canonical(ts, d)
  {
    SplitLossless(s, d);
    if Concat(ts) == s && Canonical(ts, d) {
      CanonicalUnique(ts, d);
    }
  }
}
