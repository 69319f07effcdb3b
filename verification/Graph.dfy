/**
 Reachability over an edge map, shared by the claim graph, its reverse edges and
 the state derivation.  `e[x]` lists the direct successors of `x`, repetitions
 included; a name may be listed without being a key of `e`.
 */
module Graph {
  type Edges = map<string, seq<string>>

  // ------------------------------------------------------------ definitions

  ghost predicate IsPath(e: Edges, p: seq<string>) {
    && |p| > 0
    && forall i :: 0 <= i < |p| - 1 ==> p[i] in e && p[i + 1] in e[p[i]]
  }

  ghost predicate PathFromTo(e: Edges, p: seq<string>, x: string, y: string) {
    IsPath(e, p) && p[0] == x && p[|p| - 1] == y
  }

  /** `y` is reached from `x` by zero or more edges. */
  ghost predicate Reaches(e: Edges, x: string, y: string) {
    exists p :: PathFromTo(e, p, x, y)
  }

  /** `y` is reached from `x` by one or more edges. */
  ghost predicate ReachesPlus(e: Edges, x: string, y: string) {
    exists p :: |p| >= 2 && PathFromTo(e, p, x, y)
  }

  ghost predicate AllResolved(e: Edges) {
    forall id, d :: id in e && d in e[id] ==> d in e
  }

  ghost predicate Acyclic(e: Edges) {
    forall id :: id in e ==> !ReachesPlus(e, id, id)
  }

  /** `id` lies on a cycle or transitively depends on one. */
  ghost predicate CycleBound(e: Edges, id: string) {
    exists c :: Reaches(e, id, c) && ReachesPlus(e, c, c)
  }

  ghost predicate NoDup<T>(s: seq<T>) {
    forall i, j :: 0 <= i < j < |s| ==> s[i] != s[j]
  }

  ghost predicate DupFree(e: Edges) {
    forall id :: id in e ==> NoDup(e[id])
  }

  ghost function Elems<T>(s: seq<T>): set<T> {
    set x | x in s
  }

  /** Every edge of `e` appears reversed in `r`, and nothing else does. */
  ghost predicate Converse(e: Edges, r: Edges) {
    forall a, b :: (a in e && b in e[a]) <==> (b in r && a in r[b])
  }

  /** Distinct keys, each one listed after everything it points to. */
  ghost predicate TopoPrefix(e: Edges, order: seq<string>) {
    && NoDup(order)
    && forall i :: 0 <= i < |order| ==> order[i] in e && forall d :: d in e[order[i]] ==> d in order[..i]
  }

  /** A topological order of all keys. */
  ghost predicate TopoOrder(e: Edges, order: seq<string>) {
    TopoPrefix(e, order) && Elems(order) == e.Keys
  }

  // ------------------------------------------------------------ sequences and sets

  lemma NoDupCard<T>(s: seq<T>)
    requires NoDup(s)
    ensures |Elems(s)| == |s|
  {
    if |s| > 0 {
      var t := s[..|s| - 1];
      NoDupCard(t);
      assert Elems(s) == Elems(t) + {s[|s| - 1]};
      assert s[|s| - 1] !in Elems(t);
    } else {
      assert Elems(s) == {};
    }
  }

  lemma SubsetCard<T>(a: set<T>, b: set<T>)
    requires a <= b
    ensures |a| <= |b|
    ensures |a| == |b| ==> a == b
  {
    assert b == a + (b - a);
    assert |b| == |a| + |b - a|;
  }

  lemma DisjointCard<T>(a: set<T>, b: set<T>)
    requires a !! b
    ensures |a + b| == |a| + |b|
    ensures b != {} ==> |a + b| > |a|
  {
  }

  lemma NoDupSnoc<T>(s: seq<T>, x: T)
    ensures NoDup(s + [x]) <==> NoDup(s) && x !in s
    ensures Elems(s + [x]) == Elems(s) + {x}
  {
    var t := s + [x];
    assert forall i :: 0 <= i < |s| ==> t[i] == s[i];
    assert t[|s|] == x;
  }

  lemma {:induction false} ElemsCard<T>(s: seq<T>)
    ensures |Elems(s)| <= |s|
    ensures |Elems(s)| == |s| ==> NoDup(s)
  {
    if s != [] {
      var t, x := s[..|s| - 1], s[|s| - 1];
      assert s == t + [x];
      ElemsCard(t);
      NoDupSnoc(t, x);
      if x in t { assert Elems(s) == Elems(t); }
    }
  }

  lemma PrefixGrows<T>(s: seq<T>, i: nat)
    requires i < |s|
    ensures multiset(s[..i + 1]) == multiset(s[..i]) + multiset{s[i]}
    ensures Elems(s[..i + 1]) == Elems(s[..i]) + {s[i]}
    ensures s[i] in Elems(s[..i]) <==> multiset(s[..i])[s[i]] > 0
  {
    assert s[..i + 1] == s[..i] + [s[i]];
    assert s[i] in s[..i] <==> s[i] in multiset(s[..i]);
  }

  // ------------------------------------------------------------ paths

  lemma ReachesRefl(e: Edges, x: string)
    ensures Reaches(e, x, x)
  {
    assert PathFromTo(e, [x], x, x);
  }

  lemma EdgeReaches(e: Edges, x: string, y: string)
    requires x in e && y in e[x]
    ensures ReachesPlus(e, x, y) && Reaches(e, x, y)
  {
    assert PathFromTo(e, [x, y], x, y);
  }

  lemma JoinPaths(e: Edges, p: seq<string>, q: seq<string>)
    requires IsPath(e, p) && IsPath(e, q) && p[|p| - 1] == q[0]
    ensures PathFromTo(e, p + q[1..], p[0], q[|q| - 1])
  {
  }

  lemma ReachesTrans(e: Edges, x: string, y: string, z: string)
    requires Reaches(e, x, y) && Reaches(e, y, z)
    ensures Reaches(e, x, z)
    ensures ReachesPlus(e, x, y) || ReachesPlus(e, y, z) ==> ReachesPlus(e, x, z)
  {
    var p :| PathFromTo(e, p, x, y);
    var q :| PathFromTo(e, q, y, z);
    JoinPaths(e, p, q);
    if ReachesPlus(e, x, y) {
      var p' :| |p'| >= 2 && PathFromTo(e, p', x, y);
      JoinPaths(e, p', q);
    }
    if ReachesPlus(e, y, z) {
      var q' :| |q'| >= 2 && PathFromTo(e, q', y, z);
      JoinPaths(e, p, q');
    }
  }

  lemma PlusIsReaches(e: Edges, x: string, y: string)
    ensures ReachesPlus(e, x, y) ==> Reaches(e, x, y)
    ensures Reaches(e, x, y) <==> x == y || ReachesPlus(e, x, y)
  {
    ReachesRefl(e, x);
    if Reaches(e, x, y) && x != y {
      var p :| PathFromTo(e, p, x, y);
      assert |p| >= 2;
    }
  }

  /** The first edge of a non-empty walk. */
  lemma PlusFirstStep(e: Edges, x: string, y: string) returns (z: string)
    requires ReachesPlus(e, x, y)
    ensures x in e && z in e[x] && Reaches(e, z, y)
  {
    var p :| |p| >= 2 && PathFromTo(e, p, x, y);
    z := p[1];
    assert PathFromTo(e, p[1..], z, y);
  }

  /** The last edge of a non-empty walk. */
  lemma PlusLastStep(e: Edges, x: string, y: string) returns (z: string)
    requires ReachesPlus(e, x, y)
    ensures z in e && y in e[z] && Reaches(e, x, z)
  {
    var p :| |p| >= 2 && PathFromTo(e, p, x, y);
    z := p[|p| - 2];
    assert PathFromTo(e, p[..|p| - 1], x, z);
  }

  ghost predicate ClosedUnder(e: Edges, s: set<string>) {
    forall n, d :: n in s && n in e && d in e[n] ==> d in s
  }

  /** A set closed under the edges holds everything reached from its members. */
  lemma ClosedHoldsReached(e: Edges, s: set<string>, x: string, y: string)
    requires ClosedUnder(e, s) && x in s && Reaches(e, x, y)
    ensures y in s
  {
    var p :| PathFromTo(e, p, x, y);
    var i := 0;
    while i < |p| - 1
      invariant 0 <= i < |p| && p[i] in s
    {
      i := i + 1;
    }
  }

  // ------------------------------------------------------------ cycles

  ghost predicate PointsInto(e: Edges, n: string, s: set<string>) {
    n in e && exists d :: d in e[n] && d in s
  }

  /** Members of `s` that one or more edges lead to from `x`. */
  ghost function Beyond(e: Edges, s: set<string>, x: string): set<string> {
    set y | y in s && ReachesPlus(e, x, y)
  }

  lemma BeyondPointsInto(e: Edges, s: set<string>, x: string, n: string)
    requires n in s && (n == x || ReachesPlus(e, x, n)) && PointsInto(e, n, s)
    ensures PointsInto(e, n, Beyond(e, s, x))
  {
    var m :| m in e[n] && m in s;
    EdgeReaches(e, n, m);
    PlusIsReaches(e, x, n);
    ReachesTrans(e, x, n, m);
    assert m in Beyond(e, s, x);
  }

  /** In a finite set where every member points back into the set, every member
      reaches a cycle: shrink the set to what lies beyond `x` until `x` itself recurs. */
  lemma StuckSetReachesCycle(e: Edges, s: set<string>, x: string)
    requires x in s
    requires forall n {:trigger PointsInto(e, n, s)} :: n in s ==> PointsInto(e, n, s)
    ensures CycleBound(e, x)
    decreases |s|
  {
    var t := Beyond(e, s, x);
    assert PointsInto(e, x, s);
    BeyondPointsInto(e, s, x, x);
    if x in t {
      ReachesRefl(e, x);
    } else {
      var d :| d in e[x] && d in t;
      SubsetCard(t, s - {x});
      forall n {:trigger PointsInto(e, n, t)} | n in t ensures PointsInto(e, n, t) {
        assert PointsInto(e, n, s);
        BeyondPointsInto(e, s, x, n);
      }
      StuckSetReachesCycle(e, t, d);
      CycleBoundUpstream(e, x, d);
    }
  }

  lemma CycleBoundUpstream(e: Edges, x: string, y: string)
    requires Reaches(e, x, y) || ReachesPlus(e, x, y)
    requires CycleBound(e, y)
    ensures CycleBound(e, x)
  {
    var c :| Reaches(e, y, c) && ReachesPlus(e, c, c);
    PlusIsReaches(e, x, y);
    ReachesTrans(e, x, y, c);
  }

  /** Along a topological prefix every walk strictly descends. */
  lemma WalkDescends(e: Edges, order: seq<string>, p: seq<string>, i: nat) returns (j: nat)
    requires TopoPrefix(e, order) && IsPath(e, p) && i < |order| && p[0] == order[i]
    ensures j < |order| && p[|p| - 1] == order[j] && j + |p| - 1 <= i
    decreases |p|
  {
    if |p| == 1 {
      j := i;
    } else {
      assert p[1] in e[order[i]];
      var k :| 0 <= k < i && order[..i][k] == p[1];
      j := WalkDescends(e, order, p[1..], k);
    }
  }

  /** No member of a topological prefix is on, or depends on, a cycle. */
  lemma TopoPrefixCycleFree(e: Edges, order: seq<string>, x: string)
    requires TopoPrefix(e, order) && x in order
    ensures !CycleBound(e, x)
  {
    if CycleBound(e, x) {
      var c :| Reaches(e, x, c) && ReachesPlus(e, c, c);
      var p :| PathFromTo(e, p, x, c);
      var q :| |q| >= 2 && PathFromTo(e, q, c, c);
      var i :| 0 <= i < |order| && order[i] == x;
      var j := WalkDescends(e, order, p, i);
      var k := WalkDescends(e, order, q, j);
      assert false;
    }
  }

  /** What a topological prefix reaches stays inside the prefix. */
  lemma TopoPrefixClosed(e: Edges, order: seq<string>, x: string, y: string)
    requires TopoPrefix(e, order) && x in order && Reaches(e, x, y)
    ensures y in order
  {
    var p :| PathFromTo(e, p, x, y);
    var i :| 0 <= i < |order| && order[i] == x;
    var j := WalkDescends(e, order, p, i);
  }

  /** A topological order exists only for resolved, acyclic edges. */
  lemma TopoOrderImpliesValid(e: Edges, order: seq<string>)
    requires TopoOrder(e, order)
    ensures AllResolved(e) && Acyclic(e)
  {
    forall id, d | id in e && d in e[id] ensures d in e {
      assert id in Elems(order);
      EdgeReaches(e, id, d);
      TopoPrefixClosed(e, order, id, d);
      assert d in Elems(order);
    }
    forall id | id in e ensures !ReachesPlus(e, id, id) {
      assert id in Elems(order);
      TopoPrefixCycleFree(e, order, id);
      ReachesRefl(e, id);
    }
  }

  /** Among the keys a topological prefix leaves over, one points to none of the others, or they
      would reach a cycle. */
  lemma SomeKeyReady(e: Edges, left: set<string>) returns (n: string)
    requires Acyclic(e) && left != {} && left <= e.Keys
    ensures n in left && forall d :: d in e[n] ==> d !in left
  {
    if forall n {:trigger PointsInto(e, n, left)} :: n in left ==> PointsInto(e, n, left) {
      var x :| x in left;
      StuckSetReachesCycle(e, left, x);
      assert false;
    }
    n :| n in left && !PointsInto(e, n, left);
  }

  lemma TopoPrefixSnoc(e: Edges, order: seq<string>, n: string)
    requires TopoPrefix(e, order) && n in e && n !in order && forall d :: d in e[n] ==> d in order
    ensures TopoPrefix(e, order + [n])
  {
    var longer := order + [n];
    NoDupSnoc(order, n);
    forall i | 0 <= i < |longer| ensures longer[i] in e && forall d :: d in e[longer[i]] ==> d in longer[..i] {
      assert longer[..i] == if i < |order| then order[..i] else order;
    }
  }

  /** Any topological prefix of resolved, acyclic edges extends to an order of all keys. */
  lemma ExtendTopoPrefix(e: Edges, order: seq<string>) returns (full: seq<string>)
    requires AllResolved(e) && Acyclic(e) && TopoPrefix(e, order)
    ensures TopoOrder(e, full)
    decreases |e.Keys - Elems(order)|
  {
    hide Acyclic, NoDup;
    var left := e.Keys - Elems(order);
    if left == {} {
      full := order;
    } else {
      var n := SomeKeyReady(e, left);
      TopoPrefixSnoc(e, order, n);
      NoDupSnoc(order, n);
      assert e.Keys - Elems(order + [n]) == left - {n};
      full := ExtendTopoPrefix(e, order + [n]);
    }
  }

  /** A topological order of all keys exists exactly for resolved, acyclic edges. */
  lemma TopoOrderExistsIff(e: Edges)
    ensures (exists order :: TopoOrder(e, order)) <==> AllResolved(e) && Acyclic(e)
  {
    if AllResolved(e) && Acyclic(e) {
      var order := ExtendTopoPrefix(e, []);
    }
    if order :| TopoOrder(e, order) {
      TopoOrderImpliesValid(e, order);
    }
  }

  lemma AcyclicIffNoneCycleBound(e: Edges)
    ensures Acyclic(e) <==> forall id :: id in e ==> !CycleBound(e, id)
  {
  }

  // ------------------------------------------------------------ converse edges

  ghost function Reversed(p: seq<string>): (r: seq<string>)
    ensures |r| == |p| && forall i :: 0 <= i < |p| ==> r[i] == p[|p| - 1 - i]
  {
    seq(|p|, i requires 0 <= i < |p| => p[|p| - 1 - i])
  }

  lemma ConverseReaches(e: Edges, r: Edges, x: string, y: string)
    requires Converse(e, r)
    ensures Reaches(e, x, y) <==> Reaches(r, y, x)
    ensures ReachesPlus(e, x, y) <==> ReachesPlus(r, y, x)
  {
    forall a: Edges, b: Edges, u, v, p | Converse(a, b) && PathFromTo(a, p, u, v)
      ensures PathFromTo(b, Reversed(p), v, u)
    {
      var q := Reversed(p);
      forall i | 0 <= i < |q| - 1 ensures q[i] in b && q[i + 1] in b[q[i]] {
        var k := |p| - 2 - i;
        assert p[k] in a && p[k + 1] in a[p[k]];
      }
    }
    assert Converse(r, e);
    if Reaches(e, x, y) { var p :| PathFromTo(e, p, x, y); assert PathFromTo(r, Reversed(p), y, x); }
    if Reaches(r, y, x) { var p :| PathFromTo(r, p, y, x); assert PathFromTo(e, Reversed(p), x, y); }
    if ReachesPlus(e, x, y) { var p :| |p| >= 2 && PathFromTo(e, p, x, y); assert PathFromTo(r, Reversed(p), y, x); }
    if ReachesPlus(r, y, x) { var p :| |p| >= 2 && PathFromTo(r, p, y, x); assert PathFromTo(e, Reversed(p), x, y); }
  }
}
