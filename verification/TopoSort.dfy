/**
 The command-line tool's own topological sort: Kahn's algorithm once more, this time
 in insertion order and keeping the order it dequeues.
 */
module TopoSort {
  import opened Graph
  import opened Ir
  import opened Kahn
  import opened Dag

  /** The claims that start with no dependencies, in insertion order. */
  method Roots(g: DAG) returns (deg: map<string, int>, queue: seq<string>)
    requires g.Valid()
    ensures Rested(g.Deps(), [], queue, deg)
  {
    hide ValidClaimId;
    deg := map id | id in g.claims :: |g.claims[id].dependsOn|;
    queue := [];
    for i := 0 to |g.order|
      invariant NoDup(queue) && Elems(queue) <= g.claims.Keys
      invariant forall id :: id in queue <==> id in g.order[..i] && deg[id] == 0
    {
      var id := g.order[i];
      assert id in Elems(g.order);
      assert g.order[..i + 1] == g.order[..i] + [id];
      if deg[id] == 0 {
        PrefixFresh(g.order, i);
        NoDupSnoc(queue, id);
        queue := queue + [id];
      }
    }
    assert g.order[..|g.order|] == g.order;
    forall id | id in g.claims ensures id in g.order {
      assert id in Elems(g.order);
    }
    RestedStart(g.Deps(), queue, deg);
  }

  lemma PrefixFresh(s: seq<string>, i: nat)
    requires NoDup(s) && i < |s|
    ensures s[i] !in s[..i]
    ensures Elems(s[i..]) - {s[i]} == Elems(s[i + 1..])
  {
  }

  /** One round: every claim in insertion order accounts for `curr`. */
  method RelaxInOrder(g: DAG, claims: seq<Claim>, ghost before: seq<string>, curr: string,
                      deg0: map<string, int>, queue0: seq<string>)
    returns (deg: map<string, int>, queue: seq<string>)
    requires g.Valid() && |claims| == |g.order|
    requires forall i :: 0 <= i < |g.order| ==> g.order[i] in g.claims && claims[i] == g.claims[g.order[i]]
    requires InRound(g.Deps(), before, curr, queue0, deg0, g.claims.Keys)
    ensures Rested(g.Deps(), before + [curr], queue, deg) && |before| < |g.Deps()|
  {
    hide InRound, Rested, ValidClaimId;
    deg, queue := deg0, queue0;
    assert g.order[0..] == g.order;
    for i := 0 to |claims|
      invariant InRound(g.Deps(), before, curr, queue, deg, Elems(g.order[i..]))
    {
      var c := claims[i];
      ghost var todo := Elems(g.order[i..]);
      assert c.id == g.order[i] && g.order[i..][0] == c.id;
      RoundCovers(g.Deps(), before, curr, queue, deg, todo, c.id);
      var deg', queue' := Relax(deg, queue, c.id, c.dependsOn, curr);
      StepRound(g.Deps(), before, curr, queue, deg, todo, c.id, queue', deg');
      PrefixFresh(g.order, i);
      deg, queue := deg', queue';
    }
    assert Elems(g.order[|claims|..]) == {};
    EndRound(g.Deps(), before, curr, queue, deg);
  }

  method TopoSort(g: DAG) returns (r: Option<seq<string>>)
    requires g.Valid()
    ensures r.Some? <==> AllResolved(g.Deps()) && Acyclic(g.Deps())
    ensures r.Some? ==> TopoOrder(g.Deps(), r.value)
  {
    hide InRound, Rested, ValidClaimId;
    var claims := g.Claims();
    var deg, queue := Roots(g);
    assert |g.Deps().Keys| == |g.claims.Keys|;
    var order: seq<string> := [];
    while queue != []
      invariant Rested(g.Deps(), order, queue, deg) && |order| <= |g.Deps()|
      decreases |g.Deps()| - |order|
    {
      var curr := queue[0];
      BeginRound(g.Deps(), order, queue, deg);
      deg, queue := RelaxInOrder(g, claims, order, curr, deg, queue[1..]);
      order := order + [curr];
    }
    DrainedAllIffValid(g.Deps(), order, deg);
    if |order| != |claims| { return None; }
    return Some(order);
  }
}
