/**
 How the two transitive queries relate: `Closure` walks dependencies forward while
 `Impact` rescans all claims for dependents at every step.
 */
module Dependency {
  import opened Graph
  import opened Dag

  /** A walk that ends at `x` but starts elsewhere enters `x` for the first time from another claim. */
  lemma {:induction false} FirstArrival(e: Edges, p: seq<string>, x: string) returns (c: string)
    requires IsPath(e, p) && p[0] != x && p[|p| - 1] == x
    ensures c != x && c in e && x in e[c] && Reaches(e, p[0], c)
  {
    if p[1] == x {
      c := p[0];
      ReachesRefl(e, c);
    } else {
      c := FirstArrival(e, p[1..], x);
      EdgeReaches(e, p[0], p[1]);
      ReachesTrans(e, p[0], p[1], c);
    }
  }

  lemma ImpactReaches(e: Edges, x: string, y: string)
    ensures InImpact(e, x, y) ==> ReachesPlus(e, y, x) && x in Universe(e)
    ensures x != y && Reaches(e, y, x) ==> InImpact(e, x, y)
  {
    if InImpact(e, x, y) {
      var c :| c != x && c in e && x in e[c] && Reaches(e, y, c);
      EdgeReaches(e, c, x);
      ReachesTrans(e, y, c, x);
    }
    if x != y && Reaches(e, y, x) {
      var p :| PathFromTo(e, p, y, x);
      var c := FirstArrival(e, p, x);
    }
  }

  /** On every graph, valid or not, the two queries are converse between distinct claims. */
  lemma ImpactClosureConverse(e: Edges, x: string, y: string)
    requires x in e && y in e && x != y
    ensures InImpact(e, x, y) <==> x in ClosureSet(e, y)
  {
    ImpactReaches(e, x, y);
    PlusIsReaches(e, y, x);
  }

  /** A claim is in its own impact, though never in its own closure, exactly when some
      cycle through it visits another claim. */
  lemma SelfImpact(e: Edges, x: string)
    ensures x !in ClosureSet(e, x)
    ensures InImpact(e, x, x) <==> exists z :: z != x && Reaches(e, x, z) && Reaches(e, z, x)
  {
    if InImpact(e, x, x) {
      var c :| c != x && c in e && x in e[c] && Reaches(e, x, c);
      EdgeReaches(e, c, x);
    }
    if z :| z != x && Reaches(e, x, z) && Reaches(e, z, x) {
      ImpactReaches(e, x, z);
      var c :| c != x && c in e && x in e[c] && Reaches(e, z, c);
      ReachesTrans(e, x, z, c);
    }
  }

  /** On a validated graph the converse has no exception. */
  lemma ValidatedConverse(e: Edges, x: string, y: string)
    requires AllResolved(e) && Acyclic(e) && x in e && y in e
    ensures InImpact(e, x, y) <==> x in ClosureSet(e, y)
    ensures InImpact(e, x, y) <==> ReachesPlus(e, y, x)
  {
    ImpactReaches(e, x, y);
    PlusIsReaches(e, y, x);
  }

  /** Two claims that depend on each other: each is in its own impact. */
  lemma MutualDependentsSelfImpact()
    ensures var e: Edges := map["a" := ["b"], "b" := ["a"]];
            InImpact(e, "a", "a") && "a" !in ClosureSet(e, "a")
  {
    var e: Edges := map["a" := ["b"], "b" := ["a"]];
    EdgeReaches(e, "a", "b");
    SelfImpact(e, "a");
    assert "b" in e && "a" in e["b"] && Reaches(e, "a", "b");
  }
}
