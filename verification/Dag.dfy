/**
 The claim graph: insertion, validation, transitive dependency and impact queries,
 and the partition into levels.  Go ranges over maps in arbitrary order, so each
 such loop picks its next key nondeterministically.
 */
module Dag {
  import opened Graph
  import opened Ir
  import opened StringOrder
  import opened Kahn
  import opened LevelSpec

  datatype AddResult = Added | InvalidId | DuplicateId

  datatype ValidateResult = WellFormed | UnknownDep(id: string, dep: string) | CycleAmong(count: int)

  datatype QueryResult = UnknownClaim | Ids(ids: seq<string>)

  /** The map a depth-first walk shares by reference. */
  class Visited {
    var ids: set<string>
    constructor ()
      ensures ids == {}
    {
      ids := {};
    }
  }

  /** Every name the edges mention. */
  ghost function Universe(e: Edges): set<string> {
    e.Keys + set id, d | id in e && d in e[id] :: d
  }

  /** What `Closure` promises: everything transitively depended on, minus the claim itself. */
  ghost function ClosureSet(e: Edges, id: string): set<string> {
    set y | y in Universe(e) && y != id && Reaches(e, id, y)
  }

  /** What `Impact` collects: claims that reach a direct dependent of `id` other than `id`. */
  ghost predicate InImpact(e: Edges, id: string, y: string) {
    exists c :: c != id && c in e && id in e[c] && Reaches(e, y, c)
  }

  ghost predicate DepsIn(e: Edges, n: string, s: set<string>) {
    n in e ==> forall d :: d in e[n] ==> d in s
  }

  /** New marks of a downward walk are reached from `id`, and all their dependencies are marked. */
  ghost predicate Walked(e: Edges, id: string, before: set<string>, after: set<string>) {
    && before <= after
    && id in after
    && (forall n :: n in after && n !in before ==> Reaches(e, id, n) && DepsIn(e, n, after))
  }

  /** Part-way through the dependencies of `id`: the first `i` are marked. */
  ghost predicate WalkSoFar(e: Edges, id: string, i: nat, before: set<string>, s: set<string>)
    requires id in e
  {
    && before + {id} <= s
    && id !in before
    && i <= |e[id]|
    && (forall n :: n in s && n !in before ==> Reaches(e, id, n))
    && (forall n :: n in s && n !in before && n != id ==> DepsIn(e, n, s))
    && (forall k :: 0 <= k < i ==> e[id][k] in s)
  }

  lemma WalkStart(e: Edges, id: string, before: set<string>)
    requires id in e && id !in before
    ensures WalkSoFar(e, id, 0, before, before + {id})
  {
    ReachesRefl(e, id);
  }

  lemma WalkStep(e: Edges, id: string, i: nat, before: set<string>, mid: set<string>, after: set<string>)
    requires id in e && i < |e[id]| && WalkSoFar(e, id, i, before, mid) && Walked(e, e[id][i], mid, after)
    ensures WalkSoFar(e, id, i + 1, before, after)
  {
    hide Reaches;
    EdgeReaches(e, id, e[id][i]);
    forall n | n in after && n !in mid ensures Reaches(e, id, n) {
      ReachesTrans(e, id, e[id][i], n);
    }
    forall n | n in mid && n !in before && n != id ensures DepsIn(e, n, after) {
      assert DepsIn(e, n, mid);
    }
  }

  lemma WalkEnd(e: Edges, id: string, before: set<string>, s: set<string>)
    requires id in e && WalkSoFar(e, id, |e[id]|, before, s)
    ensures Walked(e, id, before, s)
  {
  }

  /** Every claim outside `skip` that lists `n`, other than `n` itself, is in `s`. */
  ghost predicate DependentsIn(e: Edges, n: string, skip: set<string>, s: set<string>) {
    forall c :: c in e && c !in skip && c != n && n in e[c] ==> c in s
  }

  /** New marks of an upward walk reach `id`, and all their other dependents are marked. */
  ghost predicate WalkedUp(e: Edges, id: string, before: set<string>, after: set<string>) {
    && before <= after <= e.Keys
    && id in after
    && (forall n :: n in after && n !in before ==> Reaches(e, n, id))
    && (forall n :: n in after && n !in before ==> DependentsIn(e, n, {}, after))
  }

  class DAG {
    var claims: map<string, Claim>
    var order: seq<string>

    ghost predicate Valid()
      reads this
    {
      && NoDup(order)
      && Elems(order) == claims.Keys
      && forall id :: id in claims ==> claims[id].id == id && ValidClaimId(id)
    }

    ghost function Deps(): (e: Edges)
      reads this
      ensures e.Keys == claims.Keys
    {
      map id | id in claims :: claims[id].dependsOn
    }

    constructor ()
      ensures Valid() && claims == map[] && order == []
    {
      claims, order := map[], [];
    }

    method AddClaim(c: Claim) returns (r: AddResult)
      requires Valid()
      modifies this
      ensures Valid()
      ensures r == if !ValidClaimId(c.id) then InvalidId else if c.id in old(claims) then DuplicateId else Added
      ensures r == Added ==> claims == old(claims)[c.id := c] && order == old(order) + [c.id]
      ensures r != Added ==> claims == old(claims) && order == old(order)
    {
      if !ValidClaimId(c.id) { return InvalidId; }
      if c.id in claims { return DuplicateId; }
      NoDupSnoc(order, c.id);
      claims := claims[c.id := c];
      order := order + [c.id];
      return Added;
    }

    method Claims() returns (out: seq<Claim>)
      requires Valid()
      ensures |out| == |order| == |claims|
      ensures forall i :: 0 <= i < |order| ==> order[i] in claims && out[i] == claims[order[i]]
    {
      NoDupCard(order);
      assert forall i :: 0 <= i < |order| ==> order[i] in Elems(order);
      out := [];
      for i := 0 to |order|
        invariant |out| == i
        invariant forall k :: 0 <= k < i ==> out[k] == claims[order[k]]
      {
        out := out + [claims[order[i]]];
      }
    }

    /** The reference check of Validate: some unresolved dependency, if there is one. */
    method FindUnknownDep() returns (r: Option<(string, string)>)
      requires Valid()
      ensures r.None? <==> AllResolved(Deps())
      ensures r.Some? ==> r.value.0 in claims && r.value.1 in claims[r.value.0].dependsOn && r.value.1 !in claims
    {
      var todo := claims.Keys;
      while todo != {}
        invariant todo <= claims.Keys
        invariant forall id, d :: id in claims && id !in todo && d in claims[id].dependsOn ==> d in claims
      {
        var id :| id in todo;
        todo := todo - {id};
        var deps := claims[id].dependsOn;
        for i := 0 to |deps|
          invariant forall k :: 0 <= k < i ==> deps[k] in claims
        {
          if deps[i] !in claims {
            assert deps[i] in Deps()[id];
            return Some((id, deps[i]));
          }
        }
      }
      return None;
    }

    /** Initial in-degrees and the claims that start at zero. */
    method InitialQueue() returns (deg: map<string, int>, queue: seq<string>)
      requires Valid()
      ensures Rested(Deps(), [], queue, deg)
    {
      deg := map id | id in claims :: |claims[id].dependsOn|;
      queue := [];
      var todo := deg.Keys;
      while todo != {}
        invariant todo <= claims.Keys == deg.Keys
        invariant NoDup(queue) && Elems(queue) <= claims.Keys - todo
        invariant forall id :: id in claims && id !in todo ==> (id in queue <==> deg[id] == 0)
      {
        var id :| id in todo;
        todo := todo - {id};
        assert id !in queue by {
          assert id in queue ==> id in Elems(queue);
        }
        if deg[id] == 0 {
          NoDupSnoc(queue, id);
          queue := queue + [id];
        }
      }
      RestedStart(Deps(), queue, deg);
    }

    /** Visits every claim once, in any order, and lets it account for `curr`. */
    method RelaxAll(ghost before: seq<string>, curr: string, deg0: map<string, int>, queue0: seq<string>)
      returns (deg: map<string, int>, queue: seq<string>)
      requires Valid() && InRound(Deps(), before, curr, queue0, deg0, claims.Keys)
      ensures Rested(Deps(), before + [curr], queue, deg) && |before| < |claims|
    {
      hide InRound, Rested, ValidClaimId;
      deg, queue := deg0, queue0;
      var todo := claims.Keys;
      while todo != {}
        invariant InRound(Deps(), before, curr, queue, deg, todo)
      {
        var id :| id in todo;
        RoundCovers(Deps(), before, curr, queue, deg, todo, id);
        var deg', queue' := Relax(deg, queue, id, claims[id].dependsOn, curr);
        StepRound(Deps(), before, curr, queue, deg, todo, id, queue', deg');
        deg, queue, todo := deg', queue', todo - {id};
      }
      EndRound(Deps(), before, curr, queue, deg);
      assert |Deps().Keys| == |claims.Keys|;
    }

    method Validate() returns (r: ValidateResult)
      requires Valid()
      ensures r == WellFormed <==> AllResolved(Deps()) && Acyclic(Deps())
      ensures r.UnknownDep? <==> !AllResolved(Deps())
      ensures r.UnknownDep? ==> r.id in claims && r.dep in claims[r.id].dependsOn && r.dep !in claims
      ensures r.CycleAmong? ==> r.count == |set id | id in claims && CycleBound(Deps(), id)| > 0
    {
      hide InRound, Rested, ValidClaimId, NoDup;
      var unknown := FindUnknownDep();
      if unknown.Some? { return UnknownDep(unknown.value.0, unknown.value.1); }

      var deg, queue := InitialQueue();
      var visited := 0;
      ghost var done: seq<string> := [];
      while queue != []
        invariant Rested(Deps(), done, queue, deg) && visited == |done| <= |claims|
        decreases |claims| - visited
      {
        var curr := queue[0];
        BeginRound(Deps(), done, queue, deg);
        visited := visited + 1;
        deg, queue := RelaxAll(done, curr, deg, queue[1..]);
        done := done + [curr];
      }

      assert |Deps().Keys| == |claims.Keys|;
      DrainedAllIffValid(Deps(), done, deg);
      LeftoverCount(Deps(), done, deg);
      assert (set id | id in Deps() && CycleBound(Deps(), id)) == (set id | id in claims && CycleBound(Deps(), id));
      if visited != |claims| { return CycleAmong(|claims| - visited); }
      return WellFormed;
    }

    // ---------------------------------------------------------- dependency closure

    method ClosureWalk(id: string, visited: Visited)
      requires Valid() && id in Universe(Deps()) && visited.ids <= Universe(Deps())
      modifies visited
      ensures visited.ids <= Universe(Deps()) && Walked(Deps(), id, old(visited.ids), visited.ids)
      decreases Universe(Deps()) - visited.ids
    {
      hide ValidClaimId, NoDup, Reaches, WalkSoFar;
      ReachesRefl(Deps(), id);
      if id in visited.ids { return; }
      ghost var before := visited.ids;
      visited.ids := visited.ids + {id};
      if id !in claims { return; }
      var deps := claims[id].dependsOn;
      WalkStart(Deps(), id, before);
      for i := 0 to |deps|
        invariant before + {id} <= visited.ids <= Universe(Deps())
        invariant WalkSoFar(Deps(), id, i, before, visited.ids)
      {
        ghost var mid := visited.ids;
        assert deps[i] in Deps()[id];
        ClosureWalk(deps[i], visited);
        WalkStep(Deps(), id, i, before, mid, visited.ids);
      }
      WalkEnd(Deps(), id, before, visited.ids);
    }

    method Closure(id: string) returns (r: QueryResult)
      requires Valid()
      ensures r.UnknownClaim? <==> id !in claims
      ensures r.Ids? ==> NoDup(r.ids) && Elems(r.ids) == ClosureSet(Deps(), id)
    {
      if id !in claims { return UnknownClaim; }
      var visited := new Visited();
      ClosureWalk(id, visited);
      assert ClosedUnder(Deps(), visited.ids) by {
        assert forall n :: n in visited.ids ==> DepsIn(Deps(), n, visited.ids);
      }
      forall y | Reaches(Deps(), id, y) ensures y in visited.ids {
        ClosedHoldsReached(Deps(), visited.ids, id, y);
      }
      visited.ids := visited.ids - {id};
      var out := SetToSeq(visited.ids);
      return Ids(out);
    }

    // ---------------------------------------------------------- impact

    method ImpactFrom(id: string, visited: Visited)
      requires Valid() && id in claims && visited.ids <= claims.Keys
      modifies visited
      ensures visited.ids <= claims.Keys && WalkedUp(Deps(), id, old(visited.ids), visited.ids)
      decreases claims.Keys - visited.ids
    {
      hide ValidClaimId, NoDup, Reaches;
      ReachesRefl(Deps(), id);
      if id in visited.ids { return; }
      ghost var before := visited.ids;
      visited.ids := visited.ids + {id};
      var todo := claims.Keys;
      while todo != {}
        invariant todo <= claims.Keys
        invariant before + {id} <= visited.ids <= claims.Keys
        invariant forall n :: n in visited.ids && n !in before ==> Reaches(Deps(), n, id)
        invariant forall n :: n in visited.ids && n !in before && n != id ==> DependentsIn(Deps(), n, {}, visited.ids)
        invariant DependentsIn(Deps(), id, todo, visited.ids)
        decreases todo
      {
        var cid :| cid in todo;
        todo := todo - {cid};
        if cid != id && id in claims[cid].dependsOn {
          assert id in Deps()[cid];
          EdgeReaches(Deps(), cid, id);
          ghost var mid := visited.ids;
          ImpactFrom(cid, visited);
          forall n | n in visited.ids && n !in mid ensures Reaches(Deps(), n, id) {
            ReachesTrans(Deps(), n, cid, id);
          }
        }
      }
    }

    method Impact(id: string) returns (r: QueryResult)
      requires Valid()
      ensures r.UnknownClaim? <==> id !in claims
      ensures r.Ids? ==> NoDup(r.ids) && forall y :: y in r.ids <==> y in claims && InImpact(Deps(), id, y)
    {
      hide ValidClaimId, InImpact, DependentsIn, WalkedUp;
      if id !in claims { return UnknownClaim; }
      var visited := new Visited();
      var todo := claims.Keys;
      ImpactStart(Deps(), id);
      while todo != {}
        invariant todo <= claims.Keys && visited.ids <= claims.Keys
        invariant fresh(visited)
        invariant ImpactSoFar(Deps(), id, todo, visited.ids)
      {
        var cid :| cid in todo;
        ghost var before := visited.ids;
        if cid != id && id in claims[cid].dependsOn {
          ImpactFrom(cid, visited);
          ImpactWalk(Deps(), id, todo, before, visited.ids, cid);
        } else {
          ImpactSkip(Deps(), id, todo, visited.ids, cid);
        }
        todo := todo - {cid};
      }
      ImpactComplete(Deps(), id, visited.ids);
      var out := SetToSeq(visited.ids);
      assert forall y :: y in out <==> y in Elems(out);
      return Ids(out);
    }

    // ---------------------------------------------------------- levels

    /** One claim's share of a level step: at most one decrement per finished dependency. */
    method DecrementDependents(id: string, remaining0: map<string, int>) returns (remaining: map<string, int>)
      requires Valid() && remaining0.Keys <= claims.Keys
      ensures remaining.Keys == remaining0.Keys
      ensures forall r :: r in remaining ==>
                remaining[r] == remaining0[r] - (if id in claims[r].dependsOn then 1 else 0)
    {
      remaining := remaining0;
      var todo := claims.Keys;
      while todo != {}
        invariant todo <= claims.Keys && remaining.Keys == remaining0.Keys
        invariant forall r :: r in remaining ==>
                    remaining[r] == remaining0[r] - (if r !in todo && id in claims[r].dependsOn then 1 else 0)
      {
        var rid :| rid in todo;
        todo := todo - {rid};
        if rid in remaining && id in claims[rid].dependsOn {
          remaining := remaining[rid := remaining[rid] - 1];
        }
      }
    }

    /** The claims whose count is zero, sorted. */
    method ReadyLevel(remaining: map<string, int>) returns (level: seq<string>)
      ensures Sorted(level) && NoDup(level)
      ensures Elems(level) == set id | id in remaining && remaining[id] == 0
    {
      var ready := [];
      var todo := remaining.Keys;
      while todo != {}
        invariant todo <= remaining.Keys && NoDup(ready)
        invariant Elems(ready) == set id | id in remaining && id !in todo && remaining[id] == 0
      {
        var id :| id in todo;
        todo := todo - {id};
        if remaining[id] == 0 {
          assert id !in Elems(ready);
          NoDupSnoc(ready, id);
          ready := ready + [id];
        }
      }
      level := SortedCopy(ready);
    }

    /** Takes the claims of one level out and lets their dependents count them. */
    method PlaceLevel(level: seq<string>, before: map<string, int>, ghost done: set<string>)
      returns (remaining: map<string, int>)
      requires Valid() && NoDup(level) && Elems(level) <= before.Keys <= claims.Keys && before.Keys !! done
      requires CountsAfter(Deps(), before, done)
      ensures remaining.Keys == before.Keys - Elems(level)
      ensures CountsAfter(Deps(), remaining, done + Elems(level))
    {
      hide Left, CountsAfter, ValidClaimId, NoDup;
      remaining := before;
      assert done + Elems(level[..0]) == done;
      for i := 0 to |level|
        invariant remaining.Keys == before.Keys - Elems(level[..i])
        invariant CountsAfter(Deps(), remaining, done + Elems(level[..i]))
      {
        var id := level[i];
        LevelElement(level, i, before.Keys, done);
        var remaining' := map r | r in remaining && r != id :: remaining[r];
        remaining' := DecrementDependents(id, remaining');
        CountsStep(Deps(), remaining, remaining', done + Elems(level[..i]), id);
        remaining := remaining';
        assert done + Elems(level[..i + 1]) == done + Elems(level[..i]) + {id};
      }
      assert level[..|level|] == level;
    }

    /** Without a resolved, acyclic, repetition-free graph the loop below never ends:
        see LevelSpec.PartitionEndsIff. */
    method Levels() returns (levels: seq<seq<string>>)
      requires Valid() && AllResolved(Deps()) && Acyclic(Deps()) && DupFree(Deps())
      ensures IsPartition(Deps(), levels)
    {
      var remaining := map id | id in claims :: |claims[id].dependsOn|;
      levels := [];
      InitialCounts(Deps(), remaining);
      while |remaining| > 0
        invariant Progress(Deps(), levels, remaining)
        decreases |remaining|
      {
        ghost var before := remaining;
        var level := ReadyLevel(remaining);
        ReadyIsNextLevel(Deps(), levels, remaining, level);
        remaining := PlaceLevel(level, remaining, DoneAfter(Deps(), |levels|));
        LevelDone(Deps(), levels, before, remaining, level);
        levels := levels + [level];
      }
      AllPlaced(Deps(), levels, remaining);
    }
  }

  /** A set closed under taking dependents (other than itself) holds all that reach a member. */
  lemma UpwardClosedHolds(e: Edges, s: set<string>, y: string, c: string)
    requires c in s && Reaches(e, y, c)
    requires forall n :: n in s ==> DependentsIn(e, n, {}, s)
    ensures y in s
  {
    var p :| PathFromTo(e, p, y, c);
    var i := |p| - 1;
    while i > 0
      invariant 0 <= i < |p| && p[i] in s
    {
      assert DependentsIn(e, p[i], {}, s);
      assert p[i - 1] in e && p[i] in e[p[i - 1]];
      i := i - 1;
    }
  }

  /** While `Impact` scans: what is marked belongs, and nothing a mark leads to is missing. */
  ghost predicate ImpactSoFar(e: Edges, id: string, todo: set<string>, s: set<string>) {
    && (forall n :: n in s ==> InImpact(e, id, n) && DependentsIn(e, n, {}, s))
    && DependentsIn(e, id, todo, s)
  }

  lemma ImpactStart(e: Edges, id: string)
    ensures ImpactSoFar(e, id, e.Keys, {})
  {
  }

  lemma ImpactSkip(e: Edges, id: string, todo: set<string>, s: set<string>, cid: string)
    requires ImpactSoFar(e, id, todo, s) && cid in e && (cid == id || id !in e[cid])
    ensures ImpactSoFar(e, id, todo - {cid}, s)
  {
  }

  lemma ImpactWalk(e: Edges, id: string, todo: set<string>, before: set<string>, after: set<string>, cid: string)
    requires ImpactSoFar(e, id, todo, before) && cid in e && cid != id && id in e[cid]
    requires WalkedUp(e, cid, before, after)
    ensures ImpactSoFar(e, id, todo - {cid}, after)
  {
  }

  lemma ImpactComplete(e: Edges, id: string, s: set<string>)
    requires ImpactSoFar(e, id, {}, s)
    ensures forall y :: InImpact(e, id, y) <==> y in s
  {
    forall y, c | c != id && c in e && id in e[c] && Reaches(e, y, c) ensures y in s {
      UpwardClosedHolds(e, s, y, c);
    }
  }
}
