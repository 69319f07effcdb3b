/**
 Kahn's algorithm, as used twice by the source: the counting invariant both loops
 keep, and what it says about the claims that were and were not dequeued.
 */
module Kahn {
  import opened Graph

  /** How many entries of `deps`, repetitions included, are not in `done`. */
  ghost function Missing(deps: seq<string>, done: set<string>): nat {
    if deps == [] then 0
    else (if deps[0] in done then 0 else 1) + Missing(deps[1..], done)
  }

  /** `id` transitively depends on a name that is no claim. */
  ghost predicate Dangling(e: Edges, id: string) {
    exists d :: Reaches(e, id, d) && d !in e
  }

  /** Between two rounds: `done` was dequeued, `queue` waits, `deg` counts what is missing. */
  ghost predicate Rested(e: Edges, done: seq<string>, queue: seq<string>, deg: map<string, int>) {
    && TopoPrefix(e, done)
    && NoDup(done + queue)
    && Elems(queue) <= e.Keys
    && deg.Keys == e.Keys
    && (forall id :: id in e ==> deg[id] == Missing(e[id], Elems(done)))
    && (forall id :: id in e ==> (id in done + queue <==> deg[id] == 0))
  }

  /** Inside the round of `curr`: claims in `todo` still carry their old count. */
  ghost predicate InRound(e: Edges, before: seq<string>, curr: string, queue: seq<string>,
                          deg: map<string, int>, todo: set<string>)
  {
    && TopoPrefix(e, before + [curr])
    && curr !in before
    && NoDup(before + [curr] + queue)
    && Elems(queue) <= e.Keys
    && todo <= e.Keys == deg.Keys
    && (forall id :: id in todo ==> deg[id] == Missing(e[id], Elems(before)))
    && (forall id :: id in e && id !in todo ==> deg[id] == Missing(e[id], Elems(before) + {curr}))
    && (forall id :: id in e ==> (id in before + [curr] + queue <==> deg[id] == 0))
  }

  lemma {:induction false} MissingAdd(deps: seq<string>, done: set<string>, c: string)
    requires c !in done
    ensures Missing(deps, done) == Missing(deps, done + {c}) + multiset(deps)[c]
  {
    if deps != [] {
      MissingAdd(deps[1..], done, c);
      assert deps == [deps[0]] + deps[1..];
      assert multiset(deps) == multiset{deps[0]} + multiset(deps[1..]);
    }
  }

  lemma {:induction false} MissingZero(deps: seq<string>, done: set<string>)
    ensures Missing(deps, done) == 0 <==> forall d :: d in deps ==> d in done
  {
    if deps != [] {
      MissingZero(deps[1..], done);
      assert deps == [deps[0]] + deps[1..];
    }
  }

  lemma {:induction false} MissingNone(deps: seq<string>)
    ensures Missing(deps, {}) == |deps|
  {
    if deps != [] { MissingNone(deps[1..]); }
  }

  /** One claim's share of a round: one decrement per occurrence of `curr`, and an
      append at the moment the count reaches zero. */
  method Relax(deg: map<string, int>, queue: seq<string>, id: string, deps: seq<string>, curr: string)
    returns (deg': map<string, int>, queue': seq<string>)
    requires id in deg && deg[id] >= multiset(deps)[curr]
    ensures deg' == deg[id := deg[id] - multiset(deps)[curr]]
    ensures queue' == if curr in deps && deg[id] == multiset(deps)[curr] then queue + [id] else queue
  {
    deg', queue' := deg, queue;
    ghost var seen: nat := 0;
    for i := 0 to |deps|
      invariant seen == multiset(deps[..i])[curr]
      invariant deg' == deg[id := deg[id] - seen]
      invariant queue' == if seen > 0 && deg[id] == seen then queue + [id] else queue
    {
      PrefixCount(deps, i, curr);
      if deps[i] == curr {
        seen := seen + 1;
        deg' := deg'[id := deg'[id] - 1];
        if deg'[id] == 0 {
          queue' := queue' + [id];
        }
      }
    }
    assert deps[..|deps|] == deps;
    assert curr in deps <==> multiset(deps)[curr] > 0;
  }

  lemma PrefixCount(deps: seq<string>, i: nat, curr: string)
    requires i < |deps|
    ensures multiset(deps[..i + 1])[curr] == multiset(deps[..i])[curr] + if deps[i] == curr then 1 else 0
    ensures multiset(deps[..i + 1])[curr] <= multiset(deps)[curr]
  {
    assert deps[..i + 1] == deps[..i] + [deps[i]];
    assert deps == deps[..i + 1] + deps[i + 1..];
  }

  lemma BeginRound(e: Edges, done: seq<string>, queue: seq<string>, deg: map<string, int>)
    requires Rested(e, done, queue, deg) && queue != []
    ensures InRound(e, done, queue[0], queue[1..], deg, e.Keys)
  {
    var curr := queue[0];
    assert done + queue == done + [curr] + queue[1..];
    assert (done + queue)[|done|] == curr;
    assert curr in Elems(queue);
    MissingZero(e[curr], Elems(done));
    var t := done + [curr];
    assert NoDup(t) by {
      assert forall i :: 0 <= i < |t| ==> t[i] == (done + queue)[i];
    }
    forall i | 0 <= i < |t| ensures t[i] in e && forall d :: d in e[t[i]] ==> d in t[..i] {
      assert t[..i] == done[..i];
    }
    NoDupSnoc(done, curr);
  }

  lemma StepRound(e: Edges, before: seq<string>, curr: string, queue: seq<string>, deg: map<string, int>,
                  todo: set<string>, id: string, queue': seq<string>, deg': map<string, int>)
    requires InRound(e, before, curr, queue, deg, todo) && id in todo
    requires deg' == deg[id := deg[id] - multiset(e[id])[curr]]
    requires queue' == if curr in e[id] && deg[id] == multiset(e[id])[curr] then queue + [id] else queue
    ensures InRound(e, before, curr, queue', deg', todo - {id})
  {
    MissingAdd(e[id], Elems(before), curr);
    if curr in e[id] && deg[id] == multiset(e[id])[curr] {
      assert before + [curr] + queue' == (before + [curr] + queue) + [id];
      NoDupSnoc(before + [curr] + queue, id);
      assert deg[id] != 0;
    }
  }

  /** The count a claim carries covers every decrement its round will make. */
  lemma RoundCovers(e: Edges, before: seq<string>, curr: string, queue: seq<string>, deg: map<string, int>,
                    todo: set<string>, id: string)
    requires InRound(e, before, curr, queue, deg, todo) && id in todo
    ensures id in deg && id in e && deg[id] >= multiset(e[id])[curr]
  {
    MissingAdd(e[id], Elems(before), curr);
  }

  lemma EndRound(e: Edges, before: seq<string>, curr: string, queue: seq<string>, deg: map<string, int>)
    requires InRound(e, before, curr, queue, deg, {})
    ensures Rested(e, before + [curr], queue, deg)
    ensures |before| + 1 <= |e|
  {
    NoDupSnoc(before, curr);
    NoDupCard(before + [curr]);
    forall x | x in before + [curr] ensures x in e.Keys {
      var i :| 0 <= i < |before + [curr]| && (before + [curr])[i] == x;
    }
    SubsetCard(Elems(before + [curr]), e.Keys);
  }

  lemma RestedStart(e: Edges, queue: seq<string>, deg: map<string, int>)
    requires deg.Keys == e.Keys && NoDup(queue) && Elems(queue) <= e.Keys
    requires forall id :: id in e ==> deg[id] == |e[id]|
    requires forall id :: id in e ==> (id in queue <==> deg[id] == 0)
    ensures Rested(e, [], queue, deg)
  {
    assert [] + queue == queue;
    assert Elems<string>([]) == {};
    forall id | id in e ensures deg[id] == Missing(e[id], {}) {
      MissingNone(e[id]);
    }
  }

  /** When the queue runs dry, exactly the claims that reach neither a cycle nor an
      unknown name have been dequeued. */
  lemma DrainedExactly(e: Edges, done: seq<string>, deg: map<string, int>, id: string)
    requires Rested(e, done, [], deg) && id in e
    ensures id in done <==> !CycleBound(e, id) && !Dangling(e, id)
  {
    if id in done {
      TopoPrefixCycleFree(e, done, id);
      forall d | Reaches(e, id, d) ensures d in e {
        TopoPrefixClosed(e, done, id, d);
      }
    } else if !Dangling(e, id) {
      var s := set n | n in e && n !in done && !Dangling(e, n);
      forall n {:trigger PointsInto(e, n, s)} | n in s ensures PointsInto(e, n, s) {
        LeftoverPointsToLeftover(e, done, deg, n);
      }
      StuckSetReachesCycle(e, s, id);
    }
  }

  lemma LeftoverPointsToLeftover(e: Edges, done: seq<string>, deg: map<string, int>, n: string)
    requires Rested(e, done, [], deg) && n in e && n !in done && !Dangling(e, n)
    ensures PointsInto(e, n, set m | m in e && m !in done && !Dangling(e, m))
  {
    assert done + [] == done;
    MissingZero(e[n], Elems(done));
    var d :| d in e[n] && d !in Elems(done);
    EdgeReaches(e, n, d);
    if Dangling(e, d) {
      var u :| Reaches(e, d, u) && u !in e;
      ReachesTrans(e, n, d, u);
      assert false;
    }
    ReachesRefl(e, d);
    assert d in (set m | m in e && m !in done && !Dangling(e, m));
  }

  /** Some claim reaches an unknown name exactly when some dependency is unresolved. */
  lemma DanglingIffUnresolved(e: Edges)
    ensures AllResolved(e) <==> forall id :: id in e ==> !Dangling(e, id)
  {
    if AllResolved(e) {
      forall id, d | id in e && Reaches(e, id, d) ensures d in e {
        ClosedHoldsReached(e, e.Keys, id, d);
      }
    } else {
      var id, d :| id in e && d in e[id] && d !in e;
      EdgeReaches(e, id, d);
    }
  }

  /** Everything was dequeued exactly when the edges are resolved and acyclic. */
  lemma DrainedAllIffValid(e: Edges, done: seq<string>, deg: map<string, int>)
    requires Rested(e, done, [], deg)
    ensures |done| == |e| <==> AllResolved(e) && Acyclic(e)
    ensures |done| == |e| ==> TopoOrder(e, done)
  {
    NoDupCard(done);
    assert Elems(done) <= e.Keys;
    SubsetCard(Elems(done), e.Keys);
    DanglingIffUnresolved(e);
    AcyclicIffNoneCycleBound(e);
    forall id | id in e ensures id in Elems(done) <==> !CycleBound(e, id) && !Dangling(e, id) {
      DrainedExactly(e, done, deg, id);
    }
    if AllResolved(e) && Acyclic(e) {
      assert Elems(done) == e.Keys;
    }
  }

  /** With every dependency resolved, what was not dequeued is what reaches a cycle. */
  lemma LeftoverCount(e: Edges, done: seq<string>, deg: map<string, int>)
    requires Rested(e, done, [], deg) && AllResolved(e)
    ensures |e| - |done| == |set id | id in e && CycleBound(e, id)|
  {
    var stuck := set id | id in e && CycleBound(e, id);
    DanglingIffUnresolved(e);
    NoDupCard(done);
    forall id | id in e ensures id in done <==> id !in stuck {
      DrainedExactly(e, done, deg, id);
    }
    assert e.Keys == Elems(done) + stuck;
    assert Elems(done) !! stuck;
  }
}
