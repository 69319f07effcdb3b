/**
 Spreading STALE from a changed claim to everything downstream of it.
 */
module Staleness {
  import opened Graph
  import opened Dag
  import opened Derive
  import opened Dependency

  /** The changed claim and everything its reverse edges lead to. */
  ghost function Downstream(reverse: Edges, changed: string): set<string> {
    set y | y in Universe(reverse) + {changed} && Reaches(reverse, changed, y)
  }

  ghost function Marked(states: States, stale: set<string>): States {
    map k | k in states.Keys + stale :: if k in stale then Stale else states[k]
  }

  method PropagateStale(states: States, reverse: Edges, changed: string) returns (result: States)
    ensures result == Marked(states, Downstream(reverse, changed))
    ensures forall k :: k in result <==> k in states || Reaches(reverse, changed, k)
    ensures forall k :: k in result ==>
              result[k] == if Reaches(reverse, changed, k) then ClaimState.Stale else states[k]
  {
    hide Frontier, Reaches, Universe;
    result := map k | k in states :: states[k];
    var visited: set<string> := {};
    var queue := [changed];
    FrontierStart(reverse, changed);
    assert Elems(queue) == {changed};
    assert result == Marked(states, visited);
    while queue != []
      invariant result == Marked(states, visited)
      invariant Frontier(reverse, changed, visited, Elems(queue))
      decreases Universe(reverse) + {changed} - visited, |queue|
    {
      var cur := queue[0];
      assert queue == [cur] + queue[1..];
      assert Elems(queue) == {cur} + Elems(queue[1..]);
      queue := queue[1..];
      ghost var rest := Elems(queue);
      if cur in visited {
        SkipMarked(reverse, changed, visited, rest, cur);
        continue;
      }
      AdvanceFrontier(reverse, changed, visited, rest, cur);
      MarkOne(states, visited, cur);
      visited := visited + {cur};
      result := result[cur := Stale];
      if cur in reverse {
        assert Elems(queue + reverse[cur]) == rest + Elems(reverse[cur]);
        queue := queue + reverse[cur];
      } else {
        assert rest + {} == rest;
      }
    }
    assert Elems(queue) == {};
    FrontierDone(reverse, changed, visited);
    MarkedMeans(states, reverse, changed);
  }

  lemma MarkedMeans(states: States, reverse: Edges, changed: string)
    ensures var r := Marked(states, Downstream(reverse, changed));
            && (forall k :: k in r <==> k in states || Reaches(reverse, changed, k))
            && (forall k :: k in r ==> r[k] == if Reaches(reverse, changed, k) then ClaimState.Stale else states[k])
  {
    forall k | Reaches(reverse, changed, k) ensures k in Downstream(reverse, changed) {
      PlusIsReaches(reverse, changed, k);
      if k != changed { var z := PlusLastStep(reverse, changed, k); }
    }
  }

  /** Marked claims are reached; what they lead to is marked or still queued. */
  ghost predicate Frontier(reverse: Edges, changed: string, visited: set<string>, queued: set<string>) {
    && visited + queued <= Universe(reverse) + {changed}
    && changed in visited + queued
    && (forall n :: n in visited + queued ==> Reaches(reverse, changed, n))
    && (forall n, d :: n in visited && n in reverse && d in reverse[n] ==> d in visited + queued)
  }

  lemma FrontierStart(reverse: Edges, changed: string)
    ensures Frontier(reverse, changed, {}, {changed})
  {
    ReachesRefl(reverse, changed);
  }

  lemma SkipMarked(reverse: Edges, changed: string, visited: set<string>, rest: set<string>, cur: string)
    requires Frontier(reverse, changed, visited, {cur} + rest) && cur in visited
    ensures Frontier(reverse, changed, visited, rest)
  {
    assert visited + ({cur} + rest) == visited + rest;
  }

  lemma AdvanceFrontier(reverse: Edges, changed: string, visited: set<string>, rest: set<string>, cur: string)
    requires Frontier(reverse, changed, visited, {cur} + rest)
    ensures Frontier(reverse, changed, visited + {cur},
                     rest + if cur in reverse then Elems(reverse[cur]) else {})
    ensures cur in Universe(reverse) + {changed}
  {
    var more := if cur in reverse then Elems(reverse[cur]) else {};
    assert visited + {cur} + (rest + more) == visited + ({cur} + rest) + more;
    if cur in reverse {
      forall d | d in reverse[cur] ensures Reaches(reverse, changed, d) {
        EdgeReaches(reverse, cur, d);
        ReachesTrans(reverse, changed, cur, d);
      }
    }
  }

  lemma FrontierDone(reverse: Edges, changed: string, visited: set<string>)
    requires Frontier(reverse, changed, visited, {})
    ensures visited == Downstream(reverse, changed)
  {
    assert visited + {} == visited;
    forall y | Reaches(reverse, changed, y) ensures y in visited {
      ClosedHoldsReached(reverse, visited, changed, y);
    }
  }

  lemma MarkOne(states: States, visited: set<string>, cur: string)
    ensures Marked(states, visited)[cur := Stale] == Marked(states, visited + {cur})
  {
  }

  /** Two changes may be applied in either order. */
  lemma MarksCommute(states: States, a: set<string>, b: set<string>)
    ensures Marked(Marked(states, a), b) == Marked(Marked(states, b), a) == Marked(states, a + b)
  {
  }

  /** With the reverse edges of a validated graph, exactly the claim and its impact go stale. */
  lemma DownstreamIsImpact(e: Edges, reverse: Edges, x: string)
    requires AllResolved(e) && Acyclic(e) && Converse(e, reverse) && x in e
    ensures Downstream(reverse, x) == {x} + set y | y in e && InImpact(e, x, y)
  {
    forall y ensures y in Downstream(reverse, x) <==> y == x || (y in e && InImpact(e, x, y)) {
      ConverseReaches(e, reverse, y, x);
      PlusIsReaches(e, y, x);
      PlusIsReaches(reverse, x, y);
      if ReachesPlus(e, y, x) {
        var z := PlusFirstStep(e, y, x);
        var c := PlusLastStep(reverse, x, y);
      }
      if y in e { ValidatedConverse(e, x, y); }
    }
  }
}
