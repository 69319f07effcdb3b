/**
 What the level partition computes: the claims placed after `n` rounds, why a level
 index is a longest-chain length, and exactly when the rounds ever place every claim.
 */
module LevelSpec {
  import opened Graph
  import opened StringOrder

  /** The count a claim carries once `done` is placed: it starts at the length of its
      dependency list but each distinct dependency is subtracted only once, so it
      reaches zero just when the claim is Placeable (lemma ZeroLeft). */
  ghost function Left(e: Edges, id: string, done: set<string>): int
    requires id in e
  {
    |e[id]| - |Elems(e[id]) * done|
  }

  /** Every listed dependency is placed, and none is listed twice. */
  ghost predicate Placeable(deps: seq<string>, done: set<string>) {
    deps == [] || (deps[0] in done && deps[0] !in deps[1..] && Placeable(deps[1..], done))
  }

  lemma {:induction false} PlaceableMeans(deps: seq<string>, done: set<string>)
    ensures Placeable(deps, done) <==> NoDup(deps) && forall d :: d in deps ==> d in done
  {
    if deps != [] {
      PlaceableMeans(deps[1..], done);
      assert deps == [deps[0]] + deps[1..];
      if NoDup(deps) { assert forall i :: 0 < i < |deps| ==> deps[i] != deps[0]; }
    }
  }

  ghost function NextLevel(e: Edges, done: set<string>): set<string> {
    set id | id in e && id !in done && Placeable(e[id], done)
  }

  ghost function DoneAfter(e: Edges, n: nat): (done: set<string>)
    ensures done <= e.Keys
  {
    if n == 0 then {} else DoneAfter(e, n - 1) + NextLevel(e, DoneAfter(e, n - 1))
  }

  /** `k` edges is the length of a longest dependency chain starting at `id`. */
  ghost predicate LongestChain(e: Edges, id: string, k: nat) {
    && (exists p :: IsPath(e, p) && p[0] == id && |p| == k + 1)
    && (forall p :: IsPath(e, p) && p[0] == id ==> |p| <= k + 1)
  }

  /** Every claim sits in exactly one level, the one numbered by its longest chain;
      levels are non-empty and strictly in dictionary order. */
  ghost predicate IsPartition(e: Edges, levels: seq<seq<string>>) {
    && (forall i :: 0 <= i < |levels| ==> levels[i] != [] && InOrder(levels[i]))
    && (forall i, id :: 0 <= i < |levels| && id in levels[i] ==> id in e && LongestChain(e, id, i))
    && (forall i, j, id :: 0 <= i < j < |levels| && id in levels[i] ==> id !in levels[j])
    && (forall id :: id in e ==> exists i :: 0 <= i < |levels| && id in levels[i])
  }

  ghost predicate CountsAfter(e: Edges, remaining: map<string, int>, done: set<string>) {
    && remaining.Keys <= e.Keys
    && forall id :: id in remaining ==> remaining[id] == Left(e, id, done)
  }

  /** After `|levels|` rounds: what is left, its counts, and the levels so far. */
  ghost predicate Progress(e: Edges, levels: seq<seq<string>>, remaining: map<string, int>) {
    && remaining.Keys == e.Keys - DoneAfter(e, |levels|)
    && CountsAfter(e, remaining, DoneAfter(e, |levels|))
    && forall i {:trigger levels[i]} :: 0 <= i < |levels| ==> IsLevel(e, levels[i], DoneAfter(e, i))
  }

  ghost predicate IsLevel(e: Edges, level: seq<string>, done: set<string>) {
    level != [] && Sorted(level) && NoDup(level) && Elems(level) == NextLevel(e, done)
  }

  // ------------------------------------------------------------ one round

  lemma InitialCounts(e: Edges, remaining: map<string, int>)
    requires remaining.Keys == e.Keys
    requires forall id :: id in e ==> remaining[id] == |e[id]|
    ensures Progress(e, [], remaining)
  {
  }

  lemma CountsStep(e: Edges, remaining: map<string, int>, remaining': map<string, int>, done: set<string>, id: string)
    requires CountsAfter(e, remaining, done) && id !in done
    requires remaining'.Keys == remaining.Keys - {id}
    requires forall r :: r in remaining' ==> remaining'[r] == remaining[r] - (if id in e[r] then 1 else 0)
    ensures CountsAfter(e, remaining', done + {id})
  {
    forall r | r in remaining' ensures remaining'[r] == Left(e, r, done + {id}) {
      var deps := Elems(e[r]);
      if id in e[r] {
        assert deps * (done + {id}) == deps * done + {id};
      } else {
        assert deps * (done + {id}) == deps * done;
      }
    }
  }

  lemma LevelElement(level: seq<string>, i: nat, keys: set<string>, done: set<string>)
    requires i < |level| && NoDup(level) && Elems(level) <= keys && keys !! done
    ensures level[i] !in done + Elems(level[..i])
    ensures level[i] in keys - Elems(level[..i])
    ensures Elems(level[..i + 1]) == Elems(level[..i]) + {level[i]}
  {
  }

  lemma ZeroLeft(e: Edges, id: string, done: set<string>)
    requires id in e
    ensures Left(e, id, done) >= 0
    ensures Left(e, id, done) == 0 <==> Placeable(e[id], done)
  {
    var deps := Elems(e[id]);
    SubsetCard(deps * done, deps);
    ElemsCard(e[id]);
    if NoDup(e[id]) { NoDupCard(e[id]); }
    if deps <= done { assert deps * done == deps; }
    assert deps <= done <==> forall d :: d in e[id] ==> d in done;
    PlaceableMeans(e[id], done);
  }

  /** On a well-formed graph a round always finds something to place. */
  lemma NextLevelNonEmpty(e: Edges, done: set<string>)
    requires AllResolved(e) && Acyclic(e) && DupFree(e)
    requires done < e.Keys
    ensures NextLevel(e, done) != {}
  {
    if NextLevel(e, done) == {} {
      var s := e.Keys - done;
      forall n {:trigger PointsInto(e, n, s)} | n in s ensures PointsInto(e, n, s) {
        assert n !in NextLevel(e, done);
        PlaceableMeans(e[n], done);
      }
      var x :| x in e.Keys && x !in done;
      StuckSetReachesCycle(e, s, x);
      AcyclicIffNoneCycleBound(e);
    }
  }

  lemma ReadyIsNextLevel(e: Edges, levels: seq<seq<string>>, remaining: map<string, int>, level: seq<string>)
    requires AllResolved(e) && Acyclic(e) && DupFree(e)
    requires Progress(e, levels, remaining) && |remaining| > 0
    requires Elems(level) == set id | id in remaining && remaining[id] == 0
    ensures level != [] && Elems(level) == NextLevel(e, DoneAfter(e, |levels|))
    ensures Elems(level) <= remaining.Keys
  {
    var done := DoneAfter(e, |levels|);
    forall id | id in e ensures Left(e, id, done) == 0 <==> Placeable(e[id], done) {
      ZeroLeft(e, id, done);
    }
    assert Elems(level) == NextLevel(e, done);
    assert remaining.Keys != {};
    NextLevelNonEmpty(e, done);
    assert level == [] ==> Elems(level) == {};
  }

  lemma LevelDone(e: Edges, levels: seq<seq<string>>, before: map<string, int>, remaining: map<string, int>,
                  level: seq<string>)
    requires Progress(e, levels, before) && IsLevel(e, level, DoneAfter(e, |levels|))
    requires Elems(level) <= before.Keys && remaining.Keys == before.Keys - Elems(level)
    requires CountsAfter(e, remaining, DoneAfter(e, |levels|) + Elems(level))
    ensures Progress(e, levels + [level], remaining)
    ensures |remaining| < |before|
  {
    var done := DoneAfter(e, |levels|);
    DoneNext(e, |levels|);
    assert |levels + [level]| == |levels| + 1;
    assert DoneAfter(e, |levels + [level]|) == done + Elems(level);
    KeysShrink(before, remaining, level);
    KeysLeft(e.Keys, done, Elems(level), remaining.Keys);
    LevelsSnoc(e, levels, level);
  }

  lemma LevelsSnoc(e: Edges, levels: seq<seq<string>>, level: seq<string>)
    requires forall i {:trigger levels[i]} :: 0 <= i < |levels| ==> IsLevel(e, levels[i], DoneAfter(e, i))
    requires IsLevel(e, level, DoneAfter(e, |levels|))
    ensures var l := levels + [level];
            forall i {:trigger l[i]} :: 0 <= i < |l| ==> IsLevel(e, l[i], DoneAfter(e, i))
  {
  }

  lemma KeysLeft(keys: set<string>, done: set<string>, level: set<string>, left: set<string>)
    requires left == keys - done - level
    ensures left == keys - (done + level)
  {
  }

  lemma DoneNext(e: Edges, n: nat)
    ensures DoneAfter(e, n + 1) == DoneAfter(e, n) + NextLevel(e, DoneAfter(e, n))
  {
  }

  lemma KeysShrink(before: map<string, int>, remaining: map<string, int>, level: seq<string>)
    requires level != [] && Elems(level) <= before.Keys && remaining.Keys == before.Keys - Elems(level)
    ensures |remaining| < |before|
  {
    assert level[0] in Elems(level);
    DisjointCard(remaining.Keys, Elems(level));
    assert before.Keys == remaining.Keys + Elems(level);
  }

  // ------------------------------------------------------------ levels are longest chains

  lemma DoneMonotone(e: Edges, m: nat, n: nat)
    requires m <= n
    ensures DoneAfter(e, m) <= DoneAfter(e, n)
    decreases n - m
  {
  }

  lemma {:induction false} DepsPlacedBefore(e: Edges, n: nat, id: string, d: string)
    requires id in DoneAfter(e, n) && d in e[id]
    ensures n > 0 && d in DoneAfter(e, n - 1)
  {
    if id in DoneAfter(e, n - 1) {
      DepsPlacedBefore(e, n - 1, id, d);
      DoneMonotone(e, n - 2, n - 1);
    } else {
      assert id in NextLevel(e, DoneAfter(e, n - 1));
      PlaceableMeans(e[id], DoneAfter(e, n - 1));
    }
  }

  lemma {:induction false} ChainsFit(e: Edges, n: nat, p: seq<string>)
    requires IsPath(e, p) && p[0] in DoneAfter(e, n)
    ensures |p| <= n
  {
    if |p| > 1 {
      DepsPlacedBefore(e, n, p[0], p[1]);
      ChainsFit(e, n - 1, p[1..]);
    }
  }

  lemma {:induction false} ChainExists(e: Edges, n: nat, id: string) returns (p: seq<string>)
    requires DupFree(e) && id in NextLevel(e, DoneAfter(e, n))
    ensures IsPath(e, p) && p[0] == id && |p| == n + 1
  {
    if n == 0 {
      p := [id];
    } else {
      var prev := DoneAfter(e, n - 1);
      assert id !in NextLevel(e, prev);
      PlaceableMeans(e[id], prev);
      PlaceableMeans(e[id], DoneAfter(e, n));
      var d :| d in e[id] && d !in prev;
      assert d in DoneAfter(e, n);
      var q := ChainExists(e, n - 1, d);
      p := [id] + q;
    }
  }

  lemma PlacedAtDepth(e: Edges, n: nat, id: string)
    requires DupFree(e) && id in NextLevel(e, DoneAfter(e, n))
    ensures LongestChain(e, id, n)
  {
    var p := ChainExists(e, n, id);
    forall q | IsPath(e, q) && q[0] == id ensures |q| <= n + 1 {
      assert id in DoneAfter(e, n + 1);
      ChainsFit(e, n + 1, q);
    }
  }

  lemma PlacedSomewhere(e: Edges, n: nat, id: string) returns (i: nat)
    requires id in DoneAfter(e, n)
    ensures i < n && id in NextLevel(e, DoneAfter(e, i))
  {
    if id in DoneAfter(e, n - 1) { i := PlacedSomewhere(e, n - 1, id); } else { i := n - 1; }
  }

  lemma AllPlaced(e: Edges, levels: seq<seq<string>>, remaining: map<string, int>)
    requires DupFree(e) && Progress(e, levels, remaining) && remaining.Keys == {}
    ensures IsPartition(e, levels)
  {
    hide Sorted, Before;
    forall i | 0 <= i < |levels| ensures levels[i] != [] && InOrder(levels[i]) {
      assert IsLevel(e, levels[i], DoneAfter(e, i));
      SortedDistinctIff(levels[i]);
    }
    forall id | id in e ensures id in DoneAfter(e, |levels|) {
      assert id !in remaining.Keys;
    }
    forall i, id | 0 <= i < |levels| && id in levels[i] ensures id in e && LongestChain(e, id, i) {
      assert id in Elems(levels[i]);
      PlacedAtDepth(e, i, id);
    }
    forall i, j, id | 0 <= i < j < |levels| && id in levels[i] ensures id !in levels[j] {
      assert id in Elems(levels[i]) && id in DoneAfter(e, i + 1);
      DoneMonotone(e, i + 1, j);
      assert id !in Elems(levels[j]);
    }
    forall id | id in e ensures exists i :: 0 <= i < |levels| && id in levels[i] {
      var i := PlacedSomewhere(e, |levels|, id);
      assert id in Elems(levels[i]);
    }
  }

  // ------------------------------------------------------------ when the rounds end

  lemma {:induction false} NoCyclePlaced(e: Edges, n: nat, c: string)
    requires c in DoneAfter(e, n)
    ensures !ReachesPlus(e, c, c)
  {
    if ReachesPlus(e, c, c) {
      var z := PlusFirstStep(e, c, c);
      DepsPlacedBefore(e, n, c, z);
      forall m, d | m in DoneAfter(e, n - 1) && m in e && d in e[m] ensures d in DoneAfter(e, n - 1) {
        DepsPlacedBefore(e, n - 1, m, d);
        DoneMonotone(e, n - 2, n - 1);
      }
      ClosedHoldsReached(e, DoneAfter(e, n - 1), z, c);
      NoCyclePlaced(e, n - 1, c);
    }
  }

  lemma GrowStep(e: Edges, done: set<string>)
    requires AllResolved(e) && Acyclic(e) && DupFree(e) && done <= e.Keys
    ensures |done| < |e.Keys| ==> |done + NextLevel(e, done)| > |done|
    ensures |done + NextLevel(e, done)| >= |done|
  {
    DisjointCard(done, NextLevel(e, done));
    if |done| < |e.Keys| {
      assert done != e.Keys;
      NextLevelNonEmpty(e, done);
    }
  }

  lemma {:induction false} RoundsGrow(e: Edges, n: nat)
    requires AllResolved(e) && Acyclic(e) && DupFree(e)
    ensures |DoneAfter(e, n)| >= n || |DoneAfter(e, n)| >= |e.Keys|
  {
    hide NextLevel;
    if n > 0 {
      RoundsGrow(e, n - 1);
      GrowStep(e, DoneAfter(e, n - 1));
    }
  }

  /** The rounds place every claim exactly when all dependencies resolve, none is listed
      twice by one claim, and there is no cycle; otherwise they go on forever. */
  lemma PartitionEndsIff(e: Edges)
    ensures (exists n: nat :: DoneAfter(e, n) == e.Keys) <==> AllResolved(e) && Acyclic(e) && DupFree(e)
  {
    if AllResolved(e) && Acyclic(e) && DupFree(e) {
      RoundsGrow(e, |e|);
      SubsetCard(DoneAfter(e, |e|), e.Keys);
    }
    if n: nat :| DoneAfter(e, n) == e.Keys {
      forall id | id in e ensures NoDup(e[id]) && Elems(e[id]) <= e.Keys && !ReachesPlus(e, id, id) {
        var i := PlacedSomewhere(e, n, id);
        PlaceableMeans(e[id], DoneAfter(e, i));
        NoCyclePlaced(e, n, id);
      }
      forall id, d | id in e && d in e[id] ensures d in e {
        assert d in Elems(e[id]);
      }
    }
  }

  /** A graph that validation accepts and on which the rounds never place every claim: one claim
      lists the same dependency twice. */
  lemma RepeatedDependencyNeverEnds()
    ensures var e: Edges := map["a" := ["b", "b"], "b" := []];
            AllResolved(e) && Acyclic(e) && forall n: nat :: DoneAfter(e, n) != e.Keys
  {
    var e: Edges := map["a" := ["b", "b"], "b" := []];
    var order := ["b", "a"];
    assert order[..1] == ["b"] && order[0] == "b";
    assert Elems(order) == e.Keys;
    TopoOrderImpliesValid(e, order);
    assert e["a"][0] == e["a"][1];
    PartitionEndsIff(e);
  }

  /** Every dependency of a claim lies in an earlier level, so the claims of one level do not depend on
      each other. */
  lemma DependenciesComeEarlier(e: Edges, levels: seq<seq<string>>, j: nat, id: string, d: string)
    requires AllResolved(e) && IsPartition(e, levels) && j < |levels| && id in levels[j] && d in e[id]
    ensures exists i :: 0 <= i < j && d in levels[i]
  {
    hide InOrder;
    assert id in e && LongestChain(e, id, j) && d in e;
    var i :| 0 <= i < |levels| && d in levels[i];
    assert LongestChain(e, d, i);
    var p :| IsPath(e, p) && p[0] == d && |p| == i + 1;
    assert IsPath(e, [id] + p) && ([id] + p)[0] == id;
  }
}
