/**
 Several evidence runs of one check: how their outputs merge, and what the merged
 output is decided as.
 */
module Merge {
  import opened Ir
  import opened Graph
  import opened StatusProjection
  import opened Protocol

  /** How a checker process ended when it did not exit cleanly. */
  datatype Fault = CheckerFail | Unavailable | ProtocolFault | OtherFault

  /** A clean exit with an output that parses or does not, or a fault. */
  datatype RunResult = Ran(out: Option<CheckerOutput>) | Faulted(fault: Fault)

  datatype Decision = Decided(outcome: Status, results: seq<ObligationResult>, toolchain: map<string, string>) | Errored

  predicate Parsed(r: RunResult) {
    r.Ran? && r.out.Some?
  }

  ghost predicate AllParsed(runs: seq<RunResult>) {
    forall i {:trigger runs[i]} :: 0 <= i < |runs| ==> Parsed(runs[i])
  }

  ghost function Outputs(runs: seq<RunResult>): seq<CheckerOutput>
    requires AllParsed(runs)
  {
    seq(|runs|, i requires 0 <= i < |runs| => runs[i].out.value)
  }

  /** The failing verdicts of one run, in order. */
  ghost function Fails(results: seq<ObligationResult>): (f: seq<ObligationResult>)
  {
    if results == [] then []
    else
      var init, last := results[..|results| - 1], results[|results| - 1];
      Fails(init) + if last.verdict == FAIL then [last] else []
  }

  /** The first output plus, from every later one, its toolchain entries and failing verdicts. */
  ghost function Merged(outs: seq<CheckerOutput>): CheckerOutput
    requires outs != []
  {
    if |outs| == 1 then outs[0]
    else
      var m, out := Merged(outs[..|outs| - 1]), outs[|outs| - 1];
      m.(results := m.results + Fails(out.results), toolchain := m.toolchain + out.toolchain)
  }

  /** One run is passed through; of several, any fault or unparsable output spoils all. */
  ghost function MergeAll(runs: seq<RunResult>): RunResult
    requires runs != []
  {
    if |runs| == 1 then runs[0]
    else if AllParsed(runs) then Ran(Some(Merged(Outputs(runs))))
    else Faulted(OtherFault)
  }

  method AppendFails(results: seq<ObligationResult>, more: seq<ObligationResult>) returns (all: seq<ObligationResult>)
    ensures all == results + Fails(more)
  {
    all := results;
    for i := 0 to |more|
      invariant all == results + Fails(more[..i])
    {
      assert more[..i + 1][..i] == more[..i];
      if more[i].verdict == FAIL { all := all + [more[i]]; }
    }
    assert more[..|more|] == more;
  }

  ghost function Runs(n: nat, run: nat -> RunResult): (runs: seq<RunResult>)
    ensures |runs| == n && forall i {:trigger runs[i]} :: 0 <= i < n ==> runs[i] == run(i)
  {
    seq(n, i requires 0 <= i < n => run(i))
  }

  /** Runs the checker on each piece of evidence and merges as it goes.  `run` stands for
      one invocation of the checker on the piece of evidence with that index. */
  method RunAllEvidence(n: nat, run: nat -> RunResult) returns (r: RunResult)
    requires n > 1
    ensures r == MergeAll(Runs(n, run))
  {
    var merged: Option<CheckerOutput> := None;
    var failed := false;
    ghost var outs: seq<CheckerOutput> := [];
    for i := 0 to n
      invariant failed <==> exists k :: 0 <= k < i && !Parsed(run(k))
      invariant !failed ==> |outs| == i && forall k :: 0 <= k < i ==> run(k) == Ran(Some(outs[k]))
      invariant !failed ==> merged == if i == 0 then None else Some(Merged(outs))
    {
      var one := run(i);
      if !Parsed(one) {
        failed := true;
        continue;
      }
      var out := one.out.value;
      assert (outs + [out])[..|outs|] == outs;
      outs := outs + [out];
      if merged.None? {
        merged := Some(out);
      } else {
        var all := AppendFails(merged.value.results, out.results);
        merged := Some(merged.value.(results := all, toolchain := merged.value.toolchain + out.toolchain));
      }
    }
    ghost var runs := Runs(n, run);
    if failed {
      ghost var k :| 0 <= k < n && !Parsed(run(k));
      assert !Parsed(runs[k]);
      return Faulted(OtherFault);
    }
    assert outs == Outputs(runs);
    return Ran(merged);
  }

  /** What a (merged) run is decided as: exit code 1 is a rejection, any other fault, an
      unparsable or an invalid output is an error, and verdicts decide the rest. */
  ghost function Decide(r: RunResult, claimId: string, expected: Option<seq<string>>): Decision {
    match r
    case Faulted(CheckerFail) => Decided(Rejected, [], map[])
    case Faulted(_) => Errored
    case Ran(None) => Errored
    case Ran(Some(out)) =>
      if !ValidOutput(out, claimId, expected) then Errored
      else Decided(if AllPassing(out.results) then Accepted else Rejected, out.results, out.toolchain)
  }

  /** A decision accepts exactly when it carries passing verdicts. */
  lemma DecisionCoherent(r: RunResult, claimId: string, expected: Option<seq<string>>)
    requires Decide(r, claimId, expected).Decided?
    ensures var d := Decide(r, claimId, expected);
            d.outcome in {Accepted, Rejected} && (d.outcome == Accepted <==> AllPassing(d.results))
  {
  }

  /** One run judged under another contract: the decision stays what it was exactly if there is no
      contract to meet, the checker rejected by its exit code, or the verdicts answer the contract
      exactly; otherwise it turns into an error. */
  lemma RejudgedIff(r: RunResult, claimId: string, before: Option<seq<string>>, now: Option<seq<string>>)
    requires Decide(r, claimId, before).Decided?
    ensures var d := Decide(r, claimId, before);
            Decide(r, claimId, now) ==
            if now.None? || r == Faulted(CheckerFail) || ExactSet(d.results, now.value) then d else Errored
    ensures r == Faulted(CheckerFail) ==> Decide(r, claimId, before).results == []
  {
  }

  ghost predicate Accepts(d: Decision) {
    d.Decided? && d.outcome == Accepted
  }

  ghost predicate Rejects(d: Decision) {
    d.Decided? && d.outcome == Rejected
  }

  /** When one run is accepted, rejected, or neither, from what the checker returned. */
  lemma DecideIff(r: RunResult, claimId: string, expected: Option<seq<string>>)
    ensures var d := Decide(r, claimId, expected);
            var sound := && r.Ran? && r.out.Some?
                         && r.out.value.protocolVersion == 2 && r.out.value.claimId == claimId
                         && (expected.Some? ==> ExactSet(r.out.value.results, expected.value));
            && (Accepts(d) <==>
                && sound && |r.out.value.results| > 0
                && forall i :: 0 <= i < |r.out.value.results| ==> r.out.value.results[i].verdict == "pass")
            && (Rejects(d) <==>
                || r == Faulted(CheckerFail)
                || (&& sound
                    && (forall i :: 0 <= i < |r.out.value.results| ==>
                          r.out.value.results[i].verdict == "pass" || r.out.value.results[i].verdict == "fail")
                    && (|r.out.value.results| == 0
                        || exists i :: 0 <= i < |r.out.value.results| && r.out.value.results[i].verdict == "fail")))
            && (d.Errored? <==> !Accepts(d) && !Rejects(d))
            && (d.Decided? && r.Ran? ==> d.results == r.out.value.results && d.toolchain == r.out.value.toolchain)
  {
    hide ExactSet;
  }

  // ------------------------------------------------------------ what the merge decides

  ghost predicate HasFail(results: seq<ObligationResult>) {
    exists i :: 0 <= i < |results| && results[i].verdict == FAIL
  }

  lemma {:induction false} FailsMembers(results: seq<ObligationResult>)
    ensures forall r :: r in Fails(results) <==> r in results && r.verdict == FAIL
    ensures Fails(results) == [] <==> !HasFail(results)
  {
    if results != [] {
      var init, last := results[..|results| - 1], results[|results| - 1];
      assert results == init + [last];
      FailsMembers(init);
      if HasFail(results) && !HasFail(init) {
        assert last.verdict == FAIL;
      }
    }
  }

  /** One more verdict is taken if it fails, and then goes last. */
  lemma FailsSnoc(results: seq<ObligationResult>, r: ObligationResult)
    ensures Fails(results + [r]) == Fails(results) + if r.verdict == "fail" then [r] else []
  {
    assert (results + [r])[..|results|] == results;
  }

  /** Failing verdicts keep their order. */
  lemma {:induction false} FailsInOrder(a: seq<ObligationResult>, b: seq<ObligationResult>)
    ensures Fails(a + b) == Fails(a) + Fails(b)
  {
    if b == [] {
      assert a + b == a;
    } else {
      var init, last := b[..|b| - 1], b[|b| - 1];
      var one := if last.verdict == "fail" then [last] else [];
      hide Fails;
      calc {
        Fails(a + b);
        { assert a + b == (a + init) + [last]; }
        Fails((a + init) + [last]);
        { FailsSnoc(a + init, last); }
        Fails(a + init) + one;
        { FailsInOrder(a, init); }
        Fails(a) + Fails(init) + one;
        Fails(a) + (Fails(init) + one);
        { FailsSnoc(init, last); assert init + [last] == b; }
        Fails(a) + Fails(b);
      }
    }
  }

  ghost predicate LaterFail(outs: seq<CheckerOutput>) {
    exists i :: 0 < i < |outs| && HasFail(outs[i].results)
  }

  /** `more` are failing verdicts, each reported by some output after the first. */
  ghost predicate FromLater(outs: seq<CheckerOutput>, more: seq<ObligationResult>) {
    forall r :: r in more ==> r.verdict == FAIL && exists i :: 0 < i < |outs| && r in outs[i].results
  }

  /** The merge keeps the head and the verdicts of the first output, and adds something after
      them exactly when a later output reports a failure. */
  lemma {:induction false} MergedShape(outs: seq<CheckerOutput>) returns (more: seq<ObligationResult>)
    requires outs != []
    ensures Merged(outs).protocolVersion == outs[0].protocolVersion && Merged(outs).claimId == outs[0].claimId
    ensures Merged(outs).results == outs[0].results + more
    ensures FromLater(outs, more) && (more != [] <==> LaterFail(outs))
  {
    more := [];
    if |outs| > 1 {
      var n := |outs| - 1;
      var init := outs[..n];
      var before := MergedShape(init);
      FailsMembers(outs[n].results);
      more := before + Fails(outs[n].results);
      assert outs == init + [outs[n]];
      forall r | r in more ensures r.verdict == FAIL && exists i :: 0 < i < |outs| && r in outs[i].results {
        if r in before {
          var i :| 0 < i < n && r in init[i].results;
          assert r in outs[i].results;
        } else {
          assert r in outs[n].results;
        }
      }
      LaterFailSnoc(init, outs[n]);
    }
  }

  /** The merged toolchain has an entry for every tool some run reported, as last reported. */
  lemma {:induction false} MergedToolchain(outs: seq<CheckerOutput>, k: string)
    requires outs != []
    ensures k in Merged(outs).toolchain <==> exists i :: 0 <= i < |outs| && k in outs[i].toolchain
    ensures forall i ::
              0 <= i < |outs| && k in outs[i].toolchain && (forall j :: i < j < |outs| ==> k !in outs[j].toolchain)
              ==> k in Merged(outs).toolchain && Merged(outs).toolchain[k] == outs[i].toolchain[k]
  {
    if |outs| > 1 {
      var n := |outs| - 1;
      var init := outs[..n];
      assert forall i :: 0 <= i < n ==> init[i] == outs[i];
      MergedToolchain(init, k);
      if i :| 0 <= i < |outs| && k in outs[i].toolchain && i < n {
        assert k in init[i].toolchain;
      }
    }
  }

  lemma LaterFailSnoc(init: seq<CheckerOutput>, last: CheckerOutput)
    requires init != []
    ensures LaterFail(init + [last]) <==> LaterFail(init) || HasFail(last.results)
  {
    var outs := init + [last];
    assert outs[|init|] == last;
    if i :| 0 < i < |init| && HasFail(init[i].results) {
      assert HasFail(outs[i].results);
    }
  }

  /** Acceptance of several runs, with no assumption on what they returned: the first output
      is valid and passes everything, and no later run reports a failure. */
  lemma MultiAcceptedIff(runs: seq<RunResult>, claimId: string, expected: Option<seq<string>>)
    requires |runs| > 1
    ensures Accepts(Decide(MergeAll(runs), claimId, expected)) <==>
            && AllParsed(runs)
            && ValidOutput(Outputs(runs)[0], claimId, expected)
            && AllPassing(Outputs(runs)[0].results)
            && !LaterFail(Outputs(runs))
  {
    if AllParsed(runs) {
      var outs := Outputs(runs);
      var more := MergedShape(outs);
      if LaterFail(outs) {
        FailSpoils(outs[0].results, more);
      } else {
        assert outs[0].results + [] == outs[0].results;
      }
    }
  }

  lemma FailSpoils(first: seq<ObligationResult>, more: seq<ObligationResult>)
    requires more != [] && forall r :: r in more ==> r.verdict == FAIL
    ensures !AllPassing(first + more)
  {
    assert more[0] in more;
    assert (first + more)[|first|] == more[0];
  }

  /** Clean exits with these outputs. */
  ghost function Clean(outs: seq<CheckerOutput>): (runs: seq<RunResult>)
    ensures |runs| == |outs| && AllParsed(runs) && Outputs(runs) == outs
  {
    seq(|outs|, i requires 0 <= i < |outs| => Ran(Some(outs[i])))
  }

  ghost predicate AllExact(outs: seq<CheckerOutput>, claimId: string, expected: seq<string>) {
    forall i {:trigger outs[i]} :: 0 <= i < |outs| ==> ValidOutput(outs[i], claimId, Some(expected))
  }

  /** With every output exact: acceptance iff every run passes everything; a failure only in the
      first run is a rejection; a failure in a later run repeats an obligation, which is an error. */
  lemma ExactRunsDecided(outs: seq<CheckerOutput>, claimId: string, expected: seq<string>)
    requires |outs| > 1 && expected != [] && AllExact(outs, claimId, expected)
    ensures var d := Decide(MergeAll(Clean(outs)), claimId, Some(expected));
            && (Accepts(d) <==> forall i :: 0 <= i < |outs| ==> AllPassing(outs[i].results))
            && (Rejects(d) <==> HasFail(outs[0].results) && !LaterFail(outs))
            && (d.Errored? <==> LaterFail(outs))
  {
    var more := MergedShape(outs);
    MultiAcceptedIff(Clean(outs), claimId, Some(expected));
    forall i | 0 <= i < |outs| ensures AllPassing(outs[i].results) <==> !HasFail(outs[i].results) {
      ExactPassOrFail(outs[i].results, expected);
    }
    if LaterFail(outs) {
      assert more[0] in more;
      var i :| 0 < i < |outs| && more[0] in outs[i].results;
      RepeatsObligation(outs[0].results, outs[i].results, more, expected);
    } else {
      assert outs[0].results + [] == outs[0].results;
    }
  }

  lemma ExactPassOrFail(results: seq<ObligationResult>, expected: seq<string>)
    requires expected != [] && ExactSet(results, expected) && LegalVerdicts(results)
    ensures AllPassing(results) <==> !HasFail(results)
  {
    assert expected[0] in Elems(Ids(results));
    assert results != [];
  }

  lemma RepeatsObligation(first: seq<ObligationResult>, later: seq<ObligationResult>, more: seq<ObligationResult>,
                          expected: seq<string>)
    requires ExactSet(first, expected) && ExactSet(later, expected)
    requires more != [] && more[0] in later
    ensures !ExactSet(first + more, expected)
  {
    var j :| 0 <= j < |later| && later[j] == more[0];
    assert Ids(later)[j] == more[0].id;
    assert more[0].id in Elems(Ids(later));
    assert more[0].id in Elems(Ids(first));
    var i :| 0 <= i < |first| && Ids(first)[i] == more[0].id;
    var ids := Ids(first + more);
    assert ids[i] == ids[|first|];
  }

  /** Acceptance does not depend on the order of the evidence. */
  lemma AcceptanceOrderFree(outs: seq<CheckerOutput>, outs': seq<CheckerOutput>, claimId: string, expected: seq<string>)
    requires |outs| > 1 && expected != [] && AllExact(outs, claimId, expected)
    requires multiset(outs) == multiset(outs')
    ensures |outs'| == |outs|
    ensures Accepts(Decide(MergeAll(Clean(outs)), claimId, Some(expected)))
            <==> Accepts(Decide(MergeAll(Clean(outs')), claimId, Some(expected)))
  {
    hide Decide, MergeAll, ValidOutput, AllPassing, Accepts, Clean, LaterFail, HasFail;
    assert |multiset(outs)| == |outs| && |multiset(outs')| == |outs'|;
    SameMembers(outs, outs');
    forall i | 0 <= i < |outs'| ensures ValidOutput(outs'[i], claimId, Some(expected)) {
      assert outs'[i] in outs;
    }
    ExactRunsDecided(outs, claimId, expected);
    ExactRunsDecided(outs', claimId, expected);
    if forall i :: 0 <= i < |outs| ==> AllPassing(outs[i].results) {
      forall i | 0 <= i < |outs'| ensures AllPassing(outs'[i].results) { assert outs'[i] in outs; }
    }
    if forall i :: 0 <= i < |outs'| ==> AllPassing(outs'[i].results) {
      forall i | 0 <= i < |outs| ensures AllPassing(outs[i].results) { assert outs[i] in outs'; }
    }
  }

  lemma SameMembers(outs: seq<CheckerOutput>, outs': seq<CheckerOutput>)
    requires multiset(outs) == multiset(outs')
    ensures forall o :: o in outs <==> o in outs'
  {
    assert forall o :: o in outs <==> o in multiset(outs);
    assert forall o :: o in outs' <==> o in multiset(outs');
  }

  /** One run that faults or cannot be parsed makes the whole check an error, whatever the rest says. */
  lemma SpoiltRunErrs(runs: seq<RunResult>, i: nat, claimId: string, expected: Option<seq<string>>)
    requires |runs| > 1 && i < |runs| && !Parsed(runs[i])
    ensures Decide(MergeAll(runs), claimId, expected).Errored?
  {
  }

  /** Two exact outputs of which one fails: a rejection in one order, an error in the other. */
  lemma OrderDecidesRejection(claimId: string)
    ensures var failing := CheckerOutput(VERSION, claimId, [ObligationResult("o", FAIL, "")], map[]);
            var passing := CheckerOutput(VERSION, claimId, [ObligationResult("o", PASS, "")], map[]);
            && AllExact([failing, passing], claimId, ["o"])
            && Rejects(Decide(MergeAll(Clean([failing, passing])), claimId, Some(["o"])))
            && Decide(MergeAll(Clean([passing, failing])), claimId, Some(["o"])).Errored?
  {
    hide Decide, MergeAll, Clean;
    var failing := CheckerOutput(VERSION, claimId, [ObligationResult("o", FAIL, "")], map[]);
    var passing := CheckerOutput(VERSION, claimId, [ObligationResult("o", PASS, "")], map[]);
    assert Ids(failing.results) == ["o"] && Ids(passing.results) == ["o"];
    assert failing.results[0].verdict == FAIL && HasFail(failing.results);
    ExactRunsDecided([failing, passing], claimId, ["o"]);
    assert [passing, failing][1] == failing;
    ExactRunsDecided([passing, failing], claimId, ["o"]);
  }
}
