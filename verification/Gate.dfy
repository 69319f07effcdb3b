/**
 The release gate: one shared check, its dry run, and the release that records it.
 Attempts to write files are given their outcome as a parameter.
 */
module Gate {
  import opened Ir
  import opened Graph
  import opened Dag
  import opened StatusProjection
  import opened Policy
  import opened Conditions

  datatype Blocker = LegacyAttestation(claim: string)
                   | NotAccepted(claim: string, status: Status)
                   | PolicyFailure(why: PolicyBlocker)
                   | ConditionFailure(result: ConditionResult)

  datatype CheckResult = CheckResult(
    pass: bool,
    blockers: seq<Blocker>,
    statuses: map<string, Status>,
    defects: map<string, string>,
    conditions: seq<ConditionResult>)

  datatype ClaimSummary = ClaimSummary(accepted: nat, blocked: nat, open: nat, rejected: nat)

  datatype ReleaseStatus = ReleaseStatus(released: bool, target: string, summary: ClaimSummary, blockers: seq<Blocker>)

  /** Which of the files a release writes can be written. */
  datatype Writes = Writes(status: bool, snapshot: bool, manifest: bool)

  /** Everything a release needs. */
  ghost predicate GatePasses(claims: map<string, Claim>, atts: Attestations, pol: ReleasePolicy, trust: Trust) {
    && (forall c :: c in atts ==> IsV2(atts[c]))
    && (forall c :: c in claims ==> c in atts && AllPassing(atts[c].obligationResults))
    && (forall c :: c in pol.requiredClaims ==> RequiredClaimMet(claims.Keys, atts, c))
    && (forall id :: id in Active(pol) ==> Holds(id, claims, atts, pol, trust))
  }

  /** Some attestation of an earlier protocol, if there is one. */
  method FindLegacy(atts: Attestations) returns (r: Option<string>)
    ensures r.None? <==> forall c :: c in atts ==> IsV2(atts[c])
    ensures r.Some? ==> r.value in atts && !IsV2(atts[r.value])
  {
    var todo := atts.Keys;
    while todo != {}
      invariant todo <= atts.Keys && forall c :: c in atts && c !in todo ==> IsV2(atts[c])
    {
      var c :| c in todo;
      todo := todo - {c};
      if atts[c].checker.protocolVersion != 2 { return Some(c); }
    }
    return None;
  }

  /** The blocker names a claim and its status, which is not accepted. */
  ghost predicate StatusBlocks(b: Blocker, statuses: map<string, Status>) {
    b.NotAccepted? && b.claim in statuses && statuses[b.claim] == b.status && b.status != Accepted
  }

  method StatusBlockers(statuses: map<string, Status>) returns (blockers: seq<Blocker>)
    ensures forall b :: b in blockers <==> StatusBlocks(b, statuses)
    ensures blockers == [] <==> forall c :: c in statuses ==> statuses[c] == Accepted
  {
    blockers := [];
    var todo := statuses.Keys;
    while todo != {}
      invariant todo <= statuses.Keys
      invariant forall b :: b in blockers <==> StatusBlocks(b, statuses) && b.claim !in todo
    {
      var c :| c in todo;
      todo := todo - {c};
      if statuses[c] != Accepted { blockers := blockers + [NotAccepted(c, statuses[c])]; }
    }
    forall c | c in statuses ensures statuses[c] == Accepted <==> NotAccepted(c, statuses[c]) !in blockers {
    }
    if blockers != [] { assert blockers[0] in blockers; }
  }

  method Defects(atts: Attestations) returns (defects: map<string, string>)
    ensures defects == map c | c in atts && atts[c].blockReason != "" :: atts[c].blockReason
  {
    defects := map[];
    var todo := atts.Keys;
    while todo != {}
      invariant todo <= atts.Keys
      invariant defects == map c | c in atts && c !in todo && atts[c].blockReason != "" :: atts[c].blockReason
    {
      var c :| c in todo;
      todo := todo - {c};
      if atts[c].blockReason != "" { defects := defects[c := atts[c].blockReason]; }
    }
  }

  /** Under protocol 2 a claim's status is accepted exactly when it is attested with passing verdicts. */
  lemma AcceptedMeansPassing(e: Edges, atts: Attestations, id: string)
    requires forall c :: c in atts ==> IsV2(atts[c])
    ensures StatusOf(e, atts, id) == Accepted <==> id in atts && AllPassing(atts[id].obligationResults)
    ensures HasCounter(StatusOf(e, atts, id))
  {
  }

  /** What a blocker of a protocol 2 check says: a claim's status is not accepted, a required
      claim fails, or an activated condition does, with everything it has to list. */
  ghost predicate Explains(b: Blocker, e: Edges, claims: map<string, Claim>, atts: Attestations, pol: ReleasePolicy,
                           trust: Trust)
  {
    match b
    case LegacyAttestation(_) => false
    case NotAccepted(c, status) => c in claims && status == StatusOf(e, atts, c) && status != Accepted
    case PolicyFailure(why) => Blocks(why, claims.Keys, atts, pol)
    case ConditionFailure(r) =>
      r.id in Active(pol) && r == ResultOf(r.id, claims, atts, pol, trust) && !r.passed
  }

  /** The blockers a check must come up with: one earlier-protocol attestation if there is any,
      otherwise everything that explains a failure and nothing else. */
  ghost predicate RightBlockers(blockers: seq<Blocker>, e: Edges, claims: map<string, Claim>, atts: Attestations,
                                pol: ReleasePolicy, trust: Trust)
  {
    if forall c :: c in atts ==> IsV2(atts[c]) then
      forall b :: b in blockers <==> Explains(b, e, claims, atts, pol, trust)
    else
      exists c :: c in atts && !IsV2(atts[c]) && blockers == [LegacyAttestation(c)]
  }

  /** The blockers decide: there are none exactly when the gate's demands are met. */
  lemma NoBlockersIffPasses(blockers: seq<Blocker>, e: Edges, claims: map<string, Claim>, atts: Attestations,
                            pol: ReleasePolicy, trust: Trust)
    requires RightBlockers(blockers, e, claims, atts, pol, trust)
    ensures blockers == [] <==> GatePasses(claims, atts, pol, trust)
  {
    hide Holds, Active, Offences, AllPassing;
    if forall c :: c in atts ==> IsV2(atts[c]) {
      if blockers == [] {
        forall c | c in claims ensures c in atts && AllPassing(atts[c].obligationResults) {
          AcceptedMeansPassing(e, atts, c);
          assert !Explains(NotAccepted(c, StatusOf(e, atts, c)), e, claims, atts, pol, trust);
        }
        forall c | c in pol.requiredClaims ensures RequiredClaimMet(claims.Keys, atts, c) {
          assert !Explains(PolicyFailure(NoAttestation(c)), e, claims, atts, pol, trust);
          assert !Explains(PolicyFailure(NotInGraph(c)), e, claims, atts, pol, trust);
          if c in atts {
            assert !Explains(PolicyFailure(WrongOutcome(c, atts[c].outcome)), e, claims, atts, pol, trust);
          }
        }
        forall id | id in Active(pol) ensures Holds(id, claims, atts, pol, trust) {
          assert !Explains(ConditionFailure(ResultOf(id, claims, atts, pol, trust)), e, claims, atts, pol, trust);
        }
      } else if GatePasses(claims, atts, pol, trust) {
        assert Explains(blockers[0], e, claims, atts, pol, trust);
        if blockers[0].NotAccepted? { AcceptedMeansPassing(e, atts, blockers[0].claim); }
      }
    }
  }

  method GateCheck(graph: DAG, atts: Attestations, pol: ReleasePolicy, trust: Trust) returns (r: CheckResult)
    requires graph.Valid()
    ensures r.pass <==> r.blockers == []
    ensures r.pass <==> GatePasses(graph.claims, atts, pol, trust)
    ensures RightBlockers(r.blockers, graph.Deps(), graph.claims, atts, pol, trust)
    ensures (exists c :: c in atts && !IsV2(atts[c])) ==>
              r.statuses == map[] && r.conditions == [] && r.defects == map[]
    ensures (forall c :: c in atts ==> IsV2(atts[c])) ==>
              && r.statuses == (map c | c in graph.claims :: StatusOf(graph.Deps(), atts, c))
              && Judged(r.conditions, Active(pol), graph.claims, atts, pol, trust)
              && r.defects == (map c | c in atts && atts[c].blockReason != "" :: atts[c].blockReason)
  {
    hide StatusOf, Judged, Active, Holds, AllPassing, RequiredClaimMet, Explains, ValidClaimId, NoDup, IsV2;
    var legacy := FindLegacy(atts);
    if legacy.Some? { return CheckResult(false, [LegacyAttestation(legacy.value)], map[], map[], []); }
    r := ScanAll(graph, atts, pol, trust);
  }

  /** The check proper: statuses, required claims and conditions are all scanned, whatever fails. */
  method ScanAll(graph: DAG, atts: Attestations, pol: ReleasePolicy, trust: Trust) returns (r: CheckResult)
    requires graph.Valid() && forall c :: c in atts ==> IsV2(atts[c])
    ensures r.pass <==> r.blockers == []
    ensures r.pass <==> GatePasses(graph.claims, atts, pol, trust)
    ensures RightBlockers(r.blockers, graph.Deps(), graph.claims, atts, pol, trust)
    ensures r.statuses == (map c | c in graph.claims :: StatusOf(graph.Deps(), atts, c))
    ensures Judged(r.conditions, Active(pol), graph.claims, atts, pol, trust)
    ensures r.defects == (map c | c in atts && atts[c].blockReason != "" :: atts[c].blockReason)
  {
    hide Holds, StatusOf, AllPassing, Judged, Active, RequiredClaimMet, ValidClaimId, NoDup, GatePasses;
    hide Blocks, StatusBlocks, Explains, Gather, Offences, IsV2;
    var statuses := Compute(graph, atts);
    assert statuses == map c | c in graph.claims :: StatusOf(graph.Deps(), atts, c);
    var blockers := StatusBlockers(statuses);
    var pass, policyBlockers := Evaluate(graph, atts, pol);
    var defects := Defects(atts);
    var results := EvaluateConditions(graph, atts, pol, trust);
    var failed := Blockers(results);
    var all := Gather(blockers, if pass then [] else policyBlockers, failed);
    ghost var e := graph.Deps();
    GatheredExplain(all, blockers, policyBlockers, failed, e, statuses, results, graph.claims, atts, pol, trust);
    NoBlockersIffPasses(all, e, graph.claims, atts, pol, trust);
    r := CheckResult(|all| == 0, all, statuses, defects, results);
  }

  /** What the three scans collect is what explains the failure. */
  lemma GatheredExplain(all: seq<Blocker>, first: seq<Blocker>, policy: seq<PolicyBlocker>,
                        failed: seq<ConditionResult>, e: Edges, statuses: map<string, Status>,
                        results: seq<ConditionResult>, claims: map<string, Claim>, atts: Attestations,
                        pol: ReleasePolicy, trust: Trust)
    requires all == Gather(first, policy, failed)
    requires statuses == map c | c in claims :: StatusOf(e, atts, c)
    requires forall b :: b in first <==> StatusBlocks(b, statuses)
    requires forall b :: b in policy <==> Blocks(b, claims.Keys, atts, pol)
    requires forall c :: c in failed <==> c in results && !c.passed
    requires Judged(results, Active(pol), claims, atts, pol, trust)
    ensures forall b :: b in all <==> Explains(b, e, claims, atts, pol, trust)
  {
    hide Blocks, Gather, StatusOf, Judged, Active, ResultOf;
    forall r: ConditionResult | r.id in Active(pol) || r in results
      ensures r in results <==> r.id in Active(pol) && r == ResultOf(r.id, claims, atts, pol, trust)
    {
      JudgedMember(results, Active(pol), claims, atts, pol, trust, r);
    }
  }

  lemma JudgedMember(results: seq<ConditionResult>, ids: seq<ConditionId>, claims: map<string, Claim>,
                     atts: Attestations, pol: ReleasePolicy, trust: Trust, r: ConditionResult)
    requires Judged(results, ids, claims, atts, pol, trust)
    ensures r in results <==> r.id in ids && r == ResultOf(r.id, claims, atts, pol, trust)
  {
    hide Holds, Offences;
    if r.id in ids && r == ResultOf(r.id, claims, atts, pol, trust) {
      var i :| 0 <= i < |ids| && ids[i] == r.id;
      assert results[i] == r;
    }
  }

  function Gather(first: seq<Blocker>, policy: seq<PolicyBlocker>, failed: seq<ConditionResult>): (all: seq<Blocker>)
    ensures all == [] <==> first == [] && policy == [] && failed == []
    ensures forall b :: b in all <==>
              b in first || (b.PolicyFailure? && b.why in policy) || (b.ConditionFailure? && b.result in failed)
  {
    var ps := seq(|policy|, i requires 0 <= i < |policy| => PolicyFailure(policy[i]));
    var cs := seq(|failed|, i requires 0 <= i < |failed| => ConditionFailure(failed[i]));
    assert forall i :: 0 <= i < |policy| ==> ps[i] == PolicyFailure(policy[i]);
    assert forall i :: 0 <= i < |failed| ==> cs[i] == ConditionFailure(failed[i]);
    first + ps + cs
  }

  // ------------------------------------------------------------ summary

  ghost function Having(statuses: map<string, Status>, s: Status): set<string> {
    set c | c in statuses && statuses[c] == s
  }

  ghost function SummaryOf(statuses: map<string, Status>): ClaimSummary {
    ClaimSummary(|Having(statuses, Accepted)|, |Having(statuses, Blocked)|,
                 |Having(statuses, Open)|, |Having(statuses, Rejected)|)
  }

  /** Each counter counts the claims of its own status. */
  lemma SummaryIff(statuses: map<string, Status>)
    ensures var s := SummaryOf(statuses);
            && s.accepted == |set c | c in statuses && statuses[c] == Accepted|
            && s.blocked == |set c | c in statuses && statuses[c] == Blocked|
            && s.open == |set c | c in statuses && statuses[c] == Open|
            && s.rejected == |set c | c in statuses && statuses[c] == Rejected|
  {
    forall s ensures Having(statuses, s) == set c | c in statuses && statuses[c] == s {
    }
  }

  ghost function Total(s: ClaimSummary): nat {
    s.accepted + s.blocked + s.open + s.rejected
  }

  method BuildClaimSummary(statuses: map<string, Status>) returns (s: ClaimSummary)
    ensures s == SummaryOf(statuses)
  {
    s := ClaimSummary(0, 0, 0, 0);
    var todo := statuses.Keys;
    ghost var seen: map<string, Status> := map[];
    while todo != {}
      invariant todo <= statuses.Keys && seen == map c | c in statuses && c !in todo :: statuses[c]
      invariant s == SummaryOf(seen)
    {
      var c :| c in todo;
      todo := todo - {c};
      var st := statuses[c];
      CountOneMore(seen, c, st, Accepted);
      CountOneMore(seen, c, st, Blocked);
      CountOneMore(seen, c, st, Open);
      CountOneMore(seen, c, st, Rejected);
      seen := seen[c := st];
      match st {
        case Accepted => s := s.(accepted := s.accepted + 1);
        case Blocked => s := s.(blocked := s.blocked + 1);
        case Open => s := s.(open := s.open + 1);
        case Rejected => s := s.(rejected := s.rejected + 1);
        case _ =>
      }
    }
    assert seen == statuses;
  }

  lemma CountOneMore(seen: map<string, Status>, c: string, st: Status, s: Status)
    requires c !in seen
    ensures |Having(seen[c := st], s)| == |Having(seen, s)| + if s == st then 1 else 0
  {
    assert Having(seen[c := st], s) == Having(seen, s) + if s == st then {c} else {};
  }

  /** The claims whose status has a counter. */
  ghost function Counted(statuses: map<string, Status>): set<string> {
    set c | c in statuses && HasCounter(statuses[c])
  }

  predicate HasCounter(s: Status) {
    s == Accepted || s == Blocked || s == Open || s == Rejected
  }

  /** The four counts add up to the number of claims whose status is one of the four. */
  lemma SummaryAddsUp(statuses: map<string, Status>)
    ensures Total(SummaryOf(statuses)) == |Counted(statuses)|
  {
    hide Having, Counted;
    CountedParts(statuses);
    HavingApart(statuses, Accepted, Blocked);
    HavingApart(statuses, Accepted, Open);
    HavingApart(statuses, Blocked, Open);
    HavingApart(statuses, Accepted, Rejected);
    HavingApart(statuses, Blocked, Rejected);
    HavingApart(statuses, Open, Rejected);
    FourParts(Having(statuses, Accepted), Having(statuses, Blocked), Having(statuses, Open),
              Having(statuses, Rejected));
  }

  lemma CountedParts(statuses: map<string, Status>)
    ensures Counted(statuses) == Having(statuses, Accepted) + Having(statuses, Blocked) + Having(statuses, Open)
                                 + Having(statuses, Rejected)
  {
  }

  lemma HavingApart(statuses: map<string, Status>, s: Status, t: Status)
    requires s != t
    ensures Having(statuses, s) !! Having(statuses, t)
  {
  }

  lemma FourParts<T>(a: set<T>, b: set<T>, c: set<T>, d: set<T>)
    requires a !! b && a !! c && b !! c && a !! d && b !! d && c !! d
    ensures |a + b + c + d| == |a| + |b| + |c| + |d|
  {
    DisjointCard(a, b);
    DisjointCard(a + b, c);
    DisjointCard(a + b + c, d);
  }

  /** Under protocol 2 no status escapes the summary. */
  lemma V2SummaryIsComplete(e: Edges, atts: Attestations, statuses: map<string, Status>)
    requires forall c :: c in atts ==> IsV2(atts[c])
    requires forall c :: c in statuses ==> statuses[c] == StatusOf(e, atts, c)
    ensures Total(SummaryOf(statuses)) == |statuses|
  {
    SummaryAddsUp(statuses);
    forall c | c in statuses ensures HasCounter(statuses[c]) {
      AcceptedMeansPassing(e, atts, c);
    }
    assert Counted(statuses) == statuses.Keys;
  }

  // ------------------------------------------------------------ dry run and release

  class ReleaseGate {
    const trust: Trust
    const hasProjectRoot: bool
    var statusFile: Option<ReleaseStatus>
    var snapshotFile: Option<string>
    var manifestFile: Option<string>

    constructor (trust: Trust, hasProjectRoot: bool)
      ensures this.trust == trust && this.hasProjectRoot == hasProjectRoot
      ensures statusFile == None && snapshotFile == None && manifestFile == None
    {
      this.trust, this.hasProjectRoot := trust, hasProjectRoot;
      statusFile, snapshotFile, manifestFile := None, None, None;
    }

    method DryRun(graph: DAG, atts: Attestations, pol: ReleasePolicy) returns (pass: bool, blockers: seq<Blocker>)
      requires graph.Valid()
      ensures pass <==> GatePasses(graph.claims, atts, pol, trust)
      ensures pass <==> blockers == []
      ensures RightBlockers(blockers, graph.Deps(), graph.claims, atts, pol, trust)
    {
      var r := GateCheck(graph, atts, pol, trust);
      return r.pass, r.blockers;
    }

    /** `ok` is false exactly when a file that should be written cannot be.  The status file, if
        it can be written, says released exactly when the demands are met; the snapshot and the
        manifest follow only then, and in that order. */
    method Release(graph: DAG, atts: Attestations, pol: ReleasePolicy, writes: Writes)
      returns (pass: bool, blockers: seq<Blocker>, ok: bool)
      requires graph.Valid()
      modifies this
      ensures var met := GatePasses(graph.claims, atts, pol, trust);
              && (pass <==> met && ok)
              && (blockers == [] <==> met)
              && RightBlockers(blockers, graph.Deps(), graph.claims, atts, pol, trust)
              && (ok <==> writes.status && (met ==> writes.snapshot && (hasProjectRoot ==> writes.manifest)))
              && statusFile == (if writes.status then Some(StatusToWrite(graph, atts, pol, blockers))
                                else old(statusFile))
              && snapshotFile == (if writes.status && met && writes.snapshot then Some(pol.target)
                                  else old(snapshotFile))
              && manifestFile == (if writes.status && met && writes.snapshot && hasProjectRoot && writes.manifest
                                  then Some(pol.target) else old(manifestFile))
      ensures writes.status ==>
                && (statusFile.value.released <==> GatePasses(graph.claims, atts, pol, trust))
                && statusFile.value.target == (if statusFile.value.released then pol.target else "")
                && statusFile.value.blockers == blockers
      ensures writes.status ==>
                // the file says released although the call reports failure
                (statusFile.value.released && !ok
                 <==> GatePasses(graph.claims, atts, pol, trust)
                      && !(writes.snapshot && (hasProjectRoot ==> writes.manifest)))
    {
      hide GatePasses, RightBlockers, SummaryOf, StatusOf, ValidClaimId, NoDup;
      var passed, found, rs := CheckAndReport(graph, atts, pol);
      if !writes.status { return false, found, false; }
      statusFile := Some(rs);
      if passed {
        if !writes.snapshot { return false, found, false; }
        snapshotFile := Some(pol.target);
      }
      if passed && hasProjectRoot {
        if !writes.manifest { return false, found, false; }
        manifestFile := Some(pol.target);
      }
      return passed, found, true;
    }

    /** The check, and the status file it leads to. */
    method CheckAndReport(graph: DAG, atts: Attestations, pol: ReleasePolicy)
      returns (pass: bool, blockers: seq<Blocker>, rs: ReleaseStatus)
      requires graph.Valid()
      ensures pass <==> GatePasses(graph.claims, atts, pol, trust)
      ensures pass <==> blockers == []
      ensures RightBlockers(blockers, graph.Deps(), graph.claims, atts, pol, trust)
      ensures rs == StatusToWrite(graph, atts, pol, blockers)
    {
      hide GatePasses, RightBlockers, SummaryOf, StatusOf, Judged, Active, ValidClaimId, NoDup, IsV2;
      var r := GateCheck(graph, atts, pol, trust);
      var summary := BuildClaimSummary(r.statuses);
      EmptySummary();
      return r.pass, r.blockers, ReleaseStatus(r.pass, if r.pass then pol.target else "", summary, r.blockers);
    }

    /** The verdict, the target if released, the counts of the claims' statuses (all zero if an
        earlier-protocol attestation stopped the check), and the blockers. */
    ghost function StatusToWrite(graph: DAG, atts: Attestations, pol: ReleasePolicy, blockers: seq<Blocker>)
      : ReleaseStatus
      reads this, graph
    {
      var met := GatePasses(graph.claims, atts, pol, trust);
      var summary := if forall c :: c in atts ==> IsV2(atts[c])
                     then SummaryOf(map c | c in graph.claims :: StatusOf(graph.Deps(), atts, c))
                     else ClaimSummary(0, 0, 0, 0);
      ReleaseStatus(met, if met then pol.target else "", summary, blockers)
    }

    /** The counts in the status file: none beside an attestation of an earlier protocol; otherwise the attested
        claims by their verdicts, and every other claim as blocked or open. */
    lemma CountsWritten(graph: DAG, atts: Attestations, pol: ReleasePolicy, blockers: seq<Blocker>)
      ensures var s := StatusToWrite(graph, atts, pol, blockers).summary;
              if exists c :: c in atts && atts[c].checker.protocolVersion != 2 then
                s.accepted == s.blocked == s.open == s.rejected == 0
              else
                && s.accepted == |set c | c in graph.claims && c in atts && AllPassing(atts[c].obligationResults)|
                && s.rejected == |set c | c in graph.claims && c in atts && !AllPassing(atts[c].obligationResults)|
                && s.accepted + s.blocked + s.open + s.rejected == |graph.claims|
    {
      if forall c :: c in atts ==> IsV2(atts[c]) {
        var statuses := map c | c in graph.claims :: StatusOf(graph.Deps(), atts, c);
        CountedByVerdicts(graph.Deps(), graph.claims.Keys, atts, statuses);
        V2SummaryIsComplete(graph.Deps(), atts, statuses);
        assert statuses.Keys == graph.claims.Keys;
      }
    }
  }

  lemma CountedByVerdicts(e: Edges, claims: set<string>, atts: Attestations, statuses: map<string, Status>)
    requires forall c :: c in atts ==> IsV2(atts[c])
    requires statuses.Keys == claims && forall c :: c in claims ==> statuses[c] == StatusOf(e, atts, c)
    ensures SummaryOf(statuses).accepted == |set c | c in claims && c in atts && AllPassing(atts[c].obligationResults)|
    ensures SummaryOf(statuses).rejected == |set c | c in claims && c in atts && !AllPassing(atts[c].obligationResults)|
  {
    hide AllPassing;
    assert Having(statuses, Accepted) == set c | c in claims && c in atts && AllPassing(atts[c].obligationResults);
    assert Having(statuses, Rejected) == set c | c in claims && c in atts && !AllPassing(atts[c].obligationResults);
  }

  lemma EmptySummary()
    ensures SummaryOf(map[]) == ClaimSummary(0, 0, 0, 0)
  {
    forall s: Status ensures Having(map[], s) == {} {
    }
  }
}
