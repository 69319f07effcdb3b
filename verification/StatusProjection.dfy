/**
 The status projection over the graph, with and without block reasons.
 */
module StatusProjection {
  import opened Graph
  import opened Ir
  import opened Dag

  type Attestations = map<string, Attestation>

  predicate IsV2(att: Attestation) {
    att.checker.protocolVersion == 2
  }

  /** A non-empty list of verdicts, all of them "pass". */
  ghost predicate AllPassing(results: seq<ObligationResult>) {
    results != [] && forall i :: 0 <= i < |results| ==> results[i].verdict == PASS
  }

  /** The status an attestation stands for: verdicts decide under protocol 2, the outcome field before it. */
  ghost function StatusFor(att: Attestation): Status {
    if IsV2(att) then (if AllPassing(att.obligationResults) then Accepted else Rejected) else att.outcome
  }

  predicate Failing(s: Status) {
    s == Disproved || s == Rejected || s == Error
  }

  /** Some transitive dependency of `id` is attested with a failing status. */
  ghost predicate BlockedByDep(e: Edges, atts: Attestations, id: string) {
    exists d :: ReachesPlus(e, id, d) && d in atts && Failing(StatusFor(atts[d]))
  }

  ghost function StatusOf(e: Edges, atts: Attestations, id: string): Status {
    if id in atts then StatusFor(atts[id])
    else if BlockedByDep(e, atts, id) then Blocked
    else Open
  }

  /** When each status is given, from the fields of the attestations alone. */
  lemma StatusIff(e: Edges, atts: Attestations, id: string)
    ensures id in atts ==>
              StatusOf(e, atts, id) ==
              if atts[id].checker.protocolVersion != 2 then atts[id].outcome
              else if |atts[id].obligationResults| > 0
                   && (forall i :: 0 <= i < |atts[id].obligationResults| ==>
                         atts[id].obligationResults[i].verdict == "pass") then Accepted
              else Rejected
    ensures id !in atts ==>
              (StatusOf(e, atts, id) == Blocked
               <==> exists d :: ReachesPlus(e, id, d) && d in atts
                                && (if atts[d].checker.protocolVersion != 2
                                    then atts[d].outcome == Disproved || atts[d].outcome == Rejected
                                         || atts[d].outcome == Error
                                    else |atts[d].obligationResults| == 0
                                         || exists i :: 0 <= i < |atts[d].obligationResults|
                                                        && atts[d].obligationResults[i].verdict != "pass"))
    ensures id !in atts && StatusOf(e, atts, id) != Blocked ==> StatusOf(e, atts, id) == Open
  {
  }

  method DeriveStatus(att: Attestation) returns (s: Status)
    ensures s == StatusFor(att)
  {
    if att.checker.protocolVersion == 2 {
      if |att.obligationResults| == 0 { return Rejected; }
      for i := 0 to |att.obligationResults|
        invariant forall k :: 0 <= k < i ==> att.obligationResults[k].verdict == PASS
      {
        if att.obligationResults[i].verdict != PASS { return Rejected; }
      }
      return Accepted;
    }
    return att.outcome;
  }

  /** For a claim without attestation, its closure and its proper descendants hold the same attested ids. */
  lemma ClosureMembers(e: Edges, id: string, d: string)
    ensures d in ClosureSet(e, id) ==> ReachesPlus(e, id, d)
    ensures d != id && ReachesPlus(e, id, d) ==> d in ClosureSet(e, id)
  {
    PlusIsReaches(e, id, d);
    if ReachesPlus(e, id, d) {
      var z := PlusLastStep(e, id, d);
    }
  }

  method ComputeOne(id: string, graph: DAG, atts: Attestations) returns (s: Status)
    requires graph.Valid()
    ensures id in graph.claims ==> s == StatusOf(graph.Deps(), atts, id)
    ensures id !in graph.claims && id !in atts ==> s == Error
  {
    if id in atts {
      s := DeriveStatus(atts[id]);
      return;
    }
    var closure := graph.Closure(id);
    if closure.UnknownClaim? { return Error; }
    ghost var e := graph.Deps();
    var ids := closure.ids;
    for i := 0 to |ids|
      invariant forall k :: 0 <= k < i ==> !(ids[k] in atts && Failing(StatusFor(atts[ids[k]])))
    {
      if ids[i] in atts {
        var ds := DeriveStatus(atts[ids[i]]);
        if ds == Disproved || ds == Rejected || ds == Error {
          assert ids[i] in Elems(ids);
          ClosureMembers(e, id, ids[i]);
          return Blocked;
        }
      }
    }
    forall d | ReachesPlus(e, id, d) && d in atts ensures !Failing(StatusFor(atts[d])) {
      ClosureMembers(e, id, d);
      assert d in Elems(ids);
    }
    return Open;
  }

  method Compute(graph: DAG, atts: Attestations) returns (result: map<string, Status>)
    requires graph.Valid()
    ensures result.Keys == graph.claims.Keys
    ensures forall id :: id in result ==> result[id] == StatusOf(graph.Deps(), atts, id)
  {
    hide ValidClaimId, StatusOf, NoDup;
    var claims := graph.Claims();
    result := map[];
    for i := 0 to |claims|
      invariant result.Keys == Elems(graph.order[..i])
      invariant forall id :: id in result ==> result[id] == StatusOf(graph.Deps(), atts, id)
    {
      var id := claims[i].id;
      assert id == graph.order[i];
      var s := ComputeOne(id, graph, atts);
      NoDupSnoc(graph.order[..i], id);
      assert graph.order[..i + 1] == graph.order[..i] + [id];
      result := result[id := s];
    }
    assert graph.order[..|claims|] == graph.order;
  }

  // ------------------------------------------------------------ with reasons

  datatype ClaimStatus = ClaimStatus(status: Status, blockReason: string)

  /** A dependency whose recorded outcome field is a failure. */
  ghost predicate FailsByOutcome(e: Edges, atts: Attestations, id: string, d: string) {
    ReachesPlus(e, id, d) && d in atts && Failing(atts[d].outcome)
  }

  /** What the reason of an unattested, blocked claim may be when `d` is to blame. */
  predicate ReasonOf(atts: Attestations, d: string, reason: string)
    requires d in atts
  {
    reason == if atts[d].blockReason == "" then d else atts[d].blockReason
  }

  ghost predicate ReasonedStatus(e: Edges, atts: Attestations, id: string, cs: ClaimStatus) {
    if id in atts then
      cs == ClaimStatus(atts[id].outcome, if atts[id].outcome == Blocked then atts[id].blockReason else "")
    else if exists d :: FailsByOutcome(e, atts, id, d) then
      cs.status == Blocked && exists d :: FailsByOutcome(e, atts, id, d) && ReasonOf(atts, d, cs.blockReason)
    else
      cs == ClaimStatus(Open, "")
  }

  /** When an unattested claim is blocked according to the outcome fields, and for which reason. */
  lemma ReasonIff(e: Edges, atts: Attestations, id: string, cs: ClaimStatus)
    requires ReasonedStatus(e, atts, id, cs)
    ensures id in atts ==> cs.status == atts[id].outcome
                           && cs.blockReason == if atts[id].outcome == Blocked then atts[id].blockReason else ""
    ensures id !in atts ==>
              && (cs.status == Blocked <==>
                  exists d :: ReachesPlus(e, id, d) && d in atts && atts[d].outcome in {Disproved, Rejected, Error})
              && (cs.status == Blocked ==>
                    exists d :: ReachesPlus(e, id, d) && d in atts && atts[d].outcome in {Disproved, Rejected, Error}
                                && (if atts[d].blockReason != "" then cs.blockReason == atts[d].blockReason
                                    else cs.blockReason == d))
              && (cs.status != Blocked ==> cs.status == Open && cs.blockReason == "")
  {
    if id !in atts {
      if d :| FailsByOutcome(e, atts, id, d) && ReasonOf(atts, d, cs.blockReason) {
        assert atts[d].outcome in {Disproved, Rejected, Error};
      }
      if d :| ReachesPlus(e, id, d) && d in atts && atts[d].outcome in {Disproved, Rejected, Error} {
        assert FailsByOutcome(e, atts, id, d);
      }
    }
  }

  method ComputeOneWithReason(id: string, graph: DAG, atts: Attestations) returns (cs: ClaimStatus)
    requires graph.Valid()
    ensures id in graph.claims ==> ReasonedStatus(graph.Deps(), atts, id, cs)
  {
    if id in atts {
      return ClaimStatus(atts[id].outcome, if atts[id].outcome == Blocked then atts[id].blockReason else "");
    }
    var closure := graph.Closure(id);
    if closure.UnknownClaim? { return ClaimStatus(Error, ""); }
    ghost var e := graph.Deps();
    var ids := closure.ids;
    for i := 0 to |ids|
      invariant forall k :: 0 <= k < i ==> !(ids[k] in atts && Failing(atts[ids[k]].outcome))
    {
      if ids[i] in atts && Failing(atts[ids[i]].outcome) {
        assert ids[i] in Elems(ids);
        ClosureMembers(e, id, ids[i]);
        assert FailsByOutcome(e, atts, id, ids[i]);
        var reason := atts[ids[i]].blockReason;
        if reason == "" { reason := ids[i]; }
        return ClaimStatus(Blocked, reason);
      }
    }
    forall d | ReachesPlus(e, id, d) ensures !FailsByOutcome(e, atts, id, d) {
      if d in atts {
        ClosureMembers(e, id, d);
        assert d in Elems(ids);
      }
    }
    return ClaimStatus(Open, "");
  }

  method ComputeWithReasons(graph: DAG, atts: Attestations) returns (result: map<string, ClaimStatus>)
    requires graph.Valid()
    ensures result.Keys == graph.claims.Keys
    ensures forall id :: id in result ==> ReasonedStatus(graph.Deps(), atts, id, result[id])
  {
    hide ValidClaimId, ReasonedStatus, NoDup;
    var claims := graph.Claims();
    result := map[];
    for i := 0 to |claims|
      invariant result.Keys == Elems(graph.order[..i])
      invariant forall id :: id in result ==> ReasonedStatus(graph.Deps(), atts, id, result[id])
    {
      var id := claims[i].id;
      assert id == graph.order[i];
      var cs := ComputeOneWithReason(id, graph, atts);
      NoDupSnoc(graph.order[..i], id);
      assert graph.order[..i + 1] == graph.order[..i] + [id];
      result := result[id := cs];
    }
    assert graph.order[..|claims|] == graph.order;
  }

  /** A failing dependency is the same under both readings when every attestation's outcome field
      is the status it stands for. */
  lemma SameFailures(e: Edges, atts: Attestations, id: string)
    requires AllResolved(e) && id in e
    requires forall c :: c in e && c in atts ==> StatusFor(atts[c]) == atts[c].outcome
    ensures BlockedByDep(e, atts, id) <==> exists d :: FailsByOutcome(e, atts, id, d)
  {
    forall d | ReachesPlus(e, id, d) ensures d in e {
      PlusIsReaches(e, id, d);
      ClosedHoldsReached(e, e.Keys, id, d);
    }
    if BlockedByDep(e, atts, id) {
      var d :| ReachesPlus(e, id, d) && d in atts && Failing(StatusFor(atts[d]));
      assert FailsByOutcome(e, atts, id, d);
    }
    if d :| FailsByOutcome(e, atts, id, d) {
      assert Failing(StatusFor(atts[d]));
    }
  }

  /** On a resolved graph the two projections agree on every claim exactly when each attestation of
      a claim of the graph states, in its outcome field, the status it stands for. */
  lemma ProjectionsAgreeIff(e: Edges, atts: Attestations, projection: map<string, ClaimStatus>)
    requires AllResolved(e) && projection.Keys == e.Keys
    requires forall id :: id in e ==> ReasonedStatus(e, atts, id, projection[id])
    ensures (forall id :: id in e ==> projection[id].status == StatusOf(e, atts, id))
            <==> forall c :: c in e && c in atts ==> StatusFor(atts[c]) == atts[c].outcome
  {
    hide StatusFor, BlockedByDep, FailsByOutcome, AllResolved;
    if forall c :: c in e && c in atts ==> StatusFor(atts[c]) == atts[c].outcome {
      forall id | id in e ensures projection[id].status == StatusOf(e, atts, id) {
        SameFailures(e, atts, id);
      }
    }
  }

  /** Without protocol 2 attestations the two projections agree everywhere. */
  lemma ProjectionsAgreeOnV1(e: Edges, atts: Attestations, id: string, cs: ClaimStatus)
    requires ReasonedStatus(e, atts, id, cs)
    requires forall c :: c in atts ==> !IsV2(atts[c])
    ensures cs.status == StatusOf(e, atts, id)
  {
    if BlockedByDep(e, atts, id) {
      var d :| ReachesPlus(e, id, d) && d in atts && Failing(StatusFor(atts[d]));
      assert FailsByOutcome(e, atts, id, d);
    }
    if d :| FailsByOutcome(e, atts, id, d) {
      assert Failing(StatusFor(atts[d]));
    }
  }
}
