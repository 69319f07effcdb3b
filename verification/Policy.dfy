/**
 The release policy and the scan of its required claims.
 */
module Policy {
  import opened Ir
  import opened Graph
  import opened Dag
  import opened StatusProjection

  datatype ReleasePolicy = ReleasePolicy(
    target: string,
    allowedAssurances: seq<string>,
    forbiddenAssurances: seq<string>,
    requiredClaims: seq<string>,
    requiredMetadataKeys: seq<string>,
    requireSigned: bool,
    allowedMetadataValues: map<string, seq<string>>,
    conditionalMetadataKeys: map<string, string>,
    requiredReplayMode: string,
    forbiddenRuntimes: seq<string>,
    forbidCopyOnly: bool,
    requireMutationCoverage: bool)

  datatype PolicyBlocker = NoAttestation(claim: string) | WrongOutcome(claim: string, outcome: Status)
                         | NotInGraph(claim: string)

  /** A required claim is in the graph and attested with outcome field "accepted". */
  ghost predicate RequiredClaimMet(claims: set<string>, atts: Attestations, id: string) {
    id in atts && atts[id].outcome == Accepted && id in claims
  }

  /** The blocker tells one way in which a required claim fails. */
  ghost predicate Blocks(b: PolicyBlocker, claims: set<string>, atts: Attestations, pol: ReleasePolicy) {
    && b.claim in pol.requiredClaims
    && match b
       case NoAttestation(c) => c !in atts
       case WrongOutcome(c, o) => c in atts && atts[c].outcome == o && o != Accepted
       case NotInGraph(c) => c !in claims
  }

  method Evaluate(graph: DAG, atts: Attestations, pol: ReleasePolicy) returns (pass: bool, blockers: seq<PolicyBlocker>)
    requires graph.Valid()
    ensures pass <==> blockers == []
    ensures pass <==> forall id :: id in pol.requiredClaims ==> RequiredClaimMet(graph.claims.Keys, atts, id)
    ensures forall b :: b in blockers <==> Blocks(b, graph.claims.Keys, atts, pol)
    ensures forall c :: NoAttestation(c) in blockers <==> c in pol.requiredClaims && c !in atts
    ensures forall c, o :: WrongOutcome(c, o) in blockers <==>
              c in pol.requiredClaims && c in atts && atts[c].outcome == o && o != Accepted
    ensures forall c :: NotInGraph(c) in blockers <==> c in pol.requiredClaims && c !in graph.claims
  {
    hide ValidClaimId, NoDup;
    blockers := [];
    var required := pol.requiredClaims;
    for i := 0 to |required|
      invariant forall b :: b in blockers <==>
                  !b.NotInGraph? && b.claim in required[..i] && Blocks(b, graph.claims.Keys, atts, pol)
    {
      var id := required[i];
      assert required[..i + 1] == required[..i] + [id];
      if id !in atts {
        blockers := blockers + [NoAttestation(id)];
      } else if atts[id].outcome != Accepted {
        blockers := blockers + [WrongOutcome(id, atts[id].outcome)];
      }
    }
    assert required[..|required|] == required;
    for i := 0 to |required|
      invariant forall b :: b in blockers <==>
                  (b.NotInGraph? ==> b.claim in required[..i]) && Blocks(b, graph.claims.Keys, atts, pol)
    {
      assert required[..i + 1] == required[..i] + [required[i]];
      if required[i] !in graph.claims {
        blockers := blockers + [NotInGraph(required[i])];
      }
    }
    pass := |blockers| == 0;
    NoBlockersIff(blockers, graph.claims.Keys, atts, pol);
  }

  lemma NoBlockersIff(blockers: seq<PolicyBlocker>, claims: set<string>, atts: Attestations, pol: ReleasePolicy)
    requires forall b :: b in blockers <==> Blocks(b, claims, atts, pol)
    ensures blockers == [] <==> forall id :: id in pol.requiredClaims ==> RequiredClaimMet(claims, atts, id)
  {
    forall id | id in pol.requiredClaims
      ensures RequiredClaimMet(claims, atts, id) <==>
              && NoAttestation(id) !in blockers && NotInGraph(id) !in blockers
              && (id in atts ==> WrongOutcome(id, atts[id].outcome) !in blockers)
    {
    }
    if blockers != [] {
      assert blockers[0] in blockers;
      assert !RequiredClaimMet(claims, atts, blockers[0].claim);
    }
  }
}
