/**
 What the release gate demands, in terms of the fields of attestations, claims and policy alone.
 */
module Demands {
  import opened Ir
  import opened StatusProjection
  import opened Policy
  import opened Conditions
  import opened Gate
  import opened Tightening

  // ------------------------------------------------------------ condition by condition

  lemma AssuranceConditionsIff(claims: map<string, Claim>, atts: Attestations, pol: ReleasePolicy, trust: Trust)
    ensures Holds(C02, claims, atts, pol, trust) <==> forall c :: c in atts ==> atts[c].assurance != "assumption"
    ensures Holds(C03, claims, atts, pol, trust) <==>
            forall c :: c in atts && atts[c].assurance != "" ==>
              && atts[c].assurance !in pol.forbiddenAssurances
              && (pol.allowedAssurances == [] || atts[c].assurance in pol.allowedAssurances)
  {
  }

  lemma RecordConditionIff(claims: map<string, Claim>, atts: Attestations, pol: ReleasePolicy, trust: Trust)
    ensures Holds(C04, claims, atts, pol, trust) <==>
            forall c :: c in claims && claims[c].checkerPolicy != "" ==>
              c in atts && atts[c].selfDigest != "" && atts[c].startFreshness != "" && atts[c].endFreshness != ""
  {
  }

  lemma SignatureConditionIff(claims: map<string, Claim>, atts: Attestations, pol: ReleasePolicy, trust: Trust)
    ensures Holds(C05, claims, atts, pol, trust) <==>
            forall c :: c in atts ==>
              && atts[c].signature.Some? && atts[c].signature.value.value != ""
              && atts[c].signature.value.fingerprint in trust.keys && trust.verify(atts[c])
  {
  }

  lemma MetadataConditionIff(claims: map<string, Claim>, atts: Attestations, pol: ReleasePolicy, trust: Trust)
    ensures Holds(C06, claims, atts, pol, trust) <==>
            forall c, k :: c in atts && k in pol.allowedMetadataValues && k in atts[c].metadata ==>
              atts[c].metadata[k] in pol.allowedMetadataValues[k]
  {
    if Holds(C06, claims, atts, pol, trust) {
      forall c, k | c in atts && k in pol.allowedMetadataValues && k in atts[c].metadata
        ensures atts[c].metadata[k] in pol.allowedMetadataValues[k]
      {
        assert !Objects(C06, pol, trust, atts[c]);
      }
    }
  }

  lemma CarriedIff(atts: Attestations, key: string)
    ensures KeyCarried(atts, key) <==> exists c :: c in atts && key in atts[c].metadata && atts[c].metadata[key] != ""
  {
    if c :| c in atts && key in atts[c].metadata && atts[c].metadata[key] != "" {
      assert Lookup(atts[c].metadata, key) != "";
    }
  }

  lemma TriggerConditionIff(claims: map<string, Claim>, atts: Attestations, pol: ReleasePolicy, trust: Trust)
    ensures Holds(C07, claims, atts, pol, trust) <==>
            forall t, c :: t in pol.conditionalMetadataKeys && c in atts && t in atts[c].metadata ==>
              exists d :: d in atts && pol.conditionalMetadataKeys[t] in atts[d].metadata
                          && atts[d].metadata[pol.conditionalMetadataKeys[t]] != ""
  {
    hide KeyCarried;
    forall t | t in pol.conditionalMetadataKeys
      ensures KeyCarried(atts, pol.conditionalMetadataKeys[t]) <==>
              exists d :: d in atts && pol.conditionalMetadataKeys[t] in atts[d].metadata
                          && atts[d].metadata[pol.conditionalMetadataKeys[t]] != ""
    {
      CarriedIff(atts, pol.conditionalMetadataKeys[t]);
    }
    if forall t :: t in pol.conditionalMetadataKeys && KeyPresent(atts, t) ==>
         KeyCarried(atts, pol.conditionalMetadataKeys[t]) {
      forall t, c | t in pol.conditionalMetadataKeys && c in atts && t in atts[c].metadata
        ensures KeyCarried(atts, pol.conditionalMetadataKeys[t])
      {
        assert KeyPresent(atts, t);
      }
    }
  }

  lemma ReplayConditionIff(claims: map<string, Claim>, atts: Attestations, pol: ReleasePolicy, trust: Trust)
    ensures Holds(C08, claims, atts, pol, trust) <==>
            forall c :: c in atts && atts[c].replayMode != "" ==> atts[c].replayMode == pol.requiredReplayMode
    ensures Holds(C09, claims, atts, pol, trust) <==>
            forall c :: c in atts ==> atts[c].checker.runtime.kind !in pol.forbiddenRuntimes
  {
  }

  lemma KeyConditionIff(claims: map<string, Claim>, atts: Attestations, pol: ReleasePolicy, trust: Trust, key: string)
    ensures Holds(MetaKey(key), claims, atts, pol, trust) <==>
            exists c :: c in atts && key in atts[c].metadata && atts[c].metadata[key] != ""
  {
    CarriedIff(atts, key);
  }

  /** C10 and C11 look only at attestations that claim recomputation. */
  lemma CopyConditionIff(claims: map<string, Claim>, atts: Attestations, pol: ReleasePolicy, trust: Trust)
    ensures Holds(C10, claims, atts, pol, trust) <==>
            forall c :: c in atts && "generator_cmds" in atts[c].metadata && atts[c].metadata["generator_cmds"] != ""
                        && trust.copyOnly(atts[c].metadata["generator_cmds"]) ==>
              && atts[c].replayMode != "from_scratch" && atts[c].assurance != "reproducible-computation"
              && atts[c].assurance != "exact-replay"
  {
    forall c | c in atts
      ensures Objects(C10, pol, trust, atts[c]) <==>
              && "generator_cmds" in atts[c].metadata && atts[c].metadata["generator_cmds"] != ""
              && trust.copyOnly(atts[c].metadata["generator_cmds"])
              && (atts[c].replayMode == "from_scratch" || atts[c].assurance == "reproducible-computation"
                  || atts[c].assurance == "exact-replay")
    {
    }
  }

  lemma MutationConditionIff(claims: map<string, Claim>, atts: Attestations, pol: ReleasePolicy, trust: Trust)
    ensures Holds(C11, claims, atts, pol, trust) <==>
            forall c :: c in atts && (atts[c].replayMode == "from_scratch"
                                      || atts[c].assurance == "reproducible-computation"
                                      || atts[c].assurance == "exact-replay") ==>
              && "mutation_kill_rate" in atts[c].metadata && atts[c].metadata["mutation_kill_rate"] == "100%"
              && "mutation_catalog_digest" in atts[c].metadata
              && exists i :: 0 <= i < |atts[c].metadata["mutation_catalog_digest"]|
                             && atts[c].metadata["mutation_catalog_digest"][i]
                                !in {' ', '\t', '\n', '\r', 11 as char, 12 as char}
  {
    forall c | c in atts
      ensures !Objects(C11, pol, trust, atts[c]) <==>
              ((atts[c].replayMode == "from_scratch" || atts[c].assurance == "reproducible-computation"
                || atts[c].assurance == "exact-replay") ==>
               && "mutation_kill_rate" in atts[c].metadata && atts[c].metadata["mutation_kill_rate"] == "100%"
               && "mutation_catalog_digest" in atts[c].metadata
               && !Blank(atts[c].metadata["mutation_catalog_digest"]))
    {
    }
  }

  /** What C01, C04, C06 and C07 list; the other conditions are Conditions.OffenceIff and SignatureOffenceIff. */
  lemma ListedIff(claims: map<string, Claim>, atts: Attestations, pol: ReleasePolicy, trust: Trust, c: string,
                  key: string)
    ensures Named(c) in Offences(C01, claims, atts, pol, trust) <==>
            && c in claims
            && !(c in atts
                 && if atts[c].checker.protocolVersion == 2 then
                      && |atts[c].obligationResults| > 0
                      && forall i :: 0 <= i < |atts[c].obligationResults| ==>
                           atts[c].obligationResults[i].verdict == "pass"
                    else atts[c].outcome == Accepted)
    ensures Named(c) in Offences(C04, claims, atts, pol, trust) <==>
            && c in claims && claims[c].checkerPolicy != ""
            && (c !in atts || atts[c].selfDigest == "" || atts[c].startFreshness == "" || atts[c].endFreshness == "")
    ensures BadValue(c, key) in Offences(C06, claims, atts, pol, trust) <==>
            && c in atts && key in pol.allowedMetadataValues && key in atts[c].metadata
            && atts[c].metadata[key] !in pol.allowedMetadataValues[key]
    ensures Named(key) in Offences(C07, claims, atts, pol, trust) <==>
            && key in pol.conditionalMetadataKeys
            && (exists d :: d in atts && key in atts[d].metadata)
            && !exists d :: d in atts && pol.conditionalMetadataKeys[key] in atts[d].metadata
                            && atts[d].metadata[pol.conditionalMetadataKeys[key]] != ""
  {
    if key in pol.conditionalMetadataKeys { CarriedIff(atts, pol.conditionalMetadataKeys[key]); }
    hide KeyCarried, LacksRecord, AcceptedAtt;
    if c in atts { AcceptedIff(atts, c); }
    LacksIff(claims, atts, c);
  }

  lemma AcceptedIff(atts: Attestations, c: string)
    requires c in atts
    ensures AcceptedAtt(atts[c]) <==>
            if atts[c].checker.protocolVersion == 2 then
              && |atts[c].obligationResults| > 0
              && forall i :: 0 <= i < |atts[c].obligationResults| ==> atts[c].obligationResults[i].verdict == "pass"
            else atts[c].outcome == Accepted
  {
  }

  lemma LacksIff(claims: map<string, Claim>, atts: Attestations, c: string)
    ensures LacksRecord(claims, atts, c) <==>
            && c in claims && claims[c].checkerPolicy != ""
            && (c !in atts || atts[c].selfDigest == "" || atts[c].startFreshness == "" || atts[c].endFreshness == "")
  {
  }

  // ------------------------------------------------------------ the whole gate

  /** Which conditions a policy activates. */
  lemma ActiveIff(pol: ReleasePolicy)
    ensures C01 in Active(pol) && C02 in Active(pol) && C03 in Active(pol) && C04 in Active(pol)
    ensures C05 in Active(pol) <==> pol.requireSigned
    ensures C06 in Active(pol) <==> pol.allowedMetadataValues != map[]
    ensures C07 in Active(pol) <==> pol.conditionalMetadataKeys != map[]
    ensures C08 in Active(pol) <==> pol.requiredReplayMode != ""
    ensures C09 in Active(pol) <==> pol.forbiddenRuntimes != []
    ensures C10 in Active(pol) <==> pol.forbidCopyOnly
    ensures C11 in Active(pol) <==> pol.requireMutationCoverage
    ensures forall key :: MetaKey(key) in Active(pol) <==> key in pol.requiredMetadataKeys
  {
    hide Active;
    forall id ensures id in Active(pol) <==> IsActive(pol, id) {
      ActiveMembers(pol, id);
    }
    assert |pol.allowedMetadataValues| > 0 <==> pol.allowedMetadataValues != map[];
    assert |pol.conditionalMetadataKeys| > 0 <==> pol.conditionalMetadataKeys != map[];
  }

  /** All activated conditions hold if and only if each setting's demand is met. */
  lemma ActiveHoldIff(claims: map<string, Claim>, atts: Attestations, pol: ReleasePolicy, trust: Trust)
    ensures (forall id :: id in Active(pol) ==> Holds(id, claims, atts, pol, trust)) <==>
            && Holds(C01, claims, atts, pol, trust) && Holds(C02, claims, atts, pol, trust)
            && Holds(C03, claims, atts, pol, trust) && Holds(C04, claims, atts, pol, trust)
            && (pol.requireSigned ==> Holds(C05, claims, atts, pol, trust))
            && (pol.allowedMetadataValues != map[] ==> Holds(C06, claims, atts, pol, trust))
            && (pol.conditionalMetadataKeys != map[] ==> Holds(C07, claims, atts, pol, trust))
            && (pol.requiredReplayMode != "" ==> Holds(C08, claims, atts, pol, trust))
            && (pol.forbiddenRuntimes != [] ==> Holds(C09, claims, atts, pol, trust))
            && (pol.forbidCopyOnly ==> Holds(C10, claims, atts, pol, trust))
            && (pol.requireMutationCoverage ==> Holds(C11, claims, atts, pol, trust))
            && (forall key :: key in pol.requiredMetadataKeys ==> Holds(MetaKey(key), claims, atts, pol, trust))
  {
    hide Active, Holds;
    ActiveIff(pol);
    if && Holds(C01, claims, atts, pol, trust) && Holds(C02, claims, atts, pol, trust)
       && Holds(C03, claims, atts, pol, trust) && Holds(C04, claims, atts, pol, trust)
       && (pol.requireSigned ==> Holds(C05, claims, atts, pol, trust))
       && (pol.allowedMetadataValues != map[] ==> Holds(C06, claims, atts, pol, trust))
       && (pol.conditionalMetadataKeys != map[] ==> Holds(C07, claims, atts, pol, trust))
       && (pol.requiredReplayMode != "" ==> Holds(C08, claims, atts, pol, trust))
       && (pol.forbiddenRuntimes != [] ==> Holds(C09, claims, atts, pol, trust))
       && (pol.forbidCopyOnly ==> Holds(C10, claims, atts, pol, trust))
       && (pol.requireMutationCoverage ==> Holds(C11, claims, atts, pol, trust))
       && (forall key :: key in pol.requiredMetadataKeys ==> Holds(MetaKey(key), claims, atts, pol, trust)) {
      forall id | id in Active(pol) ensures Holds(id, claims, atts, pol, trust) {
        if id.MetaKey? { assert MetaKey(id.key) in Active(pol); }
      }
    }
  }

  /** The gate in terms of the single conditions. */
  lemma GateIffConditions(claims: map<string, Claim>, atts: Attestations, pol: ReleasePolicy, trust: Trust)
    ensures GatePasses(claims, atts, pol, trust) <==>
            && (forall c :: c in atts ==> atts[c].checker.protocolVersion == 2)
            && (forall c :: c in claims ==> c in atts && AllPassing(atts[c].obligationResults))
            && (forall c :: c in pol.requiredClaims ==> c in claims && c in atts && atts[c].outcome == Accepted)
            && Holds(C02, claims, atts, pol, trust) && Holds(C03, claims, atts, pol, trust)
            && Holds(C04, claims, atts, pol, trust)
            && (pol.requireSigned ==> Holds(C05, claims, atts, pol, trust))
            && (pol.allowedMetadataValues != map[] ==> Holds(C06, claims, atts, pol, trust))
            && (pol.conditionalMetadataKeys != map[] ==> Holds(C07, claims, atts, pol, trust))
            && (pol.requiredReplayMode != "" ==> Holds(C08, claims, atts, pol, trust))
            && (pol.forbiddenRuntimes != [] ==> Holds(C09, claims, atts, pol, trust))
            && (pol.forbidCopyOnly ==> Holds(C10, claims, atts, pol, trust))
            && (pol.requireMutationCoverage ==> Holds(C11, claims, atts, pol, trust))
            && (forall key :: key in pol.requiredMetadataKeys ==> Holds(MetaKey(key), claims, atts, pol, trust))
  {
    if forall c :: c in atts ==> IsV2(atts[c]) { FirstConditionIff(claims, atts, pol, trust); }
    hide Active, Holds, AllPassing, GatePasses;
    GateParts(claims, atts, pol, trust);
    ActiveHoldIff(claims, atts, pol, trust);
  }

  lemma GateParts(claims: map<string, Claim>, atts: Attestations, pol: ReleasePolicy, trust: Trust)
    ensures GatePasses(claims, atts, pol, trust) <==>
            && (forall c :: c in atts ==> atts[c].checker.protocolVersion == 2)
            && (forall c :: c in claims ==> c in atts && AllPassing(atts[c].obligationResults))
            && (forall c :: c in pol.requiredClaims ==> c in claims && c in atts && atts[c].outcome == Accepted)
            && (forall id :: id in Active(pol) ==> Holds(id, claims, atts, pol, trust))
  {
    hide Active, Holds, AllPassing;
    assert forall c :: c in claims.Keys <==> c in claims;
  }

  lemma FirstConditionIff(claims: map<string, Claim>, atts: Attestations, pol: ReleasePolicy, trust: Trust)
    requires forall c :: c in atts ==> IsV2(atts[c])
    ensures Holds(C01, claims, atts, pol, trust) <==>
            forall c :: c in claims ==> c in atts && AllPassing(atts[c].obligationResults)
  {
  }

  /** If a release passes, every attestation speaks protocol 2 and meets, field by field, whatever the
      policy asks of single attestations. */
  lemma ReleasedAttestation(claims: map<string, Claim>, atts: Attestations, pol: ReleasePolicy, trust: Trust, c: string)
    requires GatePasses(claims, atts, pol, trust) && c in atts
    ensures var att := atts[c];
            var recomputed := att.replayMode == "from_scratch" || att.assurance == "reproducible-computation"
                              || att.assurance == "exact-replay";
            && att.checker.protocolVersion == 2
            && att.assurance != "assumption"
            && (att.assurance != "" ==>
                  && att.assurance !in pol.forbiddenAssurances
                  && (pol.allowedAssurances == [] || att.assurance in pol.allowedAssurances))
            && (pol.requireSigned ==>
                  && att.signature.Some? && att.signature.value.value != ""
                  && att.signature.value.fingerprint in trust.keys && trust.verify(att))
            && (forall k :: k in pol.allowedMetadataValues && k in att.metadata ==>
                  att.metadata[k] in pol.allowedMetadataValues[k])
            && (pol.requiredReplayMode != "" && att.replayMode != "" ==> att.replayMode == pol.requiredReplayMode)
            && att.checker.runtime.kind !in pol.forbiddenRuntimes
            && (pol.forbidCopyOnly && recomputed && "generator_cmds" in att.metadata ==>
                  att.metadata["generator_cmds"] == "" || !trust.copyOnly(att.metadata["generator_cmds"]))
            && (pol.requireMutationCoverage && recomputed ==>
                  && "mutation_kill_rate" in att.metadata && att.metadata["mutation_kill_rate"] == "100%"
                  && "mutation_catalog_digest" in att.metadata
                  && exists i :: 0 <= i < |att.metadata["mutation_catalog_digest"]|
                                 && att.metadata["mutation_catalog_digest"][i]
                                    !in {' ', '\t', '\n', '\r', 11 as char, 12 as char})
  {
    GateIffConditions(claims, atts, pol, trust);
    hide Holds, GatePasses, AllPassing;
    AssuranceConditionsIff(claims, atts, pol, trust);
    SignatureConditionIff(claims, atts, pol, trust);
    MetadataConditionIff(claims, atts, pol, trust);
    ReplayConditionIff(claims, atts, pol, trust);
    CopyConditionIff(claims, atts, pol, trust);
    MutationConditionIff(claims, atts, pol, trust);
  }

  /** Every claim of the graph is attested with verdicts, all of them "pass", and with its records if it has
      a checker policy; every required claim is one of them and says accepted; every required key is carried. */
  lemma ReleasedClaims(claims: map<string, Claim>, atts: Attestations, pol: ReleasePolicy, trust: Trust)
    requires GatePasses(claims, atts, pol, trust)
    ensures forall c :: c in claims ==>
              && c in atts && |atts[c].obligationResults| > 0
              && (forall i :: 0 <= i < |atts[c].obligationResults| ==> atts[c].obligationResults[i].verdict == "pass")
    ensures forall c :: c in claims && claims[c].checkerPolicy != "" ==>
              atts[c].selfDigest != "" && atts[c].startFreshness != "" && atts[c].endFreshness != ""
    ensures forall c :: c in pol.requiredClaims ==> c in claims && atts[c].outcome == Accepted
    ensures forall key :: key in pol.requiredMetadataKeys ==>
              exists c :: c in atts && key in atts[c].metadata && atts[c].metadata[key] != ""
    ensures forall t, c :: t in pol.conditionalMetadataKeys && c in atts && t in atts[c].metadata ==>
              exists d :: d in atts && pol.conditionalMetadataKeys[t] in atts[d].metadata
                          && atts[d].metadata[pol.conditionalMetadataKeys[t]] != ""
  {
    GateIffConditions(claims, atts, pol, trust);
    hide Holds, GatePasses;
    RecordConditionIff(claims, atts, pol, trust);
    TriggerConditionIff(claims, atts, pol, trust);
    forall key | key in pol.requiredMetadataKeys
      ensures exists c :: c in atts && key in atts[c].metadata && atts[c].metadata[key] != ""
    {
      KeyConditionIff(claims, atts, pol, trust, key);
    }
  }

  /** And conversely: nothing else is asked. */
  lemma DemandsMetRelease(claims: map<string, Claim>, atts: Attestations, pol: ReleasePolicy, trust: Trust)
    requires forall c :: c in atts ==> atts[c].checker.protocolVersion == 2 && atts[c].assurance != "assumption"
    requires forall c :: c in claims ==>
               && c in atts && |atts[c].obligationResults| > 0
               && (forall i :: 0 <= i < |atts[c].obligationResults| ==> atts[c].obligationResults[i].verdict == "pass")
    requires forall c :: c in pol.requiredClaims ==> c in claims && atts[c].outcome == Accepted
    requires forall c :: c in atts && atts[c].assurance != "" ==>
               && atts[c].assurance !in pol.forbiddenAssurances
               && (pol.allowedAssurances == [] || atts[c].assurance in pol.allowedAssurances)
    requires forall c :: c in claims && claims[c].checkerPolicy != "" ==>
               atts[c].selfDigest != "" && atts[c].startFreshness != "" && atts[c].endFreshness != ""
    requires pol.requireSigned ==>
               forall c :: c in atts ==>
                 && atts[c].signature.Some? && atts[c].signature.value.value != ""
                 && atts[c].signature.value.fingerprint in trust.keys && trust.verify(atts[c])
    requires forall c, k :: c in atts && k in pol.allowedMetadataValues && k in atts[c].metadata ==>
               atts[c].metadata[k] in pol.allowedMetadataValues[k]
    requires forall t, c :: t in pol.conditionalMetadataKeys && c in atts && t in atts[c].metadata ==>
               exists d :: d in atts && pol.conditionalMetadataKeys[t] in atts[d].metadata
                           && atts[d].metadata[pol.conditionalMetadataKeys[t]] != ""
    requires pol.requiredReplayMode != "" ==>
               forall c :: c in atts && atts[c].replayMode != "" ==> atts[c].replayMode == pol.requiredReplayMode
    requires forall c :: c in atts ==> atts[c].checker.runtime.kind !in pol.forbiddenRuntimes
    requires pol.forbidCopyOnly ==>
               forall c :: c in atts && "generator_cmds" in atts[c].metadata && atts[c].metadata["generator_cmds"] != ""
                           && trust.copyOnly(atts[c].metadata["generator_cmds"]) ==>
                 && atts[c].replayMode != "from_scratch" && atts[c].assurance != "reproducible-computation"
                 && atts[c].assurance != "exact-replay"
    requires pol.requireMutationCoverage ==>
               forall c :: c in atts && (atts[c].replayMode == "from_scratch"
                                         || atts[c].assurance == "reproducible-computation"
                                         || atts[c].assurance == "exact-replay") ==>
                 && "mutation_kill_rate" in atts[c].metadata && atts[c].metadata["mutation_kill_rate"] == "100%"
                 && "mutation_catalog_digest" in atts[c].metadata
                 && exists i :: 0 <= i < |atts[c].metadata["mutation_catalog_digest"]|
                                && atts[c].metadata["mutation_catalog_digest"][i]
                                   !in {' ', '\t', '\n', '\r', 11 as char, 12 as char}
    requires forall key :: key in pol.requiredMetadataKeys ==>
               exists c :: c in atts && key in atts[c].metadata && atts[c].metadata[key] != ""
    ensures GatePasses(claims, atts, pol, trust)
  {
    assert forall c :: c in claims ==> AllPassing(atts[c].obligationResults);
    hide Holds, GatePasses, AllPassing;
    AssuranceConditionsIff(claims, atts, pol, trust);
    RecordConditionIff(claims, atts, pol, trust);
    SignatureConditionIff(claims, atts, pol, trust);
    MetadataConditionIff(claims, atts, pol, trust);
    TriggerConditionIff(claims, atts, pol, trust);
    ReplayConditionIff(claims, atts, pol, trust);
    CopyConditionIff(claims, atts, pol, trust);
    MutationConditionIff(claims, atts, pol, trust);
    forall key | key in pol.requiredMetadataKeys ensures Holds(MetaKey(key), claims, atts, pol, trust) {
      KeyConditionIff(claims, atts, pol, trust, key);
    }
    GateIffConditions(claims, atts, pol, trust);
  }
}
