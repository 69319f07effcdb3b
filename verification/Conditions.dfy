/**
 The release conditions C01 to C11 and the per-key metadata conditions.  A blocker
 text is cut down to the set of offences it lists.
 */
module Conditions {
  import opened Ir
  import opened Graph
  import opened Dag
  import opened StatusProjection
  import opened Policy

  datatype ConditionId = C01 | C02 | C03 | C04 | C05 | C06 | C07 | C08 | C09 | C10 | C11 | MetaKey(key: string)

  /** One entry of a blocker text; `Named` holds a claim, or a trigger key under C07. */
  datatype Offence = Named(name: string)
                   | ForbiddenAssurance(claim: string) | UnlistedAssurance(claim: string)
                   | Unsigned(claim: string) | UnknownKey(claim: string) | Forged(claim: string)
                   | BadValue(claim: string, key: string)
                   | LowKillRate(claim: string) | NoCatalog(claim: string)

  datatype ConditionResult = ConditionResult(id: ConditionId, passed: bool, offences: set<Offence>)

  /** What lies outside the model: the loaded public keys, signature checking, and the
      pattern match that recognises copy-only generator commands. */
  datatype Trust = Trust(keys: set<string>, verify: Attestation -> bool, copyOnly: string -> bool)

  function Lookup(m: map<string, string>, key: string): string {
    if key in m then m[key] else ""
  }

  predicate Blank(s: string) {
    forall i :: 0 <= i < |s| ==> s[i] in {' ', '\t', '\n', '\r', 11 as char, 12 as char}
  }

  predicate ClaimsRecompute(att: Attestation) {
    att.replayMode == "from_scratch" || att.assurance == "reproducible-computation" || att.assurance == "exact-replay"
  }

  // ------------------------------------------------------------ what each condition objects to

  predicate BadAssurance(pol: ReleasePolicy, att: Attestation) {
    && att.assurance != ""
    && (att.assurance in pol.forbiddenAssurances
        || (pol.allowedAssurances != [] && att.assurance !in pol.allowedAssurances))
  }

  predicate IsUnsigned(att: Attestation) {
    att.signature.None? || att.signature.value.value == ""
  }

  predicate BadSignature(trust: Trust, att: Attestation) {
    IsUnsigned(att) || att.signature.value.fingerprint !in trust.keys || !trust.verify(att)
  }

  predicate BadMetadata(allowed: map<string, seq<string>>, att: Attestation) {
    exists key :: key in allowed && key in att.metadata && att.metadata[key] !in allowed[key]
  }

  predicate BadReplayMode(required: string, att: Attestation) {
    att.replayMode != "" && att.replayMode != required
  }

  predicate CopyOnly(trust: Trust, att: Attestation) {
    var gen := Lookup(att.metadata, "generator_cmds");
    gen != "" && ClaimsRecompute(att) && trust.copyOnly(gen)
  }

  predicate Uncovered(att: Attestation) {
    && ClaimsRecompute(att)
    && (Lookup(att.metadata, "mutation_kill_rate") != "100%" || Blank(Lookup(att.metadata, "mutation_catalog_digest")))
  }

  /** What one attestation is judged by under one of the per-attestation conditions. */
  predicate Objects(id: ConditionId, pol: ReleasePolicy, trust: Trust, att: Attestation) {
    match id
    case C02 => att.assurance == "assumption"
    case C03 => BadAssurance(pol, att)
    case C05 => BadSignature(trust, att)
    case C06 => BadMetadata(pol.allowedMetadataValues, att)
    case C08 => BadReplayMode(pol.requiredReplayMode, att)
    case C09 => att.checker.runtime.kind in pol.forbiddenRuntimes
    case C10 => CopyOnly(trust, att)
    case C11 => Uncovered(att)
    case _ => false
  }

  /** How an attestation that is objected to is listed; C06 lists one offence per metadata key instead. */
  function OffenceOf(id: ConditionId, pol: ReleasePolicy, trust: Trust, c: string, att: Attestation): Offence {
    match id
    case C03 => if att.assurance in pol.forbiddenAssurances then ForbiddenAssurance(c) else UnlistedAssurance(c)
    case C05 =>
      if IsUnsigned(att) then Unsigned(c)
      else if att.signature.value.fingerprint !in trust.keys then UnknownKey(c)
      else Forged(c)
    case C11 => if Lookup(att.metadata, "mutation_kill_rate") != "100%" then LowKillRate(c) else NoCatalog(c)
    case _ => Named(c)
  }

  predicate MissesRecord(att: Attestation) {
    att.selfDigest == "" || att.startFreshness == "" || att.endFreshness == ""
  }

  /** A claim with a checker policy that has no attestation, or one that misses a record. */
  ghost predicate LacksRecord(claims: map<string, Claim>, atts: Attestations, c: string) {
    c in claims && claims[c].checkerPolicy != "" && (c !in atts || MissesRecord(atts[c]))
  }

  ghost predicate KeyCarried(atts: Attestations, key: string) {
    exists id :: id in atts && Lookup(atts[id].metadata, key) != ""
  }

  ghost predicate KeyPresent(atts: Attestations, key: string) {
    exists id :: id in atts && key in atts[id].metadata
  }

  /** The condition is met. */
  ghost predicate Holds(id: ConditionId, claims: map<string, Claim>, atts: Attestations, pol: ReleasePolicy,
                        trust: Trust) {
    match id
    case C01 => forall c :: c in claims ==> c in atts && AcceptedAtt(atts[c])
    case C04 => forall c :: c in claims ==> !LacksRecord(claims, atts, c)
    case C07 =>
      forall t :: t in pol.conditionalMetadataKeys && KeyPresent(atts, t) ==>
        KeyCarried(atts, pol.conditionalMetadataKeys[t])
    case MetaKey(key) => KeyCarried(atts, key)
    case _ => forall c :: c in atts ==> !Objects(id, pol, trust, atts[c])
  }

  ghost function Unaccepted(claims: map<string, Claim>, atts: Attestations): set<Offence> {
    set c | c in claims && !(c in atts && AcceptedAtt(atts[c])) :: Named(c)
  }

  ghost function Unrecorded(claims: map<string, Claim>, atts: Attestations): set<Offence> {
    set c | c in claims && LacksRecord(claims, atts, c) :: Named(c)
  }

  ghost function BadValues(allowed: map<string, seq<string>>, atts: Attestations): set<Offence> {
    set c, k |
      c in atts && k in allowed && k in atts[c].metadata && atts[c].metadata[k] !in allowed[k] :: BadValue(c, k)
  }

  ghost function UnmetTriggers(conditionals: map<string, string>, atts: Attestations): set<Offence> {
    set t | t in conditionals && KeyPresent(atts, t) && !KeyCarried(atts, conditionals[t]) :: Named(t)
  }

  ghost function ObjectedTo(id: ConditionId, atts: Attestations, pol: ReleasePolicy, trust: Trust): set<Offence> {
    set c | c in atts && Objects(id, pol, trust, atts[c]) :: OffenceOf(id, pol, trust, c, atts[c])
  }

  /** Everything a condition has to list. */
  ghost function Offences(id: ConditionId, claims: map<string, Claim>, atts: Attestations, pol: ReleasePolicy,
                          trust: Trust): set<Offence> {
    match id
    case C01 => Unaccepted(claims, atts)
    case C04 => Unrecorded(claims, atts)
    case C06 => BadValues(pol.allowedMetadataValues, atts)
    case C07 => UnmetTriggers(pol.conditionalMetadataKeys, atts)
    case MetaKey(_) => {}
    case _ => ObjectedTo(id, atts, pol, trust)
  }

  /** The one right result of a condition. */
  ghost function ResultOf(id: ConditionId, claims: map<string, Claim>, atts: Attestations, pol: ReleasePolicy,
                          trust: Trust): ConditionResult {
    ConditionResult(id, Holds(id, claims, atts, pol, trust), Offences(id, claims, atts, pol, trust))
  }

  /** The numbered conditions a policy activates, in evaluation order. */
  function Numbered(pol: ReleasePolicy): seq<ConditionId> {
    When(true, C01) + When(true, C02) + When(true, C03) + When(true, C04)
    + When(pol.requireSigned, C05)
    + When(|pol.allowedMetadataValues| > 0, C06)
    + When(|pol.conditionalMetadataKeys| > 0, C07)
    + When(pol.requiredReplayMode != "", C08)
    + When(|pol.forbiddenRuntimes| > 0, C09)
    + When(pol.forbidCopyOnly, C10)
    + When(pol.requireMutationCoverage, C11)
  }

  function When(active: bool, id: ConditionId): (ids: seq<ConditionId>)
    ensures forall x :: x in ids <==> active && x == id
  {
    if active then [id] else []
  }

  /** All conditions a policy activates: the numbered ones, then one per required metadata key. */
  function Active(pol: ReleasePolicy): seq<ConditionId> {
    var keys := pol.requiredMetadataKeys;
    Numbered(pol) + seq(|keys|, i requires 0 <= i < |keys| => MetaKey(keys[i]))
  }

  function Number(id: ConditionId): nat {
    match id
    case C01 => 1 case C02 => 2 case C03 => 3 case C04 => 4 case C05 => 5 case C06 => 6
    case C07 => 7 case C08 => 8 case C09 => 9 case C10 => 10 case C11 => 11 case MetaKey(_) => 12
  }

  /** The numbers rise and stay below `n`. */
  ghost predicate RisesBelow(ids: seq<ConditionId>, n: nat) {
    && (forall i, j :: 0 <= i < j < |ids| ==> Number(ids[i]) < Number(ids[j]))
    && (forall i :: 0 <= i < |ids| ==> Number(ids[i]) < n)
  }

  lemma RisesOn(ids: seq<ConditionId>, active: bool, id: ConditionId)
    requires RisesBelow(ids, Number(id))
    ensures RisesBelow(ids + When(active, id), Number(id) + 1)
  {
  }

  /** Conditions are evaluated by rising number, each at most once, then the metadata keys as listed. */
  lemma EvaluationOrder(pol: ReleasePolicy)
    ensures var n := |Active(pol)| - |pol.requiredMetadataKeys|;
            && 0 <= n
            && (forall i, j :: 0 <= i < j < n ==> Number(Active(pol)[i]) < Number(Active(pol)[j]) < 12)
            && (forall k :: 0 <= k < |pol.requiredMetadataKeys| ==>
                  Active(pol)[n + k] == MetaKey(pol.requiredMetadataKeys[k]))
  {
    NumberedAscends(pol);
    hide Numbered;
  }

  lemma NumberedAscends(pol: ReleasePolicy)
    ensures RisesBelow(Numbered(pol), 12)
  {
    hide When, RisesBelow;
    var ids := When(true, C01);
    OnlyFirst();
    RisesOn(ids, true, C02);
    ids := ids + When(true, C02);
    RisesOn(ids, true, C03);
    ids := ids + When(true, C03);
    RisesOn(ids, true, C04);
    ids := ids + When(true, C04);
    RisesOn(ids, pol.requireSigned, C05);
    ids := ids + When(pol.requireSigned, C05);
    RisesOn(ids, |pol.allowedMetadataValues| > 0, C06);
    ids := ids + When(|pol.allowedMetadataValues| > 0, C06);
    RisesOn(ids, |pol.conditionalMetadataKeys| > 0, C07);
    ids := ids + When(|pol.conditionalMetadataKeys| > 0, C07);
    RisesOn(ids, pol.requiredReplayMode != "", C08);
    ids := ids + When(pol.requiredReplayMode != "", C08);
    RisesOn(ids, |pol.forbiddenRuntimes| > 0, C09);
    ids := ids + When(|pol.forbiddenRuntimes| > 0, C09);
    RisesOn(ids, pol.forbidCopyOnly, C10);
    ids := ids + When(pol.forbidCopyOnly, C10);
    RisesOn(ids, pol.requireMutationCoverage, C11);
  }

  lemma OnlyFirst()
    ensures RisesBelow(When(true, C01), 2)
  {
  }

  // ------------------------------------------------------------ acceptance, decided a second time

  /** Verdicts decide under protocol 2, the outcome field otherwise. */
  ghost predicate AcceptedAtt(att: Attestation) {
    if IsV2(att) then AllPassing(att.obligationResults) else att.outcome == Accepted
  }

  method AttestationAccepted(att: Attestation) returns (accepted: bool)
    ensures accepted <==> AcceptedAtt(att)
  {
    if att.checker.protocolVersion == 2 {
      if |att.obligationResults| == 0 { return false; }
      for i := 0 to |att.obligationResults|
        invariant forall k :: 0 <= k < i ==> att.obligationResults[k].verdict == PASS
      {
        if att.obligationResults[i].verdict != PASS { return false; }
      }
      return true;
    }
    return att.outcome == Accepted;
  }

  /** The status projection shows every claim accepted exactly when C01 holds. */
  lemma StatusAgreesWithC01(e: Edges, claims: map<string, Claim>, atts: Attestations, pol: ReleasePolicy, trust: Trust)
    ensures (forall c :: c in claims ==> StatusOf(e, atts, c) == Accepted) <==> Holds(C01, claims, atts, pol, trust)
  {
  }

  // ------------------------------------------------------------ the checks

  /** The test that C02 and C08 to C11 put to one attestation, step by step. */
  method JudgeOne(id: ConditionId, pol: ReleasePolicy, trust: Trust, c: string, att: Attestation)
    returns (offence: Option<Offence>)
    requires id in {C02, C08, C09, C10, C11}
    ensures offence.Some? <==> Objects(id, pol, trust, att)
    ensures offence.Some? ==> offence.value == OffenceOf(id, pol, trust, c, att)
  {
    var recompute := att.replayMode == "from_scratch" || att.assurance == "reproducible-computation"
                     || att.assurance == "exact-replay";
    match id {
      case C02 =>
        if att.assurance == "assumption" { return Some(Named(c)); }
      case C08 =>
        if att.replayMode == "" { return None; }
        if att.replayMode != pol.requiredReplayMode { return Some(Named(c)); }
      case C09 =>
        if att.checker.runtime.kind in pol.forbiddenRuntimes { return Some(Named(c)); }
      case C10 =>
        var gen := Lookup(att.metadata, "generator_cmds");
        if gen == "" || !recompute { return None; }
        if trust.copyOnly(gen) { return Some(Named(c)); }
      case C11 =>
        if !recompute { return None; }
        if Lookup(att.metadata, "mutation_kill_rate") != "100%" { return Some(LowKillRate(c)); }
        if Blank(Lookup(att.metadata, "mutation_catalog_digest")) { return Some(NoCatalog(c)); }
    }
    return None;
  }

  /** What C02 and C08 to C11 list, from the fields of the attestation. */
  lemma OffenceIff(atts: Attestations, pol: ReleasePolicy, trust: Trust, c: string)
    requires c in atts
    ensures var att := atts[c];
            var recomputed := att.replayMode == "from_scratch" || att.assurance == "reproducible-computation"
                              || att.assurance == "exact-replay";
            var killed := "mutation_kill_rate" in att.metadata && att.metadata["mutation_kill_rate"] == "100%";
            && (Named(c) in ObjectedTo(C02, atts, pol, trust) <==> att.assurance == "assumption")
            && (Named(c) in ObjectedTo(C08, atts, pol, trust) <==>
                att.replayMode != "" && att.replayMode != pol.requiredReplayMode)
            && (Named(c) in ObjectedTo(C09, atts, pol, trust) <==> att.checker.runtime.kind in pol.forbiddenRuntimes)
            && (Named(c) in ObjectedTo(C10, atts, pol, trust) <==>
                && recomputed && "generator_cmds" in att.metadata && att.metadata["generator_cmds"] != ""
                && trust.copyOnly(att.metadata["generator_cmds"]))
            && (LowKillRate(c) in ObjectedTo(C11, atts, pol, trust) <==> recomputed && !killed)
            && (NoCatalog(c) in ObjectedTo(C11, atts, pol, trust) <==>
                && recomputed && killed
                && ("mutation_catalog_digest" in att.metadata ==> Blank(att.metadata["mutation_catalog_digest"])))
  {
    ObjectedIff(C02, atts, pol, trust, c);
    ObjectedIff(C08, atts, pol, trust, c);
    ObjectedIff(C09, atts, pol, trust, c);
    ObjectedIff(C10, atts, pol, trust, c);
    ObjectedIff(C11, atts, pol, trust, c);
    hide ObjectedTo;
  }

  lemma ObjectedIff(id: ConditionId, atts: Attestations, pol: ReleasePolicy, trust: Trust, c: string)
    requires c in atts && id in {C02, C08, C09, C10, C11}
    ensures Named(c) in ObjectedTo(id, atts, pol, trust) <==>
            Objects(id, pol, trust, atts[c]) && OffenceOf(id, pol, trust, c, atts[c]) == Named(c)
    ensures LowKillRate(c) in ObjectedTo(id, atts, pol, trust) <==>
            Objects(id, pol, trust, atts[c]) && OffenceOf(id, pol, trust, c, atts[c]) == LowKillRate(c)
    ensures NoCatalog(c) in ObjectedTo(id, atts, pol, trust) <==>
            Objects(id, pol, trust, atts[c]) && OffenceOf(id, pol, trust, c, atts[c]) == NoCatalog(c)
  {
    hide Objects;
  }

  /** C02 and C08 to C11: one loop over the attestations. */
  method CheckEach(id: ConditionId, atts: Attestations, pol: ReleasePolicy, trust: Trust) returns (r: ConditionResult)
    requires id in {C02, C08, C09, C10, C11}
    ensures r.id == id && r.offences == ObjectedTo(id, atts, pol, trust)
    ensures r.passed <==> forall c :: c in atts ==> !Objects(id, pol, trust, atts[c])
  {
    hide Objects, OffenceOf;
    var found: set<Offence> := {};
    var todo := atts.Keys;
    while todo != {}
      invariant todo <= atts.Keys
      invariant found == ObjectedTo(id, atts - todo, pol, trust)
    {
      var c :| c in todo;
      OneMoreObjected(id, atts, todo, c, pol, trust);
      todo := todo - {c};
      var offence := JudgeOne(id, pol, trust, c, atts[c]);
      if offence.Some? { found := found + {offence.value}; }
    }
    assert atts - todo == atts;
    r := ConditionResult(id, found == {}, found);
    NoneObjectedIff(id, atts, pol, trust);
  }

  lemma OneMoreObjected(id: ConditionId, atts: Attestations, todo: set<string>, c: string, pol: ReleasePolicy,
                        trust: Trust)
    requires c in todo && todo <= atts.Keys
    ensures ObjectedTo(id, atts - (todo - {c}), pol, trust)
            == ObjectedTo(id, atts - todo, pol, trust)
               + if Objects(id, pol, trust, atts[c]) then {OffenceOf(id, pol, trust, c, atts[c])} else {}
  {
    hide Objects, OffenceOf;
    assert (atts - (todo - {c})).Keys == (atts - todo).Keys + {c};
  }

  lemma NoneObjectedIff(id: ConditionId, atts: Attestations, pol: ReleasePolicy, trust: Trust)
    ensures ObjectedTo(id, atts, pol, trust) == {} <==> forall c :: c in atts ==> !Objects(id, pol, trust, atts[c])
  {
    hide Objects, OffenceOf;
    if c :| c in atts && Objects(id, pol, trust, atts[c]) {
      assert OffenceOf(id, pol, trust, c, atts[c]) in ObjectedTo(id, atts, pol, trust);
    }
  }

  /** C03: forbidden first, then not allowed; an empty allowed list allows everything. */
  method CheckAssurances(atts: Attestations, pol: ReleasePolicy, trust: Trust) returns (r: ConditionResult)
    ensures r.id == C03 && r.offences == ObjectedTo(C03, atts, pol, trust)
    ensures forall c :: ForbiddenAssurance(c) in r.offences <==>
              c in atts && atts[c].assurance != "" && atts[c].assurance in pol.forbiddenAssurances
    ensures forall c :: UnlistedAssurance(c) in r.offences <==>
              && c in atts && atts[c].assurance != "" && atts[c].assurance !in pol.forbiddenAssurances
              && pol.allowedAssurances != [] && atts[c].assurance !in pol.allowedAssurances
    ensures r.passed <==> forall c :: c in atts ==> !BadAssurance(pol, atts[c])
  {
    var found: set<Offence> := {};
    var todo := atts.Keys;
    while todo != {}
      invariant todo <= atts.Keys
      invariant found == ObjectedTo(C03, atts - todo, pol, trust)
    {
      var c :| c in todo;
      OneMoreObjected(C03, atts, todo, c, pol, trust);
      todo := todo - {c};
      var assurance := atts[c].assurance;
      if assurance == "" { continue; }
      if assurance in pol.forbiddenAssurances {
        found := found + {ForbiddenAssurance(c)};
        continue;
      }
      if |pol.allowedAssurances| > 0 && assurance !in pol.allowedAssurances {
        found := found + {UnlistedAssurance(c)};
      }
    }
    assert atts - todo == atts;
    r := ConditionResult(C03, found == {}, found);
    NoneObjectedIff(C03, atts, pol, trust);
  }

  /** Which of the three ways an attestation is listed in under C05, if any. */
  lemma SignatureOffenceIff(atts: Attestations, pol: ReleasePolicy, trust: Trust, c: string)
    requires c in atts
    ensures var listed, signature := ObjectedTo(C05, atts, pol, trust), atts[c].signature;
            var signed := signature.Some? && signature.value.value != "";
            && (Unsigned(c) in listed <==> !signed)
            && (UnknownKey(c) in listed <==> signed && signature.value.fingerprint !in trust.keys)
            && (Forged(c) in listed <==>
                signed && signature.value.fingerprint in trust.keys && !trust.verify(atts[c]))
  {
    if BadSignature(trust, atts[c]) {
      assert OffenceOf(C05, pol, trust, c, atts[c]) in ObjectedTo(C05, atts, pol, trust);
    }
  }

  /** C05: unsigned attestations, then those whose key is unknown, then those that do not verify. */
  method CheckSignatures(atts: Attestations, pol: ReleasePolicy, trust: Trust) returns (r: ConditionResult)
    ensures r.id == C05 && r.offences == ObjectedTo(C05, atts, pol, trust)
    ensures r.passed <==> forall c :: c in atts ==> !BadSignature(trust, atts[c])
  {
    var unsigned: set<Offence>, invalid: set<Offence> := {}, {};
    var todo := atts.Keys;
    while todo != {}
      invariant todo <= atts.Keys
      invariant unsigned + invalid == ObjectedTo(C05, atts - todo, pol, trust)
    {
      var c :| c in todo;
      OneMoreObjected(C05, atts, todo, c, pol, trust);
      todo := todo - {c};
      var att := atts[c];
      if att.signature.None? || att.signature.value.value == "" {
        unsigned := unsigned + {Unsigned(c)};
        continue;
      }
      if att.signature.value.fingerprint !in trust.keys {
        invalid := invalid + {UnknownKey(c)};
        continue;
      }
      if !trust.verify(att) { invalid := invalid + {Forged(c)}; }
    }
    assert atts - todo == atts;
    r := ConditionResult(C05, unsigned == {} && invalid == {}, unsigned + invalid);
    NoneObjectedIff(C05, atts, pol, trust);
  }

  /** C06: every attestation against every constrained key. */
  method CheckMetadataValues(atts: Attestations, allowed: map<string, seq<string>>) returns (r: ConditionResult)
    ensures r.id == C06 && r.offences == BadValues(allowed, atts)
    ensures forall c, k :: BadValue(c, k) in r.offences <==>
              c in atts && k in allowed && k in atts[c].metadata && atts[c].metadata[k] !in allowed[k]
    ensures r.passed <==> forall c :: c in atts ==> !BadMetadata(allowed, atts[c])
  {
    var found: set<Offence> := {};
    var todo := atts.Keys;
    while todo != {}
      invariant todo <= atts.Keys
      invariant found == BadValues(allowed, atts - todo)
    {
      var c :| c in todo;
      var keys := allowed.Keys;
      while keys != {}
        invariant keys <= allowed.Keys
        invariant found == BadValues(allowed, atts - todo) + BadValues(allowed - keys, map[c := atts[c]])
      {
        var k :| k in keys;
        OneMoreKey(c, atts[c], allowed, keys, k);
        keys := keys - {k};
        if k in atts[c].metadata && atts[c].metadata[k] !in allowed[k] { found := found + {BadValue(c, k)}; }
      }
      assert allowed - keys == allowed;
      OneMoreClaim(c, atts, todo, allowed);
      todo := todo - {c};
    }
    assert atts - todo == atts;
    r := ConditionResult(C06, found == {}, found);
    NoBadValuesIff(allowed, atts);
  }

  lemma OneMoreKey(c: string, att: Attestation, allowed: map<string, seq<string>>, keys: set<string>, k: string)
    requires k in keys && keys <= allowed.Keys
    ensures BadValues(allowed - (keys - {k}), map[c := att])
            == BadValues(allowed - keys, map[c := att])
               + if k in att.metadata && att.metadata[k] !in allowed[k] then {BadValue(c, k)} else {}
  {
    assert (allowed - (keys - {k})).Keys == (allowed - keys).Keys + {k};
  }

  lemma OneMoreClaim(c: string, atts: Attestations, todo: set<string>, allowed: map<string, seq<string>>)
    requires c in todo && todo <= atts.Keys
    ensures BadValues(allowed, atts - (todo - {c}))
            == BadValues(allowed, atts - todo) + BadValues(allowed, map[c := atts[c]])
  {
    assert (atts - (todo - {c})).Keys == (atts - todo).Keys + {c};
  }

  lemma NoBadValuesIff(allowed: map<string, seq<string>>, atts: Attestations)
    ensures BadValues(allowed, atts) == {} <==> forall c :: c in atts ==> !BadMetadata(allowed, atts[c])
  {
    if c :| c in atts && BadMetadata(allowed, atts[c]) {
      var k :| k in allowed && k in atts[c].metadata && atts[c].metadata[k] !in allowed[k];
      assert BadValue(c, k) in BadValues(allowed, atts);
    }
  }

  method CheckGlobalStatus(graph: DAG, atts: Attestations) returns (r: ConditionResult)
    requires graph.Valid()
    ensures r.id == C01 && r.offences == Unaccepted(graph.claims, atts)
    ensures forall c :: Named(c) in r.offences <==> c in graph.claims && !(c in atts && AcceptedAtt(atts[c]))
    ensures r.passed <==> forall c :: c in graph.claims ==> c in atts && AcceptedAtt(atts[c])
  {
    hide ValidClaimId, NoDup, AcceptedAtt;
    var claims := graph.Claims();
    var failed: set<Offence> := {};
    for i := 0 to |claims|
      invariant failed == set c | c in graph.order[..i] && !(c in atts && AcceptedAtt(atts[c])) :: Named(c)
    {
      var id := claims[i].id;
      assert graph.order[..i + 1] == graph.order[..i] + [id];
      var ok := false;
      if id in atts { ok := AttestationAccepted(atts[id]); }
      if !ok { failed := failed + {Named(id)}; }
    }
    assert graph.order[..|claims|] == graph.order;
    assert forall c :: c in graph.order <==> c in Elems(graph.order);
    r := ConditionResult(C01, failed == {}, failed);
    if c :| c in graph.claims && !(c in atts && AcceptedAtt(atts[c])) { assert Named(c) in failed; }
  }

  method CheckReplayConsistency(graph: DAG, atts: Attestations) returns (r: ConditionResult)
    requires graph.Valid()
    ensures r.id == C04 && r.offences == Unrecorded(graph.claims, atts)
    ensures r.passed <==> forall c :: c in graph.claims ==> !LacksRecord(graph.claims, atts, c)
  {
    hide ValidClaimId, NoDup, LacksRecord, MissesRecord;
    var claims := graph.Claims();
    var missing: set<Offence> := {};
    for i := 0 to |claims|
      invariant missing == set c | c in graph.order[..i] && LacksRecord(graph.claims, atts, c) :: Named(c)
    {
      var c := claims[i];
      assert graph.order[..i + 1] == graph.order[..i] + [c.id];
      var lacks := LacksNow(graph, atts, c);
      if lacks { missing := missing + {Named(c.id)}; }
    }
    assert graph.order[..|claims|] == graph.order;
    assert forall c :: c in graph.order <==> c in Elems(graph.order);
    r := ConditionResult(C04, missing == {}, missing);
    if c :| c in graph.claims && LacksRecord(graph.claims, atts, c) { assert Named(c) in missing; }
  }

  /** The test of C04 on one claim. */
  method LacksNow(graph: DAG, atts: Attestations, c: Claim) returns (lacks: bool)
    requires graph.Valid() && c.id in graph.claims && graph.claims[c.id] == c
    ensures lacks <==> LacksRecord(graph.claims, atts, c.id)
  {
    if c.checkerPolicy == "" { return false; }
    if c.id !in atts { return true; }
    var att := atts[c.id];
    return att.selfDigest == "" || att.startFreshness == "" || att.endFreshness == "";
  }

  method HasMetaKey(atts: Attestations, key: string) returns (found: bool)
    ensures found <==> KeyCarried(atts, key)
  {
    var todo := atts.Keys;
    while todo != {}
      invariant todo <= atts.Keys
      invariant forall c :: c in atts && c !in todo ==> Lookup(atts[c].metadata, key) == ""
    {
      var c :| c in todo;
      todo := todo - {c};
      if key in atts[c].metadata && atts[c].metadata[key] != "" { return true; }
    }
    return false;
  }

  method HasTrigger(atts: Attestations, key: string) returns (found: bool)
    ensures found <==> KeyPresent(atts, key)
  {
    var todo := atts.Keys;
    while todo != {}
      invariant todo <= atts.Keys
      invariant forall c :: c in atts && c !in todo ==> key !in atts[c].metadata
    {
      var c :| c in todo;
      todo := todo - {c};
      if key in atts[c].metadata { return true; }
    }
    return false;
  }

  method CheckConditionalMetadata(atts: Attestations, conditionals: map<string, string>) returns (r: ConditionResult)
    ensures r.id == C07 && r.offences == UnmetTriggers(conditionals, atts)
    ensures r.passed <==> forall t :: t in conditionals && KeyPresent(atts, t) ==> KeyCarried(atts, conditionals[t])
  {
    var found: set<Offence> := {};
    var todo := conditionals.Keys;
    while todo != {}
      invariant todo <= conditionals.Keys
      invariant found == set t | t in conditionals && t !in todo && KeyPresent(atts, t)
                                 && !KeyCarried(atts, conditionals[t]) :: Named(t)
    {
      var t :| t in todo;
      todo := todo - {t};
      var triggered := HasTrigger(atts, t);
      if !triggered { continue; }
      var satisfied := HasMetaKey(atts, conditionals[t]);
      if !satisfied { found := found + {Named(t)}; }
    }
    r := ConditionResult(C07, found == {}, found);
    if t :| t in conditionals && KeyPresent(atts, t) && !KeyCarried(atts, conditionals[t]) { assert Named(t) in found; }
  }

  method CheckMetadataKey(atts: Attestations, key: string) returns (r: ConditionResult)
    ensures r.id == MetaKey(key) && r.offences == {} && (r.passed <==> KeyCarried(atts, key))
  {
    var found := HasMetaKey(atts, key);
    r := ConditionResult(MetaKey(key), found, {});
  }

  method Check(id: ConditionId, graph: DAG, atts: Attestations, pol: ReleasePolicy, trust: Trust)
    returns (r: ConditionResult)
    requires graph.Valid()
    ensures r == ResultOf(id, graph.claims, atts, pol, trust)
  {
    hide AcceptedAtt, KeyPresent, KeyCarried, LacksRecord, BadAssurance, BadSignature, BadMetadata;
    hide Unaccepted, Unrecorded, BadValues, UnmetTriggers, ObjectedTo;
    match id
    case C01 => r := CheckGlobalStatus(graph, atts);
    case C03 => r := CheckAssurances(atts, pol, trust);
    case C05 => r := CheckSignatures(atts, pol, trust);
    case C06 => r := CheckMetadataValues(atts, pol.allowedMetadataValues);
    case C04 => r := CheckReplayConsistency(graph, atts);
    case C07 => r := CheckConditionalMetadata(atts, pol.conditionalMetadataKeys);
    case MetaKey(key) => r := CheckMetadataKey(atts, key);
    case _ => r := CheckEach(id, atts, pol, trust);
  }

  /** The right result of every listed condition, in that order. */
  ghost predicate Judged(results: seq<ConditionResult>, ids: seq<ConditionId>,
                         claims: map<string, Claim>, atts: Attestations, pol: ReleasePolicy, trust: Trust)
  {
    && |results| == |ids|
    && forall i :: 0 <= i < |ids| ==> results[i] == ResultOf(ids[i], claims, atts, pol, trust)
  }

  lemma JudgedNone(claims: map<string, Claim>, atts: Attestations, pol: ReleasePolicy, trust: Trust)
    ensures Judged([], [], claims, atts, pol, trust)
  {
  }

  /** Appends the result of a condition if the policy activates it. */
  method AppendIf(active: bool, id: ConditionId, results: seq<ConditionResult>, ghost ids: seq<ConditionId>,
                  graph: DAG, atts: Attestations, pol: ReleasePolicy, trust: Trust)
    returns (results': seq<ConditionResult>)
    requires graph.Valid() && Judged(results, ids, graph.claims, atts, pol, trust)
    ensures Judged(results', ids + When(active, id), graph.claims, atts, pol, trust)
  {
    hide ResultOf, Holds;
    results' := results;
    if active {
      var r := Check(id, graph, atts, pol, trust);
      results' := results + [r];
    } else {
      assert ids + [] == ids;
    }
  }

  method EvaluateNumbered(graph: DAG, atts: Attestations, pol: ReleasePolicy, trust: Trust)
    returns (results: seq<ConditionResult>)
    requires graph.Valid()
    ensures Judged(results, Numbered(pol), graph.claims, atts, pol, trust)
  {
    hide Judged, When;
    results := [];
    ghost var ids: seq<ConditionId> := [];
    assert Judged(results, ids, graph.claims, atts, pol, trust) by { JudgedNone(graph.claims, atts, pol, trust); }
    results := AppendIf(true, C01, results, ids, graph, atts, pol, trust);
    ids := When(true, C01);
    assert [] + When(true, C01) == ids;
    results := AppendIf(true, C02, results, ids, graph, atts, pol, trust);
    ids := ids + When(true, C02);
    results := AppendIf(true, C03, results, ids, graph, atts, pol, trust);
    ids := ids + When(true, C03);
    results := AppendIf(true, C04, results, ids, graph, atts, pol, trust);
    ids := ids + When(true, C04);
    results := AppendIf(pol.requireSigned, C05, results, ids, graph, atts, pol, trust);
    ids := ids + When(pol.requireSigned, C05);
    results := AppendIf(|pol.allowedMetadataValues| > 0, C06, results, ids, graph, atts, pol, trust);
    ids := ids + When(|pol.allowedMetadataValues| > 0, C06);
    results := AppendIf(|pol.conditionalMetadataKeys| > 0, C07, results, ids, graph, atts, pol, trust);
    ids := ids + When(|pol.conditionalMetadataKeys| > 0, C07);
    results := AppendIf(pol.requiredReplayMode != "", C08, results, ids, graph, atts, pol, trust);
    ids := ids + When(pol.requiredReplayMode != "", C08);
    results := AppendIf(|pol.forbiddenRuntimes| > 0, C09, results, ids, graph, atts, pol, trust);
    ids := ids + When(|pol.forbiddenRuntimes| > 0, C09);
    results := AppendIf(pol.forbidCopyOnly, C10, results, ids, graph, atts, pol, trust);
    ids := ids + When(pol.forbidCopyOnly, C10);
    results := AppendIf(pol.requireMutationCoverage, C11, results, ids, graph, atts, pol, trust);
    ids := ids + When(pol.requireMutationCoverage, C11);
    assert ids == Numbered(pol);
  }

  method EvaluateConditions(graph: DAG, atts: Attestations, pol: ReleasePolicy, trust: Trust)
    returns (results: seq<ConditionResult>)
    requires graph.Valid()
    ensures Judged(results, Active(pol), graph.claims, atts, pol, trust)
  {
    hide Judged, Numbered;
    results := EvaluateNumbered(graph, atts, pol, trust);
    ghost var n := |Numbered(pol)|;
    var keys := pol.requiredMetadataKeys;
    assert Numbered(pol) == Active(pol)[..n];
    for i := 0 to |keys|
      invariant Judged(results, Active(pol)[..n + i], graph.claims, atts, pol, trust)
    {
      results := AppendIf(true, MetaKey(keys[i]), results, Active(pol)[..n + i], graph, atts, pol, trust);
      assert Active(pol)[..n + i + 1] == Active(pol)[..n + i] + When(true, MetaKey(keys[i]));
    }
    assert Active(pol)[..n + |keys|] == Active(pol);
  }

  method AllPassed(results: seq<ConditionResult>) returns (ok: bool)
    ensures ok <==> forall i :: 0 <= i < |results| ==> results[i].passed
  {
    for i := 0 to |results|
      invariant forall k :: 0 <= k < i ==> results[k].passed
    {
      if !results[i].passed { return false; }
    }
    return true;
  }

  ghost function Failed(results: seq<ConditionResult>): seq<ConditionResult> {
    if results == [] then []
    else
      var init, last := results[..|results| - 1], results[|results| - 1];
      Failed(init) + if last.passed then [] else [last]
  }

  lemma {:induction false} FailedMembers(results: seq<ConditionResult>)
    ensures forall r :: r in Failed(results) <==> r in results && !r.passed
    ensures Failed(results) == [] <==> forall i :: 0 <= i < |results| ==> results[i].passed
  {
    if results != [] {
      var init, last := results[..|results| - 1], results[|results| - 1];
      assert results == init + [last];
      FailedMembers(init);
    }
  }

  /** Failed results keep their order. */
  lemma {:induction false} FailedInOrder(a: seq<ConditionResult>, b: seq<ConditionResult>)
    ensures Failed(a + b) == Failed(a) + Failed(b)
  {
    if b == [] {
      assert a + b == a;
    } else {
      var init, last := b[..|b| - 1], b[|b| - 1];
      var one := if last.passed then [] else [last];
      hide Failed;
      calc {
        Failed(a + b);
        { assert a + b == (a + init) + [last]; }
        Failed((a + init) + [last]);
        { FailedSnoc(a + init, last); }
        Failed(a + init) + one;
        { FailedInOrder(a, init); }
        Failed(a) + Failed(init) + one;
        Failed(a) + (Failed(init) + one);
        { FailedSnoc(init, last); assert init + [last] == b; }
        Failed(a) + Failed(b);
      }
    }
  }

  /** One more result is taken if it failed, and then goes last. */
  lemma FailedSnoc(results: seq<ConditionResult>, r: ConditionResult)
    ensures Failed(results + [r]) == Failed(results) + if r.passed then [] else [r]
  {
    assert (results + [r])[..|results|] == results;
  }

  /** The failed results, in order. */
  method Blockers(results: seq<ConditionResult>) returns (out: seq<ConditionResult>)
    ensures out == Failed(results)
    ensures forall r :: r in out <==> r in results && !r.passed
    ensures out == [] <==> forall i :: 0 <= i < |results| ==> results[i].passed
  {
    out := [];
    for i := 0 to |results|
      invariant out == Failed(results[..i])
    {
      assert results[..i + 1][..i] == results[..i];
      if !results[i].passed { out := out + [results[i]]; }
    }
    assert results[..|results|] == results;
    FailedMembers(results);
  }
}
