/**
 Tightening a release policy never lets through what was blocked before.
 */
module Tightening {
  import opened Ir
  import opened Graph
  import opened StatusProjection
  import opened Policy
  import opened Conditions
  import opened Gate

  /** `q` asks for at least what `p` asks for, setting by setting. */
  ghost predicate Tightens(p: ReleasePolicy, q: ReleasePolicy) {
    && Elems(p.requiredClaims) <= Elems(q.requiredClaims)
    && Elems(p.requiredMetadataKeys) <= Elems(q.requiredMetadataKeys)
    && Elems(p.forbiddenAssurances) <= Elems(q.forbiddenAssurances)
    && Elems(p.forbiddenRuntimes) <= Elems(q.forbiddenRuntimes)
    && NarrowerList(p.allowedAssurances, q.allowedAssurances)
    && (forall k :: k in p.allowedMetadataValues ==>
          k in q.allowedMetadataValues && Elems(q.allowedMetadataValues[k]) <= Elems(p.allowedMetadataValues[k]))
    && (forall t :: t in p.conditionalMetadataKeys ==>
          t in q.conditionalMetadataKeys && q.conditionalMetadataKeys[t] == p.conditionalMetadataKeys[t])
    && (p.requiredReplayMode == "" || q.requiredReplayMode == p.requiredReplayMode)
    && (p.requireSigned ==> q.requireSigned)
    && (p.forbidCopyOnly ==> q.forbidCopyOnly)
    && (p.requireMutationCoverage ==> q.requireMutationCoverage)
  }

  /** An empty list allows everything, so a list may shrink but not vanish. */
  ghost predicate NarrowerList(p: seq<string>, q: seq<string>) {
    p == [] || (q != [] && Elems(q) <= Elems(p))
  }

  predicate IsActive(pol: ReleasePolicy, id: ConditionId) {
    match id
    case C05 => pol.requireSigned
    case C06 => |pol.allowedMetadataValues| > 0
    case C07 => |pol.conditionalMetadataKeys| > 0
    case C08 => pol.requiredReplayMode != ""
    case C09 => |pol.forbiddenRuntimes| > 0
    case C10 => pol.forbidCopyOnly
    case C11 => pol.requireMutationCoverage
    case MetaKey(key) => key in pol.requiredMetadataKeys
    case _ => true
  }

  lemma NumberedMembers(pol: ReleasePolicy, id: ConditionId)
    ensures id in Numbered(pol) <==> !id.MetaKey? && IsActive(pol, id)
  {
    hide When;
  }

  lemma ActiveMembers(pol: ReleasePolicy, id: ConditionId)
    ensures id in Active(pol) <==> IsActive(pol, id)
  {
    hide Numbered;
    NumberedMembers(pol, id);
    var keys := pol.requiredMetadataKeys;
    var metas := seq(|keys|, i requires 0 <= i < |keys| => MetaKey(keys[i]));
    assert Active(pol) == Numbered(pol) + metas;
    if id.MetaKey? && id.key in keys {
      var i :| 0 <= i < |keys| && keys[i] == id.key;
      assert metas[i] == id;
    }
  }

  lemma ActiveStays(p: ReleasePolicy, q: ReleasePolicy, id: ConditionId)
    requires Tightens(p, q) && IsActive(p, id)
    ensures IsActive(q, id)
  {
    match id
    case C06 =>
      var k :| k in p.allowedMetadataValues;
      assert k in q.allowedMetadataValues;
    case C07 =>
      var t :| t in p.conditionalMetadataKeys;
      assert t in q.conditionalMetadataKeys;
    case C09 =>
      assert p.forbiddenRuntimes[0] in Elems(q.forbiddenRuntimes);
    case MetaKey(key) =>
      assert key in Elems(q.requiredMetadataKeys);
    case _ =>
  }

  /** What the looser policy objects to, the tighter one objects to as well. */
  lemma ObjectsStays(p: ReleasePolicy, q: ReleasePolicy, trust: Trust, id: ConditionId, att: Attestation)
    requires Tightens(p, q) && IsActive(p, id) && Objects(id, p, trust, att)
    ensures Objects(id, q, trust, att)
  {
    match id
    case C03 =>
      if att.assurance in p.forbiddenAssurances {
        assert att.assurance in Elems(q.forbiddenAssurances);
      } else {
        assert att.assurance !in Elems(q.allowedAssurances);
      }
    case C06 =>
      var k :| k in p.allowedMetadataValues && k in att.metadata && att.metadata[k] !in p.allowedMetadataValues[k];
      assert att.metadata[k] !in Elems(q.allowedMetadataValues[k]);
    case C09 =>
      assert att.checker.runtime.kind in Elems(q.forbiddenRuntimes);
    case _ =>
  }

  lemma HoldsBack(p: ReleasePolicy, q: ReleasePolicy, claims: map<string, Claim>, atts: Attestations, trust: Trust,
                  id: ConditionId)
    requires Tightens(p, q) && IsActive(p, id) && Holds(id, claims, atts, q, trust)
    ensures Holds(id, claims, atts, p, trust)
  {
    forall c | c in atts ensures Objects(id, p, trust, atts[c]) ==> Objects(id, q, trust, atts[c]) {
      if Objects(id, p, trust, atts[c]) { ObjectsStays(p, q, trust, id, atts[c]); }
    }
  }

  /** Whatever passes the tighter policy passes the looser one. */
  lemma TighteningNeverUnblocks(p: ReleasePolicy, q: ReleasePolicy, claims: map<string, Claim>, atts: Attestations,
                                trust: Trust)
    requires Tightens(p, q) && GatePasses(claims, atts, q, trust)
    ensures GatePasses(claims, atts, p, trust)
  {
    forall c | c in p.requiredClaims ensures RequiredClaimMet(claims.Keys, atts, c) {
      assert c in Elems(q.requiredClaims);
    }
    forall id | id in Active(p) ensures Holds(id, claims, atts, p, trust) {
      ActiveMembers(p, id);
      ActiveStays(p, q, id);
      ActiveMembers(q, id);
      HoldsBack(p, q, claims, atts, trust, id);
    }
  }

  // ------------------------------------------------------------ the allowed list must not vanish

  ghost function Longest(s: seq<string>): nat {
    if s == [] then 0 else var m := Longest(s[1..]); if |s[0]| > m then |s[0]| else m
  }

  lemma {:induction false} LongestBounds(s: seq<string>, x: string)
    requires x in s
    ensures |x| <= Longest(s)
  {
    if x != s[0] { LongestBounds(s[1..], x); }
  }

  /** An attestation of which only the assurance matters. */
  ghost function WithAssurance(a: string): Attestation {
    BLANK.(checker := NO_CHECKER.(protocolVersion := 2), outcome := Accepted, assurance := a)
  }

  /** Cutting the allowed list down to `fewer` keeps every objection of C03 exactly when the
      result is non-empty or there was no list to begin with: an emptied list lets through an
      assurance that was on no list. */
  lemma CuttingAllowedIff(p: ReleasePolicy, fewer: seq<string>)
    requires Elems(fewer) <= Elems(p.allowedAssurances)
    ensures (forall att :: BadAssurance(p, att) ==> BadAssurance(p.(allowedAssurances := fewer), att))
            <==> fewer != [] || p.allowedAssurances == []
  {
    var q := p.(allowedAssurances := fewer);
    if fewer != [] || p.allowedAssurances == [] {
      forall att | BadAssurance(p, att) ensures BadAssurance(q, att) {
        assert att.assurance in fewer ==> att.assurance in Elems(p.allowedAssurances);
      }
    } else {
      var n := Longest(p.allowedAssurances + p.forbiddenAssurances) + 1;
      var a := seq(n, _ => 'x');
      if a in p.allowedAssurances + p.forbiddenAssurances {
        LongestBounds(p.allowedAssurances + p.forbiddenAssurances, a);
        assert false;
      }
      assert BadAssurance(p, WithAssurance(a)) && !BadAssurance(q, WithAssurance(a));
    }
  }

  /** So, at the gate: one attested claim that is blocked while the list names another assurance
      is released once the list is emptied. */
  lemma EmptyingAllowedUnblocks(trust: Trust)
    ensures var claims := map["a" := Claim("a", "", Statement("", ""), [], "")];
            var atts := map["a" := WithAssurance("x").(obligationResults := [ObligationResult("o", PASS, "")])];
            var p := ReleasePolicy("", ["y"], [], [], [], false, map[], map[], "", [], false, false);
            && !GatePasses(claims, atts, p, trust)
            && GatePasses(claims, atts, p.(allowedAssurances := []), trust)
  {
    var claims := map["a" := Claim("a", "", Statement("", ""), [], "")];
    var atts := map["a" := WithAssurance("x").(obligationResults := [ObligationResult("o", PASS, "")])];
    var p := ReleasePolicy("", ["y"], [], [], [], false, map[], map[], "", [], false, false);
    var q := p.(allowedAssurances := []);
    assert BadAssurance(p, atts["a"]) && !BadAssurance(q, atts["a"]);
    ActiveMembers(p, C03);
    assert !Holds(C03, claims, atts, p, trust);
    forall id | id in Active(q) ensures Holds(id, claims, atts, q, trust) {
      ActiveMembers(q, id);
    }
  }
}
