/**
 The key a check is cached under.
 */
module Identity {
  import opened Ir

  ghost function IdsOf(deps: seq<Claim>): seq<string> {
    seq(|deps|, i requires 0 <= i < |deps| => deps[i].id)
  }

  ghost function DigestsOf(deps: seq<Claim>): seq<string> {
    seq(|deps|, i requires 0 <= i < |deps| => deps[i].statement.digest)
  }

  ghost function KeyOf(claim: Claim, deps: seq<Claim>, evidence: seq<EvidenceDescriptor>, checker: CheckerIdentity,
                       schemaDigest: string, policyDigest: string, toolchain: map<string, string>): CacheKey
  {
    HashOf(CacheKeyInput(claim.id, claim.kind, claim.statement.digest, IdsOf(deps), DigestsOf(deps), evidence, checker,
                         schemaDigest, policyDigest, if |toolchain| > 0 then Some(toolchain) else None))
  }

  /** Any change to any input changes the key; of the claims only the fields named here are inputs. */
  lemma EveryInputCounts(claim: Claim, deps: seq<Claim>, evidence: seq<EvidenceDescriptor>, checker: CheckerIdentity,
                         schemaDigest: string, policyDigest: string, toolchain: map<string, string>,
                         claim': Claim, deps': seq<Claim>, evidence': seq<EvidenceDescriptor>,
                         checker': CheckerIdentity,
                         schemaDigest': string, policyDigest': string, toolchain': map<string, string>)
    ensures KeyOf(claim, deps, evidence, checker, schemaDigest, policyDigest, toolchain)
            == KeyOf(claim', deps', evidence', checker', schemaDigest', policyDigest', toolchain')
            <==>
            && claim.id == claim'.id && claim.kind == claim'.kind && claim.statement.digest == claim'.statement.digest
            && |deps| == |deps'|
            && (forall i :: 0 <= i < |deps| ==>
                  deps[i].id == deps'[i].id && deps[i].statement.digest == deps'[i].statement.digest)
            && evidence == evidence' && checker == checker'
            && schemaDigest == schemaDigest' && policyDigest == policyDigest' && toolchain == toolchain'
  {
    if IdsOf(deps) == IdsOf(deps') && DigestsOf(deps) == DigestsOf(deps') {
      forall i | 0 <= i < |deps|
        ensures |IdsOf(deps')| == |deps| && deps[i].id == deps'[i].id
        ensures deps[i].statement.digest == deps'[i].statement.digest
      {
        assert IdsOf(deps)[i] == IdsOf(deps')[i] && DigestsOf(deps)[i] == DigestsOf(deps')[i];
      }
    }
    assert |toolchain| == 0 ==> toolchain == map[];
    assert |toolchain'| == 0 ==> toolchain' == map[];
  }

  method CacheKeyWithToolchain(claim: Claim, deps: seq<Claim>, evidence: seq<EvidenceDescriptor>,
                               checker: CheckerIdentity,
                               schemaDigest: string, policyDigest: string, toolchain: map<string, string>)
    returns (key: CacheKey)
    ensures key == KeyOf(claim, deps, evidence, checker, schemaDigest, policyDigest, toolchain)
  {
    var ids, digests := [], [];
    for i := 0 to |deps|
      invariant ids == IdsOf(deps[..i]) && digests == DigestsOf(deps[..i])
    {
      ids := ids + [deps[i].id];
      digests := digests + [deps[i].statement.digest];
    }
    assert deps[..|deps|] == deps;
    var hashed: Option<map<string, string>> := None;
    if |toolchain| > 0 { hashed := Some(toolchain); }
    return HashOf(CacheKeyInput(claim.id, claim.kind, claim.statement.digest, ids, digests, evidence, checker,
                                schemaDigest, policyDigest, hashed));
  }

  method PlainCacheKey(claim: Claim, deps: seq<Claim>, evidence: seq<EvidenceDescriptor>, checker: CheckerIdentity,
                       schemaDigest: string, policyDigest: string) returns (key: CacheKey)
    ensures key == KeyOf(claim, deps, evidence, checker, schemaDigest, policyDigest, map[])
  {
    key := CacheKeyWithToolchain(claim, deps, evidence, checker, schemaDigest, policyDigest, map[]);
  }
}
