/**
 `proofctl compile --adapter weil`: after compiling the graph, one shadow attestation per claim.
 */
module Shadowing {
  import opened Ir
  import opened StatusProjection
  import opened Pipeline
  import opened Attesting

  const ZERO_DIGEST := "sha256:0000000000000000000000000000000000000000000000000000000000000000"

  const SHADOW_CHECKER :=
    CheckerIdentity("weil-shadow-v0", 0, ZERO_DIGEST, ZERO_DIGEST, Runtime("shadow", [], "", "", ""), "none")

  /** A claim with a known defect is recorded as blocked for that reason, any other as open. */
  function ShadowRecord(w: World, defects: map<string, string>, c: string): Attestation
    requires c in w.claims
  {
    var a := BLANK.(claimId := c, statementDigest := w.claims[c].statement.digest, checker := SHADOW_CHECKER,
      assurance := "shadow-review");
    if c in defects then a.(outcome := Blocked, blockReason := defects[c])
    else a.(outcome := Open, blockReason := "no formal attestation — shadow mode only")
  }

  /** An attestation of a recognised assurance is not overwritten without force. */
  predicate ShadowSkips(dir: AttestDir, force: bool, c: string) {
    c in dir && AssuranceLevel(dir[c].assurance) > 0 && !force
  }

  ghost function ShadowRecords(w: World, defects: map<string, string>, cs: set<string>): (records: AttestDir)
    requires cs <= w.claims.Keys
    ensures records.Keys == cs && forall c :: c in cs ==> records[c] == ShadowRecord(w, defects, c)
  {
    map c | c in cs :: ShadowRecord(w, defects, c)
  }

  ghost function Unskipped(dir: AttestDir, force: bool, cs: set<string>): set<string> {
    set c | c in cs && !ShadowSkips(dir, force, c)
  }

  /** The directory once the claims `cs` have been gone through. */
  ghost function ShadowOver(w: World, dir: AttestDir, defects: map<string, string>, force: bool, cs: set<string>)
    : AttestDir
    requires cs <= w.claims.Keys
  {
    dir + ShadowRecords(w, defects, Unskipped(dir, force, cs))
  }

  ghost function ShadowSpec(w: World, dir: AttestDir, defects: map<string, string>, force: bool): AttestDir {
    ShadowOver(w, dir, defects, force, w.claims.Keys)
  }

  lemma OneMoreEntry(dir: AttestDir, records: AttestDir, longer: AttestDir, c: string)
    requires longer.Keys == records.Keys + {c} && forall x :: x in records && x != c ==> longer[x] == records[x]
    ensures dir + longer == (dir + records)[c := longer[c]]
  {
  }

  lemma OneMoreShadow(w: World, dir: AttestDir, defects: map<string, string>, force: bool, cs: set<string>, c: string)
    requires cs <= w.claims.Keys && c in w.claims && c !in cs
    ensures var before := ShadowOver(w, dir, defects, force, cs);
            && (c in before <==> c in dir) && (c in dir ==> before[c] == dir[c])
            && ShadowOver(w, dir, defects, force, cs + {c})
               == if ShadowSkips(dir, force, c) then before else before[c := ShadowRecord(w, defects, c)]
  {
    hide ShadowSkips, ShadowRecord, ShadowRecords;
    var written, after := Unskipped(dir, force, cs), Unskipped(dir, force, cs + {c});
    if ShadowSkips(dir, force, c) {
      assert after == written;
    } else {
      assert after == written + {c};
      OneMoreEntry(dir, ShadowRecords(w, defects, written), ShadowRecords(w, defects, after), c);
    }
  }

  method WriteShadows(store: Store, defects: map<string, string>, force: bool) returns (skipped: set<string>)
    modifies store`attestDir
    ensures store.attestDir == ShadowSpec(store.w, old(store.attestDir), defects, force)
    ensures skipped == set c | c in store.w.claims && ShadowSkips(old(store.attestDir), force, c)
  {
    hide ShadowRecord, AssuranceLevel, ShadowOver;
    var w := store.w;
    ghost var dir := store.attestDir;
    skipped := {};
    var todo := w.claims.Keys;
    NoShadows(w, dir, defects, force);
    while todo != {}
      invariant todo <= w.claims.Keys
      invariant store.attestDir == ShadowOver(w, dir, defects, force, w.claims.Keys - todo)
      invariant skipped == set c | c in w.claims && c !in todo && ShadowSkips(dir, force, c)
    {
      var c :| c in todo;
      OneMoreShadow(w, dir, defects, force, w.claims.Keys - todo, c);
      assert w.claims.Keys - (todo - {c}) == w.claims.Keys - todo + {c};
      todo := todo - {c};
      if c in store.attestDir && AssuranceLevel(store.attestDir[c].assurance) > 0 && !force {
        skipped := skipped + {c};
        continue;
      }
      store.attestDir := store.attestDir[c := ShadowRecord(w, defects, c)];
    }
    assert w.claims.Keys - todo == w.claims.Keys;
  }

  lemma NoShadows(w: World, dir: AttestDir, defects: map<string, string>, force: bool)
    ensures ShadowOver(w, dir, defects, force, w.claims.Keys - w.claims.Keys) == dir
  {
  }

  /** What a shadow compilation leaves: what was there, or a record that counts as an attestation of
      an earlier protocol. */
  lemma ShadowWrites(w: World, dir: AttestDir, defects: map<string, string>, force: bool, c: string)
    requires c in ShadowSpec(w, dir, defects, force)
    ensures var att := ShadowSpec(w, dir, defects, force)[c];
            if c in w.claims && !ShadowSkips(dir, force, c)
            then
              && att.claimId == c && att.cacheKey == NoKey && SpeaksTrue(att) && !IsV2(att)
              && att.outcome in {Blocked, Open}
            else c in dir && att == dir[c]
  {
    hide AssuranceLevel;
  }

  /** Which claims are skipped, and what the others' shadows say: blocked with the reason of a known defect,
      open without one. */
  lemma ShadowFields(w: World, dir: AttestDir, defects: map<string, string>, force: bool, c: string)
    requires c in w.claims
    ensures var skipped := c in dir && AssuranceLevel(dir[c].assurance) > 0 && !force;
            var shadows := ShadowSpec(w, dir, defects, force);
            && c in shadows
            && (skipped ==> shadows[c] == dir[c])
            && (!skipped && c in defects ==> shadows[c].outcome == Blocked && shadows[c].blockReason == defects[c])
            && (!skipped && c !in defects ==>
                  shadows[c].outcome == Open
                  && shadows[c].blockReason == "no formal attestation — shadow mode only")
            && (!skipped ==>
                  && shadows[c].statementDigest == w.claims[c].statement.digest
                  && shadows[c].assurance == "shadow-review" && shadows[c].checker.id == "weil-shadow-v0"
                  && shadows[c].checker.protocolVersion == 0 && shadows[c].checker.runtime.kind == "shadow")
  {
    hide AssuranceLevel;
  }

  /** The pipeline records no assurance, which ranks lowest: neither the protection against shadows
      nor that against downgrades by `attest` covers what a check has written. */
  lemma ChecksAreUnprotected(w: World, dir: AttestDir, q: Query, noCache: bool, env: Env, req: AttestRequest,
                             force: bool)
    requires var r := RunSpec(w, dir, q, noCache, env).0; r.Done? && !r.cacheHit
    ensures var dir' := RunSpec(w, dir, q, noCache, env).1;
            !ShadowSkips(dir', force, q.claimId) && (req.claimId == q.claimId ==> !Downgrades(dir', req))
  {
    hide Fresh, PlainKey;
    FreshlyBuilt(w, dir, q, noCache, env);
  }
}
