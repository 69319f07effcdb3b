/**
 What an edit of the project does to the cache: which changes of claims change the key a
 check is looked up under, which do not, and what a hit is worth afterwards.
 */
module Edits {
  import opened Ir
  import opened Graph
  import opened Protocol
  import opened Merge
  import opened Identity
  import opened Pipeline
  import opened Text

  /** Claims are filed under their own ids. */
  ghost predicate Named(claims: map<string, Claim>) {
    forall c :: c in claims ==> claims[c].id == c
  }

  /** Two projects agree on everything about the query's claim that its key covers. */
  ghost predicate SameForKey(w: World, w': World, q: Query)
    requires Resolvable(w, q) && Resolvable(w', q)
  {
    var c, c' := w.claims[q.claimId], w'.claims[q.claimId];
    && c.kind == c'.kind && c.statement.digest == c'.statement.digest && c.dependsOn == c'.dependsOn
    && forall d :: d in c.dependsOn ==> w.claims[d].statement.digest == w'.claims[d].statement.digest
  }

  /** Over any two states of a project: equal keys mean the same query, on a claim of the same
      kind, statement digest and direct dependencies, in order and with the same digests. */
  lemma PlainKeysEqualIff(w: World, w': World, q: Query, q': Query)
    requires Resolvable(w, q) && Resolvable(w', q') && Named(w.claims) && Named(w'.claims)
    ensures PlainKey(w, q) == PlainKey(w', q') <==> q == q' && Resolvable(w', q) && SameForKey(w, w', q)
  {
    var deps, deps' := DepsOf(w, q), DepsOf(w', q');
    EveryInputCounts(w.claims[q.claimId], deps, q.evidence, q.checker, q.checker.schemaDigest, q.policyDigest, map[],
                     w'.claims[q'.claimId], deps', q'.evidence, q'.checker, q'.checker.schemaDigest, q'.policyDigest,
                     map[]);
    var ids, ids' := w.claims[q.claimId].dependsOn, w'.claims[q'.claimId].dependsOn;
    assert forall i :: 0 <= i < |ids| ==> deps[i].id == ids[i];
    assert forall i :: 0 <= i < |ids'| ==> deps'[i].id == ids'[i];
    if q == q' && SameForKey(w, w', q) {
      forall i | 0 <= i < |deps|
        ensures deps[i].id == deps'[i].id && deps[i].statement.digest == deps'[i].statement.digest
      {
        assert ids[i] in ids;
      }
    }
    if PlainKey(w, q) == PlainKey(w', q') {
      assert ids == ids';
      forall d | d in ids ensures w.claims[d].statement.digest == w'.claims[d].statement.digest {
        var i :| 0 <= i < |ids| && ids[i] == d;
        assert deps[i].statement.digest == deps'[i].statement.digest;
      }
    }
  }

  /** Under equal keys the checker is given the same input exactly when the claim's own text is the
      same; texts of other claims never reach it. */
  lemma SameKeySameInputIff(w: World, w': World, q: Query, q': Query)
    requires Resolvable(w, q) && Resolvable(w', q') && Named(w.claims) && Named(w'.claims)
    requires PlainKey(w, q) == PlainKey(w', q')
    ensures q == q' && w.claims[q.claimId].statement.digest == w'.claims[q.claimId].statement.digest
    ensures InputOf(w, q) == InputOf(w', q)
            <==> w.claims[q.claimId].statement.text == w'.claims[q.claimId].statement.text
  {
    PlainKeysEqualIff(w, w', q, q');
    SameDigestMap(DepsOf(w, q), DepsOf(w', q));
  }

  /** Then the decision is the same as well if checker and contract are, whatever else changed. */
  lemma SameKeySameFresh(w: World, w': World, q: Query, q': Query)
    requires Resolvable(w, q) && Resolvable(w', q') && Named(w.claims) && Named(w'.claims)
    requires PlainKey(w, q) == PlainKey(w', q')
    requires w.claims[q.claimId].statement.text == w'.claims[q.claimId].statement.text
    requires w.runner == w'.runner
    requires ObligationIds(w.contracts, q.claimId) == ObligationIds(w'.contracts, q.claimId)
    ensures q == q' && Fresh(w, q) == Fresh(w', q)
  {
    hide Invoke, Decide, ObligationIds, PlainKey, InputOf;
    KeyNamesClaim(w, w', q, q');
    SameKeySameInputIff(w, w', q, q');
  }

  lemma KeyNamesClaim(w: World, w': World, q: Query, q': Query)
    requires Resolvable(w, q) && Resolvable(w', q') && Named(w.claims) && Named(w'.claims)
    requires PlainKey(w, q) == PlainKey(w', q')
    ensures q == q'
  {
    PlainKeysEqualIff(w, w', q, q');
  }

  lemma {:induction false} SameDigestMap(deps: seq<Claim>, deps': seq<Claim>)
    requires |deps| == |deps'|
    requires forall i :: 0 <= i < |deps| ==>
               deps[i].id == deps'[i].id && deps[i].statement.digest == deps'[i].statement.digest
    ensures DigestMap(deps) == DigestMap(deps')
  {
    if deps != [] {
      SameDigestMap(deps[..|deps| - 1], deps'[..|deps| - 1]);
    }
  }

  // ------------------------------------------------------------ what a hit is worth after an edit

  /** Exactly when an attestation just written is still served after the project was edited: the
      checker reported no toolchain, and kind, statement digest and direct dependencies with
      their digests are what they were.  Nothing else about the project matters. */
  lemma HitAfterEditIff(w: World, dir: AttestDir, q: Query, noCache: bool, env: Env, w': World, again: Env)
    requires Named(w.claims) && Named(w'.claims) && Resolvable(w', q) && Undisturbed(again)
    requires var r := RunSpec(w, dir, q, noCache, env).0; r.Done? && !r.cacheHit && SignatureAccepted(w', r.att)
    ensures var (first, dir') := RunSpec(w, dir, q, noCache, env);
            var second := RunSpec(w', dir', q, false, again).0;
            second.Done? && second.cacheHit
            <==> first.att.toolchain == map[] && Resolvable(w, q) && SameForKey(w, w', q)
  {
    hide Fresh, SignatureAccepted;
    FreshlyBuilt(w, dir, q, noCache, env);
    var (first, dir') := RunSpec(w, dir, q, noCache, env);
    ReadableRun(w', dir', q, again);
    PlainKeysEqualIff(w, w', q, q);
    assert first.att.toolchain == map[] <==> |first.att.toolchain| == 0;
  }

  /** A claim that is neither the query's nor a direct dependency of it may change in any way. */
  lemma DeepEditKeepsKey(w: World, q: Query, c: string, edited: Claim)
    requires Resolvable(w, q) && Named(w.claims) && edited.id == c
    requires c != q.claimId && c !in w.claims[q.claimId].dependsOn
    ensures PlainKey(w.(claims := w.claims[c := edited]), q) == PlainKey(w, q)
  {
    PlainKeysEqualIff(w, w.(claims := w.claims[c := edited]), q, q);
  }

  /** So a new statement digest of another claim is noticed exactly when that claim is a direct
      dependency, however deep the chains that lead to it. */
  lemma DependencyEditNoticedIff(w: World, q: Query, d: string, edited: Claim)
    requires Resolvable(w, q) && Named(w.claims) && edited.id == d && d in w.claims && d != q.claimId
    requires edited.statement.digest != w.claims[d].statement.digest
    ensures PlainKey(w.(claims := w.claims[d := edited]), q) != PlainKey(w, q)
            <==> d in w.claims[q.claimId].dependsOn
  {
    PlainKeysEqualIff(w, w.(claims := w.claims[d := edited]), q, q);
  }

  function Leaf(id: string, digest: string): Claim {
    Claim(id, "theorem", Statement("", digest), [], "")
  }

  /** "a" rests on "b" and "b" on "c": a new statement of "c" leaves the key of a check of "a" alone. */
  lemma TransitiveEditUnnoticed(w: World, q: Query, before: string, after: string)
    requires q.claimId == "a"
    ensures var claims := map["a" := Leaf("a", "").(dependsOn := ["b"]), "b" := Leaf("b", "").(dependsOn := ["c"]),
                              "c" := Leaf("c", before)];
            var edited := claims["c" := Leaf("c", after)];
            && ReachesPlus(map x | x in claims :: claims[x].dependsOn, "a", "c")
            && Resolvable(w.(claims := claims), q) && Resolvable(w.(claims := edited), q)
            && PlainKey(w.(claims := edited), q) == PlainKey(w.(claims := claims), q)
  {
    var claims := map["a" := Leaf("a", "").(dependsOn := ["b"]), "b" := Leaf("b", "").(dependsOn := ["c"]),
                      "c" := Leaf("c", before)];
    var e: Edges := map x | x in claims :: claims[x].dependsOn;
    EdgeReaches(e, "a", "b");
    EdgeReaches(e, "b", "c");
    ReachesTrans(e, "a", "b", "c");
    DeepEditKeepsKey(w.(claims := claims), q, "c", Leaf("c", after));
  }

  ghost function WithText(w: World, id: string, text: string): World
    requires id in w.claims
  {
    var c := w.claims[id];
    w.(claims := w.claims[id := c.(statement := c.statement.(text := text))])
  }

  /** A text replaced under its old digest never changes the key, and changes the checker input
      exactly if it is another text of the query's own claim. */
  lemma TextEditKeepsKey(w: World, q: Query, id: string, text: string)
    requires Resolvable(w, q) && Named(w.claims) && id in w.claims
    ensures var w' := WithText(w, id, text);
            && Resolvable(w', q) && PlainKey(w', q) == PlainKey(w, q)
            && (InputOf(w', q) == InputOf(w, q) <==> id != q.claimId || text == w.claims[id].statement.text)
  {
    var w' := WithText(w, id, text);
    PlainKeysEqualIff(w, w', q, q);
    SameKeySameInputIff(w, w', q, q);
  }

  /** Contracts are not part of the key, nor of the input. */
  lemma ContractsNotInKey(w: World, contracts: map<string, seq<string>>, q: Query)
    requires Resolvable(w, q)
    ensures var w' := w.(contracts := contracts); PlainKey(w', q) == PlainKey(w, q) && InputOf(w', q) == InputOf(w, q)
  {
    assert DepsOf(w.(contracts := contracts), q) == DepsOf(w, q);
  }

  lemma AcceptedKey(w: World, q: Query, d: Decision, today: string)
    requires Resolvable(w, q) && d.Decided?
    ensures Built(w, q, d, today).toolchain == d.toolchain
    ensures Built(w, q, d, today).cacheKey == PlainKey(w, q) <==> d.toolchain == map[]
  {
    assert d.toolchain == map[] <==> |d.toolchain| == 0;
  }

  /** The re-run went to the checker and came to the outcome and verdicts of the attestation. */
  ghost predicate Confirms(rerun: RunOutcome, att: Attestation) {
    && rerun.Done? && !rerun.cacheHit
    && rerun.att.outcome == att.outcome && rerun.att.obligationResults == att.obligationResults
  }

  lemma BuiltRecords(w: World, q: Query, d: Decision, today: string)
    requires Resolvable(w, q) && d.Decided?
    ensures Built(w, q, d, today).outcome == d.outcome && Built(w, q, d, today).obligationResults == d.results
  {
  }

  /** A run past the cache, judged under other contracts than the acceptance it repeats. */
  lemma RejudgedRun(w: World, contracts: map<string, seq<string>>, dir: AttestDir, q: Query, again: Env)
    requires Resolvable(w, q) && ValidClaimId(q.claimId) && Undisturbed(again)
    requires Fresh(w, q).Decided? && Fresh(w, q).outcome == Accepted
    ensures var rerun := RunSpec(w.(contracts := contracts), dir, q, true, again).0;
            var now := ObligationIds(contracts, q.claimId);
            if now.None? || ExactSet(Fresh(w, q).results, now.value)
            then rerun.Done? && !rerun.cacheHit
                 && rerun.att.outcome == Accepted && rerun.att.obligationResults == Fresh(w, q).results
            else rerun == Failed(CheckerFailed)
  {
    hide Invoke, Decide, Contains, PlainKey, InputOf, ExactSet, ObligationIds, Built, ValidClaimId;
    var w' := w.(contracts := contracts);
    ContractsNotInKey(w, contracts, q);
    var ran := Invoke(w.runner, q.checker, InputOf(w, q));
    RejudgedIff(ran, q.claimId, ObligationIds(w.contracts, q.claimId), ObligationIds(contracts, q.claimId));
    DecisionCoherent(ran, q.claimId, ObligationIds(w.contracts, q.claimId));
    if Fresh(w', q).Decided? { BuiltRecords(w', q, Fresh(w', q), again.today); }
  }

  /** Straight after a check that reported no toolchain, an edit of the contract alone never keeps the
      attestation from being served.  A re-run confirms an accepted one exactly if the new contract is
      empty or asks for just the obligations that were answered; otherwise it ends in an error. */
  lemma ContractEditIff(w: World, dir: AttestDir, q: Query, noCache: bool, env: Env, ids: seq<string>, again: Env)
    requires Undisturbed(again)
    requires var r := RunSpec(w, dir, q, noCache, env).0;
             r.Done? && !r.cacheHit && SignatureAccepted(w, r.att) && r.att.toolchain == map[]
    ensures var (first, dir') := RunSpec(w, dir, q, noCache, env);
            var w' := w.(contracts := w.contracts[q.claimId := ids]);
            var second := RunSpec(w', dir', q, false, again).0;
            var rerun := RunSpec(w', dir', q, true, again).0;
            && second.Done? && second.cacheHit
            && second.att.outcome == first.att.outcome
            && second.att.obligationResults == first.att.obligationResults
            && (first.att.outcome == Accepted ==>
                  if ids == [] || ExactSet(first.att.obligationResults, ids) then Confirms(rerun, second.att)
                  else rerun == Failed(CheckerFailed))
  {
    hide Fresh, Contains, PlainKey, ExactSet, Built, FreshRun;
    FreshlyBuilt(w, dir, q, noCache, env);
    var (first, dir') := RunSpec(w, dir, q, noCache, env);
    var contracts := w.contracts[q.claimId := ids];
    var w' := w.(contracts := contracts);
    ContractsNotInKey(w, contracts, q);
    AcceptedKey(w, q, Fresh(w, q), env.today);
    BuiltRecords(w, q, Fresh(w, q), env.today);
    ReadableRun(w', dir', q, again);
    if first.att.outcome == Accepted { RejudgedRun(w, contracts, dir', q, again); }
  }

  /** So both a contract that asks for an obligation the checker does not answer and one that drops an
      obligation it does answer go unnoticed by the cache, while a run past it ends in an error. */
  lemma ContractEditUnnoticed(w: World, dir: AttestDir, q: Query, noCache: bool, env: Env, ids: seq<string>, again: Env)
    requires Undisturbed(again) && ids != []
    requires var r := RunSpec(w, dir, q, noCache, env).0;
             && r.Done? && !r.cacheHit && SignatureAccepted(w, r.att)
             && r.att.outcome == Accepted && r.att.toolchain == map[]
             && ((exists o :: o in ids && o !in Ids(r.att.obligationResults))
                 || (exists o :: o in Ids(r.att.obligationResults) && o !in ids))
    ensures var (first, dir') := RunSpec(w, dir, q, noCache, env);
            var w' := w.(contracts := w.contracts[q.claimId := ids]);
            var second := RunSpec(w', dir', q, false, again).0;
            && second.Done? && second.cacheHit && second.att.outcome == Accepted
            && RunSpec(w', dir', q, true, again).0 == Failed(CheckerFailed)
  {
    hide RunSpec, Ids;
    ContractEditIff(w, dir, q, noCache, env, ids, again);
    OtherSetIsNotExact(RunSpec(w, dir, q, noCache, env).0.att.obligationResults, ids);
  }

  lemma OtherSetIsNotExact(results: seq<ObligationResult>, ids: seq<string>)
    requires (exists o :: o in ids && o !in Ids(results)) || (exists o :: o in Ids(results) && o !in ids)
    ensures !ExactSet(results, ids)
  {
    hide Ids;
    if o :| o in ids && o !in Ids(results) {
      assert o in Elems(ids) && o !in Elems(Ids(results));
    } else {
      var o :| o in Ids(results) && o !in ids;
      assert o in Elems(Ids(results)) && o !in Elems(ids);
    }
  }

  // ------------------------------------------------------------ two projects on which hits go stale

  function Passing(claimId: string, ids: seq<string>): RunResult {
    var results := seq(|ids|, i requires 0 <= i < |ids| => ObligationResult(ids[i], PASS, ""));
    Ran(Some(CheckerOutput(VERSION, claimId, results, map[])))
  }

  /** One claim, no trust store, no signing key. */
  function OneClaim(text: string, contract: seq<string>, runner: Runner): World {
    World(map["a" := Claim("a", "theorem", Statement(text, "digest"), [], "")], map["a" := contract], runner, false,
          _ => true, None, _ => "", "")
  }

  const QUERY_A := Query("a", NO_CHECKER, [], "")

  /** A check of the one claim that the checker passes. */
  lemma OneClaimAccepted(text: string, contract: seq<string>, runner: Runner, env: Env, ids: seq<string>)
    requires Undisturbed(env) && ids != [] && NoDup(ids) && (contract == [] || Elems(contract) == Elems(ids))
    requires runner(NO_CHECKER, InputOf(OneClaim(text, contract, runner), QUERY_A)) == Passing("a", ids)
    ensures var w := OneClaim(text, contract, runner);
            var r := RunSpec(w, map[], QUERY_A, true, env).0;
            && r.Done? && !r.cacheHit && SignatureAccepted(w, r.att)
            && r.att.outcome == Accepted && r.att.toolchain == map[] && Ids(r.att.obligationResults) == ids
  {
    var w := OneClaim(text, contract, runner);
    assert EarlyFailure(w, QUERY_A, env).None?;
    var out := Passing("a", ids).out.value;
    assert Ids(out.results) == ids;
    assert Invoke(runner, NO_CHECKER, InputOf(w, QUERY_A)) == Passing("a", ids);
    assert ValidOutput(out, "a", ObligationIds(w.contracts, "a"));
    assert Fresh(w, QUERY_A) == Decided(Accepted, out.results, map[]);
  }

  /** A checker that answers "o" and "p" as the contract asks; cutting the contract to "o" leaves the
      acceptance on file and in use, while a re-run reports "p" as one obligation too many. */
  lemma ContractCutGoesStale(text: string, env: Env, again: Env)
    requires Undisturbed(env) && Undisturbed(again)
    ensures var w := OneClaim(text, ["o", "p"], (_, _) => Passing("a", ["o", "p"]));
            var dir := RunSpec(w, map[], QUERY_A, true, env).1;
            var w' := w.(contracts := w.contracts["a" := ["o"]]);
            var second := RunSpec(w', dir, QUERY_A, false, again).0;
            && second.Done? && second.cacheHit && second.att.outcome == Accepted
            && RunSpec(w', dir, QUERY_A, true, again).0 == Failed(CheckerFailed)
  {
    hide RunSpec;
    var runner: Runner := (_, _) => Passing("a", ["o", "p"]);
    var w := OneClaim(text, ["o", "p"], runner);
    OneClaimAccepted(text, ["o", "p"], runner, env, ["o", "p"]);
    assert "p" in ["o", "p"] && "p" !in ["o"];
    ContractEditUnnoticed(w, map[], QUERY_A, true, env, ["o"], again);
  }

  /** A checker that passes one statement and rejects any other; replacing the text under its old digest
      leaves the acceptance in use, while a re-run rejects. */
  lemma TextEditGoesStale(text: string, other: string, env: Env, again: Env)
    requires Undisturbed(env) && Undisturbed(again) && text != other
    ensures var w := OneClaim(text, [], Reads(text));
            var dir := RunSpec(w, map[], QUERY_A, true, env).1;
            var w' := WithText(w, "a", other);
            var second := RunSpec(w', dir, QUERY_A, false, again).0;
            var rerun := RunSpec(w', dir, QUERY_A, true, again).0;
            && second.Done? && second.cacheHit && second.att.outcome == Accepted
            && rerun.Done? && rerun.att.outcome == Rejected
  {
    hide Contains, PlainKey, Built;
    var w := OneClaim(text, [], Reads(text));
    OneClaimAccepted(text, [], Reads(text), env, ["o"]);
    FreshlyBuilt(w, map[], QUERY_A, true, env);
    var (first, dir) := RunSpec(w, map[], QUERY_A, true, env);
    var w' := WithText(w, "a", other);
    TextEditKeepsKey(w, QUERY_A, "a", other);
    AcceptedKey(w, QUERY_A, Fresh(w, QUERY_A), env.today);
    ReadableRun(w', dir, QUERY_A, again);
    assert InputOf(w', QUERY_A).statementText == other;
    assert Fresh(w', QUERY_A) == Decided(Rejected, [], map[]);
    BuiltRecords(w', QUERY_A, Fresh(w', QUERY_A), again.today);
  }

  function Reads(text: string): Runner {
    (_, input: CheckerInput) => if input.statementText == text then Passing("a", ["o"]) else Faulted(CheckerFail)
  }
}
