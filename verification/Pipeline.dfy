/**
 The verification pipeline of one claim and its attestation cache.  What a run reads besides
 the attestation directory is either the project and its configuration (World) or what it
 meets when it looks at files and clocks (Env).
 */
module Pipeline {
  import opened Ir
  import opened Protocol
  import opened Merge
  import opened Identity
  import opened Text

  datatype CheckerInput = CheckerInput(
    claimId: string,
    statementDigest: string,
    statementText: string,
    dependencyDigests: map<string, string>,
    evidence: seq<EvidenceDescriptor>,
    policyDigest: string)

  type Runner = (CheckerIdentity, CheckerInput) -> RunResult

  /** Graph, contracts, a deterministic checker, trust store, signing key and attestation directory. */
  datatype World = World(
    claims: map<string, Claim>,
    contracts: map<string, seq<string>>,
    runner: Runner,
    hasTrustStore: bool,
    signatureValid: Attestation -> bool,
    signer: Option<Attestation -> Signature>,
    digest: Attestation -> string,
    attestPath: string)

  /** What one run finds when it looks at files and clocks; `unreadable` is the error met when the
      stored attestation is there but cannot be opened or decoded. */
  datatype Env = Env(evidenceInCas: bool, evidenceOnDisk: bool, manifestUnchanged: bool, unreadable: Option<string>,
                     snapshots: bool, evidenceDrifted: bool, signs: bool, writes: bool, today: string)

  datatype Query = Query(
    claimId: string,
    checker: CheckerIdentity,
    evidence: seq<EvidenceDescriptor>,
    policyDigest: string)

  datatype RunFailure = InvalidClaim | UnknownClaim | MissingDependency | MissingEvidence | ManifestDrift
                      | SignatureInvalid | SnapshotFailed | EvidenceDrift | CheckerFailed | NotSigned | NotWritten

  datatype RunOutcome = Done(att: Attestation, cacheHit: bool) | Failed(why: RunFailure)

  type AttestDir = map<string, Attestation>

  // ------------------------------------------------------------ what a fresh run decides

  /** The claim is known and so are all its direct dependencies. */
  ghost predicate Resolvable(w: World, q: Query) {
    q.claimId in w.claims && forall d :: d in w.claims[q.claimId].dependsOn ==> d in w.claims
  }

  ghost function DepsOf(w: World, q: Query): seq<Claim>
    requires Resolvable(w, q)
  {
    var ids := w.claims[q.claimId].dependsOn;
    seq(|ids|, i requires 0 <= i < |ids| => w.claims[ids[i]])
  }

  ghost function DigestMap(deps: seq<Claim>): map<string, string> {
    if deps == [] then map[]
    else DigestMap(deps[..|deps| - 1])[deps[|deps| - 1].id := deps[|deps| - 1].statement.digest]
  }

  ghost function InputOf(w: World, q: Query): CheckerInput
    requires Resolvable(w, q)
  {
    var c := w.claims[q.claimId];
    CheckerInput(q.claimId, c.statement.digest, c.statement.text, DigestMap(DepsOf(w, q)), q.evidence, q.policyDigest)
  }

  /** The invocation on the piece of evidence with index `i`. */
  function OnePiece(runner: Runner, checker: CheckerIdentity, input: CheckerInput): nat -> RunResult {
    (i: nat) => if i < |input.evidence| then runner(checker, input.(evidence := [input.evidence[i]]))
                else Faulted(OtherFault)
  }

  ghost function Invoke(runner: Runner, checker: CheckerIdentity, input: CheckerInput): RunResult {
    if |input.evidence| <= 1 then runner(checker, input)
    else MergeAll(Runs(|input.evidence|, OnePiece(runner, checker, input)))
  }

  /** Without a contract, or with an empty one, the obligation set is not checked. */
  function ObligationIds(contracts: map<string, seq<string>>, claimId: string): Option<seq<string>> {
    if claimId in contracts && contracts[claimId] != [] then Some(contracts[claimId]) else None
  }

  ghost function Fresh(w: World, q: Query): Decision
    requires Resolvable(w, q)
  {
    Decide(Invoke(w.runner, q.checker, InputOf(w, q)), q.claimId, ObligationIds(w.contracts, q.claimId))
  }

  /** What the checker sees: the claim's own statement, the digests of its direct dependencies and of no
      other claim, the evidence and the policy. */
  lemma CheckerSees(w: World, q: Query)
    requires Resolvable(w, q) && forall c :: c in w.claims ==> w.claims[c].id == c
    ensures var input, claim := InputOf(w, q), w.claims[q.claimId];
            && input.claimId == q.claimId && input.evidence == q.evidence && input.policyDigest == q.policyDigest
            && input.statementDigest == claim.statement.digest && input.statementText == claim.statement.text
            && (forall d :: d in input.dependencyDigests <==> d in claim.dependsOn)
            && (forall d :: d in claim.dependsOn ==> input.dependencyDigests[d] == w.claims[d].statement.digest)
  {
    var ids, deps := w.claims[q.claimId].dependsOn, DepsOf(w, q);
    forall i | 0 <= i < |deps| ensures deps[i] == w.claims[ids[i]] && deps[i].id == ids[i] {
      assert ids[i] in ids;
    }
    DigestMapHolds(w, ids, deps);
  }

  lemma {:induction false} DigestMapHolds(w: World, ids: seq<string>, deps: seq<Claim>)
    requires |ids| == |deps|
    requires forall i :: 0 <= i < |ids| ==> ids[i] in w.claims && deps[i] == w.claims[ids[i]] && deps[i].id == ids[i]
    ensures forall d :: d in DigestMap(deps) <==> d in ids
    ensures forall d :: d in ids ==> d in w.claims && DigestMap(deps)[d] == w.claims[d].statement.digest
  {
    if deps != [] {
      DigestMapHolds(w, ids[..|ids| - 1], deps[..|ids| - 1]);
      assert ids == ids[..|ids| - 1] + [ids[|ids| - 1]];
    }
  }

  /** One run on all the evidence there is, if that is at most one piece. */
  lemma SingleAcceptedIff(w: World, q: Query)
    requires Resolvable(w, q) && |q.evidence| <= 1
    ensures Accepts(Fresh(w, q)) <==>
            var r := w.runner(q.checker, InputOf(w, q));
            && r.Ran? && r.out.Some? && r.out.value.protocolVersion == 2 && r.out.value.claimId == q.claimId
            && |r.out.value.results| > 0
            && (forall i :: 0 <= i < |r.out.value.results| ==> r.out.value.results[i].verdict == "pass")
            && (q.claimId in w.contracts && w.contracts[q.claimId] != [] ==>
                  ExactSet(r.out.value.results, w.contracts[q.claimId]))
  {
    hide ExactSet;
  }

  /** Several pieces of evidence are accepted if and only if each of them was handed to the checker alone,
      every run ended in a readable output, the first one answers the contract with nothing but passes,
      and no other reports a failure. */
  lemma EveryPieceCheckedIff(w: World, q: Query)
    requires Resolvable(w, q) && |q.evidence| > 1
    ensures Accepts(Fresh(w, q)) <==>
            && (forall i :: 0 <= i < |q.evidence| ==>
                  var r := w.runner(q.checker, InputOf(w, q).(evidence := [q.evidence[i]]));
                  && r.Ran? && r.out.Some?
                  && (i > 0 ==>
                        forall k :: 0 <= k < |r.out.value.results| ==> r.out.value.results[k].verdict != "fail"))
            && var first := w.runner(q.checker, InputOf(w, q).(evidence := [q.evidence[0]])).out.value;
               && first.protocolVersion == 2 && first.claimId == q.claimId && |first.results| > 0
               && (forall k :: 0 <= k < |first.results| ==> first.results[k].verdict == "pass")
               && (q.claimId in w.contracts && w.contracts[q.claimId] != [] ==>
                     ExactSet(first.results, w.contracts[q.claimId]))
  {
    hide ExactSet, Decide, MergeAll;
    var input, expected := InputOf(w, q), ObligationIds(w.contracts, q.claimId);
    var run := OnePiece(w.runner, q.checker, input);
    var runs := Runs(|q.evidence|, run);
    forall i | 0 <= i < |runs| ensures runs[i] == w.runner(q.checker, input.(evidence := [q.evidence[i]])) {
      assert runs[i] == run(i);
    }
    MultiAcceptedIff(runs, q.claimId, expected);
    if AllParsed(runs) {
      forall i | 0 <= i < |runs| ensures Parsed(runs[i]) && Outputs(runs)[i] == runs[i].out.value {
      }
      if forall k :: 0 <= k < |Outputs(runs)[0].results| ==> Outputs(runs)[0].results[k].verdict == "pass" {
        PassingIsLegal(Outputs(runs)[0].results);
      }
      LaterFailIff(Outputs(runs));
    }
  }

  lemma PassingIsLegal(results: seq<ObligationResult>)
    requires forall k :: 0 <= k < |results| ==> results[k].verdict == "pass"
    ensures LegalVerdicts(results)
  {
  }

  lemma LaterFailIff(outs: seq<CheckerOutput>)
    ensures LaterFail(outs) <==>
            exists i, k :: 0 < i < |outs| && 0 <= k < |outs[i].results| && outs[i].results[k].verdict == "fail"
  {
  }

  ghost function PlainKey(w: World, q: Query): CacheKey
    requires Resolvable(w, q)
  {
    KeyOf(w.claims[q.claimId], DepsOf(w, q), q.evidence, q.checker, q.checker.schemaDigest, q.policyDigest, map[])
  }

  // ------------------------------------------------------------ what one run does

  predicate PinnedManifest(checker: CheckerIdentity) {
    checker.runtime.manifestDigest != "" && checker.runtime.manifestPath != ""
  }

  /** What stops a run before it looks at the cache. */
  ghost function EarlyFailure(w: World, q: Query, env: Env): Option<RunFailure> {
    if !ValidClaimId(q.claimId) then Some(InvalidClaim)
    else if q.claimId !in w.claims then Some(UnknownClaim)
    else if !Resolvable(w, q) then Some(MissingDependency)
    else if !env.evidenceInCas || !env.evidenceOnDisk then Some(MissingEvidence)
    else if PinnedManifest(q.checker) && !env.manifestUnchanged then Some(ManifestDrift)
    else None
  }

  predicate SignatureAccepted(w: World, att: Attestation) {
    att.signature.Some? && w.hasTrustStore ==> w.signatureValid(att)
  }

  function Backfilled(w: World, att: Attestation, today: string): Attestation {
    if att.startFreshness == "" || att.endFreshness == "" then
      var a := att.(startFreshness := today, endFreshness := today, selfDigest := "");
      a.(selfDigest := w.digest(a))
    else att
  }

  ghost function Built(w: World, q: Query, d: Decision, today: string): Attestation
    requires Resolvable(w, q) && d.Decided?
  {
    var key := KeyOf(w.claims[q.claimId], DepsOf(w, q), q.evidence, q.checker, q.checker.schemaDigest,
                     q.policyDigest, d.toolchain);
    var claim := w.claims[q.claimId];
    var a := BLANK.(claimId := q.claimId, statementDigest := claim.statement.digest,
      dependencyDigests := DigestsOf(DepsOf(w, q)), evidence := q.evidence, checker := q.checker, outcome := d.outcome,
      replayMode := "self_consistency", startFreshness := today, endFreshness := today, cacheKey := key,
      toolchain := d.toolchain, obligationResults := d.results);
    var b := a.(selfDigest := w.digest(a));
    if w.signer.Some? then b.(signature := Some(w.signer.value(b))) else b
  }

  // ------------------------------------------------------------ looking an attestation up

  /** How the source recognises a bad signature: by this phrase in the text of the error. */
  const SIGNATURE_INVALID := "signature-invalid"

  const KEY_MISMATCH := "cache key" + [' '] + "mismatch"

  const NO_SUCH_FILE := "json: no" + [' '] + ("such file" + [' '] + "or directory")

  function AbsentMessage(path: string, claimId: string): string {
    "open" + [' '] + (path + ['/'] + (claimId + ['.'] + NO_SUCH_FILE))
  }

  datatype CacheAnswer = Hit(att: Attestation) | Miss(message: string)

  function LookUp(w: World, dir: AttestDir, claimId: string, key: CacheKey, unreadable: Option<string>): CacheAnswer {
    if claimId !in dir then Miss(AbsentMessage(w.attestPath, claimId))
    else if unreadable.Some? then Miss(unreadable.value)
    else if dir[claimId].cacheKey != key then Miss(KEY_MISMATCH)
    else if !SignatureAccepted(w, dir[claimId]) then Miss(SIGNATURE_INVALID + ": ")
    else Hit(dir[claimId])
  }

  /** A run past the cache. */
  ghost function FreshRun(w: World, dir: AttestDir, q: Query, env: Env): (RunOutcome, AttestDir)
    requires Resolvable(w, q)
  {
    if !env.snapshots then (Failed(SnapshotFailed), dir)
    else if env.evidenceDrifted then (Failed(EvidenceDrift), dir)
    else if Fresh(w, q).Errored? then (Failed(CheckerFailed), dir)
    else if w.signer.Some? && !env.signs then (Failed(NotSigned), dir)
    else if !env.writes then (Failed(NotWritten), dir)
    else
      var att := Built(w, q, Fresh(w, q), env.today);
      (Done(att, false), dir[q.claimId := att])
  }

  ghost function RunSpec(w: World, dir: AttestDir, q: Query, noCache: bool, env: Env): (RunOutcome, AttestDir) {
    if EarlyFailure(w, q, env).Some? then (Failed(EarlyFailure(w, q, env).value), dir)
    else if noCache then FreshRun(w, dir, q, env)
    else
      match LookUp(w, dir, q.claimId, PlainKey(w, q), env.unreadable)
      case Miss(message) =>
        if Contains(message, SIGNATURE_INVALID) then (Failed(SignatureInvalid), dir) else FreshRun(w, dir, q, env)
      case Hit(att) =>
        var hit := Backfilled(w, att, env.today);
        (Done(hit, true), if env.writes then dir[q.claimId := hit] else dir)
  }

  class Store {
    const w: World
    var attestDir: AttestDir

    /** Every command starts from the project as it is and the attestations on file. */
    constructor (w: World, dir: AttestDir)
      ensures this.w == w && attestDir == dir
    {
      this.w := w;
      attestDir := dir;
    }

    method ResolveDeps(claim: Claim) returns (deps: Option<seq<Claim>>)
      ensures deps.None? <==> exists d :: d in claim.dependsOn && d !in w.claims
      ensures deps.Some? ==> |deps.value| == |claim.dependsOn|
                             && forall i :: 0 <= i < |claim.dependsOn| ==>
                                  claim.dependsOn[i] in w.claims && deps.value[i] == w.claims[claim.dependsOn[i]]
    {
      var out := [];
      for i := 0 to |claim.dependsOn|
        invariant |out| == i
        invariant forall k :: 0 <= k < i ==> claim.dependsOn[k] in w.claims && out[k] == w.claims[claim.dependsOn[k]]
      {
        if claim.dependsOn[i] !in w.claims { return None; }
        out := out + [w.claims[claim.dependsOn[i]]];
      }
      return Some(out);
    }

    method CheckerInputFor(q: Query, claim: Claim, deps: seq<Claim>) returns (input: CheckerInput)
      requires Resolvable(w, q) && claim == w.claims[q.claimId] && deps == DepsOf(w, q)
      ensures input == InputOf(w, q)
    {
      var digests := map[];
      for i := 0 to |deps|
        invariant digests == DigestMap(deps[..i])
      {
        assert deps[..i + 1][..i] == deps[..i];
        digests := digests[deps[i].id := deps[i].statement.digest];
      }
      assert deps[..|deps|] == deps;
      return CheckerInput(q.claimId, claim.statement.digest, claim.statement.text, digests, q.evidence, q.policyDigest);
    }

    method RunChecker(checker: CheckerIdentity, input: CheckerInput) returns (r: RunResult)
      ensures r == Invoke(w.runner, checker, input)
    {
      if |input.evidence| <= 1 {
        return w.runner(checker, input);
      }
      r := RunAllEvidence(|input.evidence|, OnePiece(w.runner, checker, input));
    }

    /** Turns what the checker did into an outcome, verdicts and toolchain. */
    method DecideOutcome(r: RunResult, claimId: string) returns (d: Decision)
      ensures d == Decide(r, claimId, ObligationIds(w.contracts, claimId))
    {
      match r {
        case Faulted(fault) =>
          if fault == CheckerFail { return Decided(Rejected, [], map[]); }
          return Errored;
        case Ran(parsed) =>
          if parsed.None? { return Errored; }
          var out := parsed.value;
          var err := ValidateOutput(out, claimId, ObligationIds(w.contracts, claimId));
          if err.Some? { return Errored; }
          var pass := AllObligationsPass(out);
          return Decided(if pass then Accepted else Rejected, out.results, out.toolchain);
      }
    }

    /** The stored attestation if it can be read, its key matches and its signature is acceptable;
        otherwise the text of the error, by which the caller tells a bad signature from a miss. */
    method LoadCached(claimId: string, key: CacheKey, unreadable: Option<string>) returns (answer: CacheAnswer)
      ensures answer == LookUp(w, attestDir, claimId, key, unreadable)
    {
      if claimId !in attestDir { return Miss(AbsentMessage(w.attestPath, claimId)); }
      if unreadable.Some? { return Miss(unreadable.value); }
      var att := attestDir[claimId];
      if att.cacheKey != key { return Miss(KEY_MISMATCH); }
      if att.signature.Some? && w.hasTrustStore {
        if !w.signatureValid(att) { return Miss(SIGNATURE_INVALID + ": "); }
      }
      return Hit(att);
    }

    method BuildAttestation(q: Query, claim: Claim, deps: seq<Claim>, d: Decision, plainKey: CacheKey, today: string)
      returns (att: Attestation)
      requires Resolvable(w, q) && claim == w.claims[q.claimId] && deps == DepsOf(w, q) && plainKey == PlainKey(w, q)
      requires d.Decided?
      ensures att == Built(w, q, d, today)
    {
      var digests := [];
      for i := 0 to |deps|
        invariant digests == DigestsOf(deps[..i])
      {
        digests := digests + [deps[i].statement.digest];
      }
      assert deps[..|deps|] == deps;
      att := BLANK.(claimId := q.claimId, statementDigest := claim.statement.digest, dependencyDigests := digests,
        evidence := q.evidence, checker := q.checker, outcome := d.outcome, replayMode := "self_consistency",
        startFreshness := today, endFreshness := today, cacheKey := plainKey);
      if |d.toolchain| > 0 {
        var key := CacheKeyWithToolchain(claim, deps, q.evidence, q.checker, q.checker.schemaDigest, q.policyDigest,
                                         d.toolchain);
        att := att.(toolchain := d.toolchain, cacheKey := key);
      } else {
        assert d.toolchain == map[];
      }
      ghost var before := att;
      for i := 0 to |d.results|
        invariant att == before.(obligationResults := d.results[..i])
      {
        att := att.(obligationResults := att.obligationResults + [d.results[i]]);
      }
      assert d.results[..|d.results|] == d.results;
      att := att.(selfDigest := w.digest(att));
      if w.signer.Some? {
        att := att.(signature := Some(w.signer.value(att)));
      }
    }

    method Run(q: Query, noCache: bool, env: Env) returns (r: RunOutcome)
      modifies this`attestDir
      ensures (r, attestDir) == RunSpec(w, old(attestDir), q, noCache, env)
    {
      if !ValidClaimId(q.claimId) { return Failed(InvalidClaim); }
      if q.claimId !in w.claims { return Failed(UnknownClaim); }
      var claim := w.claims[q.claimId];
      var resolved := ResolveDeps(claim);
      if resolved.None? { return Failed(MissingDependency); }
      var deps := resolved.value;
      assert Resolvable(w, q) && deps == DepsOf(w, q);
      if !env.evidenceInCas { return Failed(MissingEvidence); }
      if !env.evidenceOnDisk { return Failed(MissingEvidence); }
      var key := PlainCacheKey(claim, deps, q.evidence, q.checker, q.checker.schemaDigest, q.policyDigest);
      if PinnedManifest(q.checker) && !env.manifestUnchanged { return Failed(ManifestDrift); }
      if !noCache {
        var answer := LoadCached(q.claimId, key, env.unreadable);
        if answer.Hit? {
          var att := answer.att;
          if att.startFreshness == "" || att.endFreshness == "" {
            att := att.(startFreshness := env.today, endFreshness := env.today, selfDigest := "");
            att := att.(selfDigest := w.digest(att));
            if env.writes { attestDir := attestDir[q.claimId := att]; }
          } else {
            assert attestDir[q.claimId := att] == attestDir;
          }
          return Done(att, true);
        }
        if Contains(answer.message, SIGNATURE_INVALID) { return Failed(SignatureInvalid); }
      }
      r := RunPastCache(q, claim, deps, key, env);
    }

    method RunPastCache(q: Query, claim: Claim, deps: seq<Claim>, key: CacheKey, env: Env) returns (r: RunOutcome)
      requires Resolvable(w, q) && claim == w.claims[q.claimId] && deps == DepsOf(w, q) && key == PlainKey(w, q)
      modifies this`attestDir
      ensures (r, attestDir) == FreshRun(w, old(attestDir), q, env)
    {
      if !env.snapshots { return Failed(SnapshotFailed); }
      var input := CheckerInputFor(q, claim, deps);
      var ran := RunChecker(q.checker, input);
      if env.evidenceDrifted { return Failed(EvidenceDrift); }
      var d := DecideOutcome(ran, q.claimId);
      if d.Errored? { return Failed(CheckerFailed); }
      var att := BuildAttestation(q, claim, deps, d, key, env.today);
      if w.signer.Some? && !env.signs { return Failed(NotSigned); }
      if !env.writes { return Failed(NotWritten); }
      attestDir := attestDir[q.claimId := att];
      return Done(att, false);
    }

    /** `proofctl cache invalidate` removes attestations, stepping over files it cannot remove. */
    method Invalidate(ids: seq<string>, resisting: set<string>)
      modifies this`attestDir
      ensures attestDir == map c | c in old(attestDir) && (c !in ids || c in resisting) :: old(attestDir)[c]
    {
      for i := 0 to |ids|
        invariant attestDir == map c | c in old(attestDir) && (c !in ids[..i] || c in resisting) :: old(attestDir)[c]
      {
        assert ids[..i + 1] == ids[..i] + [ids[i]];
        if ids[i] !in resisting {
          attestDir := map c | c in attestDir && c != ids[i] :: attestDir[c];
        }
      }
      assert ids[..|ids|] == ids;
    }
  }

  // ------------------------------------------------------------ when a miss is taken for a bad signature

  lemma NoSuchFileHoldsNoPhrase()
    ensures !Contains(NO_SUCH_FILE, SIGNATURE_INVALID)
  {
    ContainsSplit("such file", ' ', "or directory", SIGNATURE_INVALID);
    ContainsSplit("json: no", ' ', "such file" + [' '] + "or directory", SIGNATURE_INVALID);
  }

  /** The text of a plain miss holds the phrase exactly when the directory or the claim's name does. */
  lemma AbsentMessageIff(path: string, claimId: string)
    ensures Contains(AbsentMessage(path, claimId), SIGNATURE_INVALID)
            <==> Contains(path, SIGNATURE_INVALID) || Contains(claimId, SIGNATURE_INVALID)
  {
    var file := claimId + ['.'] + NO_SUCH_FILE;
    NoSuchFileHoldsNoPhrase();
    assert !Contains("open", SIGNATURE_INVALID);
    hide Contains;
    ContainsSplit(claimId, '.', NO_SUCH_FILE, SIGNATURE_INVALID);
    ContainsSplit(path, '/', file, SIGNATURE_INVALID);
    ContainsSplit("open", ' ', path + ['/'] + file, SIGNATURE_INVALID);
  }

  /** With the cache on, a claim that was never attested is checked exactly when neither its name
      nor the path of the directory holds the phrase; otherwise the run reports a bad signature. */
  lemma FirstCheckIff(w: World, dir: AttestDir, q: Query, env: Env)
    requires EarlyFailure(w, q, env).None? && q.claimId !in dir
    ensures RunSpec(w, dir, q, false, env)
            == if Contains(w.attestPath, SIGNATURE_INVALID) || Contains(q.claimId, SIGNATURE_INVALID)
               then (Failed(SignatureInvalid), dir)
               else FreshRun(w, dir, q, env)
  {
    hide Contains, FreshRun, PlainKey;
    AbsentMessageIff(w.attestPath, q.claimId);
  }

  /** Such a name is legal, so there are claims whose first check always fails this way. */
  lemma SomeClaimNeverChecked(w: World, q: Query, env: Env)
    requires q.claimId == SIGNATURE_INVALID && EarlyFailure(w, q, env).None?
    ensures ValidClaimId(q.claimId) && RunSpec(w, map[], q, false, env) == (Failed(SignatureInvalid), map[])
  {
    hide FreshRun, PlainKey;
    assert OccursAt(q.claimId, SIGNATURE_INVALID, 0);
    FirstCheckIff(w, map[], q, env);
  }

  /** The other errors of a look-up: a bad signature is recognised, a changed key is a plain miss. */
  lemma MessagesRecognised()
    ensures Contains(SIGNATURE_INVALID + ": ", SIGNATURE_INVALID)
    ensures !Contains(KEY_MISMATCH, SIGNATURE_INVALID)
  {
    assert OccursAt(SIGNATURE_INVALID + ": ", SIGNATURE_INVALID, 0);
    ContainsSplit("cache key", ' ', "mismatch", SIGNATURE_INVALID);
  }

  /** What the look-up leads to when the stored attestation can be read. */
  lemma ReadableRun(w: World, dir: AttestDir, q: Query, env: Env)
    requires EarlyFailure(w, q, env).None? && q.claimId in dir && env.unreadable.None?
    ensures var att := dir[q.claimId];
            RunSpec(w, dir, q, false, env) ==
            if att.cacheKey != PlainKey(w, q) then FreshRun(w, dir, q, env)
            else if !SignatureAccepted(w, att) then (Failed(SignatureInvalid), dir)
            else (Done(Backfilled(w, att, env.today), true),
                  if env.writes then dir[q.claimId := Backfilled(w, att, env.today)] else dir)
  {
    hide Contains, FreshRun, PlainKey;
    MessagesRecognised();
  }

  // ------------------------------------------------------------ what a run changes and when it hits

  predicate Undisturbed(env: Env) {
    && env.evidenceInCas && env.evidenceOnDisk && env.manifestUnchanged && env.unreadable.None?
    && env.snapshots && !env.evidenceDrifted && env.signs && env.writes
  }

  /** A failed run changes nothing.  Otherwise what the run returns is on file afterwards and nothing else
      has changed, except that a hit whose backfill cannot be written leaves the file as it was. */
  lemma RunTouchesOne(w: World, dir: AttestDir, q: Query, noCache: bool, env: Env)
    ensures var (r, dir') := RunSpec(w, dir, q, noCache, env);
            dir' == if r.Failed? || (r.cacheHit && !env.writes) then dir else dir[q.claimId := r.att]
    ensures var r := RunSpec(w, dir, q, noCache, env).0;
            r.Done? && !r.cacheHit ==> env.writes
  {
    hide Contains, Fresh, PlainKey, Built, ValidClaimId, Backfilled;
  }

  /** An attestation without a key, or keyed by a toolchain, is never served from the cache: the run
      behaves as with the cache off, unless the error of reading the attestation holds the phrase. */
  lemma UnkeyedNeverHit(w: World, dir: AttestDir, q: Query, env: Env)
    requires q.claimId in dir && (dir[q.claimId].cacheKey == NoKey || dir[q.claimId].cacheKey.input.toolchain.Some?)
    ensures RunSpec(w, dir, q, false, env) ==
            if && EarlyFailure(w, q, env).None?
               && env.unreadable.Some? && Contains(env.unreadable.value, SIGNATURE_INVALID)
            then (Failed(SignatureInvalid), dir)
            else RunSpec(w, dir, q, true, env)
  {
    hide Contains, FreshRun;
    MessagesRecognised();
  }

  /** What a run that went to the checker returned and left on file. */
  lemma FreshlyBuilt(w: World, dir: AttestDir, q: Query, noCache: bool, env: Env)
    requires var r := RunSpec(w, dir, q, noCache, env).0; r.Done? && !r.cacheHit
    ensures var (r, dir') := RunSpec(w, dir, q, noCache, env);
            && EarlyFailure(w, q, env).None? && Resolvable(w, q) && Fresh(w, q).Decided?
            && r.att == Built(w, q, Fresh(w, q), env.today) && dir' == dir[q.claimId := r.att]
  {
    hide Contains, Fresh, PlainKey, Built;
  }

  /** Straight after a run that went to the checker, the same query is served from the cache
      exactly when the checker reported no toolchain. */
  lemma RepeatHitsIff(w: World, dir: AttestDir, q: Query, noCache: bool, env: Env, again: Env)
    requires var r := RunSpec(w, dir, q, noCache, env).0; r.Done? && !r.cacheHit && SignatureAccepted(w, r.att)
    requires Undisturbed(again)
    ensures var (first, dir') := RunSpec(w, dir, q, noCache, env);
            var second := RunSpec(w, dir', q, false, again).0;
            second.Done? && (second.cacheHit <==> first.att.toolchain == map[])
  {
    hide Fresh, Contains, SignatureAccepted;
    FreshlyBuilt(w, dir, q, noCache, env);
    var (first, dir') := RunSpec(w, dir, q, noCache, env);
    ReadableRun(w, dir', q, again);
    assert first.att.toolchain == map[] <==> |first.att.toolchain| == 0;
  }

  // ------------------------------------------------------------ results of a run, from what it met

  /** What stops a run before it looks at the cache, in this order. */
  lemma EarlyFailureIff(w: World, dir: AttestDir, q: Query, noCache: bool, env: Env)
    ensures var r := RunSpec(w, dir, q, noCache, env).0;
            var valid := ValidClaimId(q.claimId);
            var known := valid && q.claimId in w.claims;
            var resolved := known && forall d :: d in w.claims[q.claimId].dependsOn ==> d in w.claims;
            var evident := resolved && env.evidenceInCas && env.evidenceOnDisk;
            var pinned := q.checker.runtime.manifestDigest != "" && q.checker.runtime.manifestPath != "";
            && (r == Failed(InvalidClaim) <==> !valid)
            && (r == Failed(UnknownClaim) <==> valid && q.claimId !in w.claims)
            && (r == Failed(MissingDependency) <==> known && !resolved)
            && (r == Failed(MissingEvidence) <==> resolved && !(env.evidenceInCas && env.evidenceOnDisk))
            && (r == Failed(ManifestDrift) <==> evident && pinned && !env.manifestUnchanged)
            && (EarlyFailure(w, q, env).None? <==> evident && (pinned ==> env.manifestUnchanged))
  {
    hide ValidClaimId, Contains, Fresh, PlainKey, Built;
  }

  /** What stops a run past the cache, in this order; only if nothing does is an attestation written. */
  lemma LateFailureIff(w: World, dir: AttestDir, q: Query, env: Env)
    requires EarlyFailure(w, q, env).None?
    ensures var r := RunSpec(w, dir, q, true, env).0;
            var steady := env.snapshots && !env.evidenceDrifted;
            var decided := steady && Fresh(w, q).Decided?;
            var signed := decided && (w.signer.Some? ==> env.signs);
            && (r == Failed(SnapshotFailed) <==> !env.snapshots)
            && (r == Failed(EvidenceDrift) <==> env.snapshots && env.evidenceDrifted)
            && (r == Failed(CheckerFailed) <==> steady && Fresh(w, q).Errored?)
            && (r == Failed(NotSigned) <==> decided && !signed)
            && (r == Failed(NotWritten) <==> signed && !env.writes)
            && (r.Done? <==> signed && env.writes)
  {
    hide ValidClaimId, Fresh, PlainKey, Built;
  }

  /** Exactly when a run is served from the cache, and with what. */
  lemma HitIff(w: World, dir: AttestDir, q: Query, noCache: bool, env: Env)
    requires EarlyFailure(w, q, env).None?
    ensures var r := RunSpec(w, dir, q, noCache, env).0;
            && (r.Done? && r.cacheHit <==>
                && !noCache && q.claimId in dir && env.unreadable.None? && dir[q.claimId].cacheKey == PlainKey(w, q)
                && (dir[q.claimId].signature.Some? && w.hasTrustStore ==> w.signatureValid(dir[q.claimId])))
            && (r.Done? && r.cacheHit ==>
                  var att := dir[q.claimId];
                  if att.startFreshness != "" && att.endFreshness != "" then r.att == att
                  else && r.att.startFreshness == r.att.endFreshness == env.today
                       && r.att == att.(startFreshness := env.today, endFreshness := env.today,
                                        selfDigest := r.att.selfDigest)
                       && r.att.selfDigest == w.digest(r.att.(selfDigest := "")))
  {
    hide ValidClaimId, Fresh, PlainKey, Built, Contains;
    MessagesRecognised();
  }

  /** What a run that went to the checker records. */
  lemma RecordedFields(w: World, dir: AttestDir, q: Query, noCache: bool, env: Env)
    requires var r := RunSpec(w, dir, q, noCache, env).0; r.Done? && !r.cacheHit
    ensures q.claimId in w.claims && Resolvable(w, q)
    ensures var att, claim := RunSpec(w, dir, q, noCache, env).0.att, w.claims[q.claimId];
            && att.claimId == q.claimId && att.evidence == q.evidence && att.checker == q.checker
            && att.statementDigest == claim.statement.digest
            && |att.dependencyDigests| == |claim.dependsOn|
            && (forall i :: 0 <= i < |claim.dependsOn| ==>
                  att.dependencyDigests[i] == w.claims[claim.dependsOn[i]].statement.digest)
            && Fresh(w, q) == Decided(att.outcome, att.obligationResults, att.toolchain)
            && att.startFreshness == env.today && att.endFreshness == env.today
            && att.replayMode == "self_consistency" && att.assurance == "" && att.blockReason == ""
            && att.metadata == map[]
            && att.selfDigest == w.digest(att.(selfDigest := "", signature := None))
            && att.signature == (if w.signer.Some? then Some(w.signer.value(att.(signature := None))) else None)
            && (att.toolchain == map[] <==> att.cacheKey == PlainKey(w, q))
  {
    hide ValidClaimId, Fresh, Contains;
    FreshlyBuilt(w, dir, q, noCache, env);
    var d := Fresh(w, q);
    assert d.toolchain == map[] <==> |d.toolchain| == 0;
  }
}
