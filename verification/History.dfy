/**
 Histories: any interleaving of checks, hand-written attestations, replays, group checks,
 invalidations and edits of the project, from an empty attestation directory on.
 */
module History {
  import opened Ir
  import opened Graph
  import opened StatusProjection
  import opened Protocol
  import opened Merge
  import opened Text
  import opened Pipeline
  import opened Edits
  import opened Attesting
  import opened Replaying
  import opened Shadowing

  datatype Step = Checked(q: Query, noCache: bool, env: Env)
                | AttestedBy(req: AttestRequest, batch: bool, desk: Desk)
                | ReplayedBy(replay: ReplayRequest, desk: Desk)
                | BatchReplayed(entry: BatchEntry, loaded: AttestDir, skipAccepted: bool, desk: Desk)
                | GroupChecked(answers: seq<GroupAnswer>, desk: Desk)
                | ShadowCompiled(defects: map<string, string>, force: bool)
                | Invalidated(ids: seq<string>, resisting: set<string>)
                | Edited(claims: map<string, Claim>, contracts: map<string, seq<string>>)

  datatype State = State(w: World, dir: AttestDir)

  ghost function Apply(s: State, step: Step): State {
    match step
    case Edited(claims, contracts) => s.(w := s.w.(claims := claims, contracts := contracts))
    case _ => s.(dir := DirAfter(s.w, s.dir, step))
  }

  ghost function DirAfter(w: World, dir: AttestDir, step: Step): AttestDir {
    match step
    case Checked(q, noCache, env) => RunSpec(w, dir, q, noCache, env).1
    case AttestedBy(req, batch, desk) =>
      if batch then AttestEntrySpec(w, dir, req, desk).1 else AttestSpec(w, dir, req, desk).1
    case ReplayedBy(replay, desk) => ReplaySpec(w, dir, replay, desk)
    case BatchReplayed(entry, loaded, skipAccepted, desk) => BatchSpec(w, dir, loaded, entry, skipAccepted, desk)
    case GroupChecked(answers, desk) => GroupSpec(dir, answers, desk)
    case ShadowCompiled(defects, force) => ShadowSpec(w, dir, defects, force)
    case Invalidated(ids, resisting) => map c | c in dir && (c !in ids || c in resisting) :: dir[c]
    case Edited(_, _) => dir
  }

  ghost function After(w: World, steps: seq<Step>): State {
    if steps == [] then State(w, map[]) else Apply(After(w, steps[..|steps| - 1]), steps[|steps| - 1])
  }

  // ------------------------------------------------------------ what a step leaves on file

  /** Where an attestation on file comes from: it was there, a check returned it, or one of the
      other commands built it. */
  ghost predicate CameFrom(w: World, dir: AttestDir, step: Step, c: string, att: Attestation) {
    || (c in dir && att == dir[c])
    || (step.Checked? && step.q.claimId == c
        && var r := RunSpec(w, dir, step.q, step.noCache, step.env).0; r.Done? && att == r.att)
    || (step.AttestedBy? && step.req.claimId == att.claimId == c && att.cacheKey == NoKey && SpeaksTrue(att)
        && att.checker == CheckerOf(w, step.desk.checkers, c))
    || (step.ReplayedBy? && step.replay.claimId == c && att == ReplayRecord(w, step.replay, step.desk))
    || (step.BatchReplayed? && BatchWrites(step.loaded, step.entry, step.skipAccepted, step.desk, c)
        && att == BatchRecord(w, step.entry, step.desk, c))
    || ((step.GroupChecked? || step.ShadowCompiled?)
        && att.claimId == c && att.cacheKey == NoKey && SpeaksTrue(att) && !IsV2(att))
  }

  lemma StepOrigins(w: World, dir: AttestDir, step: Step, c: string)
    requires c in DirAfter(w, dir, step)
    ensures CameFrom(w, dir, step, c, DirAfter(w, dir, step)[c])
  {
    hide RunSpec, AttestSpec, AttestEntrySpec, SpeaksTrue, ReplayRecord, BatchRecord, GroupSpec;
    hide IsV2, AllPass, BatchWrites, ShadowSpec, ShadowSkips;
    match step
    case Checked(q, noCache, env) => RunTouchesOne(w, dir, q, noCache, env);
    case AttestedBy(req, batch, desk) => AttestSpeaksTrue(w, dir, req, desk, batch);
    case GroupChecked(answers, desk) => GroupWrites(dir, answers, desk, c);
    case ShadowCompiled(defects, force) => ShadowWrites(w, dir, defects, force, c);
    case _ =>
  }

  /** Only checks write cache keys. */
  lemma OnlyChecksWriteKeys(w: World, dir: AttestDir, step: Step, c: string)
    requires c in DirAfter(w, dir, step) && !step.Checked?
    ensures var att := DirAfter(w, dir, step)[c]; (c in dir && att == dir[c]) || att.cacheKey == NoKey
  {
    hide SpeaksTrue, DirAfter, RunSpec;
    StepOrigins(w, dir, step, c);
    if step.ReplayedBy? { ReplaySpeaksTrueIff(w, step.replay, step.desk); }
  }

  // ------------------------------------------------------------ the cache over histories

  /** Claims are filed under their ids, and the digest of claim `id` determines its text. */
  ghost predicate Filed(claims: map<string, Claim>, id: string, textOf: string -> string) {
    Named(claims) && (id in claims ==> claims[id].statement.text == textOf(claims[id].statement.digest))
  }

  /** The history's edits keep that; contracts, graph and all other texts may change at will. */
  ghost predicate KeepsFiled(step: Step, id: string, textOf: string -> string) {
    step.Edited? ==> Filed(step.claims, id, textOf)
  }

  /** The contracts a claim had in the course of a history. */
  ghost function ContractsHad(w: World, steps: seq<Step>, id: string): set<Option<seq<string>>> {
    (if steps == [] then {} else ContractsHad(w, steps[..|steps| - 1], id))
    + {ObligationIds(After(w, steps).w.contracts, id)}
  }

  ghost predicate DecidedUnder(w: World, q: Query, att: Attestation, expected: Option<seq<string>>)
    requires Resolvable(w, q)
  {
    Decide(Invoke(w.runner, q.checker, InputOf(w, q)), q.claimId, expected)
    == Decided(att.outcome, att.obligationResults, map[])
  }

  /** The attestation records what the checker's run comes to under one of the contracts. */
  ghost predicate Records(w: World, q: Query, att: Attestation, contracts: set<Option<seq<string>>>)
    requires Resolvable(w, q)
  {
    exists expected :: expected in contracts && DecidedUnder(w, q, att, expected)
  }

  /** Whatever carries the plain key of a query on claim `id`, in any state of the project with that
      checker, records what running the query there comes to under one of the contracts. */
  ghost predicate CacheSound(dir: AttestDir, runner: Runner, contracts: set<Option<seq<string>>>, id: string,
                             textOf: string -> string)
  {
    forall c, w: World, q: Query {:trigger dir[c], PlainKey(w, q)} ::
      (&& c in dir && q.claimId == id && w.runner == runner && Filed(w.claims, id, textOf)
       && Resolvable(w, q) && dir[c].cacheKey == PlainKey(w, q))
      ==> Records(w, q, dir[c], contracts)
  }

  /** A plain key is only ever written for the query it belongs to, by a run without toolchain. */
  lemma BuiltKeyIsPlain(w: World, q: Query, d: Decision, today: string, w': World, q': Query)
    requires Resolvable(w, q) && d.Decided? && Resolvable(w', q')
    requires Built(w, q, d, today).cacheKey == PlainKey(w', q')
    ensures d.toolchain == map[] && PlainKey(w, q) == PlainKey(w', q')
  {
    assert |d.toolchain| == 0;
  }

  lemma BuiltIsSound(w: World, q: Query, today: string, w': World, q': Query, contracts: set<Option<seq<string>>>,
                     textOf: string -> string)
    requires Resolvable(w, q) && Fresh(w, q).Decided? && Resolvable(w', q') && w'.runner == w.runner
    requires Filed(w.claims, q'.claimId, textOf) && Filed(w'.claims, q'.claimId, textOf)
    requires ObligationIds(w.contracts, q'.claimId) in contracts
    requires Built(w, q, Fresh(w, q), today).cacheKey == PlainKey(w', q')
    ensures Records(w', q', Built(w, q, Fresh(w, q), today), contracts)
  {
    hide PlainKey, ObligationIds, Decide, Invoke, InputOf;
    BuiltKeyIsPlain(w, q, Fresh(w, q), today, w', q');
    KeyNamesClaim(w, w', q, q');
    SameKeySameInputIff(w, w', q, q');
    BuiltRecords(w, q, Fresh(w, q), today);
    assert DecidedUnder(w', q', Built(w, q, Fresh(w, q), today), ObligationIds(w.contracts, q'.claimId));
  }

  lemma ReturnedIsSound(w: World, dir: AttestDir, q: Query, noCache: bool, env: Env, w': World, q': Query,
                        contracts: set<Option<seq<string>>>, textOf: string -> string)
    requires Resolvable(w', q') && w'.runner == w.runner
    requires Filed(w.claims, q'.claimId, textOf) && Filed(w'.claims, q'.claimId, textOf)
    requires ObligationIds(w.contracts, q'.claimId) in contracts
    requires CacheSound(dir, w.runner, contracts, q'.claimId, textOf)
    requires var r := RunSpec(w, dir, q, noCache, env).0; r.Done? && r.att.cacheKey == PlainKey(w', q')
    ensures Records(w', q', RunSpec(w, dir, q, noCache, env).0.att, contracts)
  {
    hide Fresh, PlainKey, Filed, ObligationIds, Contains, Built, Decide, Invoke;
    var r := RunSpec(w, dir, q, noCache, env).0;
    if r.cacheHit {
      assert r.att == Backfilled(w, dir[q.claimId], env.today);
      assert Records(w', q', dir[q.claimId], contracts);
      var expected :| expected in contracts && DecidedUnder(w', q', dir[q.claimId], expected);
      assert DecidedUnder(w', q', r.att, expected);
    } else {
      FreshlyBuilt(w, dir, q, noCache, env);
      BuiltIsSound(w, q, env.today, w', q', contracts, textOf);
    }
  }

  lemma StepKeepsSound(s: State, step: Step, contracts: set<Option<seq<string>>>, id: string, textOf: string -> string)
    requires Filed(s.w.claims, id, textOf) && ObligationIds(s.w.contracts, id) in contracts
    requires CacheSound(s.dir, s.w.runner, contracts, id, textOf)
    ensures CacheSound(Apply(s, step).dir, s.w.runner, contracts, id, textOf)
  {
    hide Fresh, PlainKey, RunSpec, Resolvable, DirAfter, Records, Filed, ObligationIds;
    var dir' := Apply(s, step).dir;
    forall c, w: World, q: Query {:trigger dir'[c], PlainKey(w, q)} |
      c in dir' && q.claimId == id && w.runner == s.w.runner && Filed(w.claims, id, textOf) && Resolvable(w, q)
      && dir'[c].cacheKey == PlainKey(w, q)
      ensures Records(w, q, dir'[c], contracts)
    {
      if c in s.dir && dir'[c] == s.dir[c] {
      } else if step.Checked? {
        StepOrigins(s.w, s.dir, step, c);
        ReturnedIsSound(s.w, s.dir, step.q, step.noCache, step.env, w, q, contracts, textOf);
      } else if !step.Edited? {
        OnlyChecksWriteKeys(s.w, s.dir, step, c);
        PlainKeyIsKey(w, q);
      }
    }
  }

  lemma PlainKeyIsKey(w: World, q: Query)
    requires Resolvable(w, q)
    ensures PlainKey(w, q) != NoKey
  {
  }

  lemma MoreContractsSound(dir: AttestDir, runner: Runner, contracts: set<Option<seq<string>>>,
                           more: set<Option<seq<string>>>, id: string, textOf: string -> string)
    requires CacheSound(dir, runner, contracts, id, textOf) && contracts <= more
    ensures CacheSound(dir, runner, more, id, textOf)
  {
    hide DecidedUnder, PlainKey, Filed, Resolvable;
    forall c, w: World, q: Query {:trigger dir[c], PlainKey(w, q)} |
      c in dir && q.claimId == id && w.runner == runner && Filed(w.claims, id, textOf) && Resolvable(w, q)
      && dir[c].cacheKey == PlainKey(w, q)
      ensures Records(w, q, dir[c], more)
    {
      assert Records(w, q, dir[c], contracts);
    }
  }

  /** Every history keeps the cache sound for a claim, up to the contracts the claim had. */
  lemma {:induction false} HistoryKeepsSound(w: World, steps: seq<Step>, id: string, textOf: string -> string)
    requires Filed(w.claims, id, textOf)
    requires forall i :: 0 <= i < |steps| ==> KeepsFiled(steps[i], id, textOf)
    ensures After(w, steps).w.runner == w.runner && Filed(After(w, steps).w.claims, id, textOf)
    ensures ObligationIds(After(w, steps).w.contracts, id) in ContractsHad(w, steps, id)
    ensures CacheSound(After(w, steps).dir, w.runner, ContractsHad(w, steps, id), id, textOf)
  {
    hide CacheSound, DirAfter, Filed, ObligationIds;
    if steps == [] {
      NothingSound(w.runner, ContractsHad(w, steps, id), id, textOf);
    } else {
      var init := steps[..|steps| - 1];
      HistoryKeepsSound(w, init, id, textOf);
      StepKeepsSound(After(w, init), steps[|steps| - 1], ContractsHad(w, init, id), id, textOf);
      MoreContractsSound(After(w, steps).dir, w.runner, ContractsHad(w, init, id), ContractsHad(w, steps, id), id,
                         textOf);
    }
  }

  lemma NothingSound(runner: Runner, contracts: set<Option<seq<string>>>, id: string, textOf: string -> string)
    ensures CacheSound(map[], runner, contracts, id, textOf)
  {
  }

  // ------------------------------------------------------------ what a hit is worth

  /** The contract as it now stands is met by the recorded verdicts, or there is none. */
  ghost predicate MeetsContract(w: World, id: string, att: Attestation) {
    var now := ObligationIds(w.contracts, id);
    now.None? || ExactSet(att.obligationResults, now.value)
  }

  /** Exactly when a hit is worth a re-run, after any history, with contracts, graph and other claims'
      texts edited at will: a hit with verdicts, as every accepted one, if and only if its verdicts
      meet the present contract; one without if and only if there is no contract or the checker
      rejects by its exit code.  A re-run that does not confirm the hit ends in an error. */
  lemma HitIsFreshIff(w: World, steps: seq<Step>, q: Query, env: Env, again: Env, textOf: string -> string)
    requires Filed(w.claims, q.claimId, textOf)
    requires forall i :: 0 <= i < |steps| ==> KeepsFiled(steps[i], q.claimId, textOf)
    requires var s := After(w, steps); var r := RunSpec(s.w, s.dir, q, false, env).0; r.Done? && r.cacheHit
    requires Undisturbed(again)
    ensures var s := After(w, steps);
            var hit := RunSpec(s.w, s.dir, q, false, env).0.att;
            var rerun := RunSpec(s.w, s.dir, q, true, again).0;
            && (Confirms(rerun, hit) || rerun == Failed(CheckerFailed))
            && (hit.outcome == Accepted ==> hit.obligationResults != [])
            && (hit.obligationResults != [] ==> (Confirms(rerun, hit) <==> MeetsContract(s.w, q.claimId, hit)))
            && (hit.obligationResults == [] ==>
                  (Confirms(rerun, hit) <==>
                   ObligationIds(s.w.contracts, q.claimId).None?
                   || Invoke(s.w.runner, q.checker, InputOf(s.w, q)) == Faulted(CheckerFail)))
  {
    hide PlainKey, After, Contains, Built, ObligationIds, Filed, CacheSound, InputOf, Invoke, ExactSet, Fresh;
    HistoryKeepsSound(w, steps, q.claimId, textOf);
    var s := After(w, steps);
    HitRecords(s.w, s.dir, q, env, ContractsHad(w, steps, q.claimId), textOf);
    HitAgainstRerun(s.w, s.dir, q, RunSpec(s.w, s.dir, q, false, env).0.att, again, ContractsHad(w, steps, q.claimId));
  }

  lemma HitRecords(w: World, dir: AttestDir, q: Query, env: Env, contracts: set<Option<seq<string>>>,
                   textOf: string -> string)
    requires Filed(w.claims, q.claimId, textOf) && CacheSound(dir, w.runner, contracts, q.claimId, textOf)
    requires var r := RunSpec(w, dir, q, false, env).0; r.Done? && r.cacheHit
    ensures EarlyFailure(w, q, env).None? && Resolvable(w, q)
    ensures Records(w, q, RunSpec(w, dir, q, false, env).0.att, contracts)
  {
    hide Fresh, PlainKey, Contains, Built, Filed, Decide, Invoke, InputOf;
    assert Records(w, q, dir[q.claimId], contracts);
    var expected :| expected in contracts && DecidedUnder(w, q, dir[q.claimId], expected);
    assert DecidedUnder(w, q, RunSpec(w, dir, q, false, env).0.att, expected);
  }

  lemma HitAgainstRerun(w: World, dir: AttestDir, q: Query, hit: Attestation, again: Env,
                        contracts: set<Option<seq<string>>>)
    requires Resolvable(w, q) && ValidClaimId(q.claimId) && Records(w, q, hit, contracts) && Undisturbed(again)
    ensures var rerun := RunSpec(w, dir, q, true, again).0;
            && (Confirms(rerun, hit) || rerun == Failed(CheckerFailed))
            && (hit.outcome == Accepted ==> hit.obligationResults != [])
            && (hit.obligationResults != [] ==> (Confirms(rerun, hit) <==> MeetsContract(w, q.claimId, hit)))
            && (hit.obligationResults == [] ==>
                  (Confirms(rerun, hit) <==>
                   ObligationIds(w.contracts, q.claimId).None?
                   || Invoke(w.runner, q.checker, InputOf(w, q)) == Faulted(CheckerFail)))
  {
    hide Invoke, InputOf, Decide, PlainKey, Built, Contains, ValidClaimId;
    var ran := Invoke(w.runner, q.checker, InputOf(w, q));
    var now := ObligationIds(w.contracts, q.claimId);
    var expected :| expected in contracts && DecidedUnder(w, q, hit, expected);
    RejudgedIff(ran, q.claimId, expected, now);
    DecisionCoherent(ran, q.claimId, expected);
    if Fresh(w, q).Decided? { BuiltRecords(w, q, Fresh(w, q), again.today); }
    if hit.obligationResults == [] && now.Some? { NoVerdictsMeetNothing(now.value); }
  }

  lemma NoVerdictsMeetNothing(ids: seq<string>)
    requires ids != []
    ensures !ExactSet([], ids)
  {
    assert ids[0] in Elems(ids);
  }

  /** As long as the contract of the claim was left alone, every hit is confirmed. */
  lemma HitIsFresh(w: World, steps: seq<Step>, q: Query, env: Env, again: Env, textOf: string -> string)
    requires Filed(w.claims, q.claimId, textOf)
    requires forall i :: 0 <= i < |steps| ==> KeepsFiled(steps[i], q.claimId, textOf)
    requires ContractsHad(w, steps, q.claimId) == {ObligationIds(w.contracts, q.claimId)}
    requires var s := After(w, steps); var r := RunSpec(s.w, s.dir, q, false, env).0; r.Done? && r.cacheHit
    requires Undisturbed(again)
    ensures var s := After(w, steps);
            Confirms(RunSpec(s.w, s.dir, q, true, again).0, RunSpec(s.w, s.dir, q, false, env).0.att)
  {
    hide PlainKey, After, Contains, Built, ObligationIds, Filed, CacheSound, Fresh;
    HistoryKeepsSound(w, steps, q.claimId, textOf);
    var s := After(w, steps);
    HitRecords(s.w, s.dir, q, env, ContractsHad(w, steps, q.claimId), textOf);
    SameContractConfirms(s.w, s.dir, q, RunSpec(s.w, s.dir, q, false, env).0.att, again);
  }

  lemma SameContractConfirms(w: World, dir: AttestDir, q: Query, hit: Attestation, again: Env)
    requires Resolvable(w, q) && ValidClaimId(q.claimId) && Undisturbed(again)
    requires Records(w, q, hit, {ObligationIds(w.contracts, q.claimId)})
    ensures Confirms(RunSpec(w, dir, q, true, again).0, hit)
  {
    hide Invoke, InputOf, Decide, PlainKey, Built, Contains, ValidClaimId, ObligationIds;
    BuiltRecords(w, q, Fresh(w, q), again.today);
  }

  /** Every attestation lies in the file of the claim it names, so reading the directory back by the
      names inside the files gives the same map. */
  lemma {:induction false} FiledUnderOwnId(w: World, steps: seq<Step>, c: string)
    requires c in After(w, steps).dir
    ensures After(w, steps).dir[c].claimId == c
  {
    hide DirAfter, RunSpec, SpeaksTrue;
    if steps != [] {
      var init, last := steps[..|steps| - 1], steps[|steps| - 1];
      var s := After(w, init);
      if c in s.dir { FiledUnderOwnId(w, init, c); }
      if !last.Edited? {
        StepOrigins(s.w, s.dir, last, c);
        if last.Checked? && last.q.claimId == c { ReturnedNamesClaim(s.w, s.dir, last.q, last.noCache, last.env); }
        if last.ReplayedBy? { ReplaySpeaksTrueIff(s.w, last.replay, last.desk); }
      }
    }
  }

  lemma ReturnedNamesClaim(w: World, dir: AttestDir, q: Query, noCache: bool, env: Env)
    requires q.claimId in dir ==> dir[q.claimId].claimId == q.claimId
    ensures var r := RunSpec(w, dir, q, noCache, env).0; r.Done? ==> r.att.claimId == q.claimId
  {
    hide Fresh, PlainKey, Contains;
  }
}
