/**
 The attestations that histories leave on file, seen by the status projections and the gate:
 which writers keep the outcome field and the verdicts in agreement, and what happens when one
 does not.
 */
module Agreement {
  import opened Graph
  import opened Ir
  import opened StatusProjection
  import opened Protocol
  import opened Merge
  import opened Text
  import opened Pipeline
  import opened Attesting
  import opened Replaying
  import opened Shadowing
  import opened History
  import opened Conditions
  import opened Policy
  import opened Gate

  /** What the step writes, if it writes, states the status its verdicts stand for.  Only replays can
      fail this: a single one when its checker is a protocol 2 one and did not report all-pass verdicts,
      a batch one for every claim with a protocol 2 checker. */
  ghost predicate Truthful(w: World, step: Step) {
    match step
    case ReplayedBy(replay, desk) =>
      CheckerOf(w, desk.checkers, replay.claimId).protocolVersion != 2 || AllPassing(Collected(replay.items))
    case BatchReplayed(entry, loaded, skipAccepted, desk) =>
      forall c :: BatchWrites(loaded, entry, skipAccepted, desk, c) ==>
        CheckerOf(w, desk.checkers, c).protocolVersion != 2
    case _ => true
  }

  /** Every replay in the history was truthful in the project as it stood then. */
  ghost predicate TruthfulHistory(w: World, steps: seq<Step>) {
    forall i {:trigger steps[i]} :: 0 <= i < |steps| ==> Truthful(After(w, steps[..i]).w, steps[i])
  }

  /** What the pipeline returns speaks true: freshly built, or served and perhaps backfilled. */
  lemma CheckSpeaksTrue(w: World, dir: AttestDir, q: Query, noCache: bool, env: Env)
    requires q.claimId in dir ==> SpeaksTrue(dir[q.claimId])
    ensures var r := RunSpec(w, dir, q, noCache, env).0; r.Done? ==> SpeaksTrue(r.att)
  {
    hide AllPassing, Fresh, PlainKey, Contains, Built, FreshRun;
    var r := RunSpec(w, dir, q, noCache, env).0;
    if r.Done? && !r.cacheHit {
      FreshlyBuilt(w, dir, q, noCache, env);
      BuiltSpeaksTrue(w, q, env.today);
    } else if r.Done? {
      HitsDoneOnlyCached(w, dir, q, noCache, env);
    }
  }

  lemma HitsDoneOnlyCached(w: World, dir: AttestDir, q: Query, noCache: bool, env: Env)
    requires var r := RunSpec(w, dir, q, noCache, env).0; r.Done? && r.cacheHit
    ensures q.claimId in dir && RunSpec(w, dir, q, noCache, env).0.att == Backfilled(w, dir[q.claimId], env.today)
  {
    hide Fresh, PlainKey, Contains, Built, Backfilled;
  }

  lemma BuiltSpeaksTrue(w: World, q: Query, today: string)
    requires Resolvable(w, q) && Fresh(w, q).Decided?
    ensures SpeaksTrue(Built(w, q, Fresh(w, q), today))
  {
    hide AllPassing, Decide, Invoke;
    DecisionCoherent(Invoke(w.runner, q.checker, InputOf(w, q)), q.claimId, ObligationIds(w.contracts, q.claimId));
  }

  lemma StepSpeaksTrue(w: World, dir: AttestDir, step: Step, c: string)
    requires c in DirAfter(w, dir, step) && Truthful(w, step)
    requires c in dir ==> SpeaksTrue(dir[c])
    ensures SpeaksTrue(DirAfter(w, dir, step)[c])
  {
    hide SpeaksTrue, DirAfter, RunSpec, AllPassing;
    StepOrigins(w, dir, step, c);
    match step
    case Checked(q, noCache, env) =>
      if q.claimId == c { CheckSpeaksTrue(w, dir, q, noCache, env); }
    case ReplayedBy(replay, desk) => ReplayTruth(w, replay, desk);
    case BatchReplayed(entry, _, _, desk) => BatchSpeaksTrueIff(w, entry, desk, c);
    case _ =>
  }

  lemma ReplayTruth(w: World, req: ReplayRequest, desk: Desk)
    ensures SpeaksTrue(ReplayRecord(w, req, desk)) <==>
            CheckerOf(w, desk.checkers, req.claimId).protocolVersion != 2 || AllPassing(Collected(req.items))
  {
    hide AllPassing;
  }

  /** After a truthful history every outcome field states what the verdicts stand for. */
  lemma {:induction false} HistorySpeaksTrue(w: World, steps: seq<Step>, c: string)
    requires TruthfulHistory(w, steps) && c in After(w, steps).dir
    ensures SpeaksTrue(After(w, steps).dir[c])
  {
    hide DirAfter, SpeaksTrue, Truthful;
    if steps != [] {
      var init, last := steps[..|steps| - 1], steps[|steps| - 1];
      forall i {:trigger init[i]} | 0 <= i < |init| ensures Truthful(After(w, init[..i]).w, init[i]) {
        assert init[..i] == steps[..i] && init[i] == steps[i];
      }
      var s := After(w, init);
      if c in s.dir { HistorySpeaksTrue(w, init, c); }
      if !last.Edited? { StepSpeaksTrue(s.w, s.dir, last, c); }
    }
  }

  /** So after checks, hand-written attestations, group checks, invalidations, edits and truthful
      replays it makes no difference whether outcome fields are read or verdicts are: both
      projections and the gate's own decision agree on every claim. */
  lemma TruthfulHistoryAgrees(w: World, steps: seq<Step>, e: Edges, id: string, cs: ClaimStatus)
    requires TruthfulHistory(w, steps)
    requires ReasonedStatus(e, After(w, steps).dir, id, cs)
    ensures cs.status == StatusOf(e, After(w, steps).dir, id)
    ensures id in After(w, steps).dir ==> (cs.status == Accepted <==> AcceptedAtt(After(w, steps).dir[id]))
  {
    hide After;
    var atts := After(w, steps).dir;
    forall c | c in atts ensures SpeaksTrue(atts[c]) { HistorySpeaksTrue(w, steps, c); }
    if BlockedByDep(e, atts, id) {
      var d :| ReachesPlus(e, id, d) && d in atts && Failing(StatusFor(atts[d]));
      assert SpeaksTrue(atts[d]) && FailsByOutcome(e, atts, id, d);
    }
    if d :| FailsByOutcome(e, atts, id, d) {
      assert SpeaksTrue(atts[d]) && Failing(StatusFor(atts[d]));
    }
  }

  /** Every checker the step may record speaks protocol 2. */
  ghost predicate RecordsV2(w: World, step: Step) {
    match step
    case Checked(q, _, _) => q.checker.protocolVersion == VERSION
    case AttestedBy(req, _, desk) => CheckerOf(w, desk.checkers, req.claimId).protocolVersion == VERSION
    case ReplayedBy(replay, desk) => CheckerOf(w, desk.checkers, replay.claimId).protocolVersion == VERSION
    case BatchReplayed(entry, _, _, desk) =>
      forall c :: c in entry.claims ==> CheckerOf(w, desk.checkers, c).protocolVersion == VERSION
    case GroupChecked(answers, _) => answers == []
    case ShadowCompiled(_, _) => w.claims == map[]
    case _ => true
  }

  /** If all do, no attestation counts as one of an earlier protocol. */
  lemma {:induction false} HistoryIsV2(w: World, steps: seq<Step>, c: string)
    requires forall i {:trigger steps[i]} :: 0 <= i < |steps| ==> RecordsV2(After(w, steps[..i]).w, steps[i])
    requires c in After(w, steps).dir
    ensures IsV2(After(w, steps).dir[c])
  {
    hide DirAfter, RunSpec, SpeaksTrue, RecordsV2;
    if steps != [] {
      var init, last := steps[..|steps| - 1], steps[|steps| - 1];
      forall i {:trigger init[i]} | 0 <= i < |init| ensures RecordsV2(After(w, init[..i]).w, init[i]) {
        assert init[..i] == steps[..i] && init[i] == steps[i];
      }
      var s := After(w, init);
      if c in s.dir { HistoryIsV2(w, init, c); }
      if !last.Edited? { StepRecordsV2(s.w, s.dir, last, c); }
    }
  }

  lemma StepRecordsV2(w: World, dir: AttestDir, step: Step, c: string)
    requires c in DirAfter(w, dir, step) && RecordsV2(w, step)
    requires c in dir ==> IsV2(dir[c])
    ensures IsV2(DirAfter(w, dir, step)[c])
  {
    hide DirAfter, RunSpec, SpeaksTrue;
    StepOrigins(w, dir, step, c);
    if step.Checked? {
      var r := RunSpec(w, dir, step.q, step.noCache, step.env).0;
      if r.Done? && r.cacheHit {
        HitsDoneOnlyCached(w, dir, step.q, step.noCache, step.env);
      } else if r.Done? {
        FreshlyBuilt(w, dir, step.q, step.noCache, step.env);
      }
    }
    if step.GroupChecked? { EmptyGroup(w, dir, step.desk); }
    if step.ShadowCompiled? { EmptyShadow(w, dir, step.defects, step.force); }
  }

  lemma EmptyShadow(w: World, dir: AttestDir, defects: map<string, string>, force: bool)
    requires w.claims == map[]
    ensures DirAfter(w, dir, ShadowCompiled(defects, force)) == dir
  {
  }

  lemma EmptyGroup(w: World, dir: AttestDir, desk: Desk)
    ensures DirAfter(w, dir, GroupChecked([], desk)) == dir
  {
  }

  // ------------------------------------------------------------ the writer that does not

  /** What a batch replay leaves for a claim it writes. */
  lemma BatchLeaves(s: State, step: Step, c: string)
    requires step.BatchReplayed? && BatchWrites(step.loaded, step.entry, step.skipAccepted, step.desk, c)
    ensures c in Apply(s, step).dir && Apply(s, step).dir[c] == BatchRecord(s.w, step.entry, step.desk, c)
  {
    hide BatchRecord;
  }

  /** After any history, a batch replay that accepts a claim whose checker speaks protocol 2 splits the
      projections on it: accepted by the outcome field, rejected by the verdicts, so that no policy
      lets the release through while the claim is in the graph. */
  lemma BatchReplaySplits(w: World, steps: seq<Step>, step: Step, c: string, e: Edges, pol: ReleasePolicy, trust: Trust)
    requires var s := After(w, steps);
             && step.BatchReplayed? && BatchWrites(step.loaded, step.entry, step.skipAccepted, step.desk, c)
             && CheckerOf(s.w, step.desk.checkers, c).protocolVersion == 2
    ensures var s := After(w, steps + [step]);
            && ReasonedStatus(e, s.dir, c, ClaimStatus(Accepted, ""))
            && StatusOf(e, s.dir, c) == Rejected && !AcceptedAtt(s.dir[c])
            && c in s.w.claims && !GatePasses(s.w.claims, s.dir, pol, trust)
  {
    hide After, BatchRecord, Holds, BatchWrites;
    var s := After(w, steps);
    AfterSnoc(w, steps, step);
    BatchLeaves(s, step, c);
    BatchSpeaksTrueIff(s.w, step.entry, step.desk, c);
  }

  lemma AfterSnoc(w: World, steps: seq<Step>, step: Step)
    ensures After(w, steps + [step]) == Apply(After(w, steps), step)
  {
    hide Apply;
    assert (steps + [step])[..|steps|] == steps;
  }

  /** A written single replay splits the projections on its claim exactly when its checker speaks
      protocol 2 and did not report verdicts that all pass. */
  lemma ReplaySplitsIff(w: World, steps: seq<Step>, req: ReplayRequest, desk: Desk, e: Edges, cs: ClaimStatus)
    requires !ReplaySkipped(After(w, steps).dir, req) && AllPass(req.items, req.semantic)
    requires req.claimId !in desk.protected
    requires ReasonedStatus(e, After(w, steps + [ReplayedBy(req, desk)]).dir, req.claimId, cs)
    ensures cs.status != StatusOf(e, After(w, steps + [ReplayedBy(req, desk)]).dir, req.claimId)
            <==> CheckerOf(After(w, steps).w, desk.checkers, req.claimId).protocolVersion == 2
                 && !AllPassing(Collected(req.items))
  {
    hide After, AllPass, ReplaySkipped, AllPassing;
    AfterSnoc(w, steps, ReplayedBy(req, desk));
    ReplayTruth(After(w, steps).w, req, desk);
  }

  /** A batch group of `verify --project` records no checker, so whatever it decides no policy lets
      the release through until the claim is attested anew. */
  lemma GroupCheckBlocksRelease(w: World, steps: seq<Step>, answers: seq<GroupAnswer>, desk: Desk, i: nat,
                                claims: map<string, Claim>, pol: ReleasePolicy, trust: Trust)
    requires i < |answers| && answers[i].claimId !in desk.protected
    ensures !GatePasses(claims, After(w, steps + [GroupChecked(answers, desk)]).dir, pol, trust)
  {
    hide After, GroupSpec, Holds, SpeaksTrue, IsV2;
    AfterSnoc(w, steps, GroupChecked(answers, desk));
    var dir := After(w, steps).dir;
    GroupKeeps(dir, answers, desk, i);
    GroupWrites(dir, answers, desk, answers[i].claimId);
  }

  lemma {:induction false} GroupKeeps(dir: AttestDir, answers: seq<GroupAnswer>, desk: Desk, i: nat)
    requires i < |answers| && answers[i].claimId !in desk.protected
    ensures answers[i].claimId in GroupSpec(dir, answers, desk)
  {
    hide GroupRecord;
    if i < |answers| - 1 {
      assert answers[..|answers| - 1][i] == answers[i];
      GroupKeeps(dir, answers[..|answers| - 1], desk, i);
    }
  }

  lemma ShadowAfterCheck(w: World, dir: AttestDir, q: Query, noCache: bool, env: Env, defects: map<string, string>,
                         force: bool)
    requires var r := RunSpec(w, dir, q, noCache, env).0; r.Done? && !r.cacheHit
    ensures var shadowed := ShadowSpec(w, RunSpec(w, dir, q, noCache, env).1, defects, force);
            && q.claimId in shadowed && shadowed[q.claimId].outcome in {Blocked, Open} && !IsV2(shadowed[q.claimId])
  {
    hide RunSpec, ShadowSkips, ShadowRecord, IsV2, SpeaksTrue, Downgrades;
    FreshlyBuilt(w, dir, q, noCache, env);
    var dir' := RunSpec(w, dir, q, noCache, env).1;
    ChecksAreUnprotected(w, dir, q, noCache, env, AttestRequest("", "", Accepted, [], map[], "", false), force);
    ShadowWrites(w, dir', defects, force, q.claimId);
  }

  /** Compiling with shadows right after a check replaces what the check wrote, force or no force, by a
      record that keeps every release from passing. */
  lemma ShadowsReplaceChecks(w: World, steps: seq<Step>, q: Query, noCache: bool, env: Env,
                             defects: map<string, string>, force: bool, pol: ReleasePolicy, trust: Trust)
    requires var s := After(w, steps); var r := RunSpec(s.w, s.dir, q, noCache, env).0; r.Done? && !r.cacheHit
    ensures var s := After(w, steps + [Checked(q, noCache, env)] + [ShadowCompiled(defects, force)]);
            && q.claimId in s.dir && s.dir[q.claimId].outcome in {Blocked, Open}
            && !GatePasses(s.w.claims, s.dir, pol, trust)
  {
    hide After, RunSpec, ShadowSpec, Holds, IsV2;
    var s := After(w, steps);
    AfterSnoc(w, steps, Checked(q, noCache, env));
    AfterSnoc(w, steps + [Checked(q, noCache, env)], ShadowCompiled(defects, force));
    ShadowAfterCheck(s.w, s.dir, q, noCache, env, defects, force);
  }
}
