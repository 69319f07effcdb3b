/**
 Batches as histories, and the assurance of what is on file: which commands can lower it.
 */
module Downgrades {
  import opened Ir
  import opened Pipeline
  import opened Attesting
  import opened Replaying
  import opened History

  // ------------------------------------------------------------ a batch is one step per entry

  ghost function EntrySteps(entries: seq<AttestRequest>, desk: Desk): (steps: seq<Step>)
    ensures |steps| == |entries|
  {
    seq(|entries|, i requires 0 <= i < |entries| => AttestedBy(entries[i], true, desk))
  }

  /** `attest --batch` leaves what its entries leave one after the other. */
  lemma {:induction false} AttestBatchIsSteps(w: World, steps: seq<Step>, entries: seq<AttestRequest>, desk: Desk)
    ensures var s := After(w, steps);
            After(w, steps + EntrySteps(entries, desk)) == State(s.w, AttestAll(s.w, s.dir, entries, desk).1)
  {
    hide AttestEntrySpec;
    if entries == [] {
      assert steps + EntrySteps(entries, desk) == steps;
    } else {
      var init, last := entries[..|entries| - 1], entries[|entries| - 1];
      AttestBatchIsSteps(w, steps, init, desk);
      var longer := steps + EntrySteps(entries, desk);
      assert longer[..|longer| - 1] == steps + EntrySteps(init, desk);
      assert longer[|longer| - 1] == AttestedBy(last, true, desk);
    }
  }

  ghost function ReplaySteps(entries: seq<BatchEntry>, loaded: AttestDir, skipAccepted: bool, desk: Desk)
    : (steps: seq<Step>)
    ensures |steps| == |entries|
  {
    seq(|entries|, i requires 0 <= i < |entries| => BatchReplayed(entries[i], loaded, skipAccepted, desk))
  }

  /** So does `replay --batch`, each entry looking at the attestations as they were at the start. */
  lemma {:induction false} ReplayBatchIsSteps(w: World, steps: seq<Step>, entries: seq<BatchEntry>, loaded: AttestDir,
                                              skipAccepted: bool, desk: Desk)
    ensures var s := After(w, steps);
            After(w, steps + ReplaySteps(entries, loaded, skipAccepted, desk))
            == State(s.w, ReplayAll(s.w, s.dir, loaded, entries, skipAccepted, desk))
  {
    hide BatchSpec;
    if entries == [] {
      assert steps + ReplaySteps(entries, loaded, skipAccepted, desk) == steps;
    } else {
      var init, last := entries[..|entries| - 1], entries[|entries| - 1];
      ReplayBatchIsSteps(w, steps, init, loaded, skipAccepted, desk);
      var longer := steps + ReplaySteps(entries, loaded, skipAccepted, desk);
      assert longer[..|longer| - 1] == steps + ReplaySteps(init, loaded, skipAccepted, desk);
      assert longer[|longer| - 1] == BatchReplayed(last, loaded, skipAccepted, desk);
    }
  }

  // ------------------------------------------------------------ what lowers an assurance

  /** The claim ends up without attestation, or with one of a lower level. */
  ghost predicate Lowers(w: World, dir: AttestDir, step: Step, c: string) {
    var dir' := DirAfter(w, dir, step);
    c in dir && (c !in dir' || AssuranceLevel(dir'[c].assurance) < AssuranceLevel(dir[c].assurance))
  }

  /** What it takes: `attest` and shadow compilation have to be forced; a check that goes to the checker, a
      group check, a replay of lower level and an invalidation do it unasked. */
  ghost predicate CanLower(w: World, dir: AttestDir, step: Step, c: string)
    requires c in dir
  {
    var level := AssuranceLevel(dir[c].assurance);
    match step
    case Checked(q, noCache, env) =>
      q.claimId == c && level > 0 && var r := RunSpec(w, dir, q, noCache, env).0; r.Done? && !r.cacheHit
    case AttestedBy(req, batch, desk) =>
      && req.claimId == c && req.force && level > AssuranceLevel(req.assurance)
      && (if batch then AttestEntrySpec(w, dir, req, desk) else AttestSpec(w, dir, req, desk)).0.Written?
    case ReplayedBy(replay, desk) =>
      && replay.claimId == c && level > AssuranceLevel(ReplayAssurance(replay.semantic))
      && !ReplaySkipped(dir, replay) && AllPass(replay.items, replay.semantic) && c !in desk.protected
    case BatchReplayed(entry, loaded, skipAccepted, desk) =>
      level > AssuranceLevel(ReplayAssurance(entry.semantic)) && BatchWrites(loaded, entry, skipAccepted, desk, c)
    case GroupChecked(answers, desk) =>
      level > 0 && c !in desk.protected && exists i :: 0 <= i < |answers| && answers[i].claimId == c
    case ShadowCompiled(_, force) => level > 0 && force && c in w.claims
    case Invalidated(ids, resisting) => c in ids && c !in resisting
    case Edited(_, _) => false
  }

  lemma CheckedLowersIff(w: World, dir: AttestDir, step: Step, c: string)
    requires c in dir && step.Checked?
    ensures Lowers(w, dir, step, c) <==> CanLower(w, dir, step, c)
  {
    hide RunSpec, AssuranceLevel;
    var r := RunSpec(w, dir, step.q, step.noCache, step.env).0;
    RunTouchesOne(w, dir, step.q, step.noCache, step.env);
    BlankRanksLowest();
    if r.Done? && !r.cacheHit {
      FreshlyBuilt(w, dir, step.q, step.noCache, step.env);
    } else if r.Done? {
      HitKeepsAssurance(w, dir, step.q, step.noCache, step.env);
    }
  }

  lemma BlankRanksLowest()
    ensures AssuranceLevel("") == 0 && AssuranceLevel("shadow-review") == 0
  {
  }

  lemma HitKeepsAssurance(w: World, dir: AttestDir, q: Query, noCache: bool, env: Env)
    requires var r := RunSpec(w, dir, q, noCache, env).0; r.Done? && r.cacheHit
    ensures q.claimId in dir && RunSpec(w, dir, q, noCache, env).0.att.assurance == dir[q.claimId].assurance
  {
    hide Fresh, PlainKey, Built;
  }

  lemma {:induction false} GroupAssurance(dir: AttestDir, answers: seq<GroupAnswer>, desk: Desk, c: string)
    requires c in dir
    ensures c in GroupSpec(dir, answers, desk)
    ensures GroupSpec(dir, answers, desk)[c].assurance
            == if c !in desk.protected && exists i :: 0 <= i < |answers| && answers[i].claimId == c then ""
               else dir[c].assurance
  {
    if answers != [] {
      var init, last := answers[..|answers| - 1], answers[|answers| - 1];
      assert answers == init + [last];
      GroupAssurance(dir, init, desk, c);
      assert last.claimId == c ==> answers[|answers| - 1].claimId == c;
    }
  }

  lemma AttestLowersIff(w: World, dir: AttestDir, req: AttestRequest, batch: bool, desk: Desk, c: string)
    requires c in dir
    ensures Lowers(w, dir, AttestedBy(req, batch, desk), c) <==> CanLower(w, dir, AttestedBy(req, batch, desk), c)
  {
    hide AssuranceLevel, LacksReviewer, ContractResults, NotedMetadata, AttestRecord;
    AttestRecordAssurance(w, req, desk);
    AttestRecordAssurance(w, Defaulted(req), desk);
  }

  lemma AttestRecordAssurance(w: World, req: AttestRequest, desk: Desk)
    ensures AttestRecord(w, req, desk).assurance == req.assurance
  {
  }

  lemma OtherLowersIff(w: World, dir: AttestDir, step: Step, c: string)
    requires c in dir && !step.Checked? && !step.AttestedBy? && !step.GroupChecked?
    ensures Lowers(w, dir, step, c) <==> CanLower(w, dir, step, c)
  {
    hide AssuranceLevel, AllPass, ReplaySkipped, BatchSkips;
    BlankRanksLowest();
  }

  /** Exactly which steps lower the assurance of a claim. */
  lemma AssuranceDropsIff(w: World, dir: AttestDir, step: Step, c: string)
    requires c in dir
    ensures Lowers(w, dir, step, c) <==> CanLower(w, dir, step, c)
  {
    hide Lowers, CanLower;
    match step
    case Checked(_, _, _) => CheckedLowersIff(w, dir, step, c);
    case AttestedBy(req, batch, desk) => AttestLowersIff(w, dir, req, batch, desk, c);
    case GroupChecked(answers, desk) => GroupLowersIff(w, dir, answers, desk, c);
    case _ => OtherLowersIff(w, dir, step, c);
  }

  lemma GroupLowersIff(w: World, dir: AttestDir, answers: seq<GroupAnswer>, desk: Desk, c: string)
    requires c in dir
    ensures Lowers(w, dir, GroupChecked(answers, desk), c) <==> CanLower(w, dir, GroupChecked(answers, desk), c)
  {
    hide GroupSpec, AssuranceLevel;
    BlankRanksLowest();
    GroupAssurance(dir, answers, desk, c);
  }

  /** In particular a replay replaces an attestation of the highest level without being forced. */
  lemma ReplayLowersFormalKernel(w: World, dir: AttestDir, replay: ReplayRequest, desk: Desk)
    requires replay.claimId in dir && dir[replay.claimId].assurance == "formal-kernel"
    requires !replay.skipAccepted && AllPass(replay.items, replay.semantic) && replay.claimId !in desk.protected
    ensures Lowers(w, dir, ReplayedBy(replay, desk), replay.claimId)
  {
    hide AllPass;
    AssuranceDropsIff(w, dir, ReplayedBy(replay, desk), replay.claimId);
  }
}
