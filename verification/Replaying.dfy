/**
 `proofctl replay`, alone and in batches, and the batch groups of `proofctl verify --project`:
 three more commands that write attestations without a cache key.
 */
module Replaying {
  import opened Ir
  import opened StatusProjection
  import opened Pipeline
  import opened Attesting

  // ------------------------------------------------------------ one piece of evidence

  datatype ReplayOutput = ReplayOutput(results: seq<ObligationResult>, metadata: map<string, string>)

  /** What replaying one piece of evidence came to: the digest of what its generator made, if it made
      anything, the exit code of the checker, and its output, if that was there and could be parsed. */
  datatype Replayed =
    Replayed(expected: string, generated: Option<string>, checkerExit: int, output: Option<ReplayOutput>)

  predicate CheckerPassed(item: Replayed) {
    item.generated.Some? && item.checkerExit == 0
  }

  predicate ItemPasses(item: Replayed, semantic: bool) {
    CheckerPassed(item) && (item.generated.value == item.expected || semantic)
  }

  ghost predicate AllPass(items: seq<Replayed>, semantic: bool) {
    forall i {:trigger items[i]} :: 0 <= i < |items| ==> ItemPasses(items[i], semantic)
  }

  /** The verdicts of one piece of evidence: those its checker reported, if it passed. */
  function Reported(item: Replayed): seq<ObligationResult> {
    if CheckerPassed(item) && item.output.Some? then item.output.value.results else []
  }

  /** All of them, one piece of evidence after the other. */
  ghost function Collected(items: seq<Replayed>): seq<ObligationResult> {
    if items == [] then [] else Collected(items[..|items| - 1]) + Reported(items[|items| - 1])
  }

  /** Their metadata, the last report winning. */
  ghost function CollectedMetadata(items: seq<Replayed>): map<string, string> {
    if items == [] then map[]
    else
      var last := items[|items| - 1];
      CollectedMetadata(items[..|items| - 1])
      + if CheckerPassed(last) && last.output.Some? then last.output.value.metadata else map[]
  }

  function ReplayAssurance(semantic: bool): string {
    if semantic then "reproducible-computation" else "exact-replay"
  }

  method Evaluate(items: seq<Replayed>, semantic: bool) returns (allPass: bool)
    ensures allPass <==> AllPass(items, semantic)
  {
    allPass := true;
    for i := 0 to |items|
      invariant allPass <==> AllPass(items[..i], semantic)
    {
      assert items[..i + 1] == items[..i] + [items[i]];
      assert allPass && ItemPasses(items[i], semantic) <==> AllPass(items[..i + 1], semantic) by {
        if AllPass(items[..i + 1], semantic) {
          assert items[..i + 1][i] == items[i];
          assert forall k :: 0 <= k < i ==> items[..i][k] == items[..i + 1][k];
        }
      }
      var item := items[i];
      if item.generated.None? {
        allPass := false;
        continue;
      }
      var digestMatch := item.generated.value == item.expected || semantic;
      if !digestMatch || item.checkerExit != 0 { allPass := false; }
    }
    assert items[..|items|] == items;
  }

  method Collect(items: seq<Replayed>) returns (results: seq<ObligationResult>, metadata: map<string, string>)
    ensures results == Collected(items) && metadata == CollectedMetadata(items)
  {
    results, metadata := [], map[];
    for i := 0 to |items|
      invariant results == Collected(items[..i]) && metadata == CollectedMetadata(items[..i])
    {
      assert items[..i + 1][..i] == items[..i];
      var item := items[i];
      if item.generated.Some? && item.checkerExit == 0 && item.output.Some? {
        results := results + item.output.value.results;
        metadata := metadata + item.output.value.metadata;
      }
    }
    assert items[..|items|] == items;
  }

  /** A replay passes if for every piece of evidence the generator produced something, of the expected digest
      unless digests are not compared, and the checker exited with 0. */
  lemma AllPassIff(items: seq<Replayed>, semantic: bool)
    ensures AllPass(items, semantic) <==>
            forall i :: 0 <= i < |items| ==>
              && items[i].generated.Some? && items[i].checkerExit == 0
              && (semantic || items[i].generated.value == items[i].expected)
  {
    forall i | 0 <= i < |items|
      ensures ItemPasses(items[i], semantic) <==>
              && items[i].generated.Some? && items[i].checkerExit == 0
              && (semantic || items[i].generated.value == items[i].expected)
    {
    }
  }

  // ------------------------------------------------------------ replay

  /** `summary` stands for the metadata the command derives from its own arguments. */
  datatype ReplayRequest = ReplayRequest(
    claimId: string,
    items: seq<Replayed>,
    semantic: bool,
    skipAccepted: bool,
    summary: map<string, string>)

  predicate AcceptedFresh(dir: AttestDir, c: string) {
    c in dir && dir[c].outcome == Accepted && dir[c].startFreshness != "" && dir[c].endFreshness != ""
  }

  ghost function ReplayRecord(w: World, req: ReplayRequest, desk: Desk): Attestation {
    var a := BLANK.(claimId := req.claimId, checker := CheckerOf(w, desk.checkers, req.claimId), outcome := Accepted,
      assurance := ReplayAssurance(req.semantic), replayMode := "from_scratch", startFreshness := desk.today,
      endFreshness := desk.today, obligationResults := Collected(req.items),
      metadata := req.summary + CollectedMetadata(req.items));
    a.(selfDigest := w.digest(a))
  }

  /** A replay writes when every piece of evidence passes, unless it is skipped or cannot write. */
  predicate ReplaySkipped(dir: AttestDir, req: ReplayRequest) {
    req.skipAccepted && AcceptedFresh(dir, req.claimId)
  }

  ghost function ReplaySpec(w: World, dir: AttestDir, req: ReplayRequest, desk: Desk): AttestDir {
    if ReplaySkipped(dir, req) || !AllPass(req.items, req.semantic) || req.claimId in desk.protected then dir
    else dir[req.claimId := ReplayRecord(w, req, desk)]
  }

  method Replay(store: Store, req: ReplayRequest, desk: Desk) returns (written: bool)
    modifies store`attestDir
    ensures store.attestDir == ReplaySpec(store.w, old(store.attestDir), req, desk)
    ensures written <==> !ReplaySkipped(old(store.attestDir), req) && AllPass(req.items, req.semantic)
                         && req.claimId !in desk.protected
  {
    var w := store.w;
    var checker := CheckerOf(w, desk.checkers, req.claimId);
    if req.skipAccepted && req.claimId in store.attestDir {
      var att := store.attestDir[req.claimId];
      if att.outcome == Accepted && att.startFreshness != "" && att.endFreshness != "" { return false; }
    }
    var allPass := Evaluate(req.items, req.semantic);
    var results, metadata := Collect(req.items);
    if !allPass { return false; }
    var att := BLANK.(claimId := req.claimId, checker := checker, outcome := Accepted,
      assurance := ReplayAssurance(req.semantic), replayMode := "from_scratch", startFreshness := desk.today,
      endFreshness := desk.today, obligationResults := results, metadata := req.summary + metadata);
    att := att.(selfDigest := w.digest(att));
    if req.claimId in desk.protected { return false; }
    store.attestDir := store.attestDir[req.claimId := att];
    return true;
  }

  /** A replay always states "accepted"; that is what its verdicts stand for exactly when the claim's
      checker is not a protocol 2 one, or some passing checker reported verdicts and none of those
      reported is a failure. */
  lemma ReplaySpeaksTrueIff(w: World, req: ReplayRequest, desk: Desk)
    ensures var att := ReplayRecord(w, req, desk);
            && att.claimId == req.claimId && att.cacheKey == NoKey && att.outcome == Accepted
            && (SpeaksTrue(att) <==>
                || CheckerOf(w, desk.checkers, req.claimId).protocolVersion != 2
                || (&& (exists i :: 0 <= i < |req.items| && Reported(req.items[i]) != [])
                    && forall i :: 0 <= i < |req.items| && Reported(req.items[i]) != [] ==>
                         AllPassing(Reported(req.items[i]))))
  {
    hide AllPassing;
    CollectedPass(req.items);
  }

  /** When a replay writes and what: an acceptance that claims recomputation, with the verdicts collected. */
  lemma ReplayWrites(w: World, dir: AttestDir, req: ReplayRequest, desk: Desk)
    ensures var accepted := && req.claimId in dir && dir[req.claimId].outcome == Accepted
                            && dir[req.claimId].startFreshness != "" && dir[req.claimId].endFreshness != "";
            ReplaySpec(w, dir, req, desk) ==
            if !(req.skipAccepted && accepted) && AllPass(req.items, req.semantic) && req.claimId !in desk.protected
            then dir[req.claimId := ReplayRecord(w, req, desk)] else dir
    ensures var att := ReplayRecord(w, req, desk);
            && att.claimId == req.claimId && att.outcome == Accepted && att.replayMode == "from_scratch"
            && att.assurance == (if req.semantic then "reproducible-computation" else "exact-replay")
            && att.startFreshness == desk.today && att.endFreshness == desk.today
            && att.obligationResults == Collected(req.items) && att.signature.None? && att.cacheKey == NoKey
            && att.selfDigest == w.digest(att.(selfDigest := ""))
            && (req.claimId in w.claims && w.claims[req.claimId].checkerPolicy in desk.checkers ==>
                  att.checker == desk.checkers[w.claims[req.claimId].checkerPolicy])
            && (!(req.claimId in w.claims && w.claims[req.claimId].checkerPolicy in desk.checkers) ==>
                  att.checker.protocolVersion == 0)
  {
    hide AllPass;
  }

  lemma {:induction false} CollectedPass(items: seq<Replayed>)
    ensures Collected(items) != [] <==> exists i :: 0 <= i < |items| && Reported(items[i]) != []
    ensures AllPassing(Collected(items)) <==>
            && Collected(items) != []
            && forall i :: 0 <= i < |items| && Reported(items[i]) != [] ==> AllPassing(Reported(items[i]))
  {
    hide AllPassing, Reported;
    if items == [] {
      JoinedPass([], []);
    } else {
      var init, last := items[..|items| - 1], items[|items| - 1];
      CollectedPass(init);
      JoinedPass(Collected(init), Reported(last));
      assert items == init + [last];
      assert forall i :: 0 <= i < |init| ==> init[i] == items[i];
    }
  }

  lemma JoinedPass(a: seq<ObligationResult>, b: seq<ObligationResult>)
    ensures AllPassing(a + b) <==> a + b != [] && (a != [] ==> AllPassing(a)) && (b != [] ==> AllPassing(b))
  {
    assert forall i :: 0 <= i < |a| ==> (a + b)[i] == a[i];
    assert forall i :: 0 <= i < |b| ==> (a + b)[|a| + i] == b[i];
  }

  // ------------------------------------------------------------ replay --batch

  datatype BatchEntry =
    BatchEntry(claims: seq<string>, items: seq<Replayed>, semantic: bool, summary: map<string, string>)

  /** In a batch only the start of the freshness window is looked at, in the attestations as they
      were when the command began. */
  predicate BatchSkips(skipAccepted: bool, loaded: AttestDir, c: string) {
    skipAccepted && c in loaded && loaded[c].outcome == Accepted && loaded[c].startFreshness != ""
  }

  /** No verdicts are recorded: the output of the checker is read for its exit code only. */
  ghost function BatchRecord(w: World, entry: BatchEntry, desk: Desk, c: string): Attestation {
    var a := BLANK.(claimId := c, checker := CheckerOf(w, desk.checkers, c), outcome := Accepted,
      assurance := ReplayAssurance(entry.semantic), replayMode := "from_scratch", startFreshness := desk.today,
      endFreshness := desk.today, metadata := entry.summary);
    a.(selfDigest := w.digest(a))
  }

  /** The claims an entry writes an attestation for. */
  ghost predicate BatchWrites(loaded: AttestDir, entry: BatchEntry, skipAccepted: bool, desk: Desk, c: string) {
    && AllPass(entry.items, entry.semantic)
    && c in entry.claims && !BatchSkips(skipAccepted, loaded, c) && c !in desk.protected
  }

  ghost function BatchRecords(w: World, entry: BatchEntry, desk: Desk, cs: set<string>): (records: AttestDir)
    ensures records.Keys == cs
    ensures forall c :: c in cs ==> records[c] == BatchRecord(w, entry, desk, c)
  {
    map c | c in cs :: BatchRecord(w, entry, desk, c)
  }

  ghost function BatchSpec(w: World, dir: AttestDir, loaded: AttestDir, entry: BatchEntry, skipAccepted: bool,
                           desk: Desk): AttestDir
  {
    dir + BatchRecords(w, entry, desk, set c | c in entry.claims && BatchWrites(loaded, entry, skipAccepted, desk, c))
  }

  method PendingClaims(claims: seq<string>, skipAccepted: bool, loaded: AttestDir) returns (pending: seq<string>)
    ensures forall c :: c in pending <==> c in claims && !BatchSkips(skipAccepted, loaded, c)
  {
    pending := [];
    for i := 0 to |claims|
      invariant forall c :: c in pending <==> c in claims[..i] && !BatchSkips(skipAccepted, loaded, c)
    {
      assert claims[..i + 1] == claims[..i] + [claims[i]];
      if skipAccepted && claims[i] in loaded {
        var att := loaded[claims[i]];
        if att.outcome == Accepted && att.startFreshness != "" { continue; }
      }
      pending := pending + [claims[i]];
    }
    assert claims[..|claims|] == claims;
  }

  ghost function WriteAll(w: World, dir: AttestDir, cs: seq<string>, entry: BatchEntry, desk: Desk): AttestDir {
    if cs == [] then dir
    else
      var before, c := WriteAll(w, dir, cs[..|cs| - 1], entry, desk), cs[|cs| - 1];
      if c in desk.protected then before else before[c := BatchRecord(w, entry, desk, c)]
  }

  lemma {:induction false} WriteAllIs(w: World, dir: AttestDir, cs: seq<string>, entry: BatchEntry, desk: Desk)
    ensures WriteAll(w, dir, cs, entry, desk) == dir + BatchRecords(w, entry, desk, (set c | c in cs) - desk.protected)
  {
    hide BatchRecord, BatchRecords;
    if cs == [] {
      assert dir + BatchRecords(w, entry, desk, {}) == dir;
    } else {
      var init, c := cs[..|cs| - 1], cs[|cs| - 1];
      assert cs == init + [c];
      WriteAllIs(w, dir, init, entry, desk);
      var before := (set x | x in init) - desk.protected;
      assert (set x | x in cs) - desk.protected == if c in desk.protected then before else before + {c};
      OneMoreRecord(w, dir, entry, desk, before, c);
    }
  }

  lemma OneMoreRecord(w: World, dir: AttestDir, entry: BatchEntry, desk: Desk, cs: set<string>, c: string)
    ensures dir + BatchRecords(w, entry, desk, cs + {c})
            == (dir + BatchRecords(w, entry, desk, cs))[c := BatchRecord(w, entry, desk, c)]
  {
    hide BatchRecord, BatchRecords;
  }

  method WriteEntry(store: Store, pending: seq<string>, entry: BatchEntry, desk: Desk)
    modifies store`attestDir
    ensures store.attestDir == WriteAll(store.w, old(store.attestDir), pending, entry, desk)
  {
    var w := store.w;
    for i := 0 to |pending|
      invariant store.attestDir == WriteAll(w, old(store.attestDir), pending[..i], entry, desk)
    {
      assert pending[..i + 1][..i] == pending[..i];
      var c := pending[i];
      var att := BLANK.(claimId := c, checker := CheckerOf(w, desk.checkers, c), outcome := Accepted,
        assurance := ReplayAssurance(entry.semantic), replayMode := "from_scratch", startFreshness := desk.today,
        endFreshness := desk.today, metadata := entry.summary);
      att := att.(selfDigest := w.digest(att));
      if c in desk.protected { continue; }
      store.attestDir := store.attestDir[c := att];
    }
    assert pending[..|pending|] == pending;
  }

  /** One entry of a batch: generators and checkers run once for all its claims. */
  method ReplayEntry(store: Store, loaded: AttestDir, entry: BatchEntry, skipAccepted: bool, desk: Desk)
    modifies store`attestDir
    ensures store.attestDir == BatchSpec(store.w, old(store.attestDir), loaded, entry, skipAccepted, desk)
  {
    hide AllPass, BatchSkips, BatchRecord, BatchRecords, WriteAll;
    var pending := PendingClaims(entry.claims, skipAccepted, loaded);
    ghost var toWrite := set c | c in entry.claims && BatchWrites(loaded, entry, skipAccepted, desk, c);
    if |pending| == 0 {
      assert toWrite == {};
      return;
    }
    var allPass := Evaluate(entry.items, entry.semantic);
    if !allPass { return; }
    WriteAllIs(store.w, store.attestDir, pending, entry, desk);
    assert toWrite == (set c | c in pending) - desk.protected;
    WriteEntry(store, pending, entry, desk);
  }

  /** The directory after the first entries of a batch. */
  ghost function ReplayAll(w: World, dir: AttestDir, loaded: AttestDir, entries: seq<BatchEntry>, skipAccepted: bool,
                           desk: Desk): AttestDir
  {
    if entries == [] then dir
    else
      var before := ReplayAll(w, dir, loaded, entries[..|entries| - 1], skipAccepted, desk);
      BatchSpec(w, before, loaded, entries[|entries| - 1], skipAccepted, desk)
  }

  /** `replay --batch`: entry after entry, all looking at the attestations as they were at the start. */
  method ReplayBatch(store: Store, entries: seq<BatchEntry>, skipAccepted: bool, desk: Desk)
    modifies store`attestDir
    ensures store.attestDir
            == ReplayAll(store.w, old(store.attestDir), old(store.attestDir), entries, skipAccepted, desk)
  {
    hide BatchSpec;
    var loaded := store.attestDir;
    for i := 0 to |entries|
      invariant store.attestDir == ReplayAll(store.w, loaded, loaded, entries[..i], skipAccepted, desk)
    {
      assert entries[..i + 1][..i] == entries[..i];
      ReplayEntry(store, loaded, entries[i], skipAccepted, desk);
    }
    assert entries[..|entries|] == entries;
  }

  /** For which claims an entry of a batch writes, and what. */
  lemma BatchWritesIff(w: World, dir: AttestDir, loaded: AttestDir, entry: BatchEntry, skipAccepted: bool, desk: Desk,
                       c: string)
    ensures var dir' := BatchSpec(w, dir, loaded, entry, skipAccepted, desk);
            if && AllPass(entry.items, entry.semantic) && c in entry.claims && c !in desk.protected
               && !(skipAccepted && c in loaded && loaded[c].outcome == Accepted && loaded[c].startFreshness != "")
            then c in dir' && dir'[c] == BatchRecord(w, entry, desk, c)
            else (c in dir' <==> c in dir) && (c in dir ==> dir'[c] == dir[c])
    ensures var att := BatchRecord(w, entry, desk, c);
            && att.claimId == c && att.outcome == Accepted && att.replayMode == "from_scratch"
            && att.assurance == (if entry.semantic then "reproducible-computation" else "exact-replay")
            && att.startFreshness == desk.today && att.endFreshness == desk.today
            && att.metadata == entry.summary && att.signature.None?
            && att.selfDigest == w.digest(att.(selfDigest := ""))
  {
    hide AllPass;
  }

  /** A batch attestation states "accepted" over no verdicts, so it speaks true exactly for claims
      whose checker is not a protocol 2 one. */
  lemma BatchSpeaksTrueIff(w: World, entry: BatchEntry, desk: Desk, c: string)
    ensures var att := BatchRecord(w, entry, desk, c);
            && att.claimId == c && att.cacheKey == NoKey && att.outcome == Accepted && att.obligationResults == []
            && (SpeaksTrue(att) <==> CheckerOf(w, desk.checkers, c).protocolVersion != 2)
  {
  }

  // ------------------------------------------------------------ batch groups of verify --project

  /** The checker's answer for one claim of a group. */
  datatype GroupAnswer = GroupAnswer(claimId: string, results: seq<ObligationResult>, toolchain: map<string, string>)

  /** The verdicts decide the outcome but are not recorded, nor is the checker that gave them. */
  ghost function GroupRecord(answer: GroupAnswer): Attestation {
    BLANK.(claimId := answer.claimId, outcome := if AllPassing(answer.results) then Accepted else Rejected,
      toolchain := answer.toolchain)
  }

  ghost function GroupSpec(dir: AttestDir, answers: seq<GroupAnswer>, desk: Desk): AttestDir {
    if answers == [] then dir
    else
      var before, last := GroupSpec(dir, answers[..|answers| - 1], desk), answers[|answers| - 1];
      if last.claimId in desk.protected then before else before[last.claimId := GroupRecord(last)]
  }

  method RecordGroup(store: Store, answers: seq<GroupAnswer>, desk: Desk)
    modifies store`attestDir
    ensures store.attestDir == GroupSpec(old(store.attestDir), answers, desk)
  {
    for i := 0 to |answers|
      invariant store.attestDir == GroupSpec(old(store.attestDir), answers[..i], desk)
    {
      assert answers[..i + 1][..i] == answers[..i];
      var answer := answers[i];
      var allPass := |answer.results| > 0;
      for k := 0 to |answer.results|
        invariant allPass <==> |answer.results| > 0 && forall j :: 0 <= j < k ==> answer.results[j].verdict == PASS
      {
        if answer.results[k].verdict != PASS {
          allPass := false;
          break;
        }
      }
      var att := BLANK.(claimId := answer.claimId, outcome := if allPass then Accepted else Rejected,
        toolchain := answer.toolchain);
      if answer.claimId in desk.protected { continue; }
      store.attestDir := store.attestDir[answer.claimId := att];
    }
    assert answers[..|answers|] == answers;
  }

  /** What a group leaves on file, claim by claim: what was there, or the record of some answer, which
      speaks true but counts as an attestation of an earlier protocol. */
  lemma {:induction false} GroupWrites(dir: AttestDir, answers: seq<GroupAnswer>, desk: Desk, c: string)
    requires c in GroupSpec(dir, answers, desk)
    ensures var att := GroupSpec(dir, answers, desk)[c];
            || (c in dir && att == dir[c])
            || (att.claimId == c && att.cacheKey == NoKey && SpeaksTrue(att) && !IsV2(att))
    ensures (exists i :: 0 <= i < |answers| && answers[i].claimId == c) && c !in desk.protected ==>
              !IsV2(GroupSpec(dir, answers, desk)[c])
  {
    hide AllPassing;
    if answers != [] {
      var init, last := answers[..|answers| - 1], answers[|answers| - 1];
      assert answers == init + [last];
      if c in GroupSpec(dir, init, desk) { GroupWrites(dir, init, desk, c); }
    }
  }

  /** What is on file for a claim after a group check: the outcome of the last answer about it, accepted if
      that answer has verdicts and all of them pass. */
  lemma {:induction false} GroupOutcome(dir: AttestDir, answers: seq<GroupAnswer>, desk: Desk, i: nat)
    requires i < |answers| && answers[i].claimId !in desk.protected
    requires forall j :: i < j < |answers| ==> answers[j].claimId != answers[i].claimId
    ensures answers[i].claimId in GroupSpec(dir, answers, desk)
    ensures var att, results := GroupSpec(dir, answers, desk)[answers[i].claimId], answers[i].results;
            && att.outcome == (if |results| > 0 && (forall k :: 0 <= k < |results| ==> results[k].verdict == "pass")
                               then Accepted else Rejected)
            && att.obligationResults == [] && att.toolchain == answers[i].toolchain
            && att.checker.protocolVersion == 0 && att.startFreshness == "" && att.selfDigest == ""
  {
    if i < |answers| - 1 {
      var init := answers[..|answers| - 1];
      assert forall j :: 0 <= j < |init| ==> init[j] == answers[j];
      GroupOutcome(dir, init, desk, i);
    }
  }

  /** One more piece adds its verdicts if its checker passed with readable output. */
  lemma CollectedSnoc(items: seq<Replayed>, item: Replayed)
    ensures Collected(items + [item]) == Collected(items) +
            if item.generated.Some? && item.checkerExit == 0 && item.output.Some? then item.output.value.results else []
  {
    assert (items + [item])[..|items|] == items;
  }

  /** Verdicts are collected in the order of the evidence. */
  lemma {:induction false} CollectedInOrder(a: seq<Replayed>, b: seq<Replayed>)
    ensures Collected(a + b) == Collected(a) + Collected(b)
  {
    if b == [] {
      assert a + b == a;
    } else {
      var init, last := b[..|b| - 1], b[|b| - 1];
      var one :=
        if last.generated.Some? && last.checkerExit == 0 && last.output.Some? then last.output.value.results else [];
      hide Collected;
      calc {
        Collected(a + b);
        { assert a + b == (a + init) + [last]; }
        Collected((a + init) + [last]);
        { CollectedSnoc(a + init, last); }
        Collected(a + init) + one;
        { CollectedInOrder(a, init); }
        Collected(a) + Collected(init) + one;
        Collected(a) + (Collected(init) + one);
        { CollectedSnoc(init, last); assert init + [last] == b; }
        Collected(a) + Collected(b);
      }
    }
  }

  /** Of metadata reported for one key the last counts. */
  lemma {:induction false} LastMetadataCounts(items: seq<Replayed>, i: nat, k: string)
    requires i < |items| && CheckerPassed(items[i]) && items[i].output.Some? && k in items[i].output.value.metadata
    requires forall j :: i < j < |items| && CheckerPassed(items[j]) && items[j].output.Some? ==>
               k !in items[j].output.value.metadata
    ensures k in CollectedMetadata(items) && CollectedMetadata(items)[k] == items[i].output.value.metadata[k]
  {
    if i < |items| - 1 {
      var init := items[..|items| - 1];
      assert forall j :: 0 <= j < |init| ==> init[j] == items[j];
      LastMetadataCounts(init, i, k);
    }
  }
}
