/**
 `proofctl attest`: attestations written by hand, one at a time or from a manifest.
 They carry no cache key, and verdicts only for what the contract asks.
 */
module Attesting {
  import opened Ir
  import opened StatusProjection
  import opened Pipeline

  const SYNTHETIC := ObligationResult("independent-review.accepted", PASS, "")

  const INDEPENDENT_REVIEW := "independent-review"

  /** What a writing command meets outside the project; `checkers` are those the graph file declares,
      `protected` the claims whose attestation file cannot be written. */
  datatype Desk = Desk(checkers: map<string, CheckerIdentity>, signs: bool, protected: set<string>, today: string)

  /** The outcome and the status it stands for are the same. */
  ghost predicate SpeaksTrue(att: Attestation) {
    StatusFor(att) == att.outcome
  }

  /** The checker a claim's policy names, if claim and checker are declared. */
  function CheckerOf(w: World, checkers: map<string, CheckerIdentity>, claimId: string): CheckerIdentity {
    if claimId in w.claims && w.claims[claimId].checkerPolicy in checkers then checkers[w.claims[claimId].checkerPolicy]
    else NO_CHECKER
  }

  // ------------------------------------------------------------ attest

  datatype AttestRequest = AttestRequest(
    claimId: string,
    assurance: string,
    outcome: Status,
    evidence: seq<string>,
    metadata: map<string, string>,
    note: string,
    force: bool)

  datatype Refusal = NoClaimGiven | NoSuchClaim | BadOutcome | NoAssurance | NeedsKey | NeedsReviewer
                   | NotSignable | Downgrade | Unwritable

  datatype AttestOutcome = Written(att: Attestation) | Refused(why: Refusal)

  function NotedMetadata(req: AttestRequest): map<string, string> {
    if req.note != "" then req.metadata["note" := req.note] else req.metadata
  }

  predicate LacksReviewer(metadata: map<string, string>) {
    "reviewer" !in metadata || metadata["reviewer"] == ""
  }

  /** The refusals of a single `attest`, in the order they are looked for. */
  function Screened(w: World, req: AttestRequest): Option<Refusal> {
    if req.claimId == "" then Some(NoClaimGiven)
    else if req.outcome != Accepted && req.outcome != Rejected then Some(BadOutcome)
    else if req.assurance == INDEPENDENT_REVIEW && w.signer.None? then Some(NeedsKey)
    else if req.assurance == INDEPENDENT_REVIEW && LacksReviewer(NotedMetadata(req)) then Some(NeedsReviewer)
    else if req.claimId !in w.claims then Some(NoSuchClaim)
    else None
  }

  /** An entry of `attest --batch` without an outcome means acceptance. */
  function Defaulted(entry: AttestRequest): AttestRequest {
    if entry.outcome == OtherStatus("") then entry.(outcome := Accepted) else entry
  }

  /** The refusals of one entry of `attest --batch`, in the order they are looked for. */
  function ScreenedEntry(w: World, entry: AttestRequest): Option<Refusal> {
    var req := Defaulted(entry);
    if req.claimId == "" then Some(NoClaimGiven)
    else if req.claimId !in w.claims then Some(NoSuchClaim)
    else if req.outcome != Accepted && req.outcome != Rejected then Some(BadOutcome)
    else if req.assurance == "" then Some(NoAssurance)
    else if req.assurance == INDEPENDENT_REVIEW && w.signer.None? then Some(NeedsKey)
    else if req.assurance == INDEPENDENT_REVIEW && LacksReviewer(req.metadata) then Some(NeedsReviewer)
    else None
  }

  /** A passing verdict for every obligation of the contract, or one made-up verdict without a contract. */
  ghost function ContractResults(w: World, claimId: string): seq<ObligationResult> {
    match ObligationIds(w.contracts, claimId)
    case Some(ids) => seq(|ids|, i requires 0 <= i < |ids| => ObligationResult(ids[i], PASS, ""))
    case None => [SYNTHETIC]
  }

  ghost function Descriptors(digests: seq<string>): seq<EvidenceDescriptor> {
    seq(|digests|, i requires 0 <= i < |digests| => EvidenceDescriptor("", digests[i], 0, ""))
  }

  ghost function AttestRecord(w: World, req: AttestRequest, desk: Desk): Attestation {
    var checker := CheckerOf(w, desk.checkers, req.claimId);
    var results :=
      if req.outcome == Accepted && checker.protocolVersion == 2 then ContractResults(w, req.claimId) else [];
    var a := BLANK.(claimId := req.claimId, outcome := req.outcome, assurance := req.assurance,
      evidence := Descriptors(req.evidence), startFreshness := desk.today, endFreshness := desk.today,
      metadata := NotedMetadata(req), checker := checker, obligationResults := results);
    var b := a.(selfDigest := w.digest(a));
    if w.signer.Some? then b.(signature := Some(w.signer.value(b))) else b
  }

  predicate Downgrades(dir: AttestDir, req: AttestRequest) {
    && req.claimId in dir && !req.force
    && AssuranceLevel(dir[req.claimId].assurance) > AssuranceLevel(req.assurance)
  }

  /** Building and writing, once a request is screened. */
  ghost function WriteSpec(w: World, dir: AttestDir, req: AttestRequest, desk: Desk): (AttestOutcome, AttestDir) {
    if w.signer.Some? && !desk.signs then (Refused(NotSignable), dir)
    else if Downgrades(dir, req) then (Refused(Downgrade), dir)
    else if req.claimId in desk.protected then (Refused(Unwritable), dir)
    else (Written(AttestRecord(w, req, desk)), dir[req.claimId := AttestRecord(w, req, desk)])
  }

  ghost function AttestSpec(w: World, dir: AttestDir, req: AttestRequest, desk: Desk): (AttestOutcome, AttestDir) {
    match Screened(w, req)
    case Some(why) => (Refused(why), dir)
    case None => WriteSpec(w, dir, req, desk)
  }

  ghost function AttestEntrySpec(w: World, dir: AttestDir, entry: AttestRequest, desk: Desk)
    : (AttestOutcome, AttestDir)
  {
    match ScreenedEntry(w, entry)
    case Some(why) => (Refused(why), dir)
    case None => WriteSpec(w, dir, Defaulted(entry), desk)
  }

  /** The results of a batch, and the directory after it. */
  ghost function AttestAll(w: World, dir: AttestDir, entries: seq<AttestRequest>, desk: Desk)
    : (seq<AttestOutcome>, AttestDir)
  {
    if entries == [] then ([], dir)
    else
      var (rs, before) := AttestAll(w, dir, entries[..|entries| - 1], desk);
      var (r, after) := AttestEntrySpec(w, before, entries[|entries| - 1], desk);
      (rs + [r], after)
  }

  method BuildObligationResults(store: Store, claimId: string) returns (results: seq<ObligationResult>)
    ensures results == ContractResults(store.w, claimId)
  {
    var obligations := ObligationIds(store.w.contracts, claimId);
    if obligations.None? { return [SYNTHETIC]; }
    var ids := obligations.value;
    results := [];
    for i := 0 to |ids|
      invariant |results| == i && forall k :: 0 <= k < i ==> results[k] == ObligationResult(ids[k], PASS, "")
    {
      results := results + [ObligationResult(ids[i], PASS, "")];
    }
  }

  method BuildAndWrite(store: Store, req: AttestRequest, desk: Desk) returns (r: AttestOutcome)
    modifies store`attestDir
    ensures (r, store.attestDir) == WriteSpec(store.w, old(store.attestDir), req, desk)
  {
    var w := store.w;
    var evidence := [];
    for i := 0 to |req.evidence|
      invariant evidence == Descriptors(req.evidence[..i])
    {
      evidence := evidence + [EvidenceDescriptor("", req.evidence[i], 0, "")];
    }
    assert req.evidence[..|req.evidence|] == req.evidence;
    var checker := CheckerOf(w, desk.checkers, req.claimId);
    var results := [];
    if req.outcome == Accepted && checker.protocolVersion == 2 {
      results := BuildObligationResults(store, req.claimId);
    }
    var att := BLANK.(claimId := req.claimId, outcome := req.outcome, assurance := req.assurance, evidence := evidence,
      startFreshness := desk.today, endFreshness := desk.today, metadata := NotedMetadata(req), checker := checker,
      obligationResults := results);
    att := att.(selfDigest := w.digest(att));
    if w.signer.Some? {
      if !desk.signs { return Refused(NotSignable); }
      att := att.(signature := Some(w.signer.value(att)));
    }
    if req.claimId in store.attestDir {
      var existingLevel := AssuranceLevel(store.attestDir[req.claimId].assurance);
      if existingLevel > AssuranceLevel(req.assurance) && !req.force { return Refused(Downgrade); }
    }
    if req.claimId in desk.protected { return Refused(Unwritable); }
    store.attestDir := store.attestDir[req.claimId := att];
    return Written(att);
  }

  method Attest(store: Store, req: AttestRequest, desk: Desk) returns (r: AttestOutcome)
    modifies store`attestDir
    ensures (r, store.attestDir) == AttestSpec(store.w, old(store.attestDir), req, desk)
  {
    if req.claimId == "" { return Refused(NoClaimGiven); }
    if req.outcome != Accepted && req.outcome != Rejected { return Refused(BadOutcome); }
    if req.assurance == INDEPENDENT_REVIEW && store.w.signer.None? { return Refused(NeedsKey); }
    if req.assurance == INDEPENDENT_REVIEW && LacksReviewer(NotedMetadata(req)) { return Refused(NeedsReviewer); }
    if req.claimId !in store.w.claims { return Refused(NoSuchClaim); }
    r := BuildAndWrite(store, req, desk);
  }

  method AttestEntry(store: Store, entry: AttestRequest, desk: Desk) returns (r: AttestOutcome)
    modifies store`attestDir
    ensures (r, store.attestDir) == AttestEntrySpec(store.w, old(store.attestDir), entry, desk)
  {
    if entry.claimId == "" { return Refused(NoClaimGiven); }
    if entry.claimId !in store.w.claims { return Refused(NoSuchClaim); }
    var req := Defaulted(entry);
    if req.outcome != Accepted && req.outcome != Rejected { return Refused(BadOutcome); }
    if req.assurance == "" { return Refused(NoAssurance); }
    if req.assurance == INDEPENDENT_REVIEW && store.w.signer.None? { return Refused(NeedsKey); }
    if req.assurance == INDEPENDENT_REVIEW && LacksReviewer(req.metadata) { return Refused(NeedsReviewer); }
    r := BuildAndWrite(store, req, desk);
  }

  /** `attest --batch`: a refused entry is reported and stepped over. */
  method AttestBatch(store: Store, entries: seq<AttestRequest>, desk: Desk) returns (results: seq<AttestOutcome>)
    modifies store`attestDir
    ensures (results, store.attestDir) == AttestAll(store.w, old(store.attestDir), entries, desk)
  {
    hide AttestEntrySpec;
    results := [];
    for i := 0 to |entries|
      invariant (results, store.attestDir) == AttestAll(store.w, old(store.attestDir), entries[..i], desk)
    {
      assert entries[..i + 1][..i] == entries[..i];
      var r := AttestEntry(store, entries[i], desk);
      results := results + [r];
    }
    assert entries[..|entries|] == entries;
  }

  lemma AttestRecordSpeaksTrue(w: World, req: AttestRequest, desk: Desk)
    requires req.outcome == Accepted || req.outcome == Rejected
    ensures var att := AttestRecord(w, req, desk);
            && att.claimId == req.claimId && att.checker == CheckerOf(w, desk.checkers, req.claimId)
            && att.cacheKey == NoKey && att.outcome == req.outcome && SpeaksTrue(att)
  {
    var att := AttestRecord(w, req, desk);
    if IsV2(att) && req.outcome == Accepted {
      assert att.obligationResults == ContractResults(w, req.claimId);
      assert AllPassing(ContractResults(w, req.claimId));
    }
  }

  /** Whatever `attest` writes carries no key, lies under its own claim, and states the status its
      verdicts stand for: with the contract's verdicts made up as passing when it accepts. */
  lemma AttestSpeaksTrue(w: World, dir: AttestDir, req: AttestRequest, desk: Desk, batch: bool)
    ensures var (r, dir') := if batch then AttestEntrySpec(w, dir, req, desk) else AttestSpec(w, dir, req, desk);
            && (r.Refused? ==> dir' == dir)
            && (r.Written? ==>
                  && dir' == dir[req.claimId := r.att] && req.claimId in w.claims
                  && r.att.claimId == req.claimId && r.att.checker == CheckerOf(w, desk.checkers, req.claimId)
                  && r.att.cacheKey == NoKey && SpeaksTrue(r.att)
                  && r.att.outcome in {Accepted, Rejected})
  {
    hide AttestRecord, LacksReviewer, Downgrades, SpeaksTrue;
    var request := if batch then Defaulted(req) else req;
    if request.outcome == Accepted || request.outcome == Rejected {
      AttestRecordSpeaksTrue(w, request, desk);
    }
  }

  /** Without force, no claim's assurance ever drops. */
  lemma AttestNeverDowngrades(w: World, dir: AttestDir, req: AttestRequest, desk: Desk, batch: bool, c: string)
    requires !req.force && c in dir
    ensures var dir' := (if batch then AttestEntrySpec(w, dir, req, desk) else AttestSpec(w, dir, req, desk)).1;
            c in dir' && AssuranceLevel(dir'[c].assurance) >= AssuranceLevel(dir[c].assurance)
  {
    hide AssuranceLevel, LacksReviewer, ContractResults, NotedMetadata;
  }

  // ------------------------------------------------------------ what is asked of a request, and what is written

  /** Exactly when a single `attest` writes. */
  lemma AttestWritesIff(w: World, dir: AttestDir, req: AttestRequest, desk: Desk)
    ensures AttestSpec(w, dir, req, desk).0.Written? <==>
            && req.claimId != "" && req.claimId in w.claims && (req.outcome == Accepted || req.outcome == Rejected)
            && (req.assurance == "independent-review" ==>
                  w.signer.Some? && "reviewer" in req.metadata && req.metadata["reviewer"] != "")
            && (w.signer.Some? ==> desk.signs)
            && (req.force || req.claimId !in dir
                || AssuranceLevel(dir[req.claimId].assurance) <= AssuranceLevel(req.assurance))
            && req.claimId !in desk.protected
  {
    hide AssuranceLevel, AttestRecord;
  }

  /** Which refusal is given when more than one applies. */
  lemma RefusalIff(w: World, dir: AttestDir, req: AttestRequest, desk: Desk)
    ensures var r := AttestSpec(w, dir, req, desk).0;
            var named := req.claimId != "";
            var decided := named && (req.outcome == Accepted || req.outcome == Rejected);
            var review := req.assurance == "independent-review";
            var keyed := decided && (review ==> w.signer.Some?);
            var reviewed := keyed && (review ==> "reviewer" in NotedMetadata(req)
                                                 && NotedMetadata(req)["reviewer"] != "");
            var known := reviewed && req.claimId in w.claims;
            var signed := known && (w.signer.Some? ==> desk.signs);
            var lowers := && req.claimId in dir && !req.force
                          && AssuranceLevel(dir[req.claimId].assurance) > AssuranceLevel(req.assurance);
            && (r == Refused(NoClaimGiven) <==> !named)
            && (r == Refused(BadOutcome) <==> named && !decided)
            && (r == Refused(NeedsKey) <==> decided && !keyed)
            && (r == Refused(NeedsReviewer) <==> keyed && !reviewed)
            && (r == Refused(NoSuchClaim) <==> reviewed && !known)
            && (r == Refused(NotSignable) <==> known && !signed)
            && (r == Refused(Downgrade) <==> signed && lowers)
            && (r == Refused(Unwritable) <==> signed && !lowers && req.claimId in desk.protected)
  {
    hide AssuranceLevel, AttestRecord, NotedMetadata;
  }

  /** An entry of a batch has to name an assurance, and may leave out the outcome. */
  lemma EntryWritesIff(w: World, dir: AttestDir, entry: AttestRequest, desk: Desk)
    ensures AttestEntrySpec(w, dir, entry, desk).0.Written? <==>
            && entry.assurance != ""
            && AttestSpec(w, dir, if entry.outcome == OtherStatus("") then entry.(outcome := Accepted) else entry,
                          desk).0.Written?
  {
    hide AssuranceLevel, AttestRecord;
  }

  /** What an `attest` writes: what it was told, the declared checker of the claim, and, for an acceptance
      under protocol 2, a "pass" for each obligation of the contract or one made-up verdict. */
  lemma AttestedFields(w: World, req: AttestRequest, desk: Desk)
    ensures var att := AttestRecord(w, req, desk);
            && att.claimId == req.claimId && att.outcome == req.outcome && att.assurance == req.assurance
            && |att.evidence| == |req.evidence|
            && (forall i :: 0 <= i < |req.evidence| ==> att.evidence[i].digest == req.evidence[i])
            && att.startFreshness == desk.today && att.endFreshness == desk.today
            && (forall k :: k in att.metadata <==> k in req.metadata || (k == "note" && req.note != ""))
            && (forall k :: k in att.metadata ==>
                  att.metadata[k] == if k == "note" && req.note != "" then req.note else req.metadata[k])
            && att.selfDigest == w.digest(att.(selfDigest := "", signature := None))
            && att.signature == (if w.signer.Some? then Some(w.signer.value(att.(signature := None))) else None)
  {
  }

  lemma AttestedVerdicts(w: World, req: AttestRequest, desk: Desk)
    requires req.claimId in w.claims
    ensures var att, policy := AttestRecord(w, req, desk), w.claims[req.claimId].checkerPolicy;
            && att.checker == (if policy in desk.checkers then desk.checkers[policy] else NO_CHECKER)
            && (req.outcome != Accepted || att.checker.protocolVersion != 2 ==> att.obligationResults == [])
            && (req.outcome == Accepted && att.checker.protocolVersion == 2 ==>
                  if req.claimId in w.contracts && w.contracts[req.claimId] != [] then
                    && |att.obligationResults| == |w.contracts[req.claimId]|
                    && forall i :: 0 <= i < |w.contracts[req.claimId]| ==>
                         att.obligationResults[i].id == w.contracts[req.claimId][i]
                         && att.obligationResults[i].verdict == "pass"
                  else |att.obligationResults| == 1 && att.obligationResults[0].id == "independent-review.accepted"
                       && att.obligationResults[0].verdict == "pass")
  {
  }
}
