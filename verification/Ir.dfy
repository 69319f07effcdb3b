/**
 The records of the intermediate representation, cut down to the fields the
 modelled code reads or writes.  Digests and dates stay plain strings; the cache
 key is the record of hashed inputs itself, which makes the hash injective.
 */
module Ir {
  datatype Option<+T> = None | Some(value: T)

  datatype Statement = Statement(text: string, digest: string)

  datatype Claim = Claim(
    id: string,
    kind: string,
    statement: Statement,
    dependsOn: seq<string>,
    checkerPolicy: string)

  datatype EvidenceDescriptor = EvidenceDescriptor(mediaType: string, digest: string, size: int, pathHint: string)

  datatype Runtime = Runtime(
    kind: string,
    cmd: seq<string>,
    digest: string,
    manifestDigest: string,
    manifestPath: string)

  datatype CheckerIdentity = CheckerIdentity(
    id: string,
    protocolVersion: int,
    checkerDigest: string,
    schemaDigest: string,
    runtime: Runtime,
    network: string)

  datatype Status = Open | Blocked | Accepted | Rejected | Error | Disproved | Abandoned | OtherStatus(text: string)

  datatype ObligationResult = ObligationResult(id: string, verdict: string, witnessDigest: string)

  datatype Signature = Signature(fingerprint: string, value: string)

  /** The inputs hashed into a cache key; `toolchain` is the hashed toolchain map, if any. */
  datatype CacheKeyInput = CacheKeyInput(
    claimId: string,
    claimKind: string,
    statementDigest: string,
    dependencyIds: seq<string>,
    dependencyDigests: seq<string>,
    evidence: seq<EvidenceDescriptor>,
    checker: CheckerIdentity,
    schemaDigest: string,
    policyDigest: string,
    toolchain: Option<map<string, string>>)

  datatype CacheKey = NoKey | HashOf(input: CacheKeyInput)

  datatype Attestation = Attestation(
    claimId: string,
    statementDigest: string,
    dependencyDigests: seq<string>,
    evidence: seq<EvidenceDescriptor>,
    checker: CheckerIdentity,
    outcome: Status,
    assurance: string,
    blockReason: string,
    startFreshness: string,
    endFreshness: string,
    selfDigest: string,
    cacheKey: CacheKey,
    metadata: map<string, string>,
    toolchain: map<string, string>,
    replayMode: string,
    obligationResults: seq<ObligationResult>,
    signature: Option<Signature>)

  /** The checker identity with no field set. */
  const NO_CHECKER := CheckerIdentity("", 0, "", "", Runtime("", [], "", "", ""), "")

  /** The attestation with no field set. */
  const BLANK :=
    Attestation("", "", [], [], NO_CHECKER, OtherStatus(""), "", "", "", "", "", NoKey, map[], map[], "", [], None)

  const PASS := "pass"
  const FAIL := "fail"

  /** How strong an assurance is; unknown ones rank lowest. */
  function AssuranceLevel(assurance: string): nat {
    if assurance == "formal-kernel" then 6
    else if assurance == "deterministic-cap" then 5
    else if assurance == "exact-replay" then 4
    else if assurance == "reproducible-computation" then 3
    else if assurance == "independent-review" then 2
    else if assurance == "ai-review" then 1
    else 0
  }

  predicate ClaimIdChar(c: char) {
    'a' <= c <= 'z' || 'A' <= c <= 'Z' || '0' <= c <= '9' || c == '_' || c == '.' || c == '-'
  }

  /** Non-empty, only safe characters, no leading dot, no two dots in a row. */
  predicate ValidClaimId(id: string) {
    && id != ""
    && (forall i :: 0 <= i < |id| ==> ClaimIdChar(id[i]))
    && id[0] != '.'
    && (forall i :: 0 <= i < |id| - 1 ==> !(id[i] == '.' && id[i + 1] == '.'))
  }

  /** A claim id is a plain file name: letters, digits, `_`, `.` and `-` only, so neither separator, not
      hidden, and without the parent directory in it. */
  lemma ClaimIdIff(id: string)
    ensures ValidClaimId(id) <==>
            && |id| > 0
            && (forall i :: 0 <= i < |id| ==>
                  || 'a' <= id[i] <= 'z' || 'A' <= id[i] <= 'Z' || '0' <= id[i] <= '9' || id[i] in {'_', '.', '-'})
            && id[0] != '.' && forall i, j :: 0 <= i < |id| && j == i + 1 < |id| ==> id[i] != '.' || id[j] != '.'
    ensures ValidClaimId(id) ==> '/' !in id && '\\' !in id
  {
  }

  /** The ranks of assurances, strongest first; whatever is not listed ranks lowest. */
  lemma AssuranceRanks(other: string)
    ensures AssuranceLevel("formal-kernel") > AssuranceLevel("deterministic-cap") > AssuranceLevel("exact-replay")
            > AssuranceLevel("reproducible-computation") > AssuranceLevel("independent-review")
            > AssuranceLevel("ai-review") > 0
    ensures AssuranceLevel(other) > 0 <==>
            other in {"formal-kernel", "deterministic-cap", "exact-replay", "reproducible-computation",
                      "independent-review", "ai-review"}
  {
  }
}
