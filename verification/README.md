# A verified model of proofctl's decision kernel

proofctl keeps a graph of mathematical claims, runs checkers on the evidence for each claim, stores
what they found as attestations, and decides from graph, attestations and policy whether a release
may go out. This project models the code that takes those decisions and proves what it promises, for
every graph, every order in which Go may range over a map, and every history of runs:

| files | what they model |
|---|---|
| `Graph.dfy` | reachability over an edge map: walks, cycles, topological orders, converse edges |
| `Kahn.dfy`, `Dag.dfy`, `TopoSort.dfy` | the claim graph: insertion, validation, closure, impact, levels, and the second topological sort of the command line tool |
| `LevelSpec.dfy`, `Dependency.dfy` | what the level partition and the two transitive queries mean |
| `StringOrder.dfy` | string order and the in-place insertion sort |
| `Derive.dfy`, `Staleness.dfy` | the claim state machine, its projection over a whole graph, and the spreading of staleness |
| `StatusProjection.dfy` | the status of every claim, with and without reasons |
| `Policy.dfy`, `Conditions.dfy`, `Gate.dfy`, `Demands.dfy`, `Tightening.dfy` | the release gate, what it demands field by field, and how it reacts to a changed policy |
| `Protocol.dfy`, `Merge.dfy` | validation of a checker's output and the merge of several evidence runs |
| `Identity.dfy`, `Pipeline.dfy`, `Text.dfy` | cache keys, the verification pipeline of one claim, and the error texts it goes by |
| `Edits.dfy` | what an edit of graph or contracts does to cached attestations |
| `Attesting.dfy`, `Replaying.dfy`, `Shadowing.dfy` | the commands that write attestations without the pipeline: attest, replay, batches of both, group checks, shadow compilation |
| `History.dfy`, `Agreement.dfy`, `Downgrades.dfy` | any interleaving of all these: what a cache hit is worth, agreement of what is on file with projections and gate, and which commands lower an assurance |
| `Json.dfy`, `Canonical.dfy` | the duplicate-name scanner and the canonical encoding |
| `Cas.dfy` | the content-addressed store and its garbage collector |
| `Ir.dfy` | the shared records |

`dafny verify dfyconfig.toml` checks everything.

## Reading the model

- A Go `range` over a map picks its next key nondeterministically, so each result holds for every order.
- Objects the source updates are classes (`DAG`, `Visited`, `Decoder`, `ReleaseGate`, and the two `Store` classes). Every command starts a
  new `Pipeline.Store` over the project as it then is; what happens between commands is a step of a history (`History.Step`).
  Loops of the source are loops here, proved against a specification function or predicate. The lemmas are about those specifications.
- The whole-graph projection of claim states is this model's own fold: the package comment of
  `internal/kernel/derive/derive.go` says the derivation is applied to every node, but the shipped verifier passes empty dependency maps
  (`cmd/proofverify/main.go:248-257`). It is defined for any contracts; the soundness lemma asks that they demand GLOBALLY_VERIFIED of every dependency.
- SHA-256: a cache key is the record of its hashed inputs, so equal keys mean equal inputs. The store takes its digest function as a
  parameter and never assumes it injective; `Cas.ImportedVerifies` names the collision that would matter.
- A checker is a function of its identity and input; files, clocks, signing and write errors enter a run as parameters (`Pipeline.Env`,
  `Attesting.Desk`, `Gate.Writes`, `resisting` files in collector and invalidation). Signature checking and the recognition of copy-only generators are function parameters.

## Where code and comments differ

The model follows the code.

- The comment on `runCheckerAllEvidence` says obligation results are unioned and any failure wins. The code keeps the first output and appends
  only failing verdicts of later ones, so with a contract a failure in a later run repeats an obligation and ends in an error, while a failure in the
  first run alone is a recorded rejection. `Merge.ExactRunsDecided` states all three outcomes; acceptance is not affected by the order.
  `Merge.OrderDecidesRejection` gives two outputs whose order turns the rejection into an error.
- The comment on `CacheKeyWithToolchain` speaks of forcing re-verification on a toolchain change. Look-ups always use the key without toolchain, so an
  attestation whose checker reported a toolchain is never served from the cache (`Pipeline.RepeatHitsIff`).
- `docs/PROOFGRAPH_IR.md:175-176` promises digests of all transitive dependencies, and that any dependency change invalidates an attestation. Cache
  keys, checker inputs and attestations hold those of direct dependencies only: a new statement digest of another claim is noticed exactly if that
  claim is a direct dependency (`Edits.DependencyEditNoticedIff`, with the chain of `Edits.TransitiveEditUnnoticed`), and an attestation is still
  served after an edit exactly if kind, statement digest and direct dependencies are what they were (`Edits.HitAfterEditIff`).
- A cache hit is what a re-run would report exactly if the recorded verdicts meet the claim's contract as it now stands (`History.HitIsFreshIff`, which
  also settles hits without verdicts); otherwise the re-run ends in an error. Contracts are not part of the key, so an edit of the contract alone never
  costs a hit (`Edits.ContractEditIff`): neither one that adds an obligation nor one that drops one is noticed (`Edits.ContractEditUnnoticed`, with the
  project of `Edits.ContractCutGoesStale`).
- That presupposes that the claim's own digest determines its text, which nothing enforces: a text replaced under its old digest keeps the key, and changes
  the checker input exactly if it is the claim's own (`Edits.TextEditKeepsKey`, with the project of `Edits.TextEditGoesStale`).
- The look-up recognises a bad signature by a phrase in the error text. A claim never attested before is therefore reported as badly signed instead of
  being checked exactly when its own, legal, name or the directory's path holds the phrase (`Pipeline.FirstCheckIff`, `Pipeline.SomeClaimNeverChecked`).
- `replay --batch` records "accepted" and no verdicts. For a claim with a protocol 2 checker the two status projections then disagree and no release can
  pass (`Agreement.BatchReplaySplits`); a single `replay` does the same exactly if no verdicts, or failing ones, were reported (`Agreement.ReplaySplitsIff`).
  `attest` makes up passing verdicts for the whole contract and never does (`Attesting.AttestSpeaksTrue`).
- The collector takes the path it deletes apart from the joined name of the blob, the first two characters naming the directory. A blob in a directory
  with a name of another length is listed, reported as deleted and counted as freed, and stays (`Cas.ThreeCharacterDirectory`); a collection leaves what it
  should, and reports what it freed, exactly under the conditions of `Cas.CollectsAllIff` and `Cas.ReportsDropIff`, which well-addressed stores meet.
- Only `attest` guards against downgrades. Checks, replays, group checks and invalidations lower the assurance of a claim without being forced
  (`Downgrades.AssuranceDropsIff`).
- The comment on `isHigherAssurance` says a shadow compilation does not silently overwrite a real verification. It overwrites whatever has no ranked
  assurance, and checks record none, so what a check wrote is always replaced, and release blocked (`Agreement.ShadowsReplaceChecks`); the downgrade
  guard of `attest` does not cover it either (`Shadowing.ChecksAreUnprotected`).
- A batch group of `verify --project` records no checker, so the gate takes its attestations for ones of an earlier protocol (`Agreement.GroupCheckBlocksRelease`).
- The comment on `Release` says STATUS.json is written on success. It is written whenever the check has run, with `released` telling the verdict; the file
  says released while the call reports failure exactly if the demands are met and the snapshot or the manifest cannot be written
  (`Gate.ReleaseGate.Release`).
- Emptying the list of allowed assurances loosens the gate instead of tightening it (`Tightening.EmptyingAllowedUnblocks`).
- `Levels` counts a repeated entry of `depends_on` twice but subtracts it once, and does not look at unresolved entries or cycles at all: it ends only on
  graphs without any of the three (`LevelSpec.PartitionEndsIff`), which is why the method requires them absent. Its caller
  (`cmd/proofctl/cmd_verify.go:232`) has only validated the graph, which lets repetitions through (`LevelSpec.RepeatedDependencyNeverEnds`).
- `Impact` says its result never includes the claim itself. On a graph that was not validated it does exactly when a cycle through the claim visits another
  claim (`Dependency.SelfImpact`, with `Dependency.MutualDependentsSelfImpact`).

## Model

| member | source | states |
|---|---|---|
| Dag.DAG.AddClaim | internal/dag/dag.go:26-36 | rejects malformed ids and duplicates leaving the graph as it was; otherwise adds the claim last in insertion order |
| Ir.ClaimIdIff | internal/ir/types.go:16-33 | an id is legal iff it is non-empty, of letters, digits, `_`, `.` and `-`, without leading dot and two dots in a row; so it holds no path separator |
| Dag.DAG.Claims | internal/dag/dag.go:44-50 | lists every claim once, in insertion order |
| Dag.DAG.FindUnknownDep | internal/dag/dag.go:55-62 | finds an unresolved dependency exactly when there is one, and names a real one |
| Dag.DAG.InitialQueue | internal/dag/dag.go:64-75 | starts Kahn's algorithm in a state where counts equal missing dependencies and the queue holds the claims with none |
| Kahn.Relax | internal/dag/dag.go:85-92 | one decrement per occurrence, and one append at the moment the count reaches zero, for a dependency list with repetitions |
| Dag.DAG.RelaxAll | internal/dag/dag.go:79-94 | a round keeps the counting invariant: no claim is queued twice, and dequeued claims follow all their dependencies |
| Kahn.DrainedExactly | internal/dag/dag.go:77-98 | when the queue runs dry, exactly the claims reaching neither a cycle nor an unknown name were dequeued |
| Kahn.DrainedAllIffValid | internal/dag/dag.go:96-99 | everything was dequeued iff the graph is resolved and acyclic, and then the dequeue order is topological |
| Kahn.LeftoverCount | internal/dag/dag.go:96-97 | on resolved graphs the number left over is the number of claims on, or transitively depending on, a cycle |
| Graph.StuckSetReachesCycle | internal/dag/dag.go:77-98 | in a finite set where every claim depends on a member of the set, every member reaches a cycle |
| Dag.DAG.Validate | internal/dag/dag.go:54-100 | accepts iff every dependency resolves and there is no cycle; reports an unknown dependency iff there is one; otherwise reports the exact number of claims that reach a cycle |
| Dag.DAG.ClosureWalk | internal/dag/dag.go:118-130 | the walk with a shared visited set ends on every graph; what it newly marks is reached from its start and closed under dependencies |
| Dag.DAG.Closure | internal/dag/dag.go:104-116 | returns, without repetition, exactly what is reachable by depends_on, minus the claim itself, on any graph |
| Dag.DAG.ImpactFrom | internal/dag/dag.go:171-187 | the upward walk ends; what it newly marks reaches its start, and every other dependent of a mark is marked |
| Dag.DAG.Impact | internal/dag/dag.go:147-168 | returns, without repetition, exactly the claims that reach a direct dependent other than the claim itself |
| Dependency.ImpactClosureConverse | internal/dag/dag.go:104-187 | on every graph, for distinct claims: y is in the impact of x iff x is in the closure of y |
| Dependency.SelfImpact | internal/dag/dag.go:145-187 | a claim is never in its own closure, and is in its own impact iff a cycle through it visits another claim |
| Dependency.ValidatedConverse | internal/dag/dag.go:104-187 | on validated graphs the converse holds without exception |
| Dependency.MutualDependentsSelfImpact | internal/dag/dag.go:145-187 | of two claims that depend on each other, each is in its own impact |
| StringOrder.SortStrings | internal/dag/dag.go:231-237 | insertion sort leaves the array a permutation of what it was, in dictionary order |
| StringOrder.LessIff | internal/dag/dag.go:231-237 | one string comes before another iff it is a proper prefix or has the smaller character at the first difference |
| StringOrder.SortedDistinctIff | internal/dag/dag.go:231-237 | a sequence sorted without repetition is one in which each string comes, in dictionary order, before all later ones |
| Dag.DAG.ReadyLevel | internal/dag/dag.go:202-209 | the claims whose count is zero, sorted, each once |
| Dag.DAG.DecrementDependents | internal/dag/dag.go:213-223 | each remaining dependent loses one, however often it lists the finished claim |
| Dag.DAG.PlaceLevel | internal/dag/dag.go:210-224 | takes a level out and leaves every other count at length minus distinct placed dependencies |
| Dag.DAG.Levels | internal/dag/dag.go:194-228 | every claim is in exactly one level, numbered by the length of its longest dependency chain; levels are non-empty and strictly in dictionary order |
| LevelSpec.DependenciesComeEarlier | internal/dag/dag.go:189-193 | in such a partition every dependency of a claim sits in an earlier level than the claim |
| LevelSpec.PlacedAtDepth | internal/dag/dag.go:189-193 | a claim placed in round n has a dependency chain of n edges and none longer |
| LevelSpec.NextLevelNonEmpty | internal/dag/dag.go:201-207 | on a resolved, acyclic, repetition-free graph every round places something |
| LevelSpec.PartitionEndsIff | internal/dag/dag.go:194-228 | the rounds ever place all claims iff dependencies resolve, none is listed twice by one claim, and there is no cycle |
| LevelSpec.RepeatedDependencyNeverEnds | cmd/proofctl/cmd_verify.go:225-232 | on a graph that validation accepts, with one dependency listed twice, they never do |
| TopoSort.Roots | cmd/proofctl/main.go:326-338 | starts the second Kahn loop in the same invariant, in insertion order |
| TopoSort.RelaxInOrder | cmd/proofctl/main.go:344-353 | a round in insertion order keeps the counting invariant |
| TopoSort.TopoSort | cmd/proofctl/main.go:325-359 | succeeds on exactly the graphs Validate accepts, and then returns a permutation of all claims with dependencies first |
| Graph.TopoOrderImpliesValid | cmd/proofctl/main.go:324-359 | a topological order of all claims exists only on resolved, acyclic graphs |
| Graph.TopoOrderExistsIff | cmd/proofctl/main.go:324-359 | and on all of those |
| Derive.DeriveClaimState | internal/kernel/derive/derive.go:112-179 | the prioritised rules give the specified state, whatever order dependencies are visited in; unknown evidence codes count as evidence |
| Derive.StateIff | internal/kernel/derive/derive.go:112-179 | for each of the eight states, exactly which inputs derive it |
| Derive.AtLeastIff | internal/kernel/derive/derive.go:182-208 | what meets each required state: BLOCKED and STALE rank alike below OPEN, an unknown state below all |
| Derive.UpperStatesIff | internal/kernel/derive/derive.go:166-178 | in a projection, at GLOBALLY_VERIFIED or above: RELEASED iff a release root with signed manifest, else REPRODUCIBLE iff replayed, else GLOBALLY_VERIFIED |
| Derive.LowerStatesIff | internal/kernel/derive/derive.go:129-165 | in a projection, of claims neither blocked nor stale: OPEN, CANDIDATE and LOCALLY_VERIFIED by obligations, evidence, runtime and required states |
| Derive.StateMonotone | internal/kernel/derive/derive.go:98-208 | one derivation never drops when its facts or its dependencies' states improve |
| Derive.Project | internal/kernel/derive/derive.go:3-6 | folding along a topological order yields a projection: every state follows from the final states of the dependencies |
| Derive.ProjectGraph | internal/kernel/derive/derive.go:3-6 | sorting and folding works on exactly the graphs that validate, and yields a projection |
| Derive.ProjectionUnique | internal/kernel/derive/derive.go:3-6 | a validated graph has one projection, whatever topological order is folded |
| Derive.ProjectionMonotone | internal/kernel/derive/derive.go:98-208 | on validated graphs, improving evidence, obligations, replay or manifest of any claims lowers no claim in BLOCKED < STALE < OPEN < ... < RELEASED, under any contracts |
| Derive.GlobalRestsOnGlobal | internal/kernel/derive/derive.go:143-166 | a claim at GLOBALLY_VERIFIED or above implies the same of everything it transitively depends on, with passing exact obligations, absent or current identity, and no native runtime |
| Derive.GlobalIff | internal/kernel/derive/derive.go:143-178 | a claim is at GLOBALLY_VERIFIED or above iff its own facts are sound and all direct dependencies are there |
| Derive.BlockedIffChain | internal/kernel/derive/derive.go:113-128 | on validated graphs: BLOCKED iff a chain of claims with current identities leads to one with failing obligations; STALE iff the claim's own identity changed |
| Staleness.PropagateStale | internal/kernel/derive/derive.go:213-236 | ends on every edge map; marks exactly the changed claim and what its reverse edges reach, and nothing else |
| Staleness.MarksCommute | internal/kernel/derive/derive.go:210-236 | two changes may be applied in either order, or at once |
| Staleness.DownstreamIsImpact | internal/kernel/derive/derive.go:210-212 | with the reverse edges of a validated graph, what goes stale is the claim and its impact |
| StatusProjection.DeriveStatus | internal/status/status.go:54-67 | verdicts decide under protocol 2, the outcome field before it |
| StatusProjection.ComputeOne | internal/status/status.go:25-49 | an unattested claim is blocked iff some transitive dependency is attested disproved, rejected or error, whatever order the closure comes in |
| StatusProjection.Compute | internal/status/status.go:16-23 | gives every claim of the graph that status and no other id |
| StatusProjection.StatusIff | internal/status/status.go:25-67 | when each status is given, from protocol version, verdicts and outcome fields of the attestations and of those transitively depended on |
| StatusProjection.ComputeOneWithReason | internal/status/reasons.go:25-57 | a claim blocked through dependencies is given the reason of some failing dependency, or its id if it has none |
| StatusProjection.ComputeWithReasons | internal/status/reasons.go:17-23 | gives every claim of the graph such a status and reason |
| StatusProjection.ReasonIff | internal/status/reasons.go:25-57 | status and reason from the outcome fields: blocked iff some transitive dependency is recorded disproved, rejected or error, for its reason or id |
| StatusProjection.ProjectionsAgreeOnV1 | internal/status/reasons.go:25-57 | without protocol 2 attestations both projections agree on every claim |
| StatusProjection.ProjectionsAgreeIff | internal/status/reasons.go:25-57 | on a resolved graph the projections agree on every claim iff each attestation of a claim states, in its outcome field, the status it stands for |
| Policy.Evaluate | internal/policy/policy.go:70-94 | passes iff every required claim is attested, has outcome accepted and is in the graph; the blockers are exactly the ways required claims fail this |
| Conditions.AttestationAccepted | internal/release/conditions.go:140-153 | the second decider of acceptance: non-empty all-pass verdicts under protocol 2, else the outcome field |
| Conditions.StatusAgreesWithC01 | internal/release/conditions.go:111-135 | the status projection shows every claim accepted iff C01 holds |
| Conditions.CheckGlobalStatus | internal/release/conditions.go:115-135 | C01 fails listing exactly the claims without accepted attestation |
| Conditions.CheckReplayConsistency | internal/release/conditions.go:216-250 | C04 fails listing exactly the checker-policy claims lacking an attestation, self digest or freshness |
| Conditions.CheckEach | internal/release/conditions.go:427-610 | C02 and C08 to C11 fail listing exactly the attestations they object to, C11 with the reason |
| Conditions.OffenceIff | internal/release/conditions.go:156-611 | from the fields of an attestation: when C02, C08, C09, C10 and C11 list it, and C11 for which reason |
| Conditions.CheckAssurances | internal/release/conditions.go:174-209 | C03 fails listing exactly the attestations with a forbidden assurance, or with one not on a non-empty allowed list |
| Conditions.CheckSignatures | internal/release/conditions.go:281-324 | C05 fails listing exactly the unsigned attestations, those signed with an unknown key, and those that do not verify |
| Conditions.SignatureOffenceIff | internal/release/conditions.go:288-311 | from the fields of an attestation: when C05 lists it as unsigned, as signed by an unknown key, and as not verifying |
| Conditions.CheckMetadataValues | internal/release/conditions.go:351-387 | C06 fails listing exactly the pairs of attestation and constrained key whose value is not permitted |
| Conditions.HasMetaKey | internal/release/conditions.go:253-262 | some attestation carries a non-empty value for the key |
| Conditions.CheckConditionalMetadata | internal/release/conditions.go:391-425 | C07 fails listing exactly the present trigger keys whose required key nobody carries |
| Conditions.CheckMetadataKey | internal/release/conditions.go:266-276 | a required key is met iff some attestation carries it |
| Conditions.Check | internal/release/conditions.go:111-611 | each check passes iff its condition holds, and lists exactly what offends it |
| Conditions.EvaluateConditions | internal/release/conditions.go:52-88 | the right result of each activated condition, in order |
| Conditions.EvaluationOrder | internal/release/conditions.go:52-88 | conditions are evaluated by rising number, each at most once, then the required metadata keys as listed |
| Conditions.AllPassed | internal/release/conditions.go:91-98 | true iff every result passed |
| Conditions.Blockers | internal/release/conditions.go:101-109 | exactly the failed results, in order; empty iff all passed |
| Conditions.FailedInOrder | internal/release/conditions.go:101-109 | the failed results of two lists joined are those of the first, then those of the second |
| Gate.FindLegacy | internal/release/gate.go:68-78 | finds an earlier-protocol attestation iff there is one |
| Gate.StatusBlockers | internal/release/gate.go:82-88 | exactly one kind of blocker, for exactly the claims that are not accepted |
| Gate.Defects | internal/release/gate.go:96-102 | the block reasons recorded in attestations |
| Gate.GateCheck | internal/release/gate.go:63-115 | passes iff all attestations are protocol 2, every claim has non-empty all-pass verdicts, every required claim is met and every activated condition holds; the blockers are the right ones |
| Gate.NoBlockersIffPasses | internal/release/gate.go:82-110 | the right blockers, exactly the failing statuses, required claims and conditions with what offends them, are none iff the demands are met |
| Demands.ReleasedAttestation | internal/release/gate.go:63-115 | if the gate passes, every attestation meets, field by field, C02, C03, C05, C06 and C08 to C11 as far as the policy activates them: under required signing it is signed by a known key and verifies |
| Demands.ReleasedClaims | internal/release/gate.go:63-115 | if the gate passes, every claim has non-empty all-pass verdicts and its records, every required claim is accepted, and every required or triggered metadata key is carried |
| Demands.DemandsMetRelease | internal/release/gate.go:63-115 | conversely, where all those demands are met the gate passes: nothing else is asked |
| Demands.GateIffConditions | internal/release/gate.go:63-115 | the gate passes iff protocol, verdicts and required claims are right and each condition a setting activates holds |
| Demands.ActiveIff | internal/release/conditions.go:52-88 | which setting activates which condition |
| Demands.AssuranceConditionsIff | internal/release/conditions.go:156-209 | C02 and C03 hold iff no attestation is an assumption, and each stated assurance is not forbidden and on a non-empty allowed list |
| Demands.RecordConditionIff | internal/release/conditions.go:216-250 | C04 holds iff each claim with a checker policy is attested with self digest and both ends of freshness |
| Demands.SignatureConditionIff | internal/release/conditions.go:281-324 | C05 holds iff every attestation has a non-empty signature under a known fingerprint that verifies |
| Demands.MetadataConditionIff | internal/release/conditions.go:351-387 | C06 holds iff every value of a constrained key is permitted |
| Demands.TriggerConditionIff | internal/release/conditions.go:391-425 | C07 holds iff, whenever some attestation carries a trigger key, some attestation carries a non-empty value for the required one |
| Demands.ReplayConditionIff | internal/release/conditions.go:430-490 | C08 and C09 hold iff no attestation states another replay mode, or a forbidden runtime |
| Demands.CopyConditionIff | internal/release/conditions.go:498-535 | C10 holds iff no attestation with copy-only generator commands claims recomputation |
| Demands.MutationConditionIff | internal/release/conditions.go:582-611 | C11 holds iff every attestation that claims recomputation has a kill rate of 100% and a catalog digest that is not blank |
| Demands.KeyConditionIff | internal/release/conditions.go:266-276 | a required key is met iff some attestation carries a non-empty value for it |
| Demands.ListedIff | internal/release/conditions.go:115-425 | from the fields: which claims C01 and C04 list, which pairs C06, and which trigger keys C07 |
| Gate.BuildClaimSummary | internal/release/gate.go:218-233 | each count is the number of claims with that status |
| Gate.SummaryIff | internal/release/gate.go:218-233 | each of the four counters is that of its own status |
| Gate.SummaryAddsUp | internal/release/gate.go:218-233 | the four counts add up to the number of claims whose status is one of the four |
| Gate.V2SummaryIsComplete | internal/release/gate.go:217-233 | under protocol 2 they add up to the number of claims |
| Gate.ReleaseGate.DryRun | internal/release/gate.go:119-126 | passes iff the gate's demands are met, with the right blockers |
| Gate.ReleaseGate.Release | internal/release/gate.go:133-173 | same verdict and blockers as the dry run; fails iff a file due cannot be written; the new contents of all three files, and when the status file says released although the call fails |
| Gate.ReleaseGate.CountsWritten | internal/release/gate.go:133-233 | the counts in the status file: none beside an attestation of an earlier protocol; else accepted and rejected are the attested claims by their verdicts, and the four add up to the number of claims |
| Tightening.TighteningNeverUnblocks | internal/release/conditions.go:52-88 | whatever passes a tighter policy passes the looser one, for tightenings of every setting at once |
| Tightening.CuttingAllowedIff | internal/release/conditions.go:179-200 | cutting the allowed assurances keeps every objection iff the list is not emptied |
| Tightening.EmptyingAllowedUnblocks | internal/release/conditions.go:197-199 | attestations that are blocked while the list names another assurance pass once it is emptied |
| Protocol.ValidateOutput | pkg/protocol/v2/validate.go:27-101 | accepts iff version and claim match, verdicts are legal and the answered obligations are exactly the expected ones, each once; which error is given when more than one applies |
| Protocol.ExactSetIff | pkg/protocol/v2/validate.go:46-100 | exactness: every expected obligation is answered, every answer is to an expected one, and no two to the same |
| Protocol.CheckSet | pkg/protocol/v2/validate.go:46-100 | repeated, then missing, then extra identifiers, each reported exactly |
| Protocol.CountIds | pkg/protocol/v2/validate.go:57-61 | counts the occurrences of every returned identifier |
| Protocol.AllObligationsPass | pkg/protocol/v2/validate.go:105-115 | non-empty and all verdicts pass |
| Merge.AppendFails | internal/verify/verify.go:483-488 | appends exactly the failing verdicts, in order |
| Merge.FailsInOrder | internal/verify/verify.go:483-488 | the failing verdicts of two lists joined are those of the first, then those of the second |
| Merge.FailsSnoc | internal/verify/verify.go:483-488 | a verdict is taken iff it is "fail" |
| Merge.RunAllEvidence | internal/verify/verify.go:449-504 | several runs merge into the specified output, or into a fault if any run faulted or could not be parsed |
| Merge.MergedShape | internal/verify/verify.go:473-489 | the merge keeps head and verdicts of the first output and adds failing verdicts of later ones iff there are any |
| Merge.MergedToolchain | internal/verify/verify.go:476-482 | the merged toolchain has an entry for every tool some run reported, with the value reported last |
| Merge.MultiAcceptedIff | internal/verify/verify.go:228-250 | for any runs: accepted iff all parsed, the first output is valid and all-pass, and no later one reports a failure |
| Merge.ExactRunsDecided | internal/verify/verify.go:228-250 | if every run answers the contract exactly: accepted iff all pass, rejected iff only the first fails something, an error iff a later one does |
| Merge.AcceptanceOrderFree | internal/verify/verify.go:432-505 | acceptance does not depend on the order of the evidence |
| Merge.OrderDecidesRejection | internal/verify/verify.go:432-505 | rejection does: two outputs, one failing, rejected in one order and an error in the other |
| Merge.SpoiltRunErrs | internal/verify/verify.go:492-496 | one faulty or unparsable run makes the whole check an error |
| Merge.DecisionCoherent | internal/verify/verify.go:205-250 | a decision says accepted iff it carries passing verdicts |
| Merge.DecideIff | internal/verify/verify.go:205-250 | when a run is accepted, rejected or an error, from fault, version, claim id, verdicts and contract |
| Merge.RejudgedIff | internal/verify/verify.go:205-250 | the same run under another contract is decided alike iff there is none, the checker rejected by exit code, or the verdicts answer it exactly; else it is an error |
| Identity.CacheKeyWithToolchain | internal/checker/identity.go:60-102 | the key of all inputs, with the toolchain only if one was reported |
| Identity.EveryInputCounts | internal/checker/identity.go:13-29 | keys are equal iff every input is: ids, kind, statement digest, dependencies in order, evidence, checker, schema, policy, toolchain |
| Identity.PlainCacheKey | internal/checker/identity.go:35-44 | the key without toolchain |
| Pipeline.Store.ResolveDeps | internal/verify/verify.go:77-85 | the direct dependencies in order, or failure iff one is unknown |
| Pipeline.Store.CheckerInputFor | internal/verify/verify.go:160-184 | what the checker is given, as Pipeline.CheckerSees describes it |
| Pipeline.CheckerSees | internal/verify/verify.go:160-184 | the checker sees the claim's own statement, the statement digests of exactly its direct dependencies, the evidence and the policy |
| Pipeline.Store.RunChecker | internal/verify/verify.go:436-505 | one call for at most one piece of evidence; otherwise one call per piece, with that piece alone, and the merge |
| Pipeline.EveryPieceCheckedIff | internal/verify/verify.go:436-505 | several pieces are accepted iff the checker, given each piece alone, ends in readable output every time, the first output answers the contract with passes only, and no later one reports a failure |
| Pipeline.SingleAcceptedIff | internal/verify/verify.go:436-445 | at most one piece: accepted iff the one run on all the evidence answers the contract with passes only |
| Pipeline.Store.DecideOutcome | internal/verify/verify.go:205-250 | exit code 1 rejects, other faults and invalid output are errors, verdicts decide the rest |
| Pipeline.Store.LoadCached | internal/verify/verify.go:330-355 | a hit iff the stored attestation can be read, its key matches and its signature is acceptable; otherwise the error text |
| Pipeline.ReadableRun | internal/verify/verify.go:123-146 | with a readable attestation on file: a changed key is a miss, a bad signature a failure, anything else a hit |
| Pipeline.HitIff | internal/verify/verify.go:123-139 | served from the cache iff the cache is on and a readable attestation with the plain key and an acceptable signature is on file; and what is returned, backfill included |
| Pipeline.FirstCheckIff | internal/verify/verify.go:516-519 | a claim without attestation is checked iff neither its name nor the directory's path holds the phrase that stands for a bad signature |
| Text.ContainsIff | internal/verify/verify.go:516-519 | a text holds a phrase iff it is the phrase with something, perhaps nothing, on either side |
| Pipeline.SomeClaimNeverChecked | internal/verify/verify.go:516-519 | there is a legal claim id whose first check always fails as badly signed |
| Pipeline.Store.BuildAttestation | internal/verify/verify.go:258-318 | what is written: decision, verdicts, key (by toolchain if there is one), digest, signature |
| Pipeline.RecordedFields | internal/verify/verify.go:258-318 | field by field what a run that went to the checker records: statement, evidence and dependency digests, freshness, decision, digest, signature, key |
| Pipeline.Store.Run | internal/verify/verify.go:59-146 | result and new attestation directory of a run, early failures, hits and backfill included |
| Pipeline.EarlyFailureIff | internal/verify/verify.go:59-121 | for each failure before the cache is looked at, exactly when it is reported |
| Pipeline.Store.RunPastCache | internal/verify/verify.go:148-326 | result and new directory of a run that goes to the checker |
| Pipeline.LateFailureIff | internal/verify/verify.go:148-326 | for each failure past the cache, evidence drift among them, exactly when it is reported |
| Pipeline.Store.Invalidate | cmd/proofctl/cmd_cache.go:82-93 | removes exactly the named attestations but those whose files resist |
| Pipeline.RunTouchesOne | internal/verify/verify.go:123-146 | a failed run changes nothing; else what is returned is on file and nothing else has changed, except that a hit whose backfill cannot be written leaves the file alone |
| Pipeline.UnkeyedNeverHit | internal/verify/verify.go:345-347 | an attestation without key, or with a toolchain key, is never hit: the run behaves as with the cache off, unless reading it fails with the phrase |
| Pipeline.RepeatHitsIff | internal/verify/verify.go:281-285 | right after a checker run the same query hits iff the checker reported no toolchain |
| Edits.PlainKeysEqualIff | internal/checker/identity.go:60-102 | over two states of a project: equal keys iff same query, kind, statement digest, direct dependencies in order and their digests |
| Edits.SameKeySameInputIff | internal/verify/verify.go:160-184 | under equal keys the checker input is the same iff the claim's own text is |
| Edits.SameKeySameFresh | internal/verify/verify.go:160-250 | and then, under the same checker and contract, so is the decision |
| Edits.HitAfterEditIff | internal/verify/verify.go:103-139 | exactly when an attestation just written is served after an edit |
| Edits.DependencyEditNoticedIff | docs/PROOFGRAPH_IR.md:175-176 | a new statement digest of another claim changes the key iff that claim is a direct dependency |
| Edits.DeepEditKeepsKey | internal/checker/identity.go:69-74 | any change of a claim that is neither the query's nor a direct dependency keeps the key |
| Edits.TransitiveEditUnnoticed | docs/PROOFGRAPH_IR.md:175-176 | on a chain of three claims, a new statement of the last leaves the key of the first alone |
| Edits.TextEditKeepsKey | internal/verify/verify.go:175-183 | a text replaced under its old digest keeps the key, and changes the checker input iff it is another text of the query's own claim |
| Edits.TextEditGoesStale | internal/verify/verify.go:103-139 | a project on which the hit says accepted after such an edit and a re-run rejects |
| Edits.ContractEditIff | internal/verify/verify.go:103-139 | an edit of the contract alone never costs a hit; a re-run confirms an acceptance iff the new contract is empty or answered exactly, and else is an error |
| Edits.ContractEditUnnoticed | internal/verify/verify.go:587-612 | so neither an added nor a dropped obligation is noticed, while a run past the cache is an error |
| Edits.ContractCutGoesStale | internal/verify/verify.go:103-139 | a project on which dropping an obligation leaves a hit that says accepted next to a re-run that errs |
| Attesting.Attest | cmd/proofctl/cmd_attest.go:107-150 | refusals in order, then what is written, as the four lemmas below describe |
| Attesting.AttestWritesIff | cmd/proofctl/cmd_attest.go:107-150 | exactly when an attest writes |
| Attesting.RefusalIff | cmd/proofctl/cmd_attest.go:107-150 | for each refusal, exactly when it is the one given |
| Attesting.AttestedFields | cmd/proofctl/cmd_attest.go:324-391 | field by field what is written, note and signature included |
| Attesting.AttestedVerdicts | cmd/proofctl/cmd_attest.go:135-146 | the checker recorded, and the verdicts: made up as passing for the contract only when accepting under protocol 2 |
| Attesting.AttestBatch | cmd/proofctl/cmd_attest.go:194-269 | one result per entry; refused entries are stepped over |
| Attesting.EntryWritesIff | cmd/proofctl/cmd_attest.go:194-269 | an entry writes iff it names an assurance and an attest with its outcome, accepted by default, would |
| Downgrades.AttestBatchIsSteps | cmd/proofctl/cmd_attest.go:194-269 | a batch leaves what its entries leave as steps of a history, one after the other |
| Attesting.BuildObligationResults | cmd/proofctl/cmd_attest.go:294-320 | a passing verdict per obligation of the contract, in order, or one made-up verdict without a contract |
| Attesting.BuildAndWrite | cmd/proofctl/cmd_attest.go:324-391 | the attestation, signed if there is a key, unless it would lower the assurance without force |
| Attesting.AttestSpeaksTrue | cmd/proofctl/cmd_attest.go:141-146 | what attest writes carries no key and states the status its verdicts stand for |
| Attesting.AttestNeverDowngrades | cmd/proofctl/cmd_attest.go:372-384 | without force attest lowers no claim's assurance level |
| Ir.AssuranceRanks | internal/ir/types.go:118-138 | the six ranked assurances from formal kernel down; whatever else ranks lowest |
| Downgrades.AssuranceDropsIff | cmd/proofctl/cmd_attest.go:372-384 | exactly which steps of a history lower a claim's assurance level or leave it without attestation |
| Downgrades.ReplayLowersFormalKernel | cmd/proofctl/cmd_replay.go:373-425 | a passing replay replaces an attestation of the highest level unforced |
| Replaying.Evaluate | cmd/proofctl/cmd_replay.go:193-333 | passes iff every generator worked, every digest matches unless semantic, and every checker exits 0 |
| Replaying.AllPassIff | cmd/proofctl/cmd_replay.go:193-333 | the same from generator output, digests and exit codes |
| Replaying.Collect | cmd/proofctl/cmd_replay.go:335-371 | verdicts and metadata of passing checkers with readable output, in order |
| Replaying.CollectedInOrder | cmd/proofctl/cmd_replay.go:335-371 | verdicts come in the order of the evidence |
| Replaying.CollectedSnoc | cmd/proofctl/cmd_replay.go:339-361 | a piece adds its verdicts iff its checker passed with readable output |
| Replaying.LastMetadataCounts | cmd/proofctl/cmd_replay.go:362-364 | of metadata reported for one key the last counts |
| Replaying.Replay | cmd/proofctl/cmd_replay.go:164-429 | writes exactly if not skipped, everything passes and the file can be written; and what |
| Replaying.ReplayWrites | cmd/proofctl/cmd_replay.go:164-429 | when a replay writes, and field by field what: an acceptance that claims recomputation, unsigned and without key |
| Replaying.ReplaySpeaksTrueIff | cmd/proofctl/cmd_replay.go:386-413 | its "accepted" is what its verdicts stand for iff the checker is not a protocol 2 one, or verdicts were reported and all pass |
| Replaying.ReplayEntry | cmd/proofctl/cmd_replay.go:849-1076 | writes for exactly the pending claims of an entry whose evidence all passes |
| Replaying.ReplayBatch | cmd/proofctl/cmd_replay.go:813-1076 | entry after entry, all looking at the attestations as they were at the start |
| Replaying.BatchWritesIff | cmd/proofctl/cmd_replay.go:849-1076 | claim by claim, when an entry writes and what |
| Downgrades.ReplayBatchIsSteps | cmd/proofctl/cmd_replay.go:849-1076 | leaves what its entries leave as steps of a history |
| Replaying.BatchSpeaksTrueIff | cmd/proofctl/cmd_replay.go:1036-1054 | records "accepted" and no verdicts, which is true to them iff the checker is not a protocol 2 one |
| Replaying.RecordGroup | cmd/proofctl/cmd_verify.go:176-210 | one attestation per answer, the last per claim staying |
| Replaying.GroupOutcome | cmd/proofctl/cmd_verify.go:176-210 | the last answer about a claim decides: accepted iff it has verdicts and all pass |
| Replaying.GroupWrites | cmd/proofctl/cmd_verify.go:188-193 | what it writes speaks true but counts as an attestation of an earlier protocol |
| Shadowing.WriteShadows | cmd/proofctl/cmd_compile.go:141-170 | writes a shadow for exactly the claims without attestation of ranked assurance, or for all with force; names the others |
| Shadowing.ShadowWrites | internal/weil/shadow.go:24-49 | a shadow states blocked or open, speaks true, carries no key and counts as an attestation of an earlier protocol |
| Shadowing.ShadowFields | internal/weil/shadow.go:24-49 | a known defect is recorded as blocked for its reason, any other claim as open; with statement digest, assurance and checker of a shadow |
| Shadowing.ChecksAreUnprotected | cmd/proofctl/cmd_compile.go:224-228 | what a check wrote is skipped by no shadow compilation and guarded against no downgrade |
| History.StepOrigins | internal/verify/verify.go:123-326 | what is on file after any step was there before, was returned by a check, or was built by the command |
| History.OnlyChecksWriteKeys | cmd/proofctl/cmd_attest.go:336-346 | attest, replay, both batches, group checks and shadow compilation write no cache key |
| History.BuiltKeyIsPlain | internal/verify/verify.go:274-285 | a plain key is only ever written for its own query, by a run without toolchain |
| History.StepKeepsSound | internal/verify/verify.go:123-355 | every step, edits included, keeps: what carries a query's plain key records what running it comes to under a contract the claim had |
| History.HistoryKeepsSound | internal/verify/verify.go:123-355 | so does every history |
| History.HitIsFreshIff | internal/verify/verify.go:123-139 | after any history, with graph, contracts and other texts edited at will, a re-run confirms a hit iff its verdicts meet the present contract (without verdicts: iff none is there or the checker rejects by exit code), and else is an error |
| History.HitIsFresh | internal/verify/verify.go:123-139 | as long as the claim's contract was left alone, every hit is confirmed |
| History.FiledUnderOwnId | cmd/proofctl/main.go:269 | every attestation lies in the file of the claim it names, so reading the directory back by those names loses nothing |
| Agreement.CheckSpeaksTrue | internal/verify/verify.go:244-297 | what the pipeline returns states the status its verdicts stand for |
| Agreement.HistorySpeaksTrue | internal/verify/verify.go:244-297 | after any history whose replays are truthful, every outcome field states what the verdicts stand for |
| Agreement.TruthfulHistoryAgrees | internal/status/reasons.go:25-57 | after such a history both status projections and the gate's own decision agree on every claim |
| Agreement.HistoryIsV2 | internal/release/gate.go:68-78 | if every checker recorded speaks protocol 2, and no group was checked and no shadow compiled, no attestation is one of an earlier protocol |
| Agreement.ReplaySplitsIff | cmd/proofctl/cmd_replay.go:386-413 | after any history, a replay splits the projections on its claim iff its checker speaks protocol 2 and did not report all-pass verdicts |
| Agreement.BatchReplaySplits | cmd/proofctl/cmd_replay.go:1036-1054 | after any history, a batch replay of a protocol 2 claim leaves it accepted by outcome and rejected by verdicts, and no policy lets the release pass |
| Agreement.GroupCheckBlocksRelease | cmd/proofctl/cmd_verify.go:188-193 | after any history, a group check that writes anything makes the gate refuse every release |
| Agreement.ShadowsReplaceChecks | cmd/proofctl/cmd_compile.go:147-164 | after any history, a shadow compilation right after a check replaces what it wrote, and no policy lets the release pass |
| Json.Decoder.ScanOne | internal/ir/decode.go:79-99 | the stateful scanner stands after one value, or reports the error, as the scan function says |
| Json.Decoder.ScanMembers | internal/ir/decode.go:103-130 | the same for the rest of an object |
| Json.Decoder.ScanElems | internal/ir/decode.go:133-144 | the same for the rest of an array |
| Json.CheckDuplicateKeys | internal/ir/decode.go:70-75 | errs iff the scan of the whole stream errs |
| Json.ScanDecides | internal/ir/decode.go:68-144 | on the tokens of any value followed by anything: consumes exactly the value if no object at any depth repeats a name, and otherwise reports a repeated name |
| Json.TruncatedEnds | internal/ir/decode.go:79-144 | a stream that breaks off anywhere within a value is reported as ended |
| Json.OddNameReported | internal/ir/decode.go:103-115 | a member whose name is not a string is reported as such |
| Canonical.SortValue | internal/ir/canonical.go:53-74 | the recursive sort returns the same value: the order of keys comes from marshalling |
| Canonical.DecodeLastWins | internal/ir/canonical.go:42-51 | of members with the same name, decoding keeps the last |
| Canonical.DecodeMarshal | internal/ir/canonical.go:42-51 | decoding undoes marshalling |
| Canonical.MarshalIsNormal | internal/ir/canonical.go:16-24 | marshalled documents have distinct names in dictionary order at every depth |
| Canonical.TokensInjective | internal/ir/canonical.go:42-51 | a token stream starts with the tokens of at most one value |
| Canonical.CanonicalEqualIff | internal/ir/canonical.go:16-51 | two documents encode equally iff they decode to the same value |
| Canonical.CanonicalIdempotent | internal/ir/canonical.go:16-51 | any document written as a canonical encoding encodes to itself and is in normal form |
| Canonical.CanonicalPassesScan | internal/ir/canonical.go:16-51 | the duplicate-name scanner accepts every canonical encoding |
| Canonical.DecodeEqualIffSame | internal/ir/canonical.go:42-51 | without repeated names, two documents decode equally iff they differ only in member order, at any depth |
| Canonical.CanonicalDecides | internal/ir/canonical.go:16-51 | without repeated names, two documents encode equally iff they differ only in member order, at any depth |
| Cas.PathRoundTrip | internal/cas/cas.go:145-148 | splitting a digest into directory and file is reversible |
| Cas.TrimIff | cmd/proofctl/cmd_cas.go:422-431 | the prefix is taken off where there is one, and other texts are left alone |
| Cas.Store.StoreBlob | internal/cas/cas.go:41-87 | adds the blob under its digest unless something is there already; a well-addressed store stays so |
| Cas.Store.ParseDigest | internal/cas/cas.go:153-162 | accepts exactly the prefix followed by 64 lowercase hex characters |
| Cas.Store.Open | internal/cas/cas.go:90-104 | yields what lies at the path of a well-formed digest iff something does; in a well-addressed store that is content of that digest, and none is missed |
| Cas.Store.Verify | internal/cas/cas.go:108-143 | accepts iff a blob of that name, size and content digest is stored, in any store, tampered with or not |
| Cas.VerifiesIff | internal/cas/cas.go:108-162 | a descriptor verifies iff its digest is the prefix and 64 lowercase hex characters and, at the path they name, lies a blob of its size that hashes to them |
| Cas.Store.Referenced | cmd/proofctl/cmd_cas.go:416-434 | a hex name is referenced iff some evidence of the graph, if it could be read, or of an attestation has as digest the prefix and the name, or the name if that does not itself begin with the prefix |
| Cas.Store.Candidates | cmd/proofctl/cmd_cas.go:459-485 | lists every unreferenced blob once, with its size |
| Cas.Store.Delete | cmd/proofctl/cmd_cas.go:501-516 | removes the rebuilt paths of all candidates but those that resist; an absent path counts as deleted |
| Cas.Store.Gc | cmd/proofctl/cmd_cas.go:405-516 | leaves referenced and resisting blobs and those in directories of another name length, or everything on a dry run or without confirmation; freed bytes are the drop in size plus what was stranded |
| Cas.Store.CollectGarbage | cmd/proofctl/cmd_cas.go:405-516 | the whole command: after a confirmed collection a blob is there iff it was and evidence mentions it, or it resists, or lies in a directory of another name length |
| Cas.ReferencedImportStays | cmd/proofctl/cmd_cas.go:416-516 | an imported blob whose digest some evidence of graph or attestations carries survives a collection with the set of references gathered from them |
| Cas.RebuiltIff | cmd/proofctl/cmd_cas.go:472-502 | the rebuilt path is the listed one iff the directory name has two characters |
| Cas.CollectsAllIff | cmd/proofctl/cmd_cas.go:459-516 | a collection leaves just what it should iff unreferenced blobs that do not resist lie in such directories |
| Cas.ReportsDropIff | cmd/proofctl/cmd_cas.go:501-516 | it reports what it freed iff nothing but empty blobs is stranded |
| Cas.ThreeCharacterDirectory | cmd/proofctl/cmd_cas.go:472-511 | a blob that is listed, reported as freed and still there |
| Cas.CandidateSizes | cmd/proofctl/cmd_cas.go:501-516 | the sizes listed add up to what a collection is meant to free |
| Cas.HistoryWellAddressed | internal/cas/cas.go:41-87 | after any history of imports and collections every blob hashes to its name and came from an import |
| Cas.ImportedVerifies | internal/cas/cas.go:106-143 | an imported blob referenced by every later collection is still stored, and verifies unless the history imported other content with the same digest |
| Cas.CollectExact | cmd/proofctl/cmd_cas.go:459-516 | without removal errors exactly the referenced blobs remain iff unreferenced ones lie in two-character directories, as in a well-addressed store; a second collection changes nothing |

## Left out

- Subprocesses, containers, timeouts, bridges, git hooks, scaffolding, printing and JSON reports: input and output around the decisions.
- Ed25519, key files and SHA-256 themselves: parameters, see above.
- Temp files, renames, fsync and symlink resolution: the attestation directory and the store are maps updated in one step.
- Go's JSON lexer, string escapes, struct decoding, unknown-field and trailing-data rejection, and the size limit: the model starts at token streams and value trees. The lexer's own refusal of mismatched brackets is therefore not modelled either; the scanner lemma speaks of streams that begin with a value's tokens.
- The self-digest round trip of signed attestations: the digest is an uninterpreted function of the attestation.
- Blocker and error texts: a condition result carries the set of offences its text lists. Only the errors of a cache look-up are modelled as texts, because the code goes by them.
- Aliasing of claim records: Go stores pointers; the graph here holds values, so a caller changing a claim after insertion is not modelled.
- Claims and evidence sizes are unbounded integers; the source's counters cannot overflow on graphs of at most 10000 claims.
- `DAG.Frontier`, the contents of snapshot and manifest, snapshot diff, contract lint and the language adapters: they would only add easy members.
- Flag parsing of `attest` and `replay`, the generators and checkers they start, and automatic import: a replayed piece of evidence enters as what came of it. The metadata a replay derives from its own arguments is a parameter.
- Shadowing.WriteShadows: a write error, at which the source gives up half way through the claims, is not modelled, and the table of known defects is a parameter.
- Gate.GateCheck: says which blockers there are, not how they are ordered in the list; the source takes them from a map in part.
- Policy.Evaluate: the same.
- Dag.DAG.Levels: requires a resolved, acyclic, repetition-free graph, because on any other the source's loop does not end.
- Conditions.CheckEach: one loop stands for the five loops that put a single test to every attestation; the test is its own method. `TrimSpace` is modelled for ASCII white space.
- Pipeline.Store.DecideOutcome: the second look at version and claim id after validation (`checkClosureBinding`) repeats what validation has established and is not a branch of its own.
- Pipeline.Store.Run: whether the stored attestation can be opened and decoded is reported by each run, not a state of the directory; the two freshness snapshots share one success flag.
- Pipeline.Store.LoadCached: its own check of the claim id is left to `Run`, its only caller, which has made it; the text after the phrase of a bad signature is dropped.
- Pipeline.Store.Invalidate: the identifiers are a parameter; `--all` adds those found in the directory.
- Cas.Store.Gc: requires file and directory names to be non-empty, as a file system has them.
- Cas.Store.Delete: requires the same.
- Cas.Store.StoreBlob: read and write errors, after which nothing is stored, are not modelled.
