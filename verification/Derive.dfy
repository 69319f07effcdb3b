/**
 The state machine of a claim, and its projection over a whole graph: every claim's
 state is derived from its own facts and the derived states of its dependencies.
 The source derives one claim at a time; the fold along a topological order is this
 model's reading of "for every node in the DAG" (derive.go, package comment).
 */
module Derive {
  import opened Graph
  import Dag
  import Ir
  import Sorting = TopoSort

  datatype ClaimState = Open | Candidate | LocallyVerified | GloballyVerified | Reproducible | Released
                      | Stale | Blocked | Unrecognised(text: string)

  datatype Evidence = NoEvidence | SomeEvidence | AllEvidence | OtherEvidence(code: int)

  datatype ObligationSet = NoResult | Mismatch | SomeFail | AllPass | OtherCode(code: int)

  /** What is known about one claim apart from its dependencies. */
  datatype Facts = Facts(
    currentIdentity: string,
    attestationIdentity: string,
    evidence: Evidence,
    obligations: ObligationSet,
    hasReplay: bool,
    isReleaseRoot: bool,
    hasSignedManifest: bool,
    runtimeClass: string)

  type States = map<string, ClaimState>

  datatype DeriveInput = DeriveInput(facts: Facts, depStates: States, requiredDepStates: States)

  function Ordinal(s: ClaimState): int {
    match s
    case Blocked => -1
    case Stale => -1
    case Open => 0
    case Candidate => 1
    case LocallyVerified => 2
    case GloballyVerified => 3
    case Reproducible => 4
    case Released => 5
    case Unrecognised(_) => -2
  }

  predicate AtLeast(actual: ClaimState, required: ClaimState) {
    Ordinal(actual) >= Ordinal(required)
  }

  predicate StaleIdentity(f: Facts) {
    f.attestationIdentity != "" && f.attestationIdentity != f.currentIdentity
  }

  /** Any evidence code but these two counts as evidence being there. */
  predicate LacksEvidence(f: Facts) {
    f.evidence == NoEvidence || f.evidence == SomeEvidence
  }

  predicate NativeRuntime(f: Facts) {
    f.runtimeClass == "native-dev" || f.runtimeClass == "native"
  }

  ghost predicate SomeDepBlocked(input: DeriveInput) {
    exists d :: d in input.depStates && input.depStates[d] == Blocked
  }

  ghost predicate DepsReady(input: DeriveInput) {
    forall d :: d in input.requiredDepStates ==>
      d in input.depStates && AtLeast(input.depStates[d], input.requiredDepStates[d])
  }

  /** The rules in priority order. */
  ghost function StateOf(input: DeriveInput): ClaimState {
    var f := input.facts;
    if StaleIdentity(f) then Stale
    else if SomeDepBlocked(input) then Blocked
    else if f.obligations == NoResult then (if LacksEvidence(f) then Open else Candidate)
    else if f.obligations != AllPass then Blocked
    else if NativeRuntime(f) || !DepsReady(input) then LocallyVerified
    else if f.isReleaseRoot && f.hasSignedManifest then Released
    else if f.hasReplay then Reproducible
    else GloballyVerified
  }

  /** What "at least" means, state by state: BLOCKED and STALE rank alike below OPEN, and a state the
      kernel does not know below everything it knows. */
  lemma AtLeastIff(actual: ClaimState, required: ClaimState)
    ensures AtLeast(actual, required) <==>
            match required
            case Released => actual == Released
            case Reproducible => actual == Reproducible || actual == Released
            case GloballyVerified => actual == GloballyVerified || actual == Reproducible || actual == Released
            case LocallyVerified => !actual.Unrecognised? && actual !in {Blocked, Stale, Open, Candidate}
            case Candidate => !actual.Unrecognised? && actual !in {Blocked, Stale, Open}
            case Open => !actual.Unrecognised? && actual !in {Blocked, Stale}
            case Blocked => !actual.Unrecognised?
            case Stale => !actual.Unrecognised?
            case Unrecognised(_) => true
  {
  }

  /** When each state is derived, one by one. */
  lemma StateIff(input: DeriveInput)
    ensures var f, s := input.facts, StateOf(input);
            var current := f.attestationIdentity == "" || f.attestationIdentity == f.currentIdentity;
            var blockedDep := exists d :: d in input.depStates && input.depStates[d] == Blocked;
            var open := current && !blockedDep;
            var native := f.runtimeClass == "native" || f.runtimeClass == "native-dev";
            var ready := forall d :: d in input.requiredDepStates ==>
                           d in input.depStates && AtLeast(input.depStates[d], input.requiredDepStates[d]);
            var globally := open && f.obligations == AllPass && !native && ready;
            && (s == Stale <==> !current)
            && (s == Blocked <==> current && (blockedDep || (f.obligations != NoResult && f.obligations != AllPass)))
            && (s == Open <==>
                open && f.obligations == NoResult && (f.evidence == NoEvidence || f.evidence == SomeEvidence))
            && (s == Candidate <==>
                open && f.obligations == NoResult && f.evidence != NoEvidence && f.evidence != SomeEvidence)
            && (s == LocallyVerified <==> open && f.obligations == AllPass && (native || !ready))
            && (AtLeast(s, GloballyVerified) <==> globally)
            && (s == Released <==> globally && f.isReleaseRoot && f.hasSignedManifest)
            && (s == Reproducible <==> globally && f.hasReplay && !(f.isReleaseRoot && f.hasSignedManifest))
            && (s == GloballyVerified <==> globally && !f.hasReplay && !(f.isReleaseRoot && f.hasSignedManifest))
  {
  }

  method DeriveClaimState(input: DeriveInput) returns (s: ClaimState)
    ensures s == StateOf(input)
  {
    var f := input.facts;
    if f.attestationIdentity != "" && f.attestationIdentity != f.currentIdentity { return Stale; }

    var todo := input.depStates.Keys;
    while todo != {}
      invariant todo <= input.depStates.Keys
      invariant forall d :: d in input.depStates && d !in todo ==> input.depStates[d] != Blocked
    {
      var d :| d in todo;
      todo := todo - {d};
      if input.depStates[d] == Blocked { return Blocked; }
    }

    if f.obligations == SomeFail || f.obligations == Mismatch { return Blocked; }
    if f.obligations == NoResult {
      if f.evidence == NoEvidence || f.evidence == SomeEvidence { return Open; }
      return Candidate;
    }
    if f.obligations != AllPass { return Blocked; }
    if f.runtimeClass == "native-dev" || f.runtimeClass == "native" { return LocallyVerified; }

    var depsReady := true;
    var required := input.requiredDepStates.Keys;
    while required != {} && depsReady
      invariant required <= input.requiredDepStates.Keys
      invariant depsReady ==> forall d :: d in input.requiredDepStates && d !in required ==>
                  d in input.depStates && AtLeast(input.depStates[d], input.requiredDepStates[d])
      invariant !depsReady ==> !DepsReady(input)
    {
      var d :| d in required;
      required := required - {d};
      if d !in input.depStates || !AtLeast(input.depStates[d], input.requiredDepStates[d]) { depsReady := false; }
    }
    if !depsReady { return LocallyVerified; }

    if f.hasReplay {
      if f.isReleaseRoot && f.hasSignedManifest { return Released; }
      return Reproducible;
    }
    if f.isReleaseRoot && f.hasSignedManifest { return Released; }
    return GloballyVerified;
  }

  // ------------------------------------------------------------ whole-graph projection

  type Contracts = map<string, States>

  function InputFor(e: Edges, facts: map<string, Facts>, contracts: Contracts, states: States, id: string): DeriveInput
    requires id in e && id in facts && id in contracts
  {
    DeriveInput(facts[id], map d | d in e[id] && d in states :: states[d], contracts[id])
  }

  ghost predicate Described(e: Edges, facts: map<string, Facts>, contracts: Contracts) {
    e.Keys <= facts.Keys && e.Keys <= contracts.Keys
  }

  /** Every claim's state is the one the rules give for the states of its dependencies. */
  ghost predicate IsProjection(e: Edges, facts: map<string, Facts>, contracts: Contracts, states: States)
    requires Described(e, facts, contracts)
  {
    && states.Keys == e.Keys
    && forall id :: id in e ==> states[id] == StateOf(InputFor(e, facts, contracts, states, id))
  }

  /** Derives the claims one after the other along a topological order. */
  method Project(e: Edges, facts: map<string, Facts>, contracts: Contracts, order: seq<string>) returns (states: States)
    requires Described(e, facts, contracts) && TopoOrder(e, order)
    ensures IsProjection(e, facts, contracts, states)
  {
    hide StateOf;
    states := map[];
    for i := 0 to |order|
      invariant states.Keys == Elems(order[..i]) <= e.Keys
      invariant forall id :: id in states ==> states[id] == StateOf(InputFor(e, facts, contracts, states, id))
    {
      var id := order[i];
      NextIsNew(e, order, i);
      var s := DeriveClaimState(InputFor(e, facts, contracts, states, id));
      forall c | c in states || c == id
        ensures InputFor(e, facts, contracts, states[id := s], c) == InputFor(e, facts, contracts, states, c)
      {
        assert c in Elems(order[..i + 1]);
        InputUndisturbed(e, facts, contracts, states, id, s, c);
      }
      states := states[id := s];
    }
    assert order[..|order|] == order;
  }

  /** Sorts the claims of a graph and derives them: works on exactly the graphs that validate. */
  method ProjectGraph(g: Dag.DAG, facts: map<string, Facts>, contracts: Contracts) returns (states: Ir.Option<States>)
    requires g.Valid() && Described(g.Deps(), facts, contracts)
    ensures states.Some? <==> AllResolved(g.Deps()) && Acyclic(g.Deps())
    ensures states.Some? ==> IsProjection(g.Deps(), facts, contracts, states.value)
  {
    var order := Sorting.TopoSort(g);
    if order.None? { return Ir.None; }
    var e := map c | c in g.claims :: g.claims[c].dependsOn;
    var s := Project(e, facts, contracts, order.value);
    return Ir.Some(s);
  }

  /** No claim derived so far depends on the one derived next. */
  lemma NextIsNew(e: Edges, order: seq<string>, i: nat)
    requires TopoPrefix(e, order) && i < |order|
    ensures order[i] !in Elems(order[..i]) && Elems(order[..i + 1]) == Elems(order[..i]) + {order[i]}
    ensures forall id :: id in order[..i + 1] ==> id in e && order[i] !in e[id]
  {
    var x := order[i];
    assert order[..i + 1] == order[..i] + [x];
    NoDupSnoc(order[..i], x);
    forall id | id in order[..i + 1] ensures id in e && x !in e[id] {
      var k :| 0 <= k < i + 1 && order[..i + 1][k] == id;
      forall d | d in e[id] ensures d != x {
        var j :| 0 <= j < k && order[..k][j] == d;
        assert order[..i][j] == d;
      }
    }
  }

  /** An entry for a claim that `id` does not depend on leaves the input of `id` alone. */
  lemma InputUndisturbed(e: Edges, facts: map<string, Facts>, contracts: Contracts, states: States,
                         x: string, s: ClaimState, id: string)
    requires id in e && id in facts && id in contracts && x !in e[id]
    ensures InputFor(e, facts, contracts, states[x := s], id) == InputFor(e, facts, contracts, states, id)
  {
  }

  /** An improvement of the facts of one claim: identities and runtime stay, the rest gets no worse. */
  predicate Improves(f: Facts, g: Facts) {
    && g.currentIdentity == f.currentIdentity
    && g.attestationIdentity == f.attestationIdentity
    && g.runtimeClass == f.runtimeClass
    && EvidenceRank(f.evidence) <= EvidenceRank(g.evidence)
    && ObligationRank(f.obligations) <= ObligationRank(g.obligations)
    && (f.hasReplay ==> g.hasReplay)
    && (f.isReleaseRoot ==> g.isReleaseRoot)
    && (f.hasSignedManifest ==> g.hasSignedManifest)
  }

  function EvidenceRank(e: Evidence): nat {
    match e case NoEvidence => 0 case SomeEvidence => 1 case _ => 2
  }

  function ObligationRank(o: ObligationSet): nat {
    match o case AllPass => 2 case NoResult => 1 case _ => 0
  }

  /** The chain BLOCKED < STALE < OPEN < ... < RELEASED. */
  function Rank(s: ClaimState): int {
    match s case Blocked => -2 case Stale => -1 case _ => Ordinal(s)
  }

  /** No claim is ever lowered by improving facts anywhere in the graph, under any contracts. */
  lemma ProjectionMonotone(e: Edges, contracts: Contracts,
                           facts: map<string, Facts>, states: States,
                           better: map<string, Facts>, states': States, id: string)
    requires AllResolved(e) && Acyclic(e) && id in e
    requires Described(e, facts, contracts) && Described(e, better, contracts)
    requires forall c :: c in e ==> Improves(facts[c], better[c])
    requires IsProjection(e, facts, contracts, states) && IsProjection(e, better, contracts, states')
    ensures Rank(states[id]) <= Rank(states'[id])
  {
    var order := ExtendTopoPrefix(e, []);
    assert id in Elems(order);
    var i :| 0 <= i < |order| && order[i] == id;
    MonotoneAt(e, order, contracts, facts, states, better, states', i);
  }

  lemma {:induction false} MonotoneAt(e: Edges, order: seq<string>, contracts: Contracts,
                                      facts: map<string, Facts>, states: States,
                                      better: map<string, Facts>, states': States, i: nat)
    requires TopoOrder(e, order) && i < |order|
    requires Described(e, facts, contracts) && Described(e, better, contracts)
    requires forall c :: c in e ==> Improves(facts[c], better[c])
    requires IsProjection(e, facts, contracts, states) && IsProjection(e, better, contracts, states')
    ensures Rank(states[order[i]]) <= Rank(states'[order[i]])
  {
    hide StateOf, Rank, Improves;
    var id := order[i];
    forall d | d in e[id]
      ensures d in e && Rank(states[d]) <= Rank(states'[d]) && !states[d].Unrecognised? && !states'[d].Unrecognised?
    {
      var k :| 0 <= k < i && order[..i][k] == d;
      MonotoneAt(e, order, contracts, facts, states, better, states', k);
      StateRecognised(InputFor(e, facts, contracts, states, d));
      StateRecognised(InputFor(e, better, contracts, states', d));
    }
    StateMonotone(InputFor(e, facts, contracts, states, id), InputFor(e, better, contracts, states', id));
  }

  lemma StateRecognised(input: DeriveInput)
    ensures !StateOf(input).Unrecognised?
  {
  }

  /** One derivation is monotone in its facts and in the states of its dependencies. */
  lemma StateMonotone(a: DeriveInput, b: DeriveInput)
    requires Improves(a.facts, b.facts) && a.requiredDepStates == b.requiredDepStates
    requires a.depStates.Keys == b.depStates.Keys
    requires forall d :: d in a.depStates ==> !a.depStates[d].Unrecognised? && !b.depStates[d].Unrecognised?
    requires forall d :: d in a.depStates ==> Rank(a.depStates[d]) <= Rank(b.depStates[d])
    ensures Rank(StateOf(a)) <= Rank(StateOf(b))
  {
    if SomeDepBlocked(b) {
      var d :| d in b.depStates && b.depStates[d] == Blocked;
      assert a.depStates[d] == Blocked;
    }
    if DepsReady(a) {
      forall d | d in b.requiredDepStates
        ensures d in b.depStates && AtLeast(b.depStates[d], b.requiredDepStates[d])
      {
        assert Ordinal(a.depStates[d]) <= Ordinal(b.depStates[d]);
      }
    }
  }

  /** A validated graph has only one projection, so it does not matter which topological order was folded. */
  lemma ProjectionUnique(e: Edges, facts: map<string, Facts>, contracts: Contracts, s: States, t: States)
    requires AllResolved(e) && Acyclic(e) && Described(e, facts, contracts)
    requires IsProjection(e, facts, contracts, s) && IsProjection(e, facts, contracts, t)
    ensures s == t
  {
    var order := ExtendTopoPrefix(e, []);
    forall id | id in e ensures s[id] == t[id] {
      assert id in Elems(order);
      var i :| 0 <= i < |order| && order[i] == id;
      UniqueAt(e, order, facts, contracts, s, t, i);
    }
  }

  lemma {:induction false} UniqueAt(e: Edges, order: seq<string>, facts: map<string, Facts>, contracts: Contracts,
                                    s: States, t: States, i: nat)
    requires TopoOrder(e, order) && Described(e, facts, contracts) && i < |order|
    requires IsProjection(e, facts, contracts, s) && IsProjection(e, facts, contracts, t)
    ensures s[order[i]] == t[order[i]]
  {
    hide StateOf, NoDup;
    var id := order[i];
    forall d | d in e[id] ensures d in e && s[d] == t[d] {
      var k :| 0 <= k < i && order[..i][k] == d;
      UniqueAt(e, order, facts, contracts, s, t, k);
    }
    assert InputFor(e, facts, contracts, s, id) == InputFor(e, facts, contracts, t, id);
  }

  /** Contracts that ask for GLOBALLY_VERIFIED, or more, of every dependency. */
  ghost predicate DemandGlobal(e: Edges, contracts: Contracts)
    requires e.Keys <= contracts.Keys
  {
    forall id, d :: id in e && d in e[id] ==> d in contracts[id] && AtLeast(contracts[id][d], GloballyVerified)
  }

  /** What a claim's own facts must be for it to be globally verified. */
  predicate Sound(f: Facts) {
    && f.obligations == AllPass
    && (f.attestationIdentity == "" || f.attestationIdentity == f.currentIdentity)
    && f.runtimeClass != "native" && f.runtimeClass != "native-dev"
  }

  /** A globally verified claim rests on sound, globally verified claims all the way down;
      this holds on every projection, cyclic or dangling edges included. */
  lemma GlobalRestsOnGlobal(e: Edges, facts: map<string, Facts>, contracts: Contracts, states: States, id: string,
                            d: string)
    requires Described(e, facts, contracts) && IsProjection(e, facts, contracts, states) && DemandGlobal(e, contracts)
    requires id in e && AtLeast(states[id], GloballyVerified) && Reaches(e, id, d)
    ensures d in e && AtLeast(states[d], GloballyVerified) && Sound(facts[d])
  {
    var p :| PathFromTo(e, p, id, d);
    var i := 0;
    while i < |p| - 1
      invariant 0 <= i < |p| && p[i] in e && AtLeast(states[p[i]], GloballyVerified)
    {
      var input := InputFor(e, facts, contracts, states, p[i]);
      assert DepsReady(input);
      assert p[i + 1] in contracts[p[i]];
      i := i + 1;
    }
  }

  /** Exactly when a claim is at GLOBALLY_VERIFIED or above, under contracts that demand it of
      precisely the direct dependencies. */
  lemma GlobalIff(e: Edges, facts: map<string, Facts>, contracts: Contracts, states: States, id: string)
    requires Described(e, facts, contracts) && IsProjection(e, facts, contracts, states) && id in e
    requires forall c :: c in e ==> contracts[c] == map d | d in e[c] :: GloballyVerified
    ensures AtLeast(states[id], GloballyVerified) <==>
            Sound(facts[id]) && forall d :: d in e[id] ==> d in e && AtLeast(states[d], GloballyVerified)
  {
    var input := InputFor(e, facts, contracts, states, id);
    assert input.requiredDepStates.Keys == Elems(e[id]);
    if forall d :: d in e[id] ==> d in e && AtLeast(states[d], GloballyVerified) {
      assert DepsReady(input);
    } else {
      var d :| d in e[id] && !(d in e && AtLeast(states[d], GloballyVerified));
      assert d in input.requiredDepStates;
    }
  }

  // ------------------------------------------------------------ what separates the states on a graph

  /** Above GLOBALLY_VERIFIED, on any projection: a signed manifest makes a root RELEASED, replay makes any
      other claim REPRODUCIBLE. */
  lemma UpperStatesIff(e: Edges, facts: map<string, Facts>, contracts: Contracts, states: States, id: string)
    requires Described(e, facts, contracts) && IsProjection(e, facts, contracts, states) && id in e
    ensures states[id] == Released <==>
            AtLeast(states[id], GloballyVerified) && facts[id].isReleaseRoot && facts[id].hasSignedManifest
    ensures states[id] == Reproducible <==>
            AtLeast(states[id], GloballyVerified) && states[id] != Released && facts[id].hasReplay
    ensures states[id] == GloballyVerified <==>
            AtLeast(states[id], GloballyVerified) && states[id] != Released && !facts[id].hasReplay
  {
    StateIff(InputFor(e, facts, contracts, states, id));
  }

  /** Below it, on claims that are neither BLOCKED nor STALE: without a result the evidence decides between
      OPEN and CANDIDATE; with one, a native runtime or a dependency short of its required state keeps
      the claim LOCALLY_VERIFIED. */
  lemma LowerStatesIff(e: Edges, facts: map<string, Facts>, contracts: Contracts, states: States, id: string)
    requires Described(e, facts, contracts) && IsProjection(e, facts, contracts, states) && id in e
    requires states[id] != Blocked && states[id] != Stale
    ensures facts[id].obligations == NoResult || facts[id].obligations == AllPass
    ensures states[id] == Open <==>
            facts[id].obligations == NoResult && facts[id].evidence in {NoEvidence, SomeEvidence}
    ensures states[id] == Candidate <==>
            facts[id].obligations == NoResult && facts[id].evidence !in {NoEvidence, SomeEvidence}
    ensures states[id] == LocallyVerified <==>
            && facts[id].obligations == AllPass
            && (facts[id].runtimeClass in {"native", "native-dev"}
                || exists d :: d in contracts[id]
                               && !(d in e[id] && d in e && AtLeast(states[d], contracts[id][d])))
  {
    var input := InputFor(e, facts, contracts, states, id);
    StateIff(input);
    assert forall d :: d in input.depStates <==> d in e[id] && d in e;
  }

  /** The chain of the ranks by which the projection is monotone. */
  lemma RankChain()
    ensures Rank(Blocked) < Rank(Stale) < Rank(Open) < Rank(Candidate) < Rank(LocallyVerified)
            < Rank(GloballyVerified) < Rank(Reproducible) < Rank(Released)
  {
  }

  // ------------------------------------------------------------ what BLOCKED means on a graph

  predicate Bad(f: Facts) {
    f.obligations != NoResult && f.obligations != AllPass
  }

  /** A dependency chain of claims with current identities that ends at a claim whose own obligations fail. */
  ghost predicate FailChain(e: Edges, facts: map<string, Facts>, p: seq<string>) {
    && IsPath(e, p)
    && (forall i :: 0 <= i < |p| ==> p[i] in e && p[i] in facts && !StaleIdentity(facts[p[i]]))
    && Bad(facts[p[|p| - 1]])
  }

  /** A claim is BLOCKED exactly when such a chain starts at it (so a stale claim in between
      shields what lies above it), and STALE exactly when its own identity changed. */
  lemma BlockedIffChain(e: Edges, facts: map<string, Facts>, contracts: Contracts, states: States, id: string)
    requires AllResolved(e) && Acyclic(e) && id in e
    requires Described(e, facts, contracts) && IsProjection(e, facts, contracts, states)
    ensures states[id] == Blocked <==> exists p :: FailChain(e, facts, p) && p[0] == id
    ensures states[id] == Stale <==> StaleIdentity(facts[id])
  {
    if states[id] == Blocked {
      var order := ExtendTopoPrefix(e, []);
      assert id in Elems(order);
      var i :| 0 <= i < |order| && order[i] == id;
      var p := ChainFromBlocked(e, order, facts, contracts, states, i);
    }
    if p :| FailChain(e, facts, p) && p[0] == id {
      ChainBlocks(e, facts, contracts, states, p);
    }
  }

  lemma {:induction false} ChainFromBlocked(e: Edges, order: seq<string>, facts: map<string, Facts>,
                                            contracts: Contracts,
                                            states: States, i: nat) returns (p: seq<string>)
    requires TopoOrder(e, order) && Described(e, facts, contracts) && IsProjection(e, facts, contracts, states)
    requires i < |order| && states[order[i]] == Blocked
    ensures FailChain(e, facts, p) && p[0] == order[i]
  {
    hide FailChain, DepsReady, NoDup;
    var id := order[i];
    var input := InputFor(e, facts, contracts, states, id);
    if SomeDepBlocked(input) {
      var d :| d in input.depStates && input.depStates[d] == Blocked;
      var k :| 0 <= k < i && order[..i][k] == d;
      var q := ChainFromBlocked(e, order, facts, contracts, states, k);
      FailChainCons(e, facts, id, q);
      p := [id] + q;
    } else {
      p := [id];
      FailChainOne(e, facts, id);
    }
  }

  lemma FailChainOne(e: Edges, facts: map<string, Facts>, x: string)
    requires x in e && x in facts && !StaleIdentity(facts[x]) && Bad(facts[x])
    ensures FailChain(e, facts, [x])
  {
  }

  lemma FailChainCons(e: Edges, facts: map<string, Facts>, x: string, q: seq<string>)
    requires FailChain(e, facts, q) && x in e && x in facts && q[0] in e[x] && !StaleIdentity(facts[x])
    ensures FailChain(e, facts, [x] + q) && ([x] + q)[0] == x
  {
  }

  lemma {:induction false} ChainBlocks(e: Edges, facts: map<string, Facts>, contracts: Contracts, states: States,
                                       p: seq<string>)
    requires Described(e, facts, contracts) && IsProjection(e, facts, contracts, states) && FailChain(e, facts, p)
    ensures states[p[0]] == Blocked
  {
    if |p| > 1 {
      ChainBlocks(e, facts, contracts, states, p[1..]);
      var input := InputFor(e, facts, contracts, states, p[0]);
      assert input.depStates[p[1]] == Blocked;
    }
  }
}
