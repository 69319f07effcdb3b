/**
 Checker protocol 2: strict validation of one output, and the merge of the outputs
 of several evidence runs into the one that is validated and decided.
 */
module Protocol {
  import opened Ir
  import opened Graph
  import opened StatusProjection

  const VERSION := 2

  datatype CheckerOutput = CheckerOutput(
    protocolVersion: int,
    claimId: string,
    results: seq<ObligationResult>,
    toolchain: map<string, string>)

  datatype OutputError = WrongVersion | WrongClaim | BadVerdict(index: nat)
                       | Duplicate(ids: set<string>) | MissingIds(ids: set<string>) | ExtraIds(ids: set<string>)

  ghost function Ids(results: seq<ObligationResult>): seq<string> {
    seq(|results|, i requires 0 <= i < |results| => results[i].id)
  }

  ghost predicate LegalVerdicts(results: seq<ObligationResult>) {
    forall i :: 0 <= i < |results| ==> results[i].verdict == PASS || results[i].verdict == FAIL
  }

  /** Every expected obligation is answered exactly once and nothing else is answered. */
  ghost predicate ExactSet(results: seq<ObligationResult>, expected: seq<string>) {
    NoDup(Ids(results)) && Elems(Ids(results)) == Elems(expected)
  }

  /** A valid output; without a contract (None) the obligation set is not checked. */
  ghost predicate ValidOutput(out: CheckerOutput, claimId: string, expected: Option<seq<string>>) {
    && out.protocolVersion == VERSION
    && out.claimId == claimId
    && LegalVerdicts(out.results)
    && (expected.Some? ==> ExactSet(out.results, expected.value))
  }

  /** Every expected obligation has an answer, every answer is to an expected obligation, and no two
      answers are to the same one. */
  lemma ExactSetIff(results: seq<ObligationResult>, expected: seq<string>)
    ensures ExactSet(results, expected) <==>
            && (forall o :: o in expected ==> exists i :: 0 <= i < |results| && results[i].id == o)
            && (forall i :: 0 <= i < |results| ==> results[i].id in expected)
            && (forall i, j :: 0 <= i < j < |results| ==> results[i].id != results[j].id)
  {
    var ids := Ids(results);
    assert forall i :: 0 <= i < |results| ==> ids[i] == results[i].id;
    if ExactSet(results, expected) {
      forall o | o in expected ensures exists i :: 0 <= i < |results| && results[i].id == o {
        assert o in Elems(expected);
        var i :| 0 <= i < |ids| && ids[i] == o;
      }
      forall i | 0 <= i < |results| ensures results[i].id in expected {
        assert ids[i] in Elems(ids);
      }
      forall i, j | 0 <= i < j < |results| ensures results[i].id != results[j].id {
        assert ids[i] != ids[j];
      }
    }
    if && (forall o :: o in expected ==> exists i :: 0 <= i < |results| && results[i].id == o)
       && (forall i :: 0 <= i < |results| ==> results[i].id in expected) {
      forall o ensures o in Elems(ids) <==> o in Elems(expected) {
        if o in expected {
          var i :| 0 <= i < |results| && results[i].id == o;
          assert ids[i] == o;
        }
      }
    }
  }

  ghost function Repeated(ids: seq<string>): set<string> {
    set x | x in ids && multiset(ids)[x] > 1
  }

  method CountIds(results: seq<ObligationResult>) returns (returned: map<string, nat>)
    ensures returned.Keys == Elems(Ids(results))
    ensures forall x :: x in returned ==> returned[x] == multiset(Ids(results))[x]
  {
    returned := map[];
    ghost var ids := Ids(results);
    for i := 0 to |results|
      invariant returned.Keys == Elems(ids[..i])
      invariant forall x :: x in returned ==> returned[x] == multiset(ids[..i])[x]
    {
      var id := results[i].id;
      PrefixGrows(ids, i);
      returned := returned[id := (if id in returned then returned[id] else 0) + 1];
    }
    assert ids[..|results|] == ids;
  }

  lemma {:induction false} NoRepeatIffNoDup(ids: seq<string>)
    ensures Repeated(ids) == {} <==> NoDup(ids)
  {
    if ids != [] {
      var t, x := ids[..|ids| - 1], ids[|ids| - 1];
      assert ids == t + [x];
      NoRepeatIffNoDup(t);
      NoDupSnoc(t, x);
      assert multiset(ids) == multiset(t) + multiset{x};
      assert x in t <==> multiset(t)[x] > 0;
      if x in t {
        assert x in Repeated(ids);
      } else {
        assert Repeated(ids) == Repeated(t);
      }
    }
  }

  method ValidateOutput(out: CheckerOutput, claimId: string, expectedIds: Option<seq<string>>)
    returns (err: Option<OutputError>)
    ensures err.None? <==> ValidOutput(out, claimId, expectedIds)
    ensures err == Some(WrongVersion) <==> out.protocolVersion != 2
    ensures err == Some(WrongClaim) <==> out.protocolVersion == 2 && out.claimId != claimId
    ensures (err.Some? && err.value.BadVerdict?) <==>
            && out.protocolVersion == 2 && out.claimId == claimId
            && exists i :: && 0 <= i < |out.results|
                           && out.results[i].verdict != "pass" && out.results[i].verdict != "fail"
    ensures err.Some? && err.value.BadVerdict? ==>
              && err.value.index < |out.results| && out.results[err.value.index].verdict !in {PASS, FAIL}
              && forall i :: 0 <= i < err.value.index ==> out.results[i].verdict in {PASS, FAIL}
    ensures err.Some? && err.value.Duplicate? ==> err.value.ids == Repeated(Ids(out.results)) != {}
    ensures err.Some? && (err.value.MissingIds? || err.value.ExtraIds?) ==> NoDup(Ids(out.results))
    ensures err.Some? && err.value.MissingIds? ==>
              expectedIds.Some? && err.value.ids == Elems(expectedIds.value) - Elems(Ids(out.results)) != {}
    ensures err.Some? && err.value.ExtraIds? ==>
              expectedIds.Some? && Elems(expectedIds.value) < Elems(Ids(out.results))
              && err.value.ids == Elems(Ids(out.results)) - Elems(expectedIds.value)
  {
    if out.protocolVersion != VERSION { return Some(WrongVersion); }
    if out.claimId != claimId { return Some(WrongClaim); }
    for i := 0 to |out.results|
      invariant forall k :: 0 <= k < i ==> out.results[k].verdict == PASS || out.results[k].verdict == FAIL
    {
      if out.results[i].verdict != PASS && out.results[i].verdict != FAIL { return Some(BadVerdict(i)); }
    }
    if expectedIds.None? { return None; }
    var setErr := CheckSet(out.results, expectedIds.value);
    return setErr;
  }

  method ToSet(ids: seq<string>) returns (s: set<string>)
    ensures s == Elems(ids)
  {
    s := {};
    for i := 0 to |ids|
      invariant s == Elems(ids[..i])
    {
      assert ids[..i + 1] == ids[..i] + [ids[i]];
      s := s + {ids[i]};
    }
    assert ids[..|ids|] == ids;
  }

  /** The exact-set part: repetitions first, then missing, then extra identifiers. */
  method CheckSet(results: seq<ObligationResult>, expectedIds: seq<string>) returns (err: Option<OutputError>)
    ensures err.None? <==> ExactSet(results, expectedIds)
    ensures err.Some? ==>
              || (err.value == Duplicate(Repeated(Ids(results))) && Repeated(Ids(results)) != {})
              || (err.value == MissingIds(Elems(expectedIds) - Elems(Ids(results))) && err.value.ids != {})
              || (err.value == ExtraIds(Elems(Ids(results)) - Elems(expectedIds))
                  && Elems(expectedIds) < Elems(Ids(results)))
    ensures err.Some? ==> (err.value.Duplicate? <==> !NoDup(Ids(results)))
  {
    var expected := ToSet(expectedIds);
    var returned := CountIds(results);
    NoRepeatIffNoDup(Ids(results));
    var duplicates := set id | id in returned && returned[id] > 1;
    assert duplicates == Repeated(Ids(results));
    if duplicates != {} { return Some(Duplicate(duplicates)); }
    var missing := set id | id in expected && id !in returned;
    assert missing == Elems(expectedIds) - Elems(Ids(results));
    var extra := set id | id in returned && id !in expected;
    assert extra == Elems(Ids(results)) - Elems(expectedIds);
    if missing != {} { return Some(MissingIds(missing)); }
    forall x | x in Elems(expectedIds) ensures x in Elems(Ids(results)) {
      assert x !in missing;
    }
    if extra != {} { return Some(ExtraIds(extra)); }
    return None;
  }

  method AllObligationsPass(out: CheckerOutput) returns (ok: bool)
    ensures ok <==> AllPassing(out.results)
  {
    if |out.results| == 0 { return false; }
    for i := 0 to |out.results|
      invariant forall k :: 0 <= k < i ==> out.results[k].verdict == PASS
    {
      if out.results[i].verdict != PASS { return false; }
    }
    return true;
  }
}
