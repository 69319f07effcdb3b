/**
 The canonical encoding used for digests: decode a document into generic values, sort
 them, and marshal them with object keys in order.
 */
module Canonical {
  import opened Graph
  import opened StringOrder
  import opened Json

  /** Go's generic JSON value: objects are maps, so a repeated name keeps its last value. */
  datatype Any = AText(s: string) | AScalar(literal: string) | AArray(elems: seq<Any>) | AMap(m: map<string, Any>)

  function Decode(v: Json): Any
    decreases v, 0
  {
    match v
    case JText(s) => AText(s)
    case JScalar(l) => AScalar(l)
    case JArray(elems) => AArray(DecodeElems(elems))
    case JObject(members) => AMap(DecodeMembers(members))
  }

  function DecodeElems(elems: seq<Json>): (r: seq<Any>)
    ensures |r| == |elems|
    decreases elems, 1
  {
    if elems == [] then [] else [Decode(elems[0])] + DecodeElems(elems[1..])
  }

  /** Later members overwrite earlier ones of the same name. */
  function DecodeMembers(members: seq<Member>): map<string, Any>
    decreases members, 1
  {
    if members == [] then map[]
    else map[members[0].name := Decode(members[0].value)] + DecodeMembers(members[1..])
  }

  // ------------------------------------------------------------ sorted keys

  lemma {:induction false} LeastExists(s: set<string>)
    requires s != {}
    ensures exists x :: x in s && forall y :: y in s ==> AtMost(x, y)
  {
    var x :| x in s;
    if s == {x} {
      LessTotal(x, x);
    } else {
      LeastExists(s - {x});
      var m :| m in s - {x} && forall y :: y in s - {x} ==> AtMost(m, y);
      LessTotal(x, m);
      LessTotal(x, x);
      var least := if Less(x, m) then x else m;
      forall y | y in s ensures AtMost(least, y) {
        if y != x && Less(x, m) { AtMostTrans(x, m, y); }
      }
    }
  }

  ghost function SortedKeys(s: set<string>): (r: seq<string>)
    ensures Sorted(r) && NoDup(r) && Elems(r) == s
  {
    if s == {} then []
    else
      LeastExists(s);
      var x :| x in s && forall y :: y in s ==> AtMost(x, y);
      SortedCons(x, SortedKeys(s - {x}));
      [x] + SortedKeys(s - {x})
  }

  lemma SortedCons(x: string, t: seq<string>)
    requires Sorted(t) && NoDup(t) && x !in Elems(t) && forall y :: y in Elems(t) ==> AtMost(x, y)
    ensures Sorted([x] + t) && NoDup([x] + t) && Elems([x] + t) == {x} + Elems(t)
  {
  }

  // ------------------------------------------------------------ marshalling

  /** The document a value marshals to: object members in key order. */
  ghost function Marshal(a: Any): Json
    decreases a, 1
  {
    match a
    case AText(s) => JText(s)
    case AScalar(l) => JScalar(l)
    case AArray(elems) => JArray(seq(|elems|, i requires 0 <= i < |elems| => Marshal(elems[i])))
    case AMap(m) =>
      var keys := SortedKeys(m.Keys);
      JObject(seq(|keys|, i requires 0 <= i < |keys| =>
        assert keys[i] in Elems(keys); Member(keys[i], Marshal(m[keys[i]]))))
  }

  ghost function CanonicalTokens(v: Json): seq<Token> {
    Tokens(Marshal(Decode(v)))
  }

  /** The recursive sort of the source.  Go maps have no order, so rebuilding a map from its
      sorted keys, like rewriting an array in place, gives back the same value; the order
      of keys in the output comes from marshalling. */
  method SortValue(v: Any) returns (r: Any)
    ensures r == v
    decreases v
  {
    match v {
      case AMap(m) =>
        var listed := SetToSeq(m.Keys);
        var keys := SortedCopy(listed);
        var out: map<string, Any> := map[];
        for i := 0 to |keys|
          invariant out.Keys == Elems(keys[..i])
          invariant forall k :: k in out ==> k in m && out[k] == m[k]
        {
          assert keys[i] in Elems(keys);
          assert keys[..i + 1] == keys[..i] + [keys[i]];
          var sorted := SortValue(m[keys[i]]);
          out := out[keys[i] := sorted];
        }
        assert keys[..|keys|] == keys;
        return AMap(out);
      case AArray(elems) =>
        var out := elems;
        for i := 0 to |elems|
          invariant out == elems
        {
          var sorted := SortValue(elems[i]);
          out := out[i := sorted];
        }
        return AArray(out);
      case _ =>
        return v;
    }
  }

  // ------------------------------------------------------------ decoding undoes marshalling

  ghost predicate DistinctNames(members: seq<Member>) {
    forall i, j :: 0 <= i < j < |members| ==> members[i].name != members[j].name
  }

  ghost function Names(members: seq<Member>): set<string> {
    set i | 0 <= i < |members| :: members[i].name
  }

  lemma NamesCons(members: seq<Member>)
    requires members != []
    ensures Names(members) == {members[0].name} + Names(members[1..])
    ensures DistinctNames(members) ==> DistinctNames(members[1..]) && members[0].name !in Names(members[1..])
  {
  }

  lemma {:induction false} DecodeKeys(members: seq<Member>)
    ensures DecodeMembers(members).Keys == Names(members)
  {
    hide Decode, Names;
    if members != [] {
      NamesCons(members);
      DecodeKeys(members[1..]);
    } else {
      NamesNone();
    }
  }

  lemma NamesNone()
    ensures Names([]) == {}
  {
  }

  /** A member not followed by another of its name is the one decoding keeps. */
  lemma {:induction false} DecodeLastWins(members: seq<Member>, i: nat)
    requires i < |members| && forall j :: i < j < |members| ==> members[j].name != members[i].name
    ensures members[i].name in DecodeMembers(members)
    ensures DecodeMembers(members)[members[i].name] == Decode(members[i].value)
  {
    hide Decode;
    var tail := members[1..];
    DecodeKeys(tail);
    assert forall j :: 0 <= j < |tail| ==> tail[j] == members[j + 1];
    if i > 0 { DecodeLastWins(tail, i - 1); }
  }

  lemma DecodeDistinct(members: seq<Member>)
    requires DistinctNames(members)
    ensures DecodeMembers(members).Keys == Names(members)
    ensures forall i :: 0 <= i < |members| ==>
              && members[i].name in DecodeMembers(members)
              && DecodeMembers(members)[members[i].name] == Decode(members[i].value)
  {
    hide Decode, DecodeMembers;
    DecodeKeys(members);
    forall i | 0 <= i < |members|
      ensures members[i].name in DecodeMembers(members)
      ensures DecodeMembers(members)[members[i].name] == Decode(members[i].value)
    {
      DecodeLastWins(members, i);
    }
  }

  lemma {:induction false} DecodeElemsAt(elems: seq<Json>, i: nat)
    requires i < |elems|
    ensures DecodeElems(elems)[i] == Decode(elems[i])
  {
    if i > 0 { DecodeElemsAt(elems[1..], i - 1); }
  }

  lemma {:induction false} DecodeMarshal(a: Any)
    ensures Decode(Marshal(a)) == a
  {
    match a
    case AText(_) =>
    case AScalar(_) =>
    case AArray(elems) =>
      var js := Marshal(a).elems;
      forall i | 0 <= i < |elems| ensures DecodeElems(js)[i] == elems[i] {
        DecodeElemsAt(js, i);
        DecodeMarshal(elems[i]);
      }
    case AMap(m) =>
      forall k | k in m ensures Decode(Marshal(m[k])) == m[k] {
        DecodeMarshal(m[k]);
      }
      MembersRebuild(m, SortedKeys(m.Keys), Marshal(a).members);
  }

  /** Members that list each key of a map once, with documents that decode to its values. */
  lemma MembersRebuild(m: map<string, Any>, keys: seq<string>, members: seq<Member>)
    requires NoDup(keys) && Elems(keys) == m.Keys && |members| == |keys|
    requires forall i :: 0 <= i < |keys| ==> keys[i] in m && members[i] == Member(keys[i], Marshal(m[keys[i]]))
    requires forall k :: k in m ==> Decode(Marshal(m[k])) == m[k]
    ensures DecodeMembers(members) == m
  {
    hide Marshal, Decode, DecodeMembers;
    DecodeDistinct(members);
    forall k | k in m ensures k in DecodeMembers(members) && DecodeMembers(members)[k] == m[k] {
      assert k in Elems(keys);
      var i :| 0 <= i < |keys| && keys[i] == k;
      assert members[i].name == k;
    }
    forall k | k in DecodeMembers(members) ensures k in m {
      var i :| 0 <= i < |members| && members[i].name == k;
    }
  }

  /** No repeated names and names in order, at every depth. */
  ghost predicate InNormalForm(v: Json) {
    match v
    case JText(_) => true
    case JScalar(_) => true
    case JArray(elems) => forall i :: 0 <= i < |elems| ==> InNormalForm(elems[i])
    case JObject(members) =>
      && (forall i, j :: 0 <= i < j < |members| ==> Before(members[i].name, members[j].name))
      && (forall i :: 0 <= i < |members| ==> InNormalForm(members[i].value))
  }

  lemma {:induction false} MarshalIsNormal(a: Any)
    ensures InNormalForm(Marshal(a)) && Unique(Marshal(a))
  {
    match a
    case AText(_) =>
    case AScalar(_) =>
    case AArray(elems) =>
      forall i | 0 <= i < |elems| ensures InNormalForm(Marshal(elems[i])) && Unique(Marshal(elems[i])) {
        MarshalIsNormal(elems[i]);
      }
    case AMap(m) =>
      var keys, members := SortedKeys(m.Keys), Marshal(a).members;
      forall i | 0 <= i < |members| ensures InNormalForm(members[i].value) && Unique(members[i].value) {
        assert keys[i] in Elems(keys);
        MarshalIsNormal(m[keys[i]]);
      }
      forall i, j | 0 <= i < j < |members|
        ensures Before(members[i].name, members[j].name) && members[i].name != members[j].name
      {
        LessTotal(keys[i], keys[j]);
        LessIsBefore(keys[i], keys[j]);
      }
  }

  // ------------------------------------------------------------ token streams read back uniquely

  lemma {:induction false} TokensInjective(v: Json, w: Json, r: seq<Token>, r': seq<Token>)
    requires Tokens(v) + r == Tokens(w) + r'
    ensures v == w && r == r'
    decreases v, 0
  {
    hide Tokens;
    AfterFirst(v, r);
    AfterFirst(w, r');
    match v
    case JText(_) =>
    case JScalar(_) =>
    case JArray(elems) => ElemTokensInjective(elems, w.elems, r, r');
    case JObject(members) => MemberTokensInjective(members, w.members, r, r');
  }

  lemma {:induction false} ElemTokensInjective(a: seq<Json>, b: seq<Json>, r: seq<Token>, r': seq<Token>)
    requires ElemTokens(a) + ([ArrayClose] + r) == ElemTokens(b) + ([ArrayClose] + r')
    ensures a == b && r == r'
    decreases a, 1
  {
    hide Tokens;
    var ts, ts' := ElemTokens(a) + ([ArrayClose] + r), ElemTokens(b) + ([ArrayClose] + r');
    assert a == [] <==> ts[0] == ArrayClose;
    assert b == [] <==> ts'[0] == ArrayClose;
    if a == [] {
      assert ts[1..] == r && ts'[1..] == r';
    } else {
      var t, t' := ElemTokens(a[1..]) + ([ArrayClose] + r), ElemTokens(b[1..]) + ([ArrayClose] + r');
      assert ts == Tokens(a[0]) + t && ts' == Tokens(b[0]) + t';
      TokensInjective(a[0], b[0], t, t');
      ElemTokensInjective(a[1..], b[1..], r, r');
      assert a == [a[0]] + a[1..] && b == [b[0]] + b[1..];
    }
  }

  lemma {:induction false} MemberTokensInjective(a: seq<Member>, b: seq<Member>, r: seq<Token>, r': seq<Token>)
    requires MemberTokens(a) + ([ObjectClose] + r) == MemberTokens(b) + ([ObjectClose] + r')
    ensures a == b && r == r'
    decreases a, 1
  {
    hide Tokens;
    var ts, ts' := MemberTokens(a) + ([ObjectClose] + r), MemberTokens(b) + ([ObjectClose] + r');
    assert a == [] <==> ts[0] == ObjectClose;
    assert b == [] <==> ts'[0] == ObjectClose;
    if a == [] {
      assert ts[1..] == r && ts'[1..] == r';
    } else {
      var t, t' := MemberTokens(a[1..]) + ([ObjectClose] + r), MemberTokens(b[1..]) + ([ObjectClose] + r');
      assert ts == [Text(a[0].name)] + (Tokens(a[0].value) + t) && ts' == [Text(b[0].name)] + (Tokens(b[0].value) + t');
      assert ts[1..] == Tokens(a[0].value) + t && ts'[1..] == Tokens(b[0].value) + t';
      TokensInjective(a[0].value, b[0].value, t, t');
      MemberTokensInjective(a[1..], b[1..], r, r');
      assert a == [a[0]] + a[1..] && b == [b[0]] + b[1..];
    }
  }

  // ------------------------------------------------------------ the normal form

  /** Two documents have the same canonical encoding exactly when they decode to the same value. */
  lemma CanonicalEqualIff(v: Json, w: Json)
    ensures CanonicalTokens(v) == CanonicalTokens(w) <==> Decode(v) == Decode(w)
  {
    if CanonicalTokens(v) == CanonicalTokens(w) {
      TokensInjective(Marshal(Decode(v)), Marshal(Decode(w)), [], []);
      DecodeMarshal(Decode(v));
      DecodeMarshal(Decode(w));
    }
  }

  /** Any document whose tokens are a canonical encoding encodes to those very tokens. */
  lemma CanonicalIdempotent(v: Json, u: Json)
    requires Tokens(u) == CanonicalTokens(v)
    ensures CanonicalTokens(u) == Tokens(u)
    ensures InNormalForm(u)
  {
    TokensInjective(u, Marshal(Decode(v)), [], []);
    DecodeMarshal(Decode(v));
    MarshalIsNormal(Decode(v));
  }

  /** The duplicate-name scanner accepts every canonical encoding, whatever follows it. */
  lemma CanonicalPassesScan(v: Json, rest: seq<Token>)
    ensures ScanValue(CanonicalTokens(v) + rest) == Rest(rest)
  {
    MarshalIsNormal(Decode(v));
    ScanDecides(Marshal(Decode(v)), rest);
  }

  /** Equal up to the order of object members, at every depth. */
  ghost predicate SameUpToOrder(v: Json, w: Json)
    decreases v
  {
    match v
    case JText(_) => v == w
    case JScalar(_) => v == w
    case JArray(elems) =>
      w.JArray? && |elems| == |w.elems| && forall i :: 0 <= i < |elems| ==> SameUpToOrder(elems[i], w.elems[i])
    case JObject(members) =>
      && w.JObject?
      && |members| == |w.members|
      && forall i :: 0 <= i < |members| ==>
           exists j :: 0 <= j < |w.members| && w.members[j].name == members[i].name
             && SameUpToOrder(members[i].value, w.members[j].value)
  }

  lemma {:induction false} NamesCard(members: seq<Member>)
    requires DistinctNames(members)
    ensures |Names(members)| == |members|
  {
    if members != [] {
      var init, last := members[..|members| - 1], members[|members| - 1];
      NamesCard(init);
      assert forall i :: 0 <= i < |init| ==> init[i] == members[i];
      assert Names(members) == Names(init) + {last.name};
      assert last.name !in Names(init);
    } else {
      assert Names(members) == {};
    }
  }

  /** For documents without repeated names, decoding forgets the order of members and nothing else. */
  lemma {:induction false} DecodeEqualIffSame(v: Json, w: Json)
    requires Unique(v) && Unique(w)
    ensures Decode(v) == Decode(w) <==> SameUpToOrder(v, w)
    decreases v
  {
    if v.JArray? && w.JArray? && |v.elems| == |w.elems| {
      forall i | 0 <= i < |v.elems|
        ensures DecodeElems(v.elems)[i] == DecodeElems(w.elems)[i] <==> SameUpToOrder(v.elems[i], w.elems[i])
      {
        DecodeElemsAt(v.elems, i);
        DecodeElemsAt(w.elems, i);
        DecodeEqualIffSame(v.elems[i], w.elems[i]);
      }
    } else if v.JObject? && w.JObject? {
      forall i, j | 0 <= i < |v.members| && 0 <= j < |w.members|
        ensures Decode(v.members[i].value) == Decode(w.members[j].value)
                <==> SameUpToOrder(v.members[i].value, w.members[j].value)
      {
        DecodeEqualIffSame(v.members[i].value, w.members[j].value);
      }
      DecodeObjectsEqualIff(v.members, w.members);
    }
  }

  ghost predicate MatchedIn(m: Member, b: seq<Member>) {
    exists j :: 0 <= j < |b| && b[j].name == m.name && Decode(m.value) == Decode(b[j].value)
  }

  lemma EqualDecodesMatch(a: seq<Member>, b: seq<Member>, i: nat)
    requires DistinctNames(a) && DistinctNames(b) && DecodeMembers(a) == DecodeMembers(b) && i < |a|
    ensures MatchedIn(a[i], b)
  {
    hide Decode, DecodeMembers;
    DecodeDistinct(a);
    DecodeDistinct(b);
    assert a[i].name in DecodeMembers(b);
    var j :| 0 <= j < |b| && b[j].name == a[i].name;
  }

  lemma MatchesDecodeEqual(a: seq<Member>, b: seq<Member>)
    requires DistinctNames(a) && DistinctNames(b) && |a| == |b| && forall i :: 0 <= i < |a| ==> MatchedIn(a[i], b)
    ensures DecodeMembers(a) == DecodeMembers(b)
  {
    hide Decode, DecodeMembers;
    DecodeDistinct(a);
    DecodeDistinct(b);
    NamesCard(a);
    NamesCard(b);
    var ma, mb := DecodeMembers(a), DecodeMembers(b);
    assert Names(a) == ma.Keys && Names(b) == mb.Keys;
    forall k | k in ma ensures k in mb && ma[k] == mb[k] {
      var i :| 0 <= i < |a| && a[i].name == k;
      assert MatchedIn(a[i], b);
      var j :| 0 <= j < |b| && b[j].name == a[i].name && Decode(a[i].value) == Decode(b[j].value);
    }
    SubsetCard(ma.Keys, mb.Keys);
  }

  /** Objects decode equally iff their members can be matched by name and decoded value. */
  lemma DecodeObjectsEqualIff(a: seq<Member>, b: seq<Member>)
    requires DistinctNames(a) && DistinctNames(b)
    ensures DecodeMembers(a) == DecodeMembers(b) <==> |a| == |b| && forall i :: 0 <= i < |a| ==> MatchedIn(a[i], b)
  {
    hide MatchedIn, DecodeMembers;
    if DecodeMembers(a) == DecodeMembers(b) {
      SameLength(a, b);
      forall i | 0 <= i < |a| ensures MatchedIn(a[i], b) { EqualDecodesMatch(a, b, i); }
    }
    if |a| == |b| && forall i :: 0 <= i < |a| ==> MatchedIn(a[i], b) {
      MatchesDecodeEqual(a, b);
    }
  }

  lemma SameLength(a: seq<Member>, b: seq<Member>)
    requires DistinctNames(a) && DistinctNames(b) && DecodeMembers(a) == DecodeMembers(b)
    ensures |a| == |b|
  {
    DecodeDistinct(a);
    DecodeDistinct(b);
    NamesCard(a);
    NamesCard(b);
    assert Names(a) == Names(b);
  }

  /** The encoding is blind to member order and to nothing else. */
  lemma CanonicalDecides(v: Json, w: Json)
    requires Unique(v) && Unique(w)
    ensures CanonicalTokens(v) == CanonicalTokens(w) <==> SameUpToOrder(v, w)
  {
    CanonicalEqualIff(v, w);
    DecodeEqualIffSame(v, w);
  }
}
