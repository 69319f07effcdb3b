/**
 The duplicate-name scanner of strict decoding: a recursive walk over the token
 stream that a JSON decoder delivers.
 */
module Json {
  import opened Ir

  datatype Token = ObjectOpen | ObjectClose | ArrayOpen | ArrayClose | Text(s: string) | Scalar(literal: string)

  datatype Member = Member(name: string, value: Json)

  datatype Json = JText(s: string) | JScalar(literal: string) | JArray(elems: seq<Json>) | JObject(members: seq<Member>)

  // ------------------------------------------------------------ values and their tokens

  function Tokens(v: Json): (ts: seq<Token>)
    ensures ts != [] && ts[0] !in {ObjectClose, ArrayClose}
    decreases v, 0
  {
    match v
    case JText(s) => [Text(s)]
    case JScalar(l) => [Scalar(l)]
    case JArray(elems) => [ArrayOpen] + ElemTokens(elems) + [ArrayClose]
    case JObject(members) => [ObjectOpen] + MemberTokens(members) + [ObjectClose]
  }

  function ElemTokens(elems: seq<Json>): seq<Token>
    decreases elems, 1
  {
    if elems == [] then [] else Tokens(elems[0]) + ElemTokens(elems[1..])
  }

  function MemberTokens(members: seq<Member>): seq<Token>
    decreases members, 1
  {
    if members == [] then [] else [Text(members[0].name)] + Tokens(members[0].value) + MemberTokens(members[1..])
  }

  /** No object, at any depth, repeats a name (section 4 of RFC 8259). */
  ghost predicate Unique(v: Json) {
    match v
    case JText(_) => true
    case JScalar(_) => true
    case JArray(elems) => forall i :: 0 <= i < |elems| ==> Unique(elems[i])
    case JObject(members) =>
      && (forall i, j :: 0 <= i < j < |members| ==> members[i].name != members[j].name)
      && (forall i :: 0 <= i < |members| ==> Unique(members[i].value))
  }

  // ------------------------------------------------------------ the scan, as a function of the stream

  datatype ScanError = EndOfInput | NotAName | DuplicateName(name: string)

  datatype Scan = Rest(ts: seq<Token>) | Bad(why: ScanError)

  predicate More(ts: seq<Token>) {
    ts != [] && ts[0] != ObjectClose && ts[0] != ArrayClose
  }

  function ScanValue(ts: seq<Token>): (r: Scan)
    ensures r.Rest? ==> |r.ts| < |ts|
    decreases |ts|, 0
  {
    if ts == [] then Bad(EndOfInput)
    else match ts[0]
      case ObjectOpen => ScanObject(ts[1..], {})
      case ArrayOpen => ScanArray(ts[1..])
      case _ => Rest(ts[1..])
  }

  function ScanObject(ts: seq<Token>, seen: set<string>): (r: Scan)
    ensures r.Rest? ==> |r.ts| < |ts|
    decreases |ts|, 1
  {
    if More(ts) then
      if !ts[0].Text? then Bad(NotAName)
      else if ts[0].s in seen then Bad(DuplicateName(ts[0].s))
      else match ScanValue(ts[1..])
        case Bad(why) => Bad(why)
        case Rest(rest) => ScanObject(rest, seen + {ts[0].s})
    else if ts == [] then Bad(EndOfInput)
    else Rest(ts[1..])
  }

  function ScanArray(ts: seq<Token>): (r: Scan)
    ensures r.Rest? ==> |r.ts| < |ts|
    decreases |ts|, 1
  {
    if More(ts) then
      match ScanValue(ts)
      case Bad(why) => Bad(why)
      case Rest(rest) => ScanArray(rest)
    else if ts == [] then Bad(EndOfInput)
    else Rest(ts[1..])
  }

  // ------------------------------------------------------------ the scan, as the source runs it

  class Decoder {
    const tokens: seq<Token>
    var pos: nat

    constructor (tokens: seq<Token>)
      ensures this.tokens == tokens && pos == 0
    {
      this.tokens, pos := tokens, 0;
    }

    ghost function Left(): seq<Token>
      reads this
      requires pos <= |tokens|
    {
      tokens[pos..]
    }

    /** The decoder now stands where the scan of `before` ends, or reports its error. */
    ghost predicate Follows(before: seq<Token>, r: Scan, err: Option<ScanError>)
      reads this
    {
      && pos <= |tokens|
      && (r.Rest? ==> err == None && Left() == r.ts)
      && (r.Bad? ==> err == Some(r.why))
    }

    method NextToken() returns (tok: Option<Token>)
      requires pos <= |tokens|
      modifies this`pos
      ensures old(pos) <= pos <= |tokens|
      ensures if old(pos) == |tokens| then tok == None && pos == old(pos)
              else tok == Some(tokens[old(pos)]) && pos == old(pos) + 1
    {
      if pos == |tokens| { return None; }
      tok := Some(tokens[pos]);
      pos := pos + 1;
    }

    method HasMore() returns (more: bool)
      requires pos <= |tokens|
      ensures more <==> More(Left())
    {
      more := pos < |tokens| && tokens[pos] != ObjectClose && tokens[pos] != ArrayClose;
    }

    method ScanOne() returns (err: Option<ScanError>)
      requires pos <= |tokens|
      modifies this`pos
      ensures old(pos) <= pos && Follows(old(Left()), ScanValue(old(Left())), err)
      decreases |tokens| - pos, 0
    {
      var tok := NextToken();
      if tok.None? { return Some(EndOfInput); }
      match tok.value {
        case ObjectOpen => err := ScanMembers();
        case ArrayOpen => err := ScanElems();
        case _ => err := None;
      }
    }

    method ScanMembers() returns (err: Option<ScanError>)
      requires pos <= |tokens|
      modifies this`pos
      ensures old(pos) <= pos && Follows(old(Left()), ScanObject(old(Left()), {}), err)
      decreases |tokens| - pos, 1
    {
      var seen: set<string> := {};
      var more := HasMore();
      while more
        invariant old(pos) <= pos <= |tokens|
        invariant more <==> More(Left())
        invariant ScanObject(Left(), seen) == ScanObject(old(Left()), {})
        decreases |tokens| - pos
      {
        ghost var here := Left();
        var keyTok := NextToken();
        var key := keyTok.value;
        assert here[0] == key && Left() == here[1..];
        if !key.Text? { return Some(NotAName); }
        if key.s in seen { return Some(DuplicateName(key.s)); }
        seen := seen + {key.s};
        err := ScanOne();
        if err.Some? { return; }
        more := HasMore();
      }
      var close := NextToken();
      if close.None? { return Some(EndOfInput); }
      return None;
    }

    method ScanElems() returns (err: Option<ScanError>)
      requires pos <= |tokens|
      modifies this`pos
      ensures old(pos) <= pos && Follows(old(Left()), ScanArray(old(Left())), err)
      decreases |tokens| - pos, 1
    {
      var more := HasMore();
      while more
        invariant old(pos) <= pos <= |tokens|
        invariant more <==> More(Left())
        invariant ScanArray(Left()) == ScanArray(old(Left()))
        decreases |tokens| - pos
      {
        err := ScanOne();
        if err.Some? { return; }
        more := HasMore();
      }
      var close := NextToken();
      if close.None? { return Some(EndOfInput); }
      return None;
    }
  }

  /** The whole check, on the stream of a document. */
  method CheckDuplicateKeys(tokens: seq<Token>) returns (err: Option<ScanError>)
    ensures err.None? <==> ScanValue(tokens).Rest?
    ensures err.Some? ==> err.value == ScanValue(tokens).why
  {
    var dec := new Decoder(tokens);
    assert dec.Left() == tokens;
    err := dec.ScanOne();
  }

  /** What is left of a value's stream after its first token. */
  lemma AfterFirst(v: Json, rest: seq<Token>)
    ensures (Tokens(v) + rest)[0] == Tokens(v)[0]
    ensures var tail := (Tokens(v) + rest)[1..];
            match v
            case JText(s) => Tokens(v)[0] == Text(s) && tail == rest
            case JScalar(l) => Tokens(v)[0] == Scalar(l) && tail == rest
            case JArray(elems) => Tokens(v)[0] == ArrayOpen && tail == ElemTokens(elems) + ([ArrayClose] + rest)
            case JObject(members) =>
              Tokens(v)[0] == ObjectOpen && tail == MemberTokens(members) + ([ObjectClose] + rest)
  {
  }

  // ------------------------------------------------------------ what the scan decides

  ghost predicate AllUnique(elems: seq<Json>) {
    forall i :: 0 <= i < |elems| ==> Unique(elems[i])
  }

  ghost predicate FreshNames(members: seq<Member>, seen: set<string>) {
    && (forall i, j :: 0 <= i < j < |members| ==> members[i].name != members[j].name)
    && (forall i :: 0 <= i < |members| ==> members[i].name !in seen && Unique(members[i].value))
  }

  /** On the tokens of any value followed by anything, the scan consumes exactly the value
      if no object in it repeats a name, and otherwise reports a repeated name. */
  lemma {:induction false} ScanDecides(v: Json, rest: seq<Token>)
    ensures Unique(v) ==> ScanValue(Tokens(v) + rest) == Rest(rest)
    ensures !Unique(v) ==> ScanValue(Tokens(v) + rest).Bad? && ScanValue(Tokens(v) + rest).why.DuplicateName?
    decreases v, 0
  {
    hide Tokens;
    AfterFirst(v, rest);
    match v
    case JText(_) =>
    case JScalar(_) =>
    case JArray(elems) => ScanElemsDecides(elems, rest);
    case JObject(members) => ScanMembersDecides(members, {}, rest);
  }

  lemma {:induction false} ScanElemsDecides(elems: seq<Json>, rest: seq<Token>)
    ensures var r := ScanArray(ElemTokens(elems) + ([ArrayClose] + rest));
            if AllUnique(elems) then r == Rest(rest) else r.Bad? && r.why.DuplicateName?
    decreases elems, 1
  {
    hide Unique;
    var ts := ElemTokens(elems) + ([ArrayClose] + rest);
    if elems == [] {
      assert ts == [ArrayClose] + rest;
    } else {
      var tail := ElemTokens(elems[1..]) + ([ArrayClose] + rest);
      assert ts == Tokens(elems[0]) + tail;
      ScanDecides(elems[0], tail);
      ScanElemsDecides(elems[1..], rest);
      assert elems == [elems[0]] + elems[1..];
    }
  }

  lemma {:induction false} ScanMembersDecides(members: seq<Member>, seen: set<string>, rest: seq<Token>)
    ensures var r := ScanObject(MemberTokens(members) + ([ObjectClose] + rest), seen);
            if FreshNames(members, seen) then r == Rest(rest) else r.Bad? && r.why.DuplicateName?
    decreases members, 1
  {
    hide FreshNames, Unique;
    var ts := MemberTokens(members) + ([ObjectClose] + rest);
    if members == [] {
      FreshNamesNone(seen);
      assert ts == [ObjectClose] + rest;
    } else {
      var m := members[0];
      var tail := MemberTokens(members[1..]) + ([ObjectClose] + rest);
      assert ts == [Text(m.name)] + (Tokens(m.value) + tail);
      assert ts[1..] == Tokens(m.value) + tail;
      ScanDecides(m.value, tail);
      ScanMembersDecides(members[1..], seen + {m.name}, rest);
      FreshNamesCons(members, seen);
    }
  }

  lemma FreshNamesNone(seen: set<string>)
    ensures FreshNames([], seen)
  {
  }

  lemma FreshNamesCons(members: seq<Member>, seen: set<string>)
    requires members != []
    ensures FreshNames(members, seen) <==>
            members[0].name !in seen && Unique(members[0].value) && FreshNames(members[1..], seen + {members[0].name})
  {
  }

  // ------------------------------------------------------------ what the scan reports otherwise

  /** A stream that breaks off within a value is reported as having ended. */
  lemma {:induction false} TruncatedEnds(v: Json, n: nat)
    requires Unique(v) && n < |Tokens(v)|
    ensures ScanValue(Tokens(v)[..n]) == Bad(EndOfInput)
    decreases v, 0
  {
    if n > 0 {
      assert Tokens(v)[..n][0] == Tokens(v)[0] && Tokens(v)[..n][1..] == Tokens(v)[1..][..n - 1];
      match v
      case JText(_) =>
      case JScalar(_) =>
      case JArray(elems) =>
        assert Tokens(v)[1..] == ElemTokens(elems) + [ArrayClose];
        TruncatedElems(elems, n - 1);
      case JObject(members) =>
        assert Tokens(v)[1..] == MemberTokens(members) + [ObjectClose];
        TruncatedMembers(members, {}, n - 1);
    }
  }

  lemma {:induction false} TruncatedElems(elems: seq<Json>, n: nat)
    requires AllUnique(elems) && n <= |ElemTokens(elems)|
    ensures ScanArray((ElemTokens(elems) + [ArrayClose])[..n]) == Bad(EndOfInput)
    decreases elems, 1
  {
    hide Tokens, Unique;
    var ts := (ElemTokens(elems) + [ArrayClose])[..n];
    if n > 0 {
      var first, tail := Tokens(elems[0]), ElemTokens(elems[1..]) + [ArrayClose];
      assert ElemTokens(elems) + [ArrayClose] == first + tail;
      assert ts[0] == first[0];
      if n < |first| {
        assert ts == first[..n];
        TruncatedEnds(elems[0], n);
      } else {
        assert ts == first + tail[..n - |first|];
        ScanDecides(elems[0], tail[..n - |first|]);
        TruncatedElems(elems[1..], n - |first|);
      }
    }
  }

  lemma {:induction false} TruncatedMembers(members: seq<Member>, seen: set<string>, n: nat)
    requires FreshNames(members, seen) && n <= |MemberTokens(members)|
    ensures ScanObject((MemberTokens(members) + [ObjectClose])[..n], seen) == Bad(EndOfInput)
    decreases members, 1
  {
    hide Tokens, Unique, FreshNames;
    var ts := (MemberTokens(members) + [ObjectClose])[..n];
    if n > 0 {
      FreshNamesCons(members, seen);
      var m := members[0];
      var first, tail := Tokens(m.value), MemberTokens(members[1..]) + [ObjectClose];
      assert MemberTokens(members) + [ObjectClose] == [Text(m.name)] + (first + tail);
      assert ts[0] == Text(m.name) && ts[1..] == (first + tail)[..n - 1];
      if n - 1 < |first| {
        assert ts[1..] == first[..n - 1];
        TruncatedEnds(m.value, n - 1);
      } else {
        assert ts[1..] == first + tail[..n - 1 - |first|];
        ScanDecides(m.value, tail[..n - 1 - |first|]);
        TruncatedMembers(members[1..], seen + {m.name}, n - 1 - |first|);
      }
    }
  }

  /** Where an object goes on with a token that is no text, that is reported. */
  lemma OddNameReported(tok: Token, rest: seq<Token>)
    requires !tok.Text? && tok != ObjectClose && tok != ArrayClose
    ensures ScanValue([ObjectOpen, tok] + rest) == Bad(NotAName)
  {
    var ts := [ObjectOpen, tok] + rest;
    assert ts[0] == ObjectOpen && ts[1..] == [tok] + rest;
  }
}
