/**
 The order Go's `<` puts on strings (each `char` stands for one byte), sorted
 sequences, and the in-place insertion sort of the claim graph.
 */
module StringOrder {
  import opened Graph

  predicate Less(a: string, b: string) {
    if b == "" then false
    else if a == "" then true
    else if a[0] != b[0] then a[0] < b[0]
    else Less(a[1..], b[1..])
  }

  /** Dictionary order: a proper prefix comes first, otherwise the first difference decides. */
  ghost predicate Before(a: string, b: string) {
    || (|a| < |b| && a == b[..|a|])
    || exists i :: 0 <= i < |a| && i < |b| && a[..i] == b[..i] && a[i] < b[i]
  }

  lemma {:induction false} LessIff(a: string, b: string)
    ensures Less(a, b) <==>
            || (|a| < |b| && a == b[..|a|])
            || exists i :: 0 <= i < |a| && i < |b| && a[..i] == b[..i] && a[i] < b[i]
  {
    if a != "" && b != "" {
      if a[0] != b[0] {
        if a[0] < b[0] { assert a[..0] == b[..0]; }
        forall i | 0 < i <= |a| && i <= |b| ensures a[..i] != b[..i] {
          assert a[..i][0] != b[..i][0];
        }
      } else {
        LessIff(a[1..], b[1..]);
        assert a == [a[0]] + a[1..] && b == [b[0]] + b[1..];
        PrefixesShift(a, b);
      }
    }
  }

  /** Equal first characters can be left out of comparing prefixes. */
  lemma PrefixesShift(a: string, b: string)
    requires a != "" && b != "" && a[0] == b[0]
    ensures |a| <= |b| ==> (a == b[..|a|] <==> a[1..] == b[1..][..|a| - 1])
    ensures (exists i :: 0 <= i < |a| && i < |b| && a[..i] == b[..i] && a[i] < b[i])
            <==> exists i :: 0 <= i < |a| - 1 && i < |b| - 1 && a[1..][..i] == b[1..][..i] && a[1..][i] < b[1..][i]
  {
    var a', b' := a[1..], b[1..];
    forall i | 0 < i <= |a| && i <= |b| ensures a[..i] == b[..i] <==> a'[..i - 1] == b'[..i - 1] {
      assert a[..i] == [a[0]] + a'[..i - 1] && b[..i] == [b[0]] + b'[..i - 1];
    }
    if |a| <= |b| {
      assert a == a[..|a|] && a' == a'[..|a| - 1];
    }
    if i :| 0 <= i < |a| && i < |b| && a[..i] == b[..i] && a[i] < b[i] {
      assert a'[..i - 1] == b'[..i - 1] && a'[i - 1] < b'[i - 1];
    }
    if i :| 0 <= i < |a'| && i < |b'| && a'[..i] == b'[..i] && a'[i] < b'[i] {
      assert a[..i + 1] == b[..i + 1] && a[i + 1] < b[i + 1];
    }
  }

  lemma LessIsBefore(a: string, b: string)
    ensures Less(a, b) <==> Before(a, b)
  {
    LessIff(a, b);
  }

  predicate AtMost(a: string, b: string) {
    !Less(b, a)
  }

  lemma {:induction false} LessTotal(a: string, b: string)
    ensures Less(a, b) || Less(b, a) || a == b
    ensures !(Less(a, b) && Less(b, a))
  {
    if a != "" && b != "" && a[0] == b[0] {
      LessTotal(a[1..], b[1..]);
      assert a == [a[0]] + a[1..] && b == [b[0]] + b[1..];
    }
  }

  lemma {:induction false} LessTrans(a: string, b: string, c: string)
    requires Less(a, b) && Less(b, c)
    ensures Less(a, c)
  {
    if a != "" && a[0] == b[0] == c[0] {
      LessTrans(a[1..], b[1..], c[1..]);
    }
  }

  lemma AtMostTrans(a: string, b: string, c: string)
    requires AtMost(a, b) && AtMost(b, c)
    ensures AtMost(a, c)
  {
    if Less(c, a) {
      LessTotal(a, b);
      if a != b { LessTrans(c, a, b); }
    }
  }

  ghost predicate Sorted(s: seq<string>) {
    forall i, j :: 0 <= i < j < |s| ==> AtMost(s[i], s[j])
  }

  /** Two sorted sequences without repetitions over the same elements are equal. */
  lemma {:induction false} SortedUnique(s: seq<string>, t: seq<string>)
    requires Sorted(s) && Sorted(t) && NoDup(s) && NoDup(t) && Elems(s) == Elems(t)
    ensures s == t
  {
    NoDupCard(s);
    NoDupCard(t);
    if s != [] {
      assert s[0] in Elems(s) && t[0] in Elems(t);
      LessTotal(s[0], t[0]);
      assert s[0] in t && t[0] in s;
      assert s[0] == t[0];
      assert s == [s[0]] + s[1..] && t == [t[0]] + t[1..];
      assert Elems(s[1..]) == Elems(s) - {s[0]};
      assert Elems(t[1..]) == Elems(t) - {t[0]};
      SortedUnique(s[1..], t[1..]);
    }
  }

  /** Insertion sort: all pairs up to `i` are in order except those ending at the moving element `j`. */
  method SortStrings(a: array<string>)
    modifies a
    ensures Sorted(a[..])
    ensures forall p, q :: 0 <= p < q < a.Length ==> a[p] == a[q] || Before(a[p], a[q])
    ensures multiset(a[..]) == multiset(old(a[..]))
  {
    var i := 1;
    while i < a.Length
      invariant 1 <= i <= a.Length || a.Length == 0
      invariant forall p, q :: 0 <= p < q < i <= a.Length ==> AtMost(a[p], a[q])
      invariant multiset(a[..]) == multiset(old(a[..]))
    {
      var j := i;
      while j > 0 && Less(a[j], a[j - 1])
        invariant 0 <= j <= i
        invariant forall p, q :: 0 <= p < q <= i && q != j ==> AtMost(a[p], a[q])
        invariant multiset(a[..]) == multiset(old(a[..]))
      {
        LessTotal(a[j], a[j - 1]);
        a[j], a[j - 1] := a[j - 1], a[j];
        j := j - 1;
      }
      forall p | 0 <= p < j ensures AtMost(a[p], a[j]) {
        if p < j - 1 { AtMostTrans(a[p], a[j - 1], a[j]); }
      }
      i := i + 1;
    }
    forall p, q | 0 <= p < q < a.Length ensures a[p] == a[q] || Before(a[p], a[q]) {
      LessTotal(a[p], a[q]);
      LessIsBefore(a[p], a[q]);
    }
  }

  /** The elements of `s` in order. */
  method SortedCopy(s: seq<string>) returns (t: seq<string>)
    ensures Sorted(t) && multiset(t) == multiset(s)
    ensures Elems(t) == Elems(s) && (NoDup(s) ==> NoDup(t))
  {
    var a := new string[|s|](i requires 0 <= i < |s| => s[i]);
    assert a[..] == s;
    SortStrings(a);
    t := a[..];
    if NoDup(s) { PermutationKeeps(s, t); }
    assert forall x :: x in s <==> x in multiset(s);
    assert forall x :: x in t <==> x in multiset(t);
  }

  /** Some enumeration of a set: the order of a Go map range. */
  method SetToSeq(s: set<string>) returns (out: seq<string>)
    ensures NoDup(out) && Elems(out) == s
  {
    out := [];
    var todo := s;
    while todo != {}
      invariant todo <= s && NoDup(out) && Elems(out) == s - todo
    {
      var x :| x in todo;
      todo := todo - {x};
      assert x !in Elems(out);
      NoDupSnoc(out, x);
      out := out + [x];
    }
  }

  lemma PermutationKeeps(s: seq<string>, t: seq<string>)
    requires multiset(s) == multiset(t) && NoDup(s)
    ensures NoDup(t) && Elems(t) == Elems(s)
  {
    assert forall x :: x in s <==> x in multiset(s);
    assert forall x :: x in t <==> x in multiset(t);
    NoDupCard(s);
    assert |multiset(s)| == |s| && |multiset(t)| == |t|;
    assert Elems(t) == Elems(s);
    ElemsCard(t);
  }

  /** Every element comes before every later one. */
  ghost predicate InOrder(s: seq<string>) {
    forall i, j :: 0 <= i < j < |s| ==> Before(s[i], s[j])
  }

  /** Sorted without repetitions is the same as strictly in order. */
  lemma SortedDistinctIff(s: seq<string>)
    ensures Sorted(s) && NoDup(s) <==> InOrder(s)
  {
    hide Before, Less;
    forall i, j | 0 <= i < j < |s| ensures AtMost(s[i], s[j]) && s[i] != s[j] <==> Before(s[i], s[j]) {
      LessTotal(s[i], s[j]);
      LessTotal(s[i], s[i]);
      LessIsBefore(s[i], s[j]);
    }
  }
}
