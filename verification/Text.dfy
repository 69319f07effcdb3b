/**
 Substring search in error texts.
 */
module Text {
  predicate OccursAt(s: string, t: string, i: nat) {
    i + |t| <= |s| && s[i..i + |t|] == t
  }

  predicate Contains(s: string, t: string) {
    exists i :: 0 <= i <= |s| && OccursAt(s, t, i)
  }

  /** A text holds another exactly if it is that other one with something, perhaps nothing, on either side. */
  lemma ContainsIff(s: string, t: string)
    ensures Contains(s, t) <==> exists front, back :: s == front + t + back
  {
    if i :| 0 <= i <= |s| && OccursAt(s, t, i) {
      assert s == s[..i] + t + s[i + |t|..];
    }
    if front, back :| s == front + t + back {
      assert OccursAt(s, t, |front|);
    }
  }

  lemma OccurrenceHolds(s: string, t: string, i: nat, j: nat)
    requires OccursAt(s, t, i) && i <= j < i + |t|
    ensures s[j] in t
  {
    assert s[i..i + |t|][j - i] == s[j];
  }

  lemma OccursInside(s: string, front: string, b: string, back: string, t: string, i: nat)
    requires s == front + b + back && i + |t| <= |b|
    ensures OccursAt(s, t, |front| + i) <==> OccursAt(b, t, i)
  {
    assert s[|front| + i..|front| + i + |t|] == b[i..i + |t|];
  }

  /** A text without the separator occurs in a joined text only within one of the parts. */
  lemma ContainsSplit(a: string, sep: char, b: string, t: string)
    requires t != [] && sep !in t
    ensures Contains(a + [sep] + b, t) <==> Contains(a, t) || Contains(b, t)
  {
    var s := a + [sep] + b;
    assert s == [] + a + ([sep] + b) == (a + [sep]) + b + [];
    assert s[|a|] == sep;
    hide OccursAt;
    if i :| 0 <= i <= |a| && OccursAt(a, t, i) {
      OccursFits(a, t, i);
      OccursInside(s, [], a, [sep] + b, t, i);
    }
    if i :| 0 <= i <= |b| && OccursAt(b, t, i) {
      OccursFits(b, t, i);
      OccursInside(s, a + [sep], b, [], t, i);
      assert OccursAt(s, t, |a| + 1 + i);
    }
    if i :| 0 <= i <= |s| && OccursAt(s, t, i) {
      OccursFits(s, t, i);
      if i <= |a| < i + |t| {
        OccurrenceHolds(s, t, i, |a|);
        assert false;
      }
      if i + |t| <= |a| {
        OccursInside(s, [], a, [sep] + b, t, i);
      } else {
        OccursInside(s, a + [sep], b, [], t, i - |a| - 1);
      }
    }
  }

  lemma OccursFits(s: string, t: string, i: nat)
    requires OccursAt(s, t, i)
    ensures i + |t| <= |s|
  {
  }
}
