/** Searching for markup in text: the first occurrence of a pattern, as strings.Index finds it, and where
    patterns that start with their only '<' cannot occur. */
module MarkupSearch {

  predicate OccursAt(s: string, pat: string, i: nat) {
    i + |pat| <= |s| && s[i..i + |pat|] == pat
  }

  /** The position of the first occurrence, or -1. */
  function Index(s: string, pat: string): int {
    if |s| < |pat| then -1
    else if pat <= s then 0
    else if s == "" || Index(s[1..], pat) < 0 then -1
    else 1 + Index(s[1..], pat)
  }

  ghost predicate Free(s: string, pat: string) {
    forall i: nat :: !OccursAt(s, pat, i)
  }

  lemma OccursInTail(s: string, pat: string, i: nat)
    requires 1 <= i && s != ""
    ensures OccursAt(s, pat, i) <==> OccursAt(s[1..], pat, i - 1)
  {
    if i + |pat| <= |s| {
      var here, there := s[i..i + |pat|], s[1..][i - 1..i - 1 + |pat|];
      forall k | 0 <= k < |pat| ensures here[k] == there[k] {
        assert here[k] == s[i + k] && there[k] == s[1..][i - 1 + k];
      }
      assert here == there;
    }
  }

  lemma OccursAtStart(s: string, pat: string)
    ensures OccursAt(s, pat, 0) <==> pat <= s
  {
  }

  /** Index finds an occurrence, and there is none before it, or none at all. */
  lemma {:induction false} IndexIsFirst(s: string, pat: string, i: nat)
    ensures -1 <= Index(s, pat)
    ensures Index(s, pat) >= 0 ==> OccursAt(s, pat, Index(s, pat))
    ensures OccursAt(s, pat, i) ==> 0 <= Index(s, pat) <= i
  {
    OccursAtStart(s, pat);
    if |s| >= |pat| && !(pat <= s) && s != "" {
      IndexIsFirst(s[1..], pat, if i == 0 then 0 else i - 1);
      var r := Index(s[1..], pat);
      if r >= 0 {
        OccursInTail(s, pat, r + 1);
      }
      if i > 0 {
        OccursInTail(s, pat, i);
      }
    }
  }

  lemma IndexNoneIffFree(s: string, pat: string)
    ensures Index(s, pat) < 0 <==> Free(s, pat)
  {
    forall i: nat ensures OccursAt(s, pat, i) ==> Index(s, pat) >= 0 {
      IndexIsFirst(s, pat, i);
    }
    IndexIsFirst(s, pat, 0);
  }

  lemma IndexUnique(s: string, pat: string, r: nat)
    requires OccursAt(s, pat, r) && forall i: nat :: i < r ==> !OccursAt(s, pat, i)
    ensures Index(s, pat) == r
  {
    IndexIsFirst(s, pat, r);
  }

  lemma IndexInBounds(s: string, pat: string)
    ensures -1 <= Index(s, pat)
    ensures Index(s, pat) >= 0 ==> Index(s, pat) + |pat| <= |s| && s[Index(s, pat)..Index(s, pat) + |pat|] == pat
  {
    IndexIsFirst(s, pat, 0);
  }

  lemma OccursShifted(t: string, v: string, pat: string, i: nat)
    ensures OccursAt(t + v, pat, |t| + i) <==> OccursAt(v, pat, i)
  {
    if i + |pat| <= |v| {
      assert (t + v)[|t| + i..|t| + i + |pat|] == v[i..i + |pat|];
    }
  }

  /** One character that does not occur in `u` is found right after it. */
  lemma IndexOfChar(u: string, c: char, w: string)
    requires c !in u
    ensures Index(u + [c] + w, [c]) == |u|
  {
    var s := u + [c] + w;
    assert s[|u|..|u| + 1] == [c];
    forall i: nat | i < |u| ensures !OccursAt(s, [c], i) {
      assert s[i..i + 1] == [u[i]];
    }
    IndexUnique(s, [c], |u|);
  }

  lemma {:induction false} NoSuchChar(s: string, c: char)
    requires c !in s
    ensures Index(s, [c]) == -1
  {
    if s != "" {
      NoSuchChar(s[1..], c);
      assert s[0] != c;
    }
  }

  // ---- Patterns that start with their only '<' --------------------------------------------------------------

  predicate TagLike(pat: string) {
    pat != "" && pat[0] == '<' && '<' !in pat[1..]
  }

  /** Nothing, or markup. */
  predicate AtTag(v: string) {
    v == "" || v[0] == '<'
  }

  lemma NoStraddling(t: string, v: string, pat: string, i: nat)
    requires TagLike(pat) && Free(t, pat) && AtTag(v) && i < |t|
    ensures !OccursAt(t + v, pat, i)
  {
    if i + |pat| <= |t| {
      assert (t + v)[i..i + |pat|] == t[i..i + |pat|];
      assert !OccursAt(t, pat, i);
    } else if i + |pat| <= |t + v| {
      var k := |t| - i;
      assert (t + v)[i..i + |pat|][k] == v[0] == '<';
      assert pat[k] == pat[1..][k - 1];
    }
  }

  // ---- Text that no occurrence can start in, whatever follows -----------------------------------------------

  ghost predicate Passes(t: string, pat: string) {
    forall v: string, i: nat :: i < |t| ==> !OccursAt(t + v, pat, i)
  }

  lemma PassesConcat(a: string, b: string, pat: string)
    requires Passes(a, pat) && Passes(b, pat)
    ensures Passes(a + b, pat)
  {
    forall v: string, i: nat | i < |a + b| ensures !OccursAt(a + b + v, pat, i) {
      assert a + b + v == a + (b + v);
      if i >= |a| {
        OccursShifted(a, b + v, pat, i - |a|);
      }
    }
  }

  lemma PlainPasses(u: string, pat: string)
    requires TagLike(pat) && '<' !in u
    ensures Passes(u, pat)
  {
    forall v: string, i: nat | i < |u| ensures !OccursAt(u + v, pat, i) {
      if i + |pat| <= |u + v| {
        assert (u + v)[i..i + |pat|][0] == u[i];
      }
    }
  }

  /** A tag and the plain text after it pass any pattern they differ from early enough. */
  lemma TagPasses(t: string, pat: string, k: nat)
    requires TagLike(pat) && TagLike(t) && k < |t| && k < |pat| && t[k] != pat[k]
    ensures Passes(t, pat)
  {
    forall v: string, i: nat | i < |t| ensures !OccursAt(t + v, pat, i) {
      if i + |pat| <= |t + v| {
        assert (t + v)[i..i + |pat|][0] == t[i];
        if i == 0 {
          assert (t + v)[0..|pat|][k] == t[k];
        } else {
          assert t[i] == t[1..][i - 1];
        }
      }
    }
  }

  lemma PassesIsFree(t: string, pat: string)
    requires Passes(t, pat) && pat != ""
    ensures Free(t, pat)
  {
    forall i: nat ensures !OccursAt(t, pat, i) {
      assert t + "" == t;
    }
  }

  /** A search passes over such text to the pattern that follows. */
  lemma IndexAfterPassing(t: string, pat: string, w: string)
    requires Passes(t, pat)
    ensures Index(t + (pat + w), pat) == |t|
  {
    var s := t + (pat + w);
    assert s[|t|..|t| + |pat|] == pat;
    IndexUnique(s, pat, |t|);
  }
}
