/** Text helpers shared by the models: white space trimming as strings.TrimSpace does it. */
module Text {

  predicate IsSpace(c: char) {
    c in {'\t', '\n', '\U{0B}', '\U{0C}', '\r', ' ', '\U{85}', '\U{A0}', '\U{1680}', '\U{2028}', '\U{2029}', '\U{202F}',
          '\U{205F}', '\U{3000}'}
    || '\U{2000}' <= c <= '\U{200A}'
  }

  /** No white space at either end. */
  predicate Trimmed(s: string) {
    s != "" ==> !IsSpace(s[0]) && !IsSpace(s[|s| - 1])
  }

  function TrimLeft(s: string): (r: string)
    ensures r != "" ==> !IsSpace(r[0])
    ensures |r| <= |s| && r == s[|s| - |r|..]
  {
    if s != "" && IsSpace(s[0]) then TrimLeft(s[1..]) else s
  }

  function TrimRight(s: string): (r: string)
    ensures r != "" ==> !IsSpace(r[|r| - 1])
    ensures |r| <= |s| && r == s[..|r|]
  {
    if s != "" && IsSpace(s[|s| - 1]) then TrimRight(s[..|s| - 1]) else s
  }

  function TrimSpace(s: string): (r: string)
    ensures Trimmed(r)
    ensures r == s <==> Trimmed(s)
    ensures |r| <= |s| && (|r| == |s| ==> r == s)
  {
    TrimRight(TrimLeft(s))
  }

  /** Every string of a list without its outer white space. */
  function TrimAll(strings: seq<string>): (r: seq<string>)
    ensures |r| == |strings|
  {
    seq(|strings|, i requires 0 <= i < |strings| => TrimSpace(strings[i]))
  }

  predicate Blank(s: string) {
    forall i :: 0 <= i < |s| ==> IsSpace(s[i])
  }

  lemma {:induction false} TrimLeftOfBlank(s: string)
    ensures TrimLeft(s) == "" <==> Blank(s)
  {
    hide IsSpace;
    if s != "" && IsSpace(s[0]) {
      TrimLeftOfBlank(s[1..]);
      assert Blank(s) <==> Blank(s[1..]) by {
        assert forall i :: 1 <= i < |s| ==> s[i] == s[1..][i - 1];
      }
    }
  }

  /** Nothing is left of a string exactly when it is white space. */
  lemma TrimmedAwayIffBlank(s: string)
    ensures TrimSpace(s) == "" <==> Blank(s)
  {
    TrimLeftOfBlank(s);
    hide IsSpace;
    var t := TrimLeft(s);
    if t != "" && TrimRight(t) == "" {
      AllDropped(t);
    }
  }

  lemma {:induction false} AllDropped(s: string)
    requires TrimRight(s) == ""
    ensures Blank(s)
  {
    hide IsSpace;
    if s != "" {
      AllDropped(s[..|s| - 1]);
      assert forall i :: 0 <= i < |s| - 1 ==> s[i] == s[..|s| - 1][i];
    }
  }

  lemma BlankJoined(a: string, b: string)
    requires Blank(a) && Blank(b)
    ensures Blank(a + b)
  {
    hide IsSpace;
  }

  lemma {:induction false} LeftCut(s: string) returns (i: nat)
    ensures i <= |s| && TrimLeft(s) == s[i..] && Blank(s[..i])
  {
    hide IsSpace;
    i := 0;
    if s != "" && IsSpace(s[0]) {
      var n := LeftCut(s[1..]);
      i := n + 1;
      assert Blank(s[..1]);
      BlankJoined(s[..1], s[1..][..n]);
      hide Blank;
      assert s[..i] == s[..1] + s[1..][..n] && s[i..] == s[1..][n..];
    }
  }

  lemma {:induction false} RightCut(s: string) returns (j: nat)
    ensures j <= |s| && TrimRight(s) == s[..j] && Blank(s[j..])
  {
    hide IsSpace;
    j := |s|;
    if s != "" && IsSpace(s[|s| - 1]) {
      var init, last := s[..|s| - 1], s[|s| - 1..];
      j := RightCut(init);
      assert Blank(last);
      BlankJoined(init[j..], last);
      hide Blank;
      assert s[j..] == init[j..] + last && s[..j] == init[..j];
    }
  }

  /** Only white space is cut off, at both ends. */
  lemma OnlySpaceIsCut(s: string) returns (i: nat, j: nat)
    ensures i <= j <= |s| && TrimSpace(s) == s[i..j] && Blank(s[..i]) && Blank(s[j..])
  {
    hide IsSpace, Blank, TrimLeft, TrimRight;
    i := LeftCut(s);
    var n := RightCut(s[i..]);
    j := i + n;
    assert s[i..][..n] == s[i..j] && s[i..][n..] == s[j..];
  }
}
