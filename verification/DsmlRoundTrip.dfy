/** Two independent views of the DSML parser: the partition of the text into complete blocks, which is unique,
    and the text written from calls, which parses back to them. */
module DsmlRoundTrip {
  import opened Text
  import opened MarkupSearch
  import opened DsmlParser

  // ---- The partition into complete blocks ---------------------------------------------------------------------

  ghost predicate FreeOfAll(s: string, markers: seq<string>) {
    forall p :: p in markers ==> Free(s, p)
  }

  /** No end marker stands behind a start marker. */
  ghost predicate NoBlock(s: string) {
    forall p, q, i: nat, j: nat ::
      p in START_MARKERS && q in END_MARKERS && OccursAt(s, p, i) && OccursAt(s, q, j) ==> j < i + |p|
  }

  function Join(parts: seq<Part>, tail: string): string {
    if parts == [] then tail
    else parts[0].text + parts[0].open + parts[0].body + parts[0].close + Join(parts[1..], tail)
  }

  /** Each block opens at the first start marker after the block before it and closes at the first end marker
      after that; behind the last one no complete block is left. */
  ghost predicate IsLayout(parts: seq<Part>, tail: string) {
    && NoBlock(tail)
    && forall k :: 0 <= k < |parts| ==>
         && FreeOfAll(parts[k].text, START_MARKERS) && parts[k].open in START_MARKERS
         && FreeOfAll(parts[k].body, END_MARKERS) && parts[k].close in END_MARKERS
  }

  lemma OpeningIsTag(bar: char, word: string, more: string)
    requires bar != '<' && '<' !in word && '<' !in more
    ensures TagLike(Opening(bar, word) + more) && |Opening(bar, word)| == 9 + |word|
  {
    var inner := [bar, bar] + "DSML" + [bar, bar] + word + more;
    assert '<' !in [bar, bar] && '<' !in "DSML";
    assert (Opening(bar, word) + more)[1..] == inner;
  }

  lemma ClosingIsTag(bar: char, word: string)
    requires bar != '<' && '<' !in word
    ensures TagLike(Closing(bar, word)) && |Closing(bar, word)| == 11 + |word|
  {
    var inner := "/" + [bar, bar] + "DSML" + [bar, bar] + word + ">";
    assert '<' !in "/" && '<' !in [bar, bar] && '<' !in "DSML" && '<' !in ">";
    assert Closing(bar, word)[1..] == inner;
  }

  lemma MarkerFacts()
    ensures forall p :: p in START_MARKERS ==> TagLike(p) && |p| == 20
    ensures forall p :: p in END_MARKERS ==> TagLike(p) && |p| == 21
  {
    assert '<' !in "tool_calls" && '<' !in ">" && |"tool_calls"| == 10;
    OpeningIsTag(WIDE, "tool_calls", ">");
    OpeningIsTag(NARROW, "tool_calls", ">");
    ClosingIsTag(WIDE, "tool_calls");
    ClosingIsTag(NARROW, "tool_calls");
    hide Opening, Closing, TagLike;
  }

  lemma OccursInPrefix(s: string, n: nat, pat: string, i: nat)
    requires n <= |s| && OccursAt(s[..n], pat, i)
    ensures OccursAt(s, pat, i)
  {
    assert s[..n][i..i + |pat|] == s[i..i + |pat|];
  }

  lemma CutIsFirst(content: string, markers: seq<string>)
    requires forall p :: p in markers ==> p != ""
    ensures var c := CutAt(content, markers);
            && (c.Uncut? ==> FreeOfAll(content, markers))
            && (c.Cut? ==> FreeOfAll(c.before, markers))
            && (c.Cut? ==> forall p, i: nat :: p in markers && OccursAt(content, p, i) ==> i >= |c.before|)
  {
    MarkerIsFirst(content, markers);
    hide FindMarker;
    var m := FindMarker(content, markers);
    if m.index >= 0 {
      BeforeIsFree(content, markers, m.index);
    }
  }

  lemma BeforeIsFree(content: string, markers: seq<string>, n: nat)
    requires n <= |content| && (forall p :: p in markers ==> p != "")
    requires forall p, i: nat :: p in markers && i < n ==> !OccursAt(content, p, i)
    ensures FreeOfAll(content[..n], markers)
  {
    forall p, i: nat | p in markers ensures !OccursAt(content[..n], p, i) {
      if OccursAt(content[..n], p, i) {
        OccursInPrefix(content, n, p, i);
      }
    }
  }

  lemma OccursBehind(t: string, v: string, pat: string, j: nat)
    requires OccursAt(t + v, pat, j) && j >= |t|
    ensures OccursAt(v, pat, j - |t|)
  {
    OccursShifted(t, v, pat, j - |t|);
  }

  /** Where the parser stops, no complete block is left. */
  lemma StopsWithoutBlock(content: string)
    requires CutAt(content, START_MARKERS).Cut? ==> CutAt(CutAt(content, START_MARKERS).rest, END_MARKERS).Uncut?
    ensures NoBlock(content)
  {
    MarkerFacts();
    CutIsFirst(content, START_MARKERS);
    var c := CutAt(content, START_MARKERS);
    if c.Cut? {
      CutIsFirst(c.rest, END_MARKERS);
      hide CutAt;
      forall p, q, i: nat, j: nat |
        p in START_MARKERS && q in END_MARKERS && OccursAt(content, p, i) && OccursAt(content, q, j) ensures j < i + |p|
      {
        if j >= i + |p| {
          assert content == (c.before + c.marker) + c.rest;
          OccursBehind(c.before + c.marker, c.rest, q, j);
          assert false;
        }
      }
    }
  }

  /** The two cuts around a block. */
  lemma SplitsAfterBlock(content: string, part: Part, rest: string)
    requires var start := CutAt(content, START_MARKERS);
             start.Cut? && CutAt(start.rest, END_MARKERS) == Cut(part.body, part.close, rest)
             && part.text == start.before && part.open == start.marker
    ensures |rest| < |content|
    ensures SplitBlocks(content) == ([part] + SplitBlocks(rest).0, SplitBlocks(rest).1)
    ensures content == part.text + part.open + part.body + part.close + rest
  {
    MarkerFacts();
    hide CutAt, TagLike, START_MARKERS, END_MARKERS;
    var start := CutAt(content, START_MARKERS);
    assert content == start.before + start.marker + (part.body + part.close + rest);
  }

  lemma BlockIsLayout(content: string, part: Part, rest: string)
    requires var start := CutAt(content, START_MARKERS);
             start.Cut? && CutAt(start.rest, END_MARKERS) == Cut(part.body, part.close, rest)
             && part.text == start.before && part.open == start.marker
    ensures FreeOfAll(part.text, START_MARKERS) && part.open in START_MARKERS
    ensures FreeOfAll(part.body, END_MARKERS) && part.close in END_MARKERS
  {
    MarkerFacts();
    hide CutAt, FreeOfAll, TagLike, START_MARKERS, END_MARKERS;
    CutIsFirst(content, START_MARKERS);
    CutIsFirst(CutAt(content, START_MARKERS).rest, END_MARKERS);
  }

  lemma SplitStops(content: string)
    requires CutAt(content, START_MARKERS).Cut? ==> CutAt(CutAt(content, START_MARKERS).rest, END_MARKERS).Uncut?
    ensures SplitBlocks(content) == ([], content)
  {
    hide CutAt;
  }

  /** The parser's blocks partition its input: nothing is lost, and they are the complete blocks from left to
      right. */
  lemma {:induction false} SplitIsLayout(content: string)
    ensures var (parts, tail) := SplitBlocks(content); Join(parts, tail) == content && IsLayout(parts, tail)
    decreases |content|
  {
    hide CutAt, FreeOfAll, SplitBlocks, Join, IsLayout;
    var start := CutAt(content, START_MARKERS);
    if start.Cut? && CutAt(start.rest, END_MARKERS).Cut? {
      var end := CutAt(start.rest, END_MARKERS);
      var part := Part(start.before, start.marker, end.before, end.marker);
      SplitsAfterBlock(content, part, end.rest);
      BlockIsLayout(content, part, end.rest);
      SplitIsLayout(end.rest);
      JoinCons(part, SplitBlocks(end.rest).0, SplitBlocks(end.rest).1);
      LayoutCons(part, SplitBlocks(end.rest).0, SplitBlocks(end.rest).1);
    } else {
      SplitStops(content);
      StopsWithoutBlock(content);
      LayoutOfTail(content);
    }
  }

  lemma LayoutOfTail(tail: string)
    requires NoBlock(tail)
    ensures IsLayout([], tail) && Join([], tail) == tail
  {
  }

  lemma JoinCons(part: Part, later: seq<Part>, tail: string)
    ensures Join([part] + later, tail) == part.text + part.open + part.body + part.close + Join(later, tail)
  {
    assert ([part] + later)[1..] == later;
  }

  lemma LayoutCons(part: Part, later: seq<Part>, tail: string)
    requires IsLayout(later, tail)
    requires FreeOfAll(part.text, START_MARKERS) && part.open in START_MARKERS
    requires FreeOfAll(part.body, END_MARKERS) && part.close in END_MARKERS
    ensures IsLayout([part] + later, tail)
  {
    hide NoBlock, FreeOfAll;
  }

  lemma CutUnique(before: string, marker: string, rest: string, markers: seq<string>, size: nat)
    requires marker in markers && forall p :: p in markers ==> TagLike(p) && |p| == size
    requires FreeOfAll(before, markers)
    ensures CutAt(before + marker + rest, markers) == Cut(before, marker, rest)
  {
    var content := before + marker + rest;
    assert content == before + (marker + rest);
    assert content[|before|..|before| + |marker|] == marker;
    MarkerIsFirst(content, markers);
    forall p, i: nat | p in markers && i < |before| ensures !OccursAt(content, p, i) {
      NoStraddling(before, marker + rest, p, i);
    }
    var m := FindMarker(content, markers);
    hide FindMarker;
    assert OccursAt(content, marker, |before|);
    assert m.index == |before|;
    assert content[..|before|] == before && content[|before| + size..] == rest;
  }

  lemma TwoCutsAreABlock(content: string)
    requires CutAt(content, START_MARKERS).Cut? && CutAt(CutAt(content, START_MARKERS).rest, END_MARKERS).Cut?
    ensures !NoBlock(content)
  {
    hide CutAt, TagLike, START_MARKERS, END_MARKERS, FindMarker;
    MarkerFacts();
    var start := CutAt(content, START_MARKERS);
    var end := CutAt(start.rest, END_MARKERS);
    var i, j := |start.before|, |start.before| + |start.marker| + |end.before|;
    assert content[i..i + |start.marker|] == start.marker;
    assert content[j..j + |end.marker|] == end.marker;
    assert OccursAt(content, start.marker, i) && OccursAt(content, end.marker, j);
  }

  lemma NoBlockStops(content: string)
    requires NoBlock(content)
    ensures SplitBlocks(content) == ([], content)
  {
    hide CutAt, NoBlock;
    if CutAt(content, START_MARKERS).Cut? && CutAt(CutAt(content, START_MARKERS).rest, END_MARKERS).Cut? {
      TwoCutsAreABlock(content);
    }
  }

  lemma SplitOne(part: Part, rest: string)
    requires FreeOfAll(part.text, START_MARKERS) && part.open in START_MARKERS
    requires FreeOfAll(part.body, END_MARKERS) && part.close in END_MARKERS
    ensures SplitBlocks(part.text + part.open + part.body + part.close + rest)
         == ([part] + SplitBlocks(rest).0, SplitBlocks(rest).1)
  {
    hide CutAt, FreeOfAll, TagLike, START_MARKERS, END_MARKERS;
    MarkerFacts();
    var behind := part.body + part.close + rest;
    CutUnique(part.text, part.open, behind, START_MARKERS, 20);
    CutUnique(part.body, part.close, rest, END_MARKERS, 21);
    assert part.text + part.open + part.body + part.close + rest == part.text + part.open + behind;
  }

  /** There is only one such partition: whatever text is put together from parts that way is split into just
      those parts again. */
  lemma {:induction false} LayoutIsUnique(parts: seq<Part>, tail: string)
    requires IsLayout(parts, tail)
    ensures SplitBlocks(Join(parts, tail)) == (parts, tail)
  {
    hide FreeOfAll, SplitBlocks, NoBlock;
    if parts == [] {
      NoBlockStops(tail);
    } else {
      LayoutIsUnique(parts[1..], tail);
      SplitOne(parts[0], Join(parts[1..], tail));
      assert parts == [parts[0]] + parts[1..];
    }
  }

  /** For any text, put together in its one way from blocks and the text between them: the calls are those of
      the blocks in order, and the cleaned text is the text with just the blocks taken out; a text without calls
      comes back untouched. */
  lemma ParseTakesBlocksOut(parts: seq<Part>, tail: string, html: string -> string)
    requires IsLayout(parts, tail) && TrimSpace(Join(parts, tail)) != ""
    ensures Parse(Join(parts, tail), html) ==
            if CallsOf(parts, html) == [] then NotDsml(Join(parts, tail))
            else Dsml(CallsOf(parts, html), TrimSpace(Texts(parts) + tail))
  {
    hide IsLayout, Join, SplitBlocks, TrimSpace, CallsOf, Texts;
    LayoutIsUnique(parts, tail);
  }
}
