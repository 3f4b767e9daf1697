/** Tool calls that a provider writes as DSML markup inside the answer text: parseDSMLToolCalls and its helpers
    in internal/platform/llm/llm.go. `html` stands for the library's entity decoder; arguments are kept as a map,
    before they are marshalled. */
module DsmlParser {
  import opened Text
  import opened MarkupSearch

  const WIDE := '\U{FF5C}'
  const NARROW := '|'

  function Opening(bar: char, word: string): string {
    "<" + [bar, bar] + "DSML" + [bar, bar] + word
  }

  function Closing(bar: char, word: string): string {
    "</" + [bar, bar] + "DSML" + [bar, bar] + word + ">"
  }

  const START_MARKERS := [Opening(WIDE, "tool_calls") + ">", Opening(NARROW, "tool_calls") + ">"]
  const END_MARKERS := [Closing(WIDE, "tool_calls"), Closing(NARROW, "tool_calls")]

  lemma StartMarkup()
    ensures Opening(WIDE, "tool_calls") + ">" == "<\U{FF5C}\U{FF5C}DSML\U{FF5C}\U{FF5C}tool_calls>"
    ensures Opening(NARROW, "tool_calls") + ">" == "<||DSML||tool_calls>"
  {
  }

  lemma EndMarkup()
    ensures Closing(WIDE, "tool_calls") == "</\U{FF5C}\U{FF5C}DSML\U{FF5C}\U{FF5C}tool_calls>"
    ensures Closing(NARROW, "tool_calls") == "</||DSML||tool_calls>"
  {
  }

  lemma ElementMarkup()
    ensures Opening(NARROW, "invoke") == "<||DSML||invoke" && Closing(NARROW, "invoke") == "</||DSML||invoke>"
    ensures Opening(NARROW, "parameter") == "<||DSML||parameter" && Closing(NARROW, "parameter") == "</||DSML||parameter>"
  {
  }

  datatype Call = Call(name: string, arguments: map<string, string>)

  // ---- Markers -----------------------------------------------------------------------------------------

  datatype Marker = Marker(index: int, text: string)

  function FindMarker(content: string, markers: seq<string>): Marker {
    if markers == [] then Marker(-1, "")
    else
      var found, last := FindMarker(content, markers[..|markers| - 1]), markers[|markers| - 1];
      var index := Index(content, last);
      if index >= 0 && (found.index < 0 || index < found.index) then Marker(index, last) else found
  }

  method FindDSMLMarker(content: string, markers: seq<string>) returns (found: Marker)
    ensures found == FindMarker(content, markers)
  {
    hide Index;
    found := Marker(-1, "");
    for i := 0 to |markers|
      invariant found == FindMarker(content, markers[..i])
    {
      assert markers[..i + 1][..i] == markers[..i];
      var index := Index(content, markers[i]);
      if index < 0 {
        continue;
      }
      if found.index < 0 || index < found.index {
        found := Marker(index, markers[i]);
      }
    }
    assert markers[..|markers|] == markers;
  }

  /** The marker found is one of those searched for, it stands where it was found, and none stands earlier. */
  lemma {:induction false} MarkerIsFirst(content: string, markers: seq<string>)
    ensures var m := FindMarker(content, markers);
            && m.index >= -1
            && (m.index < 0 <==> forall p :: p in markers ==> Free(content, p))
            && (m.index >= 0 ==>
                  && m.text in markers && OccursAt(content, m.text, m.index)
                  && forall p, i: nat :: p in markers && i < m.index ==> !OccursAt(content, p, i))
  {
    hide Index, OccursAt;
    if markers != [] {
      var init, last := markers[..|markers| - 1], markers[|markers| - 1];
      MarkerIsFirst(content, init);
      FirstOf(content, last);
      assert markers == init + [last];
    }
  }

  lemma FirstOf(content: string, pat: string)
    ensures var r := Index(content, pat);
            && r >= -1 && (r < 0 <==> Free(content, pat))
            && (r >= 0 ==> OccursAt(content, pat, r) && forall i: nat :: i < r ==> !OccursAt(content, pat, i))
  {
    IndexNoneIffFree(content, pat);
    IndexIsFirst(content, pat, 0);
    forall i: nat | i < Index(content, pat) ensures !OccursAt(content, pat, i) {
      IndexIsFirst(content, pat, i);
    }
  }

  /** The first marker, if any, with the text on either side of it. */
  datatype Cut = Uncut | Cut(before: string, marker: string, rest: string)

  function CutAt(content: string, markers: seq<string>): (r: Cut)
    ensures r.Cut? ==> r.before + r.marker + r.rest == content && r.marker in markers
  {
    MarkerIsFirst(content, markers);
    var m := FindMarker(content, markers);
    if m.index < 0 then Uncut
    else Cut(content[..m.index], m.text, content[m.index + |m.text|..])
  }

  // ---- Attributes ----------------------------------------------------------------------------------------

  function Attribute(tag: string, name: string, html: string -> string): string {
    var prefix := name + "=\"";
    var start := Index(tag, prefix);
    if start < 0 then ""
    else
      IndexInBounds(tag, prefix);
      var rest := tag[start + |prefix|..];
      var end := Index(rest, "\"");
      if end < 0 then ""
      else
        IndexInBounds(rest, "\"");
        TrimSpace(html(rest[..end]))
  }

  // ---- Elements: one opening tag, up to its closing tag ------------------------------------------------------

  /** What a round of the invoke or parameter loop finds in the rest of its text: nothing more, a tag without a
      name to step over, or an element. */
  datatype Element = NoElement | Unnamed(rest: string) | Element(name: string, body: string, rest: string)

  function CloseElement(name: string, content: string, closing: string): (r: Element)
    ensures r.Element? ==> |r.rest| <= |content|
    ensures !r.Unnamed?
  {
    IndexInBounds(content, closing);
    var close := Index(content, closing);
    if close < 0 then NoElement else Element(name, content[..close], content[close + |closing|..])
  }

  function NextElement(content: string, word: string, html: string -> string): (r: Element)
    ensures !r.NoElement? ==> |r.rest| < |content|
  {
    IndexInBounds(content, Opening(NARROW, word));
    var start := Index(content, Opening(NARROW, word));
    if start < 0 then NoElement
    else
      IndexInBounds(content[start..], ">");
      var tagEnd := Index(content[start..], ">");
      if tagEnd < 0 then NoElement
      else
        var name := Attribute(content[start..][..tagEnd + 1], "name", html);
        var rest := content[start..][tagEnd + 1..];
        if name == "" then Unnamed(rest) else CloseElement(name, rest, Closing(NARROW, word))
  }

  function Parameters(content: string, html: string -> string, params: map<string, string>): map<string, string>
    decreases |content|
  {
    match NextElement(content, "parameter", html)
    case NoElement => params
    case Unnamed(rest) => Parameters(rest, html, params)
    case Element(name, body, rest) => Parameters(rest, html, params[name := TrimSpace(html(body))])
  }

  function Invokes(content: string, html: string -> string): seq<Call>
    decreases |content|
  {
    match NextElement(content, "invoke", html)
    case NoElement => []
    case Unnamed(rest) => Invokes(rest, html)
    case Element(name, body, rest) => [Call(name, Parameters(body, html, map[]))] + Invokes(rest, html)
  }

  /** Full-width bars become plain ones. */
  function Normalize(content: string): (r: string)
    ensures |r| == |content|
  {
    seq(|content|, i requires 0 <= i < |content| => if content[i] == WIDE then NARROW else content[i])
  }

  lemma SliceTwice(s: string, a: nat, b: nat)
    requires a + b <= |s|
    ensures s[a..][b..] == s[a + b..] && s[a..][..b] == s[a..a + b]
  {
  }

  /** The end of the element whose body starts at `bodyStart`. */
  method FindClose(content: string, bodyStart: nat, name: string, closing: string) returns (r: Element, after: nat)
    requires bodyStart <= |content|
    ensures r == CloseElement(name, content[bodyStart..], closing)
    ensures bodyStart <= after <= |content| && (r.Element? ==> r.rest == content[after..])
  {
    hide Index;
    IndexInBounds(content[bodyStart..], closing);
    var closeIndex := Index(content[bodyStart..], closing);
    if closeIndex < 0 {
      return NoElement, bodyStart;
    }
    SliceTwice(content, bodyStart, closeIndex);
    SliceTwice(content, bodyStart, closeIndex + |closing|);
    var bodyEnd := bodyStart + closeIndex;
    return Element(name, content[bodyStart..bodyEnd], content[bodyEnd + |closing|..]), bodyEnd + |closing|;
  }

  /** The element after `offset`, with the absolute positions the loops use. `after` is the next offset. */
  method FindElement(content: string, offset: nat, word: string, html: string -> string)
    returns (r: Element, after: nat)
    requires offset <= |content|
    ensures r == NextElement(content[offset..], word, html)
    ensures offset <= after <= |content| && (!r.NoElement? ==> r.rest == content[after..] && after > offset)
  {
    hide Index, Attribute, Opening, Closing, CloseElement;
    var opening := Opening(NARROW, word);
    IndexInBounds(content[offset..], opening);
    var start := Index(content[offset..], opening);
    if start < 0 {
      return NoElement, offset;
    }
    var startIndex := offset + start;
    SliceTwice(content, offset, start);
    IndexInBounds(content[startIndex..], ">");
    var tagEnd := Index(content[startIndex..], ">");
    if tagEnd < 0 {
      return NoElement, offset;
    }
    SliceTwice(content, startIndex, tagEnd + 1);
    tagEnd := tagEnd + startIndex;
    var name := Attribute(content[startIndex..tagEnd + 1], "name", html);
    if name == "" {
      return Unnamed(content[tagEnd + 1..]), tagEnd + 1;
    }
    r, after := FindClose(content, tagEnd + 1, name, Closing(NARROW, word));
  }

  method ParseDSMLParameters(content: string, html: string -> string) returns (params: map<string, string>)
    ensures params == Parameters(content, html, map[])
  {
    hide NextElement, TrimSpace;
    params := map[];
    var offset := 0;
    assert content[0..] == content;
    while true
      invariant offset <= |content|
      invariant Parameters(content, html, map[]) == Parameters(content[offset..], html, params)
      decreases |content| - offset
    {
      var e, after := FindElement(content, offset, "parameter", html);
      if e.NoElement? {
        break;
      }
      if e.Element? {
        params := params[e.name := TrimSpace(html(e.body))];
      }
      offset := after;
    }
  }

  method ParseDSMLInvokes(content: string, html: string -> string) returns (calls: seq<Call>)
    ensures calls == Invokes(Normalize(content), html)
  {
    hide NextElement;
    var normalized := Normalize(content);
    calls := [];
    var offset := 0;
    assert normalized[0..] == normalized;
    while true
      invariant offset <= |normalized|
      invariant Invokes(normalized, html) == calls + Invokes(normalized[offset..], html)
      decreases |normalized| - offset
    {
      var e, after := FindElement(normalized, offset, "invoke", html);
      if e.NoElement? {
        break;
      }
      if e.Element? {
        var args := ParseDSMLParameters(e.body, html);
        calls := calls + [Call(e.name, args)];
      }
      offset := after;
    }
  }

  // ---- Blocks ----------------------------------------------------------------------------------------------

  /** Text, then a complete block. */
  datatype Part = Part(text: string, open: string, body: string, close: string)

  function SplitBlocks(content: string): (r: (seq<Part>, string))
    decreases |content|
  {
    var start := CutAt(content, START_MARKERS);
    if start.Uncut? then ([], content)
    else
      var end := CutAt(start.rest, END_MARKERS);
      if end.Uncut? then ([], content)
      else
        var (parts, tail) := SplitBlocks(end.rest);
        ([Part(start.before, start.marker, end.before, end.marker)] + parts, tail)
  }

  function Texts(parts: seq<Part>): string {
    if parts == [] then "" else parts[0].text + Texts(parts[1..])
  }

  function CallsOf(parts: seq<Part>, html: string -> string): seq<Call> {
    if parts == [] then [] else Invokes(Normalize(parts[0].body), html) + CallsOf(parts[1..], html)
  }

  datatype Parsed = NotDsml(content: string) | Dsml(calls: seq<Call>, cleaned: string)

  function Parse(content: string, html: string -> string): Parsed {
    if TrimSpace(content) == "" then NotDsml("")
    else
      var (parts, tail) := SplitBlocks(content);
      var calls := CallsOf(parts, html);
      if calls == [] then NotDsml(content) else Dsml(calls, TrimSpace(Texts(parts) + tail))
  }

  /** The cut after `offset`; `after` is where its rest starts. */
  method FindCut(content: string, offset: nat, markers: seq<string>) returns (r: Cut, at: nat, after: nat)
    requires offset <= |content|
    ensures r == CutAt(content[offset..], markers)
    ensures r.Cut? ==> offset <= at <= after <= |content| && after == at + |r.marker| && r.marker in markers
    ensures r.Cut? ==> r.before == content[offset..at] && r.rest == content[after..]
  {
    hide FindMarker;
    var m := FindDSMLMarker(content[offset..], markers);
    MarkerIsFirst(content[offset..], markers);
    if m.index < 0 {
      return Uncut, offset, offset;
    }
    SliceTwice(content, offset, m.index);
    SliceTwice(content, offset, m.index + |m.text|);
    at := offset + m.index;
    after := at + |m.text|;
    r := Cut(content[offset..at], m.text, content[after..]);
  }

  lemma SplitNone(content: string, html: string -> string)
    requires CutAt(content, START_MARKERS).Cut? ==> CutAt(CutAt(content, START_MARKERS).rest, END_MARKERS).Uncut?
    ensures SplitBlocks(content) == ([], content) && CallsOf([], html) == [] && Texts([]) == ""
  {
    hide CutAt;
  }

  lemma SplitSome(content: string, start: Cut, close: Cut, html: string -> string)
    requires start.Cut? && start == CutAt(content, START_MARKERS) && close.Cut? && close == CutAt(start.rest, END_MARKERS)
    ensures var (parts, tail) := SplitBlocks(content);
            var (later, end) := SplitBlocks(close.rest);
            && tail == end
            && CallsOf(parts, html) == Invokes(Normalize(close.before), html) + CallsOf(later, html)
            && Texts(parts) == start.before + Texts(later)
  {
    hide CutAt, Invokes, Normalize;
    var (later, end) := SplitBlocks(close.rest);
    assert ([Part(start.before, start.marker, close.before, close.marker)] + later)[1..] == later;
  }

  /** The loop has collected everything before `rest`. */
  predicate Collected(content: string, rest: string, calls: seq<Call>, cleaned: string, html: string -> string) {
    var (parts, tail) := SplitBlocks(content);
    var (later, end) := SplitBlocks(rest);
    CallsOf(parts, html) == calls + CallsOf(later, html) && Texts(parts) + tail == cleaned + Texts(later) + end
  }

  lemma Regroup<T>(a: seq<T>, b: seq<T>, c: seq<T>, d: seq<T>)
    ensures a + (b + c) == a + b + c && a + (b + c) + d == a + b + c + d
  {
  }

  lemma CollectedNext(content: string, rest: string, calls: seq<Call>, cleaned: string, start: Cut, close: Cut, html: string -> string)
    requires Collected(content, rest, calls, cleaned, html)
    requires start.Cut? && start == CutAt(rest, START_MARKERS) && close.Cut? && close == CutAt(start.rest, END_MARKERS)
    ensures Collected(content, close.rest, calls + Invokes(Normalize(close.before), html), cleaned + start.before, html)
  {
    hide SplitBlocks, CallsOf, Texts, Invokes, Normalize, CutAt;
    SplitSome(rest, start, close, html);
    var (later, end) := SplitBlocks(close.rest);
    Regroup(calls, Invokes(Normalize(close.before), html), CallsOf(later, html), []);
    Regroup(cleaned, start.before, Texts(later), end);
  }

  lemma CollectedAll(content: string, rest: string, calls: seq<Call>, cleaned: string, html: string -> string)
    requires Collected(content, rest, calls, cleaned, html)
    requires CutAt(rest, START_MARKERS).Cut? ==> CutAt(CutAt(rest, START_MARKERS).rest, END_MARKERS).Uncut?
    ensures CallsOf(SplitBlocks(content).0, html) == calls
    ensures Texts(SplitBlocks(content).0) + SplitBlocks(content).1 == cleaned + rest
  {
    SplitNone(rest, html);
    hide SplitBlocks, CallsOf, Texts, CutAt;
    assert cleaned + "" + rest == cleaned + rest;
  }

  /** The loop over the blocks. */
  method CollectBlocks(content: string, html: string -> string) returns (calls: seq<Call>, cleaned: string)
    ensures calls == CallsOf(SplitBlocks(content).0, html)
    ensures cleaned == Texts(SplitBlocks(content).0) + SplitBlocks(content).1
  {
    CollectedNone(content, html);
    hide Invokes, Normalize, CutAt, SplitBlocks, CallsOf, Texts, Collected;
    calls, cleaned := [], "";
    var offset := 0;
    assert content[0..] == content;
    while true
      invariant offset <= |content| && Collected(content, content[offset..], calls, cleaned, html)
      decreases |content| - offset
    {
      var start, startIndex, bodyStart := FindCut(content, offset, START_MARKERS);
      if start.Uncut? {
        CollectedAll(content, content[offset..], calls, cleaned, html);
        cleaned := cleaned + content[offset..];
        break;
      }
      ghost var before := cleaned;
      cleaned := cleaned + content[offset..startIndex];
      var close, bodyEnd, blockEnd := FindCut(content, bodyStart, END_MARKERS);
      if close.Uncut? {
        CollectedAll(content, content[offset..], calls, before, html);
        cleaned := cleaned + content[startIndex..];
        assert cleaned == before + content[offset..];
        break;
      }
      CollectedNext(content, content[offset..], calls, before, start, close, html);
      MarkersAreLong(start.marker);
      var found := ParseDSMLInvokes(content[bodyStart..bodyEnd], html);
      calls := calls + found;
      offset := blockEnd;
    }
  }

  lemma CollectedNone(content: string, html: string -> string)
    ensures Collected(content, content, [], "", html)
  {
    hide SplitBlocks, CallsOf, Texts;
    assert "" + Texts(SplitBlocks(content).0) + SplitBlocks(content).1 == Texts(SplitBlocks(content).0) + SplitBlocks(content).1;
  }

  lemma MarkersAreLong(marker: string)
    ensures marker in START_MARKERS ==> |marker| > 0
  {
  }

  method ParseDSMLToolCalls(content: string, html: string -> string) returns (parsed: Parsed)
    ensures parsed == Parse(content, html)
  {
    hide TrimSpace, SplitBlocks, CallsOf, Texts;
    if TrimSpace(content) == "" {
      return NotDsml("");
    }
    var calls, cleaned := CollectBlocks(content, html);
    if calls == [] {
      return NotDsml(content);
    }
    return Dsml(calls, TrimSpace(cleaned));
  }
}
