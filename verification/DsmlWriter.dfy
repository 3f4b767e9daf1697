/** Tool calls written as DSML, in either style of bars, with other text, gaps and further attributes around
    them, and the proof that they parse back. */
module DsmlWriter {
  import opened Text
  import opened MarkupSearch
  import opened DsmlParser
  import opened DsmlRoundTrip

  datatype Param = Param(gap: string, name: string, attrs: string, value: string)

  datatype Invoke = Invoke(gap: string, name: string, attrs: string, params: seq<Param>, gapAfter: string)

  datatype Block = Block(bar: char, invokes: seq<Invoke>, gapAfter: string)

  function Tag(bar: char, word: string, name: string, attrs: string): string {
    Opening(bar, word) + " name=\"" + name + "\"" + attrs + ">"
  }

  function WriteElement(bar: char, word: string, gap: string, name: string, attrs: string, body: string): string {
    gap + Tag(bar, word, name, attrs) + body + Closing(bar, word)
  }

  function WriteParam(bar: char, p: Param): string {
    WriteElement(bar, "parameter", p.gap, p.name, p.attrs, p.value)
  }

  function WriteParams(bar: char, params: seq<Param>): string {
    if params == [] then "" else WriteParam(bar, params[0]) + WriteParams(bar, params[1..])
  }

  function InvokeBody(bar: char, i: Invoke): string {
    WriteParams(bar, i.params) + i.gapAfter
  }

  function WriteInvoke(bar: char, i: Invoke): string {
    WriteElement(bar, "invoke", i.gap, i.name, i.attrs, InvokeBody(bar, i))
  }

  function WriteInvokes(bar: char, invokes: seq<Invoke>): string {
    if invokes == [] then "" else WriteInvoke(bar, invokes[0]) + WriteInvokes(bar, invokes[1..])
  }

  function BlockBody(b: Block): string {
    WriteInvokes(b.bar, b.invokes) + b.gapAfter
  }

  /** Text, then the block behind it. */
  function PartOf(text: string, b: Block): Part {
    Part(text, Opening(b.bar, "tool_calls") + ">", BlockBody(b), Closing(b.bar, "tool_calls"))
  }

  function PartsOf(pieces: seq<(string, Block)>): (parts: seq<Part>)
    ensures |parts| == |pieces|
  {
    seq(|pieces|, k requires 0 <= k < |pieces| => PartOf(pieces[k].0, pieces[k].1))
  }

  // ---- What can be written: any raw text in which no tag starts -------------------------------------------------

  predicate Plain(s: string) {
    '<' !in s
  }

  predicate NameOk(name: string) {
    '"' !in name && '>' !in name && Plain(name)
  }

  predicate HeadOk(gap: string, name: string, attrs: string) {
    Plain(gap) && NameOk(name) && '>' !in attrs && Plain(attrs)
  }

  predicate ParamsOk(params: seq<Param>) {
    forall p :: p in params ==> HeadOk(p.gap, p.name, p.attrs) && Plain(p.value)
  }

  predicate InvokesOk(invokes: seq<Invoke>) {
    forall i :: i in invokes ==> HeadOk(i.gap, i.name, i.attrs) && ParamsOk(i.params) && Plain(i.gapAfter)
  }

  predicate BlockOk(b: Block) {
    b.bar in {WIDE, NARROW} && InvokesOk(b.invokes) && Plain(b.gapAfter)
  }

  // ---- What the text says: the calls -----------------------------------------------------------------------------

  /** What a raw name or value says: bars made plain, entities decoded, no white space around it. */
  function Says(raw: string, html: string -> string): string {
    TrimSpace(html(Normalize(raw)))
  }

  /** A parameter without a name is left out; a later parameter of the same name wins. */
  function Arguments(params: seq<Param>, html: string -> string, before: map<string, string>): map<string, string> {
    if params == [] then before
    else
      var name := Says(params[0].name, html);
      Arguments(params[1..], html, if name == "" then before else before[name := Says(params[0].value, html)])
  }

  function CallOf(i: Invoke, html: string -> string): Call {
    Call(Says(i.name, html), Arguments(i.params, html, map[]))
  }

  /** A call without a name is left out. */
  function CallsIn(invokes: seq<Invoke>, html: string -> string): seq<Call> {
    if invokes == [] then []
    else (if Says(invokes[0].name, html) == "" then [] else [CallOf(invokes[0], html)]) + CallsIn(invokes[1..], html)
  }

  function AllCalls(pieces: seq<(string, Block)>, html: string -> string): seq<Call> {
    if pieces == [] then [] else CallsIn(pieces[0].1.invokes, html) + AllCalls(pieces[1..], html)
  }

  /** Entity-free text without full-width bars and outer white space says itself. */
  lemma SaysItself(s: string, html: string -> string)
    requires Trimmed(s) && WIDE !in s && html(s) == s
    ensures Says(s, html) == s
  {
    NormalizePlain(s);
  }

  /** The arguments are the named parameters, each with the value given last. */
  lemma {:induction false} ArgumentsExactly(params: seq<Param>, html: string -> string, before: map<string, string>)
    ensures var arguments := Arguments(params, html, before);
            && (forall name :: name in arguments <==> name in before || Given(params, html, name))
            && (forall name :: name in before && !Given(params, html, name) ==> arguments[name] == before[name])
            && (forall k :: 0 <= k < |params| && Says(params[k].name, html) != "" && !Given(params[k + 1..], html, Says(params[k].name, html)) ==>
                  arguments[Says(params[k].name, html)] == Says(params[k].value, html))
  {
    hide Says;
    if params != [] {
      var rest := params[1..];
      var name := Says(params[0].name, html);
      var next := if name == "" then before else before[name := Says(params[0].value, html)];
      ArgumentsExactly(rest, html, next);
      forall n ensures Given(params, html, n) <==> Given(rest, html, n) || (n == name && n != "") {
        GivenCons(params, html, n);
      }
      forall k | 1 <= k < |params| ensures params[k] == rest[k - 1] && params[k + 1..] == rest[k..] {
      }
      assert forall n :: n in next <==> n in before || (n == name && n != "");
    }
  }

  ghost predicate Given(params: seq<Param>, html: string -> string, name: string) {
    name != "" && exists k :: 0 <= k < |params| && Says(params[k].name, html) == name
  }

  lemma GivenCons(params: seq<Param>, html: string -> string, name: string)
    requires params != []
    ensures Given(params, html, name) <==>
              Given(params[1..], html, name) || (name == Says(params[0].name, html) && name != "")
  {
    hide Says;
    if k :| 1 <= k < |params| && Says(params[k].name, html) == name {
      assert params[1..][k - 1] == params[k];
    }
  }

  /** Calls stand in the order they are written in, across blocks too. */
  lemma {:induction false} CallsInOrder(a: seq<Invoke>, b: seq<Invoke>, html: string -> string)
    ensures CallsIn(a + b, html) == CallsIn(a, html) + CallsIn(b, html)
  {
    hide Says, CallOf;
    if a == [] {
      assert a + b == b;
    } else {
      assert (a + b)[1..] == a[1..] + b;
      CallsInOrder(a[1..], b, html);
    }
  }

  lemma {:induction false} BlocksInOrder(a: seq<(string, Block)>, b: seq<(string, Block)>, html: string -> string)
    ensures AllCalls(a + b, html) == AllCalls(a, html) + AllCalls(b, html)
    ensures AllTexts(a + b) == AllTexts(a) + AllTexts(b)
  {
    hide CallsIn;
    if a == [] {
      assert a + b == b;
    } else {
      assert (a + b)[1..] == a[1..] + b;
      BlocksInOrder(a[1..], b, html);
    }
  }

  // ---- Reading one element -------------------------------------------------------------------------------------

  predicate Word(word: string) {
    word in {"invoke", "parameter"}
  }

  lemma WordIsPlain(word: string)
    requires Word(word)
    ensures '<' !in word && '>' !in word && '=' !in word && WIDE !in word && word != ""
  {
  }

  /** The attribute's prefix cannot occur before an equals sign does. */
  lemma PrefixFound(pre: string, post: string)
    requires '=' !in pre
    ensures Index(pre + ("name=\"" + post), "name=\"") == |pre|
  {
    var pat := "name=\"";
    var s := pre + (pat + post);
    assert s[|pre|..|pre| + |pat|] == pat;
    forall i: nat | i < |pre| ensures !OccursAt(s, pat, i) {
      if i + |pat| <= |s| {
        assert s[i..i + |pat|][4] == s[i + 4];
        if i + 4 < |pre| {
          assert s[i + 4] == pre[i + 4];
        } else {
          assert s[i + 4] == pat[i + 4 - |pre|];
        }
      }
    }
    IndexUnique(s, pat, |pre|);
  }

  lemma AttributeRead(pre: string, name: string, post: string, html: string -> string)
    requires '=' !in pre && NameOk(name)
    ensures Attribute(pre + ("name=\"" + (name + "\"" + post)), "name", html) == TrimSpace(html(name))
  {
    var tag := pre + ("name=\"" + (name + "\"" + post));
    assert "name" + "=\"" == "name=\"";
    PrefixFound(pre, name + "\"" + post);
    hide TrimSpace;
    assert tag[|pre| + 6..] == name + "\"" + post;
    IndexOfChar(name, '"', post);
    hide Index;
    assert (name + "\"" + post)[..|name|] == name;
  }

  /** A tag without the attribute, or in which its value is not closed, has no name. */
  lemma AttributeMissing(tag: string, html: string -> string)
    requires Free(tag, "name=\"")
    ensures Attribute(tag, "name", html) == ""
  {
    assert "name" + "=\"" == "name=\"";
    IndexNoneIffFree(tag, "name=\"");
  }

  lemma AttributeUnclosed(pre: string, rest: string, html: string -> string)
    requires '=' !in pre && '"' !in rest
    ensures Attribute(pre + ("name=\"" + rest), "name", html) == ""
  {
    var tag := pre + ("name=\"" + rest);
    assert "name" + "=\"" == "name=\"";
    PrefixFound(pre, rest);
    assert tag[|pre| + 6..] == rest;
    NoSuchChar(rest, '"');
  }

  lemma OpeningIsPlain(word: string)
    requires Word(word)
    ensures '>' !in Opening(NARROW, word) && '=' !in Opening(NARROW, word)
  {
    assert '>' !in "<" && '>' !in [NARROW, NARROW] && '>' !in "DSML";
    assert '=' !in "<" && '=' !in [NARROW, NARROW] && '=' !in "DSML";
  }

  /** The tag without its closing angle bracket. */
  function TagBody(word: string, name: string, attrs: string): string {
    Opening(NARROW, word) + " name=\"" + name + "\"" + attrs
  }

  lemma TagRead(word: string, name: string, attrs: string, html: string -> string)
    requires Word(word) && NameOk(name) && '>' !in attrs
    ensures '>' !in TagBody(word, name, attrs)
    ensures Attribute(TagBody(word, name, attrs) + ">", "name", html) == TrimSpace(html(name))
  {
    OpeningIsPlain(word);
    hide Opening, Attribute, NameOk;
    assert '>' !in name by {
      PlainName(name);
    }
    assert '>' !in " name=\"" && '>' !in "\"" && '=' !in " ";
    var pre := Opening(NARROW, word) + " ";
    assert TagBody(word, name, attrs) + ">" == pre + ("name=\"" + (name + "\"" + (attrs + ">")));
    AttributeRead(pre, name, attrs + ">", html);
  }

  lemma PlainName(name: string)
    requires NameOk(name)
    ensures '>' !in name && '<' !in name
  {
  }

  lemma CloseFound(name: string, body: string, closing: string, rest: string)
    requires Passes(body, closing)
    ensures CloseElement(name, body + (closing + rest), closing) == Element(name, body, rest)
  {
    IndexAfterPassing(body, closing, rest);
    hide Index, Passes;
    assert (body + (closing + rest))[..|body|] == body;
    assert (body + (closing + rest))[|body| + |closing|..] == rest;
  }

  lemma TagFound(content: string, gap: string, tag: string, behind: string, word: string, html: string -> string)
    requires content == gap + (tag + ">" + behind) && '>' !in tag && Index(content, Opening(NARROW, word)) == |gap|
    ensures var name := Attribute(tag + ">", "name", html);
            NextElement(content, word, html) == if name == "" then Unnamed(behind) else CloseElement(name, behind, Closing(NARROW, word))
  {
    IndexOfChar(tag, '>', behind);
    hide Index, Attribute, Opening, Closing, CloseElement;
    assert content[|gap|..] == tag + ">" + behind;
    assert (tag + ">" + behind)[..|tag| + 1] == tag + ">";
    assert (tag + ">" + behind)[|tag| + 1..] == behind;
  }

  lemma OpeningTag(word: string)
    requires Word(word)
    ensures TagLike(Opening(NARROW, word)) && |Opening(NARROW, word)| == 9 + |word|
  {
    WordIsPlain(word);
    OpeningIsTag(NARROW, word, "");
    assert Opening(NARROW, word) + "" == Opening(NARROW, word);
  }

  lemma Regrouped(gap: string, head: string, opening: string, inTag: string, end: string, body: string, closing: string, rest: string)
    requires head == opening + inTag
    ensures gap + (head + end) + body + closing + rest == gap + (opening + (inTag + end + (body + (closing + rest))))
    ensures gap + (head + end) + body + closing + rest == gap + (head + end + (body + (closing + rest)))
  {
  }

  /** A written element is read back, with all that follows it; of one without a name only the tag is passed. */
  lemma ElementRead(word: string, gap: string, name: string, attrs: string, body: string, rest: string, html: string -> string)
    requires Word(word) && NameOk(name) && '>' !in attrs
    requires Passes(gap, Opening(NARROW, word)) && Passes(body, Closing(NARROW, word))
    ensures NextElement(WriteElement(NARROW, word, gap, name, attrs, body) + rest, word, html)
         == var said := TrimSpace(html(name));
            if said == "" then Unnamed(body + Closing(NARROW, word) + rest) else Element(said, body, rest)
  {
    hide NextElement, CloseElement, Index, Attribute, Opening, Closing, Passes, TrimSpace;
    TagRead(word, name, attrs, html);
    var head, closing := TagBody(word, name, attrs), Closing(NARROW, word);
    var inTag := " name=\"" + name + "\"" + attrs;
    assert head == Opening(NARROW, word) + inTag;
    Regrouped(gap, head, Opening(NARROW, word), inTag, ">", body, closing, rest);
    var content := gap + (head + ">") + body + closing + rest;
    assert WriteElement(NARROW, word, gap, name, attrs, body) + rest == content;
    IndexAfterPassing(gap, Opening(NARROW, word), inTag + ">" + (body + (closing + rest)));
    TagFound(content, gap, head, body + (closing + rest), word, html);
    assert body + (closing + rest) == body + closing + rest;
    CloseFound(TrimSpace(html(name)), body, closing, rest);
  }

  /** An element that is never closed, and a tag that is never finished, end the reading. */
  lemma UnclosedElement(word: string, gap: string, name: string, attrs: string, body: string, html: string -> string)
    requires Word(word) && NameOk(name) && '>' !in attrs && TrimSpace(html(name)) != ""
    requires Passes(gap, Opening(NARROW, word)) && Free(body, Closing(NARROW, word))
    ensures NextElement(gap + (Tag(NARROW, word, name, attrs) + body), word, html) == NoElement
  {
    hide NextElement, Index, Attribute, Opening, Closing, Passes, TrimSpace;
    TagRead(word, name, attrs, html);
    var head := TagBody(word, name, attrs);
    var inTag := " name=\"" + name + "\"" + attrs;
    var content := gap + (head + ">" + body);
    assert content == gap + (Opening(NARROW, word) + (inTag + ">" + body));
    assert Tag(NARROW, word, name, attrs) == head + ">";
    IndexAfterPassing(gap, Opening(NARROW, word), inTag + ">" + body);
    TagFound(content, gap, head, body, word, html);
    IndexNoneIffFree(body, Closing(NARROW, word));
  }

  lemma UnfinishedTag(word: string, gap: string, more: string, html: string -> string)
    requires Word(word) && Passes(gap, Opening(NARROW, word)) && '>' !in more
    ensures NextElement(gap + (Opening(NARROW, word) + more), word, html) == NoElement
  {
    OpeningIsPlain(word);
    hide Attribute, Closing, CloseElement, Passes, Opening;
    var content := gap + (Opening(NARROW, word) + more);
    IndexAfterPassing(gap, Opening(NARROW, word), more);
    hide Index;
    var tail := content[|gap|..];
    assert tail == Opening(NARROW, word) + more;
    NoSuchChar(tail, '>');
  }

  lemma NothingToRead(word: string, text: string, html: string -> string)
    requires Word(word) && Passes(text, Opening(NARROW, word))
    ensures NextElement(text, word, html) == NoElement
  {
    OpeningTag(word);
    hide Opening;
    PassesIsFree(text, Opening(NARROW, word));
    IndexNoneIffFree(text, Opening(NARROW, word));
  }

  // ---- Written text holds no foreign closing tag ---------------------------------------------------------------

  predicate Bar(bar: char) {
    bar in {WIDE, NARROW}
  }

  /** No occurrence of the pattern starts in a tag of this word, whatever attributes it has. */
  ghost predicate Avoids(bar: char, word: string, pat: string) {
    TagLike(pat) && Passes(Closing(bar, word), pat) && forall more :: '<' !in more ==> Passes(Opening(bar, word) + more, pat)
  }

  lemma AvoidsClosing(bar: char, word: string, other: char, otherWord: string)
    requires Bar(bar) && Bar(other) && '<' !in word && '<' !in otherWord
    requires word != "" && otherWord != "" && word[0] != otherWord[0]
    ensures Avoids(bar, word, Closing(other, otherWord))
  {
    var pat := Closing(other, otherWord);
    ClosingIsTag(bar, word);
    ClosingIsTag(other, otherWord);
    assert Closing(bar, word)[2] == bar && pat[2] == other && pat[1] == '/';
    assert Closing(bar, word)[10] == word[0] && pat[10] == otherWord[0];
    TagPasses(Closing(bar, word), pat, if bar != other then 2 else 10);
    forall more | '<' !in more ensures Passes(Opening(bar, word) + more, pat) {
      OpeningIsTag(bar, word, more);
      assert (Opening(bar, word) + more)[1] == bar;
      TagPasses(Opening(bar, word) + more, pat, 1);
    }
  }

  lemma ClosingPassesOpening(word: string, otherWord: string)
    requires Word(word) && Word(otherWord)
    ensures Passes(Closing(NARROW, word), Opening(NARROW, otherWord))
  {
    WordIsPlain(word);
    ClosingIsTag(NARROW, word);
    OpeningTag(otherWord);
    assert Closing(NARROW, word)[1] == '/' && Opening(NARROW, otherWord)[1] == NARROW;
    TagPasses(Closing(NARROW, word), Opening(NARROW, otherWord), 1);
  }

  lemma AvoidsOpening(word: string, otherWord: string)
    requires Word(word) && Word(otherWord) && word != otherWord
    ensures Avoids(NARROW, word, Opening(NARROW, otherWord))
  {
    WordIsPlain(word);
    OpeningTag(word);
    OpeningTag(otherWord);
    ClosingPassesOpening(word, otherWord);
    assert Opening(NARROW, word)[9] == word[0] && Opening(NARROW, otherWord)[9] == otherWord[0];
    forall more | '<' !in more ensures Passes(Opening(NARROW, word) + more, Opening(NARROW, otherWord)) {
      OpeningIsTag(NARROW, word, more);
      assert (Opening(NARROW, word) + more)[9] == word[0];
      TagPasses(Opening(NARROW, word) + more, Opening(NARROW, otherWord), 9);
    }
  }

  /** A written element passes what its tags avoid if its body does. */
  lemma ElementPasses(bar: char, word: string, gap: string, name: string, attrs: string, body: string, pat: string)
    requires HeadOk(gap, name, attrs) && Avoids(bar, word, pat) && Passes(body, pat)
    ensures Passes(WriteElement(bar, word, gap, name, attrs, body), pat)
  {
    PlainName(name);
    assert '<' !in " name=\"" && '<' !in "\"" && '<' !in ">";
    var more := " name=\"" + name + "\"" + attrs + ">";
    PlainPasses(gap, pat);
    hide Opening, Closing, Passes, TagLike;
    assert Tag(bar, word, name, attrs) == Opening(bar, word) + more;
    PassesConcat(gap, Tag(bar, word, name, attrs), pat);
    PassesConcat(gap + Tag(bar, word, name, attrs), body, pat);
    PassesConcat(gap + Tag(bar, word, name, attrs) + body, Closing(bar, word), pat);
  }

  lemma {:induction false} ParamsPass(bar: char, params: seq<Param>, gapAfter: string, pat: string)
    requires Avoids(bar, "parameter", pat) && ParamsOk(params) && Plain(gapAfter)
    ensures Passes(WriteParams(bar, params) + gapAfter, pat)
  {
    assert TagLike(pat);
    hide Closing, Passes, TagLike, WriteElement, Avoids;
    if params == [] {
      PlainPasses(gapAfter, pat);
      assert "" + gapAfter == gapAfter;
    } else {
      var p := params[0];
      assert p in params;
      PlainPasses(p.value, pat);
      ElementPasses(bar, "parameter", p.gap, p.name, p.attrs, p.value, pat);
      ParamsPass(bar, params[1..], gapAfter, pat);
      PassesConcat(WriteParam(bar, p), WriteParams(bar, params[1..]) + gapAfter, pat);
      assert WriteParams(bar, params) + gapAfter == WriteParam(bar, p) + (WriteParams(bar, params[1..]) + gapAfter);
    }
  }

  lemma {:induction false} InvokesPass(bar: char, invokes: seq<Invoke>, gapAfter: string, other: char)
    requires Bar(bar) && Bar(other) && InvokesOk(invokes) && Plain(gapAfter)
    ensures Passes(WriteInvokes(bar, invokes) + gapAfter, Closing(other, "tool_calls"))
  {
    var pat := Closing(other, "tool_calls");
    ClosingIsTag(other, "tool_calls");
    hide Closing, Passes, TagLike, WriteElement, WriteParams, Avoids;
    if invokes == [] {
      PlainPasses(gapAfter, pat);
      assert "" + gapAfter == gapAfter;
    } else {
      var i := invokes[0];
      assert i in invokes;
      AvoidsClosing(bar, "parameter", other, "tool_calls");
      AvoidsClosing(bar, "invoke", other, "tool_calls");
      ParamsPass(bar, i.params, i.gapAfter, pat);
      ElementPasses(bar, "invoke", i.gap, i.name, i.attrs, InvokeBody(bar, i), pat);
      InvokesPass(bar, invokes[1..], gapAfter, other);
      PassesConcat(WriteInvoke(bar, i), WriteInvokes(bar, invokes[1..]) + gapAfter, pat);
      assert WriteInvokes(bar, invokes) + gapAfter == WriteInvoke(bar, i) + (WriteInvokes(bar, invokes[1..]) + gapAfter);
    }
  }

  // ---- Reading back -----------------------------------------------------------------------------------------------

  predicate NarrowParams(params: seq<Param>) {
    forall p :: p in params ==> WIDE !in p.name && WIDE !in p.value
  }

  predicate NarrowInvokes(invokes: seq<Invoke>) {
    forall i :: i in invokes ==> WIDE !in i.name && NarrowParams(i.params)
  }

  /** The next element, behind text that holds no opening tag. */
  lemma NextRead(word: string, pre: string, gap: string, name: string, attrs: string, body: string, rest: string, html: string -> string)
    requires Word(word) && HeadOk(gap, name, attrs) && WIDE !in name
    requires Passes(pre, Opening(NARROW, word)) && Passes(body, Closing(NARROW, word))
    ensures NextElement(pre + (WriteElement(NARROW, word, gap, name, attrs, body) + rest), word, html)
         == if Says(name, html) == "" then Unnamed(body + Closing(NARROW, word) + rest) else Element(Says(name, html), body, rest)
  {
    OpeningTag(word);
    NormalizePlain(name);
    hide NextElement, Opening, Closing, Passes, TagLike, TrimSpace, Normalize, WriteElement;
    PlainPasses(gap, Opening(NARROW, word));
    PassesConcat(pre, gap, Opening(NARROW, word));
    ElementRead(word, pre + gap, name, attrs, body, rest, html);
    GapMoves(word, pre, gap, name, attrs, body, rest);
  }

  lemma GapMoves(word: string, pre: string, gap: string, name: string, attrs: string, body: string, rest: string)
    ensures pre + (WriteElement(NARROW, word, gap, name, attrs, body) + rest)
         == WriteElement(NARROW, word, pre + gap, name, attrs, body) + rest
  {
    hide Tag, Closing;
    var behind := Tag(NARROW, word, name, attrs) + body + Closing(NARROW, word) + rest;
    assert WriteElement(NARROW, word, gap, name, attrs, body) + rest == gap + behind;
    assert WriteElement(NARROW, word, pre + gap, name, attrs, body) + rest == pre + gap + behind;
    assert pre + (gap + behind) == pre + gap + behind;
  }

  /** What is left of an element without a name holds no opening tag. */
  lemma LeftPasses(word: string, body: string)
    requires Word(word) && Passes(body, Opening(NARROW, word))
    ensures Passes(body + Closing(NARROW, word), Opening(NARROW, word))
  {
    ClosingPassesOpening(word, word);
    PassesConcat(body, Closing(NARROW, word), Opening(NARROW, word));
  }

  lemma NothingBehind(word: string, pre: string, gapAfter: string, html: string -> string)
    requires Word(word) && Passes(pre, Opening(NARROW, word)) && Plain(gapAfter)
    ensures NextElement(pre + ("" + gapAfter), word, html) == NoElement
  {
    OpeningTag(word);
    hide NextElement, Opening, Passes, TagLike;
    assert "" + gapAfter == gapAfter;
    PlainPasses(gapAfter, Opening(NARROW, word));
    PassesConcat(pre, gapAfter, Opening(NARROW, word));
    NothingToRead(word, pre + gapAfter, html);
  }

  lemma ValueFacts(p: Param)
    requires Plain(p.value) && WIDE !in p.value
    ensures Passes(p.value, Closing(NARROW, "parameter")) && Passes(p.value, Opening(NARROW, "parameter"))
    ensures Normalize(p.value) == p.value
  {
    ClosingIsTag(NARROW, "parameter");
    OpeningTag("parameter");
    NormalizePlain(p.value);
    hide Opening, Closing, Passes, TagLike;
    PlainPasses(p.value, Closing(NARROW, "parameter"));
    PlainPasses(p.value, Opening(NARROW, "parameter"));
  }

  lemma EmptyPasses(pat: string)
    ensures Passes("", pat)
  {
  }

  lemma {:induction false} ParamsRead(pre: string, params: seq<Param>, gapAfter: string, html: string -> string, before: map<string, string>)
    requires ParamsOk(params) && NarrowParams(params) && Plain(gapAfter) && Passes(pre, Opening(NARROW, "parameter"))
    ensures Parameters(pre + (WriteParams(NARROW, params) + gapAfter), html, before) == Arguments(params, html, before)
    decreases |params|
  {
    hide NextElement, WriteElement, HeadOk, TrimSpace, Passes, Opening, Closing, Normalize;
    var word := "parameter";
    if params == [] {
      NothingBehind(word, pre, gapAfter, html);
    } else {
      var p := params[0];
      assert p in params;
      var rest := WriteParams(NARROW, params[1..]) + gapAfter;
      assert WriteParams(NARROW, params) + gapAfter == WriteParam(NARROW, p) + rest;
      ValueFacts(p);
      NextRead(word, pre, p.gap, p.name, p.attrs, p.value, rest, html);
      if Says(p.name, html) == "" {
        LeftPasses(word, p.value);
        ParamsRead(p.value + Closing(NARROW, word), params[1..], gapAfter, html, before);
      } else {
        EmptyPasses(Opening(NARROW, word));
        ParamsRead("", params[1..], gapAfter, html, before[Says(p.name, html) := Says(p.value, html)]);
        assert "" + rest == rest;
      }
    }
  }

  lemma BodyFacts(i: Invoke)
    requires ParamsOk(i.params) && Plain(i.gapAfter)
    ensures Passes(InvokeBody(NARROW, i), Closing(NARROW, "invoke")) && Passes(InvokeBody(NARROW, i), Opening(NARROW, "invoke"))
  {
    hide Passes, Avoids, WriteParams, Closing, Opening;
    AvoidsClosing(NARROW, "parameter", NARROW, "invoke");
    AvoidsOpening("parameter", "invoke");
    ParamsPass(NARROW, i.params, i.gapAfter, Closing(NARROW, "invoke"));
    ParamsPass(NARROW, i.params, i.gapAfter, Opening(NARROW, "invoke"));
  }

  lemma BodyRead(i: Invoke, html: string -> string)
    requires ParamsOk(i.params) && NarrowParams(i.params) && Plain(i.gapAfter)
    ensures Parameters(InvokeBody(NARROW, i), html, map[]) == Arguments(i.params, html, map[])
  {
    hide Parameters, Arguments, WriteParams, ParamsOk, NarrowParams;
    EmptyPasses(Opening(NARROW, "parameter"));
    ParamsRead("", i.params, i.gapAfter, html, map[]);
    assert "" + InvokeBody(NARROW, i) == InvokeBody(NARROW, i);
  }

  lemma {:induction false} InvokesRead(pre: string, invokes: seq<Invoke>, gapAfter: string, html: string -> string)
    requires InvokesOk(invokes) && NarrowInvokes(invokes) && Plain(gapAfter) && Passes(pre, Opening(NARROW, "invoke"))
    ensures Invokes(pre + (WriteInvokes(NARROW, invokes) + gapAfter), html) == CallsIn(invokes, html)
    decreases |invokes|
  {
    hide NextElement, Passes, WriteElement, Opening, Closing, Parameters, Arguments, ParamsOk, NarrowParams, InvokeBody, HeadOk, Says;
    var word := "invoke";
    if invokes == [] {
      NothingBehind(word, pre, gapAfter, html);
    } else {
      var i := invokes[0];
      assert i in invokes;
      var rest := WriteInvokes(NARROW, invokes[1..]) + gapAfter;
      assert WriteInvokes(NARROW, invokes) + gapAfter == WriteInvoke(NARROW, i) + rest;
      BodyFacts(i);
      NextRead(word, pre, i.gap, i.name, i.attrs, InvokeBody(NARROW, i), rest, html);
      if Says(i.name, html) == "" {
        LeftPasses(word, InvokeBody(NARROW, i));
        InvokesRead(InvokeBody(NARROW, i) + Closing(NARROW, word), invokes[1..], gapAfter, html);
      } else {
        BodyRead(i, html);
        EmptyPasses(Opening(NARROW, word));
        InvokesRead("", invokes[1..], gapAfter, html);
        assert "" + rest == rest;
      }
    }
  }

  // ---- The style of the bars does not matter ------------------------------------------------------------------------

  lemma NormalizeConcat(a: string, b: string)
    ensures Normalize(a + b) == Normalize(a) + Normalize(b)
  {
  }

  lemma NormalizePlain(s: string)
    requires WIDE !in s
    ensures Normalize(s) == s
  {
  }

  lemma NormalizeBars(bar: char)
    requires Bar(bar)
    ensures Normalize([bar, bar]) == [NARROW, NARROW]
  {
  }

  lemma NormalizeOpening(bar: char, word: string)
    requires Bar(bar) && WIDE !in word
    ensures Normalize(Opening(bar, word)) == Opening(NARROW, word)
  {
    NormalizeBars(bar);
    NormalizePlain("<");
    NormalizePlain("DSML");
    NormalizePlain(word);
    hide Normalize;
    NormalizeConcat("<", [bar, bar]);
    NormalizeConcat("<" + [bar, bar], "DSML");
    NormalizeConcat("<" + [bar, bar] + "DSML", [bar, bar]);
    NormalizeConcat("<" + [bar, bar] + "DSML" + [bar, bar], word);
  }

  lemma NormalizeClosing(bar: char, word: string)
    requires Bar(bar) && WIDE !in word
    ensures Normalize(Closing(bar, word)) == Closing(NARROW, word)
  {
    NormalizeBars(bar);
    NormalizePlain("</");
    NormalizePlain("DSML");
    NormalizePlain(word);
    NormalizePlain(">");
    hide Normalize;
    NormalizeConcat("</", [bar, bar]);
    NormalizeConcat("</" + [bar, bar], "DSML");
    NormalizeConcat("</" + [bar, bar] + "DSML", [bar, bar]);
    NormalizeConcat("</" + [bar, bar] + "DSML" + [bar, bar], word);
    NormalizeConcat("</" + [bar, bar] + "DSML" + [bar, bar] + word, ">");
  }

  lemma NormalizeTag(bar: char, word: string, name: string, attrs: string)
    requires Bar(bar) && WIDE !in word
    ensures Normalize(Tag(bar, word, name, attrs)) == Tag(NARROW, word, Normalize(name), Normalize(attrs))
  {
    NormalizeOpening(bar, word);
    NormalizePlain(" name=\"");
    NormalizePlain("\"");
    NormalizePlain(">");
    hide Normalize, Opening;
    NormalizeConcat(Opening(bar, word), " name=\"");
    NormalizeConcat(Opening(bar, word) + " name=\"", name);
    NormalizeConcat(Opening(bar, word) + " name=\"" + name, "\"");
    NormalizeConcat(Opening(bar, word) + " name=\"" + name + "\"", attrs);
    NormalizeConcat(Opening(bar, word) + " name=\"" + name + "\"" + attrs, ">");
  }

  lemma NormalizeElement(bar: char, word: string, gap: string, name: string, attrs: string, body: string)
    requires Bar(bar) && Word(word)
    ensures Normalize(WriteElement(bar, word, gap, name, attrs, body))
         == WriteElement(NARROW, word, Normalize(gap), Normalize(name), Normalize(attrs), Normalize(body))
  {
    WordIsPlain(word);
    NormalizeTag(bar, word, name, attrs);
    NormalizeClosing(bar, word);
    hide Normalize, Tag, Closing;
    NormalizeConcat(gap, Tag(bar, word, name, attrs));
    NormalizeConcat(gap + Tag(bar, word, name, attrs), body);
    NormalizeConcat(gap + Tag(bar, word, name, attrs) + body, Closing(bar, word));
  }

  /** The same calls with all their bars made plain. */
  function NarrowParam(p: Param): Param {
    Param(Normalize(p.gap), Normalize(p.name), Normalize(p.attrs), Normalize(p.value))
  }

  function NarrowAll(params: seq<Param>): seq<Param> {
    if params == [] then [] else [NarrowParam(params[0])] + NarrowAll(params[1..])
  }

  function NarrowInvoke(i: Invoke): Invoke {
    Invoke(Normalize(i.gap), Normalize(i.name), Normalize(i.attrs), NarrowAll(i.params), Normalize(i.gapAfter))
  }

  function NarrowEach(invokes: seq<Invoke>): seq<Invoke> {
    if invokes == [] then [] else [NarrowInvoke(invokes[0])] + NarrowEach(invokes[1..])
  }

  lemma NormalizeKeeps(s: string)
    ensures forall c :: c in Normalize(s) ==> c != WIDE && (c == NARROW || c in s)
    ensures Normalize(Normalize(s)) == Normalize(s)
  {
  }

  lemma NarrowHead(gap: string, name: string, attrs: string, value: string, html: string -> string)
    requires HeadOk(gap, name, attrs) && Plain(value)
    ensures HeadOk(Normalize(gap), Normalize(name), Normalize(attrs)) && Plain(Normalize(value))
    ensures WIDE !in Normalize(name) && WIDE !in Normalize(value)
    ensures Says(Normalize(name), html) == Says(name, html) && Says(Normalize(value), html) == Says(value, html)
  {
    hide Normalize;
    NormalizeKeeps(gap);
    NormalizeKeeps(name);
    NormalizeKeeps(attrs);
    NormalizeKeeps(value);
  }

  lemma {:induction false} NormalizeParams(bar: char, params: seq<Param>, html: string -> string, before: map<string, string>)
    requires Bar(bar) && ParamsOk(params)
    ensures Normalize(WriteParams(bar, params)) == WriteParams(NARROW, NarrowAll(params))
    ensures ParamsOk(NarrowAll(params)) && NarrowParams(NarrowAll(params))
    ensures Arguments(NarrowAll(params), html, before) == Arguments(params, html, before)
    decreases |params|
  {
    hide WriteElement, HeadOk, Says, Normalize;
    if params == [] {
      NormalizePlain("");
    } else {
      var p, later := params[0], params[1..];
      assert p in params;
      NormalizeElement(bar, "parameter", p.gap, p.name, p.attrs, p.value);
      NarrowHead(p.gap, p.name, p.attrs, p.value, html);
      NormalizeParams(bar, later, html,
                      if Says(p.name, html) == "" then before else before[Says(p.name, html) := Says(p.value, html)]);
      NormalizeConcat(WriteParam(bar, p), WriteParams(bar, later));
      assert NarrowAll(params)[1..] == NarrowAll(later);
    }
  }

  lemma {:induction false} NormalizeInvokes(bar: char, invokes: seq<Invoke>, html: string -> string)
    requires Bar(bar) && InvokesOk(invokes)
    ensures Normalize(WriteInvokes(bar, invokes)) == WriteInvokes(NARROW, NarrowEach(invokes))
    ensures InvokesOk(NarrowEach(invokes)) && NarrowInvokes(NarrowEach(invokes))
    ensures CallsIn(NarrowEach(invokes), html) == CallsIn(invokes, html)
  {
    hide WriteElement, WriteParams, ParamsOk, NarrowParams, NarrowAll, Arguments, Normalize, HeadOk, Says;
    if invokes == [] {
      NormalizePlain("");
    } else {
      var i, later := invokes[0], invokes[1..];
      assert i in invokes;
      NormalizeElement(bar, "invoke", i.gap, i.name, i.attrs, InvokeBody(bar, i));
      NormalizeParams(bar, i.params, html, map[]);
      NarrowHead(i.gap, i.name, i.attrs, i.gapAfter, html);
      NormalizeConcat(WriteParams(bar, i.params), i.gapAfter);
      NormalizeInvokes(bar, later, html);
      NormalizeConcat(WriteInvoke(bar, i), WriteInvokes(bar, later));
      assert NarrowEach(invokes)[1..] == NarrowEach(later);
    }
  }

  /** A written block reads back as its calls, in order. */
  lemma BlockRead(b: Block, html: string -> string)
    requires BlockOk(b)
    ensures Invokes(Normalize(BlockBody(b)), html) == CallsIn(b.invokes, html)
  {
    hide Invokes, CallsIn, WriteInvokes, InvokesOk, NarrowInvokes, Normalize;
    NormalizeInvokes(b.bar, b.invokes, html);
    NormalizeKeeps(b.gapAfter);
    NormalizeConcat(WriteInvokes(b.bar, b.invokes), b.gapAfter);
    EmptyPasses(Opening(NARROW, "invoke"));
    InvokesRead("", NarrowEach(b.invokes), Normalize(b.gapAfter), html);
    var text := WriteInvokes(NARROW, NarrowEach(b.invokes)) + Normalize(b.gapAfter);
    assert "" + text == text;
  }

  // ---- Whole texts ----------------------------------------------------------------------------------------------------

  ghost predicate PiecesOk(pieces: seq<(string, Block)>) {
    forall k :: 0 <= k < |pieces| ==> FreeOfAll(pieces[k].0, START_MARKERS) && BlockOk(pieces[k].1)
  }

  lemma BodyIsFree(b: Block)
    requires BlockOk(b)
    ensures FreeOfAll(BlockBody(b), END_MARKERS)
  {
    InvokesPass(b.bar, b.invokes, b.gapAfter, WIDE);
    InvokesPass(b.bar, b.invokes, b.gapAfter, NARROW);
    PassesIsFree(BlockBody(b), Closing(WIDE, "tool_calls"));
    PassesIsFree(BlockBody(b), Closing(NARROW, "tool_calls"));
    hide Closing, Passes, Free, InvokesOk, WriteInvokes;
  }

  lemma PiecesAreLayout(pieces: seq<(string, Block)>, tail: string)
    requires PiecesOk(pieces) && NoBlock(tail)
    ensures IsLayout(PartsOf(pieces), tail)
  {
    forall k | 0 <= k < |pieces| ensures FreeOfAll(BlockBody(pieces[k].1), END_MARKERS) {
      BodyIsFree(pieces[k].1);
    }
    hide FreeOfAll, NoBlock, BlockBody, Opening, Closing;
  }

  lemma {:induction false} CallsOfPieces(pieces: seq<(string, Block)>, html: string -> string)
    requires PiecesOk(pieces)
    ensures CallsOf(PartsOf(pieces), html) == AllCalls(pieces, html)
  {
    hide Invokes, Normalize, BlockBody, CallsIn, BlockOk, FreeOfAll;
    if pieces != [] {
      BlockRead(pieces[0].1, html);
      assert PartsOf(pieces)[1..] == PartsOf(pieces[1..]);
      CallsOfPieces(pieces[1..], html);
    }
  }

  function AllTexts(pieces: seq<(string, Block)>): string {
    if pieces == [] then "" else pieces[0].0 + AllTexts(pieces[1..])
  }

  lemma {:induction false} TextsOfPieces(pieces: seq<(string, Block)>)
    ensures Texts(PartsOf(pieces)) == AllTexts(pieces)
  {
    hide BlockBody;
    if pieces != [] {
      assert PartsOf(pieces)[1..] == PartsOf(pieces[1..]);
      TextsOfPieces(pieces[1..]);
    }
  }

  lemma MarkupIsNotBlank(before: string, after: string)
    ensures TrimSpace(before + ("<" + after)) != ""
  {
    var s := before + ("<" + after);
    TrimmedAwayIffBlank(s);
    assert s[|before|] == '<' && !IsSpace('<');
  }

  lemma WrittenIsNotBlank(pieces: seq<(string, Block)>, tail: string)
    requires pieces != []
    ensures TrimSpace(Join(PartsOf(pieces), tail)) != ""
  {
    var part := PartsOf(pieces)[0];
    var more := part.open[1..] + part.body + part.close + Join(PartsOf(pieces)[1..], tail);
    assert part.open == "<" + part.open[1..];
    hide Opening, Closing, BlockBody;
    assert Join(PartsOf(pieces), tail) == part.text + ("<" + more);
    MarkupIsNotBlank(part.text, more);
  }

  /** Written calls parse back to the calls they say, in order, in either style of bars and under any decoder, and
      the cleaned text is the text around the blocks: text without start markers before each block, and a tail
      without a complete block. Text without calls comes back untouched. */
  lemma WrittenCallsParseBack(pieces: seq<(string, Block)>, tail: string, html: string -> string)
    requires PiecesOk(pieces) && NoBlock(tail)
    ensures AllCalls(pieces, html) != [] ==>
              Parse(Join(PartsOf(pieces), tail), html) == Dsml(AllCalls(pieces, html), TrimSpace(AllTexts(pieces) + tail))
    ensures AllCalls(pieces, html) == [] && TrimSpace(Join(PartsOf(pieces), tail)) != "" ==>
              Parse(Join(PartsOf(pieces), tail), html) == NotDsml(Join(PartsOf(pieces), tail))
  {
    hide TrimSpace, IsLayout, Join, SplitBlocks, NoBlock, PiecesOk, CallsOf, Texts;
    PiecesAreLayout(pieces, tail);
    LayoutIsUnique(PartsOf(pieces), tail);
    CallsOfPieces(pieces, html);
    TextsOfPieces(pieces);
    if pieces != [] {
      WrittenIsNotBlank(pieces, tail);
    }
  }
}
