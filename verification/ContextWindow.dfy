/** The chat history that goes into a model request: toMessageContext, nextCompletedAssistantIndex and
    applyContextWindow of internal/module/ai/application/service.go. */
module ContextWindow {
  import opened Text

  const MAX_CONTEXT_MESSAGES := 20
  const MAX_CONTEXT_CHARS := 24000

  datatype Role = User | Assistant | System

  datatype ChatMessage = ChatMessage(role: Role, content: string, completed: bool, deleted: bool)

  datatype Context = Context(role: Role, content: string)

  predicate Shown(m: ChatMessage) {
    !m.deleted && !Blank(m.content)
  }

  // ---- Which messages are passed on --------------------------------------------------------------------

  /** The first shown user or assistant message from `start` on. */
  predicate IsNextTurn(messages: seq<ChatMessage>, start: nat, i: nat) {
    && start <= i < |messages| && Shown(messages[i]) && messages[i].role != System
    && forall k :: start <= k < i && Shown(messages[k]) ==> messages[k].role == System
  }

  predicate CompletedAssistant(m: ChatMessage) {
    m.role == Assistant && m.completed
  }

  /** The next turn, if it is a completed assistant message; otherwise -1. */
  method NextCompletedAssistantIndex(messages: seq<ChatMessage>, start: nat) returns (r: int)
    ensures r == NextAssistant(messages, start)
  {
    hide TrimSpace, Blank;
    var index := start;
    while index < |messages|
      invariant index >= start && NextAssistant(messages, start) == NextAssistant(messages, index)
    {
      var m := messages[index];
      TrimmedAwayIffBlank(m.content);
      if !(m.deleted || TrimSpace(m.content) == "") {
        if m.role == User {
          return -1;
        }
        if m.role == Assistant {
          return if m.completed then index else -1;
        }
      }
      index := index + 1;
    }
    return -1;
  }

  function NextAssistant(messages: seq<ChatMessage>, start: nat): (r: int)
    ensures -1 <= r < |messages| && (r >= 0 ==> r >= start)
    decreases |messages| - start
  {
    if start >= |messages| then -1
    else
      var m := messages[start];
      if !Shown(m) || m.role == System then NextAssistant(messages, start + 1)
      else if CompletedAssistant(m) then start
      else -1
  }

  /** The search is exact: it finds the next turn when that is a completed assistant message, and only then. */
  lemma {:induction false} NextAssistantIsNextTurn(messages: seq<ChatMessage>, start: nat, i: nat)
    requires i < |messages|
    ensures NextAssistant(messages, start) == i <==> IsNextTurn(messages, start, i) && CompletedAssistant(messages[i])
    decreases |messages| - start
  {
    hide Shown;
    if start < |messages| {
      NextAssistantIsNextTurn(messages, start + 1, i);
    }
  }

  /** A completed user message that is followed by its completed answer. */
  predicate Answered(messages: seq<ChatMessage>, i: nat) {
    && i < |messages| && Shown(messages[i]) && messages[i].role == User && messages[i].completed
    && NextAssistant(messages, i + 1) >= 0
  }

  predicate CompletedSystem(m: ChatMessage) {
    Shown(m) && m.role == System && m.completed
  }

  /** The positions passed on by one round of the selection loop, and the position it goes on from. */
  function Round(messages: seq<ChatMessage>, i: nat): (r: (seq<nat>, nat))
    requires i < |messages|
    ensures i < r.1 <= |messages|
  {
    if CompletedSystem(messages[i]) then ([i], i + 1)
    else if Answered(messages, i) then
      var a := NextAssistant(messages, i + 1);
      ([i, a], a + 1)
    else ([], i + 1)
  }

  /** The positions of the messages that toMessageContext passes on, from position `i` on. */
  function Chosen(messages: seq<ChatMessage>, i: nat): seq<nat>
    decreases |messages| - i
  {
    if i >= |messages| then [] else Round(messages, i).0 + Chosen(messages, Round(messages, i).1)
  }

  predicate InRange(messages: seq<ChatMessage>, positions: seq<nat>, from: nat) {
    forall k :: 0 <= k < |positions| ==> from <= positions[k] < |messages|
  }

  function ContextAt(messages: seq<ChatMessage>, p: nat): Context
    requires p < |messages|
  {
    Context(messages[p].role, messages[p].content)
  }

  function ContextsAt(messages: seq<ChatMessage>, positions: seq<nat>): (r: seq<Context>)
    requires InRange(messages, positions, 0)
    ensures |r| == |positions|
  {
    seq(|positions|, k requires 0 <= k < |positions| => ContextAt(messages, positions[k]))
  }

  lemma {:induction false} ChosenInRange(messages: seq<ChatMessage>, i: nat)
    ensures InRange(messages, Chosen(messages, i), i)
    decreases |messages| - i
  {
    hide Shown;
    if i < |messages| {
      ChosenInRange(messages, i + 1);
      if Answered(messages, i) {
        ChosenInRange(messages, NextAssistant(messages, i + 1) + 1);
      }
    }
  }

  predicate Increasing(positions: seq<nat>) {
    forall j, k :: 0 <= j < k < |positions| ==> positions[j] < positions[k]
  }

  /** Messages are passed on in their original order. */
  lemma {:induction false} ChosenInOrder(messages: seq<ChatMessage>, i: nat)
    ensures Increasing(Chosen(messages, i))
    decreases |messages| - i
  {
    hide Shown;
    if i < |messages| {
      ChosenInOrder(messages, i + 1);
      ChosenInRange(messages, i + 1);
      if Answered(messages, i) {
        ChosenInOrder(messages, NextAssistant(messages, i + 1) + 1);
        ChosenInRange(messages, NextAssistant(messages, i + 1) + 1);
      }
    }
  }

  /** The gap between a question and its answer, from which nothing is passed on. */
  ghost predicate InGap(messages: seq<ChatMessage>, p: nat) {
    exists u: nat :: Answered(messages, u) && u < p < NextAssistant(messages, u + 1)
  }

  ghost predicate AnswerOfSome(messages: seq<ChatMessage>, p: nat) {
    exists u: nat :: Answered(messages, u) && NextAssistant(messages, u + 1) == p
  }

  ghost predicate Boundary(messages: seq<ChatMessage>, i: nat) {
    forall u: nat :: Answered(messages, u) && u < i ==> NextAssistant(messages, u + 1) < i
  }

  /** Between a question and its answer only system messages are shown. */
  lemma GapIsSystem(messages: seq<ChatMessage>, u: nat, p: nat)
    requires Answered(messages, u) && u < p <= NextAssistant(messages, u + 1)
    ensures Shown(messages[p]) && p < NextAssistant(messages, u + 1) ==> messages[p].role == System
    ensures p == NextAssistant(messages, u + 1) ==> messages[p].role == Assistant
  {
    hide NextAssistant, Blank;
    NextAssistantIsNextTurn(messages, u + 1, NextAssistant(messages, u + 1));
  }

  lemma NoQuestionUntilAnswer(messages: seq<ChatMessage>, i: nat, u: nat)
    requires Answered(messages, i) && i < u <= NextAssistant(messages, i + 1)
    ensures !Answered(messages, u)
  {
    hide NextAssistant, Shown;
    GapIsSystem(messages, i, u);
  }

  lemma NoAnswerInGap(messages: seq<ChatMessage>, u: nat, p: nat, v: nat)
    requires Answered(messages, u) && u < p < NextAssistant(messages, u + 1) && Answered(messages, v)
    ensures NextAssistant(messages, v + 1) != p
  {
    hide NextAssistant, Shown;
    GapIsSystem(messages, u, p);
    NextAssistantIsNextTurn(messages, v + 1, p);
  }

  lemma BoundaryAfterAnswer(messages: seq<ChatMessage>, i: nat)
    requires Boundary(messages, i) && Answered(messages, i)
    ensures Boundary(messages, NextAssistant(messages, i + 1) + 1)
  {
    hide NextAssistant, Answered;
    forall u: nat | i < u <= NextAssistant(messages, i + 1) ensures !Answered(messages, u) {
      NoQuestionUntilAnswer(messages, i, u);
    }
  }

  /** What is passed on, exactly: the answered questions, their answers, and the completed system messages that
      do not stand between a question and its answer. */
  ghost predicate PassedOn(messages: seq<ChatMessage>, p: nat)
    requires p < |messages|
  {
    Answered(messages, p) || AnswerOfSome(messages, p) || (CompletedSystem(messages[p]) && !InGap(messages, p))
  }

  lemma NotAnAnswer(messages: seq<ChatMessage>, i: nat)
    requires i < |messages| && Boundary(messages, i)
    ensures !AnswerOfSome(messages, i) && !InGap(messages, i)
  {
    forall u: nat | Answered(messages, u) && u < i ensures NextAssistant(messages, u + 1) < i {
    }
  }

  lemma InTheGap(messages: seq<ChatMessage>, i: nat, p: nat)
    requires Answered(messages, i) && i < p < NextAssistant(messages, i + 1)
    ensures !PassedOn(messages, p)
  {
    NoQuestionUntilAnswer(messages, i, p);
    forall v: nat | Answered(messages, v) ensures NextAssistant(messages, v + 1) != p {
      NoAnswerInGap(messages, i, p, v);
    }
    hide NextAssistant, Answered;
  }

  lemma {:induction false} ChosenExactlyFrom(messages: seq<ChatMessage>, i: nat, p: nat)
    requires i <= p < |messages| && Boundary(messages, i)
    ensures p in Chosen(messages, i) <==> PassedOn(messages, p)
    decreases |messages| - i
  {
    hide Shown;
    if Answered(messages, i) {
      var a := NextAssistant(messages, i + 1);
      ChosenInRange(messages, a + 1);
      BoundaryAfterAnswer(messages, i);
      if p == a {
        assert AnswerOfSome(messages, p);
      } else if i < p < a {
        InTheGap(messages, i, p);
      } else if p > a {
        ChosenExactlyFrom(messages, a + 1, p);
      }
    } else {
      ChosenInRange(messages, i + 1);
      if p == i {
        NotAnAnswer(messages, i);
      } else {
        ChosenExactlyFrom(messages, i + 1, p);
      }
    }
  }

  lemma ChosenExactly(messages: seq<ChatMessage>, p: nat)
    requires p < |messages|
    ensures p in Chosen(messages, 0) <==> PassedOn(messages, p)
  {
    ChosenExactlyFrom(messages, 0, p);
  }

  /** Written out: a user message counts as answered when it is completed and neither deleted nor blank, and the next
      user or assistant message that is neither deleted nor blank is a completed assistant message. */
  lemma AnsweredExactly(messages: seq<ChatMessage>, i: nat)
    requires i < |messages|
    ensures Answered(messages, i) <==>
              && messages[i].role == User && messages[i].completed && !messages[i].deleted && !Blank(messages[i].content)
              && exists a :: i < a < |messages| && AnsweredBy(messages, i, a)
  {
    hide Blank, NextAssistant;
    var a := NextAssistant(messages, i + 1);
    if a >= 0 {
      NextAssistantIsNextTurn(messages, i + 1, a);
      assert AnsweredBy(messages, i, a);
    } else if b: nat :| i < b < |messages| && AnsweredBy(messages, i, b) {
      NextAssistantIsNextTurn(messages, i + 1, b);
    }
  }

  predicate AnsweredBy(messages: seq<ChatMessage>, i: nat, a: nat)
    requires i < a < |messages|
  {
    && messages[a].role == Assistant && messages[a].completed && !messages[a].deleted && !Blank(messages[a].content)
    && forall k :: i < k < a ==> messages[k].deleted || Blank(messages[k].content) || messages[k].role == System
  }

  /** Nothing deleted, blank or incomplete is passed on. */
  lemma OnlyCompletedArePassedOn(messages: seq<ChatMessage>, p: nat)
    requires p < |messages| && p in Chosen(messages, 0)
    ensures messages[p].completed && !messages[p].deleted && !Blank(messages[p].content)
  {
    hide Blank, NextAssistant, Chosen;
    ChosenExactly(messages, p);
    if u: nat :| Answered(messages, u) && NextAssistant(messages, u + 1) == p {
      NextAssistantIsNextTurn(messages, u + 1, p);
    }
  }

  /** One round of the selection loop of toMessageContext. */
  method CollectAt(messages: seq<ChatMessage>, index: nat) returns (taken: seq<Context>, next: nat)
    requires index < |messages|
    ensures next == Round(messages, index).1 && InRange(messages, Round(messages, index).0, 0)
    ensures taken == ContextsAt(messages, Round(messages, index).0)
  {
    hide TrimSpace, Blank, NextAssistant;
    var m := messages[index];
    TrimmedAwayIffBlank(m.content);
    if m.deleted || TrimSpace(m.content) == "" {
      return [], index + 1;
    }
    if m.role == System && m.completed {
      return [Context(m.role, m.content)], index + 1;
    }
    if m.role != User || !m.completed {
      return [], index + 1;
    }
    var assistantIndex := NextCompletedAssistantIndex(messages, index + 1);
    if assistantIndex < 0 {
      return [], index + 1;
    }
    var answer := messages[assistantIndex];
    return [Context(m.role, m.content), Context(answer.role, answer.content)], assistantIndex + 1;
  }

  /** The selection loop of toMessageContext, before the window is applied. */
  method Collect(messages: seq<ChatMessage>) returns (contexts: seq<Context>)
    ensures InRange(messages, Chosen(messages, 0), 0) && contexts == ContextsAt(messages, Chosen(messages, 0))
    ensures |contexts| == |Chosen(messages, 0)|
    ensures forall k :: 0 <= k < |contexts| ==>
              contexts[k] == Context(messages[Chosen(messages, 0)[k]].role, messages[Chosen(messages, 0)[k]].content)
  {
    hide Round;
    contexts := [];
    ghost var chosen: seq<nat> := [];
    var index := 0;
    while index < |messages|
      invariant index <= |messages|
      invariant InRange(messages, chosen, 0) && contexts == ContextsAt(messages, chosen)
      invariant chosen + Chosen(messages, index) == Chosen(messages, 0)
    {
      var taken, next := CollectAt(messages, index);
      contexts := contexts + taken;
      chosen := chosen + Round(messages, index).0;
      index := next;
    }
  }

  // ---- The dialogue ------------------------------------------------------------------------------------

  function Systems(contexts: seq<Context>): seq<Context> {
    if contexts == [] then []
    else
      var init, last := Systems(contexts[..|contexts| - 1]), contexts[|contexts| - 1];
      if last.role == System then init + [last] else init
  }

  function Dialogue(contexts: seq<Context>): seq<Context> {
    if contexts == [] then []
    else
      var init, last := Dialogue(contexts[..|contexts| - 1]), contexts[|contexts| - 1];
      if last.role == System then init else init + [last]
  }

  predicate Alternates(dialogue: seq<Context>) {
    && |dialogue| % 2 == 0
    && forall k :: 0 <= k < |dialogue| ==> dialogue[k].role == if k % 2 == 0 then User else Assistant
  }

  lemma {:induction false} DialogueConcat(a: seq<Context>, b: seq<Context>)
    ensures Dialogue(a + b) == Dialogue(a) + Dialogue(b)
  {
    if b == [] {
      assert a + b == a;
    } else {
      assert (a + b)[..|a + b| - 1] == a + b[..|b| - 1];
      DialogueConcat(a, b[..|b| - 1]);
    }
  }

  /** Contexts are split by role, each part in order. */
  lemma {:induction false} SplitConcat(a: seq<Context>, b: seq<Context>)
    ensures Systems(a + b) == Systems(a) + Systems(b) && Dialogue(a + b) == Dialogue(a) + Dialogue(b)
  {
    DialogueConcat(a, b);
    if b == [] {
      assert a + b == a;
    } else {
      assert (a + b)[..|a + b| - 1] == a + b[..|b| - 1];
      SplitConcat(a, b[..|b| - 1]);
    }
  }

  /** No context is lost, doubled or put on the wrong side. */
  lemma {:induction false} SplitIsExact(contexts: seq<Context>)
    ensures multiset(Systems(contexts)) + multiset(Dialogue(contexts)) == multiset(contexts)
    ensures forall c :: c in Systems(contexts) ==> c.role == System
    ensures forall c :: c in Dialogue(contexts) ==> c.role != System
  {
    if contexts != [] {
      var init, last := contexts[..|contexts| - 1], contexts[|contexts| - 1];
      SplitIsExact(init);
      assert contexts == init + [last];
    }
  }

  lemma DialogueOfTurn(user: Context, answer: Context)
    requires user.role == User && answer.role == Assistant
    ensures Dialogue([user, answer]) == [user, answer]
  {
    assert [user, answer][..1] == [user] && [user][..0] == [];
    assert Dialogue([user]) == [user];
  }

  lemma AlternatesAfterTurn(user: Context, answer: Context, rest: seq<Context>)
    requires user.role == User && answer.role == Assistant && Alternates(rest)
    ensures Alternates([user, answer] + rest)
  {
  }

  /** Questions and answers alternate, question first. */
  lemma {:induction false} DialogueAlternates(messages: seq<ChatMessage>, i: nat)
    ensures InRange(messages, Chosen(messages, i), 0) && Alternates(Dialogue(ContextsAt(messages, Chosen(messages, i))))
    decreases |messages| - i
  {
    hide Shown, Alternates, NextAssistant, Dialogue;
    ChosenInRange(messages, i);
    if i >= |messages| {
      NoDialogue();
    } else if Answered(messages, i) {
      var a := NextAssistant(messages, i + 1);
      NextAssistantIsNextTurn(messages, i + 1, a);
      DialogueAlternates(messages, a + 1);
      var user, answer, rest := ContextAt(messages, i), ContextAt(messages, a), ContextsAt(messages, Chosen(messages, a + 1));
      assert ContextsAt(messages, Chosen(messages, i)) == [user, answer] + rest;
      DialogueConcat([user, answer], rest);
      DialogueOfTurn(user, answer);
      AlternatesAfterTurn(user, answer, Dialogue(rest));
    } else {
      DialogueAlternates(messages, i + 1);
      if Chosen(messages, i) != Chosen(messages, i + 1) {
        var system, rest := ContextAt(messages, i), ContextsAt(messages, Chosen(messages, i + 1));
        assert ContextsAt(messages, Chosen(messages, i)) == [system] + rest;
        DialogueConcat([system], rest);
        SystemIsNoDialogue(system);
        assert [] + Dialogue(rest) == Dialogue(rest);
      }
    }
  }

  lemma NoDialogue()
    ensures Alternates(Dialogue([]))
  {
  }

  lemma SystemIsNoDialogue(system: Context)
    requires system.role == System
    ensures Dialogue([system]) == []
  {
    assert [system][..0] == [];
  }

  // ---- The window --------------------------------------------------------------------------------------

  function Chars(contexts: seq<Context>): nat {
    if contexts == [] then 0 else Chars(contexts[..|contexts| - 1]) + |contexts[|contexts| - 1].content|
  }

  function Last(dialogue: seq<Context>, k: nat): seq<Context>
    requires k <= |dialogue|
  {
    dialogue[|dialogue| - k..]
  }

  /** The last `k` messages of a dialogue stay within both limits. */
  predicate Fits(dialogue: seq<Context>, spent: nat, k: nat)
    requires k <= |dialogue|
  {
    k == 0 || (k <= 20 && spent + Chars(Last(dialogue, k)) <= 24_000)
  }

  /** `k` is the length of the longest suffix within both limits. */
  ghost predicate LongestFit(dialogue: seq<Context>, spent: nat, k: nat) {
    && k <= |dialogue| && Fits(dialogue, spent, k)
    && forall j :: k < j <= |dialogue| ==> !Fits(dialogue, spent, j)
  }

  lemma {:induction false} CharsSplit(a: seq<Context>, b: seq<Context>)
    ensures Chars(a + b) == Chars(a) + Chars(b)
  {
    if b == [] {
      assert a + b == a;
    } else {
      assert (a + b)[..|a + b| - 1] == a + b[..|b| - 1];
      CharsSplit(a, b[..|b| - 1]);
    }
  }

  lemma OneMoreChars(dialogue: seq<Context>, k: nat)
    requires k < |dialogue|
    ensures Chars(Last(dialogue, k + 1)) == |dialogue[|dialogue| - 1 - k].content| + Chars(Last(dialogue, k))
  {
    var m := dialogue[|dialogue| - 1 - k];
    assert Last(dialogue, k + 1) == [m] + Last(dialogue, k);
    CharsSplit([m], Last(dialogue, k));
    assert [m][..0] == [];
  }

  /** A longer suffix costs at least as much. */
  lemma {:induction false} LongerCostsMore(dialogue: seq<Context>, k: nat, j: nat)
    requires k <= j <= |dialogue|
    ensures Chars(Last(dialogue, k)) <= Chars(Last(dialogue, j))
  {
    if k < j {
      LongerCostsMore(dialogue, k, j - 1);
      OneMoreChars(dialogue, j - 1);
    }
  }

  /** The greedy count stops at the longest suffix that fits. */
  lemma GreedyIsLongest(dialogue: seq<Context>, spent: nat, k: nat)
    requires k <= |dialogue| && Fits(dialogue, spent, k) && (k < |dialogue| ==> !Fits(dialogue, spent, k + 1))
    ensures LongestFit(dialogue, spent, k)
  {
    forall j | k < j <= |dialogue| ensures !Fits(dialogue, spent, j) {
      LongerCostsMore(dialogue, k + 1, j);
    }
  }

  lemma LongestFitIsUnique(dialogue: seq<Context>, spent: nat, k: nat, j: nat)
    requires LongestFit(dialogue, spent, k) && LongestFit(dialogue, spent, j)
    ensures k == j
  {
  }

  function Reversed(s: seq<Context>): (r: seq<Context>)
    ensures |r| == |s|
  {
    seq(|s|, i requires 0 <= i < |s| => s[|s| - 1 - i])
  }

  method ReverseInPlace(kept: array<Context>)
    modifies kept
    ensures kept[..] == Reversed(old(kept[..]))
  {
    var left, right := 0, kept.Length - 1;
    while left < right
      invariant 0 <= left <= kept.Length && left + right == kept.Length - 1 && left <= right + 1
      invariant forall k :: 0 <= k < left || right < k < kept.Length ==> kept[k] == old(kept[kept.Length - 1 - k])
      invariant forall k :: left <= k <= right ==> kept[k] == old(kept[k])
    {
      kept[left], kept[right] := kept[right], kept[left];
      left, right := left + 1, right - 1;
    }
  }

  /** The last messages of the dialogue, newest first, until a limit is reached. */
  method KeepNewest(dialogue: seq<Context>, spent: nat) returns (kept: seq<Context>)
    ensures LongestFit(dialogue, spent, |kept|) && kept == Reversed(Last(dialogue, |kept|))
  {
    hide Chars;
    kept := [];
    var totalChars := spent;
    NoChars();
    assert Last(dialogue, 0) == [];
    var index := |dialogue| - 1;
    while index >= 0
      invariant -1 <= index < |dialogue| && index + |kept| == |dialogue| - 1
      invariant totalChars == spent + Chars(Last(dialogue, |kept|))
      invariant Fits(dialogue, spent, |kept|) && kept == Reversed(Last(dialogue, |kept|))
    {
      var m := dialogue[index];
      OneMoreChars(dialogue, |kept|);
      if |kept| >= MAX_CONTEXT_MESSAGES || totalChars + |m.content| > MAX_CONTEXT_CHARS {
        break;
      }
      kept := kept + [m];
      totalChars := totalChars + |m.content|;
      index := index - 1;
    }
    GreedyIsLongest(dialogue, spent, |kept|);
  }

  lemma NoChars()
    ensures Chars([]) == 0
  {
  }

  /** All system messages, then the longest suffix of the dialogue within both limits, in its order. */
  ghost predicate IsWindow(contexts: seq<Context>, window: seq<Context>) {
    exists k: nat :: LongestFit(Dialogue(contexts), Chars(Systems(contexts)), k)
                     && window == Systems(contexts) + Last(Dialogue(contexts), k)
  }

  method ApplyContextWindow(contexts: seq<Context>) returns (window: seq<Context>)
    ensures IsWindow(contexts, window)
    ensures var systems := Systems(contexts);
            && systems <= window && |window| - |systems| <= 20
            && (|window| > |systems| ==> Chars(window) <= 24_000)
  {
    if |contexts| == 0 {
      assert contexts == [] && Last(Dialogue(contexts), 0) == [];
      assert LongestFit(Dialogue(contexts), Chars(Systems(contexts)), 0);
      return contexts;
    }
    var systems, dialogue := Split(contexts);
    var totalChars := 0;
    for i := 0 to |systems|
      invariant totalChars == Chars(systems[..i])
    {
      assert systems[..i + 1][..i] == systems[..i];
      totalChars := totalChars + |systems[i].content|;
    }
    assert systems[..|systems|] == systems;
    var newest := KeepNewest(dialogue, totalChars);
    var kept := new Context[|newest|](i requires 0 <= i < |newest| => newest[i]);
    assert kept[..] == newest;
    ReverseInPlace(kept);
    assert kept[..] == Last(dialogue, |newest|);
    CharsSplit(systems, kept[..]);
    return systems + kept[..];
  }

  method Split(contexts: seq<Context>) returns (systems: seq<Context>, dialogue: seq<Context>)
    ensures systems == Systems(contexts) && dialogue == Dialogue(contexts)
  {
    systems, dialogue := [], [];
    for i := 0 to |contexts|
      invariant systems == Systems(contexts[..i]) && dialogue == Dialogue(contexts[..i])
    {
      assert contexts[..i + 1][..i] == contexts[..i];
      if contexts[i].role == System {
        systems := systems + [contexts[i]];
      } else {
        dialogue := dialogue + [contexts[i]];
      }
    }
    assert contexts[..|contexts|] == contexts;
  }

  method ToMessageContext(messages: seq<ChatMessage>) returns (window: seq<Context>)
    ensures InRange(messages, Chosen(messages, 0), 0) && IsWindow(ContextsAt(messages, Chosen(messages, 0)), window)
  {
    var contexts := Collect(messages);
    window := ApplyContextWindow(contexts);
  }

  // ---- Pairs at the edge of the window --------------------------------------------------------------------

  lemma EvenSuffixAlternates(dialogue: seq<Context>, k: nat)
    requires Alternates(dialogue) && k <= |dialogue|
    ensures Alternates(Last(dialogue, k)) <==> k % 2 == 0
  {
    if k % 2 == 0 {
      forall j | 0 <= j < k ensures Last(dialogue, k)[j].role == if j % 2 == 0 then User else Assistant {
        assert Last(dialogue, k)[j] == dialogue[|dialogue| - k + j];
      }
    }
  }

  /** The last `j` messages, an odd number, are within both limits, and the question before them is one too many
      characters. */
  predicate CutsPair(dialogue: seq<Context>, spent: nat, j: nat) {
    && j % 2 == 1 && j < |dialogue| && j < MAX_CONTEXT_MESSAGES
    && spent + Chars(Last(dialogue, j)) <= MAX_CONTEXT_CHARS < spent + Chars(Last(dialogue, j + 1))
  }

  /** When an odd number of messages is kept, the character limit is what stopped the count. */
  lemma OddCutIsByCharacters(dialogue: seq<Context>, spent: nat, k: nat)
    requires Alternates(dialogue) && LongestFit(dialogue, spent, k) && k % 2 == 1
    ensures CutsPair(dialogue, spent, k)
  {
    hide Chars;
    assert k < |dialogue| && !Fits(dialogue, spent, k + 1);
  }

  /** The documentation says that pairs are kept together. They are, for every dialogue, exactly when the
      character limit does not fall between an answer within the message limit and its question. */
  lemma PairsKeptExactly(dialogue: seq<Context>, spent: nat, k: nat)
    requires Alternates(dialogue) && LongestFit(dialogue, spent, k)
    ensures Alternates(Last(dialogue, k)) <==> forall j: nat :: !CutsPair(dialogue, spent, j)
  {
    EvenSuffixAlternates(dialogue, k);
    if k % 2 == 1 {
      OddCutIsByCharacters(dialogue, spent, k);
    }
    hide Chars, Alternates;
    if j: nat :| CutsPair(dialogue, spent, j) {
      GreedyIsLongest(dialogue, spent, j);
      LongestFitIsUnique(dialogue, spent, k, j);
    }
  }

  lemma NoSystems(user: Context, answer: Context)
    requires user.role != System && answer.role != System
    ensures Systems([user, answer]) == [] && Chars([]) == 0
  {
    assert [user, answer][..1] == [user] && [user][..0] == [];
    assert Systems([user]) == [];
  }

  lemma LastOfTwo(user: Context, answer: Context)
    ensures var d := [user, answer];
            && Last(d, 1) == [answer] && Chars(Last(d, 1)) == |answer.content|
            && Chars(Last(d, 2)) == |user.content| + |answer.content|
  {
    var d := [user, answer];
    NoChars();
    assert Last(d, 0) == [];
    OneMoreChars(d, 0);
    OneMoreChars(d, 1);
    hide Chars;
    assert Last(d, 1) == [answer];
  }

  /** A question too long to keep leaves its answer behind alone. */
  lemma AnswerLeftAlone(question: Context, answer: Context)
    requires question.role == User && answer.role == Assistant
    requires |answer.content| <= MAX_CONTEXT_CHARS < |question.content| + |answer.content|
    ensures Alternates([question, answer]) && IsWindow([question, answer], [answer])
  {
    hide Chars, Systems, Dialogue, Last;
    var d := [question, answer];
    DialogueOfTurn(question, answer);
    NoSystems(question, answer);
    LastOfTwo(question, answer);
    GreedyIsLongest(d, 0, 1);
    assert LongestFit(Dialogue(d), Chars(Systems(d)), 1);
    assert Systems(d) + Last(Dialogue(d), 1) == [answer];
  }
}
