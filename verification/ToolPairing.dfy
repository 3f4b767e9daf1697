/** How the turns of the diagnosis loop become the messages of a provider request: toToolChatMessages of
    internal/module/ai/infrastructure/llm/assistant_generator.go, then the message filter of newRequestBody in
    internal/platform/llm/llm.go. The provider demands that the tool messages that follow an assistant message
    answer exactly its tool calls. */
module ToolPairing {
  import opened Text
  import opened ToolTurns
  import AgentLoop
  import AgentLoopRuns

  datatype ToolCall = ToolCall(id: string, kind: string, name: string, arguments: string)

  datatype Message = Message(role: string, content: string, calls: seq<ToolCall>, toolCallID: string, name: string)

  datatype History = History(role: string, content: string)

  function NormalizeRole(role: string): string {
    var trimmed := TrimSpace(role);
    if trimmed == "assistant" then "assistant" else if trimmed == "system" then "system" else "user"
  }

  function Plain(role: string, content: string): Message {
    Message(role, content, [], "", "")
  }

  // ---- toToolChatMessages ------------------------------------------------------------------------------

  function PlatformCall(call: Invocation): ToolCall {
    ToolCall(call.id, "function", call.name, call.arguments)
  }

  function PlatformCalls(calls: seq<Invocation>): (r: seq<ToolCall>)
    ensures |r| == |calls|
  {
    seq(|calls|, i requires 0 <= i < |calls| => PlatformCall(calls[i]))
  }

  function Assistant(turn: Turn): Message {
    Message("assistant", turn.content, PlatformCalls(turn.calls), "", "")
  }

  function ToolMessage(result: ResultMessage): Message {
    Message("tool", result.content, [], result.callID, result.name)
  }

  function ToolMessages(results: seq<ResultMessage>): (r: seq<Message>)
    ensures |r| == |results|
  {
    seq(|results|, i requires 0 <= i < |results| => ToolMessage(results[i]))
  }

  function TurnMessages(turn: Turn): seq<Message> {
    [Assistant(turn)] + ToolMessages(turn.results)
  }

  function HistoryMessages(history: seq<History>): seq<Message> {
    if history == [] then []
    else
      var init, last := HistoryMessages(history[..|history| - 1]), history[|history| - 1];
      if TrimSpace(last.content) == "" then init else init + [Plain(NormalizeRole(last.role), TrimSpace(last.content))]
  }

  function AllTurnMessages(turns: seq<Turn>): seq<Message> {
    if turns == [] then [] else AllTurnMessages(turns[..|turns| - 1]) + TurnMessages(turns[|turns| - 1])
  }

  function ToolChatMessages(history: seq<History>, content: string, turns: seq<Turn>): seq<Message> {
    HistoryMessages(history)
    + (if TrimSpace(content) == "" then [] else [Plain("user", TrimSpace(content))])
    + AllTurnMessages(turns)
  }

  method ToPlatformToolCalls(calls: seq<Invocation>) returns (result: seq<ToolCall>)
    ensures result == PlatformCalls(calls)
  {
    result := [];
    for i := 0 to |calls|
      invariant result == PlatformCalls(calls)[..i]
    {
      result := result + [PlatformCall(calls[i])];
    }
  }

  method ToToolChatMessages(history: seq<History>, content: string, turns: seq<Turn>) returns (messages: seq<Message>)
    ensures messages == ToolChatMessages(history, content, turns)
  {
    hide HistoryMessages, AllTurnMessages, TrimSpace;
    messages := FromHistory(history);
    var trimmed := TrimSpace(content);
    if trimmed != "" {
      messages := messages + [Plain("user", trimmed)];
    }
    messages := AppendTurns(messages, turns);
  }

  method FromHistory(history: seq<History>) returns (messages: seq<Message>)
    ensures messages == HistoryMessages(history)
  {
    hide TrimSpace, NormalizeRole;
    messages := [];
    for i := 0 to |history|
      invariant messages == HistoryMessages(history[..i])
    {
      assert history[..i + 1][..i] == history[..i];
      var normalized := TrimSpace(history[i].content);
      if normalized != "" {
        messages := messages + [Plain(NormalizeRole(history[i].role), normalized)];
      }
    }
    assert history[..|history|] == history;
  }

  method AppendTurns(before: seq<Message>, turns: seq<Turn>) returns (messages: seq<Message>)
    ensures messages == before + AllTurnMessages(turns)
  {
    hide TurnMessages;
    messages := before;
    for i := 0 to |turns|
      invariant messages == before + AllTurnMessages(turns[..i])
    {
      assert turns[..i + 1][..i] == turns[..i];
      messages := AppendTurn(messages, turns[i]);
    }
    assert turns[..|turns|] == turns;
  }

  method AppendTurn(before: seq<Message>, turn: Turn) returns (messages: seq<Message>)
    ensures messages == before + TurnMessages(turn)
  {
    var calls := ToPlatformToolCalls(turn.calls);
    messages := before + [Message("assistant", turn.content, calls, "", "")];
    for j := 0 to |turn.results|
      invariant messages == before + TurnMessages(turn)[..j + 1]
    {
      messages := messages + [ToolMessage(turn.results[j])];
    }
  }

  // ---- The filter of newRequestBody ----------------------------------------------------------------------

  predicate Dropped(m: Message) {
    TrimSpace(m.role) == "" || (TrimSpace(m.content) == "" && m.calls == [] && TrimSpace(m.role) != "tool")
  }

  function OpenAICall(call: ToolCall): ToolCall {
    call.(kind := if TrimSpace(call.kind) == "" then "function" else TrimSpace(call.kind))
  }

  function OpenAICalls(calls: seq<ToolCall>): (r: seq<ToolCall>)
    ensures |r| == |calls|
  {
    seq(|calls|, i requires 0 <= i < |calls| => OpenAICall(calls[i]))
  }

  /** Everything is trimmed except the ids inside the tool calls. */
  function Encoded(m: Message): Message {
    Message(TrimSpace(m.role), TrimSpace(m.content), OpenAICalls(m.calls), TrimSpace(m.toolCallID), TrimSpace(m.name))
  }

  function RequestMessages(messages: seq<Message>): seq<Message> {
    if messages == [] then []
    else
      var init, last := RequestMessages(messages[..|messages| - 1]), messages[|messages| - 1];
      if Dropped(last) then init else init + [Encoded(last)]
  }

  method ToOpenAIToolCalls(calls: seq<ToolCall>) returns (result: seq<ToolCall>)
    ensures result == OpenAICalls(calls)
  {
    hide TrimSpace;
    result := [];
    for i := 0 to |calls|
      invariant |result| == i && forall j :: 0 <= j < i ==> result[j] == OpenAICall(calls[j])
    {
      var kind := TrimSpace(calls[i].kind);
      if kind == "" {
        kind := "function";
      }
      result := result + [ToolCall(calls[i].id, kind, calls[i].name, calls[i].arguments)];
    }
  }

  /** `ok` is false for the error of a request without messages. */
  method NewRequestMessages(messages: seq<Message>) returns (ok: bool, body: seq<Message>)
    ensures body == RequestMessages(messages) && (ok <==> body != [])
  {
    body := [];
    for i := 0 to |messages|
      invariant body == RequestMessages(messages[..i])
    {
      assert messages[..i + 1][..i] == messages[..i];
      var m := messages[i];
      var role, content := TrimSpace(m.role), TrimSpace(m.content);
      if role != "" && !(content == "" && m.calls == [] && role != "tool") {
        var calls := ToOpenAIToolCalls(m.calls);
        body := body + [Message(role, content, calls, TrimSpace(m.toolCallID), TrimSpace(m.name))];
      }
    }
    assert messages[..|messages|] == messages;
    ok := body != [];
  }

  // ---- What the provider demands -----------------------------------------------------------------------

  /** The ids that the tool messages at the front answer. */
  function Answers(out: seq<Message>): seq<string> {
    if out == [] || out[0].role != "tool" then [] else [out[0].toolCallID] + Answers(out[1..])
  }

  function AskedIDs(calls: seq<ToolCall>): (ids: seq<string>)
    ensures |ids| == |calls|
  {
    seq(|calls|, i requires 0 <= i < |calls| => calls[i].id)
  }

  /** The tool messages right after message `i` answer its calls one for one. */
  ghost predicate AnsweredAt(out: seq<Message>, i: nat)
    requires i < |out|
  {
    multiset(Answers(out[i + 1..])) == multiset(AskedIDs(out[i].calls))
  }

  /** Every message with calls is answered at once, and no tool message stands elsewhere. */
  ghost predicate WellPaired(out: seq<Message>) {
    && (forall i :: 0 <= i < |out| && out[i].calls != [] ==> AnsweredAt(out, i))
    && (forall i :: 0 <= i < |out| && out[i].role == "tool" ==> i > 0 && (out[i - 1].role == "tool" || out[i - 1].calls != []))
  }

  predicate StartsWithTool(out: seq<Message>) {
    out != [] && out[0].role == "tool"
  }

  lemma {:induction false} AnswersLeft(a: seq<Message>, b: seq<Message>)
    requires !StartsWithTool(b)
    ensures Answers(a + b) == Answers(a)
  {
    if a == [] {
      assert a + b == b;
    } else {
      assert (a + b)[1..] == a[1..] + b;
      AnswersLeft(a[1..], b);
    }
  }

  lemma AnsweredLeft(a: seq<Message>, b: seq<Message>, i: nat)
    requires i < |a| && !StartsWithTool(b)
    ensures AnsweredAt(a + b, i) <==> AnsweredAt(a, i)
  {
    assert (a + b)[i + 1..] == a[i + 1..] + b;
    AnswersLeft(a[i + 1..], b);
  }

  lemma AnsweredRight(a: seq<Message>, b: seq<Message>, i: nat)
    requires i < |b|
    ensures AnsweredAt(a + b, |a| + i) <==> AnsweredAt(b, i)
  {
    assert (a + b)[|a| + i + 1..] == b[i + 1..];
  }

  /** Two lists of messages pair up independently when the second does not start inside a block. */
  lemma WellPairedConcat(a: seq<Message>, b: seq<Message>)
    requires !StartsWithTool(b)
    ensures WellPaired(a + b) <==> WellPaired(a) && WellPaired(b)
  {
    forall i: nat | i < |a| ensures AnsweredAt(a + b, i) <==> AnsweredAt(a, i) {
      AnsweredLeft(a, b, i);
    }
    forall i: nat | i < |b| ensures AnsweredAt(a + b, |a| + i) <==> AnsweredAt(b, i) {
      AnsweredRight(a, b, i);
    }
    hide AnsweredAt;
    if WellPaired(a + b) {
      LeftPart(a, b);
      RightPart(a, b);
    }
  }

  lemma LeftPart(a: seq<Message>, b: seq<Message>)
    requires WellPaired(a + b) && forall i: nat :: i < |a| ==> (AnsweredAt(a + b, i) <==> AnsweredAt(a, i))
    ensures WellPaired(a)
  {
    hide AnsweredAt;
    assert forall i :: 0 <= i < |a| ==> (a + b)[i] == a[i];
  }

  lemma RightPart(a: seq<Message>, b: seq<Message>)
    requires WellPaired(a + b) && !StartsWithTool(b)
    requires forall i: nat :: i < |b| ==> (AnsweredAt(a + b, |a| + i) <==> AnsweredAt(b, i))
    ensures WellPaired(b)
  {
    hide AnsweredAt;
    assert forall i :: 0 <= i < |b| ==> (a + b)[|a| + i] == b[i];
  }

  // ---- The turns through both translations -----------------------------------------------------------------

  lemma {:induction false} FilterConcat(a: seq<Message>, b: seq<Message>)
    ensures RequestMessages(a + b) == RequestMessages(a) + RequestMessages(b)
  {
    hide Dropped, Encoded;
    if b == [] {
      assert a + b == a;
    } else {
      assert (a + b)[..|a + b| - 1] == a + b[..|b| - 1];
      FilterConcat(a, b[..|b| - 1]);
    }
  }

  lemma WordsAreTrimmed()
    ensures TrimSpace("tool") == "tool" && TrimSpace("assistant") == "assistant"
    ensures TrimSpace("user") == "user" && TrimSpace("system") == "system"
  {
    assert Trimmed("tool") && Trimmed("assistant") && Trimmed("user") && Trimmed("system");
  }

  function EncodedResult(result: ResultMessage): Message {
    Message("tool", TrimSpace(result.content), [], TrimSpace(result.callID), TrimSpace(result.name))
  }

  function EncodedResults(results: seq<ResultMessage>): (r: seq<Message>)
    ensures |r| == |results|
  {
    seq(|results|, i requires 0 <= i < |results| => EncodedResult(results[i]))
  }

  lemma ToolMessageSurvives(result: ResultMessage)
    ensures !Dropped(ToolMessage(result)) && Encoded(ToolMessage(result)) == EncodedResult(result)
  {
    WordsAreTrimmed();
    hide TrimSpace;
  }

  /** Tool messages are never dropped, even empty ones. */
  lemma {:induction false} ToolMessagesSurvive(results: seq<ResultMessage>)
    ensures RequestMessages(ToolMessages(results)) == EncodedResults(results)
  {
    hide Dropped, Encoded, EncodedResult, ToolMessage;
    if results != [] {
      var init := results[..|results| - 1];
      ToolMessagesSurvive(init);
      assert ToolMessages(results)[..|results| - 1] == ToolMessages(init);
      ToolMessageSurvives(results[|results| - 1]);
    }
  }

  lemma AssistantSurvives(turn: Turn)
    ensures Dropped(Assistant(turn)) <==> turn.calls == [] && TrimSpace(turn.content) == ""
    ensures var m := Encoded(Assistant(turn));
            m.role == "assistant" && (m.calls == [] <==> turn.calls == []) && AskedIDs(m.calls) == CallIDs(turn.calls)
  {
    WordsAreTrimmed();
    hide TrimSpace;
  }

  lemma TurnRequest(turn: Turn)
    ensures RequestMessages(TurnMessages(turn))
         == (if turn.calls == [] && TrimSpace(turn.content) == "" then [] else [Encoded(Assistant(turn))]) + EncodedResults(turn.results)
  {
    FilterConcat([Assistant(turn)], ToolMessages(turn.results));
    ToolMessagesSurvive(turn.results);
    AssistantSurvives(turn);
    hide TrimSpace, Dropped, Encoded, Assistant;
    assert [Assistant(turn)][..0] == [];
  }

  lemma {:induction false} AnswersOfResults(results: seq<ResultMessage>)
    ensures Answers(EncodedResults(results)) == TrimAll(ResultIDs(results))
  {
    hide TrimSpace;
    if results != [] {
      assert EncodedResults(results)[1..] == EncodedResults(results[1..]);
      AnswersOfResults(results[1..]);
      assert TrimAll(ResultIDs(results)) == [TrimSpace(results[0].callID)] + TrimAll(ResultIDs(results[1..]));
    }
  }

  // ---- What the messages say ---------------------------------------------------------------------------------

  /** The filter looks at each message on its own: it drops those without a role, and empty ones that neither call
      a tool nor answer one; of the others it trims all but the tool calls. */
  lemma FilterOne(m: Message)
    ensures var role, content := TrimSpace(m.role), TrimSpace(m.content);
            var out := RequestMessages([m]);
            && (out == [] <==> role == "" || (content == "" && m.calls == [] && role != "tool"))
            && (out != [] ==>
                  && out == [Message(role, content, out[0].calls, TrimSpace(m.toolCallID), TrimSpace(m.name))]
                  && |out[0].calls| == |m.calls|
                  && forall i :: 0 <= i < |m.calls| ==>
                       && out[0].calls[i].id == m.calls[i].id && out[0].calls[i].name == m.calls[i].name
                       && out[0].calls[i].arguments == m.calls[i].arguments
                       && out[0].calls[i].kind == if TrimSpace(m.calls[i].kind) == "" then "function" else TrimSpace(m.calls[i].kind))
  {
    hide TrimSpace;
    assert [m][..0] == [];
  }

  lemma TrimTwice(s: string)
    ensures TrimSpace(TrimSpace(s)) == TrimSpace(s) && TrimSpace("") == ""
  {
  }

  lemma CallThrough(call: Invocation)
    ensures OpenAICall(PlatformCall(call)) == ToolCall(call.id, "function", call.name, call.arguments)
  {
    assert Trimmed("function");
  }

  lemma CallsThrough(turn: Turn)
    ensures var m := Encoded(Assistant(turn));
            && m == Message("assistant", TrimSpace(turn.content), m.calls, "", "") && |m.calls| == |turn.calls|
            && forall i :: 0 <= i < |turn.calls| ==>
                 m.calls[i] == ToolCall(turn.calls[i].id, "function", turn.calls[i].name, turn.calls[i].arguments)
  {
    hide TrimSpace, OpenAICall, PlatformCall;
    WordsAreTrimmed();
    TrimTwice("");
    forall i | 0 <= i < |turn.calls|
      ensures Encoded(Assistant(turn)).calls[i]
           == ToolCall(turn.calls[i].id, "function", turn.calls[i].name, turn.calls[i].arguments)
    {
      CallThrough(turn.calls[i]);
    }
  }

  /** The request of one turn: the model's text with its calls, each with its id, tool and arguments, then the
      results in order. */
  lemma TurnContents(turn: Turn)
    requires turn.calls != [] || TrimSpace(turn.content) != ""
    ensures var out := RequestMessages(TurnMessages(turn));
            && |out| == 1 + |turn.results| && |out[0].calls| == |turn.calls|
            && out[0] == Message("assistant", TrimSpace(turn.content), out[0].calls, "", "")
            && (forall i :: 0 <= i < |turn.calls| ==>
                  out[0].calls[i] == ToolCall(turn.calls[i].id, "function", turn.calls[i].name, turn.calls[i].arguments))
            && (forall j :: 0 <= j < |turn.results| ==>
                  out[1 + j] == Message("tool", TrimSpace(turn.results[j].content), [], TrimSpace(turn.results[j].callID),
                                        TrimSpace(turn.results[j].name)))
  {
    hide TrimSpace, RequestMessages, TurnMessages, Encoded, Assistant, EncodedResults;
    TurnRequest(turn);
    CallsThrough(turn);
    forall j | 0 <= j < |turn.results| ensures EncodedResults(turn.results)[j] == EncodedResult(turn.results[j]) {
      ResultAt(turn.results, j);
    }
  }

  lemma ResultAt(results: seq<ResultMessage>, j: nat)
    requires j < |results|
    ensures EncodedResults(results)[j] == EncodedResult(results[j])
  {
    hide TrimSpace;
  }

  lemma {:induction false} HistoryConcat(a: seq<History>, b: seq<History>)
    ensures HistoryMessages(a + b) == HistoryMessages(a) + HistoryMessages(b)
  {
    hide TrimSpace, NormalizeRole;
    if b == [] {
      assert a + b == a;
    } else {
      assert (a + b)[..|a + b| - 1] == a + b[..|b| - 1];
      HistoryConcat(a, b[..|b| - 1]);
    }
  }

  /** A message of the history comes through trimmed unless it is blank; a role that is neither assistant nor
      system is the user's. */
  lemma OneOfHistory(h: History)
    ensures var role, content := TrimSpace(h.role), TrimSpace(h.content);
            RequestMessages(HistoryMessages([h]))
            == if content == "" then []
               else [Message(if role == "assistant" || role == "system" then role else "user", content, [], "", "")]
  {
    hide TrimSpace, RequestMessages;
    var content := TrimSpace(h.content);
    WordsAreTrimmed();
    NoMessages();
    assert [h][..0] == [] && HistoryMessages([]) == [];
    if content != "" {
      var m := Plain(NormalizeRole(h.role), content);
      assert HistoryMessages([h]) == [] + [m] == [m];
      PlainThrough(NormalizeRole(h.role), h.content);
    }
  }

  /** A message without calls under one of the three roles comes through as it is. */
  lemma PlainThrough(role: string, content: string)
    requires role in {"assistant", "system", "user"} && TrimSpace(content) != ""
    ensures RequestMessages([Plain(role, TrimSpace(content))]) == [Message(role, TrimSpace(content), [], "", "")]
  {
    hide TrimSpace;
    WordsAreTrimmed();
    TrimTwice(content);
    FilterOne(Plain(role, TrimSpace(content)));
  }

  lemma {:induction false} TurnsConcat(a: seq<Turn>, b: seq<Turn>)
    ensures AllTurnMessages(a + b) == AllTurnMessages(a) + AllTurnMessages(b)
  {
    hide TurnMessages;
    if b == [] {
      assert a + b == a;
    } else {
      assert (a + b)[..|a + b| - 1] == a + b[..|b| - 1];
      TurnsConcat(a, b[..|b| - 1]);
    }
  }

  /** A request holds the history, then the question unless it is blank, then the turns, each part in order. */
  lemma RequestInOrder(history: seq<History>, content: string, before: seq<Turn>, turn: Turn)
    ensures RequestMessages(ToolChatMessages(history, content, []))
         == RequestMessages(HistoryMessages(history))
            + (if TrimSpace(content) == "" then [] else [Message("user", TrimSpace(content), [], "", "")])
    ensures RequestMessages(ToolChatMessages(history, content, before + [turn]))
         == RequestMessages(ToolChatMessages(history, content, before)) + RequestMessages(TurnMessages(turn))
  {
    hide TrimSpace, RequestMessages, HistoryMessages, TurnMessages, Plain;
    assert AllTurnMessages([]) == [];
    var asked := if TrimSpace(content) == "" then [] else [Plain("user", TrimSpace(content))];
    assert ToolChatMessages(history, content, []) == HistoryMessages(history) + asked;
    FilterConcat(HistoryMessages(history), asked);
    NoMessages();
    if TrimSpace(content) != "" {
      PlainThrough("user", content);
    }
    assert ToolChatMessages(history, content, before + [turn]) == ToolChatMessages(history, content, before) + TurnMessages(turn);
    FilterConcat(ToolChatMessages(history, content, before), TurnMessages(turn));
  }

  lemma NoMessages()
    ensures RequestMessages([]) == []
  {
  }

  // ---- When trimming keeps a list of ids ---------------------------------------------------------------------

  function TotalLength(ids: seq<string>): nat {
    if ids == [] then 0 else |ids[0]| + TotalLength(ids[1..])
  }

  lemma {:induction false} TotalOfConcat(a: seq<string>, b: seq<string>)
    ensures TotalLength(a + b) == TotalLength(a) + TotalLength(b)
  {
    if a == [] {
      assert a + b == b;
    } else {
      assert (a + b)[1..] == a[1..] + b;
      TotalOfConcat(a[1..], b);
    }
  }

  function Without(ids: seq<string>, i: nat): seq<string>
    requires i < |ids|
  {
    ids[..i] + ids[i + 1..]
  }

  lemma WithoutOne(ids: seq<string>, i: nat)
    requires i < |ids|
    ensures multiset(Without(ids, i)) == multiset(ids) - multiset{ids[i]}
    ensures TotalLength(ids) == |ids[i]| + TotalLength(Without(ids, i))
  {
    assert ids == ids[..i] + ([ids[i]] + ids[i + 1..]);
    TotalOfConcat(ids[..i], [ids[i]] + ids[i + 1..]);
    TotalOfConcat(ids[..i], ids[i + 1..]);
    assert ([ids[i]] + ids[i + 1..])[1..] == ids[i + 1..];
  }

  lemma {:induction false} SameIDsSameTotal(a: seq<string>, b: seq<string>)
    requires multiset(a) == multiset(b)
    ensures TotalLength(a) == TotalLength(b)
  {
    if a == [] {
      assert |multiset(b)| == 0;
    } else {
      assert a[0] in multiset(b);
      var i :| 0 <= i < |b| && b[i] == a[0];
      WithoutOne(a, 0);
      WithoutOne(b, i);
      hide TotalLength;
      SameIDsSameTotal(Without(a, 0), Without(b, i));
    }
  }

  predicate AllTrimmed(ids: seq<string>) {
    forall id :: id in ids ==> Trimmed(id)
  }

  lemma {:induction false} TrimmingShortens(ids: seq<string>)
    ensures TotalLength(TrimAll(ids)) <= TotalLength(ids)
    ensures TotalLength(TrimAll(ids)) == TotalLength(ids) ==> AllTrimmed(ids)
  {
    hide TrimSpace;
    if ids != [] {
      assert TrimAll(ids)[1..] == TrimAll(ids[1..]);
      TrimmingShortens(ids[1..]);
      assert ids == [ids[0]] + ids[1..];
    }
  }

  lemma TrimmingKeepsIffTrimmed(ids: seq<string>)
    ensures multiset(TrimAll(ids)) == multiset(ids) <==> AllTrimmed(ids)
  {
    if multiset(TrimAll(ids)) == multiset(ids) {
      SameIDsSameTotal(TrimAll(ids), ids);
      TrimmingShortens(ids);
    }
    if AllTrimmed(ids) {
      assert forall i :: 0 <= i < |ids| ==> ids[i] in ids;
      assert TrimAll(ids) == ids;
    }
  }

  // ---- Pairing, end to end -------------------------------------------------------------------------------------

  lemma PlainIsWellPaired(out: seq<Message>)
    requires forall m :: m in out ==> m.role != "tool" && m.calls == []
    ensures WellPaired(out)
  {
    hide AnsweredAt;
    assert forall i :: 0 <= i < |out| ==> out[i] in out;
  }

  lemma SameIDsTrimmed(a: seq<string>, b: seq<string>)
    requires multiset(a) == multiset(b)
    ensures AllTrimmed(a) <==> AllTrimmed(b)
  {
    assert forall id :: id in a <==> id in multiset(a);
    assert forall id :: id in b <==> id in multiset(b);
  }

  /** The messages of one turn pair up exactly when the ids of its calls carry no outer white space. */
  lemma TurnIsWellPaired(turn: Turn)
    requires Paired(turn)
    ensures var out := RequestMessages(TurnMessages(turn));
            !StartsWithTool(out) && (WellPaired(out) <==> AllTrimmed(CallIDs(turn.calls)))
  {
    TurnRequest(turn);
    AssistantSurvives(turn);
    hide TrimSpace, Assistant, Encoded, RequestMessages, TurnMessages;
    var out := RequestMessages(TurnMessages(turn));
    if turn.calls == [] {
      NoCallsNoResults(turn);
      PlainIsWellPaired(out);
    } else {
      TurnBlock(turn, Encoded(Assistant(turn)));
    }
  }

  lemma NoCallsNoResults(turn: Turn)
    requires Paired(turn) && turn.calls == []
    ensures turn.results == []
  {
    assert |multiset(ResultIDs(turn.results))| == |multiset(CallIDs(turn.calls))|;
  }

  lemma FirstAnswered(turn: Turn, first: Message)
    requires Paired(turn) && AskedIDs(first.calls) == CallIDs(turn.calls)
    ensures AnsweredAt([first] + EncodedResults(turn.results), 0) <==> AllTrimmed(CallIDs(turn.calls))
  {
    var ids := ResultIDs(turn.results);
    AnswersOfResults(turn.results);
    TrimmingKeepsIffTrimmed(ids);
    SameIDsTrimmed(ids, CallIDs(turn.calls));
    hide AllTrimmed, Answers;
    assert ([first] + EncodedResults(turn.results))[1..] == EncodedResults(turn.results);
  }

  lemma TurnBlock(turn: Turn, first: Message)
    requires Paired(turn) && turn.calls != []
    requires first.role == "assistant" && first.calls != [] && AskedIDs(first.calls) == CallIDs(turn.calls)
    ensures WellPaired([first] + EncodedResults(turn.results)) <==> AllTrimmed(CallIDs(turn.calls))
  {
    FirstAnswered(turn, first);
    BlockIsWellPaired(first, EncodedResults(turn.results));
  }

  lemma BlockIsWellPaired(first: Message, tools: seq<Message>)
    requires first.role != "tool" && first.calls != []
    requires forall i :: 0 <= i < |tools| ==> tools[i].role == "tool" && tools[i].calls == []
    ensures WellPaired([first] + tools) <==> AnsweredAt([first] + tools, 0)
  {
    hide AnsweredAt;
    assert forall i :: 0 < i < |[first] + tools| ==> ([first] + tools)[i] == tools[i - 1];
  }

  predicate TurnsTrimmed(turns: seq<Turn>) {
    forall t :: t in turns ==> AllTrimmed(CallIDs(t.calls))
  }

  lemma {:induction false} TurnsAreWellPaired(turns: seq<Turn>)
    requires AgentLoopRuns.AllPaired(turns)
    ensures var out := RequestMessages(AllTurnMessages(turns));
            !StartsWithTool(out) && (WellPaired(out) <==> TurnsTrimmed(turns))
  {
    if turns == [] {
      PlainIsWellPaired([]);
    } else {
      var init, last := turns[..|turns| - 1], turns[|turns| - 1];
      assert turns == init + [last];
      assert TurnsTrimmed(turns) <==> TurnsTrimmed(init) && AllTrimmed(CallIDs(last.calls));
      TurnsAreWellPaired(init);
      TurnIsWellPaired(last);
      FilterConcat(AllTurnMessages(init), TurnMessages(last));
      hide RequestMessages, TurnsTrimmed, AllTrimmed, WellPaired, Paired, TurnMessages;
      WellPairedConcat(RequestMessages(AllTurnMessages(init)), RequestMessages(TurnMessages(last)));
    }
  }

  /** Neither the history nor the question can be mistaken for a tool message. */
  predicate Untooled(m: Message) {
    TrimSpace(m.role) != "tool" && m.calls == []
  }

  lemma {:induction false} HistoryIsUntooled(history: seq<History>)
    ensures forall m :: m in HistoryMessages(history) ==> Untooled(m)
  {
    WordsAreTrimmed();
    hide TrimSpace;
    if history != [] {
      HistoryIsUntooled(history[..|history| - 1]);
    }
  }

  lemma {:induction false} UntooledRequest(messages: seq<Message>)
    requires forall m :: m in messages ==> Untooled(m)
    ensures forall m :: m in RequestMessages(messages) ==> m.role != "tool" && m.calls == []
  {
    hide TrimSpace;
    if messages != [] {
      var init := messages[..|messages| - 1];
      assert forall m :: m in init ==> m in messages;
      UntooledRequest(init);
      assert messages[|messages| - 1] in messages;
    }
  }

  /** What a request holds before the turns. */
  function Asked(history: seq<History>, content: string): seq<Message> {
    HistoryMessages(history) + (if TrimSpace(content) == "" then [] else [Plain("user", TrimSpace(content))])
  }

  lemma AskedIsWellPaired(history: seq<History>, content: string)
    ensures WellPaired(RequestMessages(Asked(history, content)))
  {
    hide TrimSpace, HistoryMessages, RequestMessages, WellPaired;
    WordsAreTrimmed();
    HistoryIsUntooled(history);
    UntooledRequest(Asked(history, content));
    PlainIsWellPaired(RequestMessages(Asked(history, content)));
  }

  /** For turns that answer their calls, the request answers each assistant message with tool calls at once and
      in full exactly when no call id carries outer white space: ids are trimmed in the tool messages and
      nowhere else. */
  lemma RequestPairsIffTrimmed(history: seq<History>, content: string, turns: seq<Turn>)
    requires AgentLoopRuns.AllPaired(turns)
    ensures WellPaired(RequestMessages(ToolChatMessages(history, content, turns))) <==> TurnsTrimmed(turns)
  {
    hide HistoryMessages, AllTurnMessages, RequestMessages, WellPaired, TurnsTrimmed, TrimSpace, Plain;
    var before, after := Asked(history, content), AllTurnMessages(turns);
    assert ToolChatMessages(history, content, turns) == before + after;
    AskedIsWellPaired(history, content);
    TurnsAreWellPaired(turns);
    FilterConcat(before, after);
    WellPairedConcat(RequestMessages(before), RequestMessages(after));
  }

  /** Every request that a run builds from the turns it has so far pairs up, whatever the oracle answers, unless
      a call id carries outer white space. */
  lemma RunRequestsPair(cfg: AgentLoop.Config, oracle: nat -> AgentLoop.Answers, plan: int, n: nat, history: seq<History>, content: string)
    requires AgentLoop.Normal(cfg) && n <= |AgentLoop.RunFrom(cfg, oracle, AgentLoop.Init(cfg, plan)).1.turns|
    ensures var turns := AgentLoop.RunFrom(cfg, oracle, AgentLoop.Init(cfg, plan)).1.turns[..n];
            WellPaired(RequestMessages(ToolChatMessages(history, content, turns)))
            <==> TurnsTrimmed(turns)
  {
    hide AgentLoop.RunFrom, RequestMessages, ToolChatMessages, WellPaired, TurnsTrimmed, Paired;
    AgentLoopRuns.EveryTurnIsPaired(cfg, oracle, AgentLoop.Init(cfg, plan));
    RequestPairsIffTrimmed(history, content, AgentLoop.RunFrom(cfg, oracle, AgentLoop.Init(cfg, plan)).1.turns[..n]);
  }
}
