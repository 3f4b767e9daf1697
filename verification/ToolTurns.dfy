/** Tool-call turns: the ids a step gives its calls, and the split of a step's calls into rejected ones and
    ones to execute (internal/module/agent/application/internal/core/loop.go). */
module ToolTurns {
  import opened Text

  datatype Invocation = Invocation(id: string, name: string, arguments: string)

  datatype ResultMessage = ResultMessage(callID: string, name: string, content: string)

  datatype Turn = Turn(content: string, calls: seq<Invocation>, results: seq<ResultMessage>)

  function CallIDs(calls: seq<Invocation>): (ids: seq<string>)
    ensures |ids| == |calls|
  {
    seq(|calls|, i requires 0 <= i < |calls| => calls[i].id)
  }

  function ResultIDs(results: seq<ResultMessage>): (ids: seq<string>)
    ensures |ids| == |results|
  {
    seq(|results|, i requires 0 <= i < |results| => results[i].callID)
  }

  /** The results of a turn answer its calls one for one. */
  predicate Paired(turn: Turn) {
    multiset(ResultIDs(turn.results)) == multiset(CallIDs(turn.calls))
  }

  /** ensureInvocationIDs: a blank id is replaced by a generated one. */
  function WithIDs(calls: seq<Invocation>, generated: nat -> string): (r: seq<Invocation>)
    ensures |r| == |calls|
  {
    seq(|calls|, i requires 0 <= i < |calls| =>
      if TrimSpace(calls[i].id) == "" then calls[i].(id := generated(i)) else calls[i])
  }

  method EnsureInvocationIDs(calls: array<Invocation>, generated: nat -> string)
    modifies calls
    ensures calls[..] == WithIDs(old(calls[..]), generated)
    ensures forall i :: 0 <= i < calls.Length ==>
              calls[i] == Invocation(if TrimSpace(old(calls[i].id)) == "" then generated(i) else old(calls[i].id),
                                     old(calls[i].name), old(calls[i].arguments))
  {
    for i := 0 to calls.Length
      invariant forall j :: 0 <= j < i ==> calls[j] == WithIDs(old(calls[..]), generated)[j]
      invariant forall j :: i <= j < calls.Length ==> calls[j] == old(calls[j])
    {
      if TrimSpace(calls[i].id) == "" {
        calls[i] := calls[i].(id := generated(i));
      }
    }
  }

  /** The verdict on one call before deduplication: a reason to reject it, or its tool-and-arguments key. */
  datatype Check = Rejected(reason: string) | Accepted(key: string)

  datatype Planned = Planned(inv: Invocation, key: string)

  const AlreadyCalled := "the tool was already called with these arguments"

  function ErrResult(inv: Invocation, reason: string): ResultMessage {
    ResultMessage(inv.id, inv.name, "call failed: " + reason)
  }

  /** validateInvocation over a step's calls: results for the rejected ones, and the ones to execute, both in
      order. Only keys of earlier steps are refused as repeated. */
  function Validate(calls: seq<Invocation>, check: Invocation -> Check, seen: set<string>): (seq<ResultMessage>, seq<Planned>) {
    if calls == [] then ([], [])
    else
      var (errors, planned) := Validate(calls[..|calls| - 1], check, seen);
      var last := calls[|calls| - 1];
      match check(last)
      case Rejected(reason) => (errors + [ErrResult(last, reason)], planned)
      case Accepted(key) =>
        if key in seen then (errors + [ErrResult(last, AlreadyCalled)], planned)
        else (errors, planned + [Planned(last, key)])
  }

  function PlannedIDs(planned: seq<Planned>): (ids: seq<string>)
    ensures |ids| == |planned|
  {
    seq(|planned|, i requires 0 <= i < |planned| => planned[i].inv.id)
  }

  lemma IDsSnoc(calls: seq<Invocation>, call: Invocation, errors: seq<ResultMessage>, error: ResultMessage,
                planned: seq<Planned>, plan: Planned)
    ensures CallIDs(calls + [call]) == CallIDs(calls) + [call.id]
    ensures ResultIDs(errors + [error]) == ResultIDs(errors) + [error.callID]
    ensures PlannedIDs(planned + [plan]) == PlannedIDs(planned) + [plan.inv.id]
  {
  }

  /** Every call is either answered with an error or planned. */
  lemma {:induction false} ValidateSplits(calls: seq<Invocation>, check: Invocation -> Check, seen: set<string>)
    ensures var (errors, planned) := Validate(calls, check, seen);
            multiset(ResultIDs(errors)) + multiset(PlannedIDs(planned)) == multiset(CallIDs(calls))
  {
    if calls != [] {
      var init, last := calls[..|calls| - 1], calls[|calls| - 1];
      ValidateSplits(init, check, seen);
      var (errors, planned) := Validate(init, check, seen);
      assert calls == init + [last];
      match check(last) {
        case Rejected(reason) =>
          IDsSnoc(init, last, errors, ErrResult(last, reason), planned, Planned(last, ""));
        case Accepted(key) =>
          IDsSnoc(init, last, errors, ErrResult(last, AlreadyCalled), planned, Planned(last, key));
      }
    }
  }

  /** Only calls whose check accepted them are planned, and never under a seen key. */
  lemma {:induction false} PlannedAreFresh(calls: seq<Invocation>, check: Invocation -> Check, seen: set<string>)
    ensures forall p :: p in Validate(calls, check, seen).1 ==> p.key !in seen && check(p.inv) == Accepted(p.key)
  {
    if calls != [] {
      PlannedAreFresh(calls[..|calls| - 1], check, seen);
    }
  }

  /** The calls to execute, in order: the accepted ones whose key no earlier step succeeded with. */
  function Fresh(calls: seq<Invocation>, check: Invocation -> Check, seen: set<string>): seq<Planned> {
    if calls == [] then []
    else
      var rest := Fresh(calls[1..], check, seen);
      if check(calls[0]).Accepted? && check(calls[0]).key !in seen then [Planned(calls[0], check(calls[0]).key)] + rest
      else rest
  }

  /** The answers to the other calls, in order, each naming its call and the reason. */
  function Refusals(calls: seq<Invocation>, check: Invocation -> Check, seen: set<string>): seq<ResultMessage> {
    if calls == [] then []
    else
      var rest := Refusals(calls[1..], check, seen);
      match check(calls[0])
      case Rejected(reason) => [ResultMessage(calls[0].id, calls[0].name, "call failed: " + reason)] + rest
      case Accepted(key) =>
        if key in seen then [ResultMessage(calls[0].id, calls[0].name, "call failed: " + AlreadyCalled)] + rest else rest
  }

  lemma {:induction false} FreshConcat(a: seq<Invocation>, b: seq<Invocation>, check: Invocation -> Check, seen: set<string>)
    ensures Fresh(a + b, check, seen) == Fresh(a, check, seen) + Fresh(b, check, seen)
    ensures Refusals(a + b, check, seen) == Refusals(a, check, seen) + Refusals(b, check, seen)
  {
    if a == [] {
      assert a + b == b;
    } else {
      assert (a + b)[1..] == a[1..] + b;
      FreshConcat(a[1..], b, check, seen);
    }
  }

  lemma OneCall(call: Invocation, check: Invocation -> Check, seen: set<string>)
    ensures Fresh([call], check, seen)
         == if check(call).Accepted? && check(call).key !in seen then [Planned(call, check(call).key)] else []
    ensures Refusals([call], check, seen)
         == if check(call).Rejected? then [ErrResult(call, check(call).reason)]
            else if check(call).key in seen then [ErrResult(call, AlreadyCalled)] else []
  {
    assert [call][1..] == [];
  }

  /** The validation answers exactly the refused calls and plans exactly the fresh ones, both in order. */
  lemma {:induction false} ValidateIsExact(calls: seq<Invocation>, check: Invocation -> Check, seen: set<string>)
    ensures Validate(calls, check, seen) == (Refusals(calls, check, seen), Fresh(calls, check, seen))
  {
    hide Fresh, Refusals;
    if calls == [] {
      NoCalls(check, seen);
    } else {
      var init, last := calls[..|calls| - 1], calls[|calls| - 1];
      ValidateIsExact(init, check, seen);
      FreshConcat(init, [last], check, seen);
      OneCall(last, check, seen);
      assert calls == init + [last];
      var (errors, planned) := Validate(init, check, seen);
      assert errors + [] == errors && planned + [] == planned;
    }
  }

  lemma NoCalls(check: Invocation -> Check, seen: set<string>)
    ensures Fresh([], check, seen) == [] && Refusals([], check, seen) == []
  {
  }

  method ValidateAll(calls: seq<Invocation>, check: Invocation -> Check, seen: set<string>)
    returns (errors: seq<ResultMessage>, planned: seq<Planned>)
    ensures (errors, planned) == Validate(calls, check, seen)
  {
    errors, planned := [], [];
    for i := 0 to |calls|
      invariant (errors, planned) == Validate(calls[..i], check, seen)
    {
      assert calls[..i + 1][..i] == calls[..i];
      match check(calls[i]) {
        case Rejected(reason) =>
          errors := errors + [ErrResult(calls[i], reason)];
        case Accepted(key) =>
          if key in seen {
            errors := errors + [ErrResult(calls[i], AlreadyCalled)];
          } else {
            planned := planned + [Planned(calls[i], key)];
          }
      }
    }
    assert calls[..|calls|] == calls;
  }

  // ---- Execution -------------------------------------------------------------------------------------

  /** The outcome of one execution; `observation` is the text fed back either way. */
  datatype Outcome = Outcome(ok: bool, observation: string)

  /** One executed call of a run: the step, the key, whether it succeeded, and the tokens spent by then. */
  datatype Execution = Execution(step: nat, key: string, ok: bool, spent: int)

  function Observe(planned: Planned, outcome: Outcome): ResultMessage {
    ResultMessage(planned.inv.id, planned.inv.name, outcome.observation)
  }

  function Observations(planned: seq<Planned>, outcome: nat -> Outcome): (r: seq<ResultMessage>)
    ensures |r| == |planned|
  {
    seq(|planned|, i requires 0 <= i < |planned| => Observe(planned[i], outcome(i)))
  }

  function Executions(planned: seq<Planned>, outcome: nat -> Outcome, step: nat, spent: int): (r: seq<Execution>)
    ensures |r| == |planned|
  {
    seq(|planned|, i requires 0 <= i < |planned| => Execution(step, planned[i].key, outcome(i).ok, spent))
  }

  /** The keys that succeeded. */
  function SucceededKeys(planned: seq<Planned>, outcome: nat -> Outcome): set<string> {
    set i | 0 <= i < |planned| && outcome(i).ok :: planned[i].key
  }

  /** The turn of a step: errors first, then the observations, whatever the outcomes, pair up with its calls. */
  lemma StepTurnPaired(content: string, calls: seq<Invocation>, check: Invocation -> Check, seen: set<string>, outcome: nat -> Outcome)
    ensures var (errors, planned) := Validate(calls, check, seen);
            Paired(Turn(content, calls, errors + Observations(planned, outcome)))
  {
    var (errors, planned) := Validate(calls, check, seen);
    ValidateSplits(calls, check, seen);
    var observed := Observations(planned, outcome);
    forall i | 0 <= i < |planned| ensures ResultIDs(observed)[i] == PlannedIDs(planned)[i] {
      assert observed[i] == Observe(planned[i], outcome(i));
    }
    assert ResultIDs(observed) == PlannedIDs(planned);
    assert ResultIDs(errors + observed) == ResultIDs(errors) + ResultIDs(observed);
  }

  /** A step with nothing to execute answers all its calls with errors. */
  lemma BarrenTurnPaired(content: string, calls: seq<Invocation>, check: Invocation -> Check, seen: set<string>)
    requires Validate(calls, check, seen).1 == []
    ensures Paired(Turn(content, calls, Validate(calls, check, seen).0))
  {
    ValidateSplits(calls, check, seen);
    assert PlannedIDs([]) == [];
  }
}
