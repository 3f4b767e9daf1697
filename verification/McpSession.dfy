/** The JSON-RPC session of internal/module/agent/infrastructure/mcp/session.go: many callers, one reader
    and at most one effective terminate share a table of pending requests and one-slot waiter channels.
    Responses are matched to requests by id (section 5 of the JSON-RPC 2.0 Specification). */
module McpSession {

  datatype Option<T> = None | Some(value: T)

  /** A message as the reader sees it: `id` is None when the raw id is missing or not a number, and
      `fromPeer` is set on requests and notifications of the peer. */
  datatype Message = Message(id: Option<int>, fromPeer: bool, payload: string)

  const SessionClosed := "mcp session closed"

  /** The fields of a session. A waiter channel is named by the id of its request. */
  datatype Shared = Shared(
    nextID: int, pending: set<int>, closed: bool, done: bool, readErr: Option<string>, waiters: map<int, seq<Message>>)

  // ---- The atomic regions -------------------------------------------------------------------------

  function TakeID(f: Shared): (Shared, int) {
    var id := f.nextID + 1;
    (f.(nextID := id, waiters := f.waiters[id := []]), id)
  }

  function Register(f: Shared, id: int): (Shared, bool) {
    if f.closed then (f, false) else (f.(pending := f.pending + {id}), true)
  }

  function RemovePending(f: Shared, id: int): Shared {
    f.(pending := f.pending - {id})
  }

  /** The lock region of dispatchResponse: the waiter to hand the message to, if there is one. */
  function Dispatch(f: Shared, msg: Message): (Shared, Option<int>) {
    if msg.id.Some? && msg.id.value in f.pending
    then (f.(pending := f.pending - {msg.id.value}), Some(msg.id.value))
    else (f, None)
  }

  function Deliver(f: Shared, id: int, msg: Message): Shared {
    if id in f.waiters then f.(waiters := f.waiters[id := f.waiters[id] + [msg]]) else f
  }

  function StoreCause(f: Shared, cause: Option<string>): Shared {
    f.(readErr := Some(if cause.None? then SessionClosed else cause.value))
  }

  function MarkClosed(f: Shared): Shared {
    f.(closed := true, pending := {})
  }

  function CloseDone(f: Shared): Shared {
    f.(done := true)
  }

  function TerminationErr(f: Shared): string {
    if f.readErr.Some? then f.readErr.value else SessionClosed
  }

  class Session {
    var nextID: int
    var pending: set<int>
    var closed: bool
    var done: bool
    var readErr: Option<string>
    var waiters: map<int, seq<Message>>

    function Fields(): Shared
      reads this
    {
      Shared(nextID, pending, closed, done, readErr, waiters)
    }

    constructor ()
      ensures Fields() == Shared(0, {}, false, false, None, map[])
    {
      nextID, pending, closed, done, readErr, waiters := 0, {}, false, false, None, map[];
    }

    method NewCall() returns (id: int)
      modifies this
      ensures (Fields(), id) == TakeID(old(Fields()))
      ensures id == old(nextID) + 1 == nextID && waiters == old(waiters)[id := []]
    {
      nextID := nextID + 1;
      id := nextID;
      waiters := waiters[id := []];
    }

    method AddPending(id: int) returns (ok: bool)
      modifies this
      ensures (Fields(), ok) == Register(old(Fields()), id)
      ensures ok <==> !old(closed)
      ensures pending == if ok then old(pending) + {id} else old(pending)
    {
      if closed {
        return false;
      }
      pending := pending + {id};
      return true;
    }

    method DropPending(id: int)
      modifies this
      ensures Fields() == RemovePending(old(Fields()), id)
      ensures pending == old(pending) - {id}
    {
      pending := pending - {id};
    }

    method DispatchResponse(msg: Message) returns (waiter: Option<int>)
      modifies this
      ensures (Fields(), waiter) == Dispatch(old(Fields()), msg)
      ensures forall id :: waiter == Some(id) <==> msg.id == Some(id) && id in old(pending)
      ensures pending == if waiter.Some? then old(pending) - {waiter.value} else old(pending)
    {
      if msg.id.None? {
        return None;
      }
      var id := msg.id.value;
      if id in pending {
        pending := pending - {id};
        return Some(id);
      }
      return None;
    }

    /** The channel send; the caller must find the one slot free. */
    method SendToWaiter(id: int, msg: Message)
      requires id in waiters && waiters[id] == []
      modifies this
      ensures Fields() == Deliver(old(Fields()), id, msg)
      ensures waiters == old(waiters)[id := [msg]]
    {
      assert waiters[id] + [msg] == [msg];
      waiters := waiters[id := waiters[id] + [msg]];
    }

    /** The body that runs once. Every prefix of its three writes is a state others can see. */
    method Terminate(cause: Option<string>)
      modifies this
      ensures Fields() == CloseDone(MarkClosed(StoreCause(old(Fields()), cause)))
      ensures closed && done && pending == {}
      ensures readErr == Some(if cause.None? then SessionClosed else cause.value)
    {
      var reason := if cause.None? then SessionClosed else cause.value;
      readErr := Some(reason);
      closed := true;
      pending := {};
      done := true;
    }
  }

  // ---- Interleavings --------------------------------------------------------------------------------

  datatype Outcome = Response(msg: Message) | Canceled | NotSent | Terminated(cause: string)

  /** Where a caller is: id taken; registered; in the select; about to remove its entry and then return;
      about to read the termination cause; returned. */
  datatype Stage = Entered | Registered | Waiting | Removing(after: Outcome) | Failing | Returned(outcome: Outcome)

  datatype Reader = Reading | Holding(id: int, msg: Message) | Stopped

  /** How far the once-only body of terminate has run. */
  datatype Closing = Open | CauseStored | Marked | DoneClosed

  /** `received` is everything the reader was given, `first` the argument of the first terminate. */
  datatype State = State(
    f: Shared, calls: map<int, Stage>, reader: Reader, closing: Closing, received: set<Message>, first: Option<string>)

  datatype Event =
    | Enter
    | TryRegister(id: int)
    | Send(id: int, ok: bool)
    | SelectCancel(id: int)
    | SelectDone(id: int)
    | SelectMessage(id: int)
    | Remove(id: int)
    | Fail(id: int)
    | Receive(msg: Message)
    | HandOver
    | ReadError(cause: string)
    | Close
    | CloseStep

  predicate At(s: State, id: int, stage: Stage) {
    id in s.calls && s.calls[id] == stage
  }

  /** When an event can happen. A select takes any branch that is ready. */
  predicate Enabled(s: State, e: Event) {
    match e
    case Enter => true
    case TryRegister(id) => At(s, id, Entered)
    case Send(id, _) => At(s, id, Registered)
    case SelectCancel(id) => At(s, id, Waiting)
    case SelectDone(id) => At(s, id, Waiting) && s.f.done
    case SelectMessage(id) => At(s, id, Waiting) && id in s.f.waiters && s.f.waiters[id] != []
    case Remove(id) => id in s.calls && s.calls[id].Removing?
    case Fail(id) => At(s, id, Failing)
    case Receive(_) => s.reader == Reading
    case HandOver => s.reader.Holding? && s.reader.id in s.f.waiters && |s.f.waiters[s.reader.id]| < 1
    case ReadError(_) => s.reader == Reading
    case Close => true
    case CloseStep => s.closing in {CauseStored, Marked}
  }

  /** terminate runs its body for its first caller only. */
  function BeginTerminate(s: State, cause: Option<string>): State {
    if s.closing != Open then s
    else s.(f := StoreCause(s.f, cause), closing := CauseStored,
            first := Some(if cause.None? then SessionClosed else cause.value))
  }

  function Next(s: State, e: Event): State
    requires Enabled(s, e)
  {
    match e
    case Enter =>
      var (f, id) := TakeID(s.f);
      s.(f := f, calls := s.calls[id := Entered])
    case TryRegister(id) =>
      var (f, ok) := Register(s.f, id);
      s.(f := f, calls := s.calls[id := if ok then Registered else Failing])
    case Send(id, ok) => s.(calls := s.calls[id := if ok then Waiting else Removing(NotSent)])
    case SelectCancel(id) => s.(calls := s.calls[id := Removing(Canceled)])
    case SelectDone(id) => s.(calls := s.calls[id := Failing])
    case SelectMessage(id) =>
      s.(f := s.f.(waiters := s.f.waiters[id := s.f.waiters[id][1..]]),
         calls := s.calls[id := Returned(Response(s.f.waiters[id][0]))])
    case Remove(id) => s.(f := RemovePending(s.f, id), calls := s.calls[id := Returned(s.calls[id].after)])
    case Fail(id) => s.(calls := s.calls[id := Returned(Terminated(TerminationErr(s.f)))])
    case Receive(msg) =>
      var t := s.(received := s.received + {msg});
      if msg.fromPeer then t
      else
        var (f, waiter) := Dispatch(s.f, msg);
        t.(f := f, reader := if waiter.Some? then Holding(waiter.value, msg) else Reading)
    case HandOver => s.(f := Deliver(s.f, s.reader.id, s.reader.msg), reader := Reading)
    case ReadError(cause) => BeginTerminate(s, Some(cause)).(reader := Stopped)
    case Close => BeginTerminate(s, Some(SessionClosed))
    case CloseStep =>
      if s.closing == CauseStored then s.(f := MarkClosed(s.f), closing := Marked)
      else s.(f := CloseDone(s.f), closing := DoneClosed)
  }

  const Fresh := State(Shared(0, {}, false, false, None, map[]), map[], Reading, Open, {}, None)

  /** A run: every state follows from the one before by an event that could happen. */
  ghost predicate Behavior(states: seq<State>, events: seq<Event>) {
    && |states| == |events| + 1 && states[0] == Fresh
    && forall i :: 0 <= i < |events| ==> Enabled(states[i], events[i]) && states[i + 1] == Next(states[i], events[i])
  }

  /** What holds of one call: where its id and its messages can be. */
  predicate CallOk(s: State, id: int)
    requires id in s.calls
  {
    && 1 <= id <= s.f.nextID && id in s.f.waiters
    && |s.f.waiters[id]| <= 1
    && (forall m :: m in s.f.waiters[id] ==> m.id == Some(id) && m in s.received)
    && (id in s.f.pending ==>
          s.f.waiters[id] == [] && s.calls[id] in {Registered, Waiting, Removing(NotSent), Removing(Canceled)})
    && (s.reader.Holding? && s.reader.id == id ==> s.f.waiters[id] == [] && id !in s.f.pending && s.calls[id] != Entered)
    && (s.calls[id] == Entered ==> s.f.waiters[id] == [])
    && (s.calls[id] == Failing ==> s.f.readErr.Some?)
    && (s.calls[id].Removing? ==> s.calls[id].after in {NotSent, Canceled})
    && (s.calls[id].Returned? ==>
          match s.calls[id].outcome
          case Response(msg) => msg.id == Some(id) && msg in s.received
          case Terminated(cause) => s.first == Some(cause)
          case _ => true)
  }

  /** What holds of the session: termination only moves forward, and its cause is the first one. */
  predicate SessionOk(s: State) {
    && 0 <= s.f.nextID
    && (s.f.closed <==> s.closing in {Marked, DoneClosed})
    && (s.f.done <==> s.closing == DoneClosed)
    && (s.closing == Open <==> s.first == None)
    && s.f.readErr == s.first
    && (s.f.closed ==> s.f.pending == {})
    && (forall id :: id in s.f.pending ==> id in s.calls)
    && (s.reader.Holding? ==> s.reader.id in s.calls && s.reader.msg.id == Some(s.reader.id) && s.reader.msg in s.received)
  }

  ghost predicate Inv(s: State) {
    SessionOk(s) && forall id :: id in s.calls ==> CallOk(s, id)
  }

  lemma StepKeepsCallOk(s: State, e: Event, id: int)
    requires Inv(s) && Enabled(s, e) && id in Next(s, e).calls
    ensures CallOk(Next(s, e), id)
  {
    if id in s.calls {
      assert CallOk(s, id);
    }
  }

  lemma StepKeepsInv(s: State, e: Event)
    requires Inv(s) && Enabled(s, e)
    ensures Inv(Next(s, e))
  {
    forall id | id in Next(s, e).calls ensures CallOk(Next(s, e), id) {
      StepKeepsCallOk(s, e, id);
    }
  }

  lemma {:induction false} RunKeepsInv(states: seq<State>, events: seq<Event>, i: nat)
    requires Behavior(states, events) && i < |states|
    ensures Inv(states[i])
  {
    if i > 0 {
      RunKeepsInv(states, events, i - 1);
      StepKeepsInv(states[i - 1], events[i - 1]);
    }
  }

  // ---- What every run guarantees ----------------------------------------------------------------------

  /** A call that returns a result returns a message the reader received and that carries the call's own
      id, so no message reaches two calls. */
  lemma ResponseIsOwn(states: seq<State>, events: seq<Event>, i: nat, id: int, msg: Message)
    requires Behavior(states, events) && i < |states|
    requires id in states[i].calls && states[i].calls[id] == Returned(Response(msg))
    ensures msg.id == Some(id) && msg in states[i].received
    ensures forall other :: other in states[i].calls && states[i].calls[other] == Returned(Response(msg)) ==> other == id
  {
    RunKeepsInv(states, events, i);
    assert CallOk(states[i], id);
    forall other | other in states[i].calls && states[i].calls[other] == Returned(Response(msg)) ensures other == id {
      assert CallOk(states[i], other);
    }
  }

  /** The reader never blocks: while it holds a message for a waiter, that waiter's slot is free. No slot
      ever holds more than one message. */
  lemma ReaderNeverBlocks(states: seq<State>, events: seq<Event>, i: nat)
    requires Behavior(states, events) && i < |states|
    ensures states[i].reader.Holding? ==> Enabled(states[i], HandOver)
    ensures forall id :: id in states[i].calls ==> id in states[i].f.waiters && |states[i].f.waiters[id]| <= 1
  {
    RunKeepsInv(states, events, i);
    forall id | id in states[i].calls ensures id in states[i].f.waiters && |states[i].f.waiters[id]| <= 1 {
      assert CallOk(states[i], id);
    }
    if states[i].reader.Holding? {
      assert CallOk(states[i], states[i].reader.id);
    }
  }

  /** A response to a pending call is handed to it: the reader takes it up, fills the call's slot with it, and a
      call in its select can return it by a step of its own. */
  lemma ResponseReachesCall(states: seq<State>, events: seq<Event>, i: nat, id: int, msg: Message)
    requires Behavior(states, events) && i < |states| && states[i].reader == Reading
    requires !msg.fromPeer && msg.id == Some(id) && id in states[i].f.pending
    ensures Enabled(states[i], Receive(msg))
    ensures var held := Next(states[i], Receive(msg));
            && held.reader == Holding(id, msg) && Enabled(held, HandOver)
            && var given := Next(held, HandOver);
               && given.reader == Reading && id in given.f.waiters && given.f.waiters[id] == [msg]
               && (At(given, id, Waiting) ==>
                     && Enabled(given, SelectMessage(id))
                     && At(Next(given, SelectMessage(id)), id, Returned(Response(msg))))
  {
    RunKeepsInv(states, events, i);
    assert CallOk(states[i], id);
  }

  /** A response received for a pending call, which no later event may lose. */
  predicate OnItsWay(s: State, id: int, msg: Message) {
    && id in s.calls && id in s.f.waiters
    && (s.calls[id].Returned? || s.reader == Holding(id, msg) || s.f.waiters[id] == [msg])
  }

  lemma StepKeepsOnItsWay(s: State, e: Event, id: int, msg: Message)
    requires Inv(s) && Enabled(s, e) && OnItsWay(s, id, msg)
    ensures OnItsWay(Next(s, e), id, msg)
  {
    assert CallOk(s, id);
  }

  /** From then on, whatever happens, the message is in the reader's hand or in the call's slot until the call has
      returned. */
  lemma {:induction false} ResponseIsNeverLost(states: seq<State>, events: seq<Event>, i: nat, j: nat, id: int, msg: Message)
    requires Behavior(states, events) && i < j < |states| && events[i] == Receive(msg)
    requires !msg.fromPeer && msg.id == Some(id) && id in states[i].f.pending
    ensures OnItsWay(states[j], id, msg)
  {
    RunKeepsInv(states, events, j - 1);
    if i == j - 1 {
      assert CallOk(states[i], id);
    } else {
      ResponseIsNeverLost(states, events, i, j - 1, id, msg);
      StepKeepsOnItsWay(states[j - 1], events[j - 1], id, msg);
    }
  }

  /** A call gets into the pending table exactly while the session is not closed, and stays there, under every other
      event, until its response comes, it gives up or the session closes. */
  lemma RegisteredUntilAnswered(states: seq<State>, events: seq<Event>, i: nat, id: int)
    requires Behavior(states, events) && i < |events|
    ensures events[i] == TryRegister(id) ==>
              (id in states[i + 1].f.pending <==> !states[i].f.closed)
              && states[i + 1].calls[id] == if states[i].f.closed then Failing else Registered
    ensures id in states[i].f.pending && events[i] != Remove(id) && !states[i + 1].f.closed
            && !(events[i].Receive? && !events[i].msg.fromPeer && events[i].msg.id == Some(id)) ==>
              id in states[i + 1].f.pending
  {
    RunKeepsInv(states, events, i);
    RunKeepsInv(states, events, i + 1);
    if events[i] == TryRegister(id) {
      assert CallOk(states[i], id);
    }
  }

  /** A returned call has left nothing in the pending table. */
  lemma NothingLeftPending(states: seq<State>, events: seq<Event>, i: nat, id: int)
    requires Behavior(states, events) && i < |states|
    requires id in states[i].calls && states[i].calls[id].Returned?
    ensures id !in states[i].f.pending
  {
    RunKeepsInv(states, events, i);
    assert CallOk(states[i], id);
  }

  /** Once closed is set, the pending table stays empty for the rest of the run. */
  lemma {:induction false} ClosedStaysEmpty(states: seq<State>, events: seq<Event>, i: nat, j: nat)
    requires Behavior(states, events) && i <= j < |states| && states[i].f.closed
    ensures states[j].f.closed && states[j].f.pending == {}
  {
    RunKeepsInv(states, events, j);
    if i < j {
      ClosedStaysEmpty(states, events, i, j - 1);
      RunKeepsInv(states, events, j - 1);
    }
  }

  /** The cause of the first terminate is fixed from then on. */
  lemma {:induction false} FirstCauseStays(states: seq<State>, events: seq<Event>, i: nat, j: nat)
    requires Behavior(states, events) && i <= j < |states| && states[i].first.Some?
    ensures states[j].first == states[i].first
  {
    if i < j {
      FirstCauseStays(states, events, i, j - 1);
      RunKeepsInv(states, events, j - 1);
    }
  }

  /** Every termination error any call ever reports is the cause of the first terminate. */
  lemma TerminationErrorIsFirstCause(states: seq<State>, events: seq<Event>, i: nat, j: nat, id: int, cause: string)
    requires Behavior(states, events) && i <= j < |states|
    requires states[i].first.Some? && id in states[j].calls && states[j].calls[id] == Returned(Terminated(cause))
    ensures states[i].first == Some(cause)
  {
    FirstCauseStays(states, events, i, j);
    RunKeepsInv(states, events, j);
    assert CallOk(states[j], id);
  }

  /** How many steps of its own a call can still take. */
  function Rank(stage: Stage): nat {
    match stage
    case Entered => 4
    case Registered => 3
    case Waiting => 2
    case Removing(_) => 1
    case Failing => 1
    case Returned(_) => 0
  }

  predicate OwnStep(e: Event, id: int) {
    e in {TryRegister(id), Send(id, true), Send(id, false), SelectCancel(id), SelectDone(id), SelectMessage(id), Remove(id), Fail(id)}
  }

  /** A step of its own brings a call nearer to its return, and no other step takes it back. */
  lemma OwnStepsAdvance(s: State, e: Event, id: int)
    requires Inv(s) && Enabled(s, e) && id in s.calls
    ensures id in Next(s, e).calls
    ensures if OwnStep(e, id) then Rank(Next(s, e).calls[id]) < Rank(s.calls[id])
            else Next(s, e).calls[id] == s.calls[id]
  {
    assert CallOk(s, id);
  }

  /** After done closes, a call that has not returned always has a step of its own to take, so by
      OwnStepsAdvance it returns within four of them whatever the others do; done never reopens. */
  lemma NoCallIsStuck(states: seq<State>, events: seq<Event>, i: nat, id: int) returns (e: Event)
    requires Behavior(states, events) && i < |states| && states[i].f.done
    requires id in states[i].calls && !states[i].calls[id].Returned?
    ensures OwnStep(e, id) && Enabled(states[i], e)
    ensures i < |events| ==> states[i + 1].f.done
  {
    e := match states[i].calls[id]
         case Entered => TryRegister(id)
         case Registered => Send(id, true)
         case Waiting => SelectDone(id)
         case Removing(_) => Remove(id)
         case Failing => Fail(id)
         case Returned(_) => Enter;
  }

  function OwnSteps(events: seq<Event>, id: int): nat {
    if events == [] then 0
    else OwnSteps(events[..|events| - 1], id) + if OwnStep(events[|events| - 1], id) then 1 else 0
  }

  lemma OwnStepsSnoc(events: seq<Event>, i: nat, j: nat, id: int)
    requires i < j <= |events|
    ensures OwnSteps(events[i..j], id) == OwnSteps(events[i..j - 1], id) + if OwnStep(events[j - 1], id) then 1 else 0
  {
    assert events[i..j][..j - 1 - i] == events[i..j - 1];
    assert events[i..j][j - 1 - i] == events[j - 1];
  }

  lemma RankAfterStep(states: seq<State>, events: seq<Event>, i: nat, id: int)
    requires Behavior(states, events) && i < |events| && id in states[i].calls
    ensures id in states[i + 1].calls
    ensures Rank(states[i + 1].calls[id]) + (if OwnStep(events[i], id) then 1 else 0) <= Rank(states[i].calls[id])
  {
    RunKeepsInv(states, events, i);
    OwnStepsAdvance(states[i], events[i], id);
  }

  /** Over any stretch of a run a call uses up its rank step by step, so four steps of its own are always
      enough for it to have returned. */
  lemma {:induction false} ReturnsWithinRank(states: seq<State>, events: seq<Event>, i: nat, j: nat, id: int)
    requires Behavior(states, events) && i <= j < |states| && id in states[i].calls
    ensures id in states[j].calls
    ensures Rank(states[j].calls[id]) + OwnSteps(events[i..j], id) <= Rank(states[i].calls[id])
    ensures OwnSteps(events[i..j], id) >= 4 ==> states[j].calls[id].Returned?
  {
    if i < j {
      ReturnsWithinRank(states, events, i, j - 1, id);
      RankAfterStep(states, events, j - 1, id);
      OwnStepsSnoc(events, i, j, id);
    }
  }
}
