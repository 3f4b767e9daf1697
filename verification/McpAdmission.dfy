/** The admission of tool calls in internal/module/agent/infrastructure/mcp/manager.go: a call first takes a
    slot of the server's limiter, then passes the server's breaker; its done closure reports the result and
    frees the slot, once. Any number of calls interleave, and a report may arrive long after the breaker has
    moved on. */
module McpAdmission {
  import opened CircuitBreakers
  import opened Limiters

  /** Where a call is: it holds a slot and is about to ask the breaker; the breaker refused it and it is
      about to free its slot; admitted; it has reported and is about to free its slot; over. */
  datatype Phase = AtBreaker | Refusing | Admitted | Reported | Ended

  /** What happened to the breaker, in order. */
  datatype Entry = Opened(at: int) | Closing | Admission(at: int) | Success | Failure

  /** `probe` is the call whose admission last made the breaker half-open. */
  datatype State = State(
    clock: int, breaker: Breaker, counts: map<string, int>, calls: map<nat, Phase>, log: seq<Entry>, probe: nat)

  datatype Config = Config(server: string, max: int, settings: Settings)

  datatype Event =
    | Tick(to: int)
    | TakeSlot(id: nat)
    | AskBreaker(id: nat)
    | Done(id: nat, success: bool)
    | FreeSlot(id: nat)

  predicate Limited(cfg: Config) {
    cfg.max > 0 && cfg.server != ""
  }

  function Free(cfg: Config, counts: map<string, int>): map<string, int> {
    if Limited(cfg) then Released(counts, cfg.server) else counts
  }

  /** One atomic step. A done closure called again finds its call no longer Admitted and does nothing. */
  function Next(cfg: Config, s: State, e: Event): State {
    match e
    case Tick(to) => if to < s.clock then s else s.(clock := to)
    case TakeSlot(id) =>
      if id in s.calls then s
      else
        var (counts, ok) := TryAcquire(s.counts, cfg.max, cfg.server);
        s.(counts := counts, calls := s.calls[id := if ok then AtBreaker else Ended])
    case AskBreaker(id) =>
      if id !in s.calls || s.calls[id] != AtBreaker then s
      else
        var (b, ok) := Allow(s.breaker, cfg.settings, s.clock);
        if ok then s.(breaker := b, calls := s.calls[id := Admitted], log := s.log + [Admission(s.clock)],
                      probe := if s.breaker.state == HalfOpen || b.state == HalfOpen then id else s.probe)
        else s.(breaker := b, calls := s.calls[id := Refusing])
    case Done(id, success) =>
      if id !in s.calls || s.calls[id] != Admitted then s
      else
        var b := Record(s.breaker, cfg.settings, success, s.clock);
        s.(breaker := b, calls := s.calls[id := Reported],
           log := s.log + [if success then Success else Failure]
                  + (if b.state == s.breaker.state then [] else if b.state == Open then [Opened(s.clock)] else [Closing]))
    case FreeSlot(id) =>
      if id !in s.calls || s.calls[id] !in {Refusing, Reported} then s
      else s.(counts := Free(cfg, s.counts), calls := s.calls[id := Ended])
  }

  function Exec(cfg: Config, events: seq<Event>): State {
    if events == [] then State(0, Initial, map[], map[], [], 0)
    else Next(cfg, Exec(cfg, events[..|events| - 1]), events[|events| - 1])
  }

  // ---- The limiter -----------------------------------------------------------------------------------

  /** The calls that hold a slot: admitted and unfinished ones, and those between the two gates. */
  function Holders(s: State): set<nat> {
    Holding(s.calls)
  }

  function Holding(calls: map<nat, Phase>): set<nat> {
    set id | id in calls && calls[id] != Ended
  }

  predicate SlotsOk(cfg: Config, s: State) {
    && s.counts.Keys <= {cfg.server}
    && (if Limited(cfg) then CountOf(s.counts, cfg.server) == |Holders(s)| <= cfg.max else s.counts == map[])
    && (cfg.server in s.counts ==> s.counts[cfg.server] > 0)
  }

  lemma HolderLeaves(calls: map<nat, Phase>, id: nat)
    requires id in calls && calls[id] != Ended
    ensures |Holding(calls[id := Ended])| == |Holding(calls)| - 1
  {
    assert Holding(calls[id := Ended]) == Holding(calls) - {id};
  }

  lemma HolderJoins(calls: map<nat, Phase>, id: nat)
    requires id !in calls
    ensures |Holding(calls[id := AtBreaker])| == |Holding(calls)| + 1
    ensures Holding(calls[id := Ended]) == Holding(calls)
  {
    assert Holding(calls[id := AtBreaker]) == Holding(calls) + {id};
  }

  lemma HolderStays(calls: map<nat, Phase>, id: nat, phase: Phase)
    requires id in calls && calls[id] != Ended && phase != Ended
    ensures Holding(calls[id := phase]) == Holding(calls)
  {
  }

  lemma TakeSlotKeepsSlots(cfg: Config, s: State, id: nat)
    requires SlotsOk(cfg, s)
    ensures SlotsOk(cfg, Next(cfg, s, TakeSlot(id)))
  {
    var t := Next(cfg, s, TakeSlot(id));
    if id !in s.calls {
      HolderJoins(s.calls, id);
    }
  }

  lemma FreeSlotKeepsSlots(cfg: Config, s: State, id: nat)
    requires SlotsOk(cfg, s)
    ensures SlotsOk(cfg, Next(cfg, s, FreeSlot(id)))
  {
    var t := Next(cfg, s, FreeSlot(id));
    if id in s.calls && s.calls[id] in {Refusing, Reported} {
      HolderLeaves(s.calls, id);
    }
  }

  lemma StepKeepsSlots(cfg: Config, s: State, e: Event)
    requires SlotsOk(cfg, s)
    ensures SlotsOk(cfg, Next(cfg, s, e))
  {
    var t := Next(cfg, s, e);
    match e
    case Tick(_) => assert Holders(t) == Holders(s);
    case TakeSlot(id) => TakeSlotKeepsSlots(cfg, s, id);
    case FreeSlot(id) => FreeSlotKeepsSlots(cfg, s, id);
    case AskBreaker(id) =>
      if t.calls != s.calls {
        HolderStays(s.calls, id, t.calls[id]);
      }
    case Done(id, _) =>
      if t.calls != s.calls {
        HolderStays(s.calls, id, t.calls[id]);
      }
  }

  /** In every run, repeated done calls and refusals included, the limiter's count for the server is the
      number of calls holding a slot and never exceeds the maximum, and the key exists exactly while the
      count is positive; no other key ever appears. */
  lemma {:induction false} SlotsAreExact(cfg: Config, events: seq<Event>)
    ensures SlotsOk(cfg, Exec(cfg, events))
    ensures Limited(cfg) ==>
              var s := Exec(cfg, events);
              && CountOf(s.counts, cfg.server) == |Holders(s)| <= cfg.max
              && (cfg.server in s.counts <==> Holders(s) != {})
  {
    if events == [] {
      assert Holders(Exec(cfg, [])) == {};
    } else {
      SlotsAreExact(cfg, events[..|events| - 1]);
      StepKeepsSlots(cfg, Exec(cfg, events[..|events| - 1]), events[|events| - 1]);
    }
  }

  /** A limiter refusal, which happens exactly when the slots are full, leaves everything but the refused call
      as it was; in particular it never uses up the breaker's probe. */
  lemma LimiterRefusalTouchesNothing(cfg: Config, events: seq<Event>, id: nat)
    requires Limited(cfg) && id !in Exec(cfg, events).calls
    ensures var s := Exec(cfg, events);
            var t := Next(cfg, s, TakeSlot(id));
            && (t.calls[id] == Ended <==> |Holders(s)| == cfg.max)
            && (t.calls[id] == Ended ==> t == s.(calls := s.calls[id := Ended]))
            && t.breaker == s.breaker
  {
    SlotsAreExact(cfg, events);
  }

  /** A breaker refusal gives its slot back: the table of counts is what it was before the call. */
  lemma BreakerRefusalReturnsSlot(cfg: Config, events: seq<Event>, id: nat)
    requires id !in Exec(cfg, events).calls
    requires var s := Exec(cfg, events); !Allow(s.breaker, cfg.settings, s.clock).1
    ensures var s := Exec(cfg, events);
            var t := Next(cfg, Next(cfg, Next(cfg, s, TakeSlot(id)), AskBreaker(id)), FreeSlot(id));
            t.counts == s.counts && t.breaker == s.breaker && t.log == s.log
  {
    SlotsAreExact(cfg, events);
    var s := Exec(cfg, events);
    if Limited(cfg) && TryAcquire(s.counts, cfg.max, cfg.server).1 {
      ReleaseUndoesAcquire(s.counts, cfg.max, cfg.server);
    }
  }

  // ---- The breaker -----------------------------------------------------------------------------------

  /** Failures reported since the last success or closing. */
  function TrailingFailures(log: seq<Entry>): nat {
    if log == [] then 0
    else match log[|log| - 1]
         case Failure => 1 + TrailingFailures(log[..|log| - 1])
         case Success => 0
         case Closing => 0
         case _ => TrailingFailures(log[..|log| - 1])
  }

  predicate BreakerOk(cfg: Config, s: State) {
    && (s.breaker.halfOpenInFlight <==> s.breaker.state == HalfOpen)
    && (s.breaker.state == Closed ==> s.breaker.consecutiveErr == TrailingFailures(s.log) < cfg.settings.threshold)
    && (s.breaker.state == HalfOpen ==> s.probe in s.calls && s.calls[s.probe] == Admitted)
  }

  lemma TrailingSnoc(log: seq<Entry>, entry: Entry)
    ensures TrailingFailures(log + [entry])
         == match entry
            case Failure => 1 + TrailingFailures(log)
            case Success => 0
            case Closing => 0
            case _ => TrailingFailures(log)
  {
    assert (log + [entry])[..|log|] == log;
  }

  lemma StepKeepsBreaker(cfg: Config, s: State, e: Event)
    requires cfg.settings.threshold > 0 && BreakerOk(cfg, s)
    ensures BreakerOk(cfg, Next(cfg, s, e))
  {
    TrailingSnoc(s.log, Admission(s.clock));
    TrailingSnoc(s.log, Success);
    TrailingSnoc(s.log, Failure);
    TrailingSnoc(s.log + [Success], Closing);
    assert forall entry: Entry :: s.log + [entry] + [] == s.log + [entry];
  }

  /** In every reachable state, late reports included: the breaker is half-open exactly while its flag is set,
      and then the call admitted as its probe has not reported; while closed, fewer than `threshold` failures
      have been reported since the last success or closing, and the counter is exactly their number. */
  lemma {:induction false} BreakerInvariant(cfg: Config, events: seq<Event>)
    requires cfg.settings.threshold > 0
    ensures BreakerOk(cfg, Exec(cfg, events))
  {
    if events != [] {
      BreakerInvariant(cfg, events[..|events| - 1]);
      StepKeepsBreaker(cfg, Exec(cfg, events[..|events| - 1]), events[|events| - 1]);
    }
  }

  /** So half-open cannot wedge: some admitted call is still to report, and the first report of any call,
      whichever it is, leaves half-open. */
  lemma HalfOpenCannotWedge(cfg: Config, events: seq<Event>, id: nat, success: bool)
    requires cfg.settings.threshold > 0 && Exec(cfg, events).breaker.state == HalfOpen
    ensures exists probe :: probe in Exec(cfg, events).calls && Exec(cfg, events).calls[probe] == Admitted
    ensures id in Exec(cfg, events).calls && Exec(cfg, events).calls[id] == Admitted ==>
              Next(cfg, Exec(cfg, events), Done(id, success)).breaker.state == if success then Closed else Open
  {
    BreakerInvariant(cfg, events);
    assert Exec(cfg, events).calls[Exec(cfg, events).probe] == Admitted;
  }

  // ---- The cooldown ------------------------------------------------------------------------------------

  /** Every admission after an opening comes at least a cooldown later. */
  ghost predicate Spaced(cfg: Config, log: seq<Entry>) {
    forall i, j :: 0 <= i < j < |log| && log[i].Opened? && log[j].Admission? ==>
      log[j].at >= log[i].at + cfg.settings.cooldown
  }

  /** While open, no opening is later than the one recorded; otherwise every cooldown has run out. */
  ghost predicate CooldownOk(cfg: Config, s: State) {
    && Spaced(cfg, s.log)
    && (forall i :: 0 <= i < |s.log| && s.log[i].Opened? ==>
          if s.breaker.state == Open then s.log[i].at <= s.breaker.openedAt
          else s.log[i].at + cfg.settings.cooldown <= s.clock)
  }

  lemma StepKeepsCooldown(cfg: Config, s: State, e: Event)
    requires cfg.settings.cooldown > 0 && CooldownOk(cfg, s)
    requires s.breaker.halfOpenInFlight <==> s.breaker.state == HalfOpen
    ensures CooldownOk(cfg, Next(cfg, s, e))
  {
  }

  /** In every run, no call is admitted within the cooldown of any earlier opening, not only of the last. */
  lemma {:induction false} NoAdmissionWithinCooldown(cfg: Config, events: seq<Event>)
    requires cfg.settings.threshold > 0 && cfg.settings.cooldown > 0
    ensures Spaced(cfg, Exec(cfg, events).log)
    ensures CooldownOk(cfg, Exec(cfg, events))
  {
    if events != [] {
      NoAdmissionWithinCooldown(cfg, events[..|events| - 1]);
      BreakerInvariant(cfg, events[..|events| - 1]);
      StepKeepsCooldown(cfg, Exec(cfg, events[..|events| - 1]), events[|events| - 1]);
    }
  }

  // ---- What the breaker answers ------------------------------------------------------------------------

  /** When the breaker last opened, if it ever did. */
  function LastOpening(log: seq<Entry>): int {
    if log == [] then 0
    else match log[|log| - 1]
         case Opened(at) => at
         case _ => LastOpening(log[..|log| - 1])
  }

  lemma OpeningSnoc(log: seq<Entry>, entry: Entry)
    ensures LastOpening(log + [entry]) == if entry.Opened? then entry.at else LastOpening(log)
  {
    assert (log + [entry])[..|log|] == log;
  }

  lemma StepKeepsOpening(cfg: Config, s: State, e: Event)
    requires s.breaker.openedAt == LastOpening(s.log)
    ensures Next(cfg, s, e).breaker.openedAt == LastOpening(Next(cfg, s, e).log)
  {
    hide LastOpening;
    OpeningSnoc(s.log, Admission(s.clock));
    OpeningSnoc(s.log, Success);
    OpeningSnoc(s.log, Failure);
    OpeningSnoc(s.log + [Success], Closing);
    OpeningSnoc(s.log + [Failure], Opened(s.clock));
    assert s.log + [Success] + [] == s.log + [Success] && s.log + [Failure] + [] == s.log + [Failure];
  }

  /** The time the breaker keeps is that of the last opening, also while it is not open. */
  lemma {:induction false} OpenedAtIsLastOpening(cfg: Config, events: seq<Event>)
    ensures Exec(cfg, events).breaker.openedAt == LastOpening(Exec(cfg, events).log)
  {
    hide Next;
    if events != [] {
      OpenedAtIsLastOpening(cfg, events[..|events| - 1]);
      StepKeepsOpening(cfg, Exec(cfg, events[..|events| - 1]), events[|events| - 1]);
    }
  }

  /** In every reachable state the breaker admits a call exactly when it is closed, or open for at least the
      cooldown since it last opened: in that case the call becomes the probe. While a probe is out it refuses.
      A refusal leaves the breaker as it is. */
  lemma AdmissionIsExact(cfg: Config, events: seq<Event>, id: nat)
    requires cfg.settings.threshold > 0
    requires id in Exec(cfg, events).calls && Exec(cfg, events).calls[id] == AtBreaker
    ensures var s := Exec(cfg, events);
            var t := Next(cfg, s, AskBreaker(id));
            var probing := s.breaker.state == Open && s.clock >= LastOpening(s.log) + cfg.settings.cooldown;
            && (t.calls[id] == Admitted <==> s.breaker.state == Closed || probing)
            && (t.calls[id] != Admitted ==> t.calls[id] == Refusing)
            && t.breaker.state == (if probing then HalfOpen else s.breaker.state)
            && (probing ==> t.probe == id)
            && (!probing ==> t.breaker == s.breaker)
  {
    BreakerInvariant(cfg, events);
    OpenedAtIsLastOpening(cfg, events);
  }

  /** In every reachable state the report of an admitted call closes a breaker that is not open when it is a
      success. A failure opens it when it is the probe's turn, or when the failures since the last success or
      closing reach the threshold. Nothing else changes its state, and it is taken down in the log. */
  lemma ReportIsExact(cfg: Config, events: seq<Event>, id: nat, success: bool)
    requires cfg.settings.threshold > 0
    requires id in Exec(cfg, events).calls && Exec(cfg, events).calls[id] == Admitted
    ensures var s := Exec(cfg, events);
            var t := Next(cfg, s, Done(id, success));
            var opens := !success && (s.breaker.state == HalfOpen
                                      || (s.breaker.state == Closed && TrailingFailures(s.log) + 1 >= cfg.settings.threshold));
            && t.calls == s.calls[id := Reported]
            && t.breaker.state == (if opens then Open
                                   else if success && s.breaker.state == HalfOpen then Closed else s.breaker.state)
            && (opens ==> LastOpening(t.log) == s.clock && t.breaker.openedAt == s.clock)
            && (!opens ==> LastOpening(t.log) == LastOpening(s.log))
  {
    BreakerInvariant(cfg, events);
    var s := Exec(cfg, events);
    assert s.log + [Success] + [] == s.log + [Success] && s.log + [Failure] + [] == s.log + [Failure];
    OpeningSnoc(s.log, Success);
    OpeningSnoc(s.log, Failure);
    OpeningSnoc(s.log + [Success], Closing);
    OpeningSnoc(s.log + [Failure], Opened(s.clock));
  }

  /** Without a limit, or without a server name, every call gets past the limiter and nothing is counted. */
  lemma UnlimitedNeverRefuses(cfg: Config, events: seq<Event>, id: nat)
    requires !Limited(cfg) && id !in Exec(cfg, events).calls
    ensures var s := Exec(cfg, events); Next(cfg, s, TakeSlot(id)) == s.(calls := s.calls[id := AtBreaker])
    ensures Exec(cfg, events).counts == map[]
  {
    SlotsAreExact(cfg, events);
  }

  // ---- Late reports --------------------------------------------------------------------------------------

  /** A call is still to report although the breaker is open. */
  ghost predicate LateReportPending(s: State) {
    s.breaker.state == Open && exists id :: id in s.calls && s.calls[id] == Admitted
  }

  lemma TwoHolders(s: State, a: nat, b: nat)
    requires a in Holders(s) && b in Holders(s) && a != b
    ensures |Holders(s)| >= 2
  {
    assert Holders(s) == {a} + (Holders(s) - {a});
    assert b in Holders(s) - {a};
  }

  /** A call still to report after a step was so before it, unless the breaker is not open after it. */
  lemma AdmittedBefore(cfg: Config, s: State, e: Event, id: nat)
    requires var t := Next(cfg, s, e); t.breaker.state == Open && id in t.calls && t.calls[id] == Admitted
    requires s.breaker.halfOpenInFlight <==> s.breaker.state == HalfOpen
    ensures id in s.calls && s.calls[id] == Admitted
    ensures s.breaker.state != Open ==> e.Done? && e.id != id && e.id in s.calls && s.calls[e.id] == Admitted
  {
  }

  /** With a single slot, the call whose report opens the breaker was the only one. */
  lemma StepKeepsSingle(cfg: Config, s: State, e: Event)
    requires Limited(cfg) && cfg.max == 1 && SlotsOk(cfg, s) && BreakerOk(cfg, s) && !LateReportPending(s)
    ensures !LateReportPending(Next(cfg, s, e))
  {
    hide Next;
    var t := Next(cfg, s, e);
    forall id | t.breaker.state == Open && id in t.calls ensures t.calls[id] != Admitted {
      if t.calls[id] == Admitted {
        AdmittedBefore(cfg, s, e, id);
        TwoHolders(s, e.id, id);
      }
    }
  }

  lemma {:induction false} SingleSlotNeverLate(cfg: Config, events: seq<Event>)
    requires cfg.settings.threshold > 0 && Limited(cfg) && cfg.max == 1
    ensures !LateReportPending(Exec(cfg, events))
  {
    hide Next, BreakerOk, SlotsOk;
    if events != [] {
      var init := events[..|events| - 1];
      SingleSlotNeverLate(cfg, init);
      SlotsAreExact(cfg, init);
      BreakerInvariant(cfg, init);
      StepKeepsSingle(cfg, Exec(cfg, init), events[|events| - 1]);
    }
  }

  /** One call is admitted and stays; then `n` others fail one after the other. */
  function Failing(n: nat): seq<Event> {
    if n == 0 then [TakeSlot(0), AskBreaker(0)]
    else Failing(n - 1) + [TakeSlot(n), AskBreaker(n)] + [Done(n, false), FreeSlot(n)]
  }

  /** After `n` failures below the threshold the first call is the only one left. */
  ghost predicate Waiting(s: State, n: nat) {
    && s.clock == 0 && s.breaker == Breaker(Closed, n, 0, false)
    && (forall id :: id in s.calls <==> 0 <= id <= n)
    && s.calls[0] == Admitted && (forall id :: 1 <= id <= n ==> s.calls[id] == Ended)
  }

  lemma ExecPair(cfg: Config, events: seq<Event>, a: Event, b: Event)
    ensures Exec(cfg, events + [a]) == Next(cfg, Exec(cfg, events), a)
    ensures Exec(cfg, events + [a, b]) == Next(cfg, Next(cfg, Exec(cfg, events), a), b)
  {
    hide Next;
    assert (events + [a, b])[..|events| + 1] == events + [a];
    assert (events + [a])[..|events|] == events;
  }

  /** With a slot to spare, the next call is admitted too. */
  lemma NextAdmitted(cfg: Config, s: State, n: nat)
    requires Waiting(s, n) && SlotsOk(cfg, s) && (Limited(cfg) ==> cfg.max >= 2)
    ensures var t := Next(cfg, Next(cfg, s, TakeSlot(n + 1)), AskBreaker(n + 1));
            t.breaker == s.breaker && t.clock == s.clock && t.calls == s.calls[n + 1 := Admitted]
  {
    if Limited(cfg) {
      assert Holders(s) == {0};
      assert CountOf(s.counts, cfg.server) == 1;
    }
  }

  lemma NextFails(cfg: Config, s: State, t: State, n: nat)
    requires Waiting(s, n) && t.breaker == s.breaker && t.clock == s.clock && t.calls == s.calls[n + 1 := Admitted]
    ensures n + 1 < cfg.settings.threshold ==>
              Waiting(Next(cfg, Next(cfg, t, Done(n + 1, false)), FreeSlot(n + 1)), n + 1)
    ensures n + 1 >= cfg.settings.threshold ==> LateReportPending(Next(cfg, t, Done(n + 1, false)))
  {
    var u := Next(cfg, t, Done(n + 1, false));
    assert u.calls == t.calls[n + 1 := Reported] && u.calls[0] == Admitted;
  }

  lemma FirstAdmitted(cfg: Config)
    ensures Waiting(Exec(cfg, Failing(0)), 0)
  {
    assert [] + [TakeSlot(0), AskBreaker(0)] == Failing(0);
    ExecPair(cfg, [], TakeSlot(0), AskBreaker(0));
  }

  lemma {:induction false} FailingRun(cfg: Config, n: nat)
    requires n < cfg.settings.threshold && (Limited(cfg) ==> cfg.max >= 2)
    ensures Waiting(Exec(cfg, Failing(n)), n)
  {
    hide Next, Exec, Waiting, SlotsOk;
    if n == 0 {
      FirstAdmitted(cfg);
    } else {
      var before := Failing(n - 1);
      FailingRun(cfg, n - 1);
      SlotsAreExact(cfg, before);
      NextAdmitted(cfg, Exec(cfg, before), n - 1);
      ExecPair(cfg, before, TakeSlot(n), AskBreaker(n));
      NextFails(cfg, Exec(cfg, before), Exec(cfg, before + [TakeSlot(n), AskBreaker(n)]), n - 1);
      ExecPair(cfg, before + [TakeSlot(n), AskBreaker(n)], Done(n, false), FreeSlot(n));
    }
  }

  /** A comment in the breaker says that no report can arrive while it is open. One can, in some run, exactly
      unless the server has a single slot. */
  lemma LateReportsIffSpareSlot(cfg: Config)
    requires cfg.settings.threshold > 0
    ensures (exists events :: LateReportPending(Exec(cfg, events))) <==> !(Limited(cfg) && cfg.max == 1)
  {
    hide LateReportPending, Next, Exec, Waiting, SlotsOk;
    if Limited(cfg) && cfg.max == 1 {
      forall events ensures !LateReportPending(Exec(cfg, events)) {
        SingleSlotNeverLate(cfg, events);
      }
    } else {
      var n := cfg.settings.threshold - 1;
      var before := Failing(n);
      FailingRun(cfg, n);
      SlotsAreExact(cfg, before);
      NextAdmitted(cfg, Exec(cfg, before), n);
      ExecPair(cfg, before, TakeSlot(n + 1), AskBreaker(n + 1));
      var admitted := before + [TakeSlot(n + 1), AskBreaker(n + 1)];
      NextFails(cfg, Exec(cfg, before), Exec(cfg, admitted), n);
      ExecPair(cfg, admitted, Done(n + 1, false), FreeSlot(n + 1));
      assert LateReportPending(Exec(cfg, admitted + [Done(n + 1, false)]));
    }
  }

  /** Such a report is ignored: it leaves the breaker as it is and frees its slot as any other does. */
  lemma LateReportIsIgnored(cfg: Config, events: seq<Event>, id: nat, success: bool)
    requires var s := Exec(cfg, events); s.breaker.state == Open && id in s.calls && s.calls[id] == Admitted
    ensures var s := Exec(cfg, events);
            var t := Next(cfg, Next(cfg, s, Done(id, success)), FreeSlot(id));
            && t.breaker == s.breaker && t.calls == s.calls[id := Ended]
            && (Limited(cfg) ==> CountOf(t.counts, cfg.server) == CountOf(s.counts, cfg.server) - 1)
  {
    SlotsAreExact(cfg, events);
    var s := Exec(cfg, events);
    assert id in Holders(s);
  }

  // ---- The manager's own code --------------------------------------------------------------------------

  /** The done closure of one admitted call. */
  class Permit {
    var finished: bool

    constructor ()
      ensures !finished
    {
      finished := false;
    }
  }

  datatype Answer = Busy | Unavailable | Granted(permit: Permit)

  class Manager {
    const server: string
    const limiter: KeyedSemaphore
    const breaker: CircuitBreaker

    constructor (server: string, max: int, threshold: int, cooldown: int)
      ensures this.server == server && fresh(limiter) && fresh(breaker)
      ensures limiter.counts == map[] && breaker.Fields() == Initial
      ensures limiter.max == (if max < 0 then 0 else max) && breaker.Config() == WithDefaults(Settings(threshold, cooldown))
    {
      this.server := server;
      limiter := new KeyedSemaphore(max);
      breaker := new CircuitBreaker(threshold, cooldown);
    }

    /** Limiter first, then breaker, so that a refusal by the limiter does not reach the breaker. */
    method Acquire(now: int) returns (answer: Answer)
      requires server in limiter.counts ==> limiter.counts[server] > 0
      modifies limiter, breaker
      ensures answer == Busy <==>
                limiter.max > 0 && server != "" && server in old(limiter.counts) && old(limiter.counts)[server] >= limiter.max
      ensures answer == Unavailable <==>
                && answer != Busy
                && (|| (old(breaker.state) == Open && now - old(breaker.openedAt) < breaker.cooldown)
                    || (old(breaker.state) == HalfOpen && old(breaker.halfOpenInFlight)))
      ensures var (counts, slot) := TryAcquire(old(limiter.counts), limiter.max, server);
              var (b, allowed) := Allow(old(breaker.Fields()), breaker.Config(), now);
              && (!slot ==> answer == Busy && limiter.counts == old(limiter.counts) && breaker.Fields() == old(breaker.Fields()))
              && (slot && !allowed ==>
                    answer == Unavailable && limiter.counts == old(limiter.counts) && breaker.Fields() == old(breaker.Fields()))
              && (slot && allowed ==>
                    answer.Granted? && fresh(answer.permit) && !answer.permit.finished
                    && limiter.counts == counts && breaker.Fields() == b)
    {
      var slot := limiter.Acquire(server);
      if !slot {
        return Busy;
      }
      var allowed := breaker.TryAllow(now);
      if !allowed {
        if limiter.max > 0 && server != "" {
          ReleaseUndoesAcquire(old(limiter.counts), limiter.max, server);
          limiter.Release(server);
        }
        return Unavailable;
      }
      var permit := new Permit();
      return Granted(permit);
    }

    /** The second and every later call of the same closure does nothing. */
    method Done(permit: Permit, success: bool, now: int)
      modifies permit, limiter, breaker
      ensures permit.finished
      ensures if old(permit.finished)
              then limiter.counts == old(limiter.counts) && breaker.Fields() == old(breaker.Fields())
              else && breaker.Fields() == Record(old(breaker.Fields()), breaker.Config(), success, now)
                   && limiter.counts == if limiter.max > 0 && server != "" then Released(old(limiter.counts), server)
                                        else old(limiter.counts)
    {
      if permit.finished {
        return;
      }
      permit.finished := true;
      breaker.Report(success, now);
      if limiter.max > 0 && server != "" {
        limiter.Release(server);
      }
    }
  }
}
