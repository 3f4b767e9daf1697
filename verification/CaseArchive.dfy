/** Archiving a run's diagnosis case against taking it down, in
    internal/module/agent/application/internal/core/case_library.go. Both are sequences of atomic
    actions on the suppression set, the cache and the database; any number of them interleave, with each
    other and with the warm-up that fills the cache after a start. */
module CaseArchive {
  import opened BoundedStringSets
  import opened Text

  datatype Item = Item(run: string, id: nat)

  /** Where a goroutine is. An archiver starts at FirstCheck; a takedown starts at Mark, and an archiver
      whose last check finds its run suppressed goes on as a takedown. */
  datatype Stage = FirstCheck | AddToCache | CreateRow | LastCheck | Mark | Remove | DeleteRows | Done

  /** `undeleted` holds the runs whose last database deletion failed. */
  datatype Shared = Shared(history: seq<string>, cache: set<Item>, database: set<Item>, undeleted: set<string>)

  predicate Suppressed(shared: Shared, capacity: nat, run: string) {
    run in Window(shared.history, capacity)
  }

  /** RemoveMatching and DeleteDiagnosisCaseByRunID: drop every case of one run. */
  function Without(items: set<Item>, run: string): set<Item> {
    set i | i in items && i.run != run
  }

  /** One atomic action of a goroutine at `stage`. `ok` says whether the database call takes effect and
      `dropped` which other cases the bounded cache evicts or replaces. */
  function Act(shared: Shared, capacity: nat, item: Item, stage: Stage, ok: bool, dropped: set<Item>): (Shared, Stage) {
    match stage
    case FirstCheck => (shared, if Suppressed(shared, capacity, item.run) then Done else AddToCache)
    case AddToCache => (shared.(cache := shared.cache - dropped + {item}), CreateRow)
    case CreateRow => (if ok then shared.(database := shared.database + {item}) else shared, LastCheck)
    case LastCheck => (shared, if Suppressed(shared, capacity, item.run) then Mark else Done)
    case Mark => (shared.(history := Accept(shared.history, capacity, item.run)), Remove)
    case Remove => (shared.(cache := Without(shared.cache, item.run)), DeleteRows)
    case DeleteRows =>
      (if ok then shared.(database := Without(shared.database, item.run),
                          undeleted := shared.undeleted - {item.run})
       else shared.(undeleted := shared.undeleted + {item.run}), Done)
    case Done => (shared, Done)
  }

  /** The library's fields. Advance performs one atomic action of one goroutine. */
  class CaseLibrary {
    const suppressed: BoundedStringSet
    var cache: set<Item>
    var database: set<Item>
    ghost var undeleted: set<string>

    ghost predicate Valid()
      reads this, suppressed, suppressed.ring
    {
      suppressed.Valid()
    }

    ghost function State(): Shared
      reads this, suppressed
    {
      Shared(suppressed.history, cache, database, undeleted)
    }

    constructor (capacity: int)
      ensures Valid() && fresh(suppressed) && fresh(suppressed.ring)
      ensures State() == Shared([], {}, {}, {})
    {
      suppressed := new BoundedStringSet(capacity);
      cache := {};
      database := {};
      undeleted := {};
    }

    method Advance(item: Item, stage: Stage, ok: bool, dropped: set<Item>) returns (next: Stage)
      requires Valid()
      modifies this, suppressed, suppressed.ring
      ensures Valid()
      ensures (State(), next) == Act(old(State()), suppressed.capacity, item, stage, ok, dropped)
    {
      match stage {
        case FirstCheck =>
          var found := suppressed.Contains(item.run);
          next := if found then Done else AddToCache;
        case AddToCache =>
          cache := cache - dropped + {item};
          next := CreateRow;
        case CreateRow =>
          if ok {
            database := database + {item};
          }
          next := LastCheck;
        case LastCheck =>
          var found := suppressed.Contains(item.run);
          next := if found then Mark else Done;
        case Mark =>
          suppressed.Add(item.run);
          next := Remove;
        case Remove =>
          cache := Without(cache, item.run);
          next := DeleteRows;
        case DeleteRows =>
          if ok {
            database := Without(database, item.run);
            undeleted := undeleted - {item.run};
          } else {
            undeleted := undeleted + {item.run};
          }
          next := Done;
        case Done =>
          next := Done;
      }
    }

    /** Marks the runs persisted as not useful, one after the other, and collects them for the filter. */
    method LoadSuppressed(runs: seq<string>) returns (blocked: set<string>)
      requires Valid()
      modifies suppressed, suppressed.ring
      ensures Valid()
      ensures State() == old(State()).(history := AcceptAll(old(State()).history, suppressed.capacity, TrimAll(runs)))
      ensures blocked == Blocked(runs)
      ensures forall run :: run in blocked <==> run != "" && run in TrimAll(runs)
    {
      hide TrimSpace;
      ghost var before := suppressed.history;
      blocked := {};
      for i := 0 to |runs|
        invariant suppressed.Valid()
        invariant suppressed.history == AcceptAll(before, suppressed.capacity, TrimAll(runs)[..i])
        invariant blocked == Blocked(runs[..i])
      {
        AcceptAllSnoc(before, suppressed.capacity, TrimAll(runs), i);
        BlockedSnoc(runs, i);
        var run := TrimSpace(runs[i]);
        if run != "" {
          blocked := blocked + {run};
          suppressed.Add(run);
        }
      }
      assert runs[..|runs|] == runs && TrimAll(runs)[..|runs|] == TrimAll(runs);
      BlockedAreNames(runs);
    }

    /** The rows that the filter lets through. */
    method Filter(items: seq<Item>, blocked: set<string>) returns (loaded: set<Item>)
      ensures loaded == Unblocked((set i | i in items), blocked)
      ensures forall i :: i in loaded <==> i in items && i.run !in blocked
    {
      loaded := {};
      for k := 0 to |items|
        invariant loaded == set i | i in items[..k] && i.run !in blocked
      {
        assert items[..k + 1] == items[..k] + [items[k]];
        if items[k].run !in blocked {
          loaded := loaded + {items[k]};
        }
      }
      assert items[..|items|] == items;
    }

    /** Replace throws away what the cache held; `dropped` are the cases it has no room for. */
    method ReplaceCache(loaded: set<Item>, dropped: set<Item>)
      requires Valid()
      modifies this`cache
      ensures Valid() && State() == old(State()).(cache := loaded - dropped)
    {
      cache := loaded - dropped;
    }
  }

  /** The runs the filter of the warm-up keeps out. */
  function Blocked(runs: seq<string>): set<string> {
    set i | 0 <= i < |runs| && TrimSpace(runs[i]) != "" :: TrimSpace(runs[i])
  }

  lemma BlockedSnoc(runs: seq<string>, i: nat)
    requires i < |runs|
    ensures Blocked(runs[..i + 1]) == Blocked(runs[..i]) + if TrimSpace(runs[i]) == "" then {} else {TrimSpace(runs[i])}
  {
    hide TrimSpace;
  }

  lemma BlockedAreNames(runs: seq<string>)
    ensures forall run :: run in Blocked(runs) <==> run != "" && run in TrimAll(runs)
  {
    hide TrimSpace;
    forall run | run in TrimAll(runs) && run != "" ensures run in Blocked(runs) {
      var i :| 0 <= i < |runs| && TrimAll(runs)[i] == run;
      assert TrimSpace(runs[i]) == run;
    }
    forall run | run in Blocked(runs) ensures run in TrimAll(runs) {
      var i :| 0 <= i < |runs| && TrimSpace(runs[i]) == run;
      assert TrimAll(runs)[i] == run;
    }
  }

  function Unblocked(items: set<Item>, blocked: set<string>): set<Item> {
    set i | i in items && i.run !in blocked
  }

  lemma AcceptAllSnoc(history: seq<string>, capacity: nat, runs: seq<string>, i: nat)
    requires i < |runs|
    ensures AcceptAll(history, capacity, runs[..i + 1])
         == Accept(AcceptAll(history, capacity, runs[..i]), capacity, runs[i])
  {
    assert runs[..i + 1][..i] == runs[..i];
  }

  // ---- Interleavings -------------------------------------------------------------------------

  datatype Proc = Proc(item: Item, stage: Stage)

  /** The warm-up goroutine of a start: nothing done; the rows listed; the suppressed runs read and `added` of
      them added, with the runs `taken` down by the time of that read; over. */
  datatype WarmUp =
    | Idle
    | Listed(listed: set<Item>)
    | Marking(loaded: set<Item>, reported: seq<string>, added: nat, taken: set<string>)
    | Warm

  /** `taken` are the runs a takedown has marked. */
  datatype State = State(shared: Shared, procs: map<nat, Proc>, taken: set<string>, warmUp: WarmUp)

  datatype Event =
    | Archive(pid: nat, item: Item)
    | Takedown(pid: nat, run: string)
    | Step(pid: nat, ok: bool, dropped: set<Item>)
    | ListRows(listed: set<Item>)
    | ReadSuppressed(reported: seq<string>)
    | AddReported
    | Replace(dropped: set<Item>)

  /** Any goroutine may start or take its next action at any time. The warm-up may list any rows of the
      database and be told of any runs: both reads are bounded, and the second may fail and tell of none. */
  function Next(s: State, capacity: nat, e: Event): State {
    match e
    case Archive(pid, item) =>
      if pid in s.procs || item.run == "" then s else s.(procs := s.procs[pid := Proc(item, FirstCheck)])
    case Takedown(pid, run) =>
      if pid in s.procs || run == "" then s else s.(procs := s.procs[pid := Proc(Item(run, 0), Mark)])
    case Step(pid, ok, dropped) =>
      if pid !in s.procs then s
      else
        var p := s.procs[pid];
        var (shared, stage) := Act(s.shared, capacity, p.item, p.stage, ok, dropped);
        s.(shared := shared, procs := s.procs[pid := p.(stage := stage)],
           taken := if p.stage == Mark then s.taken + {p.item.run} else s.taken)
    case ListRows(listed) => if s.warmUp.Idle? && listed <= s.shared.database then s.(warmUp := Listed(listed)) else s
    case ReadSuppressed(reported) =>
      if s.warmUp.Listed? then
        s.(warmUp := Marking(Unblocked(s.warmUp.listed, Blocked(reported)), TrimAll(reported), 0, s.taken))
      else s
    case AddReported =>
      if s.warmUp.Marking? && s.warmUp.added < |s.warmUp.reported| then
        s.(warmUp := s.warmUp.(added := s.warmUp.added + 1),
           shared := s.shared.(history := Accept(s.shared.history, capacity, s.warmUp.reported[s.warmUp.added])))
      else s
    case Replace(dropped) =>
      if ReadyToReplace(s) then s.(warmUp := Warm, shared := s.shared.(cache := s.warmUp.loaded - dropped)) else s
  }

  predicate ReadyToReplace(s: State) {
    s.warmUp.Marking? && s.warmUp.added == |s.warmUp.reported|
  }

  function Exec(s: State, capacity: nat, events: seq<Event>): State {
    if events == [] then s
    else Next(Exec(s, capacity, events[..|events| - 1]), capacity, events[|events| - 1])
  }

  /** How many effective additions followed the last one of `run`. */
  function AdditionsSince(history: seq<string>, run: string): (n: nat)
    requires run in history
    ensures n < |history| && history[|history| - 1 - n] == run && run !in history[|history| - n..]
  {
    if history[|history| - 1] == run then 0
    else
      assert run in history[..|history| - 1];
      1 + AdditionsSince(history[..|history| - 1], run)
  }

  /** The suppression set still knows a run exactly while fewer than `capacity` additions followed it. */
  lemma SuppressedIffRecent(history: seq<string>, capacity: nat, run: string)
    requires run in history
    ensures run in Window(history, capacity) <==> AdditionsSince(history, run) < capacity
  {
    var n := AdditionsSince(history, run);
    var last := |history| - 1 - n;
    if n < capacity {
      assert history[..|history|] == history;
      StillInWindow(history, capacity, last, |history|);
    } else {
      var start := |history| - capacity;
      forall j | start <= j < |history| ensures history[j] != run {
        assert history[|history| - n..][j - (|history| - n)] == history[j];
      }
    }
  }

  /** A last check of one of the run's archivers comes in time: if the run was taken down, fewer than
      `capacity` other runs have been newly suppressed since it was last added. */
  predicate Timely(s: State, capacity: nat, e: Event, run: string) {
    e.Step? && e.pid in s.procs && s.procs[e.pid].stage == LastCheck && s.procs[e.pid].item.run == run && run in s.taken ==>
      run in s.shared.history && AdditionsSince(s.shared.history, run) < capacity
  }

  /** The warm-up's Replace brings no case of the run back: if the run was taken down, none was loaded or some
      goroutine of the run is still to clear the cache. */
  ghost predicate Undisturbed(s: State, e: Event, run: string) {
    e.Replace? && ReadyToReplace(s) && run in s.taken ==>
      (forall i :: i in s.warmUp.loaded && i.run == run ==> i in e.dropped) || exists pid :: WillClearCache(s, pid, run)
  }

  /** What a run's takedown needs, of that run alone. */
  ghost predicate FairRun(s: State, capacity: nat, events: seq<Event>, run: string) {
    events != [] ==>
      var before := Exec(s, capacity, events[..|events| - 1]);
      && FairRun(s, capacity, events[..|events| - 1], run)
      && Timely(before, capacity, events[|events| - 1], run) && Undisturbed(before, events[|events| - 1], run)
  }

  predicate WillClearCache(s: State, pid: nat, run: string) {
    pid in s.procs && s.procs[pid].item.run == run && s.procs[pid].stage in {CreateRow, LastCheck, Mark, Remove}
  }

  predicate WillClearDatabase(s: State, pid: nat, run: string) {
    pid in s.procs && s.procs[pid].item.run == run && s.procs[pid].stage in {LastCheck, Mark, Remove, DeleteRows}
  }

  predicate Cached(s: State, run: string) {
    exists i :: i in s.shared.cache && i.run == run
  }

  /** A row of the run whose deletion has not failed. */
  predicate Stored(s: State, run: string) {
    run !in s.shared.undeleted && exists i :: i in s.shared.database && i.run == run
  }

  ghost predicate CacheCovered(s: State, run: string) {
    run in s.taken && Cached(s, run) ==> exists pid :: WillClearCache(s, pid, run)
  }

  ghost predicate DatabaseCovered(s: State, run: string) {
    run in s.taken && Stored(s, run) ==> exists pid :: WillClearDatabase(s, pid, run)
  }

  /** A stored case of a run that was taken down always has a goroutine left that is going to clear it. */
  ghost predicate Covered(s: State, run: string) {
    (run in s.taken ==> run in s.shared.history) && CacheCovered(s, run) && DatabaseCovered(s, run)
  }

  predicate Moves(s: State, e: Event, run: string) {
    e.Step? && e.pid in s.procs && s.procs[e.pid].item.run == run
  }

  /** A goroutine that does not move goes on covering its run. */
  lemma OthersGoOn(s: State, capacity: nat, e: Event, pid: nat, run: string)
    requires e.Step? ==> e.pid != pid
    ensures WillClearCache(s, pid, run) ==> WillClearCache(Next(s, capacity, e), pid, run)
    ensures WillClearDatabase(s, pid, run) ==> WillClearDatabase(Next(s, capacity, e), pid, run)
  {
    hide Accept, Blocked, TrimAll;
  }

  /** The one that moves either still covers its run afterwards, or leaves nothing to cover, or was not
      covering it. */
  lemma MoverCovers(s: State, capacity: nat, e: Event, run: string)
    requires run != "" && Timely(s, capacity, e, run) && Moves(s, e, run) && (run in s.taken ==> run in s.shared.history)
    ensures var t := Next(s, capacity, e);
            && (run in t.taken ==> run in t.shared.history)
            && (run in t.taken && Cached(t, run) ==>
                  WillClearCache(t, e.pid, run) || (run in s.taken && Cached(s, run) && !WillClearCache(s, e.pid, run)))
            && (run in t.taken && Stored(t, run) ==>
                  WillClearDatabase(t, e.pid, run) || (run in s.taken && Stored(s, run) && !WillClearDatabase(s, e.pid, run)))
  {
    if run in s.shared.history {
      SuppressedIffRecent(s.shared.history, capacity, run);
    }
  }

  /** No other event adds anything of this run anywhere, the Replace of the warm-up aside. */
  lemma OtherRunsDoNotMatter(s: State, capacity: nat, e: Event, run: string)
    requires !Moves(s, e, run)
    ensures var t := Next(s, capacity, e);
            && (run in t.taken <==> run in s.taken) && (run in s.shared.history ==> run in t.shared.history)
            && (!(e.Replace? && ReadyToReplace(s)) && Cached(t, run) ==> Cached(s, run)) && (Stored(t, run) ==> Stored(s, run))
  {
    hide Blocked, TrimAll, Window;
  }

  lemma StepKeepsCovered(s: State, capacity: nat, e: Event, run: string)
    requires run != "" && Covered(s, run) && Timely(s, capacity, e, run) && Undisturbed(s, e, run)
    ensures Covered(Next(s, capacity, e), run)
  {
    var t := Next(s, capacity, e);
    if Moves(s, e, run) {
      MoverCovers(s, capacity, e, run);
    } else {
      OtherRunsDoNotMatter(s, capacity, e, run);
      if e.Replace? && ReadyToReplace(s) {
        assert t.shared.cache == s.warmUp.loaded - e.dropped;
      }
    }
    hide Next, Timely;
    if pid :| WillClearCache(s, pid, run) && (e.Step? ==> e.pid != pid) {
      OthersGoOn(s, capacity, e, pid, run);
    }
    if pid :| WillClearDatabase(s, pid, run) && (e.Step? ==> e.pid != pid) {
      OthersGoOn(s, capacity, e, pid, run);
    }
  }

  lemma {:induction false} RunKeepsCovered(s: State, capacity: nat, events: seq<Event>, run: string)
    requires run != "" && Covered(s, run) && FairRun(s, capacity, events, run)
    ensures Covered(Exec(s, capacity, events), run)
  {
    hide Covered, Timely, Undisturbed;
    if events != [] {
      var init, last := events[..|events| - 1], events[|events| - 1];
      RunKeepsCovered(s, capacity, init, run);
      StepKeepsCovered(Exec(s, capacity, init), capacity, last, run);
    }
  }

  predicate Finished(s: State, run: string) {
    forall pid :: pid in s.procs && s.procs[pid].item.run == run ==> s.procs[pid].stage == Done
  }

  /** A start: no goroutine has done anything yet. Rows of earlier processes may be in the database. */
  predicate Started(s: State) {
    s.procs == map[] && s.taken == {} && s.warmUp == Idle
  }

  /** For every interleaving: once a run that was taken down has no goroutine left, no case of it is cached, and
      none is in the database unless its last deletion failed. */
  lemma TakedownWins(s: State, capacity: nat, events: seq<Event>, run: string)
    requires Started(s) && FairRun(s, capacity, events, run)
    requires var t := Exec(s, capacity, events); run in t.taken && Finished(t, run)
    ensures var t := Exec(s, capacity, events); !Cached(t, run) && !Stored(t, run)
  {
    RunKeepsLoadedOk(s, capacity, events);
    if run != "" {
      RunKeepsCovered(s, capacity, events, run);
    }
  }

  // ---- What archiving stores, and what a takedown spares ------------------------------------------

  /** One goroutine's next `n` actions, every database call taking effect and the cache dropping nothing. */
  function Alone(shared: Shared, capacity: nat, item: Item, stage: Stage, n: nat): (Shared, Stage)
    decreases n
  {
    if n == 0 then (shared, stage)
    else
      var (next, later) := Act(shared, capacity, item, stage, true, {});
      Alone(next, capacity, item, later, n - 1)
  }

  /** An archiver left alone stores its case in the cache and in the database, unless its run is suppressed; then it
      stores nothing. */
  lemma ArchiverStoresItsCase(shared: Shared, capacity: nat, item: Item)
    ensures var (after, stage) := Alone(shared, capacity, item, FirstCheck, 4);
            && stage == Done
            && after == if item.run in Window(shared.history, capacity) then shared
                        else shared.(cache := shared.cache + {item}, database := shared.database + {item})
  {
    var (s1, t1) := Act(shared, capacity, item, FirstCheck, true, {});
    var (s2, t2) := Act(s1, capacity, item, t1, true, {});
    var (s3, t3) := Act(s2, capacity, item, t2, true, {});
    assert shared.cache - {} + {item} == shared.cache + {item};
    assert Alone(shared, capacity, item, FirstCheck, 4) == Alone(s1, capacity, item, t1, 3) == Alone(s2, capacity, item, t2, 2)
        == Alone(s3, capacity, item, t3, 1);
  }

  /** A takedown left alone marks its run and removes exactly the cases of that run. */
  lemma TakedownRemovesItsCases(shared: Shared, capacity: nat, item: Item)
    requires item.run != ""
    ensures var (after, stage) := Alone(shared, capacity, item, Mark, 3);
            && stage == Done
            && (forall i :: i in after.cache <==> i in shared.cache && i.run != item.run)
            && (forall i :: i in after.database <==> i in shared.database && i.run != item.run)
            && after.history == (if item.run in Window(shared.history, capacity) then shared.history
                                 else shared.history + [item.run])
            && after.undeleted == shared.undeleted - {item.run}
  {
    hide Window;
    var (s1, t1) := Act(shared, capacity, item, Mark, true, {});
    var (s2, t2) := Act(s1, capacity, item, t1, true, {});
    assert Alone(shared, capacity, item, Mark, 3) == Alone(s1, capacity, item, t1, 2) == Alone(s2, capacity, item, t2, 1);
  }

  /** The warm-up's actions up to its n-th mark. */
  function WarmingUp(listed: set<Item>, reported: seq<string>, n: nat): seq<Event> {
    [ListRows(listed), ReadSuppressed(reported)] + seq(n, _ => AddReported)
  }

  lemma {:induction false} WarmUpMarks(s: State, capacity: nat, listed: set<Item>, reported: seq<string>, n: nat)
    requires s.warmUp == Idle && listed <= s.shared.database && n <= |reported|
    ensures Exec(s, capacity, WarmingUp(listed, reported, n))
         == s.(warmUp := Marking(Unblocked(listed, Blocked(reported)), TrimAll(reported), n, s.taken),
               shared := s.shared.(history := AcceptAll(s.shared.history, capacity, TrimAll(reported)[..n])))
  {
    hide TrimSpace, Blocked, Unblocked, Accept;
    var events := WarmingUp(listed, reported, n);
    if n == 0 {
      assert events == [ListRows(listed), ReadSuppressed(reported)] && events[..1] == [ListRows(listed)] && events[..1][..0] == [];
      assert Exec(s, capacity, events[..1]) == s.(warmUp := Listed(listed));
    } else {
      WarmUpMarks(s, capacity, listed, reported, n - 1);
      assert events[..|events| - 1] == WarmingUp(listed, reported, n - 1);
      AcceptAllSnoc(s.shared.history, capacity, TrimAll(reported), n - 1);
    }
  }

  /** A warm-up left alone suppresses the reported runs in order and leaves in the cache exactly the listed rows of
      the other runs, as far as there is room; the database stays as it is. */
  lemma WarmUpLoadsTheRest(s: State, capacity: nat, listed: set<Item>, reported: seq<string>, dropped: set<Item>)
    requires s.warmUp == Idle && listed <= s.shared.database
    ensures var t := Exec(s, capacity, WarmingUp(listed, reported, |reported|) + [Replace(dropped)]);
            && t.warmUp == Warm && t.procs == s.procs && t.taken == s.taken
            && t.shared == s.shared.(cache := t.shared.cache, history := AcceptAll(s.shared.history, capacity, TrimAll(reported)))
            && forall i :: i in t.shared.cache <==> i in listed && i !in dropped && (i.run == "" || i.run !in TrimAll(reported))
  {
    hide TrimSpace, AcceptAll;
    WarmUpMarks(s, capacity, listed, reported, |reported|);
    BlockedAreNames(reported);
    var before := WarmingUp(listed, reported, |reported|);
    assert (before + [Replace(dropped)])[..|before|] == before;
    assert TrimAll(reported)[..|reported|] == TrimAll(reported);
  }

  /** The actions of a takedown leave every case of every other run where it is. */
  lemma TakedownSparesOthers(s: State, capacity: nat, e: Event, i: Item)
    requires e.Step? && e.pid in s.procs && s.procs[e.pid].stage in {Mark, Remove, DeleteRows}
    requires i.run != s.procs[e.pid].item.run
    ensures i in Next(s, capacity, e).shared.cache <==> i in s.shared.cache
    ensures i in Next(s, capacity, e).shared.database <==> i in s.shared.database
  {
  }

  /** Whoever removes or deletes has marked its run. */
  predicate RemoversMarked(s: State) {
    forall pid :: pid in s.procs && s.procs[pid].stage in {Remove, DeleteRows} ==> s.procs[pid].item.run in s.taken
  }

  lemma StepKeepsRemoversMarked(s: State, capacity: nat, e: Event)
    requires RemoversMarked(s)
    ensures RemoversMarked(Next(s, capacity, e)) && s.taken <= Next(s, capacity, e).taken
  {
    hide Accept, Window, Blocked, TrimAll;
  }

  lemma {:induction false} RunKeepsRemoversMarked(s: State, capacity: nat, events: seq<Event>)
    requires Started(s)
    ensures RemoversMarked(Exec(s, capacity, events))
  {
    hide Next;
    if events != [] {
      RunKeepsRemoversMarked(s, capacity, events[..|events| - 1]);
      StepKeepsRemoversMarked(Exec(s, capacity, events[..|events| - 1]), capacity, events[|events| - 1]);
    }
  }

  /** Events that may push a case out of the cache without taking its run down. */
  predicate MayEvict(e: Event, i: Item) {
    e.Replace? || (e.Step? && i in e.dropped)
  }

  lemma StepSparesUntaken(s: State, capacity: nat, e: Event, i: Item)
    requires RemoversMarked(s) && i.run !in Next(s, capacity, e).taken
    ensures i in s.shared.database ==> i in Next(s, capacity, e).shared.database
    ensures i in s.shared.cache && !MayEvict(e, i) ==> i in Next(s, capacity, e).shared.cache
  {
    hide Accept, Window, Blocked, TrimAll;
  }

  /** In every run, a stored case of a run that is never taken down stays in the database, and stays cached unless
      the bounded cache drops it or the warm-up replaces the cache. */
  lemma {:induction false} UntakenCasesStay(s: State, capacity: nat, events: seq<Event>, n: nat, i: Item)
    requires Started(s) && n <= |events| && i.run !in Exec(s, capacity, events).taken
    ensures i in Exec(s, capacity, events[..n]).shared.database ==> i in Exec(s, capacity, events).shared.database
    ensures i in Exec(s, capacity, events[..n]).shared.cache && (forall e :: e in events[n..] ==> !MayEvict(e, i)) ==>
              i in Exec(s, capacity, events).shared.cache
  {
    hide Next, MayEvict, Started;
    if n == |events| {
      assert events[..n] == events;
    } else {
      var init, last := events[..|events| - 1], events[|events| - 1];
      RunKeepsRemoversMarked(s, capacity, init);
      StepKeepsRemoversMarked(Exec(s, capacity, init), capacity, last);
      assert init[..n] == events[..n] && events[n..] == init[n..] + [last];
      UntakenCasesStay(s, capacity, init, n, i);
      StepSparesUntaken(Exec(s, capacity, init), capacity, last, i);
    }
  }

  // ---- Both conditions are exact --------------------------------------------------------------

  /** A last check over a cached case finds its run forgotten, and no other goroutine is to clear the cache. */
  ghost predicate Misses(s: State, capacity: nat, e: Event, run: string) {
    && Moves(s, e, run) && s.procs[e.pid].stage == LastCheck && run in s.taken && Cached(s, run)
    && run in s.shared.history && AdditionsSince(s.shared.history, run) >= capacity
    && forall pid :: pid != e.pid ==> !WillClearCache(s, pid, run)
  }

  /** A Replace brings a case back that was taken down, and no goroutine is to clear the cache. */
  ghost predicate Reloads(s: State, e: Event, run: string) {
    && e.Replace? && ReadyToReplace(s) && run in s.taken && (exists i :: i in s.warmUp.loaded - e.dropped && i.run == run)
    && forall pid :: !WillClearCache(s, pid, run)
  }

  lemma MissLosesCover(s: State, capacity: nat, e: Event, run: string)
    requires Misses(s, capacity, e, run)
    ensures !CacheCovered(Next(s, capacity, e), run)
  {
    SuppressedIffRecent(s.shared.history, capacity, run);
    var t := Next(s, capacity, e);
    assert t.shared == s.shared && run in t.taken;
    forall pid ensures !WillClearCache(t, pid, run) {
      if pid != e.pid {
        assert !WillClearCache(s, pid, run);
      }
    }
  }

  lemma ReloadLosesCover(s: State, capacity: nat, e: Event, run: string)
    requires Reloads(s, e, run)
    ensures !CacheCovered(Next(s, capacity, e), run)
  {
    var t := Next(s, capacity, e);
    assert t.shared.cache == s.warmUp.loaded - e.dropped && t.taken == s.taken && t.procs == s.procs;
    forall pid ensures !WillClearCache(t, pid, run) {
      assert !WillClearCache(s, pid, run);
    }
  }

  /** An event leaves a case of a run that was taken down in the cache with nobody to clear it exactly when it is
      an archiver's last check after `capacity` further suppressions, or the warm-up's Replace of a case that
      was loaded before the takedown. */
  lemma CoverLostExactly(s: State, capacity: nat, e: Event, run: string)
    requires run != "" && Covered(s, run)
    ensures CacheCovered(Next(s, capacity, e), run) <==> !Misses(s, capacity, e, run) && !Reloads(s, e, run)
  {
    if Misses(s, capacity, e, run) {
      MissLosesCover(s, capacity, e, run);
    } else if Reloads(s, e, run) {
      ReloadLosesCover(s, capacity, e, run);
    } else {
      NothingElseLosesCover(s, capacity, e, run);
    }
  }

  lemma NothingElseLosesCover(s: State, capacity: nat, e: Event, run: string)
    requires run != "" && Covered(s, run) && !Misses(s, capacity, e, run) && !Reloads(s, e, run)
    ensures CacheCovered(Next(s, capacity, e), run)
  {
    if Timely(s, capacity, e, run) {
      ReloadIffDisturbed(s, e, run);
      StepKeepsCovered(s, capacity, e, run);
    } else {
      LateCheckChangesNothing(s, capacity, e, run);
      if pid :| pid != e.pid && WillClearCache(s, pid, run) {
        OthersGoOn(s, capacity, e, pid, run);
      }
    }
  }

  lemma LateCheckChangesNothing(s: State, capacity: nat, e: Event, run: string)
    requires !Timely(s, capacity, e, run)
    ensures Next(s, capacity, e).shared == s.shared && Next(s, capacity, e).taken == s.taken
  {
  }

  lemma ReloadIffDisturbed(s: State, e: Event, run: string)
    ensures Undisturbed(s, e, run) <==> !Reloads(s, e, run)
  {
  }

  /** What the warm-up loaded was not reported to it, and only runs with a name are taken down. */
  ghost predicate LoadedOk(s: State) {
    && (forall pid :: pid in s.procs ==> s.procs[pid].item.run != "")
    && "" !in s.taken
    && (s.warmUp.Marking? ==> forall i :: i in s.warmUp.loaded && i.run != "" ==> i.run !in s.warmUp.reported)
  }

  lemma UnblockedAreUnreported(listed: set<Item>, reported: seq<string>, i: Item)
    requires i in Unblocked(listed, Blocked(reported)) && i.run != ""
    ensures i.run !in TrimAll(reported)
  {
    hide TrimSpace;
  }

  lemma StepKeepsLoadedOk(s: State, capacity: nat, e: Event)
    requires LoadedOk(s)
    ensures LoadedOk(Next(s, capacity, e))
  {
    hide Accept, Blocked, TrimAll;
    if e.ReadSuppressed? && s.warmUp.Listed? {
      forall i | i in Unblocked(s.warmUp.listed, Blocked(e.reported)) && i.run != "" ensures i.run !in TrimAll(e.reported) {
        UnblockedAreUnreported(s.warmUp.listed, e.reported, i);
      }
    }
  }

  lemma {:induction false} RunKeepsLoadedOk(s: State, capacity: nat, events: seq<Event>)
    requires Started(s)
    ensures LoadedOk(Exec(s, capacity, events))
  {
    hide Next;
    if events != [] {
      RunKeepsLoadedOk(s, capacity, events[..|events| - 1]);
      StepKeepsLoadedOk(Exec(s, capacity, events[..|events| - 1]), capacity, events[|events| - 1]);
    }
  }

  /** When the warm-up was told of every run taken down by the time it asked, only a takedown that marked its run
      between that read and the Replace is undone. */
  lemma OnlyLaterTakedownsAreUndone(s: State, capacity: nat, events: seq<Event>, e: Event, run: string)
    requires Started(s)
    requires var t := Exec(s, capacity, events);
             Reloads(t, e, run) && forall r :: r in t.warmUp.taken ==> r in t.warmUp.reported
    ensures var t := Exec(s, capacity, events); run in t.taken && run !in t.warmUp.taken
  {
    RunKeepsLoadedOk(s, capacity, events);
  }

  /** The bound is exact, whatever the state: when the archiver holding the only live goroutine of a
      marked run makes its last check over a cached case, the case is left behind for good exactly when
      at least `capacity` runs were suppressed since the mark. */
  lemma LastCheckIsExact(s: State, capacity: nat, pid: nat, ok: bool, dropped: set<Item>)
    requires pid in s.procs && s.procs[pid].stage == LastCheck
    requires var run := s.procs[pid].item.run;
             && run in s.shared.history
             && (forall q :: q in s.procs && q != pid && s.procs[q].item.run == run ==> s.procs[q].stage == Done)
    ensures var t := Next(s, capacity, Step(pid, ok, dropped));
            && t.shared == s.shared && t.taken == s.taken
            && (Finished(t, s.procs[pid].item.run)
                <==> AdditionsSince(s.shared.history, s.procs[pid].item.run) >= capacity)
  {
    SuppressedIffRecent(s.shared.history, capacity, s.procs[pid].item.run);
    var t := Next(s, capacity, Step(pid, ok, dropped));
    assert pid in t.procs && t.procs[pid].item == s.procs[pid].item;
  }

  // ---- The bound is sharp for every capacity --------------------------------------------------

  /** Run names distinct from `run` and from each other. */
  function Other(run: string, n: nat): (name: string)
    ensures |name| == |run| + n + 1
  {
    run + seq(n + 1, _ => 'x')
  }

  /** A takedown of `item.run` that is complete before the archiver, already past its first check,
      stores the case; then `n` other runs are marked. */
  function Overtaken(item: Item, n: nat): seq<Event> {
    if n == 0 then Prelude(item) + [Step(0, true, {}), Step(0, true, {})]
    else Overtaken(item, n - 1) + [Takedown(n + 1, Other(item.run, n - 1)), Step(n + 1, true, {})]
  }

  function Prelude(item: Item): seq<Event> {
    [Archive(0, item), Step(0, true, {})] + [Takedown(1, item.run), Step(1, true, {})]
    + [Step(1, true, {}), Step(1, true, {})]
  }

  function Others(run: string, n: nat): (names: seq<string>)
    ensures |names| == n
  {
    seq(n, i requires 0 <= i < n => Other(run, i))
  }

  const Empty := State(Shared([], {}, {}, {}), map[], {}, Idle)

  ghost predicate OvertakenState(s: State, item: Item, n: nat) {
    && s.shared == Shared([item.run] + Others(item.run, n), {item}, {item}, {})
    && (forall pid :: pid in s.procs <==> 0 <= pid <= n + 1)
    && item.run in s.taken && s.procs[0] == Proc(item, LastCheck)
    && (forall pid :: 1 <= pid <= n + 1 && s.procs[pid].item.run == item.run ==> s.procs[pid].stage == Done)
  }

  lemma ExecPair(s: State, capacity: nat, events: seq<Event>, a: Event, b: Event)
    ensures Exec(s, capacity, events + [a, b]) == Next(Next(Exec(s, capacity, events), capacity, a), capacity, b)
  {
    assert (events + [a, b])[..|events| + 1] == events + [a];
    assert (events + [a])[..|events|] == events;
  }

  /** A state of the prelude: what is stored, and where the archiver and the takedown are. */
  function Duel(history: seq<string>, cases: set<Item>, item: Item, archiver: Stage, takedown: Stage): State {
    State(Shared(history, cases, cases, {}), map[0 := Proc(item, archiver), 1 := Proc(Item(item.run, 0), takedown)],
          {item.run}, Idle)
  }

  /** The archiver passes its first check and the takedown runs to its end over an empty cache and table. */
  lemma AfterPrelude(capacity: nat, item: Item)
    requires capacity >= 1 && item.run != ""
    ensures Exec(Empty, capacity, Prelude(item)) == Duel([item.run], {}, item, AddToCache, Done)
  {
    var e2 := [Archive(0, item), Step(0, true, {})];
    var e4 := e2 + [Takedown(1, item.run), Step(1, true, {})];
    assert [] + e2 == e2;
    ExecPair(Empty, capacity, [], Archive(0, item), Step(0, true, {}));
    ExecPair(Empty, capacity, e2, Takedown(1, item.run), Step(1, true, {}));
    ExecPair(Empty, capacity, e4, Step(1, true, {}), Step(1, true, {}));
    ArchiverStarts(capacity, item);
    TakedownMarks(capacity, item);
    TakedownEnds(capacity, item);
  }

  lemma ArchiverStarts(capacity: nat, item: Item)
    requires capacity >= 1 && item.run != ""
    ensures Next(Next(Empty, capacity, Archive(0, item)), capacity, Step(0, true, {}))
         == Empty.(procs := map[0 := Proc(item, AddToCache)])
  {
  }

  lemma TakedownMarks(capacity: nat, item: Item)
    requires capacity >= 1 && item.run != ""
    ensures Next(Next(Empty.(procs := map[0 := Proc(item, AddToCache)]), capacity, Takedown(1, item.run)),
                 capacity, Step(1, true, {}))
         == Duel([item.run], {}, item, AddToCache, Remove)
  {
    assert [] + [item.run] == [item.run];
  }

  lemma TakedownEnds(capacity: nat, item: Item)
    ensures Next(Next(Duel([item.run], {}, item, AddToCache, Remove), capacity, Step(1, true, {})), capacity, Step(1, true, {}))
         == Duel([item.run], {}, item, AddToCache, Done)
  {
  }

  lemma ArchiverStores(capacity: nat, item: Item)
    ensures Next(Next(Duel([item.run], {}, item, AddToCache, Done), capacity, Step(0, true, {})), capacity, Step(0, true, {}))
         == Duel([item.run], {item}, item, LastCheck, Done)
  {
  }

  lemma OvertakenStart(capacity: nat, item: Item)
    requires capacity >= 1 && item.run != ""
    ensures OvertakenState(Exec(Empty, capacity, Overtaken(item, 0)), item, 0)
  {
    hide Next;
    AfterPrelude(capacity, item);
    ExecPair(Empty, capacity, Prelude(item), Step(0, true, {}), Step(0, true, {}));
    ArchiverStores(capacity, item);
    assert [item.run] + Others(item.run, 0) == [item.run];
  }

  /** A takedown of a run not seen before appends it to the history and touches nothing else. */
  lemma FreshMark(s: State, capacity: nat, pid: nat, run: string)
    requires pid !in s.procs && run != "" && run !in s.shared.history
    ensures Next(Next(s, capacity, Takedown(pid, run)), capacity, Step(pid, true, {}))
         == s.(shared := s.shared.(history := s.shared.history + [run]), taken := s.taken + {run},
               procs := s.procs[pid := Proc(Item(run, 0), Remove)])
  {
    var t := s.(procs := s.procs[pid := Proc(Item(run, 0), Mark)]);
    assert Next(s, capacity, Takedown(pid, run)) == t;
    assert t.procs[pid := Proc(Item(run, 0), Remove)] == s.procs[pid := Proc(Item(run, 0), Remove)];
  }

  lemma MarkAnother(s: State, capacity: nat, item: Item, n: nat)
    requires OvertakenState(s, item, n)
    ensures OvertakenState(Next(Next(s, capacity, Takedown(n + 2, Other(item.run, n))), capacity, Step(n + 2, true, {})),
                           item, n + 1)
  {
    hide Next;
    var name := Other(item.run, n);
    forall i | 0 <= i < |s.shared.history| ensures s.shared.history[i] != name {
      assert |s.shared.history[i]| < |name|;
    }
    FreshMark(s, capacity, n + 2, name);
    assert s.shared.history + [name] == [item.run] + Others(item.run, n + 1);
  }

  /** Every further takedown pushes the mark one place further back. */
  lemma {:induction false} OvertakenRun(capacity: nat, item: Item, n: nat)
    requires capacity >= 1 && item.run != ""
    ensures OvertakenState(Exec(Empty, capacity, Overtaken(item, n)), item, n)
  {
    if n == 0 {
      OvertakenStart(capacity, item);
    } else {
      OvertakenRun(capacity, item, n - 1);
      MarkAnother(Exec(Empty, capacity, Overtaken(item, n - 1)), capacity, item, n - 1);
      ExecPair(Empty, capacity, Overtaken(item, n - 1), Takedown(n + 1, Other(item.run, n - 1)), Step(n + 1, true, {}));
    }
  }

  /** For every capacity, a run in which exactly `capacity` other runs are suppressed between the mark
      and the archiver's last check ends with the marked run's case cached and stored for good. */
  lemma MissedTakedown(capacity: nat, item: Item)
    requires capacity >= 1 && item.run != ""
    ensures var s := Exec(Empty, capacity, Overtaken(item, capacity));
            var t := Exec(Empty, capacity, Overtaken(item, capacity) + [Step(0, true, {})]);
            && 0 in s.procs && s.procs[0] == Proc(item, LastCheck)
            && item.run in s.shared.history && AdditionsSince(s.shared.history, item.run) == capacity
            && Finished(t, item.run) && item.run in t.taken && item.run in t.shared.history
            && item in t.shared.cache && item in t.shared.database && t.shared.undeleted == {}
  {
    hide Next, Overtaken;
    OvertakenRun(capacity, item, capacity);
    var events := Overtaken(item, capacity) + [Step(0, true, {})];
    assert events[..|events| - 1] == Overtaken(item, capacity);
    var s := Exec(Empty, capacity, Overtaken(item, capacity));
    var history := s.shared.history;
    assert history[0] == item.run;
    var n := AdditionsSince(history, item.run);
    assert |history[|history| - 1 - n]| == |item.run|;
    LastCheckIsExact(s, capacity, 0, true, {});
  }

  // ---- A takedown undone by the warm-up --------------------------------------------------------------

  /** A start that finds one row; its warm-up reads before the takedown of that row and replaces after it. */
  function Undone(item: Item): seq<Event> {
    [ListRows({item}), ReadSuppressed([])] + [Takedown(0, item.run), Step(0, true, {})]
    + [Step(0, true, {}), Step(0, true, {})] + [Replace({}), Replace({})]
  }

  function OneRow(item: Item): State {
    State(Shared([], {}, {item}, {}), map[], {}, Idle)
  }

  /** For every capacity, without a single other suppression: a takedown that falls between the warm-up's read and
      its Replace leaves its case cached for good, although its goroutine is done and its deletion succeeded. */
  lemma UndoneTakedown(capacity: nat, item: Item)
    requires capacity >= 1 && item.run != ""
    ensures var t := Exec(OneRow(item), capacity, Undone(item));
            && Started(OneRow(item)) && t.shared == Shared([item.run], {item}, {}, {})
            && item.run in t.taken && Finished(t, item.run) && t.warmUp == Warm
  {
    hide Next, Finished;
    var s := OneRow(item);
    var e2 := [ListRows({item}), ReadSuppressed([])];
    var e4 := e2 + [Takedown(0, item.run), Step(0, true, {})];
    var e6 := e4 + [Step(0, true, {}), Step(0, true, {})];
    assert [] + e2 == e2;
    ExecPair(s, capacity, [], ListRows({item}), ReadSuppressed([]));
    ExecPair(s, capacity, e2, Takedown(0, item.run), Step(0, true, {}));
    ExecPair(s, capacity, e4, Step(0, true, {}), Step(0, true, {}));
    ExecPair(s, capacity, e6, Replace({}), Replace({}));
    WarmUpReads(capacity, item);
    RowTakedownMarks(capacity, item);
    RowTakedownEnds(capacity, item);
    WarmUpReplaces(capacity, item);
  }

  const NothingReported: seq<string> := []

  /** The takedown of the row is at `stage`, over `cache` and `database`. */
  function AfterRead(item: Item, cache: set<Item>, database: set<Item>, stage: Stage, warmUp: WarmUp): State {
    State(Shared([item.run], cache, database, {}), map[0 := Proc(Item(item.run, 0), stage)], {item.run}, warmUp)
  }

  lemma WarmUpReads(capacity: nat, item: Item)
    requires item.run != ""
    ensures Next(Next(OneRow(item), capacity, ListRows({item})), capacity, ReadSuppressed([]))
         == OneRow(item).(warmUp := Marking({item}, NothingReported, 0, {}))
  {
    assert Blocked([]) == {} && TrimAll([]) == NothingReported;
    assert Unblocked({item}, {}) == {item};
  }

  lemma RowTakedownMarks(capacity: nat, item: Item)
    requires capacity >= 1 && item.run != ""
    ensures Next(Next(OneRow(item).(warmUp := Marking({item}, NothingReported, 0, {})), capacity, Takedown(0, item.run)),
                 capacity, Step(0, true, {}))
         == AfterRead(item, {}, {item}, Remove, Marking({item}, NothingReported, 0, {}))
  {
    assert [] + [item.run] == [item.run];
  }

  lemma RowTakedownEnds(capacity: nat, item: Item)
    ensures Next(Next(AfterRead(item, {}, {item}, Remove, Marking({item}, NothingReported, 0, {})), capacity, Step(0, true, {})),
                 capacity, Step(0, true, {}))
         == AfterRead(item, {}, {}, Done, Marking({item}, NothingReported, 0, {}))
  {
    assert Without({item}, item.run) == {};
  }

  lemma WarmUpReplaces(capacity: nat, item: Item)
    ensures Next(Next(AfterRead(item, {}, {}, Done, Marking({item}, NothingReported, 0, {})), capacity, Replace({})),
                 capacity, Replace({}))
         == AfterRead(item, {item}, {}, Done, Warm)
    ensures Finished(AfterRead(item, {item}, {}, Done, Warm), item.run)
  {
    assert {item} - {} == {item};
  }
}
