/** The concurrency limits of internal/shared/limiter/limiter.go. */
module Limiters {

  function CountOf(counts: map<string, int>, key: string): int {
    if key in counts then counts[key] else 0
  }

  /** KeyedSemaphore.Acquire under its lock; no limit and the empty key are never counted. */
  function TryAcquire(counts: map<string, int>, max: int, key: string): (map<string, int>, bool) {
    if max <= 0 || key == "" then (counts, true)
    else if CountOf(counts, key) >= max then (counts, false)
    else (counts[key := CountOf(counts, key) + 1], true)
  }

  /** The release of one counted slot. */
  function Released(counts: map<string, int>, key: string): map<string, int> {
    if CountOf(counts, key) <= 1 then counts - {key} else counts[key := CountOf(counts, key) - 1]
  }

  /** Releasing undoes an acquire that was counted, in the table as a whole. */
  lemma ReleaseUndoesAcquire(counts: map<string, int>, max: int, key: string)
    requires max > 0 && key != "" && TryAcquire(counts, max, key).1
    requires key in counts ==> counts[key] > 0
    ensures Released(TryAcquire(counts, max, key).0, key) == counts
  {
    if key !in counts {
      assert counts[key := 1] - {key} == counts;
    }
  }

  class KeyedSemaphore {
    const max: int
    var counts: map<string, int>

    constructor (max: int)
      ensures this.max == (if max < 0 then 0 else max) && counts == map[]
    {
      this.max := if max < 0 then 0 else max;
      counts := map[];
    }

    method Acquire(key: string) returns (ok: bool)
      modifies this
      ensures (counts, ok) == TryAcquire(old(counts), max, key)
      ensures ok <==> max <= 0 || key == "" || key !in old(counts) || old(counts)[key] < max
      ensures ok && max > 0 && key != "" ==>
                counts == old(counts)[key := if key in old(counts) then old(counts)[key] + 1 else 1]
      ensures !ok || max <= 0 || key == "" ==> counts == old(counts)
    {
      if max <= 0 || key == "" {
        return true;
      }
      if CountOf(counts, key) >= max {
        return false;
      }
      counts := counts[key := CountOf(counts, key) + 1];
      return true;
    }

    method Release(key: string)
      modifies this
      ensures counts == Released(old(counts), key)
      ensures key in counts <==> key in old(counts) && old(counts)[key] > 1
      ensures key in counts ==> counts[key] == old(counts)[key] - 1
      ensures counts - {key} == old(counts) - {key}
    {
      var n := CountOf(counts, key);
      if n <= 1 {
        counts := counts - {key};
      } else {
        counts := counts[key := n - 1];
      }
    }
  }

  // ---- The lock-free counter ----------------------------------------------------------------------

  /** A caller of Counter.Acquire: it has added one and seen a value over the maximum, which it is about to
      take back; or it holds a slot; or it is done. */
  datatype Caller = Over | Held | Gone

  datatype CounterState = CounterState(used: int, callers: map<nat, Caller>)

  datatype CounterEvent = Add(id: nat) | TakeBack(id: nat) | GiveUp(id: nat)

  /** One atomic instruction. */
  function CounterNext(s: CounterState, max: nat, e: CounterEvent): CounterState {
    match e
    case Add(id) =>
      if id in s.callers then s
      else CounterState(s.used + 1, s.callers[id := if s.used + 1 > max then Over else Held])
    case TakeBack(id) =>
      if id in s.callers && s.callers[id] == Over then CounterState(s.used - 1, s.callers[id := Gone]) else s
    case GiveUp(id) =>
      if id in s.callers && s.callers[id] == Held then CounterState(s.used - 1, s.callers[id := Gone]) else s
  }

  function CounterExec(max: nat, events: seq<CounterEvent>): CounterState {
    if events == [] then CounterState(0, map[])
    else CounterNext(CounterExec(max, events[..|events| - 1]), max, events[|events| - 1])
  }

  function In(s: CounterState, stage: Caller): set<nat> {
    set id | id in s.callers && s.callers[id] == stage
  }

  predicate CounterOk(s: CounterState, max: nat) {
    s.used == |In(s, Held)| + |In(s, Over)| && |In(s, Held)| <= max
  }

  /** Moving one caller from one stage to another moves it between the two sets. */
  lemma MoveCaller(s: CounterState, used: int, id: nat, stage: Caller)
    ensures var t := CounterState(used, s.callers[id := stage]);
            forall c: Caller :: In(t, c) == if c == stage then In(s, c) + {id} else In(s, c) - {id}
  {
  }

  lemma CounterStep(s: CounterState, max: nat, e: CounterEvent)
    requires CounterOk(s, max)
    ensures CounterOk(CounterNext(s, max, e), max)
  {
    var t := CounterNext(s, max, e);
    if t != s {
      MoveCaller(s, t.used, e.id, t.callers[e.id]);
      assert t.callers == s.callers[e.id := t.callers[e.id]];
      assert forall c: Caller :: In(t, c) == if c == t.callers[e.id] then In(s, c) + {e.id} else In(s, c) - {e.id};
    }
  }

  /** In every run the counter is the number of holders plus the attempts not yet taken back, and there are
      never more holders than the maximum. */
  lemma {:induction false} CounterNeverOverAdmits(max: nat, events: seq<CounterEvent>)
    ensures CounterOk(CounterExec(max, events), max)
  {
    if events != [] {
      CounterNeverOverAdmits(max, events[..|events| - 1]);
      CounterStep(CounterExec(max, events[..|events| - 1]), max, events[|events| - 1]);
    }
  }

  /** A refusal does not mean that every slot was held: whatever the maximum, an attempt is refused exactly
      when holders and attempts not yet taken back together fill it. */
  lemma RefusedIffFull(max: nat, events: seq<CounterEvent>, id: nat)
    requires id !in CounterExec(max, events).callers
    ensures var s := CounterExec(max, events);
            CounterNext(s, max, Add(id)).callers[id] == Over <==> |In(s, Held)| + |In(s, Over)| >= max
  {
    CounterNeverOverAdmits(max, events);
  }

  /** So with one slot, an attempt can be refused while nobody holds it. */
  lemma RefusedWhileFree()
    ensures var s := CounterExec(1, [Add(0), Add(1), GiveUp(0)]);
            In(s, Held) == {} && 2 !in s.callers && CounterNext(s, 1, Add(2)).callers[2] == Over
  {
    var e := [Add(0), Add(1), GiveUp(0)];
    assert e[..2] == [Add(0), Add(1)] && e[..2][..1] == [Add(0)] && [Add(0)][..0] == [];
    assert CounterExec(1, e[..2][..1]) == CounterState(1, map[0 := Held]);
    assert CounterExec(1, e[..2]) == CounterState(2, map[0 := Held, 1 := Over]);
    assert CounterExec(1, e) == CounterState(1, map[0 := Gone, 1 := Over]);
  }

  class Counter {
    const max: int
    var used: int

    constructor (max: int)
      ensures this.max == (if max < 0 then 0 else max) && used == 0
    {
      this.max := if max < 0 then 0 else max;
      used := 0;
    }

    /** Without interference: both outcomes leave the counter exact. */
    method Acquire() returns (ok: bool)
      modifies this
      ensures ok <==> max <= 0 || old(used) < max
      ensures used == if max > 0 && ok then old(used) + 1 else old(used)
    {
      if max <= 0 {
        return true;
      }
      used := used + 1;
      if used > max {
        used := used - 1;
        return false;
      }
      return true;
    }
  }
}
