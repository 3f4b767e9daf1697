/** Leases over the scripts of RedisSemaphore, under any interleaving of callers, of the single removals
    that make up a release, of the clock, and of the expiry of whole keys. */
module SemaphoreProtocol {
  import opened RedisSemaphore

  /** `expires` is the score last written for the lease; `releasing` is set when its release starts, or at
      once when the reply that would have handed the lease out was lost. */
  datatype Lease = Lease(keys: seq<string>, ttl: int, expires: int, releasing: bool)

  datatype State = State(clock: int, store: Store, leases: map<string, Lease>)

  datatype Event =
    | Tick(to: int)
    | Acquire(member: string, keys: seq<string>, limits: seq<int>, now: int, ttl: int, delivered: bool)
    | Refresh(member: string, now: int)
    | StartRelease(member: string)
    | RemoveKey(member: string, key: string)
    | ExpireKey(key: string)

  /** The caps on limits and the range of ttls, in milliseconds, that the callers use. */
  datatype Policy = Policy(cap: string -> nat, lo: nat, hi: nat)

  /** When an event can happen: callers respect the policy and use fresh members and past clock readings;
      the server drops a key only at or after its expiry. */
  predicate Allowed(p: Policy, s: State, e: Event) {
    match e
    case Tick(to) => s.clock <= to
    case Acquire(member, keys, limits, now, ttl, _) =>
      && member !in s.leases && |keys| == |limits| && now <= s.clock && p.lo <= ttl <= p.hi
      && forall j :: 0 <= j < |keys| ==> 0 < limits[j] <= p.cap(keys[j])
    case Refresh(member, now) => member in s.leases && now <= s.clock
    case StartRelease(member) => member in s.leases
    case RemoveKey(member, key) => member in s.leases && s.leases[member].releasing && key in s.leases[member].keys
    case ExpireKey(key) => key in s.store && s.store[key].expiry <= s.clock
  }

  function Next(s: State, e: Event): State {
    match e
    case Tick(to) => s.(clock := to)
    case Acquire(member, keys, limits, now, ttl, delivered) =>
      if |keys| != |limits| then s
      else
        var (after, admitted) := AcquireScript(s.store, keys, limits, now, ttl, member, s.clock);
        if admitted then s.(store := after, leases := s.leases[member := Lease(keys, ttl, now + ttl, !delivered)])
        else s.(store := after)
    case Refresh(member, now) =>
      if member !in s.leases then s
      else
        var lease := s.leases[member];
        var (after, held) := RefreshScript(s.store, lease.keys, now, lease.ttl, member, s.clock);
        if held then s.(store := after, leases := s.leases[member := lease.(expires := now + lease.ttl)])
        else s.(store := after)
    case StartRelease(member) =>
      if member !in s.leases then s
      else s.(leases := s.leases[member := s.leases[member].(releasing := true)])
    case RemoveKey(member, key) => s.(store := Drop(s.store, key, member))
    case ExpireKey(key) => s.(store := s.store - {key})
  }

  function Exec(s: State, events: seq<Event>): State {
    if events == [] then s else Next(Exec(s, events[..|events| - 1]), events[|events| - 1])
  }

  ghost predicate Run(p: Policy, s: State, events: seq<Event>) {
    events != [] ==>
      && Run(p, s, events[..|events| - 1])
      && Allowed(p, Exec(s, events[..|events| - 1]), events[|events| - 1])
  }

  /** A lease that has not lapsed and has not started releasing. */
  predicate Live(s: State, member: string) {
    member in s.leases && !s.leases[member].releasing && s.leases[member].expires > s.clock
  }

  function LiveUnder(s: State, key: string): set<string> {
    set m | m in s.leases && Live(s, m) && key in s.leases[m].keys
  }

  const Start := State(0, map[], map[])

  // ---- What holds whatever the ttls --------------------------------------------------------------

  /** Every stored score is the expiry of its lease, so all scores of one lease are equal. */
  ghost predicate ScoresAreLeases(s: State, key: string) {
    forall m :: m in Scores(s.store, key) ==>
      m in s.leases && key in s.leases[m].keys && Scores(s.store, key)[m] == s.leases[m].expires
  }

  ghost predicate Basic(p: Policy, s: State) {
    && (forall m :: m in s.leases ==> p.lo <= s.leases[m].ttl <= p.hi && s.leases[m].expires <= s.clock + p.hi)
    && (forall k :: ScoresAreLeases(s, k))
    && (forall k :: |Scores(s.store, k)| <= p.cap(k))
  }

  lemma BasicAt(p: Policy, s: State, key: string)
    requires Basic(p, s)
    ensures ScoresAreLeases(s, key) && |Scores(s.store, key)| <= p.cap(key)
    ensures forall m :: m in s.leases ==> p.lo <= s.leases[m].ttl <= p.hi && s.leases[m].expires <= s.clock + p.hi
  {
    hide ScoresAreLeases, Scores;
  }

  lemma FewerScores(p: Policy, s: State, after: Store, key: string)
    requires |Scores(s.store, key)| <= p.cap(key)
    requires Scores(after, key).Keys <= Scores(s.store, key).Keys
    ensures |Scores(after, key)| <= p.cap(key)
  {
    CardinalityMonotone(Scores(after, key), Scores(s.store, key));
  }

  lemma OneMore(scores: map<string, int>, member: string, score: int)
    ensures |scores[member := score]| <= |scores| + 1
    ensures member in scores ==> |scores[member := score]| == |scores|
  {
    assert scores[member := score].Keys == scores.Keys + {member};
    assert |scores[member := score]| == |scores.Keys + {member}|;
    if member in scores {
      assert scores.Keys + {member} == scores.Keys;
    }
  }

  /** What an admitted acquire leaves under one of its keys. */
  lemma AdmittedKey(p: Policy, s: State, e: Event, k: string)
    requires e.Acquire? && Allowed(p, s, e) && k in e.keys
    requires AcquireScript(s.store, e.keys, e.limits, e.now, e.ttl, e.member, s.clock).1
    ensures |Unexpired(s.store, k, e.now)| < p.cap(k)
    ensures e.now <= s.clock && p.lo <= e.ttl <= p.hi && e.member !in s.leases
    ensures var t := Next(s, e);
            && k in t.store && t.clock == s.clock
            && t.store[k] == ZSet(Unexpired(s.store, k, e.now)[e.member := e.now + e.ttl], s.clock + e.ttl * 2)
            && t.leases == s.leases[e.member := Lease(e.keys, e.ttl, e.now + e.ttl, !e.delivered)]
  {
    hide AcquireScript, Unexpired;
    var j :| 0 <= j < |e.keys| && e.keys[j] == k;
    AcquireDecides(s.store, e.keys, e.limits, e.now, e.ttl, e.member, s.clock);
    assert Room(s.store, e.keys[j], e.limits[j], e.now);
    AcquireUnder(s.store, e.keys, e.limits, e.now, e.ttl, e.member, s.clock, k);
  }

  /** Every other key only loses lapsed members. */
  lemma UntouchedKey(p: Policy, s: State, e: Event, k: string)
    requires e.Acquire? && Allowed(p, s, e)
    requires !AcquireScript(s.store, e.keys, e.limits, e.now, e.ttl, e.member, s.clock).1 || k !in e.keys
    ensures var t := Next(s, e);
            && OnlyLapsedRemovedAt(s.store, t.store, e.now, k) && t.clock == s.clock && e.now <= s.clock
            && (t.leases == s.leases
                || (t.leases == s.leases[e.member := Lease(e.keys, e.ttl, e.now + e.ttl, !e.delivered)] && k !in e.keys))
            && e.member !in s.leases
  {
    hide AcquireScript, OnlyLapsedRemovedAt;
    AcquireElsewhere(s.store, e.keys, e.limits, e.now, e.ttl, e.member, s.clock, k);
  }

  lemma AdmissionKeepsBasicAt(p: Policy, s: State, e: Event, k: string)
    requires Basic(p, s) && e.Acquire? && Allowed(p, s, e) && k in e.keys
    requires AcquireScript(s.store, e.keys, e.limits, e.now, e.ttl, e.member, s.clock).1
    ensures ScoresAreLeases(Next(s, e), k) && |Scores(Next(s, e).store, k)| <= p.cap(k)
  {
    hide Next, Allowed, Basic, AcquireScript;
    BasicAt(p, s, k);
    AdmittedKey(p, s, e, k);
    OneMore(Unexpired(s.store, k, e.now), e.member, e.now + e.ttl);
  }

  lemma AcquireKeepsBasicAt(p: Policy, s: State, e: Event, k: string)
    requires Basic(p, s) && e.Acquire? && Allowed(p, s, e)
    ensures ScoresAreLeases(Next(s, e), k) && |Scores(Next(s, e).store, k)| <= p.cap(k)
  {
    if AcquireScript(s.store, e.keys, e.limits, e.now, e.ttl, e.member, s.clock).1 && k in e.keys {
      AdmissionKeepsBasicAt(p, s, e, k);
    } else {
      UntouchedKey(p, s, e, k);
      assert ScoresAreLeases(s, k);
      FewerScores(p, s, Next(s, e).store, k);
    }
  }

  lemma AcquireKeepsBasic(p: Policy, s: State, e: Event)
    requires Basic(p, s) && e.Acquire? && Allowed(p, s, e)
    ensures Basic(p, Next(s, e))
  {
    forall k ensures ScoresAreLeases(Next(s, e), k) && |Scores(Next(s, e).store, k)| <= p.cap(k) {
      AcquireKeepsBasicAt(p, s, e, k);
    }
  }

  /** What a refresh leaves under one key: the new score where it succeeded for one of its keys, otherwise
      at most the loss of lapsed members. */
  lemma RefreshedKey(p: Policy, s: State, e: Event, k: string)
    requires e.Refresh? && Allowed(p, s, e)
    ensures var lease := s.leases[e.member];
            var t := Next(s, e);
            var held := RefreshScript(s.store, lease.keys, e.now, lease.ttl, e.member, s.clock).1;
            && t.clock == s.clock && e.now <= s.clock
            && t.leases == (if held then s.leases[e.member := lease.(expires := e.now + lease.ttl)] else s.leases)
            && (!held || k !in lease.keys ==> OnlyLapsedRemovedAt(s.store, t.store, e.now, k))
            && (held && k in lease.keys ==>
                  && k in t.store && e.member in Unexpired(s.store, k, e.now)
                  && t.store[k] == ZSet(Unexpired(s.store, k, e.now)[e.member := e.now + lease.ttl], s.clock + lease.ttl * 2))
  {
    hide RefreshScript, Unexpired, OnlyLapsedRemovedAt;
    var lease := s.leases[e.member];
    RefreshDecides(s.store, lease.keys, e.now, lease.ttl, e.member, s.clock);
    if RefreshScript(s.store, lease.keys, e.now, lease.ttl, e.member, s.clock).1 && k in lease.keys {
      var j :| 0 <= j < |lease.keys| && lease.keys[j] == k;
      RefreshUnder(s.store, lease.keys, e.now, lease.ttl, e.member, s.clock, k);
    } else {
      RefreshElsewhere(s.store, lease.keys, e.now, lease.ttl, e.member, s.clock, k);
    }
  }

  lemma RefreshKeepsBasicAt(p: Policy, s: State, e: Event, k: string)
    requires Basic(p, s) && e.Refresh? && Allowed(p, s, e)
    ensures ScoresAreLeases(Next(s, e), k) && |Scores(Next(s, e).store, k)| <= p.cap(k)
  {
    hide Next, Basic, RefreshScript;
    var t := Next(s, e);
    var lease := s.leases[e.member];
    BasicAt(p, s, k);
    RefreshedKey(p, s, e, k);
    if RefreshScript(s.store, lease.keys, e.now, lease.ttl, e.member, s.clock).1 && k in lease.keys {
      OneMore(Unexpired(s.store, k, e.now), e.member, e.now + lease.ttl);
      CardinalityMonotone(Unexpired(s.store, k, e.now), Scores(s.store, k));
    } else {
      FewerScores(p, s, t.store, k);
    }
  }

  lemma RefreshKeepsBasic(p: Policy, s: State, e: Event)
    requires Basic(p, s) && e.Refresh? && Allowed(p, s, e)
    ensures Basic(p, Next(s, e))
  {
    forall k ensures ScoresAreLeases(Next(s, e), k) && |Scores(Next(s, e).store, k)| <= p.cap(k) {
      RefreshKeepsBasicAt(p, s, e, k);
    }
  }

  lemma StepKeepsBasic(p: Policy, s: State, e: Event)
    requires Basic(p, s) && Allowed(p, s, e)
    ensures Basic(p, Next(s, e))
  {
    match e
    case Acquire(_, _, _, _, _, _) => AcquireKeepsBasic(p, s, e);
    case Refresh(_, _) => RefreshKeepsBasic(p, s, e);
    case _ =>
      var t := Next(s, e);
      forall k ensures ScoresAreLeases(t, k) && |Scores(t.store, k)| <= p.cap(k) {
        assert ScoresAreLeases(s, k);
        FewerScores(p, s, t.store, k);
      }
  }

  // ---- What needs the ttls to be close together -----------------------------------------------------

  /** A key is safe when at most one lease fits under it or when no ttl is more than twice another. */
  predicate Safe(p: Policy, key: string) {
    p.cap(key) <= 1 || p.hi <= 2 * p.lo
  }

  /** The key outlives its members, and every live lease is stored under it. */
  ghost predicate Kept(s: State, key: string) {
    && (forall m :: m in Scores(s.store, key) ==> Scores(s.store, key)[m] <= s.store[key].expiry)
    && (forall m :: Live(s, m) && key in s.leases[m].keys ==> m in Scores(s.store, key))
  }

  lemma OnlyLapsedKeepsKept(p: Policy, s: State, t: State, now: int, key: string)
    requires Basic(p, s) && Kept(s, key)
    requires now <= s.clock == t.clock && OnlyLapsedRemovedAt(s.store, t.store, now, key)
    requires forall m :: Live(t, m) && key in t.leases[m].keys ==> Live(s, m) && key in s.leases[m].keys
    ensures Kept(t, key)
  {
    assert ScoresAreLeases(s, key);
  }

  /** A key with a new score and a new expiry outlives its members when it is safe. */
  lemma NewScoreKeepsKept(p: Policy, s: State, t: State, now: int, key: string, member: string, lease: Lease)
    requires Kept(s, key) && Safe(p, key) && ScoresAreLeases(s, key)
    requires forall m :: m in s.leases ==> s.leases[m].expires <= s.clock + p.hi
    requires now <= s.clock == t.clock && p.lo <= lease.ttl <= p.hi && lease.expires == now + lease.ttl
    requires key in t.store
             && t.store[key] == ZSet(Unexpired(s.store, key, now)[member := now + lease.ttl], s.clock + lease.ttl * 2)
    requires t.leases == s.leases[member := lease]
    requires p.cap(key) <= 1 ==> forall m :: m in Unexpired(s.store, key, now) ==> m == member
    ensures Kept(t, key)
  {
  }

  lemma AdmissionKeepsKept(p: Policy, s: State, e: Event, key: string)
    requires Basic(p, s) && Kept(s, key) && Safe(p, key) && e.Acquire? && Allowed(p, s, e) && key in e.keys
    requires AcquireScript(s.store, e.keys, e.limits, e.now, e.ttl, e.member, s.clock).1
    ensures Kept(Next(s, e), key)
  {
    hide Next, Allowed, Basic, Kept, AcquireScript, Unexpired, ScoresAreLeases;
    BasicAt(p, s, key);
    AdmittedKey(p, s, e, key);
    if p.cap(key) <= 1 {
      assert Unexpired(s.store, key, e.now) == map[];
    }
    NewScoreKeepsKept(p, s, Next(s, e), e.now, key, e.member, Lease(e.keys, e.ttl, e.now + e.ttl, !e.delivered));
  }

  lemma AcquireKeepsKept(p: Policy, s: State, e: Event, key: string)
    requires Basic(p, s) && Kept(s, key) && Safe(p, key) && e.Acquire? && Allowed(p, s, e)
    ensures Kept(Next(s, e), key)
  {
    if AcquireScript(s.store, e.keys, e.limits, e.now, e.ttl, e.member, s.clock).1 && key in e.keys {
      AdmissionKeepsKept(p, s, e, key);
    } else {
      UntouchedKey(p, s, e, key);
      OnlyLapsedKeepsKept(p, s, Next(s, e), e.now, key);
    }
  }

  lemma RefreshKeepsKept(p: Policy, s: State, e: Event, key: string)
    requires Basic(p, s) && Kept(s, key) && Safe(p, key) && e.Refresh? && Allowed(p, s, e)
    ensures Kept(Next(s, e), key)
  {
    hide Next, Basic, RefreshScript, ScoresAreLeases;
    var t := Next(s, e);
    var lease := s.leases[e.member];
    BasicAt(p, s, key);
    RefreshedKey(p, s, e, key);
    if RefreshScript(s.store, lease.keys, e.now, lease.ttl, e.member, s.clock).1 && key in lease.keys {
      if p.cap(key) <= 1 {
        SingleMember(Scores(s.store, key), e.member);
      }
      NewScoreKeepsKept(p, s, t, e.now, key, e.member, lease.(expires := e.now + lease.ttl));
    } else {
      OnlyLapsedKeepsKept(p, s, t, e.now, key);
    }
  }

  lemma SingleMember(scores: map<string, int>, member: string)
    requires |scores| <= 1 && member in scores
    ensures scores.Keys == {member}
  {
    SubsetCardinality({member}, scores.Keys);
    if other :| other in scores.Keys && other != member {
      SubsetCardinality({member, other}, scores.Keys);
    }
  }

  lemma StepKeepsKept(p: Policy, s: State, e: Event, key: string)
    requires Basic(p, s) && Kept(s, key) && Safe(p, key) && Allowed(p, s, e)
    ensures Kept(Next(s, e), key)
  {
    match e
    case Acquire(_, _, _, _, _, _) => AcquireKeepsKept(p, s, e, key);
    case Refresh(_, _) => RefreshKeepsKept(p, s, e, key);
    case _ =>
      assert ScoresAreLeases(s, key);
  }

  lemma {:induction false} RunKeepsInvariants(p: Policy, events: seq<Event>, key: string)
    requires Run(p, Start, events)
    ensures Basic(p, Exec(Start, events))
    ensures Safe(p, key) ==> Kept(Exec(Start, events), key)
  {
    if events != [] {
      var init := events[..|events| - 1];
      RunKeepsInvariants(p, init, key);
      StepKeepsBasic(p, Exec(Start, init), events[|events| - 1]);
      if Safe(p, key) {
        StepKeepsKept(p, Exec(Start, init), events[|events| - 1], key);
      }
    }
  }

  /** In every run, the stored scores of one lease are equal across its keys. */
  lemma EqualScores(p: Policy, events: seq<Event>, member: string, k1: string, k2: string)
    requires Run(p, Start, events)
    requires var s := Exec(Start, events); member in Scores(s.store, k1) && member in Scores(s.store, k2)
    ensures var s := Exec(Start, events); Scores(s.store, k1)[member] == Scores(s.store, k2)[member]
  {
    RunKeepsInvariants(p, events, k1);
    var s := Exec(Start, events);
    assert ScoresAreLeases(s, k1) && ScoresAreLeases(s, k2);
  }

  /** In every run, under every safe key, each live lease is stored with the score that says when it
      lapses, and there are never more live leases than the key's cap. */
  lemma NeverOverAdmits(p: Policy, events: seq<Event>, key: string)
    requires Run(p, Start, events) && Safe(p, key)
    ensures var s := Exec(Start, events);
            && (forall m :: m in LiveUnder(s, key) ==>
                  m in Scores(s.store, key) && Scores(s.store, key)[m] == s.leases[m].expires)
            && |LiveUnder(s, key)| <= p.cap(key)
  {
    RunKeepsInvariants(p, events, key);
    var s := Exec(Start, events);
    assert ScoresAreLeases(s, key);
    SubsetCardinality(LiveUnder(s, key), Scores(s.store, key).Keys);
    assert |Scores(s.store, key).Keys| == |Scores(s.store, key)|;
  }

  /** The leases that may still count under a key for a caller whose clock shows `now`: those that have not lapsed,
      released or not. */
  function Unlapsed(s: State, key: string, now: int): set<string> {
    set m | m in s.leases && key in s.leases[m].keys && s.leases[m].expires > now
  }

  /** Slots never leak: in every run an acquire is refused only if, under one of its keys, as many leases as the
      limit have not lapsed at the caller's time. */
  lemma RefusalIsJustified(p: Policy, events: seq<Event>, e: Event)
    requires Run(p, Start, events) && e.Acquire? && Allowed(p, Exec(Start, events), e)
    ensures var s := Exec(Start, events);
            AcquireScript(s.store, e.keys, e.limits, e.now, e.ttl, e.member, s.clock).1
            || exists j :: 0 <= j < |e.keys| && |Unlapsed(s, e.keys[j], e.now)| >= e.limits[j]
  {
    var s := Exec(Start, events);
    hide Exec, Run, AcquireScript;
    AcquireOutcome(s.store, e.keys, e.limits, e.now, e.ttl, e.member, s.clock);
    if j :| 0 <= j < |e.keys| && !Room(s.store, e.keys[j], e.limits[j], e.now) {
      RunKeepsInvariants(p, events, e.keys[j]);
      BasicAt(p, s, e.keys[j]);
      var unexpired := Unexpired(s.store, e.keys[j], e.now);
      SubsetCardinality(unexpired.Keys, Unlapsed(s, e.keys[j], e.now));
      assert |unexpired.Keys| == |unexpired|;
    }
  }

  /** Under safe keys a live lease can always be kept: in every run its refresh succeeds, and then it is stored
      under all its keys until a ttl after the caller's time. */
  lemma LiveLeaseRefreshes(p: Policy, events: seq<Event>, member: string, now: int)
    requires Run(p, Start, events) && Allowed(p, Exec(Start, events), Refresh(member, now))
    requires var s := Exec(Start, events); Live(s, member) && forall k :: k in s.leases[member].keys ==> Safe(p, k)
    ensures var s := Exec(Start, events);
            var lease := s.leases[member];
            var (after, held) := RefreshScript(s.store, lease.keys, now, lease.ttl, member, s.clock);
            held && forall k :: k in lease.keys ==> member in Scores(after, k) && Scores(after, k)[member] == now + lease.ttl
  {
    var s := Exec(Start, events);
    var lease := s.leases[member];
    hide Exec, Run, RefreshScript, Safe;
    RefreshDecides(s.store, lease.keys, now, lease.ttl, member, s.clock);
    forall k | k in lease.keys ensures member in Unexpired(s.store, k, now) {
      NeverOverAdmits(p, events, k);
      assert member in LiveUnder(s, k);
    }
    RefreshOutcome(s.store, lease.keys, now, lease.ttl, member, s.clock);
  }

  /** A refresh that succeeds in a run was asked for a lease that had not lapsed at the caller's time under
      any of its keys. */
  lemma SuccessfulRefresh(p: Policy, events: seq<Event>, member: string, now: int)
    requires Run(p, Start, events) && Allowed(p, Exec(Start, events), Refresh(member, now))
    requires var s := Exec(Start, events);
             && s.leases[member].keys != []
             && RefreshScript(s.store, s.leases[member].keys, now, s.leases[member].ttl, member, s.clock).1
    ensures var s := Exec(Start, events);
            && s.leases[member].expires > now
            && forall k :: k in s.leases[member].keys ==> member in Scores(s.store, k)
  {
    var s := Exec(Start, events);
    var lease := s.leases[member];
    RunKeepsInvariants(p, events, lease.keys[0]);
    RefreshDecides(s.store, lease.keys, now, lease.ttl, member, s.clock);
    forall k | k in lease.keys ensures member in Scores(s.store, k) {
      var j :| 0 <= j < |lease.keys| && lease.keys[j] == k;
      assert member in Unexpired(s.store, lease.keys[j], now);
    }
    assert member in Unexpired(s.store, lease.keys[0], now);
    assert ScoresAreLeases(s, lease.keys[0]);
  }

  // ---- The condition on the ttls is exact -------------------------------------------------------------

  /** Members named by their length. */
  function Name(n: nat): (name: string)
    ensures |name| == n
  {
    seq(n, _ => 'm')
  }

  /** A long lease, then a short one whose expiry of the key cuts the long one off, then `n` more leases. */
  function CutOff(p: Policy, key: string, n: nat): seq<Event> {
    if n == 0 then
      [Acquire(Name(0), [key], [p.cap(key)], 0, p.hi, true)] + [Acquire(Name(1), [key], [p.cap(key)], 0, p.lo, true)]
      + [Tick(2 * p.lo)] + [ExpireKey(key)]
    else CutOff(p, key, n - 1) + [AdmitEvent(p, key, n)]
  }

  ghost predicate Refilled(p: Policy, s: State, key: string, n: nat) {
    && s.clock == 2 * p.lo
    && |Scores(s.store, key)| <= n
    && |LiveUnder(s, key)| >= n + 1
    && (forall m :: m in s.leases ==> |m| <= n + 1)
  }

  lemma RunSnoc(p: Policy, events: seq<Event>, e: Event)
    requires Run(p, Start, events) && Allowed(p, Exec(Start, events), e)
    ensures Run(p, Start, events + [e]) && Exec(Start, events + [e]) == Next(Exec(Start, events), e)
  {
    assert (events + [e])[..|events|] == events;
  }

  lemma AdmitOneAllowed(p: Policy, s: State, key: string, member: string, ttl: nat)
    requires p.cap(key) > 0 && member !in s.leases && p.lo <= ttl <= p.hi
    ensures Allowed(p, s, Acquire(member, [key], [p.cap(key)], s.clock, ttl, true))
  {
    assert |[key]| == |[p.cap(key)]| == 1 && [key][0] == key;
  }

  lemma AdmitOne(p: Policy, s: State, key: string, member: string, ttl: nat)
    requires |Scores(s.store, key)| < p.cap(key) && member !in s.leases && p.lo <= ttl <= p.hi
    ensures var e := Acquire(member, [key], [p.cap(key)], s.clock, ttl, true);
            var t := Next(s, e);
            && Allowed(p, s, e)
            && t.clock == s.clock
            && t.leases == s.leases[member := Lease([key], ttl, s.clock + ttl, false)]
            && key in t.store && t.store[key] == ZSet(Unexpired(s.store, key, s.clock)[member := s.clock + ttl], s.clock + ttl * 2)
  {
    hide Allowed, AcquireScript;
    AdmitOneAllowed(p, s, key, member, ttl);
    CardinalityMonotone(Unexpired(s.store, key, s.clock), Scores(s.store, key));
    AcquireDecides(s.store, [key], [p.cap(key)], s.clock, ttl, member, s.clock);
    assert [key][0] == key;
    AcquireUnder(s.store, [key], [p.cap(key)], s.clock, ttl, member, s.clock, key);
  }

  lemma OneMoreScore(s: State, t: State, key: string, member: string, score: int)
    requires Scores(t.store, key) == Unexpired(s.store, key, s.clock)[member := score]
    ensures |Scores(t.store, key)| <= |Scores(s.store, key)| + 1
  {
    CardinalityMonotone(Unexpired(s.store, key, s.clock), Scores(s.store, key));
    OneMore(Unexpired(s.store, key, s.clock), member, score);
  }

  /** After the long lease and the short one the key expires at the short one's time. */
  lemma TwoLeases(p: Policy, key: string)
    requires p.cap(key) >= 2 && p.lo <= p.hi
    ensures var a, b := Acquire(Name(0), [key], [p.cap(key)], 0, p.hi, true), Acquire(Name(1), [key], [p.cap(key)], 0, p.lo, true);
            var s2 := Next(Next(Start, a), b);
            && Allowed(p, Start, a) && Allowed(p, Next(Start, a), b)
            && s2.clock == 0
            && s2.leases == map[Name(0) := Lease([key], p.hi, p.hi, false), Name(1) := Lease([key], p.lo, p.lo, false)]
            && key in s2.store && s2.store[key].expiry == 2 * p.lo
  {
    hide Next, Allowed;
    var a := Acquire(Name(0), [key], [p.cap(key)], 0, p.hi, true);
    AdmitOne(p, Start, key, Name(0), p.hi);
    OneMoreScore(Start, Next(Start, a), key, Name(0), p.hi);
    AdmitOne(p, Next(Start, a), key, Name(1), p.lo);
  }

  /** The key's expiry takes the long lease with it. */
  lemma LongLeaseCutOff(p: Policy, key: string, s: State)
    requires s.clock == 0 && key in s.store && s.store[key].expiry == 2 * p.lo < p.hi
    requires s.leases == map[Name(0) := Lease([key], p.hi, p.hi, false), Name(1) := Lease([key], p.lo, p.lo, false)]
    ensures var t := Next(s, Tick(2 * p.lo));
            Allowed(p, s, Tick(2 * p.lo)) && Allowed(p, t, ExpireKey(key)) && Refilled(p, Next(t, ExpireKey(key)), key, 0)
  {
    var t := Next(Next(s, Tick(2 * p.lo)), ExpireKey(key));
    assert Live(t, Name(0));
    SubsetCardinality({Name(0)}, LiveUnder(t, key));
  }

  lemma CutOffStart(p: Policy, key: string)
    requires p.cap(key) >= 2 && p.hi > 2 * p.lo
    ensures Run(p, Start, CutOff(p, key, 0)) && Refilled(p, Exec(Start, CutOff(p, key, 0)), key, 0)
  {
    var a, b := Acquire(Name(0), [key], [p.cap(key)], 0, p.hi, true), Acquire(Name(1), [key], [p.cap(key)], 0, p.lo, true);
    TwoLeases(p, key);
    LongLeaseCutOff(p, key, Next(Next(Start, a), b));
    hide Next, Allowed, Refilled;
    RunSnoc(p, [], a);
    assert [] + [a] == [a];
    RunSnoc(p, [a], b);
    RunSnoc(p, [a] + [b], Tick(2 * p.lo));
    RunSnoc(p, [a] + [b] + [Tick(2 * p.lo)], ExpireKey(key));
  }

  lemma AdmitAfterCutOff(p: Policy, s: State, key: string, n: nat)
    requires n < p.cap(key) && p.hi > 2 * p.lo && Refilled(p, s, key, n)
    ensures Allowed(p, s, AdmitEvent(p, key, n + 1)) && Refilled(p, Next(s, AdmitEvent(p, key, n + 1)), key, n + 1)
  {
    var t := Next(s, AdmitEvent(p, key, n + 1));
    hide Allowed, Next;
    AdmitOne(p, s, key, Name(n + 2), p.hi);
    OneMoreScore(s, t, key, Name(n + 2), s.clock + p.hi);
    assert LiveUnder(t, key) == LiveUnder(s, key) + {Name(n + 2)};
  }

  /** The event that extends the run, spelled once. */
  function AdmitEvent(p: Policy, key: string, n: nat): Event {
    Acquire(Name(n + 1), [key], [p.cap(key)], 2 * p.lo, p.hi, true)
  }

  lemma {:induction false} CutOffRun(p: Policy, key: string, n: nat)
    requires n <= p.cap(key) && p.cap(key) >= 2 && p.hi > 2 * p.lo
    ensures Run(p, Start, CutOff(p, key, n)) && Refilled(p, Exec(Start, CutOff(p, key, n)), key, n)
  {
    hide Refilled, Allowed, Next, Run, Exec, AdmitEvent;
    if n == 0 {
      CutOffStart(p, key);
    } else {
      CutOffRun(p, key, n - 1);
      AdmitAfterCutOff(p, Exec(Start, CutOff(p, key, n - 1)), key, n - 1);
      RunSnoc(p, CutOff(p, key, n - 1), AdmitEvent(p, key, n));
    }
  }

  /** No run admits more live leases under a key than its cap exactly when the key's cap is at most one or
      the longest ttl is at most twice the shortest. */
  lemma SafeIffNeverOverAdmits(p: Policy, key: string)
    ensures Safe(p, key) <==> forall events :: Run(p, Start, events) ==> |LiveUnder(Exec(Start, events), key)| <= p.cap(key)
  {
    if Safe(p, key) {
      forall events | Run(p, Start, events) ensures |LiveUnder(Exec(Start, events), key)| <= p.cap(key) {
        NeverOverAdmits(p, events, key);
      }
    } else {
      var events := CutOff(p, key, p.cap(key));
      CutOffRun(p, key, p.cap(key));
      assert Run(p, Start, events) && |LiveUnder(Exec(Start, events), key)| > p.cap(key);
    }
  }

  // ---- The coordinator's client side -------------------------------------------------------------------

  datatype Outcome = Invalid | Unlimited | Refused | Leased(keys: seq<string>)

  /** The keys and limits the coordinator sends: dimensions without a positive limit or with a blank key are
      dropped, keys are sanitized. */
  function Limited(limits: seq<(string, int)>, sanitize: string -> string): seq<(string, int)> {
    if limits == [] then []
    else
      var init, last := Limited(limits[..|limits| - 1], sanitize), limits[|limits| - 1];
      if last.1 <= 0 || sanitize(last.0) == "" then init else init + [(sanitize(last.0), last.1)]
  }

  predicate Usable(limit: (string, int), sanitize: string -> string) {
    limit.1 > 0 && sanitize(limit.0) != ""
  }

  /** `at` are the positions of the usable dimensions, in order. */
  ghost predicate UsableAt(at: seq<nat>, limits: seq<(string, int)>, sanitize: string -> string) {
    && (forall i, j :: 0 <= i < j < |at| ==> at[i] < at[j])
    && (forall j :: 0 <= j < |at| ==> at[j] < |limits| && Usable(limits[at[j]], sanitize))
    && (forall n: nat :: n < |limits| && Usable(limits[n], sanitize) ==> n in at)
  }

  /** The keys are the sanitized keys of the usable dimensions, one for each, in their order. */
  ghost predicate KeysOf(keys: seq<string>, limits: seq<(string, int)>, sanitize: string -> string) {
    exists at: seq<nat> :: UsableAt(at, limits, sanitize) && |keys| == |at|
                           && forall j :: 0 <= j < |keys| ==> keys[j] == sanitize(limits[at[j]].0)
  }

  /** What is sent are exactly the usable dimensions, each with its own limit. */
  lemma {:induction false} LimitedSelects(limits: seq<(string, int)>, sanitize: string -> string) returns (at: seq<nat>)
    ensures UsableAt(at, limits, sanitize) && |at| == |Limited(limits, sanitize)|
    ensures forall j :: 0 <= j < |at| ==>
              Limited(limits, sanitize)[j] == (sanitize(limits[at[j]].0), limits[at[j]].1)
  {
    hide Usable, UsableAt;
    if limits == [] {
      at := [];
      NoneUsable(sanitize);
    } else {
      var n := |limits| - 1;
      at := LimitedSelects(limits[..n], sanitize);
      OneMoreUsable(at, limits, sanitize);
      SentIffUsable(limits[n], sanitize);
      if Usable(limits[n], sanitize) {
        at := at + [n];
      }
    }
  }

  lemma NoneUsable(sanitize: string -> string)
    ensures UsableAt([], [], sanitize)
  {
  }

  lemma SentIffUsable(limit: (string, int), sanitize: string -> string)
    ensures Usable(limit, sanitize) <==> !(limit.1 <= 0 || sanitize(limit.0) == "")
  {
  }

  lemma OneMoreUsable(at: seq<nat>, limits: seq<(string, int)>, sanitize: string -> string)
    requires limits != [] && UsableAt(at, limits[..|limits| - 1], sanitize)
    ensures var n := |limits| - 1; UsableAt(if Usable(limits[n], sanitize) then at + [n] else at, limits, sanitize)
    ensures forall j :: 0 <= j < |at| ==> at[j] < |limits| - 1
  {
    hide Usable;
    var n, init := |limits| - 1, limits[..|limits| - 1];
    var after := if Usable(limits[n], sanitize) then at + [n] else at;
    forall j | 0 <= j < |after| ensures after[j] < |limits| && Usable(limits[after[j]], sanitize) {
      if j < |at| {
        assert init[at[j]] == limits[at[j]];
      }
    }
    forall i: nat | i < |limits| && Usable(limits[i], sanitize) ensures i in after {
      if i < n {
        assert init[i] == limits[i] && i in at;
      }
    }
  }

  ghost predicate RoomForAll(z: Store, limits: seq<(string, int)>, sanitize: string -> string, now: int) {
    forall d :: d in limits && d.1 > 0 && sanitize(d.0) != "" ==> |Unexpired(z, sanitize(d.0), now)| < d.1
  }

  lemma RoomForSent(z: Store, limits: seq<(string, int)>, sanitize: string -> string, now: int)
    ensures (forall j :: 0 <= j < |Limited(limits, sanitize)| ==>
               Room(z, Limited(limits, sanitize)[j].0, Limited(limits, sanitize)[j].1, now))
            <==> RoomForAll(z, limits, sanitize, now)
    ensures forall j :: 0 <= j < |Limited(limits, sanitize)| ==> Limited(limits, sanitize)[j].1 > 0
    ensures Limited(limits, sanitize) == [] <==> forall d :: d in limits ==> !Usable(d, sanitize)
  {
    hide Limited, Unexpired;
    var at := LimitedSelects(limits, sanitize);
    var used := Limited(limits, sanitize);
    if forall j :: 0 <= j < |used| ==> Room(z, used[j].0, used[j].1, now) {
      forall d | d in limits && d.1 > 0 && sanitize(d.0) != "" ensures |Unexpired(z, sanitize(d.0), now)| < d.1 {
        var n :| 0 <= n < |limits| && limits[n] == d;
        var j :| 0 <= j < |at| && at[j] == n;
        assert Room(z, used[j].0, used[j].1, now);
      }
    }
    forall d | d in limits && Usable(d, sanitize) ensures used != [] {
      var n :| 0 <= n < |limits| && limits[n] == d;
      assert n in at;
    }
    assert used != [] ==> limits[at[0]] in limits && Usable(limits[at[0]], sanitize);
  }

  lemma SentKeys(limits: seq<(string, int)>, sanitize: string -> string, keys: seq<string>)
    requires |keys| == |Limited(limits, sanitize)|
    requires forall j :: 0 <= j < |keys| ==> keys[j] == Limited(limits, sanitize)[j].0
    ensures KeysOf(keys, limits, sanitize)
  {
    var at := LimitedSelects(limits, sanitize);
    hide Limited, UsableAt;
    assert UsableAt(at, limits, sanitize);
  }

  class RedisCoordinator {
    const server: RedisServer

    constructor (server: RedisServer)
      ensures this.server == server
    {
      this.server := server;
    }

    /** The loop over the dimensions: the keys and the limits to send. */
    method Dimensions(limits: seq<(string, int)>, sanitize: string -> string) returns (keys: seq<string>, args: seq<int>)
      ensures |keys| == |args| == |Limited(limits, sanitize)|
      ensures forall j :: 0 <= j < |keys| ==> (keys[j], args[j]) == Limited(limits, sanitize)[j]
    {
      keys, args := [], [];
      for i := 0 to |limits|
        invariant |keys| == |args| == |Limited(limits[..i], sanitize)|
        invariant forall j :: 0 <= j < |keys| ==> (keys[j], args[j]) == Limited(limits[..i], sanitize)[j]
      {
        assert limits[..i + 1][..i] == limits[..i];
        var key := sanitize(limits[i].0);
        if limits[i].1 > 0 && key != "" {
          keys := keys + [key];
          args := args + [limits[i].1];
        }
      }
      assert limits[..|limits|] == limits;
    }

    /** A blank member or a ttl that is not positive is an error; without a usable dimension there is no limit.
        Otherwise a lease is granted exactly when every usable dimension has, among its unexpired members, room
        for one more within its own limit; the lease then stands under every one of their keys. */
    method Acquire(rawMember: string, ttl: int, now: int, limits: seq<(string, int)>, trim: string -> string,
                   sanitize: string -> string)
      returns (outcome: Outcome)
      modifies server`zsets
      ensures outcome == Invalid <==> trim(rawMember) == "" || ttl <= 0
      ensures outcome == Unlimited <==>
                outcome != Invalid && forall d :: d in limits ==> !(d.1 > 0 && sanitize(d.0) != "")
      ensures outcome in {Invalid, Unlimited} ==> server.zsets == old(server.zsets)
      ensures outcome !in {Invalid, Unlimited} ==>
                (outcome.Leased? <==>
                   forall d :: d in limits && d.1 > 0 && sanitize(d.0) != "" ==>
                     |Unexpired(old(server.zsets), sanitize(d.0), now)| < d.1)
      ensures outcome.Leased? ==> KeysOf(outcome.keys, limits, sanitize)
      ensures outcome.Leased? ==>
                forall k :: k in outcome.keys ==>
                  k in server.zsets
                  && server.zsets[k] == ZSet(Unexpired(old(server.zsets), k, now)[trim(rawMember) := now + ttl], server.clock + ttl * 2)
      ensures forall k :: (outcome.Leased? ==> k !in outcome.keys) ==>
                OnlyLapsedRemovedAt(old(server.zsets), server.zsets, now, k)
    {
      hide Limited, Unexpired, OnlyLapsedRemovedAt, AcquireScript, KeysOf, Room;
      NothingRemoved(server.zsets, now);
      var member := trim(rawMember);
      if member == "" || ttl <= 0 {
        return Invalid;
      }
      var keys, args := Dimensions(limits, sanitize);
      RoomForSent(server.zsets, limits, sanitize, now);
      if keys == [] {
        return Unlimited;
      }
      AcquireOutcome(server.zsets, keys, args, now, ttl, member, server.clock);
      SentKeys(limits, sanitize, keys);
      assert forall j :: 0 <= j < |keys| ==> (keys[j], args[j]) == Limited(limits, sanitize)[j];
      var admitted := server.RunAcquire(keys, args, now, ttl, member);
      outcome := if admitted then Leased(keys) else Refused;
    }
  }

  lemma NothingRemoved(z: Store, now: int)
    ensures forall k :: OnlyLapsedRemovedAt(z, z, now, k)
  {
  }

  /** The store after removing `member` from every key from position `i` on. */
  function DropAll(z: Store, keys: seq<string>, member: string, i: nat): Store
    requires i <= |keys|
    decreases |keys| - i
  {
    if i == |keys| then z else DropAll(Drop(z, keys[i], member), keys, member, i + 1)
  }

  /** A release leaves its member under none of its keys and every other member where it was. */
  lemma {:induction false} DropAllEffect(z: Store, keys: seq<string>, member: string, i: nat)
    requires i <= |keys|
    ensures var after := DropAll(z, keys, member, i);
            && (forall k :: k in keys[i..] ==> member !in Scores(after, k))
            && (forall k, m :: m in Scores(after, k) ==> m in Scores(z, k) && Scores(after, k)[m] == Scores(z, k)[m])
            && (forall k, m :: (m != member || k !in keys[i..]) && m in Scores(z, k) ==> m in Scores(after, k))
    decreases |keys| - i
  {
    if i < |keys| {
      var dropped := Drop(z, keys[i], member);
      DropAllEffect(dropped, keys, member, i + 1);
      assert keys[i..] == [keys[i]] + keys[i + 1..];
      var after := DropAll(z, keys, member, i);
      assert member !in Scores(dropped, keys[i]);
      forall k, m | (m != member || k !in keys[i..]) && m in Scores(z, k) ensures m in Scores(after, k) {
        assert m in Scores(dropped, k);
      }
    }
  }

  class RedisLease {
    const server: RedisServer
    const keys: seq<string>
    const member: string
    const ttl: int
    var released: bool

    constructor (server: RedisServer, keys: seq<string>, member: string, ttl: int)
      ensures this.server == server && this.keys == keys && this.member == member && this.ttl == ttl && !released
    {
      this.server := server;
      this.keys := keys;
      this.member := member;
      this.ttl := ttl;
      released := false;
    }

    method Refresh(now: int) returns (held: bool)
      modifies server`zsets
      ensures (server.zsets, held) == RefreshScript(old(server.zsets), keys, now, ttl, member, server.clock)
    {
      if |keys| == 0 {
        return true;
      }
      held := server.RunRefresh(keys, now, ttl, member);
    }

    /** Only the first release reaches the server. */
    method Release()
      modifies `released, server`zsets
      ensures keys != [] ==> released
      ensures server.zsets == if old(released) || keys == [] then old(server.zsets)
                              else DropAll(old(server.zsets), keys, member, 0)
      ensures !old(released) ==>
                && (forall k :: k in keys ==> member !in Scores(server.zsets, k))
                && (forall k, m :: m != member || k !in keys ==>
                      (m in Scores(server.zsets, k) <==> m in Scores(old(server.zsets), k)))
    {
      DropAllEffect(server.zsets, keys, member, 0);
      assert keys[0..] == keys;
      if |keys| == 0 || released {
        return;
      }
      released := true;
      for i := 0 to |keys|
        invariant released
        invariant DropAll(old(server.zsets), keys, member, 0) == DropAll(server.zsets, keys, member, i)
      {
        server.RemoveMember(keys[i], member);
      }
    }
  }
}
