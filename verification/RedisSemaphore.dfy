/** The distributed semaphore of internal/platform/coordination/redis.go: two scripts over sorted sets
    that run atomically on the server, and a release that removes one key at a time. Times are in
    milliseconds; a caller's `now` may be older than the server's clock, never newer. */
module RedisSemaphore {

  /** A sorted set: the score of each member, and the time at which the whole key expires. */
  datatype ZSet = ZSet(scores: map<string, int>, expiry: int)

  type Store = map<string, ZSet>

  function Scores(z: Store, key: string): map<string, int> {
    if key in z then z[key].scores else map[]
  }

  /** Members of `key` whose score is later than `now`. */
  function Unexpired(z: Store, key: string, now: int): map<string, int> {
    map m | m in Scores(z, key) && Scores(z, key)[m] > now :: Scores(z, key)[m]
  }

  /** ZREMRANGEBYSCORE key -inf now; a set left empty disappears. */
  function Purge(z: Store, key: string, now: int): Store {
    if key !in z then z
    else if Unexpired(z, key, now) == map[] then z - {key}
    else z[key := z[key].(scores := Unexpired(z, key, now))]
  }

  /** ZADD followed by PEXPIRE. */
  function Put(z: Store, key: string, member: string, score: int, expiry: int): Store {
    z[key := ZSet(Scores(z, key)[member := score], expiry)]
  }

  /** ZREM of one member. */
  function Drop(z: Store, key: string, member: string): Store {
    if key !in z then z
    else if z[key].scores - {member} == map[] then z - {key}
    else z[key := z[key].(scores := z[key].scores - {member})]
  }

  // ---- The two scripts ------------------------------------------------------------------------

  /** The first pass of the acquire script from position `i` on: purge and count. */
  function CountPass(z: Store, keys: seq<string>, limits: seq<int>, now: int, i: nat): (Store, bool)
    requires i <= |keys| == |limits|
    decreases |keys| - i
  {
    if i == |keys| then (z, true)
    else if limits[i] <= 0 then CountPass(z, keys, limits, now, i + 1)
    else
      var purged := Purge(z, keys[i], now);
      if |Scores(purged, keys[i])| >= limits[i] then (purged, false)
      else CountPass(purged, keys, limits, now, i + 1)
  }

  /** The second pass of the acquire script from position `i` on. */
  function AddPass(z: Store, keys: seq<string>, limits: seq<int>, member: string, expires: int, expiry: int, i: nat): Store
    requires i <= |keys| == |limits|
    decreases |keys| - i
  {
    if i == |keys| then z
    else if limits[i] <= 0 then AddPass(z, keys, limits, member, expires, expiry, i + 1)
    else AddPass(Put(z, keys[i], member, expires, expiry), keys, limits, member, expires, expiry, i + 1)
  }

  function AcquireScript(z: Store, keys: seq<string>, limits: seq<int>, now: int, ttl: int, member: string, clock: int): (Store, bool)
    requires |keys| == |limits|
  {
    var (purged, admitted) := CountPass(z, keys, limits, now, 0);
    if admitted then (AddPass(purged, keys, limits, member, now + ttl, clock + ttl * 2, 0), true)
    else (purged, false)
  }

  /** The first pass of the refresh script from position `i` on. */
  function CheckPass(z: Store, keys: seq<string>, now: int, member: string, i: nat): (Store, bool)
    requires i <= |keys|
    decreases |keys| - i
  {
    if i == |keys| then (z, true)
    else
      var purged := Purge(z, keys[i], now);
      if member !in Scores(purged, keys[i]) then (purged, false)
      else CheckPass(purged, keys, now, member, i + 1)
  }

  /** The second pass of the refresh script from position `i` on; ZADD XX only updates. */
  function UpdatePass(z: Store, keys: seq<string>, member: string, expires: int, expiry: int, i: nat): Store
    requires i <= |keys|
    decreases |keys| - i
  {
    if i == |keys| then z
    else
      var updated :=
        if member in Scores(z, keys[i]) then Put(z, keys[i], member, expires, expiry)
        else if keys[i] in z then z[keys[i] := z[keys[i]].(expiry := expiry)]
        else z;
      UpdatePass(updated, keys, member, expires, expiry, i + 1)
  }

  function RefreshScript(z: Store, keys: seq<string>, now: int, ttl: int, member: string, clock: int): (Store, bool) {
    var (purged, held) := CheckPass(z, keys, now, member, 0);
    if held then (UpdatePass(purged, keys, member, now + ttl, clock + ttl * 2, 0), true)
    else (purged, false)
  }

  /** The server: its sorted sets and its clock. */
  class RedisServer {
    var zsets: Store
    var clock: int

    constructor (start: int)
      ensures zsets == map[] && clock == start
    {
      zsets := map[];
      clock := start;
    }

    method PurgeAndCount(keys: seq<string>, limits: seq<int>, now: int) returns (admitted: bool)
      requires |keys| == |limits|
      modifies `zsets
      ensures (zsets, admitted) == CountPass(old(zsets), keys, limits, now, 0)
    {
      for i := 0 to |keys|
        invariant CountPass(old(zsets), keys, limits, now, 0) == CountPass(zsets, keys, limits, now, i)
      {
        if limits[i] > 0 {
          zsets := Purge(zsets, keys[i], now);
          if |Scores(zsets, keys[i])| >= limits[i] {
            return false;
          }
        }
      }
      return true;
    }

    method AddToAll(keys: seq<string>, limits: seq<int>, member: string, expires: int, expiry: int)
      requires |keys| == |limits|
      modifies `zsets
      ensures zsets == AddPass(old(zsets), keys, limits, member, expires, expiry, 0)
    {
      for i := 0 to |keys|
        invariant AddPass(old(zsets), keys, limits, member, expires, expiry, 0)
               == AddPass(zsets, keys, limits, member, expires, expiry, i)
      {
        if limits[i] > 0 {
          zsets := Put(zsets, keys[i], member, expires, expiry);
        }
      }
    }

    method RunAcquire(keys: seq<string>, limits: seq<int>, now: int, ttl: int, member: string) returns (admitted: bool)
      requires |keys| == |limits|
      modifies `zsets
      ensures (zsets, admitted) == AcquireScript(old(zsets), keys, limits, now, ttl, member, clock)
    {
      hide CountPass, AddPass;
      admitted := PurgeAndCount(keys, limits, now);
      if !admitted {
        return;
      }
      var expires := now + ttl;
      AddToAll(keys, limits, member, expires, clock + ttl * 2);
    }

    method RunRefresh(keys: seq<string>, now: int, ttl: int, member: string) returns (held: bool)
      modifies `zsets
      ensures (zsets, held) == RefreshScript(old(zsets), keys, now, ttl, member, clock)
    {
      for i := 0 to |keys|
        invariant CheckPass(old(zsets), keys, now, member, 0) == CheckPass(zsets, keys, now, member, i)
      {
        zsets := Purge(zsets, keys[i], now);
        if member !in Scores(zsets, keys[i]) {
          return false;
        }
      }
      ghost var purged := zsets;
      var expires := now + ttl;
      for i := 0 to |keys|
        invariant UpdatePass(purged, keys, member, expires, clock + ttl * 2, 0)
               == UpdatePass(zsets, keys, member, expires, clock + ttl * 2, i)
      {
        if member in Scores(zsets, keys[i]) {
          zsets := Put(zsets, keys[i], member, expires, clock + ttl * 2);
        } else if keys[i] in zsets {
          zsets := zsets[keys[i] := zsets[keys[i]].(expiry := clock + ttl * 2)];
        }
      }
      return true;
    }

    method RemoveMember(key: string, member: string)
      modifies `zsets
      ensures zsets == Drop(old(zsets), key, member)
    {
      if key in zsets {
        var left := zsets[key].scores - {member};
        if left == map[] {
          zsets := zsets - {key};
        } else {
          zsets := zsets[key := zsets[key].(scores := left)];
        }
      }
    }
  }

  // ---- What the scripts do, without their passes ----------------------------------------------

  /** At `key`, `after` is `z` without some members whose score is at most `now`, and nothing else changed. */
  ghost predicate OnlyLapsedRemovedAt(z: Store, after: Store, now: int, key: string) {
    && (key in after ==> key in z && after[key].expiry == z[key].expiry)
    && (forall m :: m in Scores(after, key) ==> m in Scores(z, key) && Scores(after, key)[m] == Scores(z, key)[m])
    && (forall m :: m in Scores(z, key) && m !in Scores(after, key) ==> Scores(z, key)[m] <= now)
  }

  ghost predicate OnlyLapsedRemoved(z: Store, after: Store, now: int) {
    forall k :: OnlyLapsedRemovedAt(z, after, now, k)
  }

  lemma PurgeEffect(z: Store, key: string, now: int)
    ensures OnlyLapsedRemoved(z, Purge(z, key, now), now)
    ensures Scores(Purge(z, key, now), key) == Unexpired(z, key, now)
    ensures forall k :: k != key ==> Scores(Purge(z, key, now), k) == Scores(z, k)
  {
  }

  lemma UnexpiredUnchanged(z: Store, after: Store, now: int, key: string)
    requires OnlyLapsedRemoved(z, after, now)
    ensures Unexpired(after, key, now) == Unexpired(z, key, now)
  {
    assert OnlyLapsedRemovedAt(z, after, now, key);
  }

  lemma CardinalityMonotone(a: map<string, int>, b: map<string, int>)
    requires a.Keys <= b.Keys
    ensures |a| <= |b|
  {
    SubsetCardinality(a.Keys, b.Keys);
    assert |a| == |a.Keys| && |b| == |b.Keys|;
  }

  lemma {:induction false} SubsetCardinality<T>(a: set<T>, b: set<T>)
    requires a <= b
    ensures |a| <= |b|
  {
    if a != {} {
      var x :| x in a;
      SubsetCardinality(a - {x}, b - {x});
    }
  }

  predicate Room(z: Store, key: string, limit: int, now: int) {
    limit > 0 ==> |Unexpired(z, key, now)| < limit
  }

  lemma {:induction false} CountPassRemovesOnlyLapsed(z: Store, keys: seq<string>, limits: seq<int>, now: int, i: nat)
    requires i <= |keys| == |limits|
    ensures OnlyLapsedRemoved(z, CountPass(z, keys, limits, now, i).0, now)
    decreases |keys| - i
  {
    if i < |keys| {
      var mid := if limits[i] <= 0 then z else Purge(z, keys[i], now);
      PurgeEffect(z, keys[i], now);
      CountPassRemovesOnlyLapsed(mid, keys, limits, now, i + 1);
      PurgesCompose(z, mid, CountPass(mid, keys, limits, now, i + 1).0, now);
    }
  }

  /** Admission is exact: every limited key has, among its unexpired members, room for one more. */
  lemma {:induction false} AdmittedIffRoom(z: Store, keys: seq<string>, limits: seq<int>, now: int, i: nat)
    requires i <= |keys| == |limits|
    ensures CountPass(z, keys, limits, now, i).1 <==> forall j :: i <= j < |keys| ==> Room(z, keys[j], limits[j], now)
    decreases |keys| - i
  {
    if i < |keys| {
      var mid := if limits[i] <= 0 then z else Purge(z, keys[i], now);
      PurgeEffect(z, keys[i], now);
      forall j | i < j < |keys| ensures Room(mid, keys[j], limits[j], now) <==> Room(z, keys[j], limits[j], now) {
        UnexpiredUnchanged(z, mid, now, keys[j]);
      }
      AdmittedIffRoom(mid, keys, limits, now, i + 1);
    }
  }

  /** After an admitting first pass, every limited key holds exactly its unexpired members. */
  lemma {:induction false} AdmittedKeysArePurged(z: Store, keys: seq<string>, limits: seq<int>, now: int, i: nat, j: nat)
    requires i <= j < |keys| == |limits| && limits[j] > 0
    requires CountPass(z, keys, limits, now, i).1
    ensures Scores(CountPass(z, keys, limits, now, i).0, keys[j]) == Unexpired(z, keys[j], now)
    decreases |keys| - i
  {
    var mid := if limits[i] <= 0 then z else Purge(z, keys[i], now);
    PurgeEffect(z, keys[i], now);
    if i == j {
      CountPassRemovesOnlyLapsed(mid, keys, limits, now, i + 1);
      PurgedKeyIsFinal(z, mid, CountPass(mid, keys, limits, now, i + 1).0, now, keys[i]);
    } else {
      AdmittedKeysArePurged(mid, keys, limits, now, i + 1, j);
      UnexpiredUnchanged(z, mid, now, keys[j]);
    }
  }

  lemma PurgesCompose(z: Store, mid: Store, after: Store, now: int)
    requires OnlyLapsedRemoved(z, mid, now) && OnlyLapsedRemoved(mid, after, now)
    ensures OnlyLapsedRemoved(z, after, now)
  {
    forall k ensures OnlyLapsedRemovedAt(z, after, now, k) {
      assert OnlyLapsedRemovedAt(z, mid, now, k) && OnlyLapsedRemovedAt(mid, after, now, k);
    }
  }

  lemma PurgedKeyIsFinal(z: Store, mid: Store, after: Store, now: int, key: string)
    requires OnlyLapsedRemoved(mid, after, now) && Scores(mid, key) == Unexpired(z, key, now)
    ensures Scores(after, key) == Unexpired(z, key, now)
  {
    assert OnlyLapsedRemovedAt(mid, after, now, key);
    forall m | m in Scores(mid, key) ensures m in Scores(after, key) {
      assert Scores(mid, key)[m] > now;
    }
  }

  lemma {:induction false} AddPassEffect(z: Store, keys: seq<string>, limits: seq<int>, member: string, expires: int, expiry: int, i: nat)
    requires i <= |keys| == |limits| && forall j :: 0 <= j < |limits| ==> limits[j] > 0
    ensures var after := AddPass(z, keys, limits, member, expires, expiry, i);
            && (forall k :: k in keys[i..] ==> k in after && after[k] == ZSet(Scores(z, k)[member := expires], expiry))
            && (forall k :: k !in keys[i..] ==> (k in after <==> k in z) && (k in z ==> after[k] == z[k]))
    decreases |keys| - i
  {
    if i < |keys| {
      var put := Put(z, keys[i], member, expires, expiry);
      AddPassEffect(put, keys, limits, member, expires, expiry, i + 1);
      assert keys[i..] == [keys[i]] + keys[i + 1..];
      assert Scores(put, keys[i])[member := expires] == Scores(put, keys[i]);
    }
  }

  lemma {:induction false} CheckPassEffect(z: Store, keys: seq<string>, now: int, member: string, i: nat)
    requires i <= |keys|
    ensures var (after, held) := CheckPass(z, keys, now, member, i);
            && OnlyLapsedRemoved(z, after, now)
            && (held <==> forall j :: i <= j < |keys| ==> member in Unexpired(z, keys[j], now))
            && (held ==> forall j :: i <= j < |keys| ==> Scores(after, keys[j]) == Unexpired(z, keys[j], now))
    decreases |keys| - i
  {
    if i < |keys| {
      var purged := Purge(z, keys[i], now);
      PurgeEffect(z, keys[i], now);
      if member in Scores(purged, keys[i]) {
        CheckPassEffect(purged, keys, now, member, i + 1);
        var (after, held) := CheckPass(purged, keys, now, member, i + 1);
        PurgesCompose(z, purged, after, now);
        forall j | i <= j < |keys| ensures Unexpired(purged, keys[j], now) == Unexpired(z, keys[j], now) {
          UnexpiredUnchanged(z, purged, now, keys[j]);
        }
        PurgedKeyIsFinal(z, purged, after, now, keys[i]);
      }
    }
  }

  lemma {:induction false} UpdatePassEffect(z: Store, keys: seq<string>, member: string, expires: int, expiry: int, i: nat)
    requires i <= |keys| && forall j :: i <= j < |keys| ==> member in Scores(z, keys[j])
    ensures var after := UpdatePass(z, keys, member, expires, expiry, i);
            && (forall k :: k in keys[i..] ==> k in after && after[k] == ZSet(Scores(z, k)[member := expires], expiry))
            && (forall k :: k !in keys[i..] ==> (k in after <==> k in z) && (k in z ==> after[k] == z[k]))
    decreases |keys| - i
  {
    if i < |keys| {
      var put := Put(z, keys[i], member, expires, expiry);
      UpdatePassEffect(put, keys, member, expires, expiry, i + 1);
      assert keys[i..] == [keys[i]] + keys[i + 1..];
      assert Scores(put, keys[i])[member := expires] == Scores(put, keys[i]);
    }
  }

  lemma AcquireDecides(z: Store, keys: seq<string>, limits: seq<int>, now: int, ttl: int, member: string, clock: int)
    requires |keys| == |limits|
    ensures AcquireScript(z, keys, limits, now, ttl, member, clock).1
            <==> forall j :: 0 <= j < |keys| ==> Room(z, keys[j], limits[j], now)
  {
    hide CountPass, AddPass, Room;
    AdmittedIffRoom(z, keys, limits, now, 0);
  }

  /** A refused acquire, and an admitted one away from its keys, removes only lapsed members. */
  lemma AcquireElsewhere(z: Store, keys: seq<string>, limits: seq<int>, now: int, ttl: int, member: string, clock: int, k: string)
    requires |keys| == |limits| && forall j :: 0 <= j < |limits| ==> limits[j] > 0
    requires AcquireScript(z, keys, limits, now, ttl, member, clock).1 ==> k !in keys
    ensures OnlyLapsedRemovedAt(z, AcquireScript(z, keys, limits, now, ttl, member, clock).0, now, k)
  {
    hide CountPass, AddPass;
    var (mid, admitted) := CountPass(z, keys, limits, now, 0);
    CountPassRemovesOnlyLapsed(z, keys, limits, now, 0);
    assert OnlyLapsedRemovedAt(z, mid, now, k);
    if admitted {
      AddPassEffect(mid, keys, limits, member, now + ttl, clock + ttl * 2, 0);
      assert keys[0..] == keys;
    }
  }

  /** An admitted acquire adds its member to what was unexpired under each of its keys. */
  lemma AcquireUnder(z: Store, keys: seq<string>, limits: seq<int>, now: int, ttl: int, member: string, clock: int, k: string)
    requires |keys| == |limits| && forall j :: 0 <= j < |limits| ==> limits[j] > 0
    requires AcquireScript(z, keys, limits, now, ttl, member, clock).1 && k in keys
    ensures var after := AcquireScript(z, keys, limits, now, ttl, member, clock).0;
            k in after && after[k] == ZSet(Unexpired(z, k, now)[member := now + ttl], clock + ttl * 2)
  {
    hide CountPass, AddPass, Unexpired;
    var mid := CountPass(z, keys, limits, now, 0).0;
    AddPassEffect(mid, keys, limits, member, now + ttl, clock + ttl * 2, 0);
    assert keys[0..] == keys;
    var j :| 0 <= j < |keys| && keys[j] == k;
    AdmittedKeysArePurged(z, keys, limits, now, 0, j);
  }

  /** An acquire that is refused adds nothing and removes only lapsed members; one that is admitted, which
      it is exactly when every key has room among its unexpired members, adds its member to every key. */
  lemma AcquireOutcome(z: Store, keys: seq<string>, limits: seq<int>, now: int, ttl: int, member: string, clock: int)
    requires |keys| == |limits| && forall j :: 0 <= j < |limits| ==> limits[j] > 0
    ensures var (after, admitted) := AcquireScript(z, keys, limits, now, ttl, member, clock);
            && (admitted <==> forall j :: 0 <= j < |keys| ==> Room(z, keys[j], limits[j], now))
            && (forall k :: !admitted || k !in keys ==> OnlyLapsedRemovedAt(z, after, now, k))
            && (forall k :: admitted && k in keys ==>
                  k in after && after[k] == ZSet(Unexpired(z, k, now)[member := now + ttl], clock + ttl * 2))
  {
    hide AcquireScript, Unexpired, Room, OnlyLapsedRemovedAt;
    AcquireDecides(z, keys, limits, now, ttl, member, clock);
    var (after, admitted) := AcquireScript(z, keys, limits, now, ttl, member, clock);
    forall k | !admitted || k !in keys ensures OnlyLapsedRemovedAt(z, after, now, k) {
      AcquireElsewhere(z, keys, limits, now, ttl, member, clock, k);
    }
    forall k | admitted && k in keys
      ensures k in after && after[k] == ZSet(Unexpired(z, k, now)[member := now + ttl], clock + ttl * 2)
    {
      AcquireUnder(z, keys, limits, now, ttl, member, clock, k);
    }
  }

  lemma RefreshDecides(z: Store, keys: seq<string>, now: int, ttl: int, member: string, clock: int)
    ensures RefreshScript(z, keys, now, ttl, member, clock).1
            <==> forall j :: 0 <= j < |keys| ==> member in Unexpired(z, keys[j], now)
  {
    hide CheckPass, UpdatePass, Unexpired, OnlyLapsedRemoved;
    CheckPassEffect(z, keys, now, member, 0);
  }

  /** A failed refresh, and a successful one away from its keys, removes only lapsed members. */
  lemma RefreshElsewhere(z: Store, keys: seq<string>, now: int, ttl: int, member: string, clock: int, k: string)
    requires RefreshScript(z, keys, now, ttl, member, clock).1 ==> k !in keys
    ensures OnlyLapsedRemovedAt(z, RefreshScript(z, keys, now, ttl, member, clock).0, now, k)
  {
    hide CheckPass, UpdatePass, Unexpired;
    var (mid, held) := CheckPass(z, keys, now, member, 0);
    CheckPassEffect(z, keys, now, member, 0);
    assert OnlyLapsedRemovedAt(z, mid, now, k);
    if held {
      HeldUnderAll(z, keys, now, member);
      UpdatePassEffect(mid, keys, member, now + ttl, clock + ttl * 2, 0);
      assert keys[0..] == keys;
    }
  }

  /** After a first pass that succeeded, each key holds exactly its unexpired members, this one among them. */
  lemma HeldUnderAll(z: Store, keys: seq<string>, now: int, member: string)
    requires CheckPass(z, keys, now, member, 0).1
    ensures forall j :: 0 <= j < |keys| ==>
              && member in Scores(CheckPass(z, keys, now, member, 0).0, keys[j])
              && Scores(CheckPass(z, keys, now, member, 0).0, keys[j]) == Unexpired(z, keys[j], now)
  {
    hide CheckPass, Unexpired, OnlyLapsedRemoved;
    CheckPassEffect(z, keys, now, member, 0);
  }

  lemma RefreshUnder(z: Store, keys: seq<string>, now: int, ttl: int, member: string, clock: int, k: string)
    requires RefreshScript(z, keys, now, ttl, member, clock).1 && k in keys
    ensures var after := RefreshScript(z, keys, now, ttl, member, clock).0;
            k in after && after[k] == ZSet(Unexpired(z, k, now)[member := now + ttl], clock + ttl * 2)
  {
    hide CheckPass, UpdatePass, Unexpired, Scores;
    var mid := CheckPass(z, keys, now, member, 0).0;
    HeldUnderAll(z, keys, now, member);
    UpdatePassEffect(mid, keys, member, now + ttl, clock + ttl * 2, 0);
    assert keys[0..] == keys;
    var j :| 0 <= j < |keys| && keys[j] == k;
    assert Scores(mid, keys[j]) == Unexpired(z, keys[j], now);
  }

  /** A refresh succeeds exactly when its member has not lapsed under any key; it then moves the score of
      that member alone. A failed refresh adds nothing and removes only lapsed members. */
  lemma RefreshOutcome(z: Store, keys: seq<string>, now: int, ttl: int, member: string, clock: int)
    ensures var (after, held) := RefreshScript(z, keys, now, ttl, member, clock);
            && (held <==> forall j :: 0 <= j < |keys| ==> member in Unexpired(z, keys[j], now))
            && (forall k :: !held || k !in keys ==> OnlyLapsedRemovedAt(z, after, now, k))
            && (forall k :: held && k in keys ==>
                  k in after && after[k] == ZSet(Unexpired(z, k, now)[member := now + ttl], clock + ttl * 2))
  {
    hide RefreshScript, Unexpired, OnlyLapsedRemovedAt;
    RefreshDecides(z, keys, now, ttl, member, clock);
    var (after, held) := RefreshScript(z, keys, now, ttl, member, clock);
    forall k | !held || k !in keys ensures OnlyLapsedRemovedAt(z, after, now, k) {
      RefreshElsewhere(z, keys, now, ttl, member, clock, k);
    }
    forall k | held && k in keys
      ensures k in after && after[k] == ZSet(Unexpired(z, k, now)[member := now + ttl], clock + ttl * 2)
    {
      RefreshUnder(z, keys, now, ttl, member, clock, k);
    }
  }
}
