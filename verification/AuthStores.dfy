/** Refresh records and token revocations in the two stores behind authentication:
    internal/module/iam/infrastructure/postgres/auth_state_repository.go (authoritative),
    internal/module/iam/infrastructure/redis/auth_state_store.go (best effort), the failover store in front
    of them and the token manager of internal/shared/middleware/authn.go. Clocks count ticks; tokens expire
    at whole seconds. */
module AuthStores {

  datatype Option<T> = None | Some(value: T)

  const TicksPerSecond := 1_000_000_000

  /** A signed payload; `exp` is in seconds. */
  datatype Token = Token(id: string, session: string, subject: string, exp: int, refresh: bool)

  /** The tick at which a token, and every record made for it, expires. */
  function ExpiryTick(token: Token): int {
    token.exp * TicksPerSecond
  }

  /** The manager compares whole seconds, the stores compare ticks; both lapse at the same tick. */
  lemma SameSecond(token: Token, now: int)
    ensures token.exp <= now / TicksPerSecond <==> ExpiryTick(token) <= now
  {
  }

  datatype Row = Row(session: string, subject: string, expiry: int, revoked: bool)

  function RowOf(token: Token): Row {
    Row(token.session, token.subject, ExpiryTick(token), false)
  }

  /** The row a consume or rotate statement updates: the token's own, unrevoked and unexpired. */
  predicate Matches(rows: map<string, Row>, token: Token, now: int) {
    && token.id in rows && rows[token.id].subject == token.subject && rows[token.id].session == token.session
    && !rows[token.id].revoked && rows[token.id].expiry > now
  }

  // ---- Postgres: each operation is one transaction ---------------------------------------------------

  datatype Tables = Tables(rows: map<string, Row>, revoked: map<string, int>)

  function PgStore(t: Tables, token: Token): (Tables, bool) {
    if token.id in t.rows then (t, false) else (t.(rows := t.rows[token.id := RowOf(token)]), true)
  }

  /** Insert unless present. */
  function PgRevoke(t: Tables, token: Token): Tables {
    if token.id in t.revoked then t else t.(revoked := t.revoked[token.id := ExpiryTick(token)])
  }

  function PgConsume(t: Tables, token: Token, now: int): (Tables, bool) {
    if !Matches(t.rows, token, now) then (t, false)
    else (PgRevoke(t.(rows := t.rows[token.id := t.rows[token.id].(revoked := true)]), token), true)
  }

  /** Consume the old token and insert the new row; a failed insert rolls everything back. */
  function PgRotate(t: Tables, before: Token, after: Token, now: int): (Tables, bool) {
    var (consumed, ok) := PgConsume(t, before, now);
    if !ok then (t, false)
    else
      var (rotated, inserted) := PgStore(consumed, after);
      if inserted then (rotated, true) else (t, false)
  }

  predicate PgIsRevoked(t: Tables, id: string, now: int) {
    id in t.revoked && t.revoked[id] > now
  }

  function PgCleanup(t: Tables, before: int): Tables {
    Tables(map id | id in t.rows && t.rows[id].expiry > before :: t.rows[id],
           map id | id in t.revoked && t.revoked[id] > before :: t.revoked[id])
  }

  /** The token's own row, unrevoked and unexpired, is what a consumption or rotation needs. */
  predicate Spendable(t: Tables, token: Token, now: int) {
    token.id in t.rows && t.rows[token.id] == Row(token.session, token.subject, t.rows[token.id].expiry, false)
    && t.rows[token.id].expiry > now
  }

  /** A consumption succeeds exactly for a spendable row; it revokes that row, records the revocation and touches
      nothing else. */
  lemma PgConsumesExactly(t: Tables, token: Token, now: int)
    ensures var (after, ok) := PgConsume(t, token, now);
            && (ok <==> Spendable(t, token, now))
            && (!ok ==> after == t)
            && (ok ==>
                  && after.rows == t.rows[token.id := t.rows[token.id].(revoked := true)]
                  && after.revoked == if token.id in t.revoked then t.revoked else t.revoked[token.id := ExpiryTick(token)])
  {
  }

  /** A rotation commits exactly when the old row is spendable and the new id is free; it then revokes the old row,
      records its revocation and adds the new, unrevoked row. Otherwise nothing changes. */
  lemma PgRotatesExactly(t: Tables, before: Token, after: Token, now: int)
    ensures var (u, ok) := PgRotate(t, before, after, now);
            && (ok <==> Spendable(t, before, now) && after.id !in t.rows)
            && (!ok ==> u == t)
            && (ok ==>
                  && u.rows == t.rows[before.id := t.rows[before.id].(revoked := true)]
                                     [after.id := Row(after.session, after.subject, after.exp * TicksPerSecond, false)]
                  && u.revoked == if before.id in t.revoked then t.revoked else t.revoked[before.id := ExpiryTick(before)])
  {
    PgConsumesExactly(t, before, now);
  }

  // ---- Redis: keys with an expiry ----------------------------------------------------------------------

  /** `rows` are the refresh keys and `revoked` the revocation keys, each with the tick its key expires. */
  datatype Keys = Keys(rows: map<string, (Row, int)>, revoked: map<string, int>)

  /** The expiry that ttlUntil gives a key set at `now`: the token's, or a second from now if that passed. */
  function KeyExpiry(expiry: int, now: int): int {
    if expiry <= now then now + TicksPerSecond else expiry
  }

  predicate RdIsRevoked(k: Keys, id: string, now: int) {
    id in k.revoked && k.revoked[id] > now
  }

  function RdRevoke(k: Keys, token: Token, now: int): Keys {
    k.(revoked := k.revoked[token.id := KeyExpiry(ExpiryTick(token), now)])
  }

  function RdStore(k: Keys, token: Token, now: int): Keys {
    k.(rows := k.rows[token.id := (RowOf(token), KeyExpiry(ExpiryTick(token), now))])
  }

  /** Set the revocation key unless it is there. */
  function RdClaim(k: Keys, token: Token, now: int): (Keys, bool) {
    if RdIsRevoked(k, token.id, now) then (k, false)
    else (k.(revoked := k.revoked[token.id := KeyExpiry(ExpiryTick(token), now)]), true)
  }

  /** Write a row that was read before back as revoked. */
  function RdSpend(k: Keys, id: string, row: Row, now: int): Keys {
    k.(rows := k.rows[id := (row.(revoked := true), KeyExpiry(row.expiry, now))])
  }

  /** A consumption nothing interferes with. The revocation key is claimed first, and stays claimed when the row
      turns out not to match. */
  function RdConsume(k: Keys, token: Token, now: int): (Keys, bool) {
    var (claimed, locked) := RdClaim(k, token, now);
    if !locked || token.id !in k.rows || k.rows[token.id].1 <= now || !Unspent(k.rows[token.id].0, token, now) then (claimed, false)
    else (RdSpend(claimed, token.id, k.rows[token.id].0, now), true)
  }

  /** The row is the token's own, unrevoked and unexpired. */
  predicate Unspent(row: Row, token: Token, now: int) {
    !row.revoked && row.subject == token.subject && row.session == token.session && row.expiry > now
  }

  /** The watched transaction. */
  function RdRotate(k: Keys, before: Token, after: Token, now: int): (Keys, bool) {
    if RdIsRevoked(k, before.id, now) || before.id !in k.rows || k.rows[before.id].1 <= now then (k, false)
    else
      var row := k.rows[before.id].0;
      if !Unspent(row, before, now) then (k, false)
      else
        var expires := KeyExpiry(ExpiryTick(before), now);
        (RdStore(Keys(k.rows[before.id := (row.(revoked := true), expires)], k.revoked[before.id := expires]), after, now), true)
  }

  /** Each single write changes what it names, under an expiry that is no earlier than the token's, and nothing
      else. */
  lemma SingleWrites(t: Tables, k: Keys, token: Token, now: int)
    ensures PgStore(t, token) == if token.id in t.rows then (t, false)
                                 else (Tables(t.rows[token.id := RowOf(token)], t.revoked), true)
    ensures var u := PgRevoke(t, token);
            && u.rows == t.rows && u.revoked.Keys == t.revoked.Keys + {token.id}
            && (token.id !in t.revoked ==> u.revoked[token.id] == token.exp * TicksPerSecond)
            && (forall id :: id in t.revoked ==> u.revoked[id] == t.revoked[id])
    ensures var u := RdStore(k, token, now);
            && u.revoked == k.revoked && u.rows.Keys == k.rows.Keys + {token.id}
            && u.rows[token.id].0 == RowOf(token) && u.rows[token.id].1 > now && u.rows[token.id].1 >= ExpiryTick(token)
            && (forall id :: id in k.rows && id != token.id ==> u.rows[id] == k.rows[id])
    ensures var u := RdRevoke(k, token, now);
            && u.rows == k.rows && u.revoked.Keys == k.revoked.Keys + {token.id}
            && u.revoked[token.id] > now && u.revoked[token.id] >= ExpiryTick(token)
            && (now < ExpiryTick(token) ==> u.revoked[token.id] == ExpiryTick(token))
            && (forall id :: id in k.revoked && id != token.id ==> u.revoked[id] == k.revoked[id])
  {
  }

  /** In Redis a rotation happens exactly when the token is not reported revoked and its live key holds a row of its
      own, unrevoked and unexpired; it then spends that row, records the revocation and stores the new row. */
  lemma RdRotatesExactly(k: Keys, before: Token, after: Token, now: int)
    ensures var (u, ok) := RdRotate(k, before, after, now);
            && (ok <==> && !(before.id in k.revoked && k.revoked[before.id] > now)
                        && before.id in k.rows && k.rows[before.id].1 > now
                        && var row := k.rows[before.id].0;
                           !row.revoked && row.subject == before.subject && row.session == before.session && row.expiry > now)
            && (!ok ==> u == k)
            && (ok ==>
                  && before.id in u.revoked && u.revoked[before.id] > now && u.revoked[before.id] >= ExpiryTick(before)
                  && after.id in u.rows && u.rows[after.id].0 == RowOf(after) && u.rows[after.id].1 > now
                  && (before.id != after.id ==> before.id in u.rows && u.rows[before.id].0.revoked))
  {
  }

  // ---- The store classes ---------------------------------------------------------------------------------

  /** How a call to a store ends: normally, failing before it took effect, or failing afterwards. */
  datatype Fault = Works | FailsBefore | FailsAfter

  class PostgresStore {
    var rows: map<string, Row>
    var revoked: map<string, int>

    function State(): Tables
      reads this
    {
      Tables(rows, revoked)
    }

    constructor ()
      ensures State() == Tables(map[], map[])
    {
      rows, revoked := map[], map[];
    }

    method StoreRefreshToken(token: Token, fault: Fault) returns (ok: bool)
      modifies this
      ensures var (after, stored) := PgStore(old(State()), token);
              && State() == (if fault == FailsBefore then old(State()) else after)
              && ok == (fault == Works && stored)
    {
      if fault == FailsBefore || token.id in rows {
        return false;
      }
      rows := rows[token.id := RowOf(token)];
      return fault == Works;
    }

    method RevokeToken(token: Token, fault: Fault) returns (ok: bool)
      modifies this
      ensures State() == (if fault == FailsBefore then old(State()) else PgRevoke(old(State()), token))
      ensures ok == (fault == Works)
    {
      if fault != FailsBefore && token.id !in revoked {
        revoked := revoked[token.id := ExpiryTick(token)];
      }
      return fault == Works;
    }

    method ConsumeRefreshToken(token: Token, now: int, fault: Fault) returns (ok: bool)
      modifies this
      ensures var (after, consumed) := PgConsume(old(State()), token, now);
              && State() == (if fault == FailsBefore then old(State()) else after)
              && ok == (fault == Works && consumed)
    {
      if fault == FailsBefore || !Matches(rows, token, now) {
        return false;
      }
      rows := rows[token.id := rows[token.id].(revoked := true)];
      if token.id !in revoked {
        revoked := revoked[token.id := ExpiryTick(token)];
      }
      return fault == Works;
    }

    method RotateRefreshToken(before: Token, after: Token, now: int, fault: Fault) returns (ok: bool)
      modifies this
      ensures var (rotatedTables, rotated) := PgRotate(old(State()), before, after, now);
              && State() == (if fault == FailsBefore then old(State()) else rotatedTables)
              && ok == (fault == Works && rotated)
    {
      if fault == FailsBefore {
        return false;
      }
      var savedRows, savedRevoked := rows, revoked;
      var consumed := ConsumeRefreshToken(before, now, Works);
      if !consumed {
        return false;
      }
      var inserted := StoreRefreshToken(after, Works);
      if !inserted {
        rows, revoked := savedRows, savedRevoked;
        return false;
      }
      return fault == Works;
    }

    method CleanupExpired(before: int)
      modifies this
      ensures State() == PgCleanup(old(State()), before)
      ensures forall id :: id in rows <==> id in old(rows) && old(rows)[id].expiry > before
      ensures forall id :: id in revoked <==> id in old(revoked) && old(revoked)[id] > before
      ensures (forall id :: id in rows ==> rows[id] == old(rows)[id]) && forall id :: id in revoked ==> revoked[id] == old(revoked)[id]
    {
      revoked := map id | id in revoked && revoked[id] > before :: revoked[id];
      rows := map id | id in rows && rows[id].expiry > before :: rows[id];
    }
  }

  class RedisStore {
    var rows: map<string, (Row, int)>
    var revoked: map<string, int>

    function State(): Keys
      reads this
    {
      Keys(rows, revoked)
    }

    constructor ()
      ensures State() == Keys(map[], map[])
    {
      rows, revoked := map[], map[];
    }

    method StoreRefreshToken(token: Token, now: int, fault: Fault) returns (ok: bool)
      modifies this
      ensures State() == (if fault == FailsBefore then old(State()) else RdStore(old(State()), token, now))
      ensures ok == (fault == Works)
    {
      if fault != FailsBefore {
        rows := rows[token.id := (RowOf(token), KeyExpiry(ExpiryTick(token), now))];
      }
      return fault == Works;
    }

    method RevokeToken(token: Token, now: int, fault: Fault) returns (ok: bool)
      modifies this
      ensures State() == (if fault == FailsBefore then old(State()) else RdRevoke(old(State()), token, now))
      ensures ok == (fault == Works)
    {
      if fault != FailsBefore {
        revoked := revoked[token.id := KeyExpiry(ExpiryTick(token), now)];
      }
      return fault == Works;
    }

    method ConsumeRefreshToken(token: Token, now: int, fault: Fault) returns (ok: bool)
      modifies this
      ensures var (after, consumed) := RdConsume(old(State()), token, now);
              && State() == (if fault == FailsBefore then old(State()) else after)
              && ok == (fault == Works && consumed)
    {
      if fault == FailsBefore || (token.id in revoked && revoked[token.id] > now) {
        return false;
      }
      revoked := revoked[token.id := KeyExpiry(ExpiryTick(token), now)];
      if token.id !in rows || rows[token.id].1 <= now {
        return false;
      }
      var row := rows[token.id].0;
      if row.revoked || row.subject != token.subject || row.session != token.session || row.expiry <= now {
        return false;
      }
      rows := rows[token.id := (row.(revoked := true), KeyExpiry(row.expiry, now))];
      return fault == Works;
    }

    method RotateRefreshToken(before: Token, after: Token, now: int, fault: Fault) returns (ok: bool)
      modifies this
      ensures var (rotatedKeys, rotated) := RdRotate(old(State()), before, after, now);
              && State() == (if fault == FailsBefore then old(State()) else rotatedKeys)
              && ok == (fault == Works && rotated)
    {
      if fault == FailsBefore || (before.id in revoked && revoked[before.id] > now)
         || before.id !in rows || rows[before.id].1 <= now {
        return false;
      }
      var row := rows[before.id].0;
      if row.revoked || row.subject != before.subject || row.session != before.session || row.expiry <= now {
        return false;
      }
      revoked := revoked[before.id := KeyExpiry(ExpiryTick(before), now)];
      rows := rows[before.id := (row.(revoked := true), KeyExpiry(ExpiryTick(before), now))];
      rows := rows[after.id := (RowOf(after), KeyExpiry(ExpiryTick(after), now))];
      return fault == Works;
    }
  }

  // ---- The failover store ----------------------------------------------------------------------------------

  /** The answer of one store to a boolean question; an absent store gives none. */
  datatype Reply = Absent | Failed | Says(value: bool)

  /** What readBool concludes: any store that says true decides; otherwise a failure anywhere is reported. */
  function ReadReplies(replies: seq<Reply>): Reply {
    if Says(true) in replies then Says(true)
    else if Failed in replies then Failed
    else Says(false)
  }

  method ReadBool(replies: seq<Reply>) returns (r: Reply)
    ensures r == ReadReplies(replies)
    ensures r == Says(true) <==> Says(true) in replies
    ensures r == Says(false) <==> forall reply :: reply in replies ==> reply == Says(false) || reply == Absent
  {
    var failed := false;
    for i := 0 to |replies|
      invariant Says(true) !in replies[..i]
      invariant failed <==> Failed in replies[..i]
    {
      match replies[i] {
        case Absent =>
        case Failed => failed := true;
        case Says(value) =>
          if value {
            return Says(true);
          }
      }
    }
    assert replies[..|replies|] == replies;
    assert !failed ==> forall reply :: reply in replies ==> reply == Says(false) || reply == Absent;
    return if failed then Failed else Says(false);
  }

  /** callAll's verdict on the stores that exist: it reports a failure if any of them failed. */
  method CallAll(results: seq<Option<bool>>) returns (ok: bool)
    ensures ok <==> Some(false) !in results
  {
    ok := true;
    for i := 0 to |results|
      invariant ok <==> Some(false) !in results[..i]
    {
      if results[i] == Some(false) {
        ok := false;
      }
    }
    assert results[..|results|] == results;
  }

  class FailoverStore {
    const primary: RedisStore?
    const fallback: PostgresStore?

    constructor (primary: RedisStore?, fallback: PostgresStore?)
      ensures this.primary == primary && this.fallback == fallback
    {
      this.primary := primary;
      this.fallback := fallback;
    }

    /** The authoritative store, Postgres if there is one, decides alone; whatever the other one does, its answer
        is dropped. */
    method RotateRefreshToken(before: Token, after: Token, now: int, pgFault: Fault, rdFault: Fault) returns (ok: bool)
      modifies primary, fallback
      ensures fallback != null ==>
                var (tables, rotated) := PgRotate(old(fallback.State()), before, after, now);
                && fallback.State() == (if pgFault == FailsBefore then old(fallback.State()) else tables)
                && ok == (pgFault == Works && rotated)
      ensures primary != null ==>
                var (keys, rotated) := RdRotate(old(primary.State()), before, after, now);
                && (primary.State() == if rdFault == FailsBefore || (fallback != null && !ok) then old(primary.State()) else keys)
                && (fallback == null ==> ok == (rdFault == Works && rotated))
      ensures fallback == null && primary == null ==> ok
    {
      if fallback == null {
        if primary == null {
          return true;
        }
        ok := primary.RotateRefreshToken(before, after, now, rdFault);
        return;
      }
      ok := fallback.RotateRefreshToken(before, after, now, pgFault);
      if !ok {
        return;
      }
      if primary != null {
        var _ := primary.RotateRefreshToken(before, after, now, rdFault);
      }
    }

    method ConsumeRefreshToken(token: Token, now: int, pgFault: Fault, rdFault: Fault) returns (ok: bool)
      modifies primary, fallback
      ensures fallback != null ==>
                var (tables, consumed) := PgConsume(old(fallback.State()), token, now);
                && fallback.State() == (if pgFault == FailsBefore then old(fallback.State()) else tables)
                && ok == (pgFault == Works && consumed)
      ensures primary != null ==>
                var (keys, consumed) := RdConsume(old(primary.State()), token, now);
                && (primary.State() == if rdFault == FailsBefore || (fallback != null && !ok) then old(primary.State()) else keys)
                && (fallback == null ==> ok == (rdFault == Works && consumed))
      ensures fallback == null && primary == null ==> ok
    {
      if fallback == null {
        if primary == null {
          return true;
        }
        ok := primary.ConsumeRefreshToken(token, now, rdFault);
        return;
      }
      ok := fallback.ConsumeRefreshToken(token, now, pgFault);
      if !ok {
        return;
      }
      if primary != null {
        var _ := primary.ConsumeRefreshToken(token, now, rdFault);
      }
    }

    /** Both stores are asked to record the revocation; one success does not hide the other's failure. */
    method RevokeToken(token: Token, now: int, pgFault: Fault, rdFault: Fault) returns (ok: bool)
      modifies primary, fallback
      ensures primary != null && rdFault != FailsBefore ==> primary.State() == RdRevoke(old(primary.State()), token, now)
      ensures primary != null && rdFault == FailsBefore ==> primary.State() == old(primary.State())
      ensures fallback != null && pgFault != FailsBefore ==> fallback.State() == PgRevoke(old(fallback.State()), token)
      ensures fallback != null && pgFault == FailsBefore ==> fallback.State() == old(fallback.State())
      ensures ok <==> (primary == null || rdFault == Works) && (fallback == null || pgFault == Works)
    {
      var results: seq<Option<bool>> := [None, None];
      if primary != null {
        var done := primary.RevokeToken(token, now, rdFault);
        results := results[0 := Some(done)];
      }
      if fallback != null {
        var done := fallback.RevokeToken(token, pgFault);
        results := results[1 := Some(done)];
      }
      assert results[0] == Some(false) <==> primary != null && rdFault != Works;
      assert results[1] == Some(false) <==> fallback != null && pgFault != Works;
      ok := CallAll(results);
    }

    /** What the two stores together know about a token when each call ends as given. */
    function Answer(id: string, now: int, pgFault: Fault, rdFault: Fault): Reply
      reads this, primary, fallback
    {
      ReadReplies([
        if primary == null then Absent else if rdFault != Works then Failed else Says(RdIsRevoked(primary.State(), id, now)),
        if fallback == null then Absent else if pgFault != Works then Failed else Says(PgIsRevoked(fallback.State(), id, now))])
    }

    method IsTokenRevoked(id: string, now: int, pgFault: Fault, rdFault: Fault) returns (r: Reply)
      ensures r == Answer(id, now, pgFault, rdFault)
    {
      var rd := if primary == null then Absent else if rdFault != Works then Failed
                else Says(id in primary.revoked && primary.revoked[id] > now);
      var pg := if fallback == null then Absent else if pgFault != Works then Failed
                else Says(id in fallback.revoked && fallback.revoked[id] > now);
      r := ReadBool([rd, pg]);
    }
  }

  /** verifyToken after the signature has been checked: `wanted` restricts the kind when present, `now` is the
      manager's clock reading and `revoked` and `sessionRevoked` the failover store's answers. */
  predicate Accepts(token: Token, wanted: Option<bool>, now: int, revoked: Reply, sessionRevoked: Reply) {
    && (wanted == None || wanted.value == token.refresh)
    && token.subject != "" && token.id != "" && token.session != "" && token.exp > now / TicksPerSecond
    && revoked == Says(false) && sessionRevoked == Says(false)
  }

  class TokenManager {
    const store: FailoverStore

    constructor (store: FailoverStore)
      ensures this.store == store
    {
      this.store := store;
    }

    method VerifyToken(decoded: Option<Token>, wanted: Option<bool>, now: int, later: int,
                       pgFault: Fault, rdFault: Fault, sessionRevoked: Reply) returns (accepted: bool)
      ensures accepted <==>
                (&& decoded.Some?
                 && Accepts(decoded.value, wanted, now, store.Answer(decoded.value.id, later, pgFault, rdFault), sessionRevoked))
      ensures accepted <==>
                (&& decoded.Some?
                 && var token := decoded.value;
                 && (wanted == None || wanted == Some(token.refresh))
                 && token.subject != "" && token.id != "" && token.session != "" && now < token.exp * TicksPerSecond
                 && sessionRevoked == Says(false)
                 && (store.primary != null ==>
                       rdFault == Works && !(token.id in store.primary.revoked && store.primary.revoked[token.id] > later))
                 && (store.fallback != null ==>
                       pgFault == Works && !(token.id in store.fallback.revoked && store.fallback.revoked[token.id] > later)))
    {
      if decoded == None {
        return false;
      }
      var token := decoded.value;
      if wanted != None && wanted.value != token.refresh {
        return false;
      }
      if token.subject == "" || token.id == "" || token.session == "" || token.exp <= now / TicksPerSecond {
        return false;
      }
      var revoked := store.IsTokenRevoked(token.id, later, pgFault, rdFault);
      if revoked != Says(false) {
        return false;
      }
      return sessionRevoked == Says(false);
    }

    /** A refresh succeeds only for an accepted token whose rotation in the authoritative store commits; the
        new token stays in the old one's session. */
    method RefreshToken(decoded: Option<Token>, newID: string, newExp: int, now: int, later: int, readFaults: (Fault, Fault),
                        pgFault: Fault, rdFault: Fault, sessionRevoked: Reply) returns (minted: Option<Token>)
      modifies store.primary, store.fallback
      ensures minted.Some? <==>
                && decoded.Some?
                && Accepts(decoded.value, Some(true), now,
                           old(store.Answer(decoded.value.id, later, readFaults.0, readFaults.1)), sessionRevoked)
                && var after := Token(newID, decoded.value.session, decoded.value.subject, newExp, true);
                   if store.fallback != null then
                     pgFault == Works && PgRotate(old(store.fallback.State()), decoded.value, after, later).1
                   else if store.primary != null then
                     rdFault == Works && RdRotate(old(store.primary.State()), decoded.value, after, later).1
                   else true
      ensures minted.Some? ==>
                minted.value == Token(newID, decoded.value.session, decoded.value.subject, newExp, true)
      ensures minted.Some? && store.fallback != null ==>
                PgRotate(old(store.fallback.State()), decoded.value, minted.value, later) == (store.fallback.State(), true)
      ensures minted.Some? && store.fallback == null && store.primary != null ==>
                RdRotate(old(store.primary.State()), decoded.value, minted.value, later) == (store.primary.State(), true)
      ensures store.fallback != null && minted.None? && pgFault != FailsAfter ==> store.fallback.State() == old(store.fallback.State())
    {
      var accepted := VerifyToken(decoded, Some(true), now, later, readFaults.0, readFaults.1, sessionRevoked);
      if !accepted {
        return None;
      }
      var token := decoded.value;
      var after := Token(newID, token.session, token.subject, newExp, true);
      var rotated := store.RotateRefreshToken(token, after, later, pgFault, rdFault);
      return if rotated then Some(after) else None;
    }
  }
}
