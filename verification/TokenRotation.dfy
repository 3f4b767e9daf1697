/** Refresh-token rotation and token revocation over the two stores of AuthStores, under any interleaving of
    requests, any failures of either store, expiry and cleanup. */
module TokenRotation {
  import opened AuthStores

  /** `issued` maps every id ever minted to its token; `unstored` are first tokens of new sessions whose row
      has not been inserted yet; `rotations` are the committed rotations, oldest first. */
  datatype State = State(
    clock: int, pg: Tables, rd: Keys, issued: map<string, Token>, unstored: set<string>, rotations: seq<(string, string)>)

  datatype Event =
    | Tick(to: int)
    | Mint(token: Token)                              // a fresh session's first token, or an access token
    | StorePg(id: string)
    | StoreRd(id: string)
    | RotatePg(id: string, newID: string, newExp: int)
    | RotateRd(id: string, after: Token)
    | ConsumePg(id: string)
    | ClaimRd(id: string)                             // the two writes of a consumption in Redis; the row
    | SpendRd(id: string, row: Row)                   // written back is one that was read in between
    | RevokePg(id: string)
    | RevokeRd(id: string)
    | Cleanup(before: int)
    | ExpireRow(id: string)
    | ExpireRevoked(id: string)

  function Rotated(before: Token, newID: string, newExp: int): Token {
    Token(newID, before.session, before.subject, newExp, true)
  }

  /** Ids and session ids are fresh; the first row of a session is stored at most once; cleanup uses a past
      clock reading; Redis drops a key only at or after its expiry. */
  predicate Allowed(s: State, e: Event) {
    match e
    case Tick(to) => s.clock <= to
    case Mint(token) =>
      && token.id !in s.issued
      && (token.refresh ==> forall id :: id in s.issued ==> s.issued[id].session != token.session)
    case StorePg(id) => id in s.unstored
    case StoreRd(id) => id in s.issued
    case RotatePg(id, newID, _) => id in s.issued && newID !in s.issued
    case RotateRd(id, after) => id in s.issued
    case ConsumePg(id) => id in s.issued
    case ClaimRd(id) => id in s.issued
    case SpendRd(id, _) => id in s.issued
    case RevokePg(id) => id in s.issued
    case RevokeRd(id) => id in s.issued
    case Cleanup(before) => before <= s.clock
    case ExpireRow(id) => id in s.rd.rows && s.rd.rows[id].1 <= s.clock
    case ExpireRevoked(id) => id in s.rd.revoked && s.rd.revoked[id] <= s.clock
  }

  /** Each event is one atomic action of one store. A call that fails before its effect is no event at all;
      one that fails afterwards is the same event as one that succeeds. */
  function Next(s: State, e: Event): State
    requires Allowed(s, e)
  {
    match e
    case Tick(to) => s.(clock := to)
    case Mint(token) =>
      s.(issued := s.issued[token.id := token], unstored := if token.refresh then s.unstored + {token.id} else s.unstored)
    case StorePg(id) =>
      if id in s.issued then s.(pg := PgStore(s.pg, s.issued[id]).0, unstored := s.unstored - {id})
      else s
    case StoreRd(id) => s.(rd := RdStore(s.rd, s.issued[id], s.clock))
    case RotatePg(id, newID, newExp) =>
      var after := Rotated(s.issued[id], newID, newExp);
      var (pg, ok) := PgRotate(s.pg, s.issued[id], after, s.clock);
      s.(pg := pg, issued := s.issued[newID := after], rotations := if ok then s.rotations + [(id, newID)] else s.rotations)
    case RotateRd(id, after) => s.(rd := RdRotate(s.rd, s.issued[id], after, s.clock).0)
    case ConsumePg(id) => s.(pg := PgConsume(s.pg, s.issued[id], s.clock).0)
    case ClaimRd(id) => s.(rd := RdClaim(s.rd, s.issued[id], s.clock).0)
    case SpendRd(id, row) => s.(rd := RdSpend(s.rd, id, row, s.clock))
    case RevokePg(id) => s.(pg := PgRevoke(s.pg, s.issued[id]))
    case RevokeRd(id) => s.(rd := RdRevoke(s.rd, s.issued[id], s.clock))
    case Cleanup(before) => s.(pg := PgCleanup(s.pg, before))
    case ExpireRow(id) => s.(rd := s.rd.(rows := s.rd.rows - {id}))
    case ExpireRevoked(id) => s.(rd := s.rd.(revoked := s.rd.revoked - {id}))
  }

  const Start := State(0, Tables(map[], map[]), Keys(map[], map[]), map[], {}, [])

  ghost predicate Behavior(states: seq<State>, events: seq<Event>) {
    && |states| == |events| + 1 && states[0] == Start
    && forall i :: 0 <= i < |events| ==> Allowed(states[i], events[i]) && states[i + 1] == Next(states[i], events[i])
  }

  // ---- Rotation --------------------------------------------------------------------------------------

  /** A row that a rotation could still use. */
  predicate Unrevoked(s: State, id: string) {
    id in s.pg.rows && !s.pg.rows[id].revoked
  }

  predicate Usable(s: State, id: string) {
    id in s.issued && (Unrevoked(s, id) || id in s.unstored)
  }

  predicate Genuine(s: State) {
    && (forall id :: id in s.issued ==> s.issued[id].id == id)
    && (forall id :: id in s.pg.rows ==>
          id in s.issued && id !in s.unstored
          && s.pg.rows[id].(revoked := false) == RowOf(s.issued[id]) && s.issued[id].refresh)
    && (forall id :: id in s.unstored ==> id in s.issued && s.issued[id].refresh)
  }

  /** One usable refresh token per session: a first token still to be stored, or one unrevoked row. */
  ghost predicate OnePerSession(s: State) {
    forall a, b :: Usable(s, a) && Usable(s, b) && s.issued[a].session == s.issued[b].session ==> a == b
  }

  /** A rotated token is spent for good, and nothing was rotated twice, nor two tokens into one. */
  predicate RotatedOnce(s: State) {
    && (forall i :: 0 <= i < |s.rotations| ==>
          && s.rotations[i].0 in s.issued && s.rotations[i].1 in s.issued && s.rotations[i].0 !in s.unstored
          && !Unrevoked(s, s.rotations[i].0)
          && s.issued[s.rotations[i].0].session == s.issued[s.rotations[i].1].session)
    && (forall i, j :: 0 <= i < j < |s.rotations| ==>
          s.rotations[i].0 != s.rotations[j].0 && s.rotations[i].1 != s.rotations[j].1)
  }

  ghost predicate RotationInv(s: State) {
    Genuine(s) && OnePerSession(s) && RotatedOnce(s)
  }

  /** What a committed rotation does to the rows. */
  lemma CommittedRotation(t: Tables, before: Token, after: Token, now: int)
    requires PgRotate(t, before, after, now).1
    ensures before.id in t.rows && !t.rows[before.id].revoked && t.rows[before.id].session == before.session
    ensures after.id != before.id && after.id !in t.rows
    ensures PgRotate(t, before, after, now).0.rows
         == t.rows[before.id := t.rows[before.id].(revoked := true)][after.id := RowOf(after)]
  {
  }

  lemma StepKeepsGenuine(s: State, e: Event)
    requires Genuine(s) && Allowed(s, e)
    ensures Genuine(Next(s, e))
  {
    if e.RotatePg? {
      var after := Rotated(s.issued[e.id], e.newID, e.newExp);
      if PgRotate(s.pg, s.issued[e.id], after, s.clock).1 {
        CommittedRotation(s.pg, s.issued[e.id], after, s.clock);
      }
    }
  }

  lemma StepKeepsOnePerSession(s: State, e: Event)
    requires Genuine(s) && OnePerSession(s) && Allowed(s, e)
    ensures OnePerSession(Next(s, e))
  {
    var t := Next(s, e);
    match e
    case RotatePg(id, newID, newExp) =>
      var after := Rotated(s.issued[id], newID, newExp);
      if PgRotate(s.pg, s.issued[id], after, s.clock).1 {
        CommittedRotation(s.pg, s.issued[id], after, s.clock);
        assert Usable(s, id);
        assert forall x :: Usable(t, x) ==> x == newID || (Usable(s, x) && x != id);
      } else {
        assert forall x :: Usable(t, x) ==> Usable(s, x);
      }
    case Mint(token) =>
      assert forall x :: Usable(t, x) ==> Usable(s, x) || (token.refresh && x == token.id);
    case _ =>
      assert forall x :: Usable(t, x) ==> Usable(s, x);
  }

  lemma RotationKeepsRotatedOnce(s: State, e: Event)
    requires Genuine(s) && RotatedOnce(s) && e.RotatePg? && Allowed(s, e)
    ensures RotatedOnce(Next(s, e))
  {
    var t := Next(s, e);
    var after := Rotated(s.issued[e.id], e.newID, e.newExp);
    if PgRotate(s.pg, s.issued[e.id], after, s.clock).1 {
      CommittedRotation(s.pg, s.issued[e.id], after, s.clock);
      hide PgRotate;
      assert Unrevoked(s, e.id);
      assert forall x :: Unrevoked(t, x) ==> x == e.newID || Unrevoked(s, x);
    } else {
      assert t.pg == s.pg;
    }
  }

  lemma StepKeepsRotatedOnce(s: State, e: Event)
    requires Genuine(s) && RotatedOnce(s) && Allowed(s, e)
    ensures RotatedOnce(Next(s, e))
  {
    var t := Next(s, e);
    match e
    case RotatePg(_, _, _) =>
      RotationKeepsRotatedOnce(s, e);
    case StorePg(id) =>
      assert forall x :: Unrevoked(t, x) ==> Unrevoked(s, x) || x in s.unstored;
    case _ =>
      assert forall x :: Unrevoked(t, x) ==> Unrevoked(s, x);
  }

  lemma StepKeepsRotationInv(s: State, e: Event)
    requires RotationInv(s) && Allowed(s, e)
    ensures RotationInv(Next(s, e))
  {
    StepKeepsGenuine(s, e);
    StepKeepsOnePerSession(s, e);
    StepKeepsRotatedOnce(s, e);
  }

  lemma {:induction false} RunKeepsRotationInv(states: seq<State>, events: seq<Event>, i: nat)
    requires Behavior(states, events) && i < |states|
    ensures RotationInv(states[i])
  {
    if i > 0 {
      RunKeepsRotationInv(states, events, i - 1);
      StepKeepsRotationInv(states[i - 1], events[i - 1]);
    }
  }

  /** Each refresh token has at most one committed rotation, in every run and whatever the best-effort replica
      does. */
  lemma AtMostOneRotation(states: seq<State>, events: seq<Event>, i: nat, a: nat, b: nat)
    requires Behavior(states, events) && i < |states|
    requires a < |states[i].rotations| && b < |states[i].rotations| && states[i].rotations[a].0 == states[i].rotations[b].0
    ensures a == b
  {
    RunKeepsRotationInv(states, events, i);
  }

  /** Every session has at most one unrevoked refresh record in the authoritative store. */
  lemma OneUnrevokedRecordPerSession(states: seq<State>, events: seq<Event>, i: nat, a: string, b: string)
    requires Behavior(states, events) && i < |states|
    requires Unrevoked(states[i], a) && Unrevoked(states[i], b)
    requires states[i].pg.rows[a].session == states[i].pg.rows[b].session
    ensures a == b
  {
    RunKeepsRotationInv(states, events, i);
  }

  /** The first token of a session can be stored once its session is minted, and then counts. */
  lemma FirstTokenIsStored(states: seq<State>, events: seq<Event>, i: nat, id: string)
    requires Behavior(states, events) && i < |states| && id in states[i].unstored
    ensures id in states[i].issued && PgStore(states[i].pg, states[i].issued[id]).1
    ensures var t := Next(states[i], StorePg(id)); Unrevoked(t, id) && t.pg.rows[id] == RowOf(t.issued[id])
  {
    RunKeepsRotationInv(states, events, i);
  }

  /** In every run, a refresh token whose row is stored and unrevoked can be rotated, into any fresh id, whenever a
      verification accepts it; the new token's row then is the unrevoked one. */
  lemma AcceptedTokenRotates(states: seq<State>, events: seq<Event>, i: nat, id: string, newID: string, newExp: int,
                             revoked: Reply, sessionRevoked: Reply)
    requires Behavior(states, events) && i < |states| && Unrevoked(states[i], id) && newID !in states[i].issued
    requires id in states[i].issued && Accepts(states[i].issued[id], Some(true), states[i].clock, revoked, sessionRevoked)
    ensures Allowed(states[i], RotatePg(id, newID, newExp))
    ensures var t := Next(states[i], RotatePg(id, newID, newExp));
            && t.rotations == states[i].rotations + [(id, newID)]
            && Unrevoked(t, newID) && !Unrevoked(t, id) && RecordedIn(t, id, true)
            && t.issued[newID].session == states[i].issued[id].session && t.issued[newID].subject == states[i].issued[id].subject
  {
    hide PgRotate;
    var s := states[i];
    var token := s.issued[id];
    RunKeepsRotationInv(states, events, i);
    SameSecond(token, s.clock);
    PgRotatesExactly(s.pg, token, Rotated(token, newID, newExp), s.clock);
    assert s.pg.rows[id].(revoked := false) == RowOf(token);
  }

  // ---- Revocation --------------------------------------------------------------------------------------

  /** Every stored revocation lasts at least until its token expires. */
  predicate RevocationsLast(s: State) {
    && (forall id :: id in s.pg.revoked ==> id in s.issued && s.pg.revoked[id] == ExpiryTick(s.issued[id]))
    && (forall id :: id in s.rd.revoked ==> id in s.issued && s.rd.revoked[id] >= ExpiryTick(s.issued[id]))
    && (forall id :: id in s.issued ==> s.issued[id].id == id)
  }

  predicate RecordedIn(s: State, id: string, inPg: bool) {
    if inPg then id in s.pg.revoked else id in s.rd.revoked
  }

  /** What one step can do to the revocations: add one for an issued token that lasts until that token
      expires, or drop some that have run out. */
  lemma RevocationsAfterStep(s: State, e: Event)
    requires Allowed(s, e) && forall id :: id in s.issued ==> s.issued[id].id == id
    ensures var t := Next(s, e);
            && (forall id :: id in s.issued ==> id in t.issued && t.issued[id] == s.issued[id])
            && (forall id :: id in t.pg.revoked ==>
                  (id in s.pg.revoked && t.pg.revoked[id] == s.pg.revoked[id])
                  || (id in s.issued && t.pg.revoked[id] == ExpiryTick(s.issued[id])))
            && (forall id :: id in t.rd.revoked ==>
                  (id in s.rd.revoked && t.rd.revoked[id] == s.rd.revoked[id])
                  || (id in s.issued && t.rd.revoked[id] >= ExpiryTick(s.issued[id])))
            && (forall id :: id in s.pg.revoked && id !in t.pg.revoked ==> s.pg.revoked[id] <= t.clock)
            && (forall id :: id in s.rd.revoked && id !in t.rd.revoked ==> s.rd.revoked[id] <= t.clock)
  {
  }

  lemma StepKeepsRevocationsLast(s: State, e: Event)
    requires RevocationsLast(s) && Allowed(s, e)
    ensures RevocationsLast(Next(s, e))
  {
    RevocationsAfterStep(s, e);
  }

  lemma {:induction false} RunKeepsRevocationsLast(states: seq<State>, events: seq<Event>, i: nat)
    requires Behavior(states, events) && i < |states|
    ensures RevocationsLast(states[i])
  {
    if i > 0 {
      RunKeepsRevocationsLast(states, events, i - 1);
      StepKeepsRevocationsLast(states[i - 1], events[i - 1]);
    }
  }

  /** One step keeps a recorded revocation, unless its token has expired by then. */
  lemma StepKeepsRecord(s: State, e: Event, token: Token, inPg: bool)
    requires RevocationsLast(s) && Allowed(s, e) && token.id in s.issued && s.issued[token.id] == token
    requires RecordedIn(s, token.id, inPg) || s.clock >= ExpiryTick(token)
    ensures var t := Next(s, e);
            && token.id in t.issued && t.issued[token.id] == token
            && (RecordedIn(t, token.id, inPg) || t.clock >= ExpiryTick(token))
  {
    RevocationsAfterStep(s, e);
    assert Next(s, e).clock >= s.clock;
  }

  /** A revocation recorded in either store is still there, or its token has expired, at every later state. */
  lemma {:induction false} RecordStays(states: seq<State>, events: seq<Event>, i: nat, j: nat, id: string, inPg: bool)
    requires Behavior(states, events) && i <= j < |states| && RecordedIn(states[i], id, inPg)
    ensures id in states[j].issued && id in states[i].issued && states[j].issued[id] == states[i].issued[id]
    ensures RecordedIn(states[j], id, inPg) || states[j].clock >= ExpiryTick(states[j].issued[id])
  {
    RunKeepsRevocationsLast(states, events, i);
    if i < j {
      RecordStays(states, events, i, j - 1, id, inPg);
      RunKeepsRevocationsLast(states, events, j - 1);
      StepKeepsRecord(states[j - 1], events[j - 1], states[i].issued[id], inPg);
    }
  }

  lemma {:induction false} ClockNeverGoesBack(states: seq<State>, events: seq<Event>, i: nat, j: nat)
    requires Behavior(states, events) && i <= j < |states|
    ensures states[i].clock <= states[j].clock
  {
    if i < j {
      ClockNeverGoesBack(states, events, i, j - 1);
    }
  }

  function RdReply(s: State, id: string, fails: bool): Reply {
    if fails then Failed else Says(RdIsRevoked(s.rd, id, s.clock))
  }

  function PgReply(s: State, id: string, fails: bool): Reply {
    if fails then Failed else Says(PgIsRevoked(s.pg, id, s.clock))
  }

  /** What Redis says about a token whose revocation it recorded: nothing only once the token has expired. */
  lemma RedisForgetsAfterExpiry(states: seq<State>, events: seq<Event>, i: nat, j: nat, id: string)
    requires Behavior(states, events) && i <= j < |states| && id in states[i].issued
    requires RecordedIn(states[i], id, false) && !RdIsRevoked(states[j].rd, id, states[j].clock)
    ensures ExpiryTick(states[i].issued[id]) <= states[j].clock
  {
    RecordStays(states, events, i, j, id, false);
    RunKeepsRevocationsLast(states, events, j);
  }

  /** What Postgres says about a token whose revocation it recorded: yes exactly until the token expires. */
  lemma PostgresAnswersUntilExpiry(states: seq<State>, events: seq<Event>, i: nat, j: nat, id: string)
    requires Behavior(states, events) && i <= j < |states| && id in states[i].issued && RecordedIn(states[i], id, true)
    ensures PgIsRevoked(states[j].pg, id, states[j].clock) <==> states[j].clock < ExpiryTick(states[i].issued[id])
  {
    RecordStays(states, events, i, j, id, true);
    RunKeepsRevocationsLast(states, events, j);
  }

  /** What a verification checks besides revocations and expiry. */
  predicate WellFormed(token: Token, wanted: Option<bool>) {
    (wanted == None || wanted.value == token.refresh) && token.subject != "" && token.id != "" && token.session != ""
  }

  lemma BothSayNo(rd: Reply, pg: Reply)
    requires rd != Absent && pg != Absent
    ensures ReadReplies([rd, pg]) == Says(false) <==> rd == Says(false) && pg == Says(false)
  {
    var replies := [rd, pg];
    assert rd in replies && pg in replies;
    assert forall r :: r in replies ==> r == rd || r == pg;
  }

  /** Once Postgres has recorded a token's revocation, a verification that starts later, reads its clock at `a`,
      Redis at `b` and Postgres at `c`, and whose reads may fail, accepts the token exactly when everything else
      about it is right, no read fails, Redis does not report it, and the token expires between the
      verification's own clock reading and Postgres's. */
  lemma AcceptedIffAcrossExpiry(states: seq<State>, events: seq<Event>, i: nat, a: nat, b: nat, c: nat, id: string,
                                rdFails: bool, pgFails: bool, wanted: Option<bool>, sessionRevoked: Reply)
    requires Behavior(states, events) && i <= a <= b <= c < |states| && RecordedIn(states[i], id, true)
    requires id in states[i].issued
    ensures Accepts(states[i].issued[id], wanted, states[a].clock,
                    ReadReplies([RdReply(states[b], id, rdFails), PgReply(states[c], id, pgFails)]), sessionRevoked)
            <==> (&& WellFormed(states[i].issued[id], wanted) && sessionRevoked == Says(false) && !rdFails && !pgFails
                  && !RdIsRevoked(states[b].rd, id, states[b].clock)
                  && states[a].clock < ExpiryTick(states[i].issued[id]) <= states[c].clock)
  {
    hide ExpiryTick, Behavior, PgIsRevoked, RdIsRevoked, ReadReplies, RecordedIn;
    SameSecond(states[i].issued[id], states[a].clock);
    PostgresAnswersUntilExpiry(states, events, i, c, id);
    BothSayNo(RdReply(states[b], id, rdFails), PgReply(states[c], id, pgFails));
  }

  /** For a record in either store: acceptance means that no read failed and that the token expired between the
      verification's clock reading and that store's. */
  lemma AcceptedOnlyAcrossExpiry(states: seq<State>, events: seq<Event>, i: nat, a: nat, b: nat, c: nat, id: string,
                                 inPg: bool, rdFails: bool, pgFails: bool, wanted: Option<bool>, sessionRevoked: Reply)
    requires Behavior(states, events) && i <= a <= b <= c < |states| && RecordedIn(states[i], id, inPg)
    requires id in states[i].issued
    requires Accepts(states[i].issued[id], wanted, states[a].clock,
                     ReadReplies([RdReply(states[b], id, rdFails), PgReply(states[c], id, pgFails)]), sessionRevoked)
    ensures states[a].clock < ExpiryTick(states[i].issued[id]) <= states[if inPg then c else b].clock
    ensures !rdFails && !pgFails
  {
    hide ExpiryTick, Behavior, PgIsRevoked, RdIsRevoked, ReadReplies, RecordedIn;
    SameSecond(states[i].issued[id], states[a].clock);
    BothSayNo(RdReply(states[b], id, rdFails), PgReply(states[c], id, pgFails));
    if inPg {
      PostgresAnswersUntilExpiry(states, events, i, c, id);
    } else {
      RedisForgetsAfterExpiry(states, events, i, b, id);
    }
  }

  /** With one clock reading per verification a revoked token is never accepted again, whatever store calls
      fail and whatever expired rows are cleaned up. */
  lemma NeverAcceptedAgain(states: seq<State>, events: seq<Event>, i: nat, j: nat, id: string, inPg: bool,
                           rdFails: bool, pgFails: bool, wanted: Option<bool>, sessionRevoked: Reply)
    requires Behavior(states, events) && i <= j < |states| && RecordedIn(states[i], id, inPg) && id in states[i].issued
    ensures !Accepts(states[i].issued[id], wanted, states[j].clock,
                     ReadReplies([RdReply(states[j], id, rdFails), PgReply(states[j], id, pgFails)]), sessionRevoked)
  {
    if Accepts(states[i].issued[id], wanted, states[j].clock,
               ReadReplies([RdReply(states[j], id, rdFails), PgReply(states[j], id, pgFails)]), sessionRevoked) {
      AcceptedOnlyAcrossExpiry(states, events, i, j, j, j, id, inPg, rdFails, pgFails, wanted, sessionRevoked);
      assert false;
    }
  }

  /** A committed rotation or consumption and a rotation that Redis carried out record the old token's revocation. */
  lemma RotationRecordsRevocation(s: State, e: Event)
    requires RotationInv(s) && Allowed(s, e)
    requires (e.RotatePg? && |Next(s, e).rotations| > |s.rotations|)
             || (e.RotateRd? && RdRotate(s.rd, s.issued[e.id], e.after, s.clock).1)
             || (e.ConsumePg? && PgConsume(s.pg, s.issued[e.id], s.clock).1)
             || (e.ClaimRd? && RdClaim(s.rd, s.issued[e.id], s.clock).1)
    ensures RecordedIn(Next(s, e), e.id, e.RotatePg? || e.ConsumePg?)
  {
  }

  /** The gap left by two clock readings is real: a revoked token is accepted when its expiry falls between the
      manager's reading and the store's. */
  lemma AcceptedAcrossExpiry(token: Token) returns (states: seq<State>, events: seq<Event>)
    requires token.id != "" && token.session != "" && token.subject != "" && token.exp > 0
    ensures Behavior(states, events) && |states| == 5
    ensures RecordedIn(states[2], token.id, true) && token.id in states[2].issued && states[2].issued[token.id] == token
    ensures Accepts(token, None, states[3].clock,
                    ReadReplies([RdReply(states[4], token.id, false), PgReply(states[4], token.id, false)]), Says(false))
  {
    events := [Mint(token), RevokePg(token.id), Tick(ExpiryTick(token) - 1), Tick(ExpiryTick(token))];
    var s1 := Next(Start, events[0]);
    var s2 := Next(s1, events[1]);
    var s3 := Next(s2, events[2]);
    var s4 := Next(s3, events[3]);
    states := [Start, s1, s2, s3, s4];
    SameSecond(token, s3.clock);
    var replies := [RdReply(s4, token.id, false), PgReply(s4, token.id, false)];
    assert replies[0] == Says(false) && replies[1] == Says(false);
  }
}
