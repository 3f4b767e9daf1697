/** The per-server circuit breaker of internal/module/agent/infrastructure/mcp/breaker.go. */
module CircuitBreakers {

  datatype BreakerState = Closed | Open | HalfOpen

  datatype Breaker = Breaker(state: BreakerState, consecutiveErr: nat, openedAt: int, halfOpenInFlight: bool)

  datatype Settings = Settings(threshold: int, cooldown: int)

  const DefaultThreshold := 5
  const DefaultCooldown := 30_000

  function WithDefaults(cfg: Settings): (r: Settings)
    ensures r.threshold > 0 && r.cooldown > 0
    ensures cfg.threshold > 0 ==> r.threshold == cfg.threshold
    ensures cfg.cooldown > 0 ==> r.cooldown == cfg.cooldown
    ensures cfg.threshold <= 0 ==> r.threshold == 5
    ensures cfg.cooldown <= 0 ==> r.cooldown == 30_000
  {
    Settings(if cfg.threshold <= 0 then DefaultThreshold else cfg.threshold,
             if cfg.cooldown <= 0 then DefaultCooldown else cfg.cooldown)
  }

  const Initial := Breaker(Closed, 0, 0, false)

  /** allow(), with the clock read under the lock. */
  function Allow(b: Breaker, cfg: Settings, now: int): (Breaker, bool) {
    match b.state
    case Closed => (b, true)
    case Open =>
      if now - b.openedAt < cfg.cooldown then (b, false)
      else (b.(state := HalfOpen, halfOpenInFlight := true), true)
    case HalfOpen =>
      if b.halfOpenInFlight then (b, false) else (b.(halfOpenInFlight := true), true)
  }

  /** record(success). */
  function Record(b: Breaker, cfg: Settings, success: bool, now: int): Breaker {
    match b.state
    case HalfOpen =>
      var cleared := b.(halfOpenInFlight := false);
      if success then cleared.(state := Closed, consecutiveErr := 0) else cleared.(state := Open, openedAt := now)
    case Closed =>
      if success then b.(consecutiveErr := 0)
      else if b.consecutiveErr + 1 >= cfg.threshold
      then b.(consecutiveErr := b.consecutiveErr + 1, state := Open, openedAt := now)
      else b.(consecutiveErr := b.consecutiveErr + 1)
    case Open => b
  }

  class CircuitBreaker {
    const threshold: int
    const cooldown: int
    var state: BreakerState
    var consecutiveErr: nat
    var openedAt: int
    var halfOpenInFlight: bool

    function Fields(): Breaker
      reads this
    {
      Breaker(state, consecutiveErr, openedAt, halfOpenInFlight)
    }

    function Config(): Settings {
      Settings(threshold, cooldown)
    }

    constructor (threshold: int, cooldown: int)
      ensures Fields() == Initial && Config() == WithDefaults(Settings(threshold, cooldown))
    {
      this.threshold := if threshold <= 0 then DefaultThreshold else threshold;
      this.cooldown := if cooldown <= 0 then DefaultCooldown else cooldown;
      state, consecutiveErr, openedAt, halfOpenInFlight := Closed, 0, 0, false;
    }

    method TryAllow(now: int) returns (ok: bool)
      modifies this
      ensures (Fields(), ok) == Allow(old(Fields()), Config(), now)
      ensures ok <==> old(state) == Closed || (old(state) == Open && now - old(openedAt) >= cooldown)
                      || (old(state) == HalfOpen && !old(halfOpenInFlight))
      ensures if ok && old(state) != Closed then state == HalfOpen && halfOpenInFlight
              else state == old(state) && halfOpenInFlight == old(halfOpenInFlight)
      ensures consecutiveErr == old(consecutiveErr) && openedAt == old(openedAt)
    {
      match state {
        case Closed =>
          return true;
        case Open =>
          if now - openedAt < cooldown {
            return false;
          }
          state := HalfOpen;
          halfOpenInFlight := true;
          return true;
        case HalfOpen =>
          if halfOpenInFlight {
            return false;
          }
          halfOpenInFlight := true;
          return true;
      }
    }

    method Report(success: bool, now: int)
      modifies this
      ensures Fields() == Record(old(Fields()), Config(), success, now)
      ensures old(state) == Open ==> Fields() == old(Fields())
      ensures old(state) != Open && success ==> state == Closed && consecutiveErr == 0 && openedAt == old(openedAt)
      ensures old(state) == HalfOpen && !success ==> state == Open && openedAt == now && consecutiveErr == old(consecutiveErr)
      ensures old(state) == Closed && !success ==>
                && consecutiveErr == old(consecutiveErr) + 1
                && (if consecutiveErr >= threshold then state == Open && openedAt == now
                    else state == Closed && openedAt == old(openedAt))
      ensures halfOpenInFlight == (old(state) != HalfOpen && old(halfOpenInFlight))
    {
      match state {
        case HalfOpen =>
          halfOpenInFlight := false;
          if success {
            state := Closed;
            consecutiveErr := 0;
          } else {
            state := Open;
            openedAt := now;
          }
        case Closed =>
          if success {
            consecutiveErr := 0;
            return;
          }
          consecutiveErr := consecutiveErr + 1;
          if consecutiveErr >= threshold {
            state := Open;
            openedAt := now;
          }
        case Open =>
      }
    }

    /** Whether allow would refuse because of the cooldown right now. */
    method IsOpen(now: int) returns (open: bool)
      ensures open <==> state == Open && now - openedAt < cooldown
      ensures open <==> state == Open && !Allow(Fields(), Config(), now).1
    {
      if state == Open {
        return now - openedAt < cooldown;
      }
      return false;
    }
  }
}
