/** The circuit breaker: closed, open and half-open, with a rolling failure window and a
    capped number of probes.  A protected call is two separate events, the admission check
    and the recorded result, so a call admitted in one state may finish in another. */
module CircuitBreaker {

  datatype State = Closed | Open | HalfOpen

  datatype Config = Config(maxFailures: int, timeout: int, resetTimeout: int, successThreshold: int)

  predicate Positive(c: Config) {
    c.maxFailures > 0 && c.timeout > 0 && c.resetTimeout > 0 && c.successThreshold > 0
  }

  // Durations are in nanoseconds.
  const SECOND: int := 1_000_000_000

  /** A clock reading that may not have been taken yet (Go's zero time is long ago). */
  datatype Moment = Never | At(t: int)

  predicate Elapsed(last: Moment, now: int, timeout: int) { last.Never? || now - last.t >= timeout }

  /** The fields the mutex guards. */
  datatype Breaker = Breaker(
    state: State, failures: int, successes: int, lastFailure: Moment, inFlight: int,
    total: int, failed: int, blocked: int, changes: int)

  const FRESH := Breaker(Closed, 0, 0, Never, 0, 0, 0, 0, 0)

  // ---------------------------------------------------------------- what each method does

  function WithState(b: Breaker, s: State): Breaker {
    b.(state := s, changes := b.changes + 1,
       inFlight := if b.state.HalfOpen? && !s.HalfOpen? then 0 else b.inFlight)
  }

  /** The admission decision, without its side effects. */
  predicate Admits(c: Config, b: Breaker, now: int) {
    match b.state
    case Closed => true
    case Open => Elapsed(b.lastFailure, now, c.timeout)
    case HalfOpen => b.inFlight < c.successThreshold
  }

  function Checked(c: Config, b: Breaker, now: int): Breaker {
    var b := b.(total := b.total + 1);
    match b.state
    case Closed => if b.failures > 0 && Elapsed(b.lastFailure, now, c.timeout) then b.(failures := 0) else b
    case Open => if Elapsed(b.lastFailure, now, c.timeout) then WithState(b, HalfOpen).(inFlight := 1)
                 else b.(blocked := b.blocked + 1)
    case HalfOpen => if b.inFlight < c.successThreshold then b.(inFlight := b.inFlight + 1)
                     else b.(blocked := b.blocked + 1)
  }

  /** The slot a half-open probe gives back before its outcome counts. */
  function Landed(b: Breaker): Breaker {
    if b.state.HalfOpen? && b.inFlight > 0 then b.(inFlight := b.inFlight - 1) else b
  }

  function Failed(c: Config, b: Breaker, now: int): Breaker {
    var b := b.(failures := b.failures + 1, failed := b.failed + 1, successes := 0, lastFailure := At(now));
    if b.state.HalfOpen? || (b.state.Closed? && b.failures >= c.maxFailures) then WithState(b, Open) else b
  }

  function Succeeded(c: Config, b: Breaker): Breaker {
    match b.state
    case Closed => if b.failures > 0 then b.(failures := 0) else b
    case Open => b
    case HalfOpen =>
      var b := b.(successes := b.successes + 1);
      if b.successes >= c.successThreshold then WithState(b, Closed).(failures := 0) else b
  }

  function Recorded(c: Config, b: Breaker, now: int, err: bool): Breaker {
    if err then Failed(c, Landed(b), now) else Succeeded(c, Landed(b))
  }

  function WasReset(b: Breaker): Breaker {
    b.(state := Closed, failures := 0, successes := 0, changes := b.changes + 1)
  }

  function ForcedOpen(b: Breaker): Breaker {
    if b.state.Open? then b else b.(state := Open, changes := b.changes + 1)
  }

  // ---------------------------------------------------------------- the object

  class CircuitBreaker {
    const config: Config
    var state: State
    var failures: int
    var successes: int
    var lastFailureTime: Moment
    var halfOpenInFlight: int
    var totalRequests: int
    var failedRequests: int
    var blockedRequests: int
    var stateChanges: int

    function Snapshot(): Breaker
      reads this
    {
      Breaker(state, failures, successes, lastFailureTime, halfOpenInFlight,
              totalRequests, failedRequests, blockedRequests, stateChanges)
    }

    /** NewCircuitBreaker: every setting that is not positive gets its default. */
    constructor (c: Config)
      ensures Positive(config) && Snapshot() == FRESH
      ensures Positive(c) ==> config == c
      ensures c.successThreshold <= 0 ==> config.successThreshold == 2
      ensures c.maxFailures <= 0 ==> config.maxFailures == 5
      ensures c.timeout <= 0 ==> config.timeout == 30 * SECOND
      ensures c.resetTimeout <= 0 ==> config.resetTimeout == 10 * SECOND
    {
      config := Config(
        if c.maxFailures <= 0 then 5 else c.maxFailures,
        if c.timeout <= 0 then 30 * SECOND else c.timeout,
        if c.resetTimeout <= 0 then 10 * SECOND else c.resetTimeout,
        if c.successThreshold <= 0 then 2 else c.successThreshold);
      state, failures, successes, lastFailureTime, halfOpenInFlight := Closed, 0, 0, Never, 0;
      totalRequests, failedRequests, blockedRequests, stateChanges := 0, 0, 0, 0;
    }

    method SetState(s: State)
      modifies this
      ensures Snapshot() == WithState(old(Snapshot()), s)
    {
      var was := state;
      state := s;
      stateChanges := stateChanges + 1;
      if was == HalfOpen && s != HalfOpen {
        halfOpenInFlight := 0;
      }
    }

    method CanExecute(now: int) returns (ok: bool)
      modifies this
      ensures ok == Admits(config, old(Snapshot()), now)
      ensures var before := old(Snapshot()); var b := Checked(config, before, now);
              Snapshot() == b.(total := before.total, blocked := before.blocked)
    {
      match state {
        case Closed =>
          if failures > 0 && Elapsed(lastFailureTime, now, config.timeout) {
            failures := 0;
          }
          return true;
        case Open =>
          if Elapsed(lastFailureTime, now, config.timeout) {
            SetState(HalfOpen);
            halfOpenInFlight := 1;
            return true;
          }
          return false;
        case HalfOpen =>
          if halfOpenInFlight >= config.successThreshold {
            return false;
          }
          halfOpenInFlight := halfOpenInFlight + 1;
          return true;
      }
    }

    method CheckCanExecute(now: int) returns (ok: bool)
      modifies this
      ensures ok == Admits(config, old(Snapshot()), now)
      ensures Snapshot() == Checked(config, old(Snapshot()), now)
    {
      totalRequests := totalRequests + 1;
      ok := CanExecute(now);
      if !ok {
        blockedRequests := blockedRequests + 1;
      }
    }

    method RecordResult(now: int, err: bool)
      modifies this
      ensures Snapshot() == Recorded(config, old(Snapshot()), now, err)
    {
      if state == HalfOpen && halfOpenInFlight > 0 {
        halfOpenInFlight := halfOpenInFlight - 1;
      }
      if err {
        OnFailure(now);
      } else {
        OnSuccess();
      }
    }

    method OnFailure(now: int)
      modifies this
      ensures Snapshot() == Failed(config, old(Snapshot()), now)
    {
      failures := failures + 1;
      failedRequests := failedRequests + 1;
      successes := 0;
      lastFailureTime := At(now);
      match state {
        case Closed =>
          if failures >= config.maxFailures {
            SetState(Open);
          }
        case HalfOpen => SetState(Open);
        case Open =>
      }
    }

    method OnSuccess()
      modifies this
      ensures Snapshot() == Succeeded(config, old(Snapshot()))
    {
      match state {
        case Closed =>
          if failures > 0 {
            failures := 0;
          }
        case HalfOpen =>
          successes := successes + 1;
          if successes >= config.successThreshold {
            SetState(Closed);
            failures := 0;
          }
        case Open =>
      }
    }

    method Reset()
      modifies this
      ensures Snapshot() == WasReset(old(Snapshot()))
    {
      state := Closed;
      failures := 0;
      successes := 0;
      stateChanges := stateChanges + 1;
    }

    method ForceOpen()
      modifies this
      ensures Snapshot() == ForcedOpen(old(Snapshot()))
    {
      if state != Open {
        state := Open;
        stateChanges := stateChanges + 1;
      }
    }
  }
}
