/** What the circuit breaker promises over whole runs.  The observers below read only the
    events and the breaker's visible state, never its counters; the theorems say that the
    counters make the breaker behave as the observers describe. */
module BreakerRuns {
  import opened CircuitBreaker

  datatype Op = Check | Success | Failure | Reset | ForceOpen

  /** Something done to the breaker under its mutex, at a clock reading. */
  datatype Event = Event(now: int, op: Op)

  function Apply(c: Config, b: Breaker, e: Event): Breaker {
    match e.op
    case Check => Checked(c, b, e.now)
    case Success => Recorded(c, b, e.now, false)
    case Failure => Recorded(c, b, e.now, true)
    case Reset => WasReset(b)
    case ForceOpen => ForcedOpen(b)
  }

  function Front(run: seq<Event>): seq<Event>
    requires run != []
  { run[..|run| - 1] }

  function Last(run: seq<Event>): Event
    requires run != []
  { run[|run| - 1] }

  /** A new breaker after a run of events, in any interleaving of callers. */
  function After(c: Config, run: seq<Event>): Breaker {
    if run == [] then FRESH else Apply(c, After(c, Front(run)), Last(run))
  }

  predicate Without(run: seq<Event>, op: Op) { forall i | 0 <= i < |run| :: run[i].op != op }

  predicate ClockNeverBack(run: seq<Event>) { forall i, j | 0 <= i <= j < |run| :: run[i].now <= run[j].now }

  /** The last event of the run is an admitted call. */
  predicate Admitted(c: Config, run: seq<Event>) {
    run != [] && Last(run).op.Check? && Admits(c, After(c, Front(run)), Last(run).now)
  }

  // ---------------------------------------------------------------- one half-open period

  /** The run ends inside a half-open period that began before its last event. */
  predicate Probing(c: Config, run: seq<Event>) {
    run != [] && After(c, run).state.HalfOpen? && After(c, Front(run)).state.HalfOpen?
  }

  /** Calls admitted in the current half-open period, the one that opened it included. */
  function Admissions(c: Config, run: seq<Event>): nat {
    if run == [] || !After(c, run).state.HalfOpen? then 0
    else if !Probing(c, run) then 1
    else Admissions(c, Front(run)) + if Admitted(c, run) then 1 else 0
  }

  /** Successes recorded in the current half-open period. */
  function Successes(c: Config, run: seq<Event>): nat {
    if !Probing(c, run) then 0
    else Successes(c, Front(run)) + if Last(run).op.Success? then 1 else 0
  }

  lemma {:induction false} CountersNonNegative(c: Config, run: seq<Event>)
    ensures After(c, run).failures >= 0 && After(c, run).successes >= 0
  {
    if run != [] {
      CountersNonNegative(c, Front(run));
    }
  }

  lemma {:induction false} PeriodAccounting(c: Config, run: seq<Event>)
    requires Positive(c) && After(c, run).state.HalfOpen?
    ensures 0 <= After(c, run).inFlight <= c.successThreshold
    ensures Admissions(c, run) <= After(c, run).inFlight + Successes(c, run)
    ensures Successes(c, run) == 0 || Successes(c, run) <= After(c, run).successes < c.successThreshold
  {
    if Probing(c, run) {
      CountersNonNegative(c, Front(run));
      PeriodAccounting(c, Front(run));
    }
  }

  /** One half-open period admits at most 2*SuccessThreshold - 1 calls, whatever else
      happens and however late earlier calls finish, and the probe counter stays between
      0 and SuccessThreshold. */
  lemma {:induction false} HalfOpenAdmissionBound(c: Config, run: seq<Event>)
    requires Positive(c) && After(c, run).state.HalfOpen?
    ensures Admissions(c, run) <= 2 * c.successThreshold - 1
    ensures 0 <= After(c, run).inFlight <= c.successThreshold
  {
    PeriodAccounting(c, run);
  }

  // ---------------------------------------------------------------- runs of whole calls

  /** Admission checks of the run that were answered with yes. */
  function AllAdmitted(c: Config, run: seq<Event>): nat {
    if run == [] then 0 else AllAdmitted(c, Front(run)) + if Admitted(c, run) then 1 else 0
  }

  function Results(run: seq<Event>): nat {
    if run == [] then 0 else Results(Front(run)) + if Last(run).op.Success? || Last(run).op.Failure? then 1 else 0
  }

  /** Every result belongs to a call admitted before: no prefix has more results than
      admissions. */
  predicate Paired(c: Config, run: seq<Event>) {
    run != [] ==> Paired(c, Front(run)) && Results(run) <= AllAdmitted(c, run)
  }

  /** A run the code can have: whole calls, and a clock that never goes back. */
  predicate Genuine(c: Config, run: seq<Event>) { Paired(c, run) && ClockNeverBack(run) }

  /** Nothing but calls: no reset, no forced opening. */
  predicate OnlyCalls(run: seq<Event>) { Without(run, ForceOpen) && Without(run, Reset) }

  lemma CallsOnly(run: seq<Event>, e: Event)
    requires OnlyCalls(run) && !e.op.ForceOpen? && !e.op.Reset?
    ensures OnlyCalls(run + [e])
  {
  }

  /** The clock reading at the end of a run. */
  predicate Reached(run: seq<Event>, t: int) { run != [] ==> Last(run).now <= t }

  lemma ClockOn(run: seq<Event>, e: Event)
    requires ClockNeverBack(run) && Reached(run, e.now)
    ensures ClockNeverBack(run + [e])
  {
    var more := run + [e];
    forall i, j | 0 <= i <= j < |more| ensures more[i].now <= more[j].now {
      if i < |run| <= j {
        assert run[i].now <= run[|run| - 1].now;
      }
    }
  }

  /** An event that is not a result keeps a run genuine. */
  lemma GenuineOther(c: Config, run: seq<Event>, e: Event)
    requires Genuine(c, run) && Reached(run, e.now) && !e.op.Success? && !e.op.Failure?
    ensures Genuine(c, run + [e])
  {
    ClockOn(run, e);
    Fronts(run, e);
    PairedCount(c, run);
  }

  /** So does the result of a call that is still out. */
  lemma GenuineResult(c: Config, run: seq<Event>, e: Event)
    requires Genuine(c, run) && Reached(run, e.now) && Results(run) < AllAdmitted(c, run)
    ensures Genuine(c, run + [e])
  {
    ClockOn(run, e);
    Fronts(run, e);
  }

  lemma PairedCount(c: Config, run: seq<Event>)
    requires Paired(c, run)
    ensures Results(run) <= AllAdmitted(c, run)
  {
  }

  /** The run with one call more: admitted at t, with its result at the same reading. */
  function WithCall(run: seq<Event>, t: int, result: Op): seq<Event> { run + [Event(t, Check)] + [Event(t, result)] }

  lemma Fronts(run: seq<Event>, e: Event)
    ensures Front(run + [e]) == run && Last(run + [e]) == e
  {
  }

  lemma CallKeeps(c: Config, run: seq<Event>, t: int, result: Op)
    requires Genuine(c, run) && Reached(run, t) && Admitted(c, run + [Event(t, Check)])
    ensures Genuine(c, WithCall(run, t, result))
    ensures result.Success? || result.Failure? ==>
              Results(WithCall(run, t, result)) - Results(run) == 1 == AllAdmitted(c, WithCall(run, t, result)) - AllAdmitted(c, run)
  {
    hide Genuine, Admitted;
    var checked := run + [Event(t, Check)];
    Fronts(run, Event(t, Check));
    Fronts(checked, Event(t, result));
    GenuineOther(c, run, Event(t, Check));
    assert Results(checked) < AllAdmitted(c, checked) by { assert Genuine(c, run); PairedOf(c, run); PairedCount(c, run); }
    GenuineResult(c, checked, Event(t, result));
    assert !Admitted(c, WithCall(run, t, result)) || result.Check? by { NotACheck(c, WithCall(run, t, result)); }
  }

  lemma PairedOf(c: Config, run: seq<Event>)
    requires Genuine(c, run)
    ensures Paired(c, run) && ClockNeverBack(run)
  {
  }

  lemma NotACheck(c: Config, run: seq<Event>)
    requires run != []
    ensures Admitted(c, run) ==> Last(run).op.Check?
  {
  }

  /** Calls that fail at time 0 lead up to the trip. */
  lemma {:induction false} Tripping(c: Config, n: nat) returns (run: seq<Event>)
    requires Positive(c) && n < c.maxFailures
    ensures var b := After(c, run);
            b.state.Closed? && b.failures == n && b.successes == 0 && b.inFlight == 0 && (n > 0 ==> b.lastFailure == At(0))
    ensures Genuine(c, run) && Reached(run, 0) && Results(run) == AllAdmitted(c, run) && OnlyCalls(run)
  {
    run := [];
    if n > 0 {
      hide Genuine, Results, AllAdmitted, OnlyCalls;
      var r := Tripping(c, n - 1);
      run := WithCall(r, 0, Failure);
      Fronts(r, Event(0, Check));
      Fronts(r + [Event(0, Check)], Event(0, Failure));
      CallKeeps(c, r, 0, Failure);
      CallsOnly(r, Event(0, Check));
      CallsOnly(r + [Event(0, Check)], Event(0, Failure));
    }
  }

  lemma Tripped(c: Config) returns (run: seq<Event>)
    requires Positive(c)
    ensures var b := After(c, run); b.state.Open? && b.successes == 0 && b.inFlight == 0 && b.lastFailure == At(0)
    ensures Genuine(c, run) && Reached(run, 0) && Results(run) == AllAdmitted(c, run) && OnlyCalls(run)
  {
    hide Genuine, Results, AllAdmitted, OnlyCalls;
    var r := Tripping(c, c.maxFailures - 1);
    run := WithCall(r, 0, Failure);
    Fronts(r, Event(0, Check));
    Fronts(r + [Event(0, Check)], Event(0, Failure));
    CallKeeps(c, r, 0, Failure);
    CallsOnly(r, Event(0, Check));
    CallsOnly(r + [Event(0, Check)], Event(0, Failure));
  }

  /** A new breaker tripped at time 0 and admitting its first probe Timeout later. */
  lemma FirstProbe(c: Config) returns (run: seq<Event>)
    requires Positive(c)
    ensures var b := After(c, run); b.state.HalfOpen? && b.inFlight == 1 && b.successes == 0
    ensures run != [] && !Probing(c, run) && Last(run).now == c.timeout
    ensures Genuine(c, run) && Results(run) + 1 == AllAdmitted(c, run) && OnlyCalls(run)
  {
    hide Genuine, OnlyCalls;
    var tripped := Tripped(c);
    CallsOnly(tripped, Event(c.timeout, Check));
    run := tripped + [Event(c.timeout, Check)];
    Fronts(tripped, Event(c.timeout, Check));
    GenuineOther(c, tripped, Event(c.timeout, Check));
  }

  /** One more probe admitted at a half-open moment. */
  lemma ProbeAdmitted(c: Config, run: seq<Event>, t: int)
    requires Positive(c) && After(c, run).state.HalfOpen? && After(c, run).inFlight < c.successThreshold
    requires Genuine(c, run) && Reached(run, t)
    ensures var b, next := After(c, run), run + [Event(t, Check)];
            && After(c, next) == b.(inFlight := b.inFlight + 1, total := b.total + 1)
            && Admissions(c, next) == Admissions(c, run) + 1 && Successes(c, next) == Successes(c, run)
            && AllAdmitted(c, next) == AllAdmitted(c, run) + 1 && Results(next) == Results(run)
            && Genuine(c, next)
  {
    hide Genuine;
    Fronts(run, Event(t, Check));
    GenuineOther(c, run, Event(t, Check));
  }

  /** One probe that succeeds without closing the breaker. */
  lemma ProbeSucceeded(c: Config, run: seq<Event>, t: int)
    requires Positive(c) && After(c, run).state.HalfOpen?
    requires After(c, run).inFlight > 0 && After(c, run).successes + 1 < c.successThreshold
    requires Genuine(c, run) && Reached(run, t) && Results(run) < AllAdmitted(c, run)
    ensures var b, next := After(c, run), run + [Event(t, Success)];
            && After(c, next) == b.(inFlight := b.inFlight - 1, successes := b.successes + 1)
            && Admissions(c, next) == Admissions(c, run) && Successes(c, next) == Successes(c, run) + 1
            && AllAdmitted(c, next) == AllAdmitted(c, run) && Results(next) == Results(run) + 1
            && Genuine(c, next)
  {
    hide Genuine;
    Fronts(run, Event(t, Success));
    GenuineResult(c, run, Event(t, Success));
  }

  /** The bound is reached by a run of whole calls: fill the probes, then let one succeed and
      admit another, until one more success would close the breaker. */
  lemma HalfOpenAdmissionBoundIsReached(c: Config) returns (run: seq<Event>)
    requires Positive(c)
    ensures Genuine(c, run) && OnlyCalls(run)
    ensures After(c, run).state.HalfOpen? && Admissions(c, run) == 2 * c.successThreshold - 1
  {
    hide Apply, After, Genuine, Admissions, AllAdmitted, Results, Successes, OnlyCalls;
    run := FirstProbe(c);
    assert Admissions(c, run) == 1 by { FirstOfPeriod(c, run); }
    var n := 1;
    while n < c.successThreshold
      invariant 1 <= n <= c.successThreshold
      invariant var b := After(c, run); b.state.HalfOpen? && b.inFlight == n && b.successes == 0
      invariant Admissions(c, run) == n
      invariant Genuine(c, run) && Reached(run, c.timeout) && Results(run) + n == AllAdmitted(c, run)
      invariant OnlyCalls(run)
    {
      ProbeAdmitted(c, run, c.timeout);
      CallsOnly(run, Event(c.timeout, Check));
      run, n := run + [Event(c.timeout, Check)], n + 1;
    }
    n := 0;
    while n + 1 < c.successThreshold
      invariant 0 <= n < c.successThreshold
      invariant var b := After(c, run); b.state.HalfOpen? && b.inFlight == c.successThreshold && b.successes == n
      invariant Admissions(c, run) == c.successThreshold + n
      invariant Genuine(c, run) && Reached(run, c.timeout) && Results(run) + c.successThreshold == AllAdmitted(c, run)
      invariant OnlyCalls(run)
    {
      ProbeSucceeded(c, run, c.timeout);
      var landed := run + [Event(c.timeout, Success)];
      ProbeAdmitted(c, landed, c.timeout);
      CallsOnly(run, Event(c.timeout, Success));
      CallsOnly(landed, Event(c.timeout, Check));
      run, n := landed + [Event(c.timeout, Check)], n + 1;
    }
  }

  lemma FirstOfPeriod(c: Config, run: seq<Event>)
    requires run != [] && After(c, run).state.HalfOpen? && !Probing(c, run)
    ensures Admissions(c, run) == 1 && Successes(c, run) == 0
  {
  }

  // ---------------------------------------------------------------- when a period closes

  /** Successes recorded while half-open since the latest failure or reset. */
  function Banked(c: Config, run: seq<Event>): nat {
    if run == [] then 0
    else match Last(run).op
      case Failure => 0
      case Reset => 0
      case Success => Banked(c, Front(run)) + if After(c, Front(run)).state.HalfOpen? then 1 else 0
      case _ => Banked(c, Front(run))
  }

  /** Those of them that were recorded before the current half-open period began. */
  function Carried(c: Config, run: seq<Event>): nat {
    if Probing(c, run) then Carried(c, Front(run)) else Banked(c, run)
  }

  /** In every run, forced openings and resets included, the success counter is what is
      banked, and inside a period that is what was carried in plus the period's own. */
  lemma {:induction false} SuccessLedger(c: Config, run: seq<Event>)
    ensures After(c, run).successes == Banked(c, run)
    ensures After(c, run).state.HalfOpen? ==> Banked(c, run) == Carried(c, run) + Successes(c, run)
  {
    if run != [] {
      SuccessLedger(c, Front(run));
    }
  }

  /** A half-open breaker closes by itself exactly on the success that brings the period's
      successes, together with those carried into it, to SuccessThreshold or more. */
  lemma ClosesExactlyWhen(c: Config, run: seq<Event>, e: Event)
    requires Positive(c) && After(c, run).state.HalfOpen? && !e.op.Reset?
    ensures After(c, run + [e]).state.Closed? <==>
            e.op.Success? && Successes(c, run) + Carried(c, run) + 1 >= c.successThreshold
  {
    SuccessLedger(c, run);
    Fronts(run, e);
  }

  /** A half-open period begins with the last event of the run. */
  predicate PeriodBegins(c: Config, run: seq<Event>) {
    run != [] && After(c, run).state.HalfOpen? && !Probing(c, run)
  }

  /** The breaker stays half-open all through the further events. */
  predicate Stays(c: Config, run: seq<Event>, more: seq<Event>) {
    After(c, run + more).state.HalfOpen? && (more != [] ==> Stays(c, run, Front(more)))
  }

  /** At this half-open moment the breaker obeys the rule: it closes by itself exactly on the
      SuccessThreshold-th success of the period. */
  ghost predicate ObeysThreshold(c: Config, run: seq<Event>) {
    forall e: Event | !e.op.Reset? && Genuine(c, run + [e]) ::
      After(c, run + [e]).state.Closed? <==> e.op.Success? && Successes(c, run) + 1 == c.successThreshold
  }

  /** All through the period that begins here, however it goes on. */
  ghost predicate PeriodObeysThreshold(c: Config, run: seq<Event>) {
    forall more | Stays(c, run, more) && Genuine(c, run + more) :: ObeysThreshold(c, run + more)
  }

  lemma {:induction false} CarriedStays(c: Config, run: seq<Event>, more: seq<Event>)
    requires After(c, run).state.HalfOpen? && Stays(c, run, more)
    ensures Carried(c, run + more) == Carried(c, run)
  {
    if more == [] {
      assert run + more == run;
    } else {
      CarriedStays(c, run, Front(more));
      assert Front(run + more) == run + Front(more);
      assert Stays(c, run, Front(more));
    }
  }

  /** Whole calls succeed one after another, as long as the breaker does not close. */
  lemma {:induction false} SuccessfulCalls(c: Config, run: seq<Event>, t: int, n: nat) returns (more: seq<Event>)
    requires Positive(c) && PeriodBegins(c, run) && Genuine(c, run) && Reached(run, t)
    requires n == 0 || n + Carried(c, run) < c.successThreshold
    ensures Stays(c, run, more) && Genuine(c, run + more) && Reached(run + more, t) && Successes(c, run + more) == n
    ensures After(c, run + more).inFlight >= 1 && Results(run + more) < AllAdmitted(c, run + more)
  {
    if n == 0 {
      more := [];
      assert run + more == run;
      ProbeIsOut(c, run);
    } else {
      var front := SuccessfulCalls(c, run, t, n - 1);
      hide After, Apply, Genuine, Results, AllAdmitted, Successes, Banked, Carried;
      assert Stays(c, run, front);
      CarriedStays(c, run, front);
      OneMoreCall(c, run + front, t);
      more := front + [Event(t, Success)] + [Event(t, Check)];
      assert run + more == run + front + [Event(t, Success)] + [Event(t, Check)];
      StaysOn(c, run, front, Event(t, Success));
      StaysOn(c, run, front + [Event(t, Success)], Event(t, Check));
    }
  }

  lemma StaysOn(c: Config, run: seq<Event>, more: seq<Event>, e: Event)
    requires Stays(c, run, more) && After(c, run + more + [e]).state.HalfOpen?
    ensures Stays(c, run, more + [e])
  {
    hide After;
    assert run + (more + [e]) == run + more + [e];
    Fronts(more, e);
  }

  /** A probe that is out succeeds, and the next call is admitted. */
  lemma OneMoreCall(c: Config, run: seq<Event>, t: int)
    requires Positive(c) && After(c, run).state.HalfOpen? && Genuine(c, run) && Reached(run, t)
    requires After(c, run).inFlight >= 1 && Results(run) < AllAdmitted(c, run)
    requires Successes(c, run) + Carried(c, run) + 1 < c.successThreshold
    ensures var landed := run + [Event(t, Success)]; var next := landed + [Event(t, Check)];
            && After(c, landed).state.HalfOpen? && After(c, next).state.HalfOpen?
            && Genuine(c, next) && Reached(next, t) && Successes(c, next) == Successes(c, run) + 1
            && After(c, next).inFlight >= 1 && Results(next) < AllAdmitted(c, next)
  {
    hide After, Apply, Genuine, Results, AllAdmitted, Successes, Banked, Carried, Admissions;
    SuccessLedger(c, run);
    PeriodAccounting(c, run);
    ProbeSucceeded(c, run, t);
    ProbeAdmitted(c, run + [Event(t, Success)], t);
  }

  /** The call that opens a period is still out. */
  lemma ProbeIsOut(c: Config, run: seq<Event>)
    requires PeriodBegins(c, run) && Genuine(c, run)
    ensures After(c, run).inFlight >= 1 && Results(run) < AllAdmitted(c, run) && Successes(c, run) == 0
  {
    assert Last(run).op.Check? && Admitted(c, run);
    assert Paired(c, Front(run));
    PairedCount(c, Front(run));
  }

  /** A period obeys the threshold exactly when nothing was carried into it, or when a single
      success is enough anyway. */
  lemma PeriodObeysThresholdIff(c: Config, run: seq<Event>)
    requires Positive(c) && PeriodBegins(c, run) && Genuine(c, run)
    ensures PeriodObeysThreshold(c, run) <==> Carried(c, run) == 0 || c.successThreshold == 1
  {
    hide After, Apply, Genuine, Results, AllAdmitted, Successes, Banked, Carried, Probing;
    if Carried(c, run) == 0 || c.successThreshold == 1 {
      forall more | Stays(c, run, more) && Genuine(c, run + more) ensures ObeysThreshold(c, run + more) {
        CarriedStays(c, run, more);
        NothingCarriedObeys(c, run + more);
      }
    } else {
      // One success less than is needed, and the next one closes the breaker too early.
      var needed := if Carried(c, run) < c.successThreshold then c.successThreshold - Carried(c, run) else 1;
      var t := Last(run).now;
      var more := SuccessfulCalls(c, run, t, needed - 1);
      ClosesExactlyWhen(c, run + more, Event(t, Success));
      CarriedStays(c, run, more);
      GenuineResult(c, run + more, Event(t, Success));
      assert !ObeysThreshold(c, run + more);
    }
  }

  lemma NothingCarriedObeys(c: Config, run: seq<Event>)
    requires Positive(c) && After(c, run).state.HalfOpen?
    requires Carried(c, run) == 0 || c.successThreshold == 1
    ensures ObeysThreshold(c, run)
  {
    hide After, Apply, Genuine, Results, AllAdmitted, Successes, Banked, Carried;
    PeriodAccounting(c, run);
    forall e: Event | !e.op.Reset?
      ensures After(c, run + [e]).state.Closed? <==> e.op.Success? && Successes(c, run) + 1 == c.successThreshold
    {
      ClosesExactlyWhen(c, run, e);
    }
  }

  /** Without ForceOpen nothing is ever carried into a period. */
  lemma {:induction false} NothingCarried(c: Config, run: seq<Event>)
    requires Without(run, ForceOpen)
    ensures After(c, run).state.Open? ==> Banked(c, run) == 0
    ensures After(c, run).state.HalfOpen? ==> Carried(c, run) == 0
  {
    if run != [] {
      NothingCarried(c, Front(run));
    }
  }

  /** There the success counter is the number of successes of the current period. */
  lemma {:induction false} SuccessCounter(c: Config, run: seq<Event>)
    requires Positive(c) && Without(run, ForceOpen)
    ensures After(c, run).state.Open? ==> After(c, run).successes == 0
    ensures After(c, run).state.HalfOpen? ==>
              After(c, run).successes == Successes(c, run) < c.successThreshold
  {
    SuccessLedger(c, run);
    NothingCarried(c, run);
    if After(c, run).state.HalfOpen? {
      PeriodAccounting(c, run);
    }
  }

  /** So in a run without ForceOpen the breaker closes by itself exactly on the
      SuccessThreshold-th success of the period.  (Any failure ends the period, so none came
      before.) */
  lemma {:induction false} ClosesExactlyOnThreshold(c: Config, run: seq<Event>, e: Event)
    requires Positive(c) && Without(run, ForceOpen)
    requires After(c, run).state.HalfOpen? && !e.op.Reset?
    ensures After(c, run + [e]).state.Closed? <==> e.op.Success? && Successes(c, run) + 1 == c.successThreshold
    ensures e.op.Failure? ==> After(c, run + [e]).state.Open?
  {
    NothingCarried(c, run);
    PeriodAccounting(c, run);
    ClosesExactlyWhen(c, run, e);
    Fronts(run, e);
  }

  // ---------------------------------------------------------------- the failure streak

  /** When the latest failure of the run was recorded, in whatever state. */
  function LatestFailure(run: seq<Event>): Moment {
    if run == [] then Never
    else if Last(run).op.Failure? then At(Last(run).now)
    else LatestFailure(Front(run))
  }

  /** Failures recorded while closed with no success, close, reset or age-out since. */
  function Streak(c: Config, run: seq<Event>): nat {
    if run == [] || !After(c, run).state.Closed? || !After(c, Front(run)).state.Closed? then 0
    else match Last(run).op
      case Failure => Streak(c, Front(run)) + 1
      case Check =>
        var latest := LatestFailure(Front(run));
        if latest.At? && Last(run).now - latest.t < c.timeout then Streak(c, Front(run)) else 0
      case _ => 0
  }

  lemma {:induction false} FailureCounter(c: Config, run: seq<Event>)
    requires Positive(c)
    ensures After(c, run).lastFailure == LatestFailure(run)
    ensures After(c, run).state.Closed? ==> After(c, run).failures == Streak(c, run) < c.maxFailures
    ensures After(c, run).failures >= 0
  {
    if run != [] {
      FailureCounter(c, Front(run));
    }
  }

  /** Without ForceOpen a closed breaker opens exactly on the MaxFailures-th failure of an
      unbroken streak. */
  lemma {:induction false} OpensExactlyOnStreak(c: Config, run: seq<Event>, e: Event)
    requires Positive(c) && After(c, run).state.Closed? && !e.op.ForceOpen?
    ensures After(c, run + [e]).state.Open? <==> e.op.Failure? && Streak(c, run) + 1 == c.maxFailures
  {
    FailureCounter(c, run);
    assert Front(run + [e]) == run;
  }

  function Failures(run: seq<Event>): nat {
    if run == [] then 0 else Failures(Front(run)) + if Last(run).op.Failure? then 1 else 0
  }

  /** From event m on the breaker has been closed, nothing but failures and admission
      checks happened, and every check came less than Timeout after the latest failure
      (checks before the first failure of the stretch aside). */
  ghost predicate Unbroken(c: Config, run: seq<Event>, m: nat) {
    m <= |run| && forall i | m <= i < |run| :: Harmless(c, run, m, i)
  }

  /** The latest failure lies less than Timeout back. */
  predicate Recent(latest: Moment, now: int, timeout: int) { latest.At? && now - latest.t < timeout }

  /** Event i of a stretch that begins at m. */
  ghost predicate Harmless(c: Config, run: seq<Event>, m: nat, i: nat)
    requires m <= i < |run|
  {
    && After(c, run[..i]).state.Closed? && After(c, run[..i + 1]).state.Closed?
    && (run[i].op.Failure? || run[i].op.Check?)
    && (run[i].op.Check? && Failures(run[m..i]) > 0 ==> Recent(LatestFailure(run[..i]), run[i].now, c.timeout))
  }

  lemma HarmlessFront(c: Config, run: seq<Event>, m: nat, i: nat)
    requires m <= i < |run| - 1
    ensures Harmless(c, run, m, i) == Harmless(c, Front(run), m, i)
  {
    assert run[..i] == Front(run)[..i] && run[..i + 1] == Front(run)[..i + 1] && run[m..i] == Front(run)[m..i];
  }

  lemma HarmlessLast(c: Config, run: seq<Event>, m: nat)
    requires m < |run|
    ensures Harmless(c, run, m, |run| - 1) <==>
              && After(c, Front(run)).state.Closed? && After(c, run).state.Closed?
              && (Last(run).op.Failure? || Last(run).op.Check?)
              && (Last(run).op.Check? && Failures(Front(run)[m..]) > 0 ==> Recent(LatestFailure(Front(run)), Last(run).now, c.timeout))
    ensures Failures(run[m..]) == Failures(Front(run)[m..]) + if Last(run).op.Failure? then 1 else 0
  {
    var i := |run| - 1;
    assert run[..i] == Front(run) && run[..i + 1] == run && run[m..i] == Front(run)[m..] == Front(run[m..]);
  }

  /** A stretch is unbroken exactly when it is without its last event and that event is harmless. */
  lemma UnbrokenSplit(c: Config, run: seq<Event>, m: nat)
    requires m < |run|
    ensures Unbroken(c, run, m) <==> Unbroken(c, Front(run), m) && Harmless(c, run, m, |run| - 1)
  {
    forall i | m <= i < |run| - 1 ensures Harmless(c, run, m, i) == Harmless(c, Front(run), m, i) {
      HarmlessFront(c, run, m, i);
    }
  }

  lemma {:induction false} StreakIsMaximal(c: Config, run: seq<Event>, m: nat)
    requires Unbroken(c, run, m)
    ensures Failures(run[m..]) <= Streak(c, run)
  {
    if m < |run| {
      UnbrokenSplit(c, run, m);
      HarmlessLast(c, run, m);
      StreakIsMaximal(c, Front(run), m);
    }
  }

  lemma {:induction false} StreakIsAttained(c: Config, run: seq<Event>) returns (m: nat)
    ensures Unbroken(c, run, m) && Failures(run[m..]) == Streak(c, run)
  {
    m := |run|;
    if Streak(c, run) > 0 {
      m := StreakIsAttained(c, Front(run));
      UnbrokenSplit(c, run, m);
      HarmlessLast(c, run, m);
    }
  }

  /** The same theorem about stretches of events instead of a running count. */
  lemma {:induction false} OpensExactlyAfterUnbrokenFailures(c: Config, run: seq<Event>, e: Event)
    requires Positive(c) && After(c, run).state.Closed? && !e.op.ForceOpen?
    ensures After(c, run + [e]).state.Open? <==>
            e.op.Failure? && exists m: nat :: Unbroken(c, run, m) && Failures(run[m..]) + 1 == c.maxFailures
  {
    OpensExactlyOnStreak(c, run, e);
    FailureCounter(c, run);
    var w := StreakIsAttained(c, run);
    forall m: nat | Unbroken(c, run, m) ensures Failures(run[m..]) <= Streak(c, run) {
      StreakIsMaximal(c, run, m);
    }
  }

  // ---------------------------------------------------------------- how often it opens

  /** Clock readings of the events that opened the breaker. */
  function Openings(c: Config, run: seq<Event>): seq<int> {
    if run == [] then []
    else Openings(c, Front(run)) +
         if After(c, run).state.Open? && !After(c, Front(run)).state.Open? then [Last(run).now] else []
  }

  /** What the latest opening (if any) says about the breaker now. */
  predicate Spaced(c: Config, b: Breaker, opening: Moment, now: int) {
    && (b.state.Open? ==> opening.At? && b.lastFailure.At? && b.lastFailure.t >= opening.t)
    && (opening.At? ==> now >= opening.t)
    && (opening.At? && !b.state.Open? ==> now - opening.t >= c.timeout)
  }

  lemma SpacedStep(c: Config, b: Breaker, opening: Moment, now: int, e: Event)
    requires Positive(c) && Spaced(c, b, opening, now) && now <= e.now
    requires !e.op.ForceOpen? && !e.op.Reset?
    ensures var b' := Apply(c, b, e);
            if b'.state.Open? && !b.state.Open?
            then Spaced(c, b', At(e.now), e.now) && (opening.At? ==> e.now - opening.t >= c.timeout)
            else Spaced(c, b', opening, e.now)
  {
  }

  function LatestOf(o: seq<int>): Moment { if o == [] then Never else At(o[|o| - 1]) }

  lemma {:induction false} OpeningSpacing(c: Config, run: seq<Event>)
    requires Positive(c) && ClockNeverBack(run) && Without(run, ForceOpen) && Without(run, Reset)
    ensures Apart(Openings(c, run), c.timeout)
    ensures if run == [] then Openings(c, run) == []
            else Spaced(c, After(c, run), LatestOf(Openings(c, run)), Last(run).now)
  {
    if run != [] {
      hide Apply;
      var front := Front(run);
      OpeningSpacing(c, front);
      var now := if front == [] then Last(run).now else Last(front).now;
      SpacedStep(c, After(c, front), LatestOf(Openings(c, front)), now, Last(run));
    }
  }

  predicate Apart(o: seq<int>, timeout: int) { forall k | 0 < k < |o| :: o[k] - o[k - 1] >= timeout }

  lemma {:induction false} OpeningsOrdered(o: seq<int>, timeout: int, i: nat, j: nat)
    requires timeout > 0 && Apart(o, timeout) && i <= j < |o|
    ensures o[i] <= o[j]
    decreases j
  {
    if i < j {
      OpeningsOrdered(o, timeout, i, j - 1);
    }
  }

  /** No call is admitted until Timeout after the latest opening, even when late failures
      arrive while the breaker is open. */
  lemma {:induction false} NoAdmissionBeforeTimeout(c: Config, run: seq<Event>)
    requires Positive(c) && ClockNeverBack(run) && Without(run, ForceOpen) && Without(run, Reset)
    requires Admitted(c, run)
    ensures forall i | 0 <= i < |Openings(c, run)| :: Last(run).now - Openings(c, run)[i] >= c.timeout
  {
    OpeningSpacing(c, run);
    var o := Openings(c, run);
    assert !After(c, run).state.Open?;
    forall i | 0 <= i < |o| ensures o[i] <= o[|o| - 1] {
      OpeningsOrdered(o, c.timeout, i, |o| - 1);
    }
  }

  lemma {:induction false} OpeningsApart(o: seq<int>, timeout: int, i: nat, j: nat)
    requires timeout > 0 && Apart(o, timeout) && i <= j < |o|
    ensures o[j] - o[i] >= (j - i) * timeout
    decreases j
  {
    if i < j {
      OpeningsApart(o, timeout, i, j - 1);
      assert (j - 1 - i) * timeout + timeout == (j - i) * timeout;
    }
  }

  lemma AtLeastOnce(d: int, timeout: int)
    requires timeout > 0 && d * timeout < timeout
    ensures d <= 0
  {
    assert d >= 1 ==> (d - 1) * timeout >= 0;
  }

  lemma QuotientBound(n: int, timeout: int, w: nat)
    requires timeout > 0 && n * timeout <= w
    ensures n <= w / timeout
  {
    assert (n - w / timeout) * timeout == n * timeout - (w / timeout) * timeout;
    AtLeastOnce(n - w / timeout, timeout);
  }

  /** A window of length w holds at most w/Timeout + 1 openings. */
  lemma {:induction false} OpeningsInWindow(c: Config, run: seq<Event>, i: nat, j: nat, w: nat)
    requires Positive(c) && ClockNeverBack(run) && Without(run, ForceOpen) && Without(run, Reset)
    requires i <= j < |Openings(c, run)| && Openings(c, run)[j] - Openings(c, run)[i] <= w
    ensures j - i + 1 <= w / c.timeout + 1
  {
    OpeningSpacing(c, run);
    OpeningsApart(Openings(c, run), c.timeout, i, j);
    QuotientBound(j - i, c.timeout, w);
  }

  // ---------------------------------------------------------------- the request counters

  function Checks(run: seq<Event>): nat {
    if run == [] then 0 else Checks(Front(run)) + if Last(run).op.Check? then 1 else 0
  }

  /** Every call is counted once, as admitted or as blocked, and every failure once, in any
      run with resets and forced openings. */
  lemma {:induction false} RequestsAccounted(c: Config, run: seq<Event>)
    ensures After(c, run).total == Checks(run) == AllAdmitted(c, run) + After(c, run).blocked
    ensures After(c, run).failed == Failures(run)
  {
    if run != [] {
      RequestsAccounted(c, Front(run));
    }
  }

  // ---------------------------------------------------------------- what ForceOpen leaves alone

  /** An open breaker, however it was opened, admits exactly when at least Timeout has passed
      since the latest failure was recorded (or none ever was), not since the opening. */
  lemma {:induction false} OpenAdmitsAfterLatestFailure(c: Config, run: seq<Event>, now: int)
    requires Positive(c) && After(c, run).state.Open?
    ensures Admitted(c, run + [Event(now, Check)]) <==> (LatestFailure(run).At? ==> now - LatestFailure(run).t >= c.timeout)
    ensures After(c, run + [Event(now, Check)]).state.HalfOpen? <==> Admitted(c, run + [Event(now, Check)])
  {
    FailureCounter(c, run);
    Fronts(run, Event(now, Check));
  }

  /** A check on a closed breaker is always admitted, and leaves the failure count exactly when
      the latest failure lies less than Timeout back; otherwise the count starts again at 0. */
  lemma {:induction false} ClosedCheckAgesOut(c: Config, run: seq<Event>, now: int)
    requires Positive(c) && After(c, run).state.Closed?
    ensures var checked := run + [Event(now, Check)];
            && Admitted(c, checked) && After(c, checked).state.Closed?
            && After(c, checked).failures ==
               if LatestFailure(run).At? && now - LatestFailure(run).t < c.timeout then After(c, run).failures else 0
  {
    FailureCounter(c, run);
    NoFailureNoStreak(c, run);
    Fronts(run, Event(now, Check));
  }

  lemma {:induction false} NoFailureNoStreak(c: Config, run: seq<Event>)
    ensures LatestFailure(run).Never? ==> Streak(c, run) == 0
  {
    if run != [] {
      NoFailureNoStreak(c, Front(run));
    }
  }

  /** Reset closes the breaker with an empty slate, from any state: the next call is admitted, and
      it takes MaxFailures new failures to open it. */
  lemma {:induction false} ResetCloses(c: Config, run: seq<Event>, resetAt: int, now: int)
    requires Positive(c)
    ensures var cleared := run + [Event(resetAt, Reset)];
            && After(c, cleared).state.Closed? && Streak(c, cleared) == 0 && Banked(c, cleared) == 0
            && Admitted(c, cleared + [Event(now, Check)])
  {
    Fronts(run, Event(resetAt, Reset));
    Fronts(run + [Event(resetAt, Reset)], Event(now, Check));
  }

  /** Changes of state, and the resets of a breaker that is closed already. */
  function Changes(c: Config, run: seq<Event>): nat {
    if run == [] then 0
    else Changes(c, Front(run)) +
         if After(c, run).state != After(c, Front(run)).state || Last(run).op.Reset? then 1 else 0
  }

  /** Every change of state is counted, and a reset always counts as one. */
  lemma {:induction false} ChangesCounted(c: Config, run: seq<Event>)
    ensures After(c, run).changes == Changes(c, run)
  {
    if run != [] {
      ChangesCounted(c, Front(run));
    }
  }

  /** So forcing the breaker open, in whatever state, changes nothing about the moment from
      which calls are admitted again, while nothing is recorded in between. */
  lemma {:induction false} ForceOpenDoesNotRestartTimeout(c: Config, run: seq<Event>, forcedAt: int, now: int)
    requires Positive(c)
    ensures var forced := run + [Event(forcedAt, ForceOpen)];
            && After(c, forced).state.Open?
            && (Admitted(c, forced + [Event(now, Check)]) <==> (LatestFailure(run).At? ==> now - LatestFailure(run).t >= c.timeout))
  {
    var forced := run + [Event(forcedAt, ForceOpen)];
    Fronts(run, Event(forcedAt, ForceOpen));
    OpenAdmitsAfterLatestFailure(c, forced, now);
  }

  /** What the next half-open period inherits from a breaker that is forced open is its success
      counter at that moment: zero is harmless, and nothing else is unless one success is
      enough anyway. */
  lemma {:induction false} ForceOpenKeepsSuccesses(c: Config, run: seq<Event>, forcedAt: int, now: int)
    requires Positive(c) && Genuine(c, run) && Reached(run, forcedAt) && forcedAt <= now
    requires LatestFailure(run).At? ==> now - LatestFailure(run).t >= c.timeout
    ensures var next := run + [Event(forcedAt, ForceOpen)] + [Event(now, Check)];
            && PeriodBegins(c, next) && Genuine(c, next)
            && Carried(c, next) == After(c, run).successes
            && (PeriodObeysThreshold(c, next) <==> After(c, run).successes == 0 || c.successThreshold == 1)
  {
    hide Genuine, PeriodObeysThreshold;
    var forced := run + [Event(forcedAt, ForceOpen)];
    var next := forced + [Event(now, Check)];
    Fronts(run, Event(forcedAt, ForceOpen));
    Fronts(forced, Event(now, Check));
    OpenAdmitsAfterLatestFailure(c, forced, now);
    SuccessLedger(c, run);
    GenuineOther(c, run, Event(forcedAt, ForceOpen));
    GenuineOther(c, forced, Event(now, Check));
    assert Banked(c, next) == Banked(c, forced) == Banked(c, run);
    PeriodObeysThresholdIff(c, next);
  }

  /** A breaker that closed by itself still has its spent successes, so forcing it open makes
      the next period close on its very first success. */
  lemma RecoveredBreakerClosesEarly(c: Config, run: seq<Event>, e: Event, forcedAt: int, now: int, t: int)
    requires Positive(c) && After(c, run).state.HalfOpen? && !e.op.Reset? && After(c, run + [e]).state.Closed?
    requires LatestFailure(run).At? ==> now - LatestFailure(run).t >= c.timeout
    ensures var next := run + [e] + [Event(forcedAt, ForceOpen)] + [Event(now, Check)];
            PeriodBegins(c, next) && After(c, next + [Event(t, Success)]).state.Closed?
  {
    var closed := run + [e];
    var forced := closed + [Event(forcedAt, ForceOpen)];
    var next := forced + [Event(now, Check)];
    Fronts(run, e);
    Fronts(closed, Event(forcedAt, ForceOpen));
    Fronts(forced, Event(now, Check));
    OpenAdmitsAfterLatestFailure(c, forced, now);
    SuccessLedger(c, next);
    hide Carried, Successes, Banked;
    ClosesExactlyWhen(c, next, Event(t, Success));
  }
}
