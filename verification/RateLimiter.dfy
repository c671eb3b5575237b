/** The per-client token bucket.  Clock readings are exact and in minutes; Allow and one
    cleanup are single steps. */
module RateLimiter {

  datatype Limits = Limits(rate: int, burst: int, interval: real)

  datatype Bucket = Bucket(tokens: real, lastSeen: real)

  type Clients = map<string, Bucket>

  // ---------------------------------------------------------------- what each method does

  /** Tokens accrued over d minutes. */
  function Earned(rate: int, d: real): real { d * rate as real }

  function Refilled(l: Limits, b: Bucket, now: real): real {
    var elapsed := now - b.lastSeen;
    if elapsed > 0.0 then
      var tokens := b.tokens + Earned(l.rate, elapsed);
      if tokens > l.burst as real then l.burst as real else tokens
    else b.tokens
  }

  function Taken(l: Limits, b: Bucket, now: real): Bucket {
    var tokens := Refilled(l, b, now);
    Bucket(if tokens >= 1.0 then tokens - 1.0 else tokens, now)
  }

  /** The bucket Allow works on: a client without one starts full. */
  function BucketOf(l: Limits, m: Clients, ip: string, now: real): Bucket {
    if ip in m then m[ip] else Bucket(l.burst as real, now)
  }

  predicate Allows(l: Limits, m: Clients, ip: string, now: real) {
    Refilled(l, BucketOf(l, m, ip, now), now) >= 1.0
  }

  function Charged(l: Limits, m: Clients, ip: string, now: real): Clients {
    m[ip := Taken(l, BucketOf(l, m, ip, now), now)]
  }

  predicate Stale(l: Limits, b: Bucket, now: real) { b.lastSeen < now - l.interval }

  function Cleaned(l: Limits, m: Clients, now: real): Clients {
    map ip | ip in m && !Stale(l, m[ip], now) :: m[ip]
  }

  // ---------------------------------------------------------------- the object

  class RateLimiter {
    const limits: Limits
    var clients: Clients

    /** NewRateLimiter; DefaultCleanupInterval is ten minutes. */
    constructor (requestsPerMinute: int, burstSize: int)
      ensures limits == Limits(requestsPerMinute, burstSize, 10.0) && clients == map[]
    {
      limits := Limits(requestsPerMinute, burstSize, 10.0);
      clients := map[];
    }

    method Allow(ip: string, now: real) returns (ok: bool)
      modifies this
      ensures ok == Allows(limits, old(clients), ip, now)
      ensures clients == Charged(limits, old(clients), ip, now)
    {
      if ip !in clients {
        clients := clients[ip := Bucket(limits.burst as real, now)];
      }
      ok := AllowBucket(ip, now);
    }

    method AllowBucket(ip: string, now: real) returns (ok: bool)
      requires ip in clients
      modifies this
      ensures ok == (Refilled(limits, old(clients)[ip], now) >= 1.0)
      ensures clients == old(clients)[ip := Taken(limits, old(clients)[ip], now)]
    {
      var bucket := clients[ip];
      var tokens := bucket.tokens;
      var elapsed := now - bucket.lastSeen;
      if elapsed > 0.0 {
        tokens := tokens + Earned(limits.rate, elapsed);
        var burst := limits.burst as real;
        if tokens > burst {
          tokens := burst;
        }
      }
      ok := tokens >= 1.0;
      if ok {
        tokens := tokens - 1.0;
      }
      clients := clients[ip := Bucket(tokens, now)];
    }

    /** Two passes: list the idle clients, then delete those that are still idle. */
    method CleanupClients(now: real)
      modifies this
      ensures clients == Cleaned(limits, old(clients), now)
    {
      var cutoff := now - limits.interval;
      var toDelete: seq<string> := [];
      var todo := clients.Keys;
      while todo != {}
        invariant clients == old(clients) && todo <= clients.Keys
        invariant forall ip :: ip in toDelete <==> ip in clients && ip !in todo && Stale(limits, clients[ip], now)
        decreases todo
      {
        var ip :| ip in todo;
        if clients[ip].lastSeen < cutoff {
          toDelete := toDelete + [ip];
        }
        todo := todo - {ip};
      }
      for i := 0 to |toDelete|
        invariant clients == map ip | ip in old(clients) && ip !in toDelete[..i] :: old(clients)[ip]
      {
        var ip := toDelete[i];
        if ip in clients {
          if clients[ip].lastSeen < cutoff {
            clients := clients - {ip};
          }
        }
      }
    }
  }

  // ---------------------------------------------------------------- runs

  datatype Event = Request(ip: string, now: real) | Cleanup(now: real)

  function Apply(l: Limits, m: Clients, e: Event): Clients {
    match e
    case Request(ip, now) => Charged(l, m, ip, now)
    case Cleanup(now) => Cleaned(l, m, now)
  }

  function After(l: Limits, run: seq<Event>): Clients {
    if run == [] then map[] else Apply(l, After(l, run[..|run| - 1]), run[|run| - 1])
  }

  predicate ClockNeverBack(run: seq<Event>) { forall i, j | 0 <= i <= j < |run| :: run[i].now <= run[j].now }

  /** Event k is a request of ip and is admitted. */
  predicate Admits(l: Limits, run: seq<Event>, k: nat, ip: string)
    requires k < |run|
  {
    run[k].Request? && run[k].ip == ip && Allows(l, After(l, run[..k]), ip, run[k].now)
  }

  /** Requests of ip admitted by events i..j. */
  function Admitted(l: Limits, run: seq<Event>, i: nat, j: nat, ip: string): nat
    requires i <= j <= |run|
  {
    if i == j then 0 else Admitted(l, run, i, j - 1, ip) + if Admits(l, run, j - 1, ip) then 1 else 0
  }

  /** The tokens a client would have if it asked now; without a bucket it would be full. */
  function Available(l: Limits, m: Clients, ip: string, now: real): real {
    if ip in m then Refilled(l, m[ip], now) else l.burst as real
  }

  /** Every bucket holds between 0 and burst tokens and was last used in the past. */
  predicate Sane(l: Limits, m: Clients, now: real) {
    forall ip | ip in m :: 0.0 <= m[ip].tokens <= l.burst as real && m[ip].lastSeen <= now
  }

  /** An idle bucket has time to fill up before it may be evicted. */
  predicate RefillsBeforeEviction(l: Limits) {
    NonNegative(l) && l.rate as real * l.interval >= l.burst as real
  }

  predicate NonNegative(l: Limits) { l.rate >= 0 && l.burst >= 0 && l.interval >= 0.0 }

  lemma EarnedIs(rate: int, d: real)
    ensures Earned(rate, d) == rate as real * d
  {
  }

  /** The refill is the lesser of the burst and the tokens left plus rate times the minutes gone
      by; a clock that has not moved refills nothing. */
  lemma RefillIsCappedAccrual(l: Limits, b: Bucket, now: real)
    requires l.rate >= 0 && b.tokens <= l.burst as real
    ensures now >= b.lastSeen ==>
              Refilled(l, b, now) == Least(l.burst as real, b.tokens + l.rate as real * (now - b.lastSeen))
    ensures now <= b.lastSeen ==> Refilled(l, b, now) == b.tokens
  {
    hide Earned;
    EarnedIs(l.rate, now - b.lastSeen);
    if now == b.lastSeen {
      assert l.rate as real * (now - b.lastSeen) == 0.0;
    }
  }

  /** The product on its own, for proofs that need not look into it. */
  function Accrued(l: Limits, since: real, now: real): real { l.rate as real * (now - since) }

  lemma RefillInTermsOfAccrual(l: Limits, b: Bucket, now: real)
    requires l.rate >= 0 && b.tokens <= l.burst as real && b.lastSeen <= now
    ensures Refilled(l, b, now) == Least(l.burst as real, b.tokens + Accrued(l, b.lastSeen, now))
  {
    hide Refilled;
    RefillIsCappedAccrual(l, b, now);
  }

  lemma WholeToken(n: int)
    requires n >= 1
    ensures n as real >= 1.0
  {
    assert n as real == (n - 1) as real + 1.0;
    assert (n - 1) as real >= 0.0;
  }

  function Least(x: real, y: real): real { if x <= y then x else y }

  lemma EarnedAdds(rate: int, d1: real, d2: real)
    ensures Earned(rate, d1 + d2) == Earned(rate, d1) + Earned(rate, d2)
    ensures rate >= 0 && d1 >= 0.0 ==> Earned(rate, d1) >= 0.0
    ensures rate >= 0 && d2 >= 0.0 ==> Earned(rate, d2) >= 0.0
  {
  }

  /** Capped refill is additive over time. */
  lemma RefillAdditive(l: Limits, b: Bucket, t1: real, t2: real)
    requires l.rate >= 0 && 0.0 <= b.tokens <= l.burst as real && b.lastSeen <= t1 <= t2
    ensures Refilled(l, Bucket(Refilled(l, b, t1), t1), t2) == Refilled(l, b, t2)
    ensures 0.0 <= Refilled(l, b, t1) <= Refilled(l, b, t2) <= l.burst as real
  {
    hide Earned;
    RefillGrowth(l, b, t1, t2);
    EarnedAdds(l.rate, t1 - b.lastSeen, t2 - t1);
    assert (t1 - b.lastSeen) + (t2 - t1) == t2 - b.lastSeen;
  }

  lemma RefillGrowth(l: Limits, b: Bucket, t1: real, t2: real)
    requires l.rate >= 0 && 0.0 <= b.tokens <= l.burst as real && b.lastSeen <= t1 <= t2
    ensures Refilled(l, b, t2) <= Refilled(l, b, t1) + Earned(l.rate, t2 - t1)
  {
    hide Earned;
    EarnedAdds(l.rate, t1 - b.lastSeen, t2 - t1);
    assert (t1 - b.lastSeen) + (t2 - t1) == t2 - b.lastSeen;
  }

  /** A stale bucket is full again, so evicting it changes nothing. */
  lemma StaleIsFull(l: Limits, b: Bucket, now: real)
    requires RefillsBeforeEviction(l) && 0.0 <= b.tokens && Stale(l, b, now)
    ensures Refilled(l, b, now) == l.burst as real
  {
    hide Earned;
    var elapsed := now - b.lastSeen;
    EarnedIs(l.rate, l.interval);
    EarnedAdds(l.rate, elapsed - l.interval, l.interval);
    assert (elapsed - l.interval) + l.interval == elapsed;
  }

  /** One event: it costs its client one token exactly when it is an admitted request, and
      no other client notices anything. */
  lemma StepAccounting(l: Limits, m: Clients, e: Event, ip: string)
    requires RefillsBeforeEviction(l) && Sane(l, m, e.now)
    ensures Sane(l, Apply(l, m, e), e.now)
    ensures Available(l, Apply(l, m, e), ip, e.now) ==
            Available(l, m, ip, e.now) - if e.Request? && e.ip == ip && Allows(l, m, ip, e.now) then 1.0 else 0.0
  {
    match e
    case Request(who, now) =>
      if who in m {
        RefillAdditive(l, m[who], now, now);
      }
    case Cleanup(now) =>
      if ip in m && Stale(l, m[ip], now) {
        StaleIsFull(l, m[ip], now);
      }
  }

  lemma SaneLater(l: Limits, m: Clients, t1: real, t2: real)
    requires Sane(l, m, t1) && t1 <= t2
    ensures Sane(l, m, t2)
  {
  }

  lemma {:induction false} AfterSane(l: Limits, run: seq<Event>, now: real)
    requires RefillsBeforeEviction(l) && ClockNeverBack(run)
    requires run != [] ==> run[|run| - 1].now <= now
    ensures Sane(l, After(l, run), now)
  {
    if run != [] {
      var front := run[..|run| - 1];
      var e := run[|run| - 1];
      AfterSane(l, front, e.now);
      StepAccounting(l, After(l, front), e, "");
      SaneLater(l, After(l, run), e.now, now);
    }
  }

  /** The potential argument: admissions so far plus tokens left never exceed the burst
      plus what the window has refilled. */
  lemma {:induction false} WindowPotential(l: Limits, run: seq<Event>, i: nat, j: nat, ip: string, now: real)
    requires RefillsBeforeEviction(l) && ClockNeverBack(run) && i <= j <= |run| && i < |run|
    requires now >= run[i].now && (j > 0 ==> now >= run[j - 1].now)
    ensures Sane(l, After(l, run[..j]), now)
    ensures Admitted(l, run, i, j, ip) as real + Available(l, After(l, run[..j]), ip, now)
            <= l.burst as real + Earned(l.rate, now - run[i].now)
    decreases j
  {
    hide Earned, Apply;
    var m := After(l, run[..j]);
    AfterSane(l, run[..j], now);
    if i == j {
      if ip in m { RefillAdditive(l, m[ip], now, now); }
      EarnedAdds(l.rate, now - run[i].now, 0.0);
    } else {
      var e := run[j - 1];
      var prev := After(l, run[..j - 1]);
      assert run[..j][..j - 1] == run[..j - 1];
      WindowPotential(l, run, i, j - 1, ip, e.now);
      StepAccounting(l, prev, e, ip);
      AvailableLater(l, m, ip, e.now, now);
      EarnedAdds(l.rate, e.now - run[i].now, now - e.now);
      assert (e.now - run[i].now) + (now - e.now) == now - run[i].now;
    }
  }

  /** Tokens only grow by refill while nothing happens. */
  lemma AvailableLater(l: Limits, m: Clients, ip: string, t1: real, t2: real)
    requires l.rate >= 0 && l.burst >= 0 && Sane(l, m, t1) && t1 <= t2
    ensures Available(l, m, ip, t2) <= Available(l, m, ip, t1) + Earned(l.rate, t2 - t1)
    ensures 0.0 <= Available(l, m, ip, t2)
  {
    hide Earned;
    EarnedAdds(l.rate, t2 - t1, 0.0);
    if ip in m {
      RefillGrowth(l, m[ip], t1, t2);
      RefillAdditive(l, m[ip], t1, t2);
      RefillAdditive(l, m[ip], t2, t2);
    }
  }

  /** In any window of t minutes at most burst + rate*t requests of one client are
      admitted, over any run with evictions and re-creations of its bucket. */
  lemma AdmittedInWindow(l: Limits, run: seq<Event>, i: nat, j: nat, ip: string, start: real, t: real)
    requires RefillsBeforeEviction(l) && ClockNeverBack(run) && i <= j <= |run|
    requires t >= 0.0 && forall k | i <= k < j :: start <= run[k].now <= start + t
    ensures Admitted(l, run, i, j, ip) as real <= l.burst as real + l.rate as real * t
  {
    hide Earned, After;
    EarnedIs(l.rate, t);
    EarnedAdds(l.rate, t, 0.0);
    if i < j {
      var now := run[j - 1].now;
      WindowPotential(l, run, i, j, ip, now);
      AvailableLater(l, After(l, run[..j]), ip, now, now);
      var used := now - run[i].now;
      EarnedAdds(l.rate, used, t - used);
      assert used + (t - used) == t;
    }
  }

  /** The promise about windows: at most burst + rate*t admissions of one client in t minutes. */
  ghost predicate WindowsBounded(l: Limits) {
    forall run, i: nat, j: nat, ip, start, t | Window(run, i, j, start, t) ::
      Admitted(l, run, i, j, ip) as real <= l.burst as real + l.rate as real * t
  }

  /** Events i..j of the run fall into t minutes from start. */
  ghost predicate Window(run: seq<Event>, i: nat, j: nat, start: real, t: real) {
    && ClockNeverBack(run) && i <= j <= |run| && t >= 0.0
    && forall k | i <= k < j :: start <= run[k].now <= start + t
  }

  /** n requests of one client at one clock reading. */
  function Volley(ip: string, now: real, n: nat): (q: seq<Event>)
    ensures |q| == n
  {
    seq(n, _ => Request(ip, now))
  }

  lemma {:induction false} AdmittedPrefix(l: Limits, run: seq<Event>, more: seq<Event>, i: nat, j: nat, ip: string)
    requires i <= j <= |run|
    ensures Admitted(l, run + more, i, j, ip) == Admitted(l, run, i, j, ip)
  {
    hide Allows, After;
    if i < j {
      AdmittedPrefix(l, run, more, i, j - 1, ip);
      assert (run + more)[..j - 1] == run[..j - 1];
    }
  }

  lemma {:induction false} AdmittedSplit(l: Limits, run: seq<Event>, i: nat, j: nat, k: nat, ip: string)
    requires i <= j <= k <= |run|
    ensures Admitted(l, run, i, k, ip) == Admitted(l, run, i, j, ip) + Admitted(l, run, j, k, ip)
    decreases k
  {
    hide Admits;
    if j < k {
      AdmittedSplit(l, run, i, j, k - 1, ip);
    }
  }

  lemma NoVolley(ip: string, now: real)
    ensures Volley(ip, now, 0) == []
  {
  }

  lemma VolleySnoc(run: seq<Event>, ip: string, now: real, n: nat)
    requires n > 0
    ensures var all, before := run + Volley(ip, now, n), run + Volley(ip, now, n - 1);
            all == before + [Request(ip, now)] && all[..|all| - 1] == before
  {
  }

  /** One more request of the volley. */
  lemma VolleyStep(l: Limits, run: seq<Event>, ip: string, now: real, n: nat)
    requires n > 0
    ensures var before, all := run + Volley(ip, now, n - 1), run + Volley(ip, now, n);
            && After(l, all) == Charged(l, After(l, before), ip, now)
            && Admitted(l, all, |run|, |run| + n, ip) ==
               Admitted(l, before, |run|, |run| + n - 1, ip) + if Allows(l, After(l, before), ip, now) then 1 else 0
  {
    hide Volley, Allows, Charged;
    var before, all := run + Volley(ip, now, n - 1), run + Volley(ip, now, n);
    VolleySnoc(run, ip, now, n);
    AdmittedPrefix(l, before, [Request(ip, now)], |run|, |run| + n - 1, ip);
    assert all[|all| - 1] == Request(ip, now);
  }

  /** A client without a bucket gets its whole burst at once. */
  lemma {:induction false} VolleyAdmitted(l: Limits, run: seq<Event>, ip: string, now: real, n: nat)
    requires ip !in After(l, run) && n <= l.burst
    ensures var m := After(l, run);
            After(l, run + Volley(ip, now, n)) == if n == 0 then m else m[ip := Bucket((l.burst - n) as real, now)]
    ensures Admitted(l, run + Volley(ip, now, n), |run|, |run| + n, ip) == n
  {
    hide Volley, Allows, Charged, After;
    if n == 0 {
      NoVolley(ip, now);
      assert run + Volley(ip, now, 0) == run;
    } else {
      hide Admitted;
      VolleyAdmitted(l, run, ip, now, n - 1);
      VolleyStep(l, run, ip, now, n);
      LastOfVolley(l, After(l, run), After(l, run + Volley(ip, now, n - 1)), ip, now, n);
    }
  }

  lemma LastOfVolley(l: Limits, m: Clients, before: Clients, ip: string, now: real, n: nat)
    requires ip !in m && 0 < n <= l.burst
    requires before == if n == 1 then m else m[ip := Bucket((l.burst - n + 1) as real, now)]
    ensures Allows(l, before, ip, now)
    ensures Charged(l, before, ip, now) == m[ip := Bucket((l.burst - n) as real, now)]
  {
  }

  /** The clients' table between the two volleys: emptied by the cleanup. */
  lemma CleanedUp(l: Limits, run: seq<Event>, ip: string, now: real)
    requires forall c | c in After(l, run) :: Stale(l, After(l, run)[c], now)
    ensures After(l, run + [Cleanup(now)]) == map[]
  {
    var all := run + [Cleanup(now)];
    assert all[..|all| - 1] == run;
  }

  /** Two volleys around a cleanup. */
  function Twice(l: Limits, ip: string, later: real): seq<Event>
    requires l.burst >= 0
  {
    Volley(ip, 0.0, l.burst) + [Cleanup(later)] + Volley(ip, later, l.burst)
  }

  lemma TwiceIsWindow(l: Limits, ip: string, later: real)
    requires l.burst >= 0 && later >= 0.0
    ensures Window(Twice(l, ip, later), 0, |Twice(l, ip, later)|, 0.0, later)
  {
  }

  /** After the first volley every bucket is the client's own, last seen at 0. */
  lemma FirstVolley(l: Limits, ip: string, later: real)
    requires NonNegative(l) && later > l.interval
    ensures var first := Volley(ip, 0.0, l.burst);
            && After(l, first + [Cleanup(later)]) == map[]
            && Admitted(l, first, 0, l.burst, ip) == l.burst
  {
    var first := Volley(ip, 0.0, l.burst);
    assert [] + first == first && After(l, []) == map[];
    VolleyAdmitted(l, [], ip, 0.0, l.burst);
    CleanedUp(l, first, ip, later);
  }

  /** Two full bursts, one before and one after an eviction, are all admitted. */
  lemma EvictionRefunds(l: Limits, ip: string, later: real)
    requires NonNegative(l) && later > l.interval
    ensures var run := Twice(l, ip, later);
            && Window(run, 0, |run|, 0.0, later)
            && Admitted(l, run, 0, |run|, ip) >= 2 * l.burst
  {
    hide Allows, Apply, Admitted, After, Window;
    TwiceIsWindow(l, ip, later);
    FirstVolley(l, ip, later);
    var n := l.burst;
    var first, second := Volley(ip, 0.0, n), Volley(ip, later, n);
    var mid := first + [Cleanup(later)];
    VolleyAdmitted(l, mid, ip, later, n);
    assert mid + second == first + ([Cleanup(later)] + second);
    AdmittedPrefix(l, first, [Cleanup(later)] + second, 0, n, ip);
    AdmittedSplit(l, mid + second, 0, n, n + 1, ip);
    AdmittedSplit(l, mid + second, 0, n + 1, n + 1 + n, ip);
  }

  lemma Distribute(a: real, b: real, c: real)
    ensures a * (b + c) == a * b + a * c
  {
  }

  /** Some moment after the interval at which less than a burst has been refilled. */
  lemma TooEarly(l: Limits) returns (later: real)
    requires NonNegative(l) && !RefillsBeforeEviction(l)
    ensures later > l.interval && l.rate as real * later < l.burst as real
  {
    var rate, burst := l.rate as real, l.burst as real;
    var slack := if l.rate == 0 then 1.0 else (burst - rate * l.interval) / (2.0 * rate);
    later := l.interval + slack;
    assert rate * slack < burst - rate * l.interval by {
      if l.rate > 0 {
        assert (2.0 * rate) * slack == burst - rate * l.interval;
      }
    }
    Distribute(rate, l.interval, slack);
  }

  /** The condition cannot be dropped: without it some window admits more than its share. */
  lemma EvictionRefundsWithoutCondition(l: Limits, ip: string) returns (run: seq<Event>, t: real)
    requires NonNegative(l) && !RefillsBeforeEviction(l)
    ensures Window(run, 0, |run|, 0.0, t)
    ensures Admitted(l, run, 0, |run|, ip) as real > l.burst as real + l.rate as real * t
  {
    hide Admitted, Earned, Window;
    t := TooEarly(l);
    run := Twice(l, ip, t);
    EvictionRefunds(l, ip, t);
  }

  /** The bound on windows holds for exactly the limits whose buckets refill before they may
      be evicted: rate*interval >= burst. */
  lemma WindowsBoundedIff(l: Limits)
    requires NonNegative(l)
    ensures WindowsBounded(l) <==> RefillsBeforeEviction(l)
  {
    hide Admitted, Earned, ClockNeverBack;
    if RefillsBeforeEviction(l) {
      forall run, i: nat, j: nat, ip, start, t | Window(run, i, j, start, t)
        ensures Admitted(l, run, i, j, ip) as real <= l.burst as real + l.rate as real * t
      {
        AdmittedInWindow(l, run, i, j, ip, start, t);
      }
    } else {
      var run, t := EvictionRefundsWithoutCondition(l, "c");
    }
  }

  /** With the ten-minute interval of the source, one request a minute and a burst of twenty
      are limits that do not keep the promise. */
  lemma SlowRefillBreaksTheBound()
    ensures !WindowsBounded(Limits(1, 20, 10.0))
  {
    WindowsBoundedIff(Limits(1, 20, 10.0));
  }

  /** Eviction is unobservable for every bucket exactly under that condition. */
  lemma EvictionUnobservableIff(l: Limits)
    requires NonNegative(l)
    ensures RefillsBeforeEviction(l) <==>
            forall b: Bucket, now: real | 0.0 <= b.tokens <= l.burst as real && Stale(l, b, now) :: Refilled(l, b, now) == l.burst as real
  {
    if RefillsBeforeEviction(l) {
      forall b: Bucket, now: real | 0.0 <= b.tokens <= l.burst as real && Stale(l, b, now) ensures Refilled(l, b, now) == l.burst as real {
        StaleIsFull(l, b, now);
      }
    } else {
      hide Earned;
      var now := TooEarly(l);
      var b := Bucket(0.0, 0.0);
      assert now - b.lastSeen == now;
      EarnedIs(l.rate, now);
      assert Stale(l, b, now) && Refilled(l, b, now) != l.burst as real;
    }
  }

  // ---------------------------------------------------------------- what a client gets

  /** When the client last asked, admitted or not. */
  datatype Asked = Never | LastAt(t: real)

  function LastRequest(run: seq<Event>, ip: string): Asked {
    if run == [] then Never
    else match run[|run| - 1]
      case Request(who, now) => if who == ip then LastAt(now) else LastRequest(run[..|run| - 1], ip)
      case Cleanup(_) => LastRequest(run[..|run| - 1], ip)
  }

  /** A bucket's lastSeen is its client's latest request, whatever the answer was, and its tokens
      are between 0 and the burst. */
  ghost predicate Tracks(l: Limits, run: seq<Event>, ip: string) {
    ip in After(l, run) ==>
      && LastRequest(run, ip) == LastAt(After(l, run)[ip].lastSeen)
      && 0.0 <= After(l, run)[ip].tokens <= l.burst as real
  }

  lemma TakenInRange(l: Limits, b: Bucket, now: real)
    requires NonNegative(l) && 0.0 <= b.tokens <= l.burst as real
    ensures 0.0 <= Taken(l, b, now).tokens <= l.burst as real && Taken(l, b, now).lastSeen == now
  {
    hide Earned;
    if now > b.lastSeen {
      EarnedAdds(l.rate, now - b.lastSeen, 0.0);
    }
  }

  lemma {:induction false} BucketTracksClient(l: Limits, run: seq<Event>, ip: string)
    requires NonNegative(l)
    ensures Tracks(l, run, ip)
  {
    if run != [] {
      var front := run[..|run| - 1];
      BucketTracksClient(l, front, ip);
      match run[|run| - 1] {
        case Request(who, now) => TakenInRange(l, BucketOf(l, After(l, front), who, now), now) by {
          if who != ip { BucketTracksClient(l, front, who); }
        }
        case Cleanup(_) =>
      }
    }
  }

  /** A cleanup drops a client's bucket exactly when the client last asked more than the interval
      ago; every other bucket stays as it is. */
  lemma CleanupDropsTheIdle(l: Limits, run: seq<Event>, now: real, ip: string)
    requires NonNegative(l)
    ensures var before, after := After(l, run), After(l, run + [Cleanup(now)]);
            && (ip in after <==> ip in before && LastRequest(run, ip).LastAt? && now - LastRequest(run, ip).t <= l.interval)
            && (ip in after ==> after[ip] == before[ip])
  {
    var all := run + [Cleanup(now)];
    assert all[..|all| - 1] == run;
    BucketTracksClient(l, run, ip);
  }

  lemma AdmittedOnAccrual(l: Limits, run: seq<Event>, ip: string, now: real)
    requires NonNegative(l) && l.burst >= 1
    requires var last := LastRequest(run, ip); last.LastAt? ==> now >= last.t && Accrued(l, last.t, now) >= 1.0
    ensures Allows(l, After(l, run), ip, now)
  {
    hide Refilled, Accrued;
    BucketTracksClient(l, run, ip);
    var m := After(l, run);
    WholeToken(l.burst);
    if ip in m {
      RefillInTermsOfAccrual(l, m[ip], now);
    } else {
      FullAtOnce(l, now);
    }
  }

  lemma FullAtOnce(l: Limits, now: real)
    requires NonNegative(l)
    ensures Refilled(l, Bucket(l.burst as real, now), now) == l.burst as real
  {
  }

  /** Over any run, whatever others do and however often buckets are cleaned up: a client that
      last asked at t0 is admitted again as soon as rate times the minutes since then makes a
      whole token; one that never asked is admitted at once. */
  lemma AdmittedAfterOneTokensTime(l: Limits, run: seq<Event>, ip: string, now: real)
    requires NonNegative(l) && l.burst >= 1
    requires var last := LastRequest(run, ip);
             last.LastAt? ==> now >= last.t && l.rate as real * (now - last.t) >= 1.0
    ensures Allows(l, After(l, run), ip, now)
  {
    hide Allows, After, LastRequest;
    AdmittedOnAccrual(l, run, ip, now);
  }

  lemma RefusedOnAccrual(l: Limits, m: Clients, ip: string, now: real)
    requires NonNegative(l) && l.burst >= 1 && ip in m && m[ip].tokens <= l.burst as real && m[ip].lastSeen <= now
    ensures var x := m[ip].tokens + Accrued(l, m[ip].lastSeen, now);
            && (Allows(l, m, ip, now) <==> x >= 1.0)
            && Charged(l, m, ip, now)[ip].tokens == Least(l.burst as real, x) - (if Allows(l, m, ip, now) then 1.0 else 0.0)
  {
    hide Refilled, Accrued;
    RefillInTermsOfAccrual(l, m[ip], now);
    WholeToken(l.burst);
  }

  /** A client whose bucket is there is refused exactly when what it had left and what has accrued
      since come to less than a token. */
  lemma RefusedExactlyWhenShort(l: Limits, m: Clients, ip: string, b: Bucket, now: real)
    requires NonNegative(l) && l.burst >= 1 && ip in m && m[ip] == b && b.tokens <= l.burst as real && b.lastSeen <= now
    ensures var held := b.tokens + l.rate as real * (now - b.lastSeen);
            && (Allows(l, m, ip, now) <==> held >= 1.0)
            && Charged(l, m, ip, now)[ip].tokens == Least(l.burst as real, held) - (if Allows(l, m, ip, now) then 1.0 else 0.0)
  {
    hide Allows, Charged, Least;
    RefusedOnAccrual(l, m, ip, now);
    assert Accrued(l, b.lastSeen, now) == l.rate as real * (now - b.lastSeen);
  }

  // ---------------------------------------------------------------- what cannot be observed

  /** Two client tables no request can tell apart from now on. */
  ghost predicate Alike(l: Limits, m: Clients, m': Clients, now: real) {
    && Sane(l, m, now) && Sane(l, m', now)
    && forall ip: string :: Available(l, m, ip, now) == Available(l, m', ip, now)
  }

  lemma AlikeLater(l: Limits, m: Clients, m': Clients, t1: real, t2: real)
    requires l.rate >= 0 && l.burst >= 0 && Alike(l, m, m', t1) && t1 <= t2
    ensures Alike(l, m, m', t2)
  {
    forall ip: string ensures Available(l, m, ip, t2) == Available(l, m', ip, t2) {
      assert Available(l, m, ip, t1) == Available(l, m', ip, t1);
      AvailableStep(l, m, ip, t1, t2);
      AvailableStep(l, m', ip, t1, t2);
    }
  }

  lemma AvailableStep(l: Limits, m: Clients, ip: string, t1: real, t2: real)
    requires l.rate >= 0 && l.burst >= 0 && Sane(l, m, t1) && t1 <= t2
    ensures Available(l, m, ip, t2) == Refilled(l, Bucket(Available(l, m, ip, t1), t1), t2)
  {
    hide Earned;
    EarnedAdds(l.rate, t2 - t1, 0.0);
    if ip in m {
      RefillAdditive(l, m[ip], t1, t2);
    }
  }

  /** The same event on both sides, with the same decision. */
  lemma AlikeStep(l: Limits, m: Clients, m': Clients, e: Event)
    requires RefillsBeforeEviction(l) && Alike(l, m, m', e.now)
    ensures Alike(l, Apply(l, m, e), Apply(l, m', e), e.now)
    ensures e.Request? ==> Allows(l, m, e.ip, e.now) == Allows(l, m', e.ip, e.now)
  {
    if e.Request? {
      assert Available(l, m, e.ip, e.now) == Available(l, m', e.ip, e.now);
    }
    forall ip: string ensures Available(l, Apply(l, m, e), ip, e.now) == Available(l, Apply(l, m', e), ip, e.now) {
      StepAccounting(l, m, e, ip);
      StepAccounting(l, m', e, ip);
      assert Available(l, m, ip, e.now) == Available(l, m', ip, e.now);
    }
    StepAccounting(l, m, e, "");
    StepAccounting(l, m', e, "");
  }

  /** A cleanup or a refused request on one side only. */
  lemma AlikeSkip(l: Limits, m: Clients, m': Clients, e: Event)
    requires RefillsBeforeEviction(l) && Alike(l, m, m', e.now)
    requires e.Request? ==> !Allows(l, m, e.ip, e.now)
    ensures Alike(l, Apply(l, m, e), m', e.now)
  {
    forall ip: string ensures Available(l, Apply(l, m, e), ip, e.now) == Available(l, m', ip, e.now) {
      StepAccounting(l, m, e, ip);
      assert Available(l, m, ip, e.now) == Available(l, m', ip, e.now);
    }
    StepAccounting(l, m, e, "");
  }

  /** What the callers see: one answer per request, in order (cleanups answer false). */
  function Answers(l: Limits, run: seq<Event>): seq<bool> {
    if run == [] then []
    else
      var front, e := run[..|run| - 1], run[|run| - 1];
      Answers(l, front) + [e.Request? && Allows(l, After(l, front), e.ip, e.now)]
  }

  /** The elements of s marked in keep. */
  function Pick<T>(s: seq<T>, keep: seq<bool>): seq<T>
    requires |s| == |keep|
  {
    if s == [] then []
    else Pick(s[..|s| - 1], keep[..|s| - 1]) + if keep[|s| - 1] then [s[|s| - 1]] else []
  }

  lemma {:induction false} AnswersLength(l: Limits, run: seq<Event>)
    ensures |Answers(l, run)| == |run|
  {
    if run != [] {
      AnswersLength(l, run[..|run| - 1]);
    }
  }

  lemma AnswersFront(l: Limits, run: seq<Event>)
    requires run != []
    ensures |Answers(l, run)| == |run| && |Answers(l, run[..|run| - 1])| == |run| - 1
    ensures Answers(l, run)[..|run| - 1] == Answers(l, run[..|run| - 1])
    ensures var e := run[|run| - 1];
            Answers(l, run)[|run| - 1] == (e.Request? && Allows(l, After(l, run[..|run| - 1]), e.ip, e.now))
  {
    AnswersLength(l, run);
    AnswersLength(l, run[..|run| - 1]);
  }

  /** What the runs with and without some of the events have in common. */
  ghost predicate Untraced(l: Limits, run: seq<Event>, keep: seq<bool>, now: real)
    requires |keep| == |run| == |Answers(l, run)|
  {
    && Answers(l, Pick(run, keep)) == Pick(Answers(l, run), keep)
    && Alike(l, After(l, run), After(l, Pick(run, keep)), now)
  }

  lemma PickFront<T>(s: seq<T>, keep: seq<bool>)
    requires |s| == |keep| > 0
    ensures Pick(s, keep) == Pick(s[..|s| - 1], keep[..|s| - 1]) + if keep[|s| - 1] then [s[|s| - 1]] else []
  {
  }

  /** One more event, kept on both sides. */
  lemma KeptEvent(l: Limits, run: seq<Event>, keep: seq<bool>)
    requires RefillsBeforeEviction(l) && |keep| == |run| == |Answers(l, run)| > 0 && keep[|run| - 1]
    requires |Answers(l, run[..|run| - 1])| == |run| - 1
    requires Untraced(l, run[..|run| - 1], keep[..|run| - 1], run[|run| - 1].now)
    ensures Untraced(l, run, keep, run[|run| - 1].now)
  {
    hide Apply, Allows, Alike, RefillsBeforeEviction, Pick;
    var n := |run| - 1;
    var e := run[n];
    AnswersFront(l, run);
    PickFront(run, keep);
    PickFront(Answers(l, run), keep);
    var kept, short := Pick(run, keep), Pick(run[..n], keep[..n]);
    assert kept[..|kept| - 1] == short && kept[|kept| - 1] == e;
    AnswersFront(l, kept);
    AlikeStep(l, After(l, run[..n]), After(l, short), e);
  }

  /** One more event, dropped from one side: a cleanup or a refused request. */
  lemma SkippedEvent(l: Limits, run: seq<Event>, keep: seq<bool>)
    requires RefillsBeforeEviction(l) && |keep| == |run| == |Answers(l, run)| > 0 && !keep[|run| - 1]
    requires !Answers(l, run)[|run| - 1] && |Answers(l, run[..|run| - 1])| == |run| - 1
    requires Untraced(l, run[..|run| - 1], keep[..|run| - 1], run[|run| - 1].now)
    ensures Untraced(l, run, keep, run[|run| - 1].now)
  {
    hide Apply, Allows, Alike, RefillsBeforeEviction, Pick;
    var n := |run| - 1;
    AnswersFront(l, run);
    PickFront(run, keep);
    PickFront(Answers(l, run), keep);
    AlikeSkip(l, After(l, run[..n]), After(l, Pick(run[..n], keep[..n])), run[n]);
    assert Pick(run, keep) == Pick(run[..n], keep[..n]);
    assert Pick(Answers(l, run), keep) == Pick(Answers(l, run[..n]), keep[..n]);
  }

  lemma NothingHappened(l: Limits, run: seq<Event>, keep: seq<bool>, now: real)
    requires |keep| == |run| == |Answers(l, run)| == 0
    ensures Untraced(l, run, keep, now)
  {
    var m := After(l, run);
    assert Pick(run, keep) == run;
    forall ip: string ensures Available(l, m, ip, now) == Available(l, After(l, Pick(run, keep)), ip, now) {
    }
  }

  /** Refused requests and evictions leave no trace: drop any of them from a run, and every
      remaining request gets the answer it got before. */
  lemma {:induction false} RefusalsAndEvictionsLeaveNoTrace(l: Limits, run: seq<Event>, keep: seq<bool>, now: real)
    requires RefillsBeforeEviction(l) && ClockNeverBack(run) && |keep| == |run| == |Answers(l, run)|
    requires run != [] ==> run[|run| - 1].now <= now
    requires forall i | 0 <= i < |run| :: !keep[i] ==> !Answers(l, run)[i]
    ensures Answers(l, Pick(run, keep)) == Pick(Answers(l, run), keep)
    ensures Alike(l, After(l, run), After(l, Pick(run, keep)), now)
  {
    hide Apply, Allows, Alike, Answers, After, Pick, Available, Refilled;
    if run == [] {
      NothingHappened(l, run, keep, now);
    } else {
      var n := |run| - 1;
      AnswersFront(l, run);
      RefusalsAndEvictionsLeaveNoTrace(l, run[..n], keep[..n], run[n].now);
      assert Untraced(l, run[..n], keep[..n], run[n].now);
      if keep[n] { KeptEvent(l, run, keep); } else { SkippedEvent(l, run, keep); }
      AlikeLater(l, After(l, run), After(l, Pick(run, keep)), run[n].now, now);
    }
  }
}
