/** What a goroutine achieves when it runs alone for a while: Get, Put, Discard, a maintenance
    tick and Close each do their job, whatever state the others left behind. */
module PoolProgress {
  import opened Pool
  import opened PoolInvariant

  /** Goroutine t takes the given steps while everyone else waits. */
  function Alone(s: State, t: Tid, plan: seq<Choice>): State
    decreases |plan|
  {
    if plan == [] then s else Alone(Next(s, t, plan[0]), t, plan[1..])
  }

  lemma {:induction false} AloneConcat(s: State, t: Tid, a: seq<Choice>, b: seq<Choice>)
    ensures Alone(s, t, a + b) == Alone(Alone(s, t, a), t, b)
    decreases |a|
  {
    hide Next;
    if a == [] {
      assert a + b == b;
    } else {
      assert (a + b)[1..] == a[1..] + b;
      AloneConcat(Next(s, t, a[0]), t, a[1..], b);
    }
  }

  /** n steps under the same circumstances. */
  function Times(e: Choice, n: nat): (plan: seq<Choice>)
    ensures |plan| == n
  {
    seq(n, _ => e)
  }

  lemma One(s: State, t: Tid, e: Choice, n: nat)
    requires n > 0
    ensures Alone(s, t, Times(e, n)) == Alone(Next(s, t, e), t, Times(e, n - 1))
  {
    hide Next;
    assert Times(e, n)[0] == e;
    assert Times(e, n)[1..] == Times(e, n - 1);
  }

  lemma Zero(s: State, t: Tid, e: Choice)
    ensures Alone(s, t, Times(e, 0)) == s
  {
  }

  predicate At(s: State, t: Tid, p: Pc) { t in s.threads && s.threads[t].pending.Ready? && s.threads[t].pc == p }

  // ---------------------------------------------------------------- single steps

  lemma GetStepAlone(s: State, t: Tid, e: Choice)
    requires t in s.threads && s.threads[t].pending.Ready? && InGet(s.threads[t].pc)
    ensures Next(s, t, e) == GetAct(s, t, e)
  {
    hide GetAct;
  }

  lemma PutStepAlone(s: State, t: Tid, e: Choice)
    requires t in s.threads && s.threads[t].pending.Ready? && InPut(s.threads[t].pc)
    ensures Next(s, t, e) == PutAct(s, t, e)
  {
    hide PutAct;
  }

  lemma MaintStepAlone(s: State, t: Tid, e: Choice)
    requires t in s.threads && s.threads[t].pending.Ready? && Maintaining(s.threads[t].pc)
    ensures Next(s, t, e) == MaintAct(s, t, e)
  {
    hide MaintAct;
  }

  lemma CloseStepAlone(s: State, t: Tid, e: Choice)
    requires t in s.threads && s.threads[t].pending.Ready? && InClose(s.threads[t].pc)
    ensures Next(s, t, e) == CloseAct(s, t, e)
  {
    hide CloseAct;
  }

  lemma PendingAlone(s: State, t: Tid, e: Choice)
    requires t in s.threads && !s.threads[t].pending.Ready?
    ensures Next(s, t, e) == match s.threads[t].pending
                             case SubSize => SetThread(s, t, s.threads[t].(pending := Ready)).(size := s.size - 1)
                             case AddSize => SetThread(s, t, s.threads[t].(pending := Ready)).(size := s.size + 1)
                             case CloseSocket(c) => Shut(s, t, c)
                             case ReleaseSlot(c) => Release(s, t, c)
                             case Ready => s
  {
    hide Act;
  }

  lemma Two(s: State, t: Tid, e: Choice, n: nat)
    requires n >= 2
    ensures Alone(s, t, Times(e, n)) == Alone(Next(Next(s, t, e), t, e), t, Times(e, n - 2))
    ensures Alone(s, t, Times(e, 2)) == Next(Next(s, t, e), t, e)
  {
    hide Next, Times;
    One(s, t, e, n);
    One(Next(s, t, e), t, e, n - 1);
    One(s, t, e, 2);
    One(Next(s, t, e), t, e, 1);
    Zero(Next(Next(s, t, e), t, e), t, e);
  }

  /** The two steps of a teardown: the socket is closed, the slot given back. */
  lemma TornDown(s: State, t: Tid, e: Choice)
    requires t in s.threads && s.threads[t].pending.CloseSocket?
    ensures var c, p := s.threads[t].pending.c, s.threads[t].pc;
            var s' := Alone(s, t, Times(e, 2));
            && At(s', t, p) && s'.shut == s.shut + {c} && s'.active == s.active - 1
            && s'.channel == s.channel && s'.size == s.size && s'.closed == s.closed && s'.max == s.max
            && s'.broken == s.broken && s'.created == s.created
  {
    hide Act, Next, Alone, Times;
    Two(s, t, e, 2);
    PendingAlone(s, t, e);
    PendingAlone(Next(s, t, e), t, e);
  }

  // ---------------------------------------------------------------- Get

  /** On a closed pool Get fails at once. */
  lemma GetOnClosedPoolFails(s: State, t: Tid, e: Choice)
    requires At(s, t, GetOpen) && s.closed
    ensures Next(s, t, e) == FailGet(s, t)
  {
    GetStepAlone(s, t, e);
  }

  /** From an open pool with something in it, Get takes the oldest pooled connection when it is
      still usable. */
  lemma GetTakesPooled(s: State, t: Tid, e: Choice)
    requires At(s, t, GetOpen) && !s.closed && s.channel != [] && e.ok && !e.ctxDone
    ensures var s' := Alone(s, t, Times(e, 4));
            && At(s', t, Holding(s.channel[0])) && s'.channel == s.channel[1..]
            && s'.size == s.size - 1 && s'.active == s.active && s'.shut == s.shut && s'.created == s.created
  {
    hide Next;
    GetStepAlone(s, t, e);
    var a := Next(s, t, e);
    GetStepAlone(a, t, e);
    var b := Next(a, t, e);
    hide GetAct;
    PendingAlone(b, t, e);
    var c := Next(b, t, e);
    assert At(c, t, Validate(s.channel[0], 0, false));
    GetStepAlone(c, t, e);
    UsableIsGiven(c, t, e);
    One(s, t, e, 4);
    One(a, t, e, 3);
    One(b, t, e, 2);
    One(c, t, e, 1);
    Zero(Next(c, t, e), t, e);
  }

  lemma UsableIsGiven(s: State, t: Tid, e: Choice)
    requires t in s.threads && s.threads[t].pending.Ready? && s.threads[t].pc.Validate? && e.ok
    ensures GetAct(s, t, e) == SetThread(s, t, GotConn(s.threads[t], s.threads[t].pc.c))
  {
  }

  /** A pooled connection that is no longer usable is closed and its slot given back, and Get
      goes on looking, or gives up if it had been waiting. */
  lemma UnusableIsClosed(s: State, t: Tid, e: Choice)
    requires t in s.threads && s.threads[t].pending.Ready? && s.threads[t].pc.Validate? && !e.ok
    ensures var p := s.threads[t].pc;
            var s' := Alone(s, t, Times(e, 3));
            && At(s', t, if p.waited then WaitFailed else GetCtx(p.attempt))
            && s'.shut == s.shut + {p.c} && s'.active == s.active - 1 && s'.channel == s.channel && s'.size == s.size
  {
    GetStepAlone(s, t, e);
    var a := Next(s, t, e);
    hide Next;
    One(s, t, e, 3);
    TornDown(a, t, e);
  }

  /** The four steps up to the reservation. */
  lemma GetReserves(s: State, t: Tid, e: Choice)
    requires At(s, t, GetOpen) && !s.closed && s.channel == [] && s.active < s.max && !e.ctxDone
    ensures Alone(s, t, Times(e, 5)) == Goto(s, t, Dial).(active := s.active + 1)
  {
    hide Next, Act, Alone, Times;
    var a := Next(s, t, e);
    GetStepAlone(s, t, e);
    assert a == Goto(s, t, GetTake(0));
    LoadedAlone(a, t, e, 0);
    One(s, t, e, 5);
    StepsAhead(a, t, e, 3, 4);
    var d := Goto(s, t, CasActive(0, s.active));
    assert Alone(a, t, Times(e, 3)) == d;
    GetStepAlone(d, t, e);
    One(d, t, e, 1);
    Zero(Next(d, t, e), t, e);
  }

  /** With nothing pooled and room in the budget, Get reserves a slot and dials; a failed dial
      gives the slot back and ends Get with an error. */
  lemma GetDialsWhenThereIsRoom(s: State, t: Tid, e: Choice)
    requires At(s, t, GetOpen) && !s.closed && s.channel == [] && s.active < s.max && !e.ctxDone
    ensures e.ok ==> var s' := Alone(s, t, Times(e, 6));
                     At(s', t, Holding(s.created)) && s'.active == s.active + 1 && s'.created == s.created + 1
    ensures !e.ok ==> var s' := Alone(s, t, Times(e, 7));
                      At(s', t, Idle) && s'.active == s.active && s'.threads[t].book.errors == s.threads[t].book.errors + 1
  {
    hide Next, Act, Alone, Times;
    GetReserves(s, t, e);
    var f := Goto(s, t, Dial).(active := s.active + 1);
    GetStepAlone(f, t, e);
    if e.ok {
      StepsAhead(s, t, e, 5, 6);
      One(f, t, e, 1);
      Zero(Next(f, t, e), t, e);
    } else {
      StepsAhead(s, t, e, 5, 7);
      Two(f, t, e, 2);
      assert Next(f, t, e) == Goto(f, t, DialFailed);
      GetStepAlone(Goto(f, t, DialFailed), t, e);
    }
  }

  lemma StepsAhead(s: State, t: Tid, e: Choice, n: nat, m: nat)
    requires n <= m
    ensures Alone(s, t, Times(e, m)) == Alone(Alone(s, t, Times(e, n)), t, Times(e, m - n))
  {
    assert Times(e, m) == Times(e, n) + Times(e, m - n);
    AloneConcat(s, t, Times(e, n), Times(e, m - n));
  }

  /** An attempt that finds nothing pooled looks at its context and at the budget. */
  lemma LoadedAlone(s: State, t: Tid, e: Choice, attempt: nat)
    requires At(s, t, GetTake(attempt)) && s.channel == [] && !e.ctxDone
    ensures Alone(s, t, Times(e, 3)) ==
            Goto(s, t, if s.active < s.max then CasActive(attempt, s.active)
                       else if attempt == MAX_RETRIES - 1 then GetWait(attempt) else GetDelay(attempt))
  {
    hide Next, Act;
    GetStepAlone(s, t, e);
    var a := Next(s, t, e);
    assert a == Goto(s, t, GetCtx(attempt));
    GetStepAlone(a, t, e);
    var b := Next(a, t, e);
    assert b == Goto(s, t, LoadActive(attempt));
    GetStepAlone(b, t, e);
    One(s, t, e, 3);
    One(a, t, e, 2);
    One(b, t, e, 1);
    Zero(Next(b, t, e), t, e);
  }

  /** With the budget spent and nothing pooled, Get tries three times and then waits. */
  lemma GetWaitsWhenThereIsNone(s: State, t: Tid, e: Choice)
    requires At(s, t, GetOpen) && !s.closed && s.channel == [] && s.active >= s.max && !e.ctxDone
    ensures Alone(s, t, Times(e, 12)) == Goto(s, t, GetWait(2))
  {
    hide Next, Act;
    var a := Next(s, t, e);
    GetStepAlone(s, t, e);
    assert a == Goto(s, t, GetTake(0));
    One(s, t, e, 12);
    OneAttempt(s, a, t, e, 0);
    StepsAhead(a, t, e, 4, 11);
    var b := Goto(s, t, GetTake(1));
    OneAttempt(s, b, t, e, 1);
    StepsAhead(b, t, e, 4, 7);
    LoadedAlone(Goto(s, t, GetTake(2)), t, e, 2);
    assert Goto(Goto(s, t, GetTake(2)), t, GetWait(2)) == Goto(s, t, GetWait(2));
  }

  lemma OneAttempt(s: State, a: State, t: Tid, e: Choice, attempt: nat)
    requires t in s.threads && s.threads[t].pending.Ready? && a == Goto(s, t, GetTake(attempt))
    requires s.channel == [] && s.active >= s.max && !e.ctxDone && attempt < 2
    ensures Alone(a, t, Times(e, 4)) == Goto(s, t, GetTake(attempt + 1))
  {
    hide Next, Act;
    LoadedAlone(a, t, e, attempt);
    var b := Alone(a, t, Times(e, 3));
    assert b == Goto(s, t, GetDelay(attempt));
    StepsAhead(a, t, e, 3, 4);
    GetStepAlone(b, t, e);
    One(b, t, e, 1);
    Zero(Next(b, t, e), t, e);
  }

  /** A done context ends Get with an error wherever it is looked at: between attempts, while
      waiting on an empty channel, and during the delay. */
  lemma DoneContextEndsGet(s: State, t: Tid, e: Choice)
    requires t in s.threads && s.threads[t].pending.Ready? && e.ctxDone
    requires var p := s.threads[t].pc; p.GetCtx? || p.GetDelay? || (p.GetWait? && s.channel == [])
    ensures Next(s, t, e) == FailGet(s, t)
  {
    GetStepAlone(s, t, e);
  }

  /** A waiting Get stays until a connection arrives, and takes it. */
  lemma WaitingGetTakesTheNext(s: State, t: Tid, e: Choice, attempt: nat)
    requires At(s, t, GetWait(attempt)) && !e.ctxDone
    ensures s.channel == [] ==> Next(s, t, e) == s
    ensures s.channel != [] ==> Next(s, t, e) == Receive(s, t, Validate(s.channel[0], attempt, true))
  {
    GetStepAlone(s, t, e);
  }

  // ---------------------------------------------------------------- Put and Discard

  /** Put pools a usable connection of an open pool. */
  lemma PutPools(s: State, t: Tid, c: Conn, late: bool, e: Choice)
    requires At(s, t, PutLoad(c, late)) && c !in s.broken && !s.closed && e.ok && |s.channel| < s.max
    ensures var s' := Alone(s, t, Times(e, 5));
            && At(s', t, Idle) && s'.channel == s.channel + [c] && s'.size == s.size + 1
            && s'.active == s.active && s'.shut == s.shut
  {
    hide Next, Act;
    var a := Next(s, t, e);
    PutStepAlone(s, t, e);
    assert At(a, t, PutClosed(c, late)) && SameShared(s, a);
    var b := Next(a, t, e);
    PutStepAlone(a, t, e);
    assert At(b, t, PutUsable(c, late)) && SameShared(s, b);
    var d := Next(b, t, e);
    PutStepAlone(b, t, e);
    assert At(d, t, PutSend(c, late)) && SameShared(s, d);
    var f := Next(d, t, e);
    PutStepAlone(d, t, e);
    assert f == Send(d, t, c, Idle);
    PendingAlone(f, t, e);
    One(s, t, e, 5);
    One(a, t, e, 4);
    One(b, t, e, 3);
    One(d, t, e, 2);
    One(f, t, e, 1);
    Zero(Next(f, t, e), t, e);
  }

  /** Everything but the goroutines is the same. */
  predicate SameShared(s: State, s': State) { s' == s.(threads := s'.threads) }

  /** Put closes a connection that is not usable, or any when the pool is closed. */
  lemma PutCloses(s: State, t: Tid, c: Conn, late: bool, e: Choice)
    requires At(s, t, PutLoad(c, late)) && c !in s.broken && (s.closed || !e.ok)
    ensures var s' := Alone(s, t, Times(e, if s.closed then 4 else 5));
            && At(s', t, Idle) && s'.shut == s.shut + {c} && s'.active == s.active - 1
            && s'.channel == s.channel && s'.size == s.size
  {
    hide Next, Act;
    var a := Next(s, t, e);
    PutStepAlone(s, t, e);
    assert At(a, t, PutClosed(c, late)) && SameShared(s, a);
    var b := Next(a, t, e);
    PutStepAlone(a, t, e);
    if s.closed {
      assert b == TearDown(a, t, c, Idle);
      One(s, t, e, 4);
      One(a, t, e, 3);
      TornDown(b, t, e);
    } else {
      assert At(b, t, PutUsable(c, late)) && SameShared(s, b);
      var d := Next(b, t, e);
      PutStepAlone(b, t, e);
      assert d == TearDown(b, t, c, Idle);
      One(s, t, e, 5);
      One(a, t, e, 4);
      One(b, t, e, 3);
      TornDown(d, t, e);
    }
  }

  /** Discard flags the connection, closes it and gives its slot back. */
  lemma DiscardCloses(s: State, t: Tid, c: Conn, e: Choice)
    requires At(s, t, DiscardCas(c)) && c !in s.broken
    ensures var s' := Alone(s, t, Times(e, 3));
            && At(s', t, SearchLoop) && s'.broken == s.broken + {c} && s'.shut == s.shut + {c}
            && s'.active == s.active - 1 && s'.channel == s.channel && s'.size == s.size
  {
    hide Next;
    var a := Next(s, t, e);
    assert a == Mark(s, t, c) by { CallerStepAlone(s, t, e); }
    One(s, t, e, 3);
    TornDown(a, t, e);
  }

  lemma CallerStepAlone(s: State, t: Tid, e: Choice)
    requires t in s.threads && s.threads[t].pending.Ready?
    requires var p := s.threads[t].pc; !InGet(p) && !InPut(p) && !Maintaining(p) && !InClose(p)
    ensures Next(s, t, e) == CallerAct(s, t, e)
  {
    hide CallerAct;
  }

  // ---------------------------------------------------------------- a maintenance tick

  /** One look at the environment: the clock has not run out, the connection is usable or not. */
  function Look(usable: bool): Choice { Choice(StartSearch, 0, false, true, usable, Success) }

  /** The steps for one pooled connection: receive, count, check, and two more to close it. */
  function CheckPlan(usable: bool): seq<Choice> { Times(Look(usable), if usable then 3 else 5) }

  function DrainPlan(q: seq<Conn>, good: set<Conn>): seq<Choice> {
    if q == [] then [] else CheckPlan(q[0] in good) + DrainPlan(q[1..], good)
  }

  /** Those of q that are still usable, in order. */
  function Good(q: seq<Conn>, good: set<Conn>): seq<Conn> {
    if q == [] then [] else (if q[0] in good then [q[0]] else []) + Good(q[1..], good)
  }

  /** Start the tick, drain, see the channel empty, reinsert, come to rest. */
  function TickPlan(q: seq<Conn>, good: set<Conn>): seq<Choice> {
    [Look(true)] + DrainPlan(q, good) + [Look(true)] + Times(Look(true), 2 * |Good(q, good)| + 1)
  }

  lemma DrainOne(s: State, t: Tid, v: seq<Conn>, usable: bool)
    requires At(s, t, Drain(v)) && s.channel != []
    ensures var c := s.channel[0];
            var s' := Alone(s, t, CheckPlan(usable));
            && At(s', t, Drain(if usable then v + [c] else v))
            && s'.channel == s.channel[1..] && s'.size == s.size - 1
            && s'.active == s.active - (if usable then 0 else 1) && s'.shut == (if usable then s.shut else s.shut + {c})
            && s'.max == s.max && s'.closed == s.closed
  {
    hide Next, Act;
    var e := Look(usable);
    var c := s.channel[0];
    var a := Next(s, t, e);
    MaintStepAlone(s, t, e);
    assert a == Receive(s, t, DrainCheck(v, c));
    PendingAlone(a, t, e);
    var b := Next(a, t, e);
    assert At(b, t, DrainCheck(v, c));
    MaintStepAlone(b, t, e);
    var d := Next(b, t, e);
    if usable {
      assert d == Goto(b, t, Drain(v + [c]));
      One(s, t, e, 3);
      One(a, t, e, 2);
      One(b, t, e, 1);
      Zero(d, t, e);
    } else {
      assert d == TearDown(b, t, c, Drain(v));
      One(s, t, e, 5);
      One(a, t, e, 4);
      One(b, t, e, 3);
      TornDown(d, t, e);
    }
  }

  lemma {:induction false} DrainAll(s: State, t: Tid, v: seq<Conn>, good: set<Conn>)
    requires At(s, t, Drain(v))
    ensures var q := s.channel;
            var s' := Alone(s, t, DrainPlan(q, good));
            && At(s', t, Drain(v + Good(q, good))) && s'.channel == []
            && s'.size == s.size - |q| && s'.active == s.active - (|q| - |Good(q, good)|)
            && s'.shut == s.shut + (Elems(q) - good)
            && s'.max == s.max && s'.closed == s.closed
    decreases |s.channel|
  {
    hide Next, At, CheckPlan;
    var q := s.channel;
    if q == [] {
      assert v + [] == v;
    } else {
      var usable := q[0] in good;
      DrainOne(s, t, v, usable);
      var m := Alone(s, t, CheckPlan(usable));
      var w := if usable then v + [q[0]] else v;
      DrainAll(m, t, w, good);
      AloneConcat(s, t, CheckPlan(usable), DrainPlan(q[1..], good));
      assert w + Good(q[1..], good) == v + Good(q, good);
      assert Elems(q) == {q[0]} + Elems(q[1..]) by { assert q == [q[0]] + q[1..]; }
    }
  }

  lemma ReinsertOne(s: State, t: Tid, v: seq<Conn>, e: Choice)
    requires At(s, t, Reinsert(v)) && v != [] && |s.channel| < s.max
    ensures var s' := Alone(s, t, Times(e, 2));
            && At(s', t, Reinsert(v[1..])) && s'.channel == s.channel + [v[0]] && s'.size == s.size + 1
            && s'.active == s.active && s'.shut == s.shut && s'.max == s.max
  {
    hide Next, Act;
    var a := Next(s, t, e);
    MaintStepAlone(s, t, e);
    assert a == Send(s, t, v[0], Reinsert(v[1..]));
    PendingAlone(a, t, e);
    One(s, t, e, 2);
    One(a, t, e, 1);
    Zero(Next(a, t, e), t, e);
  }

  lemma ReinsertNone(s: State, t: Tid, e: Choice)
    requires At(s, t, Reinsert([]))
    ensures Alone(s, t, Times(e, 1)) == Goto(s, t, MaintIdle) && At(Goto(s, t, MaintIdle), t, MaintIdle)
  {
    hide Next, Act;
    MaintStepAlone(s, t, e);
    One(s, t, e, 1);
    Zero(Next(s, t, e), t, e);
  }

  lemma {:induction false} ReinsertAll(s: State, t: Tid, v: seq<Conn>)
    requires At(s, t, Reinsert(v)) && |s.channel| + |v| <= s.max
    ensures var s' := Alone(s, t, Times(Look(true), 2 * |v| + 1));
            && At(s', t, MaintIdle) && s'.channel == s.channel + v && s'.size == s.size + |v|
            && s'.active == s.active && s'.shut == s.shut
    decreases |v|
  {
    var e := Look(true);
    hide Next, Alone, At, Times;
    if v == [] {
      ReinsertNone(s, t, e);
      assert s.channel + v == s.channel;
    } else {
      ReinsertOne(s, t, v, e);
      StepsAhead(s, t, e, 2, 2 * |v| + 1);
      var b := Alone(s, t, Times(e, 2));
      assert |b.channel| + |v[1..]| <= b.max;
      ReinsertAll(b, t, v[1..]);
      assert 2 * |v| + 1 - 2 == 2 * |v[1..]| + 1;
      assert s.channel + [v[0]] + v[1..] == s.channel + v;
    }
  }

  /** The tick up to the moment when the channel is found empty. */
  lemma TickDrains(s: State, t: Tid, good: set<Conn>)
    requires At(s, t, MaintIdle) && !s.closed
    ensures var q := s.channel;
            var s' := Alone(s, t, [Look(true)] + DrainPlan(q, good) + [Look(true)]);
            && At(s', t, Reinsert(Good(q, good))) && s'.channel == []
            && s'.size == s.size - |q| && s'.active == s.active - (|q| - |Good(q, good)|)
            && s'.shut == s.shut + (Elems(q) - good) && s'.max == s.max
  {
    hide Next, Act, Alone, DrainPlan, Good;
    var q, e := s.channel, Look(true);
    var a := Next(s, t, e);
    MaintStepAlone(s, t, e);
    assert a == Goto(s, t, Drain([]));
    var plan := DrainPlan(q, good);
    DrainAll(a, t, [], good);
    var b := Alone(a, t, plan);
    assert [] + Good(q, good) == Good(q, good);
    MaintStepAlone(b, t, e);
    assert Next(b, t, e) == Goto(b, t, Reinsert(Good(q, good)));
    AloneConcat(s, t, [e] + plan, [e]);
    AloneConcat(s, t, [e], plan);
    Single(s, t, e);
    Single(b, t, e);
  }

  /** A maintenance tick that is left alone keeps exactly the pooled connections that are still
      usable, in their order, closes all others and gives their slots back. */
  lemma TickKeepsTheUsable(s: State, t: Tid, good: set<Conn>)
    requires At(s, t, MaintIdle) && !s.closed && |s.channel| <= s.max
    ensures var q := s.channel;
            var s' := Alone(s, t, TickPlan(q, good));
            && At(s', t, MaintIdle) && s'.channel == Good(q, good)
            && s'.shut == s.shut + (Elems(q) - good)
            && s'.active == s.active - (|q| - |Good(q, good)|) && s'.size == s.size - (|q| - |Good(q, good)|)
  {
    hide Next, Act, Alone, DrainPlan, Good, Times, At, Elems;
    var q, e := s.channel, Look(true);
    var v := Good(q, good);
    TickDrains(s, t, good);
    var d := Alone(s, t, [e] + DrainPlan(q, good) + [e]);
    GoodIsShorter(q, good);
    ReinsertAll(d, t, v);
    AloneConcat(s, t, [e] + DrainPlan(q, good) + [e], Times(e, 2 * |v| + 1));
    assert [] + v == v;
  }

  lemma Single(s: State, t: Tid, e: Choice)
    ensures Alone(s, t, [e]) == Next(s, t, e)
  {
    hide Next;
    assert [e][1..] == [];
  }

  lemma {:induction false} GoodIsShorter(q: seq<Conn>, good: set<Conn>)
    ensures |Good(q, good)| <= |q|
  {
    if q != [] {
      GoodIsShorter(q[1..], good);
    }
  }

  /** Once the pool is closed the maintenance goroutine ends instead of ticking. */
  lemma MaintenanceEndsOnClose(s: State, t: Tid, e: Choice)
    requires At(s, t, MaintIdle) && s.closed
    ensures Next(s, t, e) == Goto(s, t, MaintExited)
  {
    MaintStepAlone(s, t, e);
  }

  // ---------------------------------------------------------------- Close

  /** Close sets the flag, and once no maintenance goroutine is left it empties the channel,
      closes every connection it finds there and gives its slot back. */
  lemma CloseDrainsThePool(s: State, t: Tid, e: Choice)
    requires At(s, t, CloseFlag) && !s.closed && forall u | u in s.threads :: !Maintaining(s.threads[u].pc)
    ensures var q := s.channel;
            var s' := Alone(s, t, Times(e, 3 + 5 * |q|));
            && At(s', t, Idle) && s'.closed && s'.channel == []
            && s'.shut == s.shut + Elems(q) && s'.active == s.active - |q| && s'.size == s.size - |q|
  {
    hide Next, Act;
    var n := |s.channel|;
    CloseStepAlone(s, t, e);
    var a := Next(s, t, e);
    assert a == Goto(s, t, CloseWait).(closed := true);
    CloseStepAlone(a, t, e);
    var b := Next(a, t, e);
    assert b == Goto(a, t, CloseDrain);
    One(s, t, e, 3 + 5 * n);
    One(a, t, e, 2 + 5 * n);
    hide CloseAct;
    CloseRest(b, t, e);
  }

  lemma {:induction false} CloseRest(s: State, t: Tid, e: Choice)
    requires At(s, t, CloseDrain)
    ensures var q := s.channel;
            var s' := Alone(s, t, Times(e, 1 + 5 * |q|));
            && At(s', t, Idle) && s'.closed == s.closed && s'.channel == []
            && s'.shut == s.shut + Elems(q) && s'.active == s.active - |q| && s'.size == s.size - |q|
    decreases |s.channel|
  {
    hide Next, Act;
    var q := s.channel;
    CloseStepAlone(s, t, e);
    var a := Next(s, t, e);
    if q == [] {
      assert a == Goto(s, t, Idle);
      One(s, t, e, 1);
      Zero(a, t, e);
    } else {
      CloseOne(s, t, e);
      var d := Alone(s, t, Times(e, 5));
      StepsAhead(s, t, e, 5, 1 + 5 * |q|);
      hide CloseAct;
      CloseRest(d, t, e);
      assert Elems(q) == {q[0]} + Elems(q[1..]) by { assert q == [q[0]] + q[1..]; }
      assert 1 + 5 * |q| - 5 == 1 + 5 * |d.channel|;
    }
  }

  lemma CloseOne(s: State, t: Tid, e: Choice)
    requires At(s, t, CloseDrain) && s.channel != []
    ensures var s' := Alone(s, t, Times(e, 5));
            && At(s', t, CloseDrain) && s'.closed == s.closed && s'.channel == s.channel[1..]
            && s'.shut == s.shut + {s.channel[0]} && s'.active == s.active - 1 && s'.size == s.size - 1
  {
    hide Next, Act;
    var c := s.channel[0];
    CloseStepAlone(s, t, e);
    var a := Next(s, t, e);
    assert a == Receive(s, t, CloseTaken(c));
    PendingAlone(a, t, e);
    var b := Next(a, t, e);
    assert At(b, t, CloseTaken(c));
    CloseStepAlone(b, t, e);
    var d := Next(b, t, e);
    assert d == TearDown(b, t, c, CloseDrain);
    One(s, t, e, 5);
    One(a, t, e, 4);
    One(b, t, e, 3);
    TornDown(d, t, e);
  }
}
