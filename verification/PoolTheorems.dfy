/** The pool's promises over every run: every schedule of every number of goroutines. */
module PoolTheorems {
  import opened Pool
  import opened PoolInvariant

  // ---------------------------------------------------------------- every step keeps the invariant

  /** What a goroutine may rely on when its turn comes. */
  lemma Facts(s: State, t: Tid)
    requires Inv(s) && t in s.threads
    ensures Local(s, s.threads[t])
    ensures forall c :: c in s.threads[t].hand <==> In(s, c, HeldBy(t))
    ensures s.threads[t].pending.Ready? ==>
              forall c | c in s.threads[t].hand :: c < s.created && c !in s.broken && c !in s.shut
  {
    forall c | c in s.threads[t].hand ensures c < s.created && FlagOk(s, s.threads[t], c) {
      assert In(s, c, HeldBy(t));
    }
  }

  lemma FailGetStep(s: State, t: Tid)
    requires Inv(s) && t in s.threads && s.threads[t].pending.Ready?
    requires InGet(s.threads[t].pc) && s.threads[t].hand == {} && !Dialing(s.threads[t])
    ensures Inv(FailGet(s, t))
  {
    hide Inv;
    Facts(s, t);
    QuietKeeps(s, t, FailGet(s, t).threads[t]);
  }

  lemma ValidateStep(s: State, t: Tid, e: Choice)
    requires Inv(s) && t in s.threads && s.threads[t].pending.Ready? && s.threads[t].pc.Validate?
    ensures Inv(GetAct(s, t, e))
  {
    hide Inv;
    Facts(s, t);
    var th := s.threads[t];
    var c := th.pc.c;
    if e.ok {
      GotConnLocal(s, th, c, s);
      QuietKeeps(s, t, GotConn(th, c));
    } else {
      assert th.hand - {c} == {};
      QuietKeeps(s, t, th.(pc := if th.pc.waited then WaitFailed else GetCtx(th.pc.attempt), pending := CloseSocket(c)));
    }
  }

  /** Actions of Get that neither receive nor touch a slot. */
  lemma GetQuietStep(s: State, t: Tid, e: Choice)
    requires Inv(s) && t in s.threads && s.threads[t].pending.Ready?
    requires var p := s.threads[t].pc; p.GetOpen? || p.GetCtx? || p.LoadActive? || p.WaitFailed? || p.GetDelay?
    ensures Inv(GetAct(s, t, e))
  {
    hide Inv;
    Facts(s, t);
    var th := s.threads[t];
    match th.pc
    case GetOpen =>
      if s.closed { FailGetStep(s, t); } else { QuietKeeps(s, t, th.(pc := GetTake(0))); }
    case GetCtx(a) =>
      if e.ctxDone { FailGetStep(s, t); } else { QuietKeeps(s, t, th.(pc := LoadActive(a))); }
    case LoadActive(a) =>
      if s.active < s.max { QuietKeeps(s, t, th.(pc := CasActive(a, s.active))); }
      else if a == MAX_RETRIES - 1 { QuietKeeps(s, t, th.(pc := GetWait(a))); }
      else { QuietKeeps(s, t, th.(pc := GetDelay(a))); }
    case WaitFailed => FailGetStep(s, t);
    case GetDelay(a) =>
      if e.ctxDone { FailGetStep(s, t); } else { QuietKeeps(s, t, th.(pc := GetTake(a + 1))); }
  }

  /** Actions of Get. */
  lemma GetStep(s: State, t: Tid, e: Choice)
    requires Inv(s) && t in s.threads && s.threads[t].pending.Ready? && InGet(s.threads[t].pc)
    ensures Inv(GetAct(s, t, e))
  {
    hide Inv;
    Facts(s, t);
    var th := s.threads[t];
    match th.pc
    case GetTake(a) =>
      if Takes(s, e) { ReceiveKeeps(s, t, Validate(s.channel[0], a, false)); }
      else { QuietKeeps(s, t, th.(pc := GetCtx(a))); }
    case GetWait(a) =>
      if Takes(s, e) { ReceiveKeeps(s, t, Validate(s.channel[0], a, true)); }
      else if e.ctxDone { FailGetStep(s, t); }
    case Validate(_, _, _) => ValidateStep(s, t, e);
    case CasActive(a, seen) =>
      if s.active == seen { ReserveKeeps(s, t); } else { QuietKeeps(s, t, th.(pc := LoadActive(a))); }
    case Dial =>
      if e.ok { DialOkKeeps(s, t); } else { QuietKeeps(s, t, th.(pc := DialFailed)); }
    case DialFailed => UnreserveKeeps(s, t);
    case GetExhausted =>
    case _ => GetQuietStep(s, t, e);
  }

  /** Actions of Put. */
  lemma PutStep(s: State, t: Tid, e: Choice)
    requires Inv(s) && t in s.threads && s.threads[t].pending.Ready? && InPut(s.threads[t].pc)
    ensures Inv(PutAct(s, t, e))
  {
    hide Inv;
    Facts(s, t);
    var th := s.threads[t];
    var c := th.pc.c;
    assert th.hand - {c} == {};
    match th.pc
    case PutLoad(_, late) => QuietKeeps(s, t, HandBack(th, c, PutClosed(c, late)));
    case PutClosed(_, late) =>
      if s.closed { TearDownStep(s, t, c, Idle); } else { QuietKeeps(s, t, th.(pc := PutUsable(c, late))); }
    case PutUsable(_, late) =>
      if e.ok { QuietKeeps(s, t, th.(pc := PutSend(c, late))); } else { TearDownStep(s, t, c, Idle); }
    case PutSend(_, _) =>
      if |s.channel| < s.max { SendKeeps(s, t, c, Idle); } else { TearDownStep(s, t, c, Idle); }
  }

  lemma TearDownStep(s: State, t: Tid, c: Conn, p: Pc)
    requires Inv(s) && t in s.threads && s.threads[t].pending.Ready? && !Dialing(s.threads[t])
    requires c in s.threads[t].hand && Resumable(p)
    requires Shape(s, p, s.threads[t].hand - {c}) && Ledger(s, p, s.threads[t].book)
    ensures Inv(TearDown(s, t, c, p))
  {
    hide Inv;
    Facts(s, t);
    QuietKeeps(s, t, s.threads[t].(pc := p, pending := CloseSocket(c)));
  }

  /** An idle goroutine starts something. */
  lemma IdleStep(s: State, t: Tid, e: Choice)
    requires Inv(s) && t in s.threads && s.threads[t].pending.Ready? && s.threads[t].pc.Idle?
    ensures Inv(CallerAct(s, t, e))
  {
    hide Inv;
    Facts(s, t);
    var th := s.threads[t];
    match e.action
    case StartSearch => QuietKeeps(s, t, th.(pc := SearchLoop, book := BLANK));
    case StartClose => QuietKeeps(s, t, th.(pc := CloseFlag));
    case CallPut => if e.conn in th.gone { QuietKeeps(s, t, th.(pc := StalePut(e.conn))); }
    case CallDiscard => if e.conn in th.gone { QuietKeeps(s, t, th.(pc := StaleDiscard(e.conn))); }
    case Rest =>
  }

  /** Actions of runSearch outside Get and Put. */
  lemma CallerStep(s: State, t: Tid, e: Choice)
    requires Inv(s) && t in s.threads && s.threads[t].pending.Ready?
    requires var p := s.threads[t].pc; !InGet(p) && !InPut(p) && !Maintaining(p) && !InClose(p)
    ensures Inv(CallerAct(s, t, e))
  {
    hide Inv;
    Facts(s, t);
    var th := s.threads[t];
    match th.pc
    case Idle => IdleStep(s, t, e);
    case SearchLoop =>
      if th.book.calls < SEARCH_ATTEMPTS {
        QuietKeeps(s, t, th.(pc := GetOpen, book := th.book.(calls := th.book.calls + 1)));
      } else { QuietKeeps(s, t, th.(pc := Idle, book := th.book.(verdict := SearchError(NetworkError)))); }
    case Holding(c) =>
      QuietKeeps(s, t, Searched(th, e.outcome, if e.outcome.NetworkError? then DiscardCas(c) else PutLoad(c, s.closed)));
    case DiscardCas(_) => MarkKeeps(s, t);
    case StalePut(_) => QuietKeeps(s, t, th.(pc := Idle));
    case StaleDiscard(_) => QuietKeeps(s, t, th.(pc := Idle));
  }

  /** Actions of the maintenance goroutine. */
  lemma MaintStep(s: State, t: Tid, e: Choice)
    requires Inv(s) && t in s.threads && s.threads[t].pending.Ready? && Maintaining(s.threads[t].pc)
    ensures Inv(MaintAct(s, t, e))
  {
    hide Inv;
    Facts(s, t);
    var th := s.threads[t];
    match th.pc
    case MaintIdle =>
      if s.closed { QuietKeeps(s, t, th.(pc := MaintExited)); }
      else if !e.action.Rest? { QuietKeeps(s, t, th.(pc := Drain([]))); }
    case Drain(v) =>
      if Takes(s, e) { ReceiveKeeps(s, t, DrainCheck(v, s.channel[0])); }
      else { QuietKeeps(s, t, th.(pc := Reinsert(v))); }
    case DrainCheck(_, _) => DrainCheckStep(s, t, e);
    case Reinsert(_) => ReinsertStep(s, t, e);
  }

  lemma DrainCheckStep(s: State, t: Tid, e: Choice)
    requires Inv(s) && t in s.threads && s.threads[t].pending.Ready? && s.threads[t].pc.DrainCheck?
    ensures Inv(MaintAct(s, t, e))
  {
    hide Inv;
    Facts(s, t);
    var th := s.threads[t];
    var v, c := th.pc.valid, th.pc.c;
    assert th.hand - {c} == Elems(v) && Elems(v + [c]) == Elems(v) + {c};
    if e.ok { QuietKeeps(s, t, th.(pc := Drain(v + [c]))); } else { TearDownStep(s, t, c, Drain(v)); }
  }

  lemma ReinsertStep(s: State, t: Tid, e: Choice)
    requires Inv(s) && t in s.threads && s.threads[t].pending.Ready? && s.threads[t].pc.Reinsert?
    ensures Inv(MaintAct(s, t, e))
  {
    hide Inv;
    Facts(s, t);
    var th := s.threads[t];
    var v := th.pc.valid;
    if v == [] { QuietKeeps(s, t, th.(pc := MaintIdle)); }
    else {
      assert v == [v[0]] + v[1..];
      assert Elems(v) - {v[0]} == Elems(v[1..]);
      if |s.channel| < s.max { SendKeeps(s, t, v[0], Reinsert(v[1..])); }
      else { TearDownStep(s, t, v[0], Reinsert(v[1..])); }
    }
  }

  /** Actions of Close. */
  lemma CloseStep(s: State, t: Tid, e: Choice)
    requires Inv(s) && t in s.threads && s.threads[t].pending.Ready? && InClose(s.threads[t].pc)
    ensures Inv(CloseAct(s, t, e))
  {
    hide Inv;
    Facts(s, t);
    var th := s.threads[t];
    match th.pc
    case CloseFlag =>
      if s.closed { QuietKeeps(s, t, th.(pc := Idle)); } else { CloseFlagKeeps(s, t); }
    case CloseWait =>
      if forall u | u in s.threads :: !Maintaining(s.threads[u].pc) { QuietKeeps(s, t, th.(pc := CloseDrain)); }
    case CloseDrain =>
      if s.channel != [] { ReceiveKeeps(s, t, CloseTaken(s.channel[0])); } else { QuietKeeps(s, t, th.(pc := Idle)); }
    case CloseTaken(c) =>
      assert th.hand - {c} == {};
      TearDownStep(s, t, c, CloseDrain);
    case MaintExited =>
  }

  lemma ActKeeps(s: State, t: Tid, e: Choice)
    requires Inv(s) && t in s.threads && s.threads[t].pending.Ready?
    ensures Inv(Act(s, t, e))
  {
    hide Inv, GetAct, PutAct, MaintAct, CloseAct, CallerAct;
    var p := s.threads[t].pc;
    if InGet(p) { GetStep(s, t, e); }
    else if InPut(p) { PutStep(s, t, e); }
    else if Maintaining(p) { MaintStep(s, t, e); }
    else if InClose(p) { CloseStep(s, t, e); }
    else { CallerStep(s, t, e); }
  }

  /** Every atomic action of every goroutine keeps the invariant. */
  lemma NextKeeps(s: State, t: Tid, e: Choice)
    requires Inv(s)
    ensures Inv(Next(s, t, e))
  {
    hide Inv, Act;
    if t in s.threads {
      match s.threads[t].pending
      case SubSize => SizeKeeps(s, t);
      case AddSize => SizeKeeps(s, t);
      case CloseSocket(_) => ShutKeeps(s, t);
      case ReleaseSlot(_) => ReleaseKeeps(s, t);
      case Ready => ActKeeps(s, t, e);
    }
  }

  lemma {:induction false} RunKeeps(s: State, schedule: seq<(Tid, Choice)>)
    requires Inv(s)
    ensures Inv(Run(s, schedule))
    decreases |schedule|
  {
    hide Inv, Next;
    if schedule != [] {
      NextKeeps(s, schedule[0].0, schedule[0].1);
      RunKeeps(Next(s, schedule[0].0, schedule[0].1), schedule[1..]);
    }
  }

  lemma InitialCounted(s: State)
    requires Initial(s)
    ensures Counted(s)
  {
    assert Where(s.threads, Dialing) == {};
    assert Where(s.threads, Adding) == {};
    assert Where(s.threads, Subbing) == {};
  }

  lemma InitialLocals(s: State)
    requires Initial(s)
    ensures Locals(s)
  {
    hide Counted;
    forall t | t in s.threads ensures Local(s, s.threads[t]) {
      assert s.threads[t].hand == {};
    }
  }

  lemma InitialHolds(s: State)
    requires Initial(s)
    ensures Inv(s)
  {
    hide Locals, Counted, Where;
    InitialCounted(s);
    InitialLocals(s);
  }

  /** Some schedule leads from a new pool to r. */
  ghost predicate Reachable(r: State) {
    exists s: State, schedule: seq<(Tid, Choice)> :: Initial(s) && Run(s, schedule) == r
  }

  lemma ReachableInv(r: State)
    requires Reachable(r)
    ensures Inv(r)
  {
    hide Inv, Initial;
    var s: State, schedule: seq<(Tid, Choice)> :| Initial(s) && Run(s, schedule) == r;
    InitialHolds(s);
    RunKeeps(s, schedule);
  }

  // ---------------------------------------------------------------- open sockets and the code's own variables

  /** The connections a program point mentions.  A stale Put or Discard mentions one that was
      discarded long ago, which is not its to use. */
  function Mentioned(p: Pc): set<Conn> {
    match p
    case Holding(c) => {c}
    case Validate(c, _, _) => {c}
    case PutLoad(c, _) => {c}
    case PutClosed(c, _) => {c}
    case PutUsable(c, _) => {c}
    case PutSend(c, _) => {c}
    case DiscardCas(c) => {c}
    case CloseTaken(c) => {c}
    case Drain(v) => Elems(v)
    case DrainCheck(v, c) => Elems(v) + {c}
    case Reinsert(v) => Elems(v)
    case _ => {}
  }

  /** The connections in a goroutine's local variables, the one it is closing included. */
  function Variables(th: Thread): set<Conn> {
    Mentioned(th.pc) + if Closing(th) then {th.pending.c} else {}
  }

  /** The history variable `hand` is just that. */
  lemma HandIsVariables(s: State, th: Thread)
    requires Sound(s, th)
    ensures th.hand == Variables(th)
  {
    match th.pending
    case CloseSocket(c) => assert th.hand == th.hand - {c} + {c};
    case ReleaseSlot(c) => assert th.hand == th.hand - {c} + {c};
    case _ =>
  }

  /** Connections that were dialled and whose socket has not been closed. */
  function Open(s: State): set<Conn> { set c | 0 <= c < s.created && c !in s.shut }

  /** No open connection is lost: it holds a slot and has a place. */
  ghost predicate Accounted(s: State) { forall c: Conn | c < s.created :: c in s.place || c in s.shut }

  /** Only a release takes a connection out of the books, and only a dial creates one. */
  ghost predicate KeepsBooks(s: State, s': State) {
    && s.place.Keys <= s'.place.Keys && s.shut <= s'.shut
    && forall c: Conn | s.created <= c < s'.created :: c in s'.place
  }

  lemma ActKeepsBooks(s: State, t: Tid, e: Choice)
    requires Inv(s) && t in s.threads && s.threads[t].pending.Ready?
    ensures KeepsBooks(s, Act(s, t, e))
  {
    hide Inv, GetAct, PutAct, MaintAct, CloseAct, CallerAct;
    var p := s.threads[t].pc;
    if InGet(p) { GetKeepsBooks(s, t, e); }
    else if InPut(p) { PutKeepsBooks(s, t, e); }
    else if Maintaining(p) { MaintKeepsBooks(s, t, e); }
    else if InClose(p) { CloseKeepsBooks(s, t, e); }
    else { CallerKeepsBooks(s, t, e); }
  }

  lemma GetKeepsBooks(s: State, t: Tid, e: Choice)
    requires t in s.threads && InGet(s.threads[t].pc)
    ensures KeepsBooks(s, GetAct(s, t, e))
  {
  }

  lemma PutKeepsBooks(s: State, t: Tid, e: Choice)
    requires t in s.threads && InPut(s.threads[t].pc)
    ensures KeepsBooks(s, PutAct(s, t, e))
  {
  }

  lemma MaintKeepsBooks(s: State, t: Tid, e: Choice)
    requires t in s.threads && Maintaining(s.threads[t].pc)
    ensures KeepsBooks(s, MaintAct(s, t, e))
  {
  }

  lemma CloseKeepsBooks(s: State, t: Tid, e: Choice)
    requires t in s.threads && InClose(s.threads[t].pc)
    ensures KeepsBooks(s, CloseAct(s, t, e))
  {
  }

  lemma CallerKeepsBooks(s: State, t: Tid, e: Choice)
    requires t in s.threads
    requires var p := s.threads[t].pc; !InGet(p) && !InPut(p) && !Maintaining(p) && !InClose(p)
    ensures KeepsBooks(s, CallerAct(s, t, e))
  {
  }

  lemma NextAccounts(s: State, t: Tid, e: Choice)
    requires Inv(s) && Accounted(s)
    ensures Accounted(Next(s, t, e))
  {
    hide Act, Inv;
    if t in s.threads {
      match s.threads[t].pending
      case Ready => ActKeepsBooks(s, t, e);
      case ReleaseSlot(c) =>
        assert c in s.shut by { Parts(s); ReleasedIsShut(s, t); }
      case _ =>
    }
  }

  lemma Parts(s: State)
    requires Inv(s)
    ensures Flagged(s) && Locals(s)
  {
  }

  lemma ReleasedIsShut(s: State, t: Tid)
    requires Flagged(s) && Locals(s) && t in s.threads && s.threads[t].pending.ReleaseSlot?
    ensures s.threads[t].pending.c in s.shut
  {
    var c := s.threads[t].pending.c;
    assert Local(s, s.threads[t]);
    assert FlagOk(s, s.threads[t], c);
  }

  lemma {:induction false} RunAccounts(s: State, schedule: seq<(Tid, Choice)>)
    requires Inv(s) && Accounted(s)
    ensures Accounted(Run(s, schedule))
    decreases |schedule|
  {
    hide Inv, Next, Accounted;
    if schedule != [] {
      NextKeeps(s, schedule[0].0, schedule[0].1);
      NextAccounts(s, schedule[0].0, schedule[0].1);
      RunAccounts(Next(s, schedule[0].0, schedule[0].1), schedule[1..]);
    }
  }

  lemma ReachableAccounted(r: State)
    requires Reachable(r)
    ensures Accounted(r)
  {
    hide Inv, Initial, Accounted;
    var s: State, schedule: seq<(Tid, Choice)> :| Initial(s) && Run(s, schedule) == r;
    InitialHolds(s);
    assert Accounted(s) by { StartsEmpty(s); }
    RunAccounts(s, schedule);
  }

  lemma StartsEmpty(s: State)
    requires Initial(s)
    ensures Accounted(s)
  {
  }

  lemma {:induction false} InjectiveSameSize(f: map<Tid, Conn>, cs: set<Conn>)
    requires forall t | t in f :: f[t] in cs
    requires forall c | c in cs :: exists t :: t in f && f[t] == c
    requires forall t, u | t in f && u in f && f[t] == f[u] :: t == u
    ensures |f| == |cs|
  {
    if t :| t in f {
      var g := f - {t};
      forall d | d in cs - {f[t]} ensures exists u :: u in g && g[u] == d {
        var u :| u in f && f[u] == d;
        assert u in g;
      }
      InjectiveSameSize(g, cs - {f[t]});
      assert g.Keys == f.Keys - {t};
      assert |g.Keys| == |g| && |f.Keys| == |f|;
    } else {
      assert cs == {};
    }
  }

  /** A closed socket that still holds a slot belongs to the goroutine about to release it. */
  lemma ShutIsReleasing(r: State, c: Conn) returns (t: Tid)
    requires Placed(r) && Flagged(r) && c in r.place && c in r.shut
    ensures t in r.threads && r.threads[t].pending == ReleaseSlot(c)
  {
    assert c !in r.channel;
    assert !In(r, c, InChannel);
    t := r.place[c].t;
    assert In(r, c, HeldBy(t));
    assert FlagOk(r, r.threads[t], c);
  }

  lemma ReleasingHolds(r: State, t: Tid)
    requires Placed(r) && Flagged(r) && Locals(r) && t in r.threads && r.threads[t].pending.ReleaseSlot?
    ensures var c := r.threads[t].pending.c; In(r, c, HeldBy(t)) && c in r.shut
  {
    ReleasedIsShut(r, t);
    assert Local(r, r.threads[t]);
    assert r.threads[t].pending.c in r.threads[t].hand;
  }

  lemma BooksSplit(r: State)
    requires Placed(r) && Accounted(r)
    ensures r.place.Keys == Open(r) + ShutInBooks(r) && Open(r) !! ShutInBooks(r)
  {
    forall c ensures c in r.place.Keys <==> c in Open(r) + ShutInBooks(r) {
      assert c in r.place ==> c < r.created;
    }
  }

  function ShutInBooks(r: State): set<Conn> { set c | c in r.place && c in r.shut }

  lemma ShutCounted(r: State)
    requires Placed(r) && Flagged(r) && Locals(r)
    ensures |ShutInBooks(r)| == |Where(r.threads, Releasing)|
  {
    hide Placed, Flagged, Locals;
    var f := map t | t in Where(r.threads, Releasing) :: r.threads[t].pending.c;
    forall t | t in f ensures In(r, f[t], HeldBy(t)) && f[t] in r.shut {
      ReleasingHolds(r, t);
    }
    forall c | c in ShutInBooks(r) ensures exists t :: t in f && f[t] == c {
      var t := ShutIsReleasing(r, c);
      assert t in f;
    }
    InjectiveSameSize(f, ShutInBooks(r));
    assert f.Keys == Where(r.threads, Releasing);
    assert |f| == |f.Keys|;
  }

  /** The connections in the books are the open ones and those about to be released. */
  lemma PlacesCounted(r: State)
    requires Placed(r) && Flagged(r) && Locals(r) && Accounted(r)
    ensures |r.place| == |Open(r)| + |Where(r.threads, Releasing)|
    ensures Open(r) <= r.place.Keys
  {
    hide Placed, Flagged, Locals, Accounted, Open;
    BooksSplit(r);
    assert |r.place| == |r.place.Keys|;
    ShutCounted(r);
  }

  // ---------------------------------------------------------------- the promises

  /** The slot budget: activeConns counts the dials in progress, the connections whose socket
      is open, and the teardowns whose slot is not given back yet, and never exceeds
      maxConnections; poolSize, corrected for sends and receives whose atomic add has not run
      yet, is the channel's length. */
  lemma SlotConservation(r: State)
    requires Reachable(r)
    ensures r.active == |Where(r.threads, Dialing)| + |Open(r)| + |Where(r.threads, Releasing)|
    ensures r.active == |Where(r.threads, Dialing)| + |r.place|
    ensures 0 <= r.active <= r.max
    ensures r.size == |r.channel| - |Where(r.threads, Adding)| + |Where(r.threads, Subbing)|
  {
    hide Reachable;
    ReachableInv(r);
    ReachableAccounted(r);
    PlacesCounted(r);
  }

  /** Exclusive ownership: every connection whose socket is open is in the channel or in the
      local variables of a goroutine, in the channel at most once, in one goroutine's
      variables at most, never in both.  What a goroutine's variables name was dialled, and is
      closed only while that goroutine is about to release its slot; what sits in the channel
      was dialled and is neither flagged nor closed. */
  lemma ExclusiveOwnership(r: State)
    requires Reachable(r)
    ensures forall c: Conn | c < r.created && c !in r.shut :: c in r.channel || exists t :: t in r.threads && c in Variables(r.threads[t])
    ensures forall i, j | 0 <= i < j < |r.channel| :: r.channel[i] != r.channel[j]
    ensures forall t, u, c | t in r.threads && u in r.threads && c in Variables(r.threads[t]) && c in Variables(r.threads[u]) :: t == u
    ensures forall t, c | t in r.threads && c in Variables(r.threads[t]) ::
              c !in r.channel && c < r.created && (c in r.shut <==> r.threads[t].pending == ReleaseSlot(c))
    ensures forall c :: c in r.place <==> c in r.channel || exists t :: t in r.threads && c in Variables(r.threads[t])
    ensures forall c | c in r.channel :: c < r.created && c !in r.broken && c !in r.shut
  {
    hide Reachable, Variables;
    ReachableInv(r);
    ReachableAccounted(r);
    forall t | t in r.threads ensures r.threads[t].hand == Variables(r.threads[t]) {
      assert Local(r, r.threads[t]);
      HandIsVariables(r, r.threads[t]);
    }
    OwnershipOfHands(r);
  }

  lemma OwnershipOfHands(r: State)
    requires Placed(r) && Flagged(r)
    ensures forall t, u, c | t in r.threads && u in r.threads && c in r.threads[t].hand && c in r.threads[u].hand :: t == u
    ensures forall t, c | t in r.threads && c in r.threads[t].hand ::
              c !in r.channel && c < r.created && (c in r.shut <==> r.threads[t].pending == ReleaseSlot(c))
    ensures forall c :: c in r.place <==> c in r.channel || exists t :: t in r.threads && c in r.threads[t].hand
  {
    forall t, u, c | t in r.threads && u in r.threads && c in r.threads[t].hand && c in r.threads[u].hand ensures t == u {
      assert In(r, c, HeldBy(t)) && In(r, c, HeldBy(u));
    }
    forall t, c | t in r.threads && c in r.threads[t].hand
      ensures c !in r.channel && c < r.created && (c in r.shut <==> r.threads[t].pending == ReleaseSlot(c))
    {
      assert In(r, c, HeldBy(t));
      assert FlagOk(r, r.threads[t], c);
    }
    forall c ensures c in r.place <==> c in r.channel || exists t :: t in r.threads && c in r.threads[t].hand {
      assert c in r.channel <==> In(r, c, InChannel);
      if c in r.place && r.place[c].HeldBy? {
        assert In(r, c, HeldBy(r.place[c].t));
      }
      if t :| t in r.threads && c in r.threads[t].hand {
        assert In(r, c, HeldBy(t));
      }
    }
  }

  /** The next action of t is a channel send, in Put or in maintenance's reinsertion. */
  predicate Sending(th: Thread) {
    th.pending.Ready? && (th.pc.PutSend? || (th.pc.Reinsert? && th.pc.valid != []))
  }

  /** A send never finds the channel full: the connection being sent holds one of the max
      slots and is not in the channel.  So both fall-back close branches are dead code. */
  lemma SendNeverFindsChannelFull(r: State, t: Tid)
    requires Reachable(r) && t in r.threads && Sending(r.threads[t])
    ensures |r.channel| < r.max
  {
    hide Reachable;
    ReachableInv(r);
    RoomToSend(r, t);
  }

  lemma RoomToSend(r: State, t: Tid)
    requires Placed(r) && Counted(r) && t in r.threads && Local(r, r.threads[t]) && Sending(r.threads[t])
    ensures |r.channel| < r.max
  {
    var p := r.threads[t].pc;
    var c := if p.PutSend? then p.c else p.valid[0];
    assert c in r.threads[t].hand;
    assert In(r, c, HeldBy(t));
    ElemsCard(r.channel);
    forall x | x in Elems(r.channel) + {c} ensures x in r.place {
      assert x in r.channel ==> In(r, x, InChannel);
    }
    CardMonotone(Elems(r.channel) + {c}, r.place.Keys);
    assert c !in r.channel;
  }

  lemma {:induction false} ElemsCard(q: seq<Conn>)
    requires NoDup(q)
    ensures |Elems(q)| == |q|
  {
    if q != [] {
      ElemsCard(q[1..]);
      assert q == [q[0]] + q[1..];
      assert Elems(q) == Elems(q[1..]) + {q[0]};
    }
  }

  lemma CardMonotone(a: set<Conn>, b: set<Conn>)
    requires a <= b
    ensures |a| <= |b|
  {
    assert b == a + (b - a);
  }

  /** No leak: once every goroutine rests, every slot belongs to a pooled connection and
      both counters read the channel's length. */
  lemma QuiescentPoolLeaksNothing(r: State)
    requires Reachable(r) && forall t | t in r.threads :: Resting(r.threads[t])
    ensures r.active == r.size == |r.channel|
    ensures r.place.Keys == Open(r) == Elems(r.channel)
  {
    hide Reachable, Ledger;
    ReachableInv(r);
    assert Where(r.threads, Dialing) == {};
    assert Where(r.threads, Adding) == {};
    assert Where(r.threads, Subbing) == {};
    forall t, c | t in r.threads ensures !In(r, c, HeldBy(t)) {
      Facts(r, t);
    }
    forall c ensures c in r.place <==> c in r.channel {
      assert c in r.channel <==> In(r, c, InChannel);
      assert c in r.place ==> In(r, c, r.place[c]);
    }
    assert r.place.Keys == Elems(r.channel);
    ElemsCard(r.channel);
    ReachableAccounted(r);
    PlacesCounted(r);
    assert Elems(r.channel) <= Open(r);
  }

  /** runSearch, whatever the dial, search and context outcomes: it calls Get at most
      twice, each call gives exactly one of a connection and an error, and when it has
      returned it holds nothing and has handed every connection it obtained to Put or
      Discard exactly once.  The code after Get's retry loop is never reached. */
  lemma SearchReturnsEveryConnection(r: State, t: Tid)
    requires Reachable(r) && t in r.threads
    ensures !(r.threads[t].pending.Ready? && r.threads[t].pc.GetExhausted?)
    ensures var b := r.threads[t].book;
            b.calls <= 2 && b.calls == |b.obtained| + b.errors + (if InGet(r.threads[t].pc) then 1 else 0)
    ensures Resting(r.threads[t]) ==>
              && !Dialing(r.threads[t]) && r.threads[t].hand == {}
              && (forall c | c in r.place :: r.place[c] != HeldBy(t))
              && r.threads[t].book.returned == r.threads[t].book.obtained
              && NoDup(r.threads[t].book.obtained)
  {
    hide Reachable, Inv;
    ReachableInv(r);
    Facts(r, t);
    forall c | In(r, c, HeldBy(t)) ensures c in r.threads[t].hand {}
    assert forall c | c in r.place && r.place[c] == HeldBy(t) :: In(r, c, HeldBy(t));
  }

  /** A Put or Discard of a connection that was discarded before changes nothing. */
  lemma StaleReturnIsNoOp(r: State, t: Tid, e: Choice)
    requires Reachable(r) && t in r.threads && r.threads[t].pending.Ready?
    requires r.threads[t].pc.StalePut? || r.threads[t].pc.StaleDiscard?
    ensures Next(r, t, e) == Goto(r, t, Idle)
  {
    hide Reachable, Inv, GetAct, PutAct, MaintAct, CloseAct, Ledger;
    ReachableInv(r);
    Facts(r, t);
  }

  /** So whoever returns a connection he has discarded before, to Put or to Discard, leaves the
      pool as it was. */
  lemma ReturningADiscardedConnection(r: State, t: Tid, call: Choice, e: Choice)
    requires Reachable(r) && t in r.threads && r.threads[t].pending.Ready? && r.threads[t].pc.Idle?
    requires (call.action.CallPut? || call.action.CallDiscard?) && call.conn in r.threads[t].gone
    ensures Next(Next(r, t, call), t, e) == r
  {
    hide Reachable, Inv, GetAct, PutAct, MaintAct, CloseAct, Ledger, Shape;
    ReachableInv(r);
    Facts(r, t);
    var called := Next(r, t, call);
    assert called.threads[t := r.threads[t]] == r.threads;
  }

  /** A Put that begins after Close never gets as far as sending. */
  lemma LatePutNeverPools(r: State, t: Tid)
    requires Reachable(r) && t in r.threads && r.threads[t].pending.Ready?
    requires r.threads[t].pc.PutUsable? || r.threads[t].pc.PutSend?
    ensures !r.threads[t].pc.late
  {
    hide Reachable, Inv, Ledger;
    ReachableInv(r);
    Facts(r, t);
  }

  /** Closed, drained, and no goroutine past the point where it checked the closed flag. */
  ghost predicate Sealed(s: State) {
    && s.closed && s.channel == []
    && forall t | t in s.threads ::
         var p := s.threads[t].pc; !p.PutUsable? && !p.PutSend? && !p.Drain? && !p.DrainCheck? && !p.Reinsert?
  }

  lemma SealedStep(s: State, t: Tid, e: Choice)
    requires Sealed(s)
    ensures Sealed(Next(s, t, e))
  {
  }

  /** From then on nothing is ever pooled again. */
  lemma {:induction false} SealedForever(s: State, schedule: seq<(Tid, Choice)>)
    requires Sealed(s)
    ensures Sealed(Run(s, schedule)) && Run(s, schedule).channel == []
    decreases |schedule|
  {
    if schedule != [] {
      hide Next;
      SealedStep(s, schedule[0].0, schedule[0].1);
      SealedForever(Next(s, schedule[0].0, schedule[0].1), schedule[1..]);
    }
  }
}
