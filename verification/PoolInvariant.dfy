/** What every step of every goroutine keeps: slot conservation, exclusive ownership,
    channel accounting and the runSearch ledger. */
module PoolInvariant {
  import opened Pool

  // ---------------------------------------------------------------- the invariant

  ghost predicate NoDup(q: seq<Conn>) { forall i, j | 0 <= i < j < |q| :: q[i] != q[j] }

  function Elems(q: seq<Conn>): set<Conn> { set c | c in q }

  ghost predicate In(s: State, c: Conn, at: Place) { c in s.place && s.place[c] == at }

  /** Each connection holding a slot is in exactly the place recorded for it. */
  ghost predicate Placed(s: State) {
    && NoDup(s.channel)
    && (forall c :: c in s.channel <==> In(s, c, InChannel))
    && (forall t, c | t in s.threads :: c in s.threads[t].hand <==> In(s, c, HeldBy(t)))
    && (forall c | c in s.place :: c < s.created && (s.place[c].HeldBy? ==> s.place[c].t in s.threads))
  }

  /** The two atomic counters. */
  ghost predicate Counted(s: State) {
    && s.active == |s.place| + |Where(s.threads, Dialing)|
    && s.active <= s.max
    && s.size + |Where(s.threads, Adding)| == |s.channel| + |Where(s.threads, Subbing)|
  }

  /** A flagged connection that still holds a slot is being torn down; a closed socket
      still holding one is about to release it. */
  ghost predicate Flagged(s: State) {
    && (forall c | c in s.broken || c in s.shut :: c < s.created)
    && (forall c | c in s.channel :: c !in s.broken && c !in s.shut)
    && (forall t, c | t in s.threads && c in s.threads[t].hand :: FlagOk(s, s.threads[t], c))
  }

  ghost predicate FlagOk(s: State, th: Thread, c: Conn) {
    && (c in s.broken ==> Closing(th) && th.pending.c == c)
    && (c in s.shut <==> th.pending == ReleaseSlot(c))
  }

  /** What a goroutine with no pending action owns at each point of the code. */
  ghost predicate Shape(s: State, p: Pc, hand: set<Conn>) {
    match p
    case Holding(c) => hand == {c}
    case GetTake(a) => a < MAX_RETRIES && hand == {}
    case Validate(c, a, _) => a < MAX_RETRIES && hand == {c}
    case GetCtx(a) => a < MAX_RETRIES && hand == {}
    case LoadActive(a) => a < MAX_RETRIES && hand == {}
    case CasActive(a, seen) => a < MAX_RETRIES && seen < s.max && hand == {}
    case GetWait(a) => a < MAX_RETRIES && hand == {}
    case GetDelay(a) => a < MAX_RETRIES - 1 && hand == {}
    case GetExhausted => false
    case PutLoad(c, late) => (late ==> s.closed) && hand == {c}
    case PutClosed(c, late) => (late ==> s.closed) && hand == {c}
    case PutUsable(c, late) => !late && hand == {c}
    case PutSend(c, late) => !late && hand == {c}
    case StalePut(c) => c in s.broken && hand == {}
    case DiscardCas(c) => hand == {c}
    case StaleDiscard(c) => c in s.broken && hand == {}
    case Drain(v) => NoDup(v) && hand == Elems(v)
    case DrainCheck(v, c) => NoDup(v) && c !in v && hand == Elems(v) + {c}
    case Reinsert(v) => NoDup(v) && hand == Elems(v)
    case CloseTaken(c) => hand == {c}
    case _ => hand == {}
  }

  ghost predicate Resumable(p: Pc) {
    p.Idle? || p.SearchLoop? || p.WaitFailed? || p.GetCtx? || p.Drain? || p.Reinsert? || p.CloseDrain?
  }

  /** The same, with the pending action taken into account. */
  ghost predicate Sound(s: State, th: Thread) {
    match th.pending
    case Ready => Shape(s, th.pc, th.hand)
    case AddSize => Shape(s, th.pc, th.hand) && (th.pc.Idle? || th.pc.Reinsert?)
    case SubSize => Shape(s, th.pc, th.hand) && (th.pc.Validate? || th.pc.DrainCheck? || th.pc.CloseTaken?)
    case CloseSocket(c) => c in th.hand && Shape(s, th.pc, th.hand - {c}) && Resumable(th.pc)
    case ReleaseSlot(c) => c in th.hand && Shape(s, th.pc, th.hand - {c}) && Resumable(th.pc)
  }

  /** The connection runSearch got and has not handed back yet. */
  function Unreturned(p: Pc): seq<Conn> {
    if p.Holding? then [p.c] else if p.PutLoad? then [p.c] else if p.DiscardCas? then [p.c] else []
  }

  /** runSearch has another Get ahead of it or running. */
  predicate MayGetMore(p: Pc) { InGet(p) || p.SearchLoop? || p.Holding? || p.PutLoad? || p.DiscardCas? }

  /** The runSearch ledger: at most two Gets, each with exactly one outcome, and every
      connection obtained handed back exactly once or still with the caller. */
  ghost predicate Ledger(s: State, p: Pc, b: Book) {
    && b.calls <= SEARCH_ATTEMPTS
    && b.calls == |b.obtained| + b.errors + (if InGet(p) then 1 else 0)
    && b.obtained == b.returned + Unreturned(p)
    && NoDup(b.obtained)
    && (forall c | c in b.obtained :: c < s.created)
    && (MayGetMore(p) ==> b.errors == 0 && forall c | c in b.returned :: c in s.broken)
  }

  ghost predicate Local(s: State, th: Thread) {
    Sound(s, th) && Ledger(s, th.pc, th.book) && th.gone <= s.broken
  }

  ghost predicate Locals(s: State) { forall t | t in s.threads :: Local(s, s.threads[t]) }

  ghost predicate Inv(s: State) { Placed(s) && Counted(s) && Flagged(s) && Locals(s) }

  // ---------------------------------------------------------------- frame lemmas

  /** Only goroutine t moved. */
  ghost predicate OnlyMoved(s: State, s': State, t: Tid) {
    && t in s.threads && t in s'.threads && s'.threads == s.threads[t := s'.threads[t]]
    && s'.max == s.max && (s.closed ==> s'.closed) && s.broken <= s'.broken && s.created <= s'.created
  }

  lemma WhereUpdate(m: map<Tid, Thread>, t: Tid, th: Thread, p: Thread -> bool)
    requires t in m
    ensures |Where(m[t := th], p)| ==
            |Where(m, p)| - (if p(m[t]) then 1 else 0) + (if p(th) then 1 else 0)
  {
    assert p(th) ==> Where(m[t := th], p) == (Where(m, p) - {t}) + {t};
    assert !p(th) ==> Where(m[t := th], p) == Where(m, p) - {t};
    assert !p(m[t]) ==> Where(m, p) - {t} == Where(m, p);
  }

  function One(b: bool): int { if b then 1 else 0 }

  /** The three counts after goroutine t moves on to th. */
  lemma CountsUpdate(s: State, t: Tid, th: Thread)
    requires t in s.threads
    ensures var m := s.threads[t := th]; var o := s.threads[t];
            && |Where(m, Dialing)| == |Where(s.threads, Dialing)| - One(Dialing(o)) + One(Dialing(th))
            && |Where(m, Adding)| == |Where(s.threads, Adding)| - One(Adding(o)) + One(Adding(th))
            && |Where(m, Subbing)| == |Where(s.threads, Subbing)| - One(Subbing(o)) + One(Subbing(th))
  {
    WhereUpdate(s.threads, t, th, Dialing);
    WhereUpdate(s.threads, t, th, Adding);
    WhereUpdate(s.threads, t, th, Subbing);
  }

  /** Facts about a goroutine survive steps of others: flags only rise. */
  lemma LocalsStep(s: State, s': State, t: Tid)
    requires Locals(s) && OnlyMoved(s, s', t) && Local(s', s'.threads[t])
    ensures Locals(s')
  {
    forall u | u in s'.threads && u != t ensures Local(s', s'.threads[u]) {
      assert Local(s, s.threads[u]);
    }
  }

  lemma LocalOf(s: State, t: Tid)
    requires Locals(s) && t in s.threads
    ensures Local(s, s.threads[t])
  {
  }

  /** Other goroutines keep their connections when the map only changes for t. */
  lemma PlacedStep(s: State, s': State, t: Tid)
    requires Placed(s) && OnlyMoved(s, s', t)
    requires forall u, c | u != t :: In(s', c, HeldBy(u)) <==> In(s, c, HeldBy(u))
    requires forall c :: c in s'.threads[t].hand <==> In(s', c, HeldBy(t))
    requires NoDup(s'.channel) && forall c :: c in s'.channel <==> In(s', c, InChannel)
    requires forall c | c in s'.place :: c < s'.created
    ensures Placed(s')
  {
    forall c | c in s'.place && s'.place[c].HeldBy? ensures s'.place[c].t in s'.threads {
      assert In(s', c, HeldBy(s'.place[c].t));
      assert s'.place[c].t != t ==> In(s, c, HeldBy(s'.place[c].t));
    }
  }

  /** Flags change only on connections that t owns before or after the step. */
  lemma FlaggedStep(s: State, s': State, t: Tid)
    requires Placed(s) && Flagged(s) && Placed(s') && OnlyMoved(s, s', t)
    requires forall c | c in s'.broken || c in s'.shut :: c < s'.created
    requires forall c | c !in s'.threads[t].hand && c !in s.threads[t].hand :: (c in s'.broken <==> c in s.broken) && (c in s'.shut <==> c in s.shut)
    requires forall c | c in s'.threads[t].hand :: FlagOk(s', s'.threads[t], c)
    requires forall c | c in s'.channel && c !in s.channel :: c !in s'.broken && c !in s'.shut
    ensures Flagged(s')
  {
    forall u, c | u in s'.threads && c in s'.threads[u].hand ensures FlagOk(s', s'.threads[u], c) {
      if u != t {
        assert In(s, c, HeldBy(u)) && In(s', c, HeldBy(u));
        assert FlagOk(s, s.threads[u], c);
      }
    }
    forall c | c in s'.channel && c in s.channel ensures c !in s'.broken && c !in s'.shut {
      assert In(s, c, InChannel) && In(s', c, InChannel);
    }
  }

  // ---------------------------------------------------------------- steps that move no connection

  /** Connections, channel and closed sockets stay; only goroutine t moves. */
  ghost predicate Still(s: State, s': State, t: Tid) {
    && OnlyMoved(s, s', t)
    && s'.place == s.place && s'.channel == s.channel && s'.created == s.created
    && s'.threads[t].hand == s.threads[t].hand
  }

  lemma StillPlaced(s: State, s': State, t: Tid)
    requires Placed(s) && Still(s, s', t)
    ensures Placed(s')
  {
    forall c ensures c in s'.threads[t].hand <==> In(s', c, HeldBy(t)) {
      assert c in s.threads[t].hand <==> In(s, c, HeldBy(t));
    }
    PlacedStep(s, s', t);
  }

  lemma StillFlagged(s: State, s': State, t: Tid)
    requires Placed(s) && Flagged(s) && Still(s, s', t) && s'.broken == s.broken && s'.shut == s.shut
    requires !Closing(s.threads[t]) && !s'.threads[t].pending.ReleaseSlot?
    ensures Flagged(s')
  {
    StillPlaced(s, s', t);
    forall c | c in s'.threads[t].hand ensures FlagOk(s', s'.threads[t], c) {
      assert FlagOk(s, s.threads[t], c);
    }
    FlaggedStep(s, s', t);
  }

  lemma StillKeeps(s: State, s': State, t: Tid)
    requires Placed(s) && Flagged(s) && Locals(s) && Still(s, s', t)
    requires s'.broken == s.broken && s'.shut == s.shut
    requires !Closing(s.threads[t]) && !s'.threads[t].pending.ReleaseSlot?
    requires Local(s', s'.threads[t]) && Counted(s')
    ensures Inv(s')
  {
    hide Placed, Flagged, Locals;
    StillPlaced(s, s', t);
    StillFlagged(s, s', t);
    LocalsStep(s, s', t);
  }

  /** Most steps: the goroutine moves on and no slot changes. */
  lemma QuietKeeps(s: State, t: Tid, th: Thread)
    requires Inv(s) && t in s.threads && s.threads[t].pending.Ready?
    requires th.hand == s.threads[t].hand && Dialing(th) == Dialing(s.threads[t])
    requires th.pending.Ready? || th.pending.CloseSocket?
    requires Local(s, th)
    ensures Inv(SetThread(s, t, th))
  {
    hide Placed, Flagged, Locals;
    var s' := SetThread(s, t, th);
    CountsUpdate(s, t, th);
    assert Local(s', th);
    StillKeeps(s, s', t);
  }

  /** The compare-and-swap that reserves a slot. */
  lemma ReserveKeeps(s: State, t: Tid)
    requires Inv(s) && t in s.threads && s.threads[t].pending.Ready?
    requires s.threads[t].pc.CasActive? && s.active == s.threads[t].pc.seen
    ensures Inv(Goto(s, t, Dial).(active := s.active + 1))
  {
    hide Placed, Flagged, Locals;
    var s' := Goto(s, t, Dial).(active := s.active + 1);
    LocalOf(s, t);
    CountsUpdate(s, t, s'.threads[t]);
    StillKeeps(s, s', t);
  }

  /** A failed dial gives its slot back before Get returns the error. */
  lemma UnreserveKeeps(s: State, t: Tid)
    requires Inv(s) && t in s.threads && s.threads[t].pending.Ready? && s.threads[t].pc.DialFailed?
    ensures Inv(FailGet(s, t).(active := s.active - 1))
  {
    hide Placed, Flagged, Locals;
    var s' := FailGet(s, t).(active := s.active - 1);
    LocalOf(s, t);
    CountsUpdate(s, t, s'.threads[t]);
    StillKeeps(s, s', t);
  }

  lemma CloseFlagKeeps(s: State, t: Tid)
    requires Inv(s) && t in s.threads && s.threads[t].pending.Ready? && s.threads[t].pc.CloseFlag?
    ensures Inv(Goto(s, t, CloseWait).(closed := true))
  {
    hide Placed, Flagged, Locals;
    var s' := Goto(s, t, CloseWait).(closed := true);
    LocalOf(s, t);
    CountsUpdate(s, t, s'.threads[t]);
    StillKeeps(s, s', t);
  }

  /** A pending atomic add on poolSize. */
  lemma SizeKeeps(s: State, t: Tid)
    requires Inv(s) && t in s.threads && (Adding(s.threads[t]) || Subbing(s.threads[t]))
    ensures Inv(SetThread(s, t, s.threads[t].(pending := Ready)).(size := s.size + if Adding(s.threads[t]) then 1 else -1))
  {
    hide Placed, Flagged, Locals;
    var th := s.threads[t].(pending := Ready);
    var s' := SetThread(s, t, th).(size := s.size + if Adding(s.threads[t]) then 1 else -1);
    LocalOf(s, t);
    CountsUpdate(s, t, th);
    StillKeeps(s, s', t);
  }

  /** Raising a flag on a connection t owns, on the way to closing it. */
  lemma FlagRaised(s: State, s': State, t: Tid)
    requires Placed(s) && Flagged(s) && Still(s, s', t) && Closing(s'.threads[t])
    requires var c := s'.threads[t].pending.c;
             && c in s.threads[t].hand
             && (Closing(s.threads[t]) ==> s.threads[t].pending == CloseSocket(c))
             && s'.broken <= s.broken + {c}
             && s'.shut == if s'.threads[t].pending.ReleaseSlot? then s.shut + {c} else s.shut
    ensures Placed(s') && Flagged(s')
  {
    StillPlaced(s, s', t);
    forall c | c in s.threads[t].hand ensures FlagOk(s', s'.threads[t], c) && c < s.created {
      assert FlagOk(s, s.threads[t], c) && In(s, c, HeldBy(t));
    }
    FlaggedStep(s, s', t);
  }

  lemma MarkLocal(s: State, th: Thread, c: Conn, s': State)
    requires Local(s, th) && th.pending.Ready? && th.pc == DiscardCas(c)
    requires s'.created == s.created && s'.broken == s.broken + {c}
    ensures Local(s', HandOver(th, c, SearchLoop).(pending := CloseSocket(c), gone := th.gone + {c}))
  {
    assert th.hand - {c} == {};
  }

  lemma MarkKeeps(s: State, t: Tid)
    requires Inv(s) && t in s.threads && s.threads[t].pending.Ready?
    requires s.threads[t].pc.DiscardCas? && s.threads[t].pc.c !in s.broken
    ensures Inv(Mark(s, t, s.threads[t].pc.c))
  {
    hide Placed, Flagged, Locals;
    var c := s.threads[t].pc.c;
    var s' := Mark(s, t, c);
    LocalOf(s, t);
    MarkLocal(s, s.threads[t], c, s');
    LocalsStep(s, s', t);
    assert Placed(s') && Flagged(s') by { FlagRaised(s, s', t); }
    CountsUpdate(s, t, s'.threads[t]);
  }

  lemma ShutKeeps(s: State, t: Tid)
    requires Inv(s) && t in s.threads && s.threads[t].pending.CloseSocket?
    ensures Inv(Shut(s, t, s.threads[t].pending.c))
  {
    hide Placed, Flagged, Locals;
    var s' := Shut(s, t, s.threads[t].pending.c);
    LocalOf(s, t);
    FlagRaised(s, s', t);
    CountsUpdate(s, t, s'.threads[t]);
    LocalsStep(s, s', t);
  }

  // ---------------------------------------------------------------- steps that move a connection

  lemma ReceivePlaced(s: State, t: Tid, p: Pc)
    requires Placed(s) && t in s.threads && s.channel != []
    ensures Placed(Receive(s, t, p)) && s.channel[0] !in s.threads[t].hand
  {
    var s' := Receive(s, t, p);
    var c := s.channel[0];
    assert In(s, c, InChannel);
    assert forall x :: x in s'.channel <==> x in s.channel && x != c by {
      assert s.channel == [c] + s'.channel;
    }
    forall x ensures x in s'.threads[t].hand <==> In(s', x, HeldBy(t)) {
      assert x in s.threads[t].hand <==> In(s, x, HeldBy(t));
    }
    PlacedStep(s, s', t);
  }

  lemma ReceiveFlagged(s: State, t: Tid, p: Pc)
    requires Placed(s) && Flagged(s) && t in s.threads && s.channel != [] && s.threads[t].pending.Ready?
    ensures Flagged(Receive(s, t, p))
  {
    var s' := Receive(s, t, p);
    ReceivePlaced(s, t, p);
    forall c | c in s'.threads[t].hand ensures FlagOk(s', s'.threads[t], c) {
      assert c in s.threads[t].hand ==> FlagOk(s, s.threads[t], c);
      assert s.channel[0] in s.channel;
    }
    FlaggedStep(s, s', t);
  }

  lemma ReceiveCounted(s: State, t: Tid, p: Pc)
    requires Placed(s) && Counted(s) && t in s.threads && s.channel != [] && s.threads[t].pending.Ready?
    requires !Dialing(s.threads[t]) && !p.Dial? && !p.DialFailed?
    ensures Counted(Receive(s, t, p))
  {
    var s' := Receive(s, t, p);
    CountsUpdate(s, t, s'.threads[t]);
    assert In(s, s.channel[0], InChannel);
    assert s'.place.Keys == s.place.Keys;
  }

  /** The received connection is new to its receiver, who keeps what it had. */
  lemma ReceiveKeeps(s: State, t: Tid, p: Pc)
    requires Inv(s) && t in s.threads && s.channel != [] && s.threads[t].pending.Ready?
    requires !Dialing(s.threads[t])
    requires p.Validate? || p.DrainCheck? || p.CloseTaken?
    requires s.channel[0] !in s.threads[t].hand ==>
               Shape(s, p, s.threads[t].hand + {s.channel[0]}) && Ledger(s, p, s.threads[t].book)
    ensures Inv(Receive(s, t, p))
  {
    hide Placed, Flagged, Locals, Counted;
    ReceivePlaced(s, t, p);
    ReceiveFlagged(s, t, p);
    ReceiveCounted(s, t, p);
    LocalOf(s, t);
    LocalsStep(s, Receive(s, t, p), t);
  }

  lemma SendPlaced(s: State, t: Tid, c: Conn, p: Pc)
    requires Placed(s) && t in s.threads && c in s.threads[t].hand
    ensures Placed(Send(s, t, c, p))
  {
    var s' := Send(s, t, c, p);
    assert In(s, c, HeldBy(t));
    assert c !in s.channel;
    forall x ensures x in s'.threads[t].hand <==> In(s', x, HeldBy(t)) {
      assert x in s.threads[t].hand <==> In(s, x, HeldBy(t));
    }
    PlacedStep(s, s', t);
  }

  lemma SendFlagged(s: State, t: Tid, c: Conn, p: Pc)
    requires Placed(s) && Flagged(s) && t in s.threads && c in s.threads[t].hand && s.threads[t].pending.Ready?
    ensures Flagged(Send(s, t, c, p))
  {
    SendPlaced(s, t, c, p);
    forall x | x in s.threads[t].hand ensures x !in s.broken && x !in s.shut {
      assert FlagOk(s, s.threads[t], x);
    }
    FlaggedStep(s, Send(s, t, c, p), t);
  }

  lemma SendCounted(s: State, t: Tid, c: Conn, p: Pc)
    requires Placed(s) && Counted(s) && t in s.threads && c in s.threads[t].hand && s.threads[t].pending.Ready?
    requires !Dialing(s.threads[t]) && !p.Dial? && !p.DialFailed?
    ensures Counted(Send(s, t, c, p))
  {
    var s' := Send(s, t, c, p);
    CountsUpdate(s, t, s'.threads[t]);
    assert In(s, c, HeldBy(t));
    assert s'.place.Keys == s.place.Keys;
  }

  lemma SendKeeps(s: State, t: Tid, c: Conn, p: Pc)
    requires Inv(s) && t in s.threads && c in s.threads[t].hand && s.threads[t].pending.Ready?
    requires !Dialing(s.threads[t]) && (p.Idle? || p.Reinsert?)
    requires Shape(s, p, s.threads[t].hand - {c}) && Ledger(s, p, s.threads[t].book)
    ensures Inv(Send(s, t, c, p))
  {
    hide Placed, Flagged, Locals, Counted;
    SendPlaced(s, t, c, p);
    SendFlagged(s, t, c, p);
    SendCounted(s, t, c, p);
    LocalOf(s, t);
    LocalsStep(s, Send(s, t, c, p), t);
  }

  lemma DialOkPlaced(s: State, t: Tid)
    requires Placed(s) && Flagged(s) && t in s.threads && s.threads[t].hand == {} && s.threads[t].pending.Ready?
    ensures Placed(DialOk(s, t)) && Flagged(DialOk(s, t)) && s.created !in s.place && s.created !in s.broken
  {
    var s' := DialOk(s, t);
    assert s.created !in s.place;
    forall x ensures x in s'.threads[t].hand <==> In(s', x, HeldBy(t)) {
      assert x in s.threads[t].hand <==> In(s, x, HeldBy(t));
    }
    PlacedStep(s, s', t);
    FlaggedStep(s, s', t);
  }

  /** Handing connection c to the caller: c is new to this runSearch. */
  lemma GotConnLocal(s: State, th: Thread, c: Conn, s': State)
    requires Local(s, th) && th.pending.Ready? && (th.pc.Dial? || th.pc.Validate?)
    requires s'.broken == s.broken && s.created <= s'.created
    requires c < s'.created && c !in s'.broken
    ensures Local(s', GotConn(th, c))
  {
  }

  lemma DialOkKeeps(s: State, t: Tid)
    requires Inv(s) && t in s.threads && s.threads[t].pending.Ready? && s.threads[t].pc.Dial?
    ensures Inv(DialOk(s, t))
  {
    hide Placed, Flagged, Locals;
    var s' := DialOk(s, t);
    LocalOf(s, t);
    DialOkPlaced(s, t);
    GotConnLocal(s, s.threads[t], s.created, s');
    LocalsStep(s, s', t);
    assert Counted(s') by {
      assert s'.place.Keys == s.place.Keys + {s.created};
      CountsUpdate(s, t, s'.threads[t]);
    }
  }

  lemma ReleasePlaced(s: State, t: Tid, c: Conn)
    requires Placed(s) && Flagged(s) && t in s.threads && s.threads[t].pending == ReleaseSlot(c) && c in s.threads[t].hand
    ensures Placed(Release(s, t, c)) && Flagged(Release(s, t, c)) && c in s.place
  {
    var s' := Release(s, t, c);
    assert In(s, c, HeldBy(t));
    forall x ensures x in s'.threads[t].hand <==> In(s', x, HeldBy(t)) {
      assert x in s.threads[t].hand <==> In(s, x, HeldBy(t));
    }
    PlacedStep(s, s', t);
    forall x | x in s'.threads[t].hand ensures FlagOk(s', s'.threads[t], x) {
      assert FlagOk(s, s.threads[t], x);
    }
    FlaggedStep(s, s', t);
  }

  lemma ReleaseKeeps(s: State, t: Tid)
    requires Inv(s) && t in s.threads && s.threads[t].pending.ReleaseSlot?
    ensures Inv(Release(s, t, s.threads[t].pending.c))
  {
    hide Placed, Flagged, Locals;
    var c := s.threads[t].pending.c;
    var s' := Release(s, t, c);
    LocalOf(s, t);
    ReleasePlaced(s, t, c);
    assert Counted(s') by {
      assert s.place.Keys == s'.place.Keys + {c};
      CountsUpdate(s, t, s'.threads[t]);
    }
    LocalsStep(s, s', t);
  }
}
