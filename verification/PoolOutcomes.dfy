/** What runSearch does with the outcome of each search: which connection goes to Put, which to
    Discard, when it tries again, and what it returns. */
module PoolOutcomes {
  import opened Pool
  import opened PoolInvariant
  import opened PoolTheorems

  /** The connections whose search ended in a network error, or in anything else. */
  function Sorted(cs: seq<Conn>, outcomes: seq<SearchOutcome>, network: bool): seq<Conn>
    requires |cs| <= |outcomes|
  {
    if cs == [] then []
    else var n := |cs| - 1;
         Sorted(cs[..n], outcomes, network) + if outcomes[n].NetworkError? == network then [cs[n]] else []
  }

  /** Some search on c ended that way. */
  ghost predicate Ended(cs: seq<Conn>, outcomes: seq<SearchOutcome>, network: bool, c: Conn)
    requires |cs| <= |outcomes|
  {
    exists i :: 0 <= i < |cs| && cs[i] == c && outcomes[i].NetworkError? == network
  }

  lemma EndedSnoc(cs: seq<Conn>, outcomes: seq<SearchOutcome>, network: bool, c: Conn)
    requires 0 < |cs| <= |outcomes|
    ensures var n := |cs| - 1;
            Ended(cs, outcomes, network, c) <==>
            Ended(cs[..n], outcomes, network, c) || (cs[n] == c && outcomes[n].NetworkError? == network)
  {
    var n := |cs| - 1;
    if Ended(cs[..n], outcomes, network, c) {
      var i :| 0 <= i < n && cs[..n][i] == c && outcomes[i].NetworkError? == network;
      assert cs[i] == c;
    }
    if Ended(cs, outcomes, network, c) {
      var i :| 0 <= i < |cs| && cs[i] == c && outcomes[i].NetworkError? == network;
      assert i < n ==> cs[..n][i] == c;
    }
  }

  lemma {:induction false} SortedMembers(cs: seq<Conn>, outcomes: seq<SearchOutcome>, network: bool, c: Conn)
    requires |cs| <= |outcomes|
    ensures c in Sorted(cs, outcomes, network) <==> Ended(cs, outcomes, network, c)
  {
    if cs != [] {
      hide Ended;
      SortedMembers(cs[..|cs| - 1], outcomes, network, c);
      EndedSnoc(cs, outcomes, network, c);
    }
  }

  lemma {:induction false} SortedSizes(cs: seq<Conn>, outcomes: seq<SearchOutcome>)
    requires |cs| <= |outcomes|
    ensures |Sorted(cs, outcomes, true)| + |Sorted(cs, outcomes, false)| == |cs|
  {
    if cs != [] {
      SortedSizes(cs[..|cs| - 1], outcomes);
    }
  }

  /** One more connection handed back: its outcome is known. */
  lemma SortedSnoc(cs: seq<Conn>, c: Conn, outcomes: seq<SearchOutcome>, network: bool)
    requires |cs| < |outcomes|
    ensures Sorted(cs + [c], outcomes, network) ==
            Sorted(cs, outcomes, network) + if outcomes[|cs|].NetworkError? == network then [c] else []
  {
    assert (cs + [c])[..|cs|] == cs;
  }

  /** One more outcome known: those already sorted stay. */
  lemma {:induction false} SortedMore(cs: seq<Conn>, outcomes: seq<SearchOutcome>, o: SearchOutcome, network: bool)
    requires |cs| <= |outcomes|
    ensures Sorted(cs, outcomes + [o], network) == Sorted(cs, outcomes, network)
  {
    if cs != [] {
      SortedMore(cs[..|cs| - 1], outcomes, o, network);
    }
  }

  // ---------------------------------------------------------------- what every step keeps

  /** runSearch is still in its retry loop. */
  predicate Looping(p: Pc) { InGet(p) || p.SearchLoop? || p.Holding? || p.DiscardCas? }

  predicate AllNetwork(outcomes: seq<SearchOutcome>) { forall o | o in outcomes :: o.NetworkError? }

  /** How a finished runSearch went: network errors, then either another outcome or an error of
      Get, or both attempts used up. */
  ghost predicate Finished(b: Book) {
    if b.calls == 0 then b == BLANK
    else
      && (b.calls == 2 <==> b.outcomes != [] && b.outcomes[0].NetworkError?)
      && if b.errors > 0 then AllNetwork(b.outcomes) && b.verdict == GetError
         else b.outcomes != [] && AllNetwork(b.outcomes[..|b.outcomes| - 1])
              && b.verdict == if b.outcomes[|b.outcomes| - 1].Success? then Result
                              else SearchError(b.outcomes[|b.outcomes| - 1])
  }

  ghost predicate Handed(b: Book) {
    && |b.returned| <= |b.outcomes|
    && b.discarded == Sorted(b.returned, b.outcomes, true)
    && b.put == Sorted(b.returned, b.outcomes, false)
  }

  /** The ledger of one goroutine tells its search's story so far. */
  ghost predicate Course(th: Thread) {
    var b := th.book;
    && |b.outcomes| == |b.obtained| - (if th.pc.Holding? then 1 else 0)
    && Handed(b)
    && (forall c | c in b.discarded :: c in th.gone)
    && (if Looping(th.pc) then AllNetwork(b.outcomes) && b.verdict == Undecided else Finished(b))
    && (th.pc.DiscardCas? ==> |b.outcomes| > 0)
    && (th.pc.PutLoad? ==> |b.outcomes| > 0 && !b.outcomes[|b.outcomes| - 1].NetworkError?)
  }

  ghost predicate Courses(s: State) { forall t | t in s.threads :: Course(s.threads[t]) }

  /** A step that leaves the ledger alone and stays in the loop, or out of it. */
  lemma SameBook(th: Thread, th': Thread)
    requires Course(th) && th'.book == th.book && th'.gone == th.gone
    requires Looping(th.pc) == Looping(th'.pc) && th.pc.Holding? == th'.pc.Holding?
    requires !th'.pc.DiscardCas? && !th'.pc.PutLoad?
    ensures Course(th')
  {
  }

  lemma HandedMore(b: Book, o: SearchOutcome, v: Verdict)
    requires Handed(b)
    ensures Handed(b.(outcomes := b.outcomes + [o], verdict := v))
  {
    SortedMore(b.returned, b.outcomes, o, true);
    SortedMore(b.returned, b.outcomes, o, false);
    hide Sorted;
  }

  lemma FinishedBy(b: Book, o: SearchOutcome)
    requires AllNetwork(b.outcomes) && b.errors == 0 && 1 <= b.calls <= 2 && b.calls == |b.outcomes| + 1
    requires !o.NetworkError?
    ensures Finished(b.(outcomes := b.outcomes + [o], verdict := if o.Success? then Result else SearchError(o)))
  {
    OneMoreOutcome(b.outcomes, o);
    hide AllNetwork;
  }

  lemma SearchedCourse(s: State, th: Thread, o: SearchOutcome, late: bool)
    requires Course(th) && Local(s, th) && th.pending.Ready? && th.pc.Holding?
    ensures Course(Searched(th, o, if o.NetworkError? then DiscardCas(th.pc.c) else PutLoad(th.pc.c, late)))
  {
    hide Local, Sorted, Handed, Finished, AllNetwork;
    var b := th.book;
    CallsSoFar(s, th);
    var next := Searched(th, o, if o.NetworkError? then DiscardCas(th.pc.c) else PutLoad(th.pc.c, late));
    HandedMore(b, o, next.book.verdict);
    OneMoreOutcome(b.outcomes, o);
    if !o.NetworkError? {
      FinishedBy(b, o);
    }
  }

  lemma OneMoreOutcome(outcomes: seq<SearchOutcome>, o: SearchOutcome)
    requires AllNetwork(outcomes)
    ensures var more := outcomes + [o];
            && more[..|more| - 1] == outcomes && more[|more| - 1] == o
            && (o.NetworkError? ==> AllNetwork(more))
            && (outcomes != [] ==> more[0].NetworkError?)
  {
    assert outcomes != [] ==> outcomes[0] in outcomes;
  }

  /** With the connection in hand no Get is running and none has failed. */
  lemma CallsSoFar(s: State, th: Thread)
    requires Local(s, th) && (th.pc.Holding? || th.pc.DiscardCas?)
    ensures var b := th.book; b.errors == 0 && 1 <= b.calls <= 2 && b.calls == |b.obtained|
  {
  }

  lemma HandedBack(b: Book, c: Conn)
    requires Handed(b) && |b.outcomes| == |b.returned| + 1 && !b.outcomes[|b.returned|].NetworkError?
    ensures Handed(b.(returned := b.returned + [c], put := b.put + [c]))
  {
    SortedSnoc(b.returned, c, b.outcomes, true);
    SortedSnoc(b.returned, c, b.outcomes, false);
    hide Sorted;
    assert b.discarded + [] == b.discarded;
  }

  lemma PutCourse(s: State, th: Thread, p: Pc)
    requires Course(th) && Local(s, th) && th.pending.Ready? && th.pc.PutLoad? && p.PutClosed?
    ensures Course(HandBack(th, th.pc.c, p))
  {
    hide Sorted, Local;
    BeforeReturn(s, th);
    HandedBack(th.book, th.pc.c);
    hide Handed;
    SameStory(th.book, HandBack(th, th.pc.c, p).book);
  }

  lemma BeforeReturn(s: State, th: Thread)
    requires Local(s, th)
    ensures th.book.obtained == th.book.returned + Unreturned(th.pc)
  {
  }

  lemma SameStory(b: Book, b': Book)
    requires Finished(b) && b.calls > 0 && b'.calls == b.calls && b'.errors == b.errors
    requires b'.outcomes == b.outcomes && b'.verdict == b.verdict
    ensures Finished(b')
  {
  }

  lemma HandedOver(b: Book, c: Conn)
    requires Handed(b) && |b.outcomes| == |b.returned| + 1 && AllNetwork(b.outcomes)
    ensures Handed(b.(returned := b.returned + [c], discarded := b.discarded + [c]))
  {
    assert b.outcomes[|b.returned|] in b.outcomes;
    SortedSnoc(b.returned, c, b.outcomes, true);
    SortedSnoc(b.returned, c, b.outcomes, false);
    hide Sorted;
    assert b.put + [] == b.put;
  }

  lemma DiscardCourse(s: State, th: Thread)
    requires Course(th) && Local(s, th) && th.pending.Ready? && th.pc.DiscardCas?
    ensures Course(HandOver(th, th.pc.c, SearchLoop).(pending := CloseSocket(th.pc.c), gone := th.gone + {th.pc.c}))
  {
    hide Local, Sorted, AllNetwork, Finished;
    BeforeReturn(s, th);
    HandedOver(th.book, th.pc.c);
    hide Handed;
  }

  /** Get gave a connection. */
  lemma GotCourse(s: State, th: Thread, c: Conn)
    requires Course(th) && Local(s, th) && th.pending.Ready? && (th.pc.Dial? || th.pc.Validate?)
    ensures Course(GotConn(th, c))
  {
  }

  /** Get gave an error: the first attempt's, or the second's after a network error. */
  lemma FailCourse(s: State, th: Thread)
    requires Course(th) && Local(s, th) && InGet(th.pc)
    ensures Course(th.(pc := Idle, book := th.book.(errors := th.book.errors + 1, verdict := GetError)))
  {
    var b := th.book;
    assert b.obtained == b.returned;
    assert b.outcomes != [] ==> b.outcomes[0] in b.outcomes;
  }

  /** Both attempts ended in network errors. */
  lemma ExhaustedCourse(s: State, th: Thread)
    requires Course(th) && Local(s, th) && th.pc.SearchLoop? && th.book.calls >= SEARCH_ATTEMPTS
    ensures Course(th.(pc := Idle, book := th.book.(verdict := SearchError(NetworkError))))
  {
    var b := th.book;
    assert b.outcomes[0] in b.outcomes && b.outcomes[1] in b.outcomes;
  }

  /** What a goroutine whose turn it is may rely on. */
  ghost predicate Ready(s: State, t: Tid) {
    && t in s.threads && s.threads[t].pending.Ready? && Local(s, s.threads[t])
    && forall c | c in s.threads[t].hand :: c !in s.broken
  }

  lemma ReadyWhen(s: State, t: Tid)
    requires Inv(s) && t in s.threads && s.threads[t].pending.Ready?
    ensures Ready(s, t)
  {
    hide Inv, Local;
    Facts(s, t);
  }

  /** Only goroutine t moved. */
  predicate Moves(s: State, s': State, t: Tid) {
    t in s.threads && t in s'.threads && s'.threads == s.threads[t := s'.threads[t]]
  }

  ghost predicate CourseOf(s: State, t: Tid) { t in s.threads && Course(s.threads[t]) }

  /** The goroutine goes on without touching its ledger. */
  predicate Onward(th: Thread, th': Thread) {
    && th'.book == th.book && th'.gone == th.gone
    && Looping(th.pc) == Looping(th'.pc) && !th.pc.Holding? && !th'.pc.Holding? && !th'.pc.DiscardCas? && !th'.pc.PutLoad?
  }

  function Refused(th: Thread): Thread {
    th.(pc := Idle, book := th.book.(errors := th.book.errors + 1, verdict := GetError))
  }

  /** What a step of Get can be. */
  lemma GetMoves(s: State, t: Tid, e: Choice)
    requires t in s.threads && InGet(s.threads[t].pc)
    ensures var s' := GetAct(s, t, e);
            && Moves(s, s', t)
            && var th := s.threads[t]; var th' := s'.threads[t];
               || Onward(th, th')
               || th' == Refused(th)
               || ((th.pc.Dial? || th.pc.Validate?) && th'.pc.Holding? && th' == GotConn(th, th'.pc.c))
  {
    match s.threads[t].pc
    case GetOpen =>
    case GetTake(_) =>
    case Validate(_, _, _) =>
    case GetCtx(_) =>
    case LoadActive(_) =>
    case CasActive(_, _) =>
    case Dial =>
    case DialFailed =>
    case GetWait(_) =>
    case WaitFailed =>
    case GetDelay(_) =>
    case GetExhausted =>
  }

  lemma GetCourse(s: State, t: Tid, e: Choice)
    requires Ready(s, t) && InGet(s.threads[t].pc) && Course(s.threads[t])
    ensures Moves(s, GetAct(s, t, e), t) && CourseOf(GetAct(s, t, e), t)
  {
    hide Course, Local, GetAct;
    GetMoves(s, t, e);
    var th := s.threads[t];
    var next := GetAct(s, t, e).threads[t];
    if Onward(th, next) {
      SameBook(th, next);
    } else if next == Refused(th) {
      FailCourse(s, th);
    } else {
      GotCourse(s, th, next.pc.c);
    }
  }

  lemma PutMoves(s: State, t: Tid, e: Choice)
    requires t in s.threads && InPut(s.threads[t].pc)
    requires s.threads[t].pc.PutLoad? ==> s.threads[t].pc.c !in s.broken
    ensures var s' := PutAct(s, t, e);
            && Moves(s, s', t)
            && var th := s.threads[t]; var th' := s'.threads[t];
               if th.pc.PutLoad? then th' == HandBack(th, th.pc.c, PutClosed(th.pc.c, th.pc.late)) else Onward(th, th')
  {
    match s.threads[t].pc
    case PutLoad(_, _) =>
    case PutClosed(_, _) =>
    case PutUsable(_, _) =>
    case PutSend(_, _) =>
  }

  lemma PutActCourse(s: State, t: Tid, e: Choice)
    requires Ready(s, t) && InPut(s.threads[t].pc) && Course(s.threads[t])
    ensures Moves(s, PutAct(s, t, e), t) && CourseOf(PutAct(s, t, e), t)
  {
    hide Course, Local, PutAct;
    var th := s.threads[t];
    if th.pc.PutLoad? {
      NotYetBroken(s, t);
      PutMoves(s, t, e);
      PutCourse(s, th, PutClosed(th.pc.c, th.pc.late));
    } else {
      PutMoves(s, t, e);
      SameBook(th, PutAct(s, t, e).threads[t]);
    }
  }

  lemma MaintMoves(s: State, t: Tid, e: Choice)
    requires t in s.threads && Maintaining(s.threads[t].pc)
    ensures Moves(s, MaintAct(s, t, e), t) && Onward(s.threads[t], MaintAct(s, t, e).threads[t])
  {
    match s.threads[t].pc
    case MaintIdle =>
    case Drain(_) =>
    case DrainCheck(_, _) =>
    case Reinsert(_) =>
  }

  lemma CloseMoves(s: State, t: Tid, e: Choice)
    requires t in s.threads && InClose(s.threads[t].pc)
    ensures Moves(s, CloseAct(s, t, e), t) && Onward(s.threads[t], CloseAct(s, t, e).threads[t])
  {
    match s.threads[t].pc
    case CloseFlag =>
    case CloseWait =>
    case CloseDrain =>
    case CloseTaken(_) =>
    case MaintExited =>
  }

  lemma OtherCourse(s: State, t: Tid, e: Choice)
    requires t in s.threads && Course(s.threads[t])
    ensures Maintaining(s.threads[t].pc) ==> Moves(s, MaintAct(s, t, e), t) && CourseOf(MaintAct(s, t, e), t)
    ensures InClose(s.threads[t].pc) ==> Moves(s, CloseAct(s, t, e), t) && CourseOf(CloseAct(s, t, e), t)
  {
    hide Course, MaintAct, CloseAct;
    if Maintaining(s.threads[t].pc) {
      MaintMoves(s, t, e);
      SameBook(s.threads[t], MaintAct(s, t, e).threads[t]);
    }
    if InClose(s.threads[t].pc) {
      CloseMoves(s, t, e);
      SameBook(s.threads[t], CloseAct(s, t, e).threads[t]);
    }
  }

  lemma CallerCourse(s: State, t: Tid, e: Choice)
    requires Ready(s, t) && Course(s.threads[t])
    requires var p := s.threads[t].pc; !InGet(p) && !InPut(p) && !Maintaining(p) && !InClose(p)
    ensures Moves(s, CallerAct(s, t, e), t) && CourseOf(CallerAct(s, t, e), t)
  {
    hide Course, Local;
    var th := s.threads[t];
    match th.pc
    case Idle => IdleCourse(s, t, e);
    case SearchLoop =>
      if th.book.calls < SEARCH_ATTEMPTS { NextAttempt(th); } else { ExhaustedCourse(s, th); }
    case Holding(c) => SearchedCourse(s, th, e.outcome, s.closed);
    case DiscardCas(c) => NotYetBroken(s, t); DiscardCourse(s, th);
    case StalePut(c) => StaleIsBroken(s, t); SameBook(th, th.(pc := Idle));
    case StaleDiscard(c) => StaleIsBroken(s, t); SameBook(th, th.(pc := Idle));
  }

  lemma IdleCourse(s: State, t: Tid, e: Choice)
    requires t in s.threads && s.threads[t].pc.Idle? && Course(s.threads[t])
    ensures Moves(s, CallerAct(s, t, e), t) && CourseOf(CallerAct(s, t, e), t)
  {
    hide Course;
    var th := s.threads[t];
    match e.action
    case StartSearch => FreshCourse(th);
    case CallPut => if e.conn in th.gone { SameBook(th, th.(pc := StalePut(e.conn))); }
    case CallDiscard => if e.conn in th.gone { SameBook(th, th.(pc := StaleDiscard(e.conn))); }
    case StartClose => SameBook(th, th.(pc := CloseFlag));
    case Rest =>
  }

  lemma FreshCourse(th: Thread)
    ensures Course(th.(pc := SearchLoop, book := BLANK))
  {
  }

  lemma NotYetBroken(s: State, t: Tid)
    requires Ready(s, t) && (s.threads[t].pc.DiscardCas? || s.threads[t].pc.PutLoad?)
    ensures s.threads[t].pc.c !in s.broken
  {
    hide Ledger;
  }

  lemma StaleIsBroken(s: State, t: Tid)
    requires Ready(s, t) && (s.threads[t].pc.StalePut? || s.threads[t].pc.StaleDiscard?)
    ensures s.threads[t].pc.c in s.broken
  {
    hide Ledger;
  }

  lemma NextAttempt(th: Thread)
    requires Course(th) && th.pc.SearchLoop?
    ensures Course(th.(pc := GetOpen, book := th.book.(calls := th.book.calls + 1)))
  {
  }

  lemma ActCourse(s: State, t: Tid, e: Choice)
    requires Ready(s, t) && Course(s.threads[t])
    ensures Moves(s, Act(s, t, e), t) && CourseOf(Act(s, t, e), t)
  {
    hide Local, Course, Moves, CourseOf, GetAct, PutAct, MaintAct, CloseAct, CallerAct;
    var p := s.threads[t].pc;
    if InGet(p) { GetCourse(s, t, e); }
    else if InPut(p) { PutActCourse(s, t, e); }
    else if Maintaining(p) || InClose(p) { OtherCourse(s, t, e); }
    else { CallerCourse(s, t, e); }
  }

  /** A pending action. */
  lemma SettledCourse(s: State, t: Tid, e: Choice)
    requires t in s.threads && !s.threads[t].pending.Ready? && Course(s.threads[t])
    ensures Moves(s, Next(s, t, e), t) && CourseOf(Next(s, t, e), t)
  {
    hide Act, Handed, Finished;
  }

  lemma NextCourses(s: State, t: Tid, e: Choice)
    requires Inv(s) && Courses(s)
    ensures Courses(Next(s, t, e))
  {
    hide Inv, Course, Act;
    if t in s.threads {
      assert Course(s.threads[t]);
      if s.threads[t].pending.Ready? { ReadyWhen(s, t); ActCourse(s, t, e); } else { SettledCourse(s, t, e); }
      MovedCourses(s, Next(s, t, e), t);
    }
  }

  lemma MovedCourses(s: State, s': State, t: Tid)
    requires Courses(s) && Moves(s, s', t) && CourseOf(s', t)
    ensures Courses(s')
  {
    hide Course;
  }

  lemma {:induction false} RunCourses(s: State, schedule: seq<(Tid, Choice)>)
    requires Inv(s) && Courses(s)
    ensures Courses(Run(s, schedule))
    decreases |schedule|
  {
    hide Inv, Courses, Next;
    if schedule != [] {
      NextKeeps(s, schedule[0].0, schedule[0].1);
      NextCourses(s, schedule[0].0, schedule[0].1);
      RunCourses(Next(s, schedule[0].0, schedule[0].1), schedule[1..]);
    }
  }

  lemma ReachableCourses(r: State)
    requires Reachable(r)
    ensures Courses(r)
  {
    hide Inv, Courses, Initial;
    var s: State, schedule: seq<(Tid, Choice)> :| Initial(s) && Run(s, schedule) == r;
    InitialHolds(s);
    InitialCourses(s);
    RunCourses(s, schedule);
  }

  lemma InitialCourses(s: State)
    requires Initial(s)
    ensures Courses(s)
  {
  }

  // ---------------------------------------------------------------- the promise

  lemma BookAtRest(r: State, t: Tid)
    requires Reachable(r) && t in r.threads && Resting(r.threads[t]) && r.threads[t].book.calls > 0
    ensures var b := r.threads[t].book;
            && b.returned == b.obtained && |b.outcomes| == |b.obtained| && NoDup(b.obtained)
            && Handed(b) && Finished(b)
            && forall c | c in b.discarded :: c in r.broken
  {
    hide Reachable, Inv, Courses, Handed, Finished;
    ReachableInv(r);
    ReachableCourses(r);
    Facts(r, t);
    CourseOfOne(r, t);
  }

  lemma CourseOfOne(r: State, t: Tid)
    requires Courses(r) && t in r.threads
    ensures Course(r.threads[t])
  {
  }

  /** Once runSearch has returned: every connection it obtained was searched; those on which the
      search ended in a network error, and only those, were discarded, and they are flagged
      broken; all others were put back; there was a second Get exactly when the first search
      ended in a network error; the result is returned exactly when the last search succeeded,
      and otherwise the error of the last search, or that of a Get that failed. */
  lemma SearchEndsAsItWent(r: State, t: Tid)
    requires Reachable(r) && t in r.threads && Resting(r.threads[t]) && r.threads[t].book.calls > 0
    ensures var b := r.threads[t].book;
            && |b.outcomes| == |b.obtained|
            && (forall i | 0 <= i < |b.obtained| :: b.obtained[i] in b.discarded <==> b.outcomes[i].NetworkError?)
            && (forall i | 0 <= i < |b.obtained| :: b.obtained[i] in b.put <==> !b.outcomes[i].NetworkError?)
            && |b.put| + |b.discarded| == |b.obtained|
            && (forall c | c in b.discarded :: c in r.broken)
            && (b.calls == 2 <==> b.outcomes != [] && b.outcomes[0].NetworkError?)
            && (b.verdict.Result? <==> b.outcomes != [] && b.outcomes[|b.outcomes| - 1].Success?)
            && (b.verdict.GetError? <==> b.errors > 0)
            && (b.verdict.SearchError? ==> b.outcomes != [] && b.verdict == SearchError(b.outcomes[|b.outcomes| - 1]))
            && !b.verdict.Undecided?
  {
    hide Reachable, Sorted, Resting;
    BookAtRest(r, t);
    var b := r.threads[t].book;
    SortedSizes(b.obtained, b.outcomes);
    forall i | 0 <= i < |b.obtained|
      ensures b.obtained[i] in b.discarded <==> b.outcomes[i].NetworkError?
      ensures b.obtained[i] in b.put <==> !b.outcomes[i].NetworkError?
    {
      OutcomeOfEach(b.obtained, b.outcomes, i, true);
      OutcomeOfEach(b.obtained, b.outcomes, i, false);
    }
    assert b.outcomes != [] ==> b.outcomes[|b.outcomes| - 1] in b.outcomes;
  }

  /** Without repetitions a connection is on one side only. */
  lemma OutcomeOfEach(cs: seq<Conn>, outcomes: seq<SearchOutcome>, i: nat, network: bool)
    requires NoDup(cs) && i < |cs| <= |outcomes|
    ensures cs[i] in Sorted(cs, outcomes, network) <==> outcomes[i].NetworkError? == network
  {
    SortedMembers(cs, outcomes, network, cs[i]);
    hide Sorted;
    if cs[i] in Sorted(cs, outcomes, network) {
      var j :| 0 <= j < |cs| && cs[j] == cs[i] && outcomes[j].NetworkError? == network;
      assert i == j;
    }
  }
}
