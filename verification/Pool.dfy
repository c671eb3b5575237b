/** The LDAP connection pool and its user `runSearch`, as a machine whose steps are the
    source's atomic actions: one atomic add, load, compare-and-swap, flag read, channel
    send or channel receive each.  Any number of goroutines interleave these steps in any
    order; dial, search, ping and context outcomes are arbitrary inputs (`Choice`). */
module Pool {

  type Conn = nat
  type Tid = nat

  // DefaultMaxRetries: attempts inside one Get.
  const MAX_RETRIES: nat := 3
  // Attempts inside one runSearch.
  const SEARCH_ATTEMPTS: nat := 2

  /** Where a goroutine is, between two atomic actions. */
  datatype Pc =
    | Idle
    // runSearch
    | SearchLoop
    | Holding(c: Conn)
    // Get
    | GetOpen
    | GetTake(attempt: nat)
    | Validate(c: Conn, attempt: nat, waited: bool)
    | GetCtx(attempt: nat)
    | LoadActive(attempt: nat)
    | CasActive(attempt: nat, seen: int)
    | Dial
    | DialFailed
    | GetWait(attempt: nat)
    | WaitFailed
    | GetDelay(attempt: nat)
    | GetExhausted
    // Put; `late` records that the pool was already closed when this Put began
    | PutLoad(c: Conn, late: bool)
    | PutClosed(c: Conn, late: bool)
    | PutUsable(c: Conn, late: bool)
    | PutSend(c: Conn, late: bool)
    | StalePut(c: Conn)
    // Discard
    | DiscardCas(c: Conn)
    | StaleDiscard(c: Conn)
    // maintenance goroutine
    | MaintIdle
    | MaintExited
    | Drain(valid: seq<Conn>)
    | DrainCheck(valid: seq<Conn>, c: Conn)
    | Reinsert(valid: seq<Conn>)
    // Close
    | CloseFlag
    | CloseWait
    | CloseDrain
    | CloseTaken(c: Conn)

  /** An atomic action that must run before the goroutine goes on at its pc: the add on
      poolSize after a send or a receive, or the two halves of a teardown. */
  datatype Pending = Ready | AddSize | SubSize | CloseSocket(c: Conn) | ReleaseSlot(c: Conn)

  datatype SearchOutcome = Success | NetworkError | OtherError

  /** What runSearch returns: the search's result, its error, or the error of Get. */
  datatype Verdict = Undecided | Result | SearchError(outcome: SearchOutcome) | GetError

  /** The ledger of the current runSearch: Get calls made, calls that returned an error,
      connections obtained, the outcome of the search on each, the connections handed back,
      to Put and to Discard, and what runSearch returns. */
  datatype Book = Book(
    calls: nat, errors: nat, obtained: seq<Conn>, outcomes: seq<SearchOutcome>,
    returned: seq<Conn>, put: seq<Conn>, discarded: seq<Conn>, verdict: Verdict)

  const BLANK := Book(0, 0, [], [], [], [], [], Undecided)

  /** `hand`, `book` and `gone` are history variables: the connections the goroutine owns,
      what its current runSearch has done, and every connection it has ever discarded. */
  datatype Thread = Thread(pc: Pc, pending: Pending, hand: set<Conn>, book: Book, gone: set<Conn>)

  /** Where a connection that still holds a slot is. */
  datatype Place = InChannel | HeldBy(t: Tid)

  /** `created` numbers connections; `broken` are the set broken flags; `shut` the closed
      sockets; `place` is a history variable: every connection whose slot has not been
      released yet, with its place. */
  datatype State = State(
    max: nat, active: int, size: int, channel: seq<Conn>, closed: bool,
    created: nat, broken: set<Conn>, shut: set<Conn>, place: map<Conn, Place>,
    threads: map<Tid, Thread>)

  datatype Action = StartSearch | CallPut | CallDiscard | StartClose | Rest

  /** Everything the environment decides about one step. */
  datatype Choice = Choice(action: Action, conn: Conn, ctxDone: bool, take: bool, ok: bool, outcome: SearchOutcome)

  // ---------------------------------------------------------------- classification

  /** A slot is reserved but there is no connection yet (or no longer). */
  predicate Dialing(th: Thread) { th.pc.Dial? || th.pc.DialFailed? }
  predicate Adding(th: Thread) { th.pending.AddSize? }
  predicate Subbing(th: Thread) { th.pending.SubSize? }
  predicate Closing(th: Thread) { th.pending.CloseSocket? || th.pending.ReleaseSlot? }

  /** Inside a Get call. */
  predicate InGet(p: Pc) {
    || p.GetOpen? || p.GetTake? || p.Validate? || p.GetCtx? || p.LoadActive? || p.CasActive?
    || p.Dial? || p.DialFailed? || p.GetWait? || p.WaitFailed? || p.GetDelay? || p.GetExhausted?
  }

  /** The maintenance goroutine has not exited yet. */
  predicate Maintaining(p: Pc) { p.MaintIdle? || p.Drain? || p.DrainCheck? || p.Reinsert? }

  /** The socket is closed, the slot not yet given back. */
  predicate Releasing(th: Thread) { th.pending.ReleaseSlot? }

  predicate Resting(th: Thread) { th.pending.Ready? && (th.pc.Idle? || th.pc.MaintIdle? || th.pc.MaintExited?) }

  /** Goroutines that satisfy p. */
  function Where(threads: map<Tid, Thread>, p: Thread -> bool): set<Tid> {
    set t | t in threads && p(threads[t])
  }

  // ---------------------------------------------------------------- effects

  function SetThread(s: State, t: Tid, th: Thread): State { s.(threads := s.threads[t := th]) }

  function Goto(s: State, t: Tid, p: Pc): State
    requires t in s.threads
  { SetThread(s, t, s.threads[t].(pc := p)) }

  /** Start tearing down c; the goroutine resumes at p afterwards. */
  function TearDown(s: State, t: Tid, c: Conn, p: Pc): State
    requires t in s.threads
  { SetThread(s, t, s.threads[t].(pc := p, pending := CloseSocket(c))) }

  /** Get returns an error, and runSearch returns it. */
  function FailGet(s: State, t: Tid): State
    requires t in s.threads
  {
    var th := s.threads[t];
    SetThread(s, t, th.(pc := Idle, book := th.book.(errors := th.book.errors + 1, verdict := GetError)))
  }

  /** Get returns connection c. */
  function GotConn(th: Thread, c: Conn): Thread {
    th.(pc := Holding(c), hand := {c}, book := th.book.(obtained := th.book.obtained + [c]))
  }

  /** The caller gives connection c up, to Put or to Discard. */
  function HandBack(th: Thread, c: Conn, p: Pc): Thread {
    th.(pc := p, book := th.book.(returned := th.book.returned + [c], put := th.book.put + [c]))
  }

  function HandOver(th: Thread, c: Conn, p: Pc): Thread {
    th.(pc := p, book := th.book.(returned := th.book.returned + [c], discarded := th.book.discarded + [c]))
  }

  /** The search on connection c came back: what runSearch does next, and what it will return. */
  function Searched(th: Thread, outcome: SearchOutcome, p: Pc): Thread {
    var verdict := match outcome
      case Success => Result
      case NetworkError => Undecided
      case OtherError => SearchError(OtherError);
    th.(pc := p, book := th.book.(outcomes := th.book.outcomes + [outcome], verdict := verdict))
  }

  /** Receive the head of the channel. */
  function Receive(s: State, t: Tid, p: Pc): State
    requires t in s.threads && s.channel != []
  {
    var c := s.channel[0];
    SetThread(s, t, s.threads[t].(pc := p, pending := SubSize, hand := s.threads[t].hand + {c}))
      .(channel := s.channel[1..], place := s.place[c := HeldBy(t)])
  }

  function Send(s: State, t: Tid, c: Conn, p: Pc): State
    requires t in s.threads
  {
    SetThread(s, t, s.threads[t].(pc := p, pending := AddSize, hand := s.threads[t].hand - {c}))
      .(channel := s.channel + [c], place := s.place[c := InChannel])
  }

  /** A successful dial: a fresh connection takes over the reserved slot. */
  function DialOk(s: State, t: Tid): State
    requires t in s.threads
  {
    SetThread(s, t, GotConn(s.threads[t], s.created))
      .(created := s.created + 1, place := s.place[s.created := HeldBy(t)])
  }

  function Shut(s: State, t: Tid, c: Conn): State
    requires t in s.threads
  {
    SetThread(s, t, s.threads[t].(pending := ReleaseSlot(c))).(shut := s.shut + {c})
  }

  /** The atomic decrement at the end of closeConnectionWithReason. */
  function Release(s: State, t: Tid, c: Conn): State
    requires t in s.threads
  {
    SetThread(s, t, s.threads[t].(pending := Ready, hand := s.threads[t].hand - {c}))
      .(active := s.active - 1, place := s.place - {c})
  }

  /** Discard's successful compare-and-swap. */
  function Mark(s: State, t: Tid, c: Conn): State
    requires t in s.threads
  {
    var th := s.threads[t];
    SetThread(s, t, HandOver(th, c, SearchLoop).(pending := CloseSocket(c), gone := th.gone + {c})).(broken := s.broken + {c})
  }

  // ---------------------------------------------------------------- the machine

  /** One atomic action of goroutine t.  A goroutine that is blocked stays where it is. */
  function Next(s: State, t: Tid, e: Choice): State {
    if t !in s.threads then s else
    match s.threads[t].pending
    case Ready => Act(s, t, e)
    case SubSize => SetThread(s, t, s.threads[t].(pending := Ready)).(size := s.size - 1)
    case AddSize => SetThread(s, t, s.threads[t].(pending := Ready)).(size := s.size + 1)
    case CloseSocket(c) => Shut(s, t, c)
    case ReleaseSlot(c) => Release(s, t, c)
  }

  /** The select statements that receive: the channel wins, or a done context does. */
  predicate Takes(s: State, e: Choice) { s.channel != [] && (e.take || !e.ctxDone) }

  predicate InPut(p: Pc) { p.PutLoad? || p.PutClosed? || p.PutUsable? || p.PutSend? }
  predicate InClose(p: Pc) { p.CloseFlag? || p.CloseWait? || p.CloseDrain? || p.CloseTaken? || p.MaintExited? }

  function Act(s: State, t: Tid, e: Choice): State
    requires t in s.threads
  {
    var p := s.threads[t].pc;
    if InGet(p) then GetAct(s, t, e)
    else if InPut(p) then PutAct(s, t, e)
    else if Maintaining(p) then MaintAct(s, t, e)
    else if InClose(p) then CloseAct(s, t, e)
    else CallerAct(s, t, e)
  }

  /** runSearch around Get, Put and Discard; an idle goroutine may also call Put or Discard
      again on any connection it has ever discarded. */
  function CallerAct(s: State, t: Tid, e: Choice): State
    requires t in s.threads
    requires var p := s.threads[t].pc; !InGet(p) && !InPut(p) && !Maintaining(p) && !InClose(p)
  {
    var th := s.threads[t];
    match th.pc
    case Idle =>
      (match e.action
       case StartSearch => SetThread(s, t, th.(pc := SearchLoop, book := BLANK))
       case CallPut => if e.conn in th.gone then Goto(s, t, StalePut(e.conn)) else s
       case CallDiscard => if e.conn in th.gone then Goto(s, t, StaleDiscard(e.conn)) else s
       case StartClose => Goto(s, t, CloseFlag)
       case Rest => s)
    case SearchLoop =>
      if th.book.calls < SEARCH_ATTEMPTS
      then SetThread(s, t, th.(pc := GetOpen, book := th.book.(calls := th.book.calls + 1)))
      else SetThread(s, t, th.(pc := Idle, book := th.book.(verdict := SearchError(NetworkError))))
    case Holding(c) =>
      SetThread(s, t, Searched(th, e.outcome, if e.outcome.NetworkError? then DiscardCas(c) else PutLoad(c, s.closed)))
    case DiscardCas(c) => if c in s.broken then Goto(s, t, SearchLoop) else Mark(s, t, c)
    case StalePut(c) => Goto(s, t, if c in s.broken then Idle else PutClosed(c, s.closed))
    case StaleDiscard(c) => if c in s.broken then Goto(s, t, Idle) else Mark(s, t, c)
  }

  function GetAct(s: State, t: Tid, e: Choice): State
    requires t in s.threads && InGet(s.threads[t].pc)
  {
    match s.threads[t].pc
    case GetOpen => if s.closed then FailGet(s, t) else Goto(s, t, GetTake(0))
    case GetTake(a) =>
      if Takes(s, e) then Receive(s, t, Validate(s.channel[0], a, false)) else Goto(s, t, GetCtx(a))
    case Validate(c, a, waited) =>
      if e.ok then SetThread(s, t, GotConn(s.threads[t], c))
      else TearDown(s, t, c, if waited then WaitFailed else GetCtx(a))
    case GetCtx(a) => if e.ctxDone then FailGet(s, t) else Goto(s, t, LoadActive(a))
    case LoadActive(a) =>
      if s.active < s.max then Goto(s, t, CasActive(a, s.active))
      else if a == MAX_RETRIES - 1 then Goto(s, t, GetWait(a))
      else Goto(s, t, GetDelay(a))
    case CasActive(a, seen) =>
      if s.active == seen then Goto(s, t, Dial).(active := seen + 1) else Goto(s, t, LoadActive(a))
    case Dial => if e.ok then DialOk(s, t) else Goto(s, t, DialFailed)
    case DialFailed => FailGet(s, t).(active := s.active - 1)
    case GetWait(a) =>
      if Takes(s, e) then Receive(s, t, Validate(s.channel[0], a, true))
      else if e.ctxDone then FailGet(s, t)
      else s
    case WaitFailed => FailGet(s, t)
    case GetDelay(a) =>
      if e.ctxDone then FailGet(s, t)
      else Goto(s, t, if a + 1 < MAX_RETRIES then GetTake(a + 1) else GetExhausted)
    case GetExhausted => FailGet(s, t)
  }

  function PutAct(s: State, t: Tid, e: Choice): State
    requires t in s.threads && InPut(s.threads[t].pc)
  {
    match s.threads[t].pc
    case PutLoad(c, late) =>
      if c in s.broken then Goto(s, t, Idle) else SetThread(s, t, HandBack(s.threads[t], c, PutClosed(c, late)))
    case PutClosed(c, late) => if s.closed then TearDown(s, t, c, Idle) else Goto(s, t, PutUsable(c, late))
    case PutUsable(c, late) => if e.ok then Goto(s, t, PutSend(c, late)) else TearDown(s, t, c, Idle)
    case PutSend(c, _) => if |s.channel| < s.max then Send(s, t, c, Idle) else TearDown(s, t, c, Idle)
  }

  function MaintAct(s: State, t: Tid, e: Choice): State
    requires t in s.threads && Maintaining(s.threads[t].pc)
  {
    match s.threads[t].pc
    case MaintIdle =>
      if s.closed then Goto(s, t, MaintExited) else if e.action.Rest? then s else Goto(s, t, Drain([]))
    case Drain(valid) =>
      if Takes(s, e) then Receive(s, t, DrainCheck(valid, s.channel[0])) else Goto(s, t, Reinsert(valid))
    case DrainCheck(valid, c) =>
      if e.ok then Goto(s, t, Drain(valid + [c])) else TearDown(s, t, c, Drain(valid))
    case Reinsert(valid) =>
      if valid == [] then Goto(s, t, MaintIdle)
      else if |s.channel| < s.max then Send(s, t, valid[0], Reinsert(valid[1..]))
      else TearDown(s, t, valid[0], Reinsert(valid[1..]))
  }

  /** Close; a maintenance goroutine that has exited does nothing more. */
  function CloseAct(s: State, t: Tid, e: Choice): State
    requires t in s.threads && InClose(s.threads[t].pc)
  {
    match s.threads[t].pc
    case CloseFlag => if s.closed then Goto(s, t, Idle) else Goto(s, t, CloseWait).(closed := true)
    case CloseWait =>
      if (forall u | u in s.threads :: !Maintaining(s.threads[u].pc)) then Goto(s, t, CloseDrain) else s
    case CloseDrain =>
      if s.channel != [] then Receive(s, t, CloseTaken(s.channel[0])) else Goto(s, t, Idle)
    case CloseTaken(c) => TearDown(s, t, c, CloseDrain)
    case MaintExited => s
  }

  /** A schedule: who moves next, and what the environment decides. */
  function Run(s: State, schedule: seq<(Tid, Choice)>): State
    decreases |schedule|
  {
    if schedule == [] then s
    else Run(Next(s, schedule[0].0, schedule[0].1), schedule[1..])
  }

  /** NewConnectionPool, with goroutines about to use the pool and maintenance waiting. */
  predicate Initial(s: State) {
    && s.active == 0 && s.size == 0 && s.channel == [] && !s.closed
    && s.created == 0 && s.broken == {} && s.shut == {} && s.place == map[]
    && forall t | t in s.threads ::
         && s.threads[t].pending.Ready? && (s.threads[t].pc.Idle? || s.threads[t].pc.MaintIdle?)
         && s.threads[t].hand == {} && s.threads[t].book == BLANK && s.threads[t].gone == {}
  }
}
