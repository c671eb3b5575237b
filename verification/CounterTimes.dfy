/** When counter entries were last updated, told from the schedule, and what the cleanup may
    conclude from their lastSeen. */
module CounterTimes {
  import opened Counters
  import opened CounterInvariant
  import opened CounterTheorems

  type Turn = (Tid, Choice)
  type Place = (string, string)

  // ---------------------------------------------------------------- told from the schedule

  /** With this turn an update gets hold of the entry of a (server, key). */
  predicate Begins(s: State, turn: Turn) {
    && turn.0 in s.threads && Grip(s.threads[turn.0]) == {}
    && var next := Next(s, turn.0, turn.1);
       turn.0 in next.threads && !Cleaning(next.threads[turn.0]) && Grip(next.threads[turn.0]) != {}
  }

  /** The (server, key) it is about. */
  function Subject(s: State, turn: Turn): Place
    requires Begins(s, turn)
  {
    var p := Next(s, turn.0, turn.1).threads[turn.0];
    assert !p.Idle?;
    Home(p.j)
  }

  /** The clock reading at which the latest update of each (server, key) began. */
  function Updated(s: State, schedule: seq<Turn>, so: map<Place, int>): map<Place, int>
    decreases |schedule|
  {
    if schedule == [] then so
    else Updated(Next(s, schedule[0].0, schedule[0].1), schedule[1..], AfterTurn(s, schedule[0], so))
  }

  function AfterTurn(s: State, turn: Turn, so: map<Place, int>): map<Place, int> {
    if Begins(s, turn) then so[Subject(s, turn) := turn.1.now] else so
  }

  /** The clock never goes back, and starts no earlier than the given reading. */
  predicate ClockFrom(schedule: seq<Turn>, now: int) {
    schedule != [] ==> now <= schedule[0].1.now && ClockFrom(schedule[1..], schedule[0].1.now)
  }

  function Latest(schedule: seq<Turn>, now: int): int {
    if schedule == [] then now else schedule[|schedule| - 1].1.now
  }

  // ---------------------------------------------------------------- what every step keeps

  /** The entry's holder is an update that has not stamped it yet. */
  ghost predicate Stamping(s: State, e: Eid) {
    && e in s.heap && s.heap[e].modifying.SetBy? && s.heap[e].modifying.t in s.threads
    && (s.threads[s.heap[e].modifying.t].UpUnlock? || s.threads[s.heap[e].modifying.t].UpTouch?)
  }

  ghost predicate Stamped(s: State, at: Place, e: Eid, updated: map<Place, int>, now: int) {
    && e in s.heap && s.heap[e].lastSeen <= now
    && (at in updated ==> Stamping(s, e) || s.heap[e].lastSeen >= updated[at])
  }

  function Cutoff(p: Pc): int
    requires Cleaning(p)
  { p.cutoff }

  ghost predicate Timely(s: State, updated: map<Place, int>, now: int) {
    && (forall at | at in updated :: updated[at] <= now)
    && (forall at, e | Live(s, at, e) :: Stamped(s, at, e, updated, now))
    && (forall t | t in s.threads && Cleaning(s.threads[t]) :: Cutoff(s.threads[t]) <= now - RETENTION)
  }

  /** Only goroutine t moves. */
  predicate Moved(s: State, s': State, t: Tid) {
    t in s.threads && t in s'.threads && s'.threads == s.threads[t := s'.threads[t]]
  }

  /** A step leaves every lastSeen alone or sets it to the present reading, and makes an entry
      live only when it creates it; the update that is to stamp its entry does so. */
  ghost predicate Stamps(s: State, s': State, t: Tid, now: int) {
    && Moved(s, s', t)
    && (s'.heap == s.heap || Restamped(s, s', now))
    && (s'.servers == s.servers || LiveOrNew(s, s', now))
    && (s.threads[t].UpUnlock? ==> s'.threads[t].UpTouch? && s'.threads[t].e == s.threads[t].e)
    && (s.threads[t].UpTouch? && s.threads[t].e in s.heap ==> s'.heap[s.threads[t].e].lastSeen == now)
    && (Cleaning(s'.threads[t]) && !Cleaning(s.threads[t]) ==> s'.threads[t].cutoff == now - RETENTION)
    && (Cleaning(s'.threads[t]) && Cleaning(s.threads[t]) ==> s'.threads[t].cutoff == s.threads[t].cutoff)
  }

  ghost predicate Restamped(s: State, s': State, now: int) {
    forall e | e in s.heap :: e in s'.heap && (s'.heap[e].lastSeen == s.heap[e].lastSeen || s'.heap[e].lastSeen == now)
  }

  /** One entry rewritten. */
  lemma RewriteRestamps(s: State, s': State, e: Eid, x: Entry, now: int)
    requires e in s.heap && s'.heap == s.heap[e := x] && (x.lastSeen == s.heap[e].lastSeen || x.lastSeen == now)
    ensures Restamped(s, s', now)
  {
  }

  lemma SameMaps(s: State, a: State, b: State, now: int)
    requires a.servers == b.servers && a.heap == b.heap
    ensures LiveOrNew(s, a, now) <==> LiveOrNew(s, b, now)
    ensures Restamped(s, a, now) <==> Restamped(s, b, now)
  {
    forall at, e ensures Live(a, at, e) <==> Live(b, at, e) {
    }
  }

  ghost predicate LiveOrNew(s: State, s': State, now: int) {
    forall at, e | Live(s', at, e) :: Live(s, at, e) || (e in s'.heap && s'.heap[e].lastSeen == now)
  }

  lemma UpdateStamps(s: State, t: Tid, c: Choice)
    requires Gripped(s) && Homed(s) && t in s.threads && !s.threads[t].Idle? && !Cleaning(s.threads[t])
    ensures Stamps(s, UpdateStep(s, t, c), t, c.now)
  {
    hide Gripped, Homed, Plus, Sum, LiveOrNew, Restamped, Insert, HasLive, Live, Store;
    var p := s.threads[t];
    var s' := UpdateStep(s, t, c);
    if p.UpFind? {
      FindStamps(s, t, c);
    } else if p.UpWrite? {
      if p.e in s.heap { StoreStamps(s, t, p.j, p.e, p.was, c.now); }
    } else if p.UpTouch? {
      HeldIsThere(s, t);
      RewriteRestamps(s, s', p.e, s'.heap[p.e], c.now);
    } else if p.UpCas? || p.UpAdd? || p.UpRelease? {
      EntryStamps(s, t, c);
    }
  }

  lemma EntryStamps(s: State, t: Tid, c: Choice)
    requires t in s.threads && (s.threads[t].UpCas? || s.threads[t].UpAdd? || s.threads[t].UpRelease?)
    ensures Stamps(s, UpdateStep(s, t, c), t, c.now)
  {
    hide Plus, Sum, LiveOrNew, Restamped, Insert, HasLive, Live, Store;
    var p := s.threads[t];
    var s' := UpdateStep(s, t, c);
    if p.e in s.heap && s'.heap != s.heap {
      RewriteRestamps(s, s', p.e, s'.heap[p.e], c.now);
    }
  }

  lemma HeldIsThere(s: State, t: Tid)
    requires Gripped(s) && Homed(s) && t in s.threads && s.threads[t].UpTouch?
    ensures s.threads[t].e in s.heap
  {
    assert s.threads[t].e in Grip(s.threads[t]);
    assert FlagOf(s, s.threads[t].e, SetBy(t));
  }

  lemma StoreStamps(s: State, t: Tid, j: Job, e: Eid, was: real, now: int)
    requires t in s.threads && s.threads[t] == UpWrite(j, e, was) && e in s.heap
    ensures Stamps(s, Store(s, t, j, e, was), t, now)
  {
    hide Plus, Restamped, LiveOrNew;
    var s' := Store(s, t, j, e, was);
    if s'.heap != s.heap {
      RewriteRestamps(s, s', e, s'.heap[e], now);
    }
  }

  lemma FindStamps(s: State, t: Tid, c: Choice)
    requires Gripped(s) && Homed(s) && t in s.threads && s.threads[t].UpFind?
    ensures Stamps(s, UpdateStep(s, t, c), t, c.now)
  {
    hide Gripped, Homed, Live, LiveOrNew, Restamped, Insert;
    var j := s.threads[t].j;
    if HasLive(s, Home(j)) {
    } else if |MapOf(s, j.server)| >= MAX_ENTRIES {
      assert s.servers[j.server := MapOf(s, j.server)] == s.servers by { FullServerIsThere(s, j.server); }
    } else {
      InsertStamps(s, j, c.now);
      SameMaps(s, Insert(s, j, c.now), UpdateStep(s, t, c), c.now);
    }
  }

  lemma FullServerIsThere(s: State, server: string)
    requires |MapOf(s, server)| >= MAX_ENTRIES
    ensures server in s.servers && s.servers[server] == MapOf(s, server)
  {
  }

  lemma InsertStamps(s: State, j: Job, now: int)
    requires Homed(s) && !HasLive(s, Home(j))
    ensures LiveOrNew(s, Insert(s, j, now), now) && Restamped(s, Insert(s, j, now), now)
    ensures Insert(s, j, now).threads == s.threads
  {
    assert s.created !in s.heap;
  }

  lemma CleanStamps(s: State, t: Tid, c: Choice)
    requires t in s.threads && Cleaning(s.threads[t])
    ensures Stamps(s, CleanStep(s, t, c), t, c.now)
  {
    hide Plus, Sum, LiveOrNew, Restamped, Live, Evict, HasLive;
    match s.threads[t]
    case ClLock(_) =>
    case ClServers(_, _) =>
    case ClKeys(_, _, _, _, _) => VisitStamps(s, t, c);
    case ClCheck(_, _, _, _, _, _, _) =>
    case ClDrop(_, _, _, _, _, _, e) => DropStamps(s, t, c);
    case ClDelete(_, _, _, _) => DeleteStamps(s, t, c);
  }

  lemma VisitStamps(s: State, t: Tid, c: Choice)
    requires t in s.threads && s.threads[t].ClKeys?
    ensures Stamps(s, CleanStep(s, t, c), t, c.now)
  {
    hide Restamped, LiveOrNew, Live;
    var s' := CleanStep(s, t, c);
    if s'.heap != s.heap {
      var e := s.servers[s.threads[t].server][c.key];
      RewriteRestamps(s, s', e, s'.heap[e], c.now);
    }
  }

  lemma DropStamps(s: State, t: Tid, c: Choice)
    requires t in s.threads && s.threads[t].ClDrop?
    ensures Stamps(s, CleanStep(s, t, c), t, c.now)
  {
    hide Restamped, LiveOrNew, Live, HasLive;
    var s' := CleanStep(s, t, c);
    if s'.heap != s.heap {
      RewriteRestamps(s, s', s.threads[t].e, s'.heap[s.threads[t].e], c.now);
    }
  }

  lemma DeleteStamps(s: State, t: Tid, c: Choice)
    requires t in s.threads && s.threads[t].ClDelete?
    ensures Stamps(s, CleanStep(s, t, c), t, c.now)
  {
    hide Restamped, LiveOrNew, Live, Evict, HasLive;
    var s' := CleanStep(s, t, c);
    var server := s.threads[t].server;
    if s' != s && s'.threads[t].ClDelete? {
      EvictStamps(s, server, c.key, c.now);
      SameMaps(s, Evict(s, server, c.key), s', c.now);
    }
  }

  lemma EvictStamps(s: State, server: string, key: string, now: int)
    requires HasLive(s, (server, key)) && s.servers[server][key] in s.heap
    ensures var s' := Evict(s, server, key); LiveOrNew(s, s', now) && s'.heap == s.heap && s'.threads == s.threads
  {
    hide Plus;
  }

  lemma BeginStamps(s: State, t: Tid, c: Choice)
    requires t in s.threads && s.threads[t].Idle?
    ensures Stamps(s, Begin(s, t, c), t, c.now)
  {
  }

  lemma NextStamps(s: State, t: Tid, c: Choice)
    requires Gripped(s) && Homed(s) && t in s.threads
    ensures Stamps(s, Next(s, t, c), t, c.now)
  {
    hide Gripped, Homed, Begin, UpdateStep, CleanStep, Stamps;
    if s.threads[t].Idle? { BeginStamps(s, t, c); }
    else if Cleaning(s.threads[t]) { CleanStamps(s, t, c); }
    else { UpdateStamps(s, t, c); }
  }

  /** The update that begins with this turn holds the live entry and has still to stamp it. */
  lemma BeginsStamping(s: State, turn: Turn, e: Eid)
    requires Begins(s, turn) && Gripped(Next(s, turn.0, turn.1)) && Aimed(Next(s, turn.0, turn.1))
    requires Live(Next(s, turn.0, turn.1), Subject(s, turn), e)
    ensures Stamping(Next(s, turn.0, turn.1), e)
  {
    hide UpdateStep, CleanStep;
    var t := turn.0;
    var s' := Next(s, t, turn.1);
    OnlyCasBegins(s, turn);
    var p := s'.threads[t];
    assert Aim(s', t, p);
    assert p.e in Grip(p);
    assert p.e == e;
  }

  lemma OnlyCasBegins(s: State, turn: Turn)
    requires Begins(s, turn)
    ensures Next(s, turn.0, turn.1).threads[turn.0].UpUnlock?
  {
    hide Plus, Sum;
    match s.threads[turn.0]
    case Idle =>
    case UpLock(_) =>
    case UpFind(_) =>
    case UpCas(_, _) =>
    case UpAbort =>
    case ClLock(_) =>
    case ClServers(_, _) =>
    case ClKeys(_, _, _, _, _) =>
    case ClDelete(_, _, _, _) =>
  }

  /** An entry whose holder has still to stamp it, after a step of t. */
  lemma StampingStays(s: State, s': State, t: Tid, now: int, e: Eid)
    requires Gripped(s) && Gripped(s') && Stamps(s, s', t, now) && Stamping(s, e)
    ensures Stamping(s', e) || (e in s'.heap && s'.heap[e].lastSeen == now)
  {
    var u := s.heap[e].modifying.t;
    assert FlagOf(s, e, SetBy(u));
    assert e in Grip(s.threads[u]);
    if !(u == t && s.threads[t].UpTouch?) {
      assert e in Grip(s'.threads[u]);
      assert FlagOf(s', e, SetBy(u));
    }
  }

  lemma StampedStays(s: State, turn: Turn, at: Place, e: Eid, updated: map<Place, int>, now: int)
    requires Gripped(s) && Gripped(Next(s, turn.0, turn.1)) && Aimed(Next(s, turn.0, turn.1)) && turn.0 in s.threads
    requires Stamps(s, Next(s, turn.0, turn.1), turn.0, turn.1.now) && now <= turn.1.now
    requires forall place | place in updated :: updated[place] <= now
    requires Live(Next(s, turn.0, turn.1), at, e) && (Live(s, at, e) ==> Stamped(s, at, e, updated, now))
    ensures Stamped(Next(s, turn.0, turn.1), at, e, AfterTurn(s, turn, updated), turn.1.now)
  {
    hide Gripped, Aimed, Next;
    var s' := Next(s, turn.0, turn.1);
    var after := AfterTurn(s, turn, updated);
    if s'.servers == s.servers {
      assert Live(s, at, e);
    }
    if at in after && s'.heap[e].lastSeen != turn.1.now {
      assert Live(s, at, e);
      if Begins(s, turn) && Subject(s, turn) == at {
        BeginsStamping(s, turn, e);
      } else if Stamping(s, e) {
        StampingStays(s, s', turn.0, turn.1.now, e);
      }
    }
  }

  lemma NextTimely(s: State, turn: Turn, updated: map<Place, int>, now: int)
    requires Inv(s) && Timely(s, updated, now) && now <= turn.1.now
    ensures Timely(Next(s, turn.0, turn.1), AfterTurn(s, turn, updated), turn.1.now)
  {
    hide Inv, Gripped, Aimed, Homed, Next, Stamped;
    var s' := Next(s, turn.0, turn.1);
    var after := AfterTurn(s, turn, updated);
    if turn.0 in s.threads {
      NextKeeps(s, turn.0, turn.1);
      Parts(s);
      Parts(s');
      NextStamps(s, turn.0, turn.1);
      forall at, e | Live(s', at, e) ensures Stamped(s', at, e, after, turn.1.now) {
        StampedStays(s, turn, at, e, updated, now);
      }
    } else {
      assert s' == s by { NobodyThere(s, turn); }
      forall at, e | Live(s, at, e) ensures Stamped(s, at, e, updated, turn.1.now) {
        Later(s, at, e, updated, now, turn.1.now);
      }
    }
  }

  lemma Parts(s: State)
    requires Inv(s)
    ensures Gripped(s) && Aimed(s) && Homed(s)
  {
  }

  lemma NobodyThere(s: State, turn: Turn)
    requires turn.0 !in s.threads
    ensures Next(s, turn.0, turn.1) == s
  {
  }

  lemma Later(s: State, at: Place, e: Eid, updated: map<Place, int>, now: int, later: int)
    requires Stamped(s, at, e, updated, now) && now <= later
    ensures Stamped(s, at, e, updated, later)
  {
  }

  lemma {:induction false} RunTimely(s: State, schedule: seq<Turn>, updated: map<Place, int>, now: int)
    requires Inv(s) && Timely(s, updated, now) && ClockFrom(schedule, now)
    ensures Inv(Run(s, schedule)) && Timely(Run(s, schedule), Updated(s, schedule, updated), Latest(schedule, now))
    decreases |schedule|
  {
    hide Inv, Next, Timely, AfterTurn;
    if schedule != [] {
      var turn := schedule[0];
      NextKeeps(s, turn.0, turn.1);
      NextTimely(s, turn, updated, now);
      RunTimely(Next(s, turn.0, turn.1), schedule[1..], AfterTurn(s, turn, updated), turn.1.now);
    }
  }

  lemma StartsTimely(s: State, now: int)
    requires Initial(s)
    ensures Timely(s, map[], now)
  {
  }

  // ---------------------------------------------------------------- the promises

  /** In every run whose clock never goes back, a live entry's lastSeen lies between the moment
      the latest update of its (server, key) began and the present, unless that update is still
      about to stamp it. */
  lemma LastSeenCoversTheLatestUpdate(s: State, schedule: seq<Turn>, now: int, at: Place, e: Eid)
    requires Initial(s) && ClockFrom(schedule, now)
    requires Live(Run(s, schedule), at, e)
    ensures var r, updated := Run(s, schedule), Updated(s, schedule, map[]);
            && e in r.heap && r.heap[e].lastSeen <= Latest(schedule, now)
            && (at in updated ==> Stamping(r, e) || r.heap[e].lastSeen >= updated[at])
  {
    hide Inv, Run, Updated;
    InitialHolds(s);
    StartsTimely(s, now);
    RunTimely(s, schedule, map[], now);
    assert Stamped(Run(s, schedule), at, e, Updated(s, schedule, map[]), Latest(schedule, now));
  }

  /** What the cleanup deletes has not been updated for the retention period: the latest update of
      that (server, key) began more than twenty minutes ago, whatever updates ran meanwhile. */
  lemma EvictsOnlyAfterRetention(s: State, schedule: seq<Turn>, now: int, t: Tid, key: string)
    requires Initial(s) && ClockFrom(schedule, now)
    requires var r := Run(s, schedule); t in r.threads && r.threads[t].ClDelete? && key in r.threads[t].del
    ensures var at := (Run(s, schedule).threads[t].server, key); var updated := Updated(s, schedule, map[]);
            at in updated ==> updated[at] < Latest(schedule, now) - RETENTION
  {
    hide Inv, Run, Updated;
    InitialHolds(s);
    StartsTimely(s, now);
    RunTimely(s, schedule, map[], now);
    var r := Run(s, schedule);
    var p := r.threads[t];
    Facts(r, t);
    assert Doomed(r, p.server, key, Clear, p.cutoff);
    var e := r.servers[p.server][key];
    assert Live(r, (p.server, key), e);
    assert Stamped(r, (p.server, key), e, Updated(s, schedule, map[]), Latest(schedule, now));
    assert Cutoff(p) == p.cutoff;
  }

  // ---------------------------------------------------------------- a pass without interference

  /** No update holds an entry. */
  ghost predicate Quiet(s: State) {
    forall u | u in s.threads && !Cleaning(s.threads[u]) :: Grip(s.threads[u]) == {}
  }

  /** Goroutine t is cleaning one server's map, nobody else holds an entry, and every key it has
      visited is marked for deletion or not yet old. */
  ghost predicate Pass(s: State, t: Tid, cutoff: int, server: string) {
    && t in s.threads && Quiet(s)
    && match s.threads[t]
       case ClKeys(cut, _, srv, keys, del) => cut == cutoff && srv == server && Swept(s, server, cutoff, keys + del)
       case ClCheck(cut, _, srv, keys, del, key, _) => cut == cutoff && srv == server && Swept(s, server, cutoff, keys + del + {key})
       case ClDrop(cut, _, srv, keys, del, _, _) => cut == cutoff && srv == server && Swept(s, server, cutoff, keys + del)
       case ClDelete(cut, _, srv, del) => cut == cutoff && srv == server && Swept(s, server, cutoff, del)
       case _ => false
  }

  /** Outside the given keys no entry of the server is older than the cutoff. */
  ghost predicate Swept(s: State, server: string, cutoff: int, except: set<string>) {
    forall key | HasLive(s, (server, key)) && key !in except ::
      s.servers[server][key] in s.heap && s.heap[s.servers[server][key]].lastSeen >= cutoff
  }

  /** A pass begins with nothing visited. */
  lemma PassStarts(s: State, t: Tid, c: Choice)
    requires Quiet(s) && t in s.threads && s.threads[t].ClServers? && c.server in s.threads[t].todo
    ensures Pass(Next(s, t, c), t, s.threads[t].cutoff, c.server)
  {
    var s' := Next(s, t, c);
    assert s'.servers == s.servers && s'.heap == s.heap;
  }

  /** The pass goroutine's own step. */
  lemma OwnStep(s: State, t: Tid, c: Choice, cutoff: int, server: string)
    requires Inv(s) && Pass(s, t, cutoff, server)
    ensures var s' := CleanStep(s, t, c);
            Pass(s', t, cutoff, server) || Over(s', t, cutoff, server)
  {
    hide Inv, CleanStep, Swept;
    Facts(s, t);
    QuietMoves(s, t, c);
    match s.threads[t]
    case ClKeys(_, _, _, keys, del) =>
      NotTooMany(s, t);
      if c.key in keys { VisitedIsClear(s, t, c.key); }
      VisitSweeps(s, t, c, cutoff, server);
    case ClCheck(_, _, _, keys, del, key, e) => CheckSweeps(s, t, c, cutoff, server);
    case ClDrop(_, _, _, _, _, _, _) => DropSweeps(s, t, c, cutoff, server);
    case ClDelete(_, _, _, _) => DeleteSweeps(s, t, c, cutoff, server);
  }

  lemma QuietMoves(s: State, t: Tid, c: Choice)
    requires Quiet(s) && t in s.threads && Cleaning(s.threads[t])
    ensures Quiet(CleanStep(s, t, c))
  {
    hide Sum, Plus;
    CleanStamps(s, t, c);
    assert Cleaning(CleanStep(s, t, c).threads[t]) || CleanStep(s, t, c).threads[t].Idle?;
  }

  /** A live entry that nobody holds. */
  predicate Claimable(s: State, server: string, key: string) {
    HasLive(s, (server, key)) && s.servers[server][key] in s.heap && s.heap[s.servers[server][key]].modifying.Clear?
  }

  lemma VisitSweeps(s: State, t: Tid, c: Choice, cutoff: int, server: string)
    requires Pass(s, t, cutoff, server) && s.threads[t].ClKeys? && Quiet(CleanStep(s, t, c))
    requires |s.threads[t].del| <= MAX_ENTRIES && (c.key in s.threads[t].keys ==> Claimable(s, server, c.key))
    ensures Pass(CleanStep(s, t, c), t, cutoff, server)
  {
    hide Quiet, Swept, HasLive, CleanStep;
    if s.threads[t].keys == {} {
      LastVisitSweeps(s, t, c, cutoff, server);
    } else if c.key in s.threads[t].keys {
      KeyVisitSweeps(s, t, c, cutoff, server);
    } else {
      VisitNone(s, t, c);
    }
  }

  lemma LastVisitSweeps(s: State, t: Tid, c: Choice, cutoff: int, server: string)
    requires Pass(s, t, cutoff, server) && s.threads[t].ClKeys? && Quiet(CleanStep(s, t, c))
    requires s.threads[t].keys == {} && |s.threads[t].del| <= MAX_ENTRIES
    ensures Pass(CleanStep(s, t, c), t, cutoff, server)
  {
    hide Quiet, Swept, HasLive, CleanStep;
    var p := s.threads[t];
    VisitNone(s, t, c);
    assert p.keys + p.del == p.del;
    SweptFrame(s, CleanStep(s, t, c), server, cutoff, p.del);
  }

  lemma KeyVisitSweeps(s: State, t: Tid, c: Choice, cutoff: int, server: string)
    requires Pass(s, t, cutoff, server) && s.threads[t].ClKeys? && Quiet(CleanStep(s, t, c))
    requires c.key in s.threads[t].keys && |s.threads[t].del| <= MAX_ENTRIES
    requires Claimable(s, server, c.key)
    ensures Pass(CleanStep(s, t, c), t, cutoff, server)
  {
    hide Quiet, Swept, HasLive, CleanStep;
    var p := s.threads[t];
    VisitOne(s, t, c);
    assert p.keys - {c.key} + p.del + {c.key} == p.keys + p.del;
    SweptFrame(s, CleanStep(s, t, c), server, cutoff, p.keys + p.del);
  }

  lemma VisitNone(s: State, t: Tid, c: Choice)
    requires t in s.threads && s.threads[t].ClKeys? && |s.threads[t].del| <= MAX_ENTRIES
    ensures var p := s.threads[t];
            p.keys == {} ==> CleanStep(s, t, c) == Goto(s, t, ClDelete(p.cutoff, p.todo, p.server, p.del))
    ensures s.threads[t].keys != {} && c.key !in s.threads[t].keys ==> CleanStep(s, t, c) == s
  {
  }

  lemma VisitOne(s: State, t: Tid, c: Choice)
    requires t in s.threads && s.threads[t].ClKeys? && c.key in s.threads[t].keys && |s.threads[t].del| <= MAX_ENTRIES
    requires var p := s.threads[t];
             HasLive(s, (p.server, c.key)) && s.servers[p.server][c.key] in s.heap && s.heap[s.servers[p.server][c.key]].modifying.Clear?
    ensures var p := s.threads[t]; var e := s.servers[p.server][c.key]; var s' := CleanStep(s, t, c);
            && s'.servers == s.servers && s'.heap == s.heap[e := s.heap[e].(modifying := SetBy(t))]
            && s'.threads == s.threads[t := ClCheck(p.cutoff, p.todo, p.server, p.keys - {c.key}, p.del, c.key, e)]
  {
  }

  lemma SweptFrame(s: State, s': State, server: string, cutoff: int, except: set<string>)
    requires Swept(s, server, cutoff, except) && s'.servers == s.servers
    requires forall e | e in s.heap :: e in s'.heap && s'.heap[e].lastSeen == s.heap[e].lastSeen
    ensures Swept(s', server, cutoff, except)
  {
  }

  lemma VisitedIsClear(s: State, t: Tid, key: string)
    requires Inv(s) && Quiet(s) && t in s.threads && s.threads[t].ClKeys? && key in s.threads[t].keys
    ensures Claimable(s, s.threads[t].server, key)
  {
    hide Inv, Quiet;
    Facts(s, t);
    var server := s.threads[t].server;
    assert Live(s, (server, key), s.servers[server][key]);
    QuietIsClear(s, t, s.servers[server][key]);
  }

  /** In the middle of a pass no entry of the map is flagged. */
  lemma QuietIsClear(s: State, t: Tid, e: Eid)
    requires Inv(s) && Quiet(s) && t in s.threads && s.threads[t].ClKeys? && e in s.heap
    ensures s.heap[e].modifying.Clear?
  {
    hide Inv;
    if s.heap[e].modifying.SetBy? {
      var u := HolderOf(s, e);
      Facts(s, u);
      Facts(s, t);
    }
  }

  lemma HolderOf(s: State, e: Eid) returns (u: Tid)
    requires Inv(s) && e in s.heap && s.heap[e].modifying.SetBy?
    ensures u in s.threads && FlagOf(s, e, SetBy(u))
  {
    u := s.heap[e].modifying.t;
  }

  /** The early exit is never taken. */
  lemma NotTooMany(s: State, t: Tid)
    requires Inv(s) && t in s.threads && s.threads[t].ClKeys?
    ensures |s.threads[t].del| <= MAX_ENTRIES
  {
    var p := s.threads[t];
    Facts(s, t);
    forall k | k in p.del ensures k in MapOf(s, p.server).Keys {
      assert Doomed(s, p.server, k, Clear, p.cutoff);
    }
    SubsetCard(p.del, MapOf(s, p.server).Keys);
  }

  lemma CheckSweeps(s: State, t: Tid, c: Choice, cutoff: int, server: string)
    requires Pass(s, t, cutoff, server) && Aim(s, t, s.threads[t]) && s.threads[t].ClCheck? && Quiet(CleanStep(s, t, c))
    ensures Pass(CleanStep(s, t, c), t, cutoff, server)
  {
    var p := s.threads[t];
    assert p.keys + (p.del + {p.key}) == p.keys + p.del + {p.key};
  }

  lemma DropSweeps(s: State, t: Tid, c: Choice, cutoff: int, server: string)
    requires Pass(s, t, cutoff, server) && Aim(s, t, s.threads[t]) && s.threads[t].ClDrop? && Quiet(CleanStep(s, t, c))
    ensures Pass(CleanStep(s, t, c), t, cutoff, server)
  {
  }

  lemma DeleteSweeps(s: State, t: Tid, c: Choice, cutoff: int, server: string)
    requires Pass(s, t, cutoff, server) && Aim(s, t, s.threads[t]) && s.threads[t].ClDelete? && Quiet(CleanStep(s, t, c))
    ensures var s' := CleanStep(s, t, c);
            Pass(s', t, cutoff, server) || Over(s', t, cutoff, server)
  {
    hide Plus, Sum, Quiet;
  }

  /** Nobody else can get hold of an entry while the cleanup holds the mutex. */
  lemma OthersWait(s: State, t: Tid, u: Tid, c: Choice, cutoff: int, server: string)
    requires Inv(s) && Pass(s, t, cutoff, server) && u in s.threads && u != t
    ensures Pass(Next(s, u, c), t, cutoff, server)
  {
    hide Inv, Pass;
    InPass(s, t, cutoff, server);
    Facts(s, t);
    Facts(s, u);
    OutsideStays(s, u, c);
    PassFrame(s, Next(s, u, c), t, u, cutoff, server);
  }

  lemma InPass(s: State, t: Tid, cutoff: int, server: string)
    requires Pass(s, t, cutoff, server)
    ensures t in s.threads && Cleaning(s.threads[t]) && InMutex(s.threads[t]) && Quiet(s)
  {
  }

  /** A step outside the mutex with nothing in hand changes no map and no entry. */
  lemma OutsideStays(s: State, u: Tid, c: Choice)
    requires u in s.threads && !InMutex(s.threads[u]) && !s.mutex.Free? && (Cleaning(s.threads[u]) || Grip(s.threads[u]) == {})
    ensures var s' := Next(s, u, c);
            && s'.servers == s.servers && s'.heap == s.heap && Moved(s, s', u)
            && (Cleaning(s'.threads[u]) || Grip(s'.threads[u]) == {})
  {
    hide Plus, Sum;
  }

  lemma PassFrame(s: State, s': State, t: Tid, u: Tid, cutoff: int, server: string)
    requires Pass(s, t, cutoff, server) && u != t && Moved(s, s', u)
    requires s'.servers == s.servers && s'.heap == s.heap && (Cleaning(s'.threads[u]) || Grip(s'.threads[u]) == {})
    ensures Pass(s', t, cutoff, server)
  {
    assert s'.threads[t] == s.threads[t];
  }

  /** The pass is over and no entry older than the cutoff is left. */
  ghost predicate Over(s: State, t: Tid, cutoff: int, server: string) {
    t in s.threads && s.threads[t].ClServers? && Swept(s, server, cutoff, {})
  }

  /** One step of anybody during a pass. */
  lemma PassStep(s: State, turn: Turn, t: Tid, cutoff: int, server: string)
    requires Inv(s) && Pass(s, t, cutoff, server)
    ensures var s' := Next(s, turn.0, turn.1); Pass(s', t, cutoff, server) || Over(s', t, cutoff, server)
  {
    hide Inv, Next, Pass, Swept;
    InPass(s, t, cutoff, server);
    if turn.0 !in s.threads {
      NobodyThere(s, turn);
    } else if turn.0 != t {
      OthersWait(s, t, turn.0, turn.1, cutoff, server);
    } else {
      CleanersStep(s, t, turn.1);
      OwnStep(s, t, turn.1, cutoff, server);
    }
  }

  /** A cleanup pass over a server's map that no update is holding an entry of ends with no entry
      older than the cutoff left, whatever order the keys are visited in and whoever waits: after
      any schedule the pass is still under way, or ended that way at some point of it. */
  lemma {:induction false} QuietPassLeavesNothingOld(s: State, schedule: seq<Turn>, t: Tid, cutoff: int, server: string)
    requires Inv(s) && Pass(s, t, cutoff, server)
    ensures Pass(Run(s, schedule), t, cutoff, server) ||
            exists i: nat :: i <= |schedule| && Over(Run(s, schedule[..i]), t, cutoff, server)
    decreases |schedule|
  {
    hide Inv, Next, Pass, Over;
    if schedule != [] {
      var turn, rest := schedule[0], schedule[1..];
      var s' := Next(s, turn.0, turn.1);
      NextKeeps(s, turn.0, turn.1);
      PassStep(s, turn, t, cutoff, server);
      if Pass(s', t, cutoff, server) {
        QuietPassLeavesNothingOld(s', rest, t, cutoff, server);
        if i: nat :| i <= |rest| && Over(Run(s', rest[..i]), t, cutoff, server) {
          assert schedule[..i + 1][1..] == rest[..i];
          assert Run(s, schedule[..i + 1]) == Run(s', rest[..i]);
        }
      } else {
        assert schedule[..1][1..] == [];
        assert Run(s, schedule[..1]) == s';
      }
    }
  }

  lemma CleanersStep(s: State, t: Tid, c: Choice)
    requires t in s.threads && Cleaning(s.threads[t])
    ensures Next(s, t, c) == CleanStep(s, t, c)
  {
    hide CleanStep;
  }
}
