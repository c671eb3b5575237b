/** What every step of every update and cleanup keeps. */
module CounterInvariant {
  import opened Counters

  // ---------------------------------------------------------------- the invariant

  /** The mutex is held by exactly the goroutine inside it. */
  ghost predicate Mutexed(s: State) {
    && (forall t | t in s.threads :: InMutex(s.threads[t]) <==> s.mutex == HeldBy(t))
    && (s.mutex.HeldBy? ==> s.mutex.t in s.threads)
  }

  ghost predicate FlagOf(s: State, e: Eid, f: Flag) { e in s.heap && s.heap[e].modifying == f }

  /** An entry's flag is held by exactly the goroutine that set it. */
  ghost predicate Gripped(s: State) {
    && (forall t, e | t in s.threads :: e in Grip(s.threads[t]) <==> FlagOf(s, e, SetBy(t)))
    && (forall e | e in s.heap && s.heap[e].modifying.SetBy? :: s.heap[e].modifying.t in s.threads)
  }

  /** The live maps point to entries created for that place, and are bounded. */
  ghost predicate Homed(s: State) {
    && (forall at, e | Live(s, at, e) :: e in s.heap && s.heap[e].home == at)
    && (forall e | e in s.heap :: e < s.created)
    && (forall server | server in s.servers :: |s.servers[server]| <= MAX_ENTRIES)
  }

  /** A key collected for deletion is still in the map, its entry was last seen before the
      cutoff, and nobody holds it, except that the cleanup itself may not have let go of the
      last one yet. */
  ghost predicate Doomed(s: State, server: string, key: string, mine: Flag, cutoff: int) {
    && HasLive(s, (server, key))
    && (FlagOf(s, s.servers[server][key], Clear) || FlagOf(s, s.servers[server][key], mine))
    && s.heap[s.servers[server][key]].lastSeen < cutoff
  }

  /** What a goroutine knows at its program point. */
  ghost predicate Aim(s: State, t: Tid, p: Pc) {
    match p
    case UpLock(j) => j.value >= 0.0
    case UpFind(j) => j.value >= 0.0
    case UpCas(j, e) => j.value >= 0.0 && Live(s, Home(j), e)
    case UpUnlock(j, e) => j.value >= 0.0 && Live(s, Home(j), e)
    case UpTouch(j, e) => j.value >= 0.0 && Live(s, Home(j), e)
    case UpRead(j, e) => j.value >= 0.0 && Live(s, Home(j), e)
    case UpWrite(j, e, was) => j.value >= 0.0 && Live(s, Home(j), e) && e in s.heap && s.heap[e].value == was
    case UpAdd(j, e, delta) => Live(s, Home(j), e) && e in s.heap && s.heap[e].owed == delta
    case UpRelease(j, e) => Live(s, Home(j), e)
    case ClKeys(cut, _, server, keys, del) =>
      keys <= MapOf(s, server).Keys && keys !! del && forall k | k in del :: Doomed(s, server, k, Clear, cut)
    case ClCheck(cut, _, server, keys, del, key, e) =>
      keys <= MapOf(s, server).Keys && keys !! del && key !in keys + del && Live(s, (server, key), e) &&
      forall k | k in del :: Doomed(s, server, k, Clear, cut)
    case ClDrop(cut, _, server, keys, del, key, e) =>
      keys <= MapOf(s, server).Keys && keys !! del && key !in keys && Live(s, (server, key), e) &&
      forall k | k in del :: Doomed(s, server, k, SetBy(t), cut)
    case ClDelete(cut, _, server, del) => forall k | k in del :: Doomed(s, server, k, Clear, cut)
    case _ => true
  }

  ghost predicate Aimed(s: State) { forall t | t in s.threads :: Aim(s, t, s.threads[t]) }

  ghost predicate Exporting(p: Pc, e: Eid) { p.UpAdd? && p.e == e }

  /** Something is owed only while an update is between storing and exporting. */
  ghost predicate Owing(s: State) {
    forall e | e in s.heap ::
      && s.heap[e].value >= 0.0 && s.heap[e].owed >= 0.0
      && (s.heap[e].owed > 0.0 ==> exists t | t in s.threads :: Exporting(s.threads[t], e))
  }

  function Stored(s: State, at: (string, string)): real {
    if HasLive(s, at) && s.servers[at.0][at.1] in s.heap then s.heap[s.servers[at.0][at.1]].value else 0.0
  }

  function Owed(s: State, at: (string, string)): real {
    if HasLive(s, at) && s.servers[at.0][at.1] in s.heap then s.heap[s.servers[at.0][at.1]].owed else 0.0
  }

  ghost predicate Even(s: State, at: (string, string)) {
    Sum(s.exported, at) + Owed(s, at) == Stored(s, at) + Sum(s.dropped, at)
  }

  /** What was exported, plus what is owed, is what is stored plus what was dropped. */
  ghost predicate Balanced(s: State) { forall at: (string, string) :: Even(s, at) }

  ghost predicate Inv(s: State) {
    Mutexed(s) && Gripped(s) && Homed(s) && Aimed(s) && Owing(s) && Balanced(s)
  }

  // ---------------------------------------------------------------- frames

  /** Goroutine t moved; entries held by others are untouched and stay live; without the
      mutex t changes no map and sets no flag. */
  ghost predicate Frame(s: State, s': State, t: Tid) {
    && t in s.threads && t in s'.threads && s'.threads == s.threads[t := s'.threads[t]]
    && (forall e | e in s.heap :: e in s'.heap)
    && (forall e, u | u != t :: FlagOf(s', e, SetBy(u)) <==> FlagOf(s, e, SetBy(u)))
    && (forall e, u | u != t && FlagOf(s, e, SetBy(u)) :: s'.heap[e] == s.heap[e])
    && (forall at, e, u | u != t && FlagOf(s, e, SetBy(u)) && Live(s, at, e) :: Live(s', at, e))
    && (s.mutex != HeldBy(t) ==> s'.servers == s.servers && forall e | FlagOf(s, e, Clear) :: s'.heap[e] == s.heap[e])
  }

  lemma AimFrame(s: State, s': State, t: Tid, u: Tid)
    requires Mutexed(s) && Gripped(s) && Frame(s, s', t)
    requires u in s.threads && u != t && Aim(s, u, s.threads[u])
    ensures Aim(s', u, s.threads[u])
  {
    var p := s.threads[u];
    forall e | e in Grip(p)
      ensures FlagOf(s, e, SetBy(u)) && s'.heap[e] == s.heap[e]
      ensures forall at | Live(s, at, e) :: Live(s', at, e)
    {
    }
    assert !InMutex(p) && Grip(p) != {} ==> p.e in Grip(p);
    if InMutex(p) {
      assert s.mutex == HeldBy(u);
      assert s'.servers == s.servers;
      forall k, server, f, cut | Doomed(s, server, k, f, cut) && (f == Clear || f == SetBy(u)) ensures Doomed(s', server, k, f, cut) {
      }
    }
  }

  lemma AimedStep(s: State, s': State, t: Tid)
    requires Mutexed(s) && Gripped(s) && Aimed(s) && Frame(s, s', t)
    requires Aim(s', t, s'.threads[t])
    ensures Aimed(s')
  {
    forall u | u in s'.threads && u != t ensures Aim(s', u, s'.threads[u]) {
      AimFrame(s, s', t, u);
    }
  }

  lemma GrippedStep(s: State, s': State, t: Tid)
    requires Gripped(s) && Frame(s, s', t)
    requires forall e :: e in Grip(s'.threads[t]) <==> FlagOf(s', e, SetBy(t))
    ensures Gripped(s')
  {
    forall e | e in s'.heap && s'.heap[e].modifying.SetBy? ensures s'.heap[e].modifying.t in s'.threads {
      assert FlagOf(s', e, SetBy(s'.heap[e].modifying.t));
    }
  }

  /** Goroutine t keeps the mutex as it is, takes it when free, or gives it back. */
  predicate Handover(t: Tid, m: Mutex, p: Pc, m': Mutex, p': Pc) {
    || (m' == m && InMutex(p') == InMutex(p))
    || (m.Free? && m' == HeldBy(t) && InMutex(p'))
    || (InMutex(p) && m'.Free? && !InMutex(p'))
  }

  lemma MutexedStep(s: State, s': State, t: Tid)
    requires Mutexed(s) && t in s.threads && t in s'.threads && s'.threads == s.threads[t := s'.threads[t]]
    requires Handover(t, s.mutex, s.threads[t], s'.mutex, s'.threads[t])
    ensures Mutexed(s')
  {
  }

  // ---------------------------------------------------------------- steps that only move the goroutine

  lemma MoveOwing(s: State, s': State, t: Tid)
    requires Owing(s) && t in s.threads && s'.heap == s.heap && t in s'.threads && s'.threads == s.threads[t := s'.threads[t]]
    requires !s.threads[t].UpAdd?
    ensures Owing(s')
  {
    forall e | e in s'.heap && s'.heap[e].owed > 0.0 ensures exists u | u in s'.threads :: Exporting(s'.threads[u], e) {
      var u :| u in s.threads && Exporting(s.threads[u], e);
      assert u in s'.threads && Exporting(s'.threads[u], e);
    }
  }

  lemma SameBooks(s: State, s': State)
    requires Balanced(s) && s'.heap == s.heap && s'.servers == s.servers && s'.exported == s.exported && s'.dropped == s.dropped
    ensures Balanced(s')
  {
    forall at: (string, string) ensures Even(s', at) {
      assert Even(s, at);
    }
  }

  lemma MoveFrame(s: State, s': State, t: Tid)
    requires t in s.threads && t in s'.threads && s'.threads == s.threads[t := s'.threads[t]]
    requires s'.heap == s.heap && s'.servers == s.servers
    ensures Frame(s, s', t)
  {
  }

  /** The goroutine goes on, perhaps taking or releasing the mutex. */
  lemma MoveKeeps(s: State, t: Tid, p: Pc, m: Mutex)
    requires Inv(s) && t in s.threads
    requires Handover(t, s.mutex, s.threads[t], m, p)
    requires Grip(p) == Grip(s.threads[t]) && !s.threads[t].UpAdd?
    requires Aim(s, t, p)
    ensures Inv(Goto(s, t, p).(mutex := m))
  {
    hide Mutexed, Gripped, Homed, Aimed, Owing, Balanced, Frame, Aim;
    var s' := Goto(s, t, p).(mutex := m);
    MoveFrame(s, s', t);
    MutexedStep(s, s', t);
    GripSame(s, s', t);
    MoveHomed(s, s');
    MoveAim(s, s', t, p);
    AimedStep(s, s', t);
    MoveOwing(s, s', t);
    SameBooks(s, s');
  }

  lemma GripSame(s: State, s': State, t: Tid)
    requires Gripped(s) && Frame(s, s', t) && s'.heap == s.heap && Grip(s'.threads[t]) == Grip(s.threads[t])
    ensures Gripped(s')
  {
    forall e ensures e in Grip(s'.threads[t]) <==> FlagOf(s', e, SetBy(t)) {
      assert e in Grip(s.threads[t]) <==> FlagOf(s, e, SetBy(t));
    }
    GrippedStep(s, s', t);
  }

  lemma MoveHomed(s: State, s': State)
    requires Homed(s) && s'.heap == s.heap && s'.servers == s.servers && s'.created == s.created
    ensures Homed(s')
  {
    forall at, e | Live(s', at, e) ensures e in s'.heap && s'.heap[e].home == at {
      assert Live(s, at, e);
    }
  }

  lemma MoveAim(s: State, s': State, t: Tid, p: Pc)
    requires Aim(s, t, p) && s'.heap == s.heap && s'.servers == s.servers
    ensures Aim(s', t, p)
  {
  }

  // ---------------------------------------------------------------- steps that change one entry

  /** Entry e becomes x: same home, and its flag stays t's business. */
  ghost predicate Rewrites(s: State, s': State, t: Tid, e: Eid, x: Entry) {
    && t in s.threads && t in s'.threads && s'.threads == s.threads[t := s'.threads[t]]
    && e in s.heap && s'.heap == s.heap[e := x] && s'.servers == s.servers && s'.created == s.created
    && s'.mutex == s.mutex && x.home == s.heap[e].home
  }

  lemma RewriteFrame(s: State, s': State, t: Tid, e: Eid, x: Entry)
    requires Mutexed(s) && Rewrites(s, s', t, e, x)
    requires FlagOf(s, e, SetBy(t)) || (FlagOf(s, e, Clear) && InMutex(s.threads[t]))
    requires x.modifying == Clear || x.modifying == SetBy(t)
    ensures Frame(s, s', t)
  {
  }

  lemma RewriteGripped(s: State, s': State, t: Tid, e: Eid, x: Entry)
    requires Gripped(s) && Rewrites(s, s', t, e, x) && Frame(s, s', t)
    requires Grip(s'.threads[t]) == (if x.modifying == SetBy(t) then Grip(s.threads[t]) + {e} else Grip(s.threads[t]) - {e})
    requires x.modifying == Clear || x.modifying == SetBy(t)
    ensures Gripped(s')
  {
    forall d ensures d in Grip(s'.threads[t]) <==> FlagOf(s', d, SetBy(t)) {
      assert d in Grip(s.threads[t]) <==> FlagOf(s, d, SetBy(t));
    }
    GrippedStep(s, s', t);
  }

  lemma RewriteHomed(s: State, s': State, t: Tid, e: Eid, x: Entry)
    requires Homed(s) && Rewrites(s, s', t, e, x)
    ensures Homed(s')
  {
    forall at, d | Live(s', at, d) ensures d in s'.heap && s'.heap[d].home == at {
      assert Live(s, at, d);
    }
  }

  /** Only the pending export of entry e may change hands. */
  lemma RewriteOwing(s: State, s': State, t: Tid, e: Eid, x: Entry)
    requires Owing(s) && Rewrites(s, s', t, e, x)
    requires s.threads[t].UpAdd? ==> s.threads[t].e == e
    requires x.value >= 0.0 && x.owed >= 0.0
    requires x.owed > 0.0 ==> Exporting(s'.threads[t], e) || (!s.threads[t].UpAdd? && x.owed == s.heap[e].owed)
    ensures Owing(s')
  {
    forall d | d in s'.heap && s'.heap[d].owed > 0.0 ensures exists u | u in s'.threads :: Exporting(s'.threads[u], d) {
      if d == e && Exporting(s'.threads[t], e) {
      } else {
        var u :| u in s.threads && Exporting(s.threads[u], d);
        assert u in s'.threads && Exporting(s'.threads[u], d);
      }
    }
  }

  /** The books of every place but the entry's home stay as they were. */
  lemma RewriteBooks(s: State, s': State, t: Tid, e: Eid, x: Entry, at: (string, string))
    requires Homed(s) && Balanced(s) && Rewrites(s, s', t, e, x) && Live(s, at, e)
    requires forall place: (string, string) | place != at ::
               Sum(s'.exported, place) == Sum(s.exported, place) && Sum(s'.dropped, place) == Sum(s.dropped, place)
    requires (Sum(s'.exported, at) - Sum(s.exported, at)) + (x.owed - s.heap[e].owed) ==
             (x.value - s.heap[e].value) + (Sum(s'.dropped, at) - Sum(s.dropped, at))
    ensures Balanced(s')
  {
    forall place: (string, string) ensures Even(s', place) {
      assert Even(s, place);
      if place != at && HasLive(s, place) {
        var d := s.servers[place.0][place.1];
        assert Live(s, place, d);
      }
    }
  }

  /** Rewriting an entry the goroutine holds (or takes, or lets go), with the books in balance. */
  lemma RewriteKeeps(s: State, s': State, t: Tid, e: Eid, x: Entry, at: (string, string))
    requires Inv(s) && Rewrites(s, s', t, e, x) && Live(s, at, e)
    requires FlagOf(s, e, SetBy(t)) || (FlagOf(s, e, Clear) && InMutex(s.threads[t]))
    requires x.modifying == Clear || x.modifying == SetBy(t)
    requires Grip(s'.threads[t]) == (if x.modifying == SetBy(t) then Grip(s.threads[t]) + {e} else Grip(s.threads[t]) - {e})
    requires InMutex(s'.threads[t]) == InMutex(s.threads[t])
    requires Aim(s', t, s'.threads[t])
    requires s.threads[t].UpAdd? ==> s.threads[t].e == e
    requires x.value >= 0.0 && x.owed >= 0.0
    requires x.owed > 0.0 ==> Exporting(s'.threads[t], e) || (!s.threads[t].UpAdd? && x.owed == s.heap[e].owed)
    requires forall place: (string, string) | place != at ::
               Sum(s'.exported, place) == Sum(s.exported, place) && Sum(s'.dropped, place) == Sum(s.dropped, place)
    requires (Sum(s'.exported, at) - Sum(s.exported, at)) + (x.owed - s.heap[e].owed) ==
             (x.value - s.heap[e].value) + (Sum(s'.dropped, at) - Sum(s.dropped, at))
    ensures Inv(s')
  {
    hide Mutexed, Gripped, Homed, Aimed, Owing, Balanced, Frame, Aim;
    RewriteFrame(s, s', t, e, x);
    MutexedStep(s, s', t);
    RewriteGripped(s, s', t, e, x);
    RewriteHomed(s, s', t, e, x);
    AimedStep(s, s', t);
    RewriteOwing(s, s', t, e, x);
    RewriteBooks(s, s', t, e, x, at);
  }

  // ---------------------------------------------------------------- steps that change a map

  lemma InsertKeeps(s: State, t: Tid, now: int)
    requires Inv(s) && t in s.threads && s.threads[t].UpFind?
    requires var j := s.threads[t].j; !HasLive(s, Home(j)) && |MapOf(s, j.server)| < MAX_ENTRIES
    ensures var j := s.threads[t].j; Inv(Goto(Insert(s, j, now), t, UpCas(j, s.created)))
  {
    hide Mutexed, Gripped, Homed, Aimed, Owing, Balanced, Frame;
    var j := s.threads[t].j;
    var s' := Goto(Insert(s, j, now), t, UpCas(j, s.created));
    InsertFrame(s, t, now);
    MutexedStep(s, s', t);
    InsertGripped(s, t, now);
    InsertHomed(s, t, now);
    AimOf(s, t);
    AimedStep(s, s', t);
    InsertOwing(s, t, now);
    InsertBooks(s, t, now);
  }

  lemma AimOf(s: State, t: Tid)
    requires Aimed(s) && t in s.threads
    ensures Aim(s, t, s.threads[t])
  {
  }

  function Inserted(s: State, t: Tid, now: int): State
    requires t in s.threads && s.threads[t].UpFind?
  {
    Goto(Insert(s, s.threads[t].j, now), t, UpCas(s.threads[t].j, s.created))
  }

  lemma InsertFrame(s: State, t: Tid, now: int)
    requires Mutexed(s) && Homed(s) && t in s.threads && s.threads[t].UpFind? && !HasLive(s, Home(s.threads[t].j))
    ensures Frame(s, Inserted(s, t, now), t)
  {
    assert s.created !in s.heap;
  }

  lemma InsertGripped(s: State, t: Tid, now: int)
    requires Gripped(s) && Homed(s) && t in s.threads && s.threads[t].UpFind? && Frame(s, Inserted(s, t, now), t)
    ensures Gripped(Inserted(s, t, now))
  {
    var s' := Inserted(s, t, now);
    forall d ensures d in Grip(s'.threads[t]) <==> FlagOf(s', d, SetBy(t)) {
      assert d in Grip(s.threads[t]) <==> FlagOf(s, d, SetBy(t));
    }
    GrippedStep(s, s', t);
  }

  lemma InsertHomed(s: State, t: Tid, now: int)
    requires Homed(s) && t in s.threads && s.threads[t].UpFind?
    requires !HasLive(s, Home(s.threads[t].j)) && |MapOf(s, s.threads[t].j.server)| < MAX_ENTRIES
    ensures Homed(Inserted(s, t, now))
  {
    var s' := Inserted(s, t, now);
    var j := s.threads[t].j;
    forall at, d | Live(s', at, d) ensures d in s'.heap && s'.heap[d].home == at {
      assert at != Home(j) ==> Live(s, at, d);
    }
    MapGrows(MapOf(s, j.server), j.key, s.created);
    forall server | server in s'.servers ensures |s'.servers[server]| <= MAX_ENTRIES {
      assert server != j.server ==> server in s.servers && s'.servers[server] == s.servers[server];
    }
  }

  lemma MapGrows(m: map<string, Eid>, k: string, v: Eid)
    requires k !in m
    ensures |m[k := v]| == |m| + 1
  {
    assert m[k := v].Keys == m.Keys + {k};
  }

  lemma InsertOwing(s: State, t: Tid, now: int)
    requires Owing(s) && Homed(s) && t in s.threads && s.threads[t].UpFind?
    ensures Owing(Inserted(s, t, now))
  {
    var s' := Inserted(s, t, now);
    forall d | d in s'.heap && s'.heap[d].owed > 0.0 ensures exists u | u in s'.threads :: Exporting(s'.threads[u], d) {
      var u :| u in s.threads && Exporting(s.threads[u], d);
      assert u in s'.threads && Exporting(s'.threads[u], d);
    }
  }

  lemma InsertBooks(s: State, t: Tid, now: int)
    requires Balanced(s) && Homed(s) && t in s.threads && s.threads[t].UpFind? && !HasLive(s, Home(s.threads[t].j))
    ensures Balanced(Inserted(s, t, now))
  {
    var s' := Inserted(s, t, now);
    var j := s.threads[t].j;
    forall at: (string, string) ensures Even(s', at) {
      assert Even(s, at);
      if at != Home(j) && HasLive(s, at) {
        assert Live(s, at, s.servers[at.0][at.1]);
      }
    }
  }

  /** Deleting a collected key: its entry is held by nobody, so nothing is owed on it. */
  ghost predicate Evicting(s: State, t: Tid, key: string) {
    && t in s.threads && s.threads[t].ClDelete? && key in s.threads[t].del
    && HasLive(s, (s.threads[t].server, key)) && FlagOf(s, s.servers[s.threads[t].server][key], Clear)
  }

  function Evicted(s: State, t: Tid, key: string): State
    requires t in s.threads && s.threads[t].ClDelete?
    requires HasLive(s, (s.threads[t].server, key)) && s.servers[s.threads[t].server][key] in s.heap
  {
    var p := s.threads[t];
    Goto(Evict(s, p.server, key), t, ClDelete(p.cutoff, p.todo, p.server, p.del - {key}))
  }

  lemma EvictFrame(s: State, t: Tid, key: string)
    requires Mutexed(s) && Homed(s) && Evicting(s, t, key)
    ensures Frame(s, Evicted(s, t, key), t)
  {
    var s' := Evicted(s, t, key);
    var at := (s.threads[t].server, key);
    forall place, e, u | u != t && FlagOf(s, e, SetBy(u)) && Live(s, place, e) ensures Live(s', place, e) {
      assert Live(s, at, s.servers[at.0][at.1]);
      assert place != at;
    }
  }

  lemma EvictHomed(s: State, t: Tid, key: string)
    requires Homed(s) && Evicting(s, t, key)
    ensures Homed(Evicted(s, t, key))
  {
    var s' := Evicted(s, t, key);
    var server := s.threads[t].server;
    forall at, d | Live(s', at, d) ensures d in s'.heap && s'.heap[d].home == at {
      assert Live(s, at, d);
    }
    assert s.servers[server].Keys == s'.servers[server].Keys + {key};
  }

  lemma EvictAim(s: State, t: Tid, key: string)
    requires Homed(s) && Evicting(s, t, key) && Aim(s, t, s.threads[t])
    ensures Aim(Evicted(s, t, key), t, Evicted(s, t, key).threads[t])
  {
    var p := s.threads[t];
    var s' := Evicted(s, t, key);
    forall k | k in p.del - {key} ensures Doomed(s', p.server, k, Clear, p.cutoff) {
      assert Doomed(s, p.server, k, Clear, p.cutoff);
    }
  }

  lemma ClearOwesNothing(s: State, e: Eid)
    requires Gripped(s) && Owing(s) && FlagOf(s, e, Clear)
    ensures s.heap[e].owed == 0.0
  {
    forall u | u in s.threads ensures !Exporting(s.threads[u], e) {
      assert e in Grip(s.threads[u]) <==> FlagOf(s, e, SetBy(u));
    }
  }

  lemma EvictBooks(s: State, t: Tid, key: string)
    requires Balanced(s) && Homed(s) && Gripped(s) && Owing(s) && Evicting(s, t, key)
    ensures Balanced(Evicted(s, t, key))
  {
    var s' := Evicted(s, t, key);
    var at := (s.threads[t].server, key);
    var e := s.servers[at.0][key];
    ClearOwesNothing(s, e);
    forall place: (string, string) ensures Even(s', place) {
      assert Even(s, place);
      if place != at && HasLive(s, place) {
        assert Live(s, place, s.servers[place.0][place.1]);
      }
    }
  }

  lemma EvictKeeps(s: State, t: Tid, key: string)
    requires Inv(s) && Evicting(s, t, key)
    ensures Inv(Evicted(s, t, key))
  {
    hide Mutexed, Gripped, Homed, Aimed, Owing, Balanced, Frame, Aim;
    var s' := Evicted(s, t, key);
    EvictFrame(s, t, key);
    MutexedStep(s, s', t);
    GripSame(s, s', t);
    EvictHomed(s, t, key);
    AimOf(s, t);
    EvictAim(s, t, key);
    AimedStep(s, s', t);
    MoveOwing(s, s', t);
    EvictBooks(s, t, key);
  }
}
