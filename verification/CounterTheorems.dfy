/** The counter promises over every interleaving of updates and cleanups. */
module CounterTheorems {
  import opened Counters
  import opened CounterInvariant

  // ---------------------------------------------------------------- every step keeps the invariant

  /** What a goroutine may rely on when its turn comes. */
  lemma Facts(s: State, t: Tid)
    requires Inv(s) && t in s.threads
    ensures Aim(s, t, s.threads[t])
    ensures InMutex(s.threads[t]) <==> s.mutex == HeldBy(t)
    ensures forall e :: e in Grip(s.threads[t]) <==> FlagOf(s, e, SetBy(t))
    ensures forall at, e | Live(s, at, e) :: e in s.heap && s.heap[e].home == at && s.heap[e].value >= 0.0 && s.heap[e].owed >= 0.0
    ensures forall e | e in Grip(s.threads[t]) && !s.threads[t].UpAdd? :: s.heap[e].owed == 0.0
  {
    forall e | e in Grip(s.threads[t]) && !s.threads[t].UpAdd? ensures s.heap[e].owed == 0.0 {
      forall u | u in s.threads ensures !Exporting(s.threads[u], e) {
        assert e in Grip(s.threads[u]) <==> FlagOf(s, e, SetBy(u));
        assert FlagOf(s, e, SetBy(t));
      }
    }
  }

  lemma BeginKeeps(s: State, t: Tid, c: Choice)
    requires Inv(s) && t in s.threads && s.threads[t].Idle?
    ensures Inv(Begin(s, t, c))
  {
    hide Inv;
    Facts(s, t);
    match c.start
    case Update(j) => if ValidKey(j.key) && j.value >= 0.0 { MoveKeeps(s, t, UpLock(j), s.mutex); }
    case Clean => MoveKeeps(s, t, ClLock(c.now - RETENTION), s.mutex);
    case Nothing =>
  }

  lemma FindKeeps(s: State, t: Tid, c: Choice)
    requires Inv(s) && t in s.threads && s.threads[t].UpFind?
    ensures Inv(UpdateStep(s, t, c))
  {
    hide Inv;
    Facts(s, t);
    var j := s.threads[t].j;
    if HasLive(s, Home(j)) {
      assert Live(s, Home(j), s.servers[j.server][j.key]);
      MoveKeeps(s, t, UpCas(j, s.servers[j.server][j.key]), s.mutex);
    } else if |MapOf(s, j.server)| >= MAX_ENTRIES {
      assert s.servers[j.server := MapOf(s, j.server)] == s.servers;
      MoveKeeps(s, t, UpAbort, s.mutex);
    } else {
      InsertKeeps(s, t, c.now);
    }
  }

  lemma CasKeeps(s: State, t: Tid, c: Choice)
    requires Inv(s) && t in s.threads && s.threads[t].UpCas?
    ensures Inv(UpdateStep(s, t, c))
  {
    hide Inv;
    Facts(s, t);
    var j, e := s.threads[t].j, s.threads[t].e;
    if s.heap[e].modifying.Clear? {
      RewriteKeeps(s, UpdateStep(s, t, c), t, e, s.heap[e].(modifying := SetBy(t)), Home(j));
    } else {
      MoveKeeps(s, t, UpAbort, s.mutex);
    }
  }

  /** The new entry and the books of a reading that is stored. */
  lemma StoredEntry(s: State, t: Tid, j: Job, e: Eid, was: real)
    requires e in s.heap && s.heap[e].value == was && s.heap[e].owed == 0.0 && j.value >= 0.0 && was >= 0.0
    requires j.value >= was || j.value < MAX_DELTA
    ensures var s' := Store(s, t, j, e, was);
            var x := s.heap[e].(value := j.value, owed := if j.value < was then j.value else j.value - was);
            && s' == Goto(SetEntry(s, e, x), t, UpAdd(j, e, x.owed)).(dropped := s'.dropped)
            && (forall place: (string, string) | place != Home(j) :: Sum(s'.dropped, place) == Sum(s.dropped, place))
            && x.owed == (x.value - was) + (Sum(s'.dropped, Home(j)) - Sum(s.dropped, Home(j)))
  {
  }

  lemma StoreKeeps(s: State, t: Tid, c: Choice)
    requires Inv(s) && t in s.threads && s.threads[t].UpWrite?
    ensures Inv(UpdateStep(s, t, c))
  {
    hide Inv, Sum, Plus;
    Facts(s, t);
    var j, e, was := s.threads[t].j, s.threads[t].e, s.threads[t].was;
    assert e in Grip(s.threads[t]);
    assert Live(s, Home(j), e);
    if j.value >= was || j.value < MAX_DELTA {
      StoredEntry(s, t, j, e, was);
      hide Store;
      var s' := Store(s, t, j, e, was);
      assert UpdateStep(s, t, c) == s';
      RewriteKeeps(s, s', t, e, s'.heap[e], Home(j));
    } else {
      MoveKeeps(s, t, UpRelease(j, e), s.mutex);
    }
  }

  lemma TouchKeeps(s: State, t: Tid, c: Choice)
    requires Inv(s) && t in s.threads && s.threads[t].UpTouch?
    ensures Inv(UpdateStep(s, t, c))
  {
    hide Inv;
    Facts(s, t);
    var p := s.threads[t];
    assert p.e in Grip(p);
    RewriteKeeps(s, UpdateStep(s, t, c), t, p.e, s.heap[p.e].(lastSeen := c.now), Home(p.j));
  }

  lemma AddKeeps(s: State, t: Tid, c: Choice)
    requires Inv(s) && t in s.threads && s.threads[t].UpAdd?
    ensures Inv(UpdateStep(s, t, c))
  {
    hide Inv;
    Facts(s, t);
    var p := s.threads[t];
    assert p.e in Grip(p);
    RewriteKeeps(s, UpdateStep(s, t, c), t, p.e, s.heap[p.e].(owed := 0.0), Home(p.j));
  }

  lemma ReleaseKeeps(s: State, t: Tid, c: Choice)
    requires Inv(s) && t in s.threads && s.threads[t].UpRelease?
    ensures Inv(UpdateStep(s, t, c))
  {
    hide Inv;
    Facts(s, t);
    var p := s.threads[t];
    assert p.e in Grip(p);
    RewriteKeeps(s, UpdateStep(s, t, c), t, p.e, s.heap[p.e].(modifying := Clear), Home(p.j));
  }

  lemma UpdateKeeps(s: State, t: Tid, c: Choice)
    requires Inv(s) && t in s.threads && !s.threads[t].Idle? && !Cleaning(s.threads[t])
    ensures Inv(UpdateStep(s, t, c))
  {
    hide Inv;
    Facts(s, t);
    match s.threads[t]
    case UpLock(j) => if s.mutex.Free? { MoveKeeps(s, t, UpFind(j), HeldBy(t)); }
    case UpFind(_) => FindKeeps(s, t, c);
    case UpCas(_, _) => CasKeeps(s, t, c);
    case UpAbort => MoveKeeps(s, t, Idle, Free);
    case UpUnlock(j, e) => MoveKeeps(s, t, UpTouch(j, e), Free);
    case UpRead(j, e) => MoveKeeps(s, t, UpWrite(j, e, s.heap[e].value), s.mutex);
    case UpWrite(_, _, _) => StoreKeeps(s, t, c);
    case UpTouch(_, _) => TouchKeeps(s, t, c);
    case UpAdd(_, _, _) => AddKeeps(s, t, c);
    case UpRelease(_, _) => ReleaseKeeps(s, t, c);
  }

  /** The cleanup claims the flag of a key it visits. */
  lemma ClaimKeeps(s: State, t: Tid, key: string, e: Eid, s': State)
    requires Inv(s) && t in s.threads && s.threads[t].ClKeys?
    requires var p := s.threads[t];
             && key in p.keys && Live(s, (p.server, key), e) && FlagOf(s, e, Clear)
             && s' == Goto(SetEntry(s, e, s.heap[e].(modifying := SetBy(t))), t,
                           ClCheck(p.cutoff, p.todo, p.server, p.keys - {key}, p.del, key, e))
    ensures Inv(s')
  {
    hide Inv;
    Facts(s, t);
    var p := s.threads[t];
    forall k | k in p.del ensures Doomed(s', p.server, k, Clear, p.cutoff) {
      assert Doomed(s, p.server, k, Clear, p.cutoff);
      assert Live(s, (p.server, k), s.servers[p.server][k]);
    }
    RewriteKeeps(s, s', t, e, s.heap[e].(modifying := SetBy(t)), (p.server, key));
  }

  lemma VisitKeeps(s: State, t: Tid, c: Choice)
    requires Inv(s) && t in s.threads && s.threads[t].ClKeys?
    ensures Inv(CleanStep(s, t, c))
  {
    hide Inv;
    Facts(s, t);
    var p := s.threads[t];
    if p.keys == {} || |p.del| > MAX_ENTRIES {
      MoveKeeps(s, t, ClDelete(p.cutoff, p.todo, p.server, p.del), s.mutex);
    } else if c.key in p.keys {
      var e := s.servers[p.server][c.key];
      assert Live(s, (p.server, c.key), e);
      if s.heap[e].modifying.Clear? {
        ClaimKeeps(s, t, c.key, e, CleanStep(s, t, c));
      } else {
        MoveKeeps(s, t, ClKeys(p.cutoff, p.todo, p.server, p.keys - {c.key}, p.del), s.mutex);
      }
    }
  }

  lemma CheckKeeps(s: State, t: Tid, c: Choice)
    requires Inv(s) && t in s.threads && s.threads[t].ClCheck?
    ensures Inv(CleanStep(s, t, c))
  {
    hide Inv;
    Facts(s, t);
    var p := s.threads[t];
    assert p.e in Grip(p);
    var q := CleanStep(s, t, c).threads[t];
    forall k | k in q.del ensures Doomed(s, q.server, k, SetBy(t), q.cutoff) {
      assert k in p.del ==> Doomed(s, p.server, k, Clear, p.cutoff);
    }
    MoveKeeps(s, t, q, s.mutex);
  }

  lemma DropKeeps(s: State, t: Tid, c: Choice)
    requires Inv(s) && t in s.threads && s.threads[t].ClDrop?
    ensures Inv(CleanStep(s, t, c))
  {
    hide Inv;
    Facts(s, t);
    var p := s.threads[t];
    assert p.e in Grip(p);
    var s' := CleanStep(s, t, c);
    forall k | k in p.del ensures Doomed(s', p.server, k, Clear, p.cutoff) {
      assert Doomed(s, p.server, k, SetBy(t), p.cutoff);
      var d := s.servers[p.server][k];
      assert FlagOf(s, d, SetBy(t)) ==> d in Grip(p);
    }
    RewriteKeeps(s, s', t, p.e, s.heap[p.e].(modifying := Clear), (p.server, p.key));
  }

  lemma DeleteKeeps(s: State, t: Tid, c: Choice)
    requires Inv(s) && t in s.threads && s.threads[t].ClDelete?
    ensures Inv(CleanStep(s, t, c))
  {
    hide Inv;
    Facts(s, t);
    var p := s.threads[t];
    if p.del == {} {
      MoveKeeps(s, t, ClServers(p.cutoff, p.todo), s.mutex);
    } else if c.key in p.del {
      assert Doomed(s, p.server, c.key, Clear, p.cutoff);
      EvictKeeps(s, t, c.key);
    }
  }

  lemma CleanKeeps(s: State, t: Tid, c: Choice)
    requires Inv(s) && t in s.threads && Cleaning(s.threads[t])
    ensures Inv(CleanStep(s, t, c))
  {
    hide Inv;
    Facts(s, t);
    match s.threads[t]
    case ClLock(cut) => if s.mutex.Free? { MoveKeeps(s, t, ClServers(cut, s.servers.Keys), HeldBy(t)); }
    case ClServers(cut, todo) =>
      if todo == {} { MoveKeeps(s, t, Idle, Free); }
      else if c.server in todo {
        MoveKeeps(s, t, ClKeys(cut, todo - {c.server}, c.server, MapOf(s, c.server).Keys, {}), s.mutex);
      }
    case ClKeys(_, _, _, _, _) => VisitKeeps(s, t, c);
    case ClCheck(_, _, _, _, _, _, _) => CheckKeeps(s, t, c);
    case ClDrop(_, _, _, _, _, _, _) => DropKeeps(s, t, c);
    case ClDelete(_, _, _, _) => DeleteKeeps(s, t, c);
  }

  lemma NextKeeps(s: State, t: Tid, c: Choice)
    requires Inv(s)
    ensures Inv(Next(s, t, c))
  {
    hide Inv, Begin, UpdateStep, CleanStep;
    if t in s.threads {
      if s.threads[t].Idle? { BeginKeeps(s, t, c); }
      else if Cleaning(s.threads[t]) { CleanKeeps(s, t, c); }
      else { UpdateKeeps(s, t, c); }
    }
  }

  lemma {:induction false} RunKeeps(s: State, schedule: seq<(Tid, Choice)>)
    requires Inv(s)
    ensures Inv(Run(s, schedule))
    decreases |schedule|
  {
    hide Inv, Next;
    if schedule != [] {
      NextKeeps(s, schedule[0].0, schedule[0].1);
      RunKeeps(Next(s, schedule[0].0, schedule[0].1), schedule[1..]);
    }
  }

  lemma InitialHolds(s: State)
    requires Initial(s)
    ensures Inv(s)
  {
    assert forall at: (string, string) :: Even(s, at);
  }

  /** Some schedule leads from an exporter without counters to r. */
  ghost predicate Reachable(r: State) {
    exists s: State, schedule: seq<(Tid, Choice)> :: Initial(s) && Run(s, schedule) == r
  }

  lemma ReachableInv(r: State)
    requires Reachable(r)
    ensures Inv(r)
  {
    hide Inv, Initial;
    var s: State, schedule: seq<(Tid, Choice)> :| Initial(s) && Run(s, schedule) == r;
    InitialHolds(s);
    RunKeeps(s, schedule);
  }

  // ---------------------------------------------------------------- the promises

  /** At most one party holds an entry's flag, and the flag is set exactly while one does. */
  lemma FlagHasOneHolder(r: State, e: Eid)
    requires Reachable(r)
    ensures forall t, u | t in r.threads && u in r.threads && e in Grip(r.threads[t]) && e in Grip(r.threads[u]) :: t == u
    ensures e in r.heap ==> (r.heap[e].modifying.SetBy? <==> exists t :: t in r.threads && e in Grip(r.threads[t]))
  {
    hide Reachable;
    ReachableInv(r);
    forall t, u | t in r.threads && u in r.threads && e in Grip(r.threads[t]) && e in Grip(r.threads[u]) ensures t == u {
      assert FlagOf(r, e, SetBy(t)) && FlagOf(r, e, SetBy(u));
    }
    if e in r.heap && r.heap[e].modifying.SetBy? {
      assert FlagOf(r, e, SetBy(r.heap[e].modifying.t));
    }
    if t :| t in r.threads && e in Grip(r.threads[t]) {
      assert FlagOf(r, e, SetBy(t));
    }
  }

  /** An update that holds an entry's flag works on the live entry of its (server, key):
      never on one that has been removed from the map. */
  lemma HeldEntryIsLive(r: State, t: Tid)
    requires Reachable(r) && t in r.threads && !Cleaning(r.threads[t]) && Grip(r.threads[t]) != {}
    ensures Live(r, Home(r.threads[t].j), r.threads[t].e) && Grip(r.threads[t]) == {r.threads[t].e}
  {
    hide Reachable, Inv;
    ReachableInv(r);
    Facts(r, t);
  }

  /** No server's map outgrows the limit, so the cleanup's early exit is never taken. */
  lemma MapsAreBounded(r: State, server: string, t: Tid)
    requires Reachable(r)
    ensures server in r.servers ==> |r.servers[server]| <= MAX_ENTRIES
    ensures t in r.threads && r.threads[t].ClKeys? ==> |r.threads[t].del| <= MAX_ENTRIES
  {
    hide Reachable;
    ReachableInv(r);
    if t in r.threads && r.threads[t].ClKeys? {
      var p := r.threads[t];
      Facts(r, t);
      forall k | k in p.del ensures k in MapOf(r, p.server).Keys {
        assert Doomed(r, p.server, k, Clear, p.cutoff);
      }
      SubsetCard(p.del, MapOf(r, p.server).Keys);
    }
  }

  /** The cleanup evicts only entries that are live, that nobody holds, that owe nothing to the
      exported counter, and that no update has touched since before the cutoff, however the
      updates interleaved with the collection of the keys. */
  lemma EvictsOnlyIdleEntries(r: State, t: Tid, key: string)
    requires Reachable(r) && t in r.threads && r.threads[t].ClDelete? && key in r.threads[t].del
    ensures var at := (r.threads[t].server, key);
            && HasLive(r, at) && r.servers[at.0][at.1] in r.heap
            && r.heap[r.servers[at.0][at.1]].modifying.Clear?
            && r.heap[r.servers[at.0][at.1]].lastSeen < r.threads[t].cutoff
            && Owed(r, at) == 0.0
  {
    hide Reachable;
    ReachableInv(r);
    Facts(r, t);
    var p := r.threads[t];
    assert Doomed(r, p.server, key, Clear, p.cutoff);
    ClearOwesNothing(r, r.servers[p.server][key]);
  }

  /** What a reading does to the books of its (server, key) when it is stored: growth owes the
      difference; a fall to a plausible value owes the whole value and drops the old one; a
      fall to an implausible value changes nothing. */
  lemma ReadingApplied(r: State, t: Tid, c: Choice)
    requires Reachable(r) && t in r.threads && r.threads[t].UpWrite?
    ensures var j := r.threads[t].j; var at := Home(j); var s := Next(r, t, c);
            var was := Stored(r, at);
            && Owed(r, at) == 0.0
            && Stored(s, at) == (if was <= j.value || j.value < MAX_DELTA then j.value else was)
            && Owed(s, at) == (if was <= j.value then j.value - was else if j.value < MAX_DELTA then j.value else 0.0)
            && Sum(s.dropped, at) - Sum(r.dropped, at) == (if j.value < was && j.value < MAX_DELTA then was else 0.0)
            && s.exported == r.exported
  {
    hide Reachable, Inv;
    ReachableInv(r);
    Facts(r, t);
    var p := r.threads[t];
    assert p.e in Grip(p);
  }

  lemma SubsetCard(a: set<string>, b: set<string>)
    requires a <= b
    ensures |a| <= |b|
  {
    assert b == a + (b - a);
  }

  /** The books: what was exported for a (server, key) is the stored value (0 when absent)
      plus the values dropped at accepted resets and evictions, short only of the delta of
      an update caught between storing and exporting. */
  lemma ExportedEqualsStoredPlusDropped(r: State, at: (string, string))
    requires Reachable(r)
    ensures Sum(r.exported, at) == Stored(r, at) + Sum(r.dropped, at) - Owed(r, at)
    ensures Stored(r, at) >= 0.0 && Owed(r, at) >= 0.0
    ensures (forall t | t in r.threads :: !(r.threads[t].UpAdd? && Home(r.threads[t].j) == at)) ==> Owed(r, at) == 0.0
  {
    hide Reachable;
    ReachableInv(r);
    assert Even(r, at);
    if HasLive(r, at) && (forall t | t in r.threads :: !(r.threads[t].UpAdd? && Home(r.threads[t].j) == at)) {
      var e := r.servers[at.0][at.1];
      assert Live(r, at, e);
      forall t | t in r.threads ensures !Exporting(r.threads[t], e) {
        Facts(r, t);
      }
    }
  }

  lemma CleanExportsNothing(s: State, t: Tid, c: Choice)
    requires t in s.threads && Cleaning(s.threads[t])
    ensures CleanStep(s, t, c).exported == s.exported
  {
    hide Plus, Sum, MapOf;
    match s.threads[t]
    case ClLock(_) =>
    case ClServers(_, _) =>
    case ClKeys(_, _, _, _, _) =>
    case ClCheck(_, _, _, _, _, _, _) =>
    case ClDrop(_, _, _, _, _, _, _) =>
    case ClDelete(_, _, _, _) =>
  }

  lemma StoreExportsNothing(s: State, t: Tid, j: Job, e: Eid, was: real)
    requires e in s.heap
    ensures Store(s, t, j, e, was).exported == s.exported
  {
    hide Plus;
  }

  lemma UpdateExports(s: State, t: Tid, c: Choice)
    requires t in s.threads && !s.threads[t].Idle? && !Cleaning(s.threads[t])
    ensures UpdateStep(s, t, c).exported == s.exported ||
            (s.threads[t].UpAdd? && s.threads[t].delta > 0.0 &&
             UpdateStep(s, t, c).exported == Plus(s.exported, Home(s.threads[t].j), s.threads[t].delta))
  {
    hide Plus, Sum, MapOf, Store, Insert, HasLive;
    match s.threads[t]
    case UpWrite(j, e, was) => if e in s.heap { StoreExportsNothing(s, t, j, e, was); }
    case UpFind(j) => InsertExportsNothing(s, j, c.now);
    case _ =>
  }

  lemma InsertExportsNothing(s: State, j: Job, now: int)
    ensures Insert(s, j, now).exported == s.exported
  {
  }

  /** No step lowers an exported counter. */
  lemma ExportedStep(s: State, t: Tid, c: Choice, at: (string, string))
    ensures Sum(Next(s, t, c).exported, at) >= Sum(s.exported, at)
  {
    hide UpdateStep, CleanStep;
    if t in s.threads {
      if Cleaning(s.threads[t]) { CleanExportsNothing(s, t, c); }
      else if !s.threads[t].Idle? { UpdateExports(s, t, c); }
    }
  }

  lemma {:induction false} ExportedNeverDecreases(s: State, schedule: seq<(Tid, Choice)>, at: (string, string))
    ensures Sum(Run(s, schedule).exported, at) >= Sum(s.exported, at)
    decreases |schedule|
  {
    hide Next, Sum;
    if schedule != [] {
      ExportedStep(s, schedule[0].0, schedule[0].1, at);
      ExportedNeverDecreases(Next(s, schedule[0].0, schedule[0].1), schedule[1..], at);
    }
  }
}
