/** What one update achieves when nobody interferes, and which readings it drops. */
module CounterProgress {
  import opened Counters
  import opened CounterInvariant

  /** n steps of goroutine t under the same circumstances. */
  function Solo(s: State, t: Tid, c: Choice, n: nat): State
    decreases n
  {
    if n == 0 then s else Solo(Next(s, t, c), t, c, n - 1)
  }

  lemma {:induction false} SoloSplit(s: State, t: Tid, c: Choice, n: nat, m: nat)
    ensures Solo(s, t, c, n + m) == Solo(Solo(s, t, c, n), t, c, m)
    decreases n
  {
    hide Next;
    if n > 0 {
      SoloSplit(Next(s, t, c), t, c, n - 1, m);
    }
  }

  lemma SoloOne(s: State, t: Tid, c: Choice, n: nat)
    requires n > 0
    ensures Solo(s, t, c, n) == Solo(Next(s, t, c), t, c, n - 1) && Solo(s, t, c, 0) == s
  {
    hide Next;
  }

  lemma UpdateAlone(s: State, t: Tid, c: Choice)
    requires t in s.threads && !s.threads[t].Idle? && !Cleaning(s.threads[t])
    ensures Next(s, t, c) == UpdateStep(s, t, c)
  {
    hide UpdateStep;
  }

  /** A reading for an unusable key, or a negative one, changes nothing. */
  lemma BadReadingIsDropped(s: State, t: Tid, c: Choice)
    requires t in s.threads && s.threads[t].Idle? && c.start.Update?
    requires !ValidKey(c.start.j.key) || c.start.j.value < 0.0
    ensures Next(s, t, c) == s
  {
  }

  /** The state in which an update holds its entry: flagged, still unstamped, the mutex held. */
  predicate Holds(s: State, t: Tid, j: Job, e: Eid) {
    && t in s.threads && s.threads[t] == UpUnlock(j, e) && s.mutex == HeldBy(t)
    && e in s.heap && s.heap[e].modifying == SetBy(t) && Live(s, Home(j), e)
  }

  /** Before the flag: lock, find and claim an entry that is there and free. */
  lemma ClaimsExisting(s: State, t: Tid, j: Job, c: Choice)
    requires t in s.threads && s.threads[t].Idle? && s.mutex.Free?
    requires c.start == Update(j) && ValidKey(j.key) && j.value >= 0.0
    requires HasLive(s, Home(j)) && s.servers[j.server][j.key] in s.heap
    requires s.heap[s.servers[j.server][j.key]].modifying.Clear?
    ensures var e := s.servers[j.server][j.key]; var a := Solo(s, t, c, 4);
            && Holds(a, t, j, e) && a.heap[e].value == s.heap[e].value
            && a.servers == s.servers && a.exported == s.exported && a.dropped == s.dropped
  {
    hide Next, UpdateStep, ValidKey;
    var e := s.servers[j.server][j.key];
    var a := Goto(s, t, UpLock(j));
    assert Next(s, t, c) == a by { Started(s, t, j, c); }
    var b := Goto(a, t, UpFind(j)).(mutex := HeldBy(t));
    assert Next(a, t, c) == b by { UpdateAlone(a, t, c); Locked(a, t, j, c); }
    var d := Goto(b, t, UpCas(j, e));
    assert Next(b, t, c) == d by { UpdateAlone(b, t, c); Found(b, t, j, c); }
    assert Next(d, t, c) == Goto(SetEntry(d, e, d.heap[e].(modifying := SetBy(t))), t, UpUnlock(j, e)) by {
      UpdateAlone(d, t, c);
      Claimed(d, t, j, e, c);
    }
    Four(s, t, c);
  }

  lemma Four(s: State, t: Tid, c: Choice)
    ensures Solo(s, t, c, 4) == Next(Next(Next(Next(s, t, c), t, c), t, c), t, c)
  {
    hide Next;
    SoloOne(s, t, c, 4);
    SoloOne(Next(s, t, c), t, c, 3);
    SoloOne(Next(Next(s, t, c), t, c), t, c, 2);
    SoloOne(Next(Next(Next(s, t, c), t, c), t, c), t, c, 1);
  }

  lemma Started(s: State, t: Tid, j: Job, c: Choice)
    requires t in s.threads && s.threads[t].Idle? && c.start == Update(j) && ValidKey(j.key) && j.value >= 0.0
    ensures Next(s, t, c) == Goto(s, t, UpLock(j))
  {
  }

  lemma Locked(s: State, t: Tid, j: Job, c: Choice)
    requires t in s.threads && s.threads[t] == UpLock(j) && s.mutex.Free?
    ensures UpdateStep(s, t, c) == Goto(s, t, UpFind(j)).(mutex := HeldBy(t))
  {
  }

  lemma Found(s: State, t: Tid, j: Job, c: Choice)
    requires t in s.threads && s.threads[t] == UpFind(j) && HasLive(s, Home(j))
    ensures UpdateStep(s, t, c) == Goto(s, t, UpCas(j, s.servers[j.server][j.key]))
  {
  }

  lemma Claimed(s: State, t: Tid, j: Job, e: Eid, c: Choice)
    requires t in s.threads && s.threads[t] == UpCas(j, e) && e in s.heap && s.heap[e].modifying.Clear?
    ensures UpdateStep(s, t, c) == Goto(SetEntry(s, e, s.heap[e].(modifying := SetBy(t))), t, UpUnlock(j, e))
  {
  }

  lemma FreshEntry(s: State, j: Job, now: int)
    ensures var a := Insert(s, j, now);
            && s.created in a.heap && a.heap[s.created].value == 0.0 && a.heap[s.created].modifying.Clear?
            && Live(a, Home(j), s.created) && a.threads == s.threads && a.mutex == s.mutex
            && a.exported == s.exported && a.dropped == s.dropped
  {
  }

  /** Before the flag: lock, create an entry when there is room, and claim it. */
  lemma ClaimsNew(s: State, t: Tid, j: Job, c: Choice)
    requires t in s.threads && s.threads[t].Idle? && s.mutex.Free?
    requires c.start == Update(j) && ValidKey(j.key) && j.value >= 0.0
    requires !HasLive(s, Home(j)) && |MapOf(s, j.server)| < MAX_ENTRIES
    ensures var e := s.created; var a := Solo(s, t, c, 4);
            && Holds(a, t, j, e) && a.heap[e].value == 0.0
            && a.exported == s.exported && a.dropped == s.dropped
  {
    hide Next, UpdateStep, ValidKey, Insert, MapOf, Solo;
    var e := s.created;
    var a := Goto(s, t, UpLock(j));
    assert Next(s, t, c) == a by { Started(s, t, j, c); }
    var b := Goto(a, t, UpFind(j)).(mutex := HeldBy(t));
    assert Next(a, t, c) == b by { UpdateAlone(a, t, c); Locked(a, t, j, c); }
    assert MapOf(b, j.server) == MapOf(s, j.server) by { SameMap(s, b, j.server); }
    FreshEntry(b, j, c.now);
    var d := Goto(Insert(b, j, c.now), t, UpCas(j, e));
    assert Next(b, t, c) == d by { UpdateAlone(b, t, c); Created(b, t, j, c); }
    assert Next(d, t, c) == Goto(SetEntry(d, e, d.heap[e].(modifying := SetBy(t))), t, UpUnlock(j, e)) by {
      UpdateAlone(d, t, c);
      Claimed(d, t, j, e, c);
    }
    Four(s, t, c);
  }

  lemma SameMap(s: State, b: State, server: string)
    requires b.servers == s.servers
    ensures MapOf(b, server) == MapOf(s, server)
  {
  }

  lemma Created(s: State, t: Tid, j: Job, c: Choice)
    requires t in s.threads && s.threads[t] == UpFind(j) && !HasLive(s, Home(j)) && |MapOf(s, j.server)| < MAX_ENTRIES
    ensures UpdateStep(s, t, c) == Goto(Insert(s, j, c.now), t, UpCas(j, s.created))
  {
  }

  /** A new key for a full server, and a key whose entry somebody holds, are skipped: nothing is
      stored and nothing exported. */
  lemma BusyOrFullIsSkipped(s: State, t: Tid, j: Job, c: Choice)
    requires t in s.threads && s.mutex == HeldBy(t)
    requires || (s.threads[t] == UpFind(j) && !HasLive(s, Home(j)) && |MapOf(s, j.server)| >= MAX_ENTRIES)
             || (s.threads[t].UpCas? && s.threads[t].e in s.heap && s.heap[s.threads[t].e].modifying.SetBy?)
    ensures var s' := Solo(s, t, c, 2);
            && s'.threads[t].Idle? && s'.mutex.Free? && s'.heap == s.heap && s'.servers == s.servers
            && s'.exported == s.exported && s'.dropped == s.dropped
  {
    hide UpdateStep, Next;
    var a := Next(s, t, c);
    UpdateAlone(s, t, c);
    Skipped(s, t, c);
    UpdateAlone(a, t, c);
    Skipped(a, t, c);
    SoloOne(s, t, c, 2);
    SoloOne(a, t, c, 1);
  }

  lemma Skipped(s: State, t: Tid, c: Choice)
    requires t in s.threads
    ensures s.threads[t].UpFind? && !HasLive(s, Home(s.threads[t].j)) && |MapOf(s, s.threads[t].j.server)| >= MAX_ENTRIES ==>
              UpdateStep(s, t, c) == Goto(s, t, UpAbort)
    ensures s.threads[t].UpCas? && s.threads[t].e in s.heap && s.heap[s.threads[t].e].modifying.SetBy? ==>
              UpdateStep(s, t, c) == Goto(s, t, UpAbort)
    ensures s.threads[t].UpAbort? ==> UpdateStep(s, t, c) == Goto(s, t, Idle).(mutex := Free)
  {
    if s.threads[t].UpFind? && |MapOf(s, s.threads[t].j.server)| >= MAX_ENTRIES {
      var j := s.threads[t].j;
      assert s.servers[j.server := MapOf(s, j.server)] == s.servers;
    }
  }

  // ---------------------------------------------------------------- from the flag to the end

  /** The delta a reading exports: growth is exported as such, a fall to a plausible value as a
      reset, and a fall to an implausible one not at all. */
  function Delta(was: real, value: real): real {
    if value >= was then value - was else if value < MAX_DELTA then value else 0.0
  }

  predicate Implausible(was: real, value: real) { value < was && value >= MAX_DELTA }

  /** Unlock, stamp and read. */
  lemma Stamps(s: State, t: Tid, j: Job, e: Eid, c: Choice)
    requires Holds(s, t, j, e)
    ensures var a := Solo(s, t, c, 3);
            && t in a.threads && a.threads[t] == UpWrite(j, e, s.heap[e].value) && a.mutex.Free?
            && a.heap == s.heap[e := s.heap[e].(lastSeen := c.now)]
            && a.servers == s.servers && a.exported == s.exported && a.dropped == s.dropped
  {
    hide Next;
    UpdateAlone(s, t, c);
    var a := Next(s, t, c);
    UpdateAlone(a, t, c);
    var b := Next(a, t, c);
    UpdateAlone(b, t, c);
    SoloOne(s, t, c, 3);
    SoloOne(a, t, c, 2);
    SoloOne(b, t, c, 1);
  }

  /** Store, export, release. */
  lemma StoresAndExports(s: State, t: Tid, j: Job, e: Eid, c: Choice)
    requires t in s.threads && e in s.heap && s.threads[t] == UpWrite(j, e, s.heap[e].value) && j.value >= 0.0
    requires !Implausible(s.heap[e].value, j.value)
    ensures var s' := Solo(s, t, c, 3); var was := s.heap[e].value;
            && t in s'.threads && s'.threads[t].Idle? && s'.mutex == s.mutex && s'.servers == s.servers
            && e in s'.heap && s'.heap[e].value == j.value && s'.heap[e].modifying.Clear?
            && s'.heap[e].lastSeen == s.heap[e].lastSeen
            && Sum(s'.exported, Home(j)) == Sum(s.exported, Home(j)) + Delta(was, j.value)
            && forall at | at != Home(j) :: Sum(s'.exported, at) == Sum(s.exported, at)
  {
    hide Next, UpdateStep;
    var was := s.heap[e].value;
    var a := Store(s, t, j, e, was);
    assert Next(s, t, c) == a by { UpdateAlone(s, t, c); Written(s, t, j, e, c); }
    assert a.threads[t] == UpAdd(j, e, Delta(was, j.value)) && a.exported == s.exported && a.servers == s.servers && a.mutex == s.mutex;
    hide Store;
    var b := Next(a, t, c);
    UpdateAlone(a, t, c);
    Exported(a, t, j, e, Delta(was, j.value), c);
    UpdateAlone(b, t, c);
    Released(b, t, j, e, c);
    SoloOne(s, t, c, 3);
    SoloOne(a, t, c, 2);
    SoloOne(b, t, c, 1);
  }

  lemma Written(s: State, t: Tid, j: Job, e: Eid, c: Choice)
    requires t in s.threads && e in s.heap && s.threads[t] == UpWrite(j, e, s.heap[e].value)
    ensures UpdateStep(s, t, c) == Store(s, t, j, e, s.heap[e].value)
  {
    hide Store;
  }

  lemma Exported(s: State, t: Tid, j: Job, e: Eid, delta: real, c: Choice)
    requires t in s.threads && e in s.heap && s.threads[t] == UpAdd(j, e, delta) && delta >= 0.0
    ensures var s' := UpdateStep(s, t, c);
            && t in s'.threads && s'.threads[t] == UpRelease(j, e) && s'.heap == s.heap[e := s.heap[e].(owed := 0.0)]
            && s'.servers == s.servers && s'.mutex == s.mutex
            && Sum(s'.exported, Home(j)) == Sum(s.exported, Home(j)) + delta
            && forall at | at != Home(j) :: Sum(s'.exported, at) == Sum(s.exported, at)
  {
  }

  lemma Released(s: State, t: Tid, j: Job, e: Eid, c: Choice)
    requires t in s.threads && e in s.heap && s.threads[t] == UpRelease(j, e)
    ensures UpdateStep(s, t, c) == Goto(SetEntry(s, e, s.heap[e].(modifying := Clear)), t, Idle)
  {
  }

  /** An implausible fall is skipped: only the flag is given back. */
  lemma SkipsImplausible(s: State, t: Tid, j: Job, e: Eid, c: Choice)
    requires t in s.threads && e in s.heap && s.threads[t] == UpWrite(j, e, s.heap[e].value)
    requires Implausible(s.heap[e].value, j.value)
    ensures Solo(s, t, c, 2) == Goto(SetEntry(s, e, s.heap[e].(modifying := Clear)), t, Idle)
  {
    hide Next, UpdateStep;
    var a := Goto(s, t, UpRelease(j, e));
    assert Next(s, t, c) == a by { UpdateAlone(s, t, c); Written(s, t, j, e, c); }
    UpdateAlone(a, t, c);
    Released(a, t, j, e, c);
    SoloOne(s, t, c, 2);
    SoloOne(a, t, c, 1);
  }

  /** An update nobody interferes with: a usable reading of a key that is known and free, or new
      with room for it, is stored, stamped with the present time, exported as its delta, and the
      entry is free again. */
  lemma UpdateDoesItsJob(s: State, t: Tid, j: Job, c: Choice)
    requires t in s.threads && s.threads[t].Idle? && s.mutex.Free?
    requires c.start == Update(j) && ValidKey(j.key) && j.value >= 0.0
    requires if HasLive(s, Home(j)) then s.servers[j.server][j.key] in s.heap && s.heap[s.servers[j.server][j.key]].modifying.Clear?
             else |MapOf(s, j.server)| < MAX_ENTRIES
    ensures var was := Stored(s, Home(j));
            !Implausible(was, j.value) ==>
              var s' := Solo(s, t, c, 10);
              && t in s'.threads && s'.threads[t].Idle? && s'.mutex.Free? && HasLive(s', Home(j))
              && Stored(s', Home(j)) == j.value
              && Sum(s'.exported, Home(j)) == Sum(s.exported, Home(j)) + Delta(was, j.value)
              && (forall at | at != Home(j) :: Sum(s'.exported, at) == Sum(s.exported, at))
    ensures var was := Stored(s, Home(j));
            Implausible(was, j.value) ==>
              var s' := Solo(s, t, c, 9);
              && t in s'.threads && s'.threads[t].Idle? && s'.mutex.Free? && HasLive(s', Home(j))
              && Stored(s', Home(j)) == was && s'.exported == s.exported
  {
    hide Solo, ValidKey, Sum, Next;
    var e := if HasLive(s, Home(j)) then s.servers[j.server][j.key] else s.created;
    if HasLive(s, Home(j)) { ClaimsExisting(s, t, j, c); } else { ClaimsNew(s, t, j, c); }
    var a := Solo(s, t, c, 4);
    assert a.heap[e].value == Stored(s, Home(j));
    Stamps(a, t, j, e, c);
    var b := Solo(a, t, c, 3);
    SoloSplit(s, t, c, 4, 3);
    if Implausible(Stored(s, Home(j)), j.value) {
      SkipsImplausible(b, t, j, e, c);
      SoloSplit(s, t, c, 7, 2);
    } else {
      StoresAndExports(b, t, j, e, c);
      SoloSplit(s, t, c, 7, 3);
    }
  }
}
