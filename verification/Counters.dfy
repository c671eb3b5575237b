/** Delta-based counters: updates and cleanup as a machine of atomic steps.  The map mutex
    guards the maps; a per-entry flag, set with a compare-and-swap, guards an entry.  Any
    number of updates and cleanups interleave; readings and clock values are arbitrary. */
module Counters {

  type Tid = nat
  type Eid = nat

  // MaxCounterEntries, MaxReasonableCounterDelta, MaxKeyLength
  const MAX_ENTRIES: nat := 1000
  const MAX_DELTA: real := 1000000000.0
  const MAX_KEY: nat := 512
  // CounterEntryRetentionPeriod: twenty minutes, in nanoseconds
  const RETENTION: int := 20 * 60 * 1_000_000_000

  /** A reading to be applied. */
  datatype Job = Job(server: string, key: string, value: real)

  /** The modifying flag; when set, the setter is recorded as history. */
  datatype Flag = Clear | SetBy(t: Tid)

  /** A counterEntry.  `home` (the place it was created for) and `owed` (stored in value but
      not yet added to the exported counter) are history. */
  datatype Entry = Entry(value: real, lastSeen: int, modifying: Flag, home: (string, string), owed: real)

  datatype Pc =
    | Idle
    // updateCounterCommon
    | UpLock(j: Job)
    | UpFind(j: Job)
    | UpCas(j: Job, e: Eid)
    | UpAbort
    | UpUnlock(j: Job, e: Eid)
    | UpTouch(j: Job, e: Eid)
    | UpRead(j: Job, e: Eid)
    | UpWrite(j: Job, e: Eid, was: real)
    | UpAdd(j: Job, e: Eid, delta: real)
    | UpRelease(j: Job, e: Eid)
    // cleanupOldCountersSync; `todo` and `keys` are what the range loops have not visited yet
    | ClLock(cutoff: int)
    | ClServers(cutoff: int, todo: set<string>)
    | ClKeys(cutoff: int, todo: set<string>, server: string, keys: set<string>, del: set<string>)
    | ClCheck(cutoff: int, todo: set<string>, server: string, keys: set<string>, del: set<string>, key: string, e: Eid)
    | ClDrop(cutoff: int, todo: set<string>, server: string, keys: set<string>, del: set<string>, key: string, e: Eid)
    | ClDelete(cutoff: int, todo: set<string>, server: string, del: set<string>)

  datatype Mutex = Free | HeldBy(t: Tid)

  type Sums = map<(string, string), real>

  /** `servers` is counterValues; `exported` is what updateFunc has added per (server, key);
      `dropped` is history: the stored values lost at accepted resets and evictions. */
  datatype State = State(
    mutex: Mutex, servers: map<string, map<string, Eid>>, heap: map<Eid, Entry>, created: nat,
    exported: Sums, dropped: Sums, threads: map<Tid, Pc>)

  /** What the environment decides: what to start, clock readings, map iteration order. */
  datatype Choice = Choice(start: Start, now: int, server: string, key: string)
  datatype Start = Update(j: Job) | Clean | Nothing

  // ---------------------------------------------------------------- helpers

  function Sum(m: Sums, at: (string, string)): real { if at in m then m[at] else 0.0 }

  function Plus(m: Sums, at: (string, string), d: real): Sums { m[at := Sum(m, at) + d] }

  predicate ValidKey(key: string) {
    0 < |key| <= MAX_KEY && '\0' !in key && '\r' !in key && '\n' !in key
  }

  /** The live entry of a (server, key). */
  predicate Live(s: State, at: (string, string), e: Eid) {
    at.0 in s.servers && at.1 in s.servers[at.0] && s.servers[at.0][at.1] == e
  }

  predicate HasLive(s: State, at: (string, string)) { at.0 in s.servers && at.1 in s.servers[at.0] }

  function MapOf(s: State, server: string): map<string, Eid> {
    if server in s.servers then s.servers[server] else map[]
  }

  function Home(j: Job): (string, string) { (j.server, j.key) }

  function Goto(s: State, t: Tid, p: Pc): State { s.(threads := s.threads[t := p]) }

  function SetEntry(s: State, e: Eid, x: Entry): State { s.(heap := s.heap[e := x]) }

  /** The entry a goroutine holds the flag of. */
  function Grip(p: Pc): set<Eid> {
    match p
    case UpUnlock(_, e) => {e}
    case UpTouch(_, e) => {e}
    case UpRead(_, e) => {e}
    case UpWrite(_, e, _) => {e}
    case UpAdd(_, e, _) => {e}
    case UpRelease(_, e) => {e}
    case ClCheck(_, _, _, _, _, _, e) => {e}
    case ClDrop(_, _, _, _, _, _, e) => {e}
    case _ => {}
  }

  predicate InMutex(p: Pc) {
    || p.UpFind? || p.UpCas? || p.UpAbort? || p.UpUnlock?
    || p.ClServers? || p.ClKeys? || p.ClCheck? || p.ClDrop? || p.ClDelete?
  }

  // ---------------------------------------------------------------- the machine

  function Next(s: State, t: Tid, c: Choice): State {
    if t !in s.threads then s
    else
      var p := s.threads[t];
      if p.Idle? then Begin(s, t, c)
      else if Cleaning(p) then CleanStep(s, t, c)
      else UpdateStep(s, t, c)
  }

  predicate Cleaning(p: Pc) { p.ClLock? || p.ClServers? || p.ClKeys? || p.ClCheck? || p.ClDrop? || p.ClDelete? }

  /** The guards in front of the lock: invalid keys and negative readings are dropped. */
  function Begin(s: State, t: Tid, c: Choice): State {
    match c.start
    case Update(j) => if !ValidKey(j.key) || j.value < 0.0 then s else Goto(s, t, UpLock(j))
    case Clean => Goto(s, t, ClLock(c.now - RETENTION))
    case Nothing => s
  }

  /** A fresh entry for job j. */
  function Insert(s: State, j: Job, now: int): State {
    s.(servers := s.servers[j.server := MapOf(s, j.server)[j.key := s.created]],
       heap := s.heap[s.created := Entry(0.0, now, Clear, Home(j), 0.0)],
       created := s.created + 1)
  }

  /** Storing a reading: the delta to export, or a reset that drops the old value. */
  function Store(s: State, t: Tid, j: Job, e: Eid, was: real): State
    requires e in s.heap
  {
    var delta := j.value - was;
    if delta < 0.0 then
      if j.value < MAX_DELTA then
        Goto(SetEntry(s, e, s.heap[e].(value := j.value, owed := j.value)), t, UpAdd(j, e, j.value))
          .(dropped := Plus(s.dropped, Home(j), was))
      else Goto(s, t, UpRelease(j, e))
    else Goto(SetEntry(s, e, s.heap[e].(value := j.value, owed := delta)), t, UpAdd(j, e, delta))
  }

  function UpdateStep(s: State, t: Tid, c: Choice): State
    requires t in s.threads && !s.threads[t].Idle? && !Cleaning(s.threads[t])
  {
    match s.threads[t]
    case UpLock(j) => if s.mutex.Free? then Goto(s, t, UpFind(j)).(mutex := HeldBy(t)) else s
    case UpFind(j) =>
      if HasLive(s, Home(j)) then Goto(s, t, UpCas(j, s.servers[j.server][j.key]))
      else if |MapOf(s, j.server)| >= MAX_ENTRIES then
        Goto(s, t, UpAbort).(servers := s.servers[j.server := MapOf(s, j.server)])
      else Goto(Insert(s, j, c.now), t, UpCas(j, s.created))
    case UpCas(j, e) =>
      if e in s.heap && s.heap[e].modifying.Clear?
      then Goto(SetEntry(s, e, s.heap[e].(modifying := SetBy(t))), t, UpUnlock(j, e))
      else Goto(s, t, UpAbort)
    case UpAbort => Goto(s, t, Idle).(mutex := Free)
    case UpUnlock(j, e) => Goto(s, t, UpTouch(j, e)).(mutex := Free)
    case UpTouch(j, e) =>
      if e in s.heap then Goto(SetEntry(s, e, s.heap[e].(lastSeen := c.now)), t, UpRead(j, e)) else s
    case UpRead(j, e) => if e in s.heap then Goto(s, t, UpWrite(j, e, s.heap[e].value)) else s
    case UpWrite(j, e, was) => if e in s.heap then Store(s, t, j, e, was) else s
    case UpAdd(j, e, delta) =>
      if e in s.heap then
        Goto(SetEntry(s, e, s.heap[e].(owed := 0.0)), t, UpRelease(j, e))
          .(exported := if delta > 0.0 then Plus(s.exported, Home(j), delta) else s.exported)
      else s
    case UpRelease(j, e) =>
      if e in s.heap then Goto(SetEntry(s, e, s.heap[e].(modifying := Clear)), t, Idle) else s
  }

  /** Delete a key that was collected: its value is lost to the exported counter's base. */
  function Evict(s: State, server: string, key: string): State
    requires HasLive(s, (server, key)) && s.servers[server][key] in s.heap
  {
    s.(servers := s.servers[server := s.servers[server] - {key}],
       dropped := Plus(s.dropped, (server, key), s.heap[s.servers[server][key]].value))
  }

  function CleanStep(s: State, t: Tid, c: Choice): State
    requires t in s.threads && Cleaning(s.threads[t])
  {
    match s.threads[t]
    case ClLock(cut) => if s.mutex.Free? then Goto(s, t, ClServers(cut, s.servers.Keys)).(mutex := HeldBy(t)) else s
    case ClServers(cut, todo) =>
      if todo == {} then Goto(s, t, Idle).(mutex := Free)
      else if c.server in todo then Goto(s, t, ClKeys(cut, todo - {c.server}, c.server, MapOf(s, c.server).Keys, {}))
      else s
    case ClKeys(cut, todo, server, keys, del) =>
      if keys == {} || |del| > MAX_ENTRIES then Goto(s, t, ClDelete(cut, todo, server, del))
      else if c.key in keys && HasLive(s, (server, c.key)) && s.servers[server][c.key] in s.heap then
        var e := s.servers[server][c.key];
        if s.heap[e].modifying.Clear?
        then Goto(SetEntry(s, e, s.heap[e].(modifying := SetBy(t))), t, ClCheck(cut, todo, server, keys - {c.key}, del, c.key, e))
        else Goto(s, t, ClKeys(cut, todo, server, keys - {c.key}, del))
      else s
    case ClCheck(cut, todo, server, keys, del, key, e) =>
      if e in s.heap then
        Goto(s, t, ClDrop(cut, todo, server, keys, if s.heap[e].lastSeen < cut then del + {key} else del, key, e))
      else s
    case ClDrop(cut, todo, server, keys, del, key, e) =>
      if e in s.heap then Goto(SetEntry(s, e, s.heap[e].(modifying := Clear)), t, ClKeys(cut, todo, server, keys, del)) else s
    case ClDelete(cut, todo, server, del) =>
      if del == {} then Goto(s, t, ClServers(cut, todo))
      else if c.key in del && HasLive(s, (server, c.key)) && s.servers[server][c.key] in s.heap then
        Goto(Evict(s, server, c.key), t, ClDelete(cut, todo, server, del - {c.key}))
      else s
  }

  function Run(s: State, schedule: seq<(Tid, Choice)>): State
    decreases |schedule|
  {
    if schedule == [] then s else Run(Next(s, schedule[0].0, schedule[0].1), schedule[1..])
  }

  predicate Initial(s: State) {
    && s.mutex.Free? && s.servers == map[] && s.heap == map[] && s.created == 0
    && s.exported == map[] && s.dropped == map[]
    && forall t | t in s.threads :: s.threads[t].Idle?
  }
}
