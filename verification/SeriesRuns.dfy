/** Whole runs of one series tracker, Inc and Sweep being single steps in any order. */
module SeriesRuns {
  import Accesslog
  import AccesslogScan
  import opened SeriesTracker
  import opened Strings

  datatype Event = Attempt(labels: Labels, now: int) | Reap(cutoff: int)

  ghost function Step(s: State, max: int, e: Event): State {
    match e
    case Attempt(labels, now) => AfterInc(s, max, labels, now)
    case Reap(cutoff) => AfterSweep(s, cutoff)
  }

  /** A fresh tracker after the events. */
  ghost function Run(max: int, events: seq<Event>): State {
    if events == [] then State(map[], map[])
    else Step(Run(max, events[..|events| - 1]), max, events[|events| - 1])
  }

  /** What a caller sees of a run: which attempts were admitted, and the sweeps. */
  datatype Seen = Admitted(labels: Labels, now: int) | Refused | Swept(cutoff: int)

  ghost function Observation(max: int, events: seq<Event>): Seen
    requires events != []
  {
    match events[|events| - 1]
    case Attempt(labels, now) =>
      if Admits(Run(max, events[..|events| - 1]), max, labels) then Admitted(labels, now) else Refused
    case Reap(cutoff) => Swept(cutoff)
  }

  ghost function Observed(max: int, events: seq<Event>): seq<Seen> {
    if events == [] then [] else Observed(max, events[..|events| - 1]) + [Observation(max, events)]
  }

  datatype Life = Absent | Alive(count: nat, touched: int)

  /** One tuple's life, told from the observations alone: the admissions since it was last
      evicted, a sweep evicting it when its latest admission is older than the cutoff. */
  function LifeOf(log: seq<Seen>, labels: Labels): Life {
    if log == [] then Absent
    else NextLife(LifeOf(log[..|log| - 1], labels), log[|log| - 1], labels)
  }

  function NextLife(life: Life, o: Seen, labels: Labels): Life {
    match o
    case Admitted(l, now) => if l != labels then life else Alive(if life.Alive? then life.count + 1 else 1, now)
    case Refused => life
    case Swept(cutoff) => if life.Alive? && life.touched < cutoff then Absent else life
  }

  // ---------------------------------------------------------------- the table and the vector agree

  /** Each entry sits under the key of its own tuple. */
  ghost predicate Keyed(seen: map<string, Entry>) {
    forall key | key in seen :: Key(seen[key].labels) == key
  }

  ghost predicate Tracked(seen: map<string, Entry>, labels: Labels) {
    exists key :: key in seen && seen[key].labels == labels
  }

  /** The tracked tuples are exactly the vector's series. */
  ghost predicate Agree(s: State) {
    && Keyed(s.seen)
    && forall labels :: labels in s.vec <==> Tracked(s.seen, labels)
  }

  /** The call finds an entry of another tuple under its key. */
  ghost predicate Confused(s: State, labels: Labels) {
    Key(labels) in s.seen && s.seen[Key(labels)].labels != labels
  }

  lemma TrackedAt(seen: map<string, Entry>, labels: Labels)
    requires Keyed(seen)
    ensures Tracked(seen, labels) <==> Key(labels) in seen && seen[Key(labels)].labels == labels
  {
    hide Key, IsKey;
    if Tracked(seen, labels) {
      var key :| key in seen && seen[key].labels == labels;
      assert key == Key(labels);
    }
  }

  /** Exactly when an increment keeps table and vector in step. */
  lemma {:induction false} IncKeepsAgreementIff(s: State, max: int, labels: Labels, now: int)
    requires Agree(s)
    ensures Agree(AfterInc(s, max, labels, now)) <==> !Confused(s, labels)
  {
    hide Key, IsKey, Tracked;
    var t := AfterInc(s, max, labels, now);
    if Admits(s, max, labels) {
      assert Keyed(t.seen);
      forall l ensures Tracked(t.seen, l) <==> Tracked(s.seen, l) || (l == labels && !Confused(s, labels)) {
        TrackedAt(s.seen, l);
        TrackedAt(t.seen, l);
      }
      assert labels in t.vec;
      TrackedAt(s.seen, labels);
    }
  }

  lemma SweepKeepsAgreement(s: State, cutoff: int)
    requires Agree(s)
    ensures Agree(AfterSweep(s, cutoff))
  {
    hide Key, IsKey, Tracked, Stale;
    var t := AfterSweep(s, cutoff);
    assert Keyed(t.seen);
    forall l ensures l in t.vec <==> Tracked(t.seen, l) {
      TrackedAt(s.seen, l);
      TrackedAt(t.seen, l);
      StaleAt(s, cutoff, l);
    }
  }

  lemma StaleAt(s: State, cutoff: int, labels: Labels)
    requires Keyed(s.seen)
    ensures Stale(s, cutoff, labels) <==>
            Tracked(s.seen, labels) && Key(labels) in s.seen && s.seen[Key(labels)].lastSeen < cutoff
  {
    hide Key, IsKey;
    TrackedAt(s.seen, labels);
    if Stale(s, cutoff, labels) {
      var key :| key in s.seen && s.seen[key].labels == labels && s.seen[key].lastSeen < cutoff;
      assert key == Key(labels);
    }
  }

  /** As many series as tracked tuples. */
  lemma {:induction false} SameSize(s: State)
    requires Agree(s)
    ensures |s.vec| == |s.seen|
    decreases |s.seen|
  {
    hide Key, IsKey, Tracked;
    if key :| key in s.seen {
      var l := s.seen[key].labels;
      TrackedAt(s.seen, l);
      var t := State(s.seen - {key}, s.vec - {l});
      assert Keyed(t.seen);
      forall m ensures m in t.vec <==> Tracked(t.seen, m) {
        TrackedAt(s.seen, m);
        TrackedAt(t.seen, m);
      }
      assert t.seen.Keys == s.seen.Keys - {key} && t.vec.Keys == s.vec.Keys - {l};
      assert |t.seen.Keys| == |t.seen| && |t.vec.Keys| == |t.vec|;
      SameSize(t);
    } else {
      forall l ensures l !in s.vec {
        TrackedAt(s.seen, l);
      }
      assert s.vec == map[];
    }
  }

  // ---------------------------------------------------------------- runs

  /** Every tuple offered has the vector's label names, the separator nowhere but in the last value. */
  predicate AllFit(names: seq<string>, events: seq<Event>) {
    forall e | e in events && e.Attempt? :: Fits(names, e.labels)
  }

  /** What a run keeps: agreement, the cap, and that the tracked tuples came from the events. */
  ghost predicate Good(s: State, max: int, names: seq<string>) {
    && Agree(s)
    && |s.seen| <= (if max < 0 then 0 else max)
    && forall key | key in s.seen :: Fits(names, s.seen[key].labels)
  }

  /** The series and its last touch match the life told from the observations. */
  ghost predicate Matches(s: State, labels: Labels, life: Life) {
    if life.Absent? then labels !in s.vec
    else labels in s.vec && s.vec[labels] == life.count
         && Key(labels) in s.seen && s.seen[Key(labels)] == Entry(labels, life.touched)
  }

  lemma NotConfused(s: State, max: int, names: seq<string>, labels: Labels)
    requires Ascending(names) && Good(s, max, names) && Fits(names, labels)
    ensures !Confused(s, labels)
  {
    if Confused(s, labels) {
      KeyInjectiveInVector(names, labels, s.seen[Key(labels)].labels);
      assert false;
    }
  }

  lemma SizeAfter<V>(m: map<string, V>, key: string, v: V)
    ensures |m[key := v]| == |m| + (if key in m then 0 else 1)
  {
    assert m[key := v].Keys == m.Keys + {key};
    assert |m[key := v].Keys| == |m[key := v]| && |m.Keys| == |m|;
  }

  lemma IncKeeps(s: State, max: int, names: seq<string>, labels: Labels, now: int)
    requires Ascending(names) && Good(s, max, names) && Fits(names, labels)
    ensures Good(AfterInc(s, max, labels, now), max, names)
  {
    hide Key, IsKey, Tracked, Fits, Ascending, Bumped, Agree;
    NotConfused(s, max, names, labels);
    IncKeepsAgreementIff(s, max, labels, now);
    SizeAfter(s.seen, Key(labels), Entry(labels, now));
  }

  lemma SweepKeeps(s: State, max: int, names: seq<string>, cutoff: int)
    requires Good(s, max, names)
    ensures Good(AfterSweep(s, cutoff), max, names)
  {
    hide Key, IsKey, Tracked, Fits, Stale;
    SweepKeepsAgreement(s, cutoff);
    var t := AfterSweep(s, cutoff);
    SubsetSize(t.seen.Keys, s.seen.Keys);
    assert |t.seen.Keys| == |t.seen| && |s.seen.Keys| == |s.seen|;
  }

  lemma {:induction false} SubsetSize<T>(a: set<T>, b: set<T>)
    requires a <= b
    ensures |a| <= |b|
  {
    if x :| x in a {
      SubsetSize(a - {x}, b - {x});
    }
  }

  lemma IncMatches(s: State, max: int, names: seq<string>, l: Labels, now: int, labels: Labels, life: Life)
    requires Ascending(names) && Good(s, max, names) && Matches(s, labels, life) && Fits(names, l)
    ensures var o := if Admits(s, max, l) then Admitted(l, now) else Refused;
            Matches(AfterInc(s, max, l, now), labels, NextLife(life, o, labels))
  {
    hide Key, IsKey, Tracked, Fits, Ascending;
    NotConfused(s, max, names, l);
    TrackedAt(s.seen, labels);
  }

  lemma SweepMatches(s: State, max: int, names: seq<string>, cutoff: int, labels: Labels, life: Life)
    requires Good(s, max, names) && Matches(s, labels, life)
    ensures Matches(AfterSweep(s, cutoff), labels, NextLife(life, Swept(cutoff), labels))
  {
    hide Key, IsKey, Tracked, Fits, Stale;
    StaleAt(s, cutoff, labels);
  }

  lemma {:induction false} RunKeeps(max: int, names: seq<string>, events: seq<Event>)
    requires Ascending(names) && AllFit(names, events)
    ensures Good(Run(max, events), max, names)
    ensures forall labels :: Matches(Run(max, events), labels, LifeOf(Observed(max, events), labels))
  {
    if events != [] {
      var before, e := events[..|events| - 1], events[|events| - 1];
      assert e in events && forall x | x in before :: x in events;
      RunKeeps(max, names, before);
      var s, o, log := Run(max, before), Observation(max, events), Observed(max, before);
      match e {
        case Attempt(l, now) => IncKeeps(s, max, names, l, now);
        case Reap(cutoff) => SweepKeeps(s, max, names, cutoff);
      }
      forall labels ensures Matches(Run(max, events), labels, LifeOf(Observed(max, events), labels)) {
        match e {
          case Attempt(l, now) => IncMatches(s, max, names, l, now, labels, LifeOf(log, labels));
          case Reap(cutoff) => SweepMatches(s, max, names, cutoff, labels, LifeOf(log, labels));
        }
        assert (log + [o])[..|log + [o]| - 1] == log;
      }
    }
  }

  /** After any run: at most max tuples; exactly as many series, one per tracked tuple; and
      every series' value is the number of admitted increments since its last eviction. */
  lemma SeriesCountAdmissionsSinceEviction(max: int, names: seq<string>, events: seq<Event>, labels: Labels)
    requires Ascending(names) && AllFit(names, events)
    ensures var s := Run(max, events);
            var life := LifeOf(Observed(max, events), labels);
            && |s.vec| == |s.seen| <= (if max < 0 then 0 else max)
            && (labels in s.vec <==> Tracked(s.seen, labels))
            && (labels in s.vec <==> life.Alive?)
            && (life.Alive? ==> s.vec[labels] == life.count >= 1)
  {
    RunKeeps(max, names, events);
    SameSize(Run(max, events));
    assert Matches(Run(max, events), labels, LifeOf(Observed(max, events), labels));
    LifePositive(Observed(max, events), labels);
  }

  lemma {:induction false} LifePositive(log: seq<Seen>, labels: Labels)
    ensures LifeOf(log, labels).Alive? ==> LifeOf(log, labels).count >= 1
  {
    if log != [] {
      LifePositive(log[..|log| - 1], labels);
    }
  }

  /** An attempt is refused exactly when its tuple is not a live series and the vector is full. */
  lemma RefusedExactlyWhenFull(max: int, names: seq<string>, events: seq<Event>, labels: Labels)
    requires Ascending(names) && AllFit(names, events) && Fits(names, labels)
    ensures var s := Run(max, events);
            Admits(s, max, labels) <==> LifeOf(Observed(max, events), labels).Alive? || |s.vec| < max
  {
    var s := Run(max, events);
    RunKeeps(max, names, events);
    SameSize(s);
    NotConfused(s, max, names, labels);
    assert Matches(s, labels, LifeOf(Observed(max, events), labels));
    if Key(labels) in s.seen {
      assert Tracked(s.seen, labels);
    }
  }

  // ---------------------------------------------------------------- the three vectors

  /** A vector's label names, sorted: the user name comes last in all three. */
  function VectorNames(s: Accesslog.Stream): seq<string> {
    match s
    case Bind => ["result", "server", "user"]
    case Write => ["operation", "server", "user"]
    case Lock => ["server", "user"]
  }

  lemma VectorNamesAscend(s: Accesslog.Stream)
    ensures Ascending(VectorNames(s))
  {
    assert Less("result", "server") && Less("server", "user") && Less("operation", "server");
    LessTransitive("result", "server", "user");
    LessTransitive("operation", "server", "user");
  }

  lemma LowerKeepsSeparators(text: string)
    ensures SEP in ToLower(text) <==> SEP in text
  {
    var low := ToLower(text);
    assert forall i | 0 <= i < |text| :: (low[i] == SEP <==> text[i] == SEP);
    if SEP in text {
      var i :| 0 <= i < |text| && text[i] == SEP;
      assert low[i] in low;
    }
  }

  lemma ClassKeepsSeparators(code: string)
    ensures SEP in Accesslog.ClassifyBindResult(code) <==> SEP in code
  {
  }

  lemma PairFits(server: string, user: string)
    ensures Fits(["server", "user"], map["server" := server, "user" := user]) <==> SEP !in server
  {
    assert "server"[0] != "user"[0];
    assert ["server", "user"][0] == "server";
  }

  lemma TripleFits(name: string, server: string, extra: string, user: string)
    requires Less(name, "server") && Less(name, "user")
    ensures Fits([name, "server", "user"], map["server" := server, "user" := user, name := extra]) <==>
            SEP !in server && SEP !in extra
  {
    LessIrreflexive("server");
    LessIrreflexive("user");
    assert "server"[0] != "user"[0];
    var names := [name, "server", "user"];
    assert names[0] == name && names[1] == "server" && names[2] == "user";
  }

  /** The texts besides the server name that must be free of the separator. */
  predicate PlainFor(s: Accesslog.Stream, e: Accesslog.Entry) {
    match s
    case Bind => SEP !in Accesslog.Attr(e, "reqResult")
    case Write => SEP !in Accesslog.Attr(e, "reqType")
    case Lock => true
  }

  /** When a tuple the metric collector counts for an entry fits its vector: exactly when the
      server name and the stream's own label value are free of the separator.  The user name,
      taken from a DN, may contain anything. */
  lemma ScanTuplesFit(s: Accesslog.Stream, server: string, e: Accesslog.Entry)
    ensures Ascending(VectorNames(s))
    ensures forall labels | labels in AccesslogScan.LabelsOf(s, server, e) ::
              Fits(VectorNames(s), labels) <==> SEP !in server && PlainFor(s, e)
  {
    hide Fits, Accesslog.Attr, Accesslog.ClassifyBindResult, ToLower, Accesslog.UserName, Accesslog.HasReqModAddition;
    VectorNamesAscend(s);
    var result, type_ := Accesslog.Attr(e, "reqResult"), Accesslog.Attr(e, "reqType");
    ClassKeepsSeparators(result);
    LowerKeepsSeparators(type_);
    assert Less("result", "server") && Less("result", "user") && Less("operation", "server") && Less("operation", "user");
    forall labels | labels in AccesslogScan.LabelsOf(s, server, e)
      ensures Fits(VectorNames(s), labels) <==> SEP !in server && PlainFor(s, e)
    {
      match s {
        case Bind => TripleFits("result", server, Accesslog.ClassifyBindResult(result), labels["user"]);
        case Write => TripleFits("operation", server, ToLower(type_), labels["user"]);
        case Lock => PairFits(server, labels["user"]);
      }
    }
  }
}
