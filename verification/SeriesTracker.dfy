/** The accesslog series tracker: a capped, swept table of label tuples beside a counter
    vector, indexed by a serialised key. */
module SeriesTracker {
  import opened Strings

  type Labels = map<string, string>

  const SEP: char := '\U{1F}'

  // ---------------------------------------------------------------- the key

  predicate Ascending(names: seq<string>) { forall i, j | 0 <= i < j < |names| :: Less(names[i], names[j]) }

  /** sort.Strings, as an insertion sort. */
  function SortStrings(q: seq<string>): seq<string> {
    if q == [] then [] else Insert(SortStrings(q[1..]), q[0])
  }

  function Insert(q: seq<string>, x: string): seq<string> {
    if q == [] || Less(x, q[0]) then [x] + q else [q[0]] + Insert(q[1..], x)
  }

  function Elems(q: seq<string>): set<string> { set x | x in q }

  predicate Distinct(q: seq<string>) { forall i, j | 0 <= i < j < |q| :: q[i] != q[j] }

  lemma ElemsSnoc(q: seq<string>, x: string)
    ensures Elems(q + [x]) == Elems(q) + {x}
    ensures Distinct(q) && x !in Elems(q) ==> Distinct(q + [x])
  {
    assert forall i | 0 <= i < |q| :: q[i] in Elems(q);
  }

  lemma {:induction false} InsertAscending(q: seq<string>, x: string)
    requires Ascending(q) && x !in q
    ensures Ascending(Insert(q, x)) && Elems(Insert(q, x)) == Elems(q) + {x}
  {
    if q == [] || Less(x, q[0]) {
      forall i | 0 <= i < |q| ensures Less(x, q[i]) {
        if i > 0 { LessTransitive(x, q[0], q[i]); }
      }
    } else {
      var r := Insert(q[1..], x);
      InsertAscending(q[1..], x);
      assert q == [q[0]] + q[1..];
      LessTotal(x, q[0]);
      forall i | 0 <= i < |r| ensures Less(q[0], r[i]) {
        assert r[i] in Elems(r);
      }
    }
  }

  lemma {:induction false} SortAscending(q: seq<string>)
    requires Distinct(q)
    ensures Ascending(SortStrings(q)) && Elems(SortStrings(q)) == Elems(q)
  {
    if q != [] {
      SortAscending(q[1..]);
      assert q == [q[0]] + q[1..];
      assert q[0] !in Elems(q[1..]);
      assert forall x :: x in SortStrings(q[1..]) <==> x in Elems(SortStrings(q[1..]));
      InsertAscending(SortStrings(q[1..]), q[0]);
    }
  }

  /** There is only one ascending enumeration of a set of names. */
  lemma {:induction false} AscendingUnique(a: seq<string>, b: seq<string>)
    requires Ascending(a) && Ascending(b) && Elems(a) == Elems(b)
    ensures a == b
  {
    NoElems(a);
    NoElems(b);
    if a != [] {
      HeadIsLeast(a, b);
      HeadIsLeast(b, a);
      assert a[0] == b[0] by {
        if a[0] != b[0] { LessTransitive(a[0], b[0], a[0]); LessIrreflexive(a[0]); }
      }
      TailElems(a);
      TailElems(b);
      AscendingUnique(a[1..], b[1..]);
      assert a == [a[0]] + a[1..] && b == [b[0]] + b[1..];
    }
  }

  lemma NoElems(q: seq<string>)
    ensures Elems(q) == {} <==> q == []
  {
    assert q != [] ==> q[0] in Elems(q);
  }

  lemma HeadIsLeast(a: seq<string>, b: seq<string>)
    requires Ascending(a) && a != [] && b != [] && b[0] in Elems(a)
    ensures AtMost(a[0], b[0])
  {
    var i :| 0 <= i < |a| && a[i] == b[0];
  }

  lemma TailElems(a: seq<string>)
    requires Ascending(a) && a != []
    ensures Elems(a[1..]) == Elems(a) - {a[0]}
  {
    assert a == [a[0]] + a[1..];
    forall x | x in a[1..] ensures x != a[0] {
      LessIrreflexive(a[0]);
    }
  }

  function Pair(labels: Labels, name: string): string
    requires name in labels
  { name + "=" + labels[name] }

  /** name=value pairs in the given order, separated by SEP. */
  function Joined(labels: Labels, names: seq<string>): string
    requires forall n | n in names :: n in labels
  {
    if names == [] then ""
    else if |names| == 1 then Pair(labels, names[0])
    else Pair(labels, names[0]) + [SEP] + Joined(labels, names[1..])
  }

  lemma {:induction false} JoinedSnoc(labels: Labels, names: seq<string>, n: string)
    requires n in labels && forall m | m in names :: m in labels
    ensures Joined(labels, names + [n]) ==
            Joined(labels, names) + (if names == [] then "" else [SEP]) + Pair(labels, n)
  {
    if names == [] {
      assert names + [n] == [n];
    } else {
      assert (names + [n])[1..] == names[1..] + [n];
      JoinedSnoc(labels, names[1..], n);
      if |names| == 1 {
        assert names[1..] == [];
      }
    }
  }

  /** What labelKey returns: one ascending enumeration decides it. */
  ghost predicate IsKey(labels: Labels, key: string) {
    exists names: seq<string> :: Ascending(names) && Elems(names) == labels.Keys && EnumeratedBy(labels, names, key)
  }

  predicate EnumeratedBy(labels: Labels, names: seq<string>, key: string) {
    (forall n | n in names :: n in labels) && key == Joined(labels, names)
  }

  ghost function Key(labels: Labels): (key: string)
    ensures IsKey(labels, key)
  {
    KeyExists(labels);
    var key :| IsKey(labels, key);
    key
  }

  lemma {:induction false} Enumerate(s: set<string>) returns (names: seq<string>)
    ensures Ascending(names) && Elems(names) == s
  {
    names := [];
    if s != {} {
      var x :| x in s;
      var rest := Enumerate(s - {x});
      assert forall y :: y in rest <==> y in Elems(rest);
      InsertAscending(rest, x);
      names := Insert(rest, x);
    }
  }

  lemma KeyExists(labels: Labels)
    ensures exists key :: IsKey(labels, key)
  {
    var names := Enumerate(labels.Keys);
    forall n | n in names ensures n in labels {
      assert n in Elems(names);
    }
    assert EnumeratedBy(labels, names, Joined(labels, names));
    assert IsKey(labels, Joined(labels, names));
  }

  lemma KeyIs(labels: Labels, names: seq<string>)
    requires Ascending(names) && Elems(names) == labels.Keys
    ensures (forall n | n in names :: n in labels) && Key(labels) == Joined(labels, names)
  {
    forall n | n in names ensures n in labels {
      assert n in Elems(names);
    }
    var other: seq<string> :| Ascending(other) && Elems(other) == labels.Keys && EnumeratedBy(labels, other, Key(labels));
    AscendingUnique(names, other);
  }

  /** The names of a map, in whatever order it gives them. */
  method GatherNames(labels: Labels) returns (names: seq<string>)
    ensures Distinct(names) && Elems(names) == labels.Keys
  {
    names := [];
    var todo := labels.Keys;
    while todo != {}
      invariant todo <= labels.Keys && Elems(names) == labels.Keys - todo && Distinct(names)
      decreases todo
    {
      var k :| k in todo;
      ElemsSnoc(names, k);
      names := names + [k];
      todo := todo - {k};
    }
  }

  method BuildKey(labels: Labels, names: seq<string>) returns (text: string)
    requires forall n | n in names :: n in labels
    ensures text == Joined(labels, names)
  {
    text := "";
    for i := 0 to |names|
      invariant text == Joined(labels, names[..i])
    {
      JoinedSnoc(labels, names[..i], names[i]);
      assert names[..i] + [names[i]] == names[..i + 1];
      if i > 0 {
        text := text + [SEP];
      }
      text := text + Pair(labels, names[i]);
    }
    assert names[..|names|] == names;
  }

  /** labelKey: gather the names, sort them, build the text. */
  method LabelKey(labels: Labels) returns (key: string)
    ensures key == Key(labels)
  {
    var names := GatherNames(labels);
    SortAscending(names);
    KeyIs(labels, SortStrings(names));
    key := BuildKey(labels, SortStrings(names));
  }

  // ---------------------------------------------------------------- when keys tell tuples apart

  /** Names without '=' or SEP, values without SEP. */
  predicate Clean(labels: Labels) {
    forall n | n in labels :: '=' !in n && SEP !in n && SEP !in labels[n]
  }

  /** A string up to its first c is determined by the whole. */
  lemma CutAt(a: string, b: string, x: string, y: string, c: char)
    requires c !in a && c !in b && a + [c] + x == b + [c] + y
    ensures a == b && x == y
  {
    var s, t := a + [c] + x, b + [c] + y;
    IndexByteAt(s, c, |a|);
    IndexByteAt(t, c, |b|);
    assert s[..|a|] == a && t[..|b|] == b;
    assert s[|a| + 1..] == x && t[|b| + 1..] == y;
  }

  lemma JoinedShape(labels: Labels, names: seq<string>)
    requires Clean(labels) && forall n | n in names :: n in labels
    ensures names == [] <==> Joined(labels, names) == ""
    ensures |names| > 1 <==> SEP in Joined(labels, names)
    ensures names != [] ==> SEP !in Pair(labels, names[0])
  {
    if names != [] {
      assert '=' in Pair(labels, names[0]);
    }
  }

  lemma {:induction false} JoinedInjective(a: Labels, b: Labels, ns: seq<string>, ms: seq<string>)
    requires Clean(a) && Clean(b)
    requires (forall n | n in ns :: n in a) && (forall m | m in ms :: m in b) && Joined(a, ns) == Joined(b, ms)
    ensures ns == ms && forall n | n in ns :: n in b && a[n] == b[n]
  {
    JoinedShape(a, ns);
    JoinedShape(b, ms);
    if ns != [] {
      var n, m := ns[0], ms[0];
      if |ns| > 1 {
        CutAt(Pair(a, n), Pair(b, m), Joined(a, ns[1..]), Joined(b, ms[1..]), SEP);
        JoinedInjective(a, b, ns[1..], ms[1..]);
      } else {
        assert ns[1..] == ms[1..] == [];
      }
      CutAt(n, m, a[n], b[m], '=');
      assert ns == [n] + ns[1..] && ms == [m] + ms[1..];
    }
  }

  /** labelKey is injective on clean label tuples, whatever names they use. */
  lemma KeyInjective(a: Labels, b: Labels)
    requires Clean(a) && Clean(b) && Key(a) == Key(b)
    ensures a == b
  {
    var ns := Enumerate(a.Keys);
    var ms := Enumerate(b.Keys);
    KeyIs(a, ns);
    KeyIs(b, ms);
    JoinedInjective(a, b, ns, ms);
    assert a.Keys == b.Keys;
    forall n | n in a ensures a[n] == b[n] {
      assert n in Elems(ns);
    }
  }

  /** A tuple of a vector with these label names (ascending): only the value of the last
      name may contain the separator. */
  predicate Fits(names: seq<string>, labels: Labels) {
    && labels.Keys == Elems(names)
    && forall i | 0 <= i < |names| - 1 :: names[i] in labels && SEP !in labels[names[i]]
  }

  lemma {:induction false} JoinedSameNames(a: Labels, b: Labels, names: seq<string>)
    requires forall n | n in names :: n in a && n in b
    requires forall i | 0 <= i < |names| - 1 :: SEP !in a[names[i]] && SEP !in b[names[i]]
    requires Joined(a, names) == Joined(b, names)
    ensures forall n | n in names :: a[n] == b[n]
  {
    if names != [] {
      var n := names[0];
      assert names == [n] + names[1..];
      var head := n + "=";
      if |names| == 1 {
        assert a[n] == Joined(a, names)[|head|..] && b[n] == Joined(b, names)[|head|..];
      } else {
        var x, y := Joined(a, names[1..]), Joined(b, names[1..]);
        assert a[n] + [SEP] + x == Joined(a, names)[|head|..];
        assert b[n] + [SEP] + y == Joined(b, names)[|head|..];
        CutAt(a[n], b[n], x, y, SEP);
        JoinedSameNames(a, b, names[1..]);
      }
    }
  }

  /** Within one vector the key is injective even when the last value, the user name taken
      from a DN, contains anything. */
  lemma KeyInjectiveInVector(names: seq<string>, a: Labels, b: Labels)
    requires Ascending(names) && Fits(names, a) && Fits(names, b) && Key(a) == Key(b)
    ensures a == b
  {
    KeyIs(a, names);
    KeyIs(b, names);
    JoinedSameNames(a, b, names);
    forall n | n in a ensures a[n] == b[n] {
      assert n in Elems(names);
    }
  }

  lemma JoinedTwo(labels: Labels, n: string, m: string)
    requires n in labels && m in labels
    ensures Joined(labels, [n, m]) == Pair(labels, n) + [SEP] + Pair(labels, m)
  {
    assert [n, m][1..] == [m];
  }

  lemma Regroup(n: string, x: string, m: string, y: string, z: string, eq: string)
    ensures n + eq + (x + [SEP] + m + eq + y) + [SEP] + (m + eq + z) ==
            n + eq + x + [SEP] + (m + eq + (y + [SEP] + m + eq + z))
  {
  }

  /** A separator in an earlier value does confuse two tuples, for any names and rests. */
  lemma SeparatorCollides(n: string, m: string, x: string, y: string, z: string)
    requires Less(n, m)
    ensures var a: Labels := map[n := x + [SEP] + m + "=" + y, m := z];
            var b: Labels := map[n := x, m := y + [SEP] + m + "=" + z];
            a != b && Key(a) == Key(b)
  {
    var a: Labels := map[n := x + [SEP] + m + "=" + y, m := z];
    var b: Labels := map[n := x, m := y + [SEP] + m + "=" + z];
    LessIrreflexive(n);
    hide Less, Joined;
    var names := [n, m];
    assert Elems(names) == a.Keys == b.Keys;
    KeyIs(a, names);
    KeyIs(b, names);
    JoinedTwo(a, n, m);
    JoinedTwo(b, n, m);
    Regroup(n, x, m, y, z, "=");
    assert |a[m]| != |b[m]|;
  }

  // ---------------------------------------------------------------- the tracker

  datatype Entry = Entry(labels: Labels, lastSeen: int)

  /** The table of tracked tuples and the counter vector beside it. */
  datatype State = State(seen: map<string, Entry>, vec: map<Labels, nat>)

  /** CounterVec.With(labels).Inc(): a series starts at 0. */
  function Bumped(vec: map<Labels, nat>, labels: Labels): map<Labels, nat> {
    vec[labels := (if labels in vec then vec[labels] else 0) + 1]
  }

  ghost predicate Admits(s: State, max: int, labels: Labels) {
    Key(labels) in s.seen || |s.seen| < max
  }

  ghost function AfterInc(s: State, max: int, labels: Labels, now: int): State {
    var key := Key(labels);
    if key in s.seen then State(s.seen[key := Entry(s.seen[key].labels, now)], Bumped(s.vec, labels))
    else if |s.seen| >= max then s
    else State(s.seen[key := Entry(labels, now)], Bumped(s.vec, labels))
  }

  ghost predicate Stale(s: State, cutoff: int, labels: Labels) {
    exists key :: key in s.seen && s.seen[key].labels == labels && s.seen[key].lastSeen < cutoff
  }

  ghost function AfterSweep(s: State, cutoff: int): State {
    State(map key | key in s.seen && s.seen[key].lastSeen >= cutoff :: s.seen[key],
          map labels | labels in s.vec && !Stale(s, cutoff, labels) :: s.vec[labels])
  }

  class AccesslogSeriesTracker {
    var seen: map<string, Entry>
    var vec: map<Labels, nat>
    const maxEntries: int

    ghost function Now(): State
      reads this
    { State(seen, vec) }

    constructor (max: int)
      ensures Now() == State(map[], map[]) && maxEntries == max
    {
      seen, vec, maxEntries := map[], map[], max;
    }

    method Inc(labels: Labels, now: int) returns (ok: bool)
      modifies this
      ensures ok <==> Admits(old(Now()), maxEntries, labels)
      ensures Now() == AfterInc(old(Now()), maxEntries, labels, now)
    {
      var key := LabelKey(labels);
      if key in seen {
        seen := seen[key := seen[key].(lastSeen := now)];
        vec := Bumped(vec, labels);
        return true;
      }
      if |seen| >= maxEntries {
        return false;
      }
      seen := seen[key := Entry(labels, now)];
      vec := Bumped(vec, labels);
      return true;
    }

    /** First every stale entry leaves the table, then each of their series leaves the vector. */
    method Sweep(now: int, ttl: int) returns (removed: nat)
      modifies this
      ensures Now() == AfterSweep(old(Now()), now - ttl)
      ensures removed == |old(seen)| - |seen|
    {
      hide Without, Collected, Stale;
      var cutoff := now - ttl;
      ghost var was := vec;
      var toDelete := RemoveStale(cutoff);
      removed := |toDelete|;
      assert vec == Without(was, toDelete, 0) by { DeleteNone(was, toDelete); }
      for i := 0 to |toDelete|
        invariant seen == AfterSweep(old(Now()), cutoff).seen
        invariant vec == Without(was, toDelete, i)
      {
        DeleteOne(was, toDelete, i);
        vec := vec - {toDelete[i].labels};
      }
      StaleListed(old(Now()), cutoff, toDelete);
    }

    method RemoveStale(cutoff: int) returns (toDelete: seq<Entry>)
      modifies `seen
      ensures seen == AfterSweep(old(Now()), cutoff).seen
      ensures Lists(old(Now()), cutoff, toDelete) && |toDelete| == |old(seen)| - |seen|
    {
      hide Collected, Kept, Stale;
      ghost var was := seen;
      toDelete := [];
      var todo := seen.Keys;
      NothingVisited(was, cutoff);
      while todo != {}
        invariant todo <= was.Keys && seen == Kept(was, todo, cutoff)
        invariant Collected(was, was.Keys - todo, cutoff, toDelete)
        invariant |toDelete| == |was| - |seen|
        decreases todo
      {
        var key :| key in todo;
        VisitOne(was, todo, cutoff, key);
        CollectedStep(was, was.Keys - todo, cutoff, toDelete, key);
        if seen[key].lastSeen < cutoff {
          toDelete := toDelete + [seen[key]];
          seen := seen - {key};
        }
        todo := todo - {key};
      }
      AllVisited(State(was, vec), cutoff);
    }
  }

  /** The table in the middle of a sweep that has still to visit the keys in todo. */
  function Kept(seen: map<string, Entry>, todo: set<string>, cutoff: int): map<string, Entry> {
    map key | key in seen && (key in todo || seen[key].lastSeen >= cutoff) :: seen[key]
  }

  lemma NothingVisited(seen: map<string, Entry>, cutoff: int)
    ensures Kept(seen, seen.Keys, cutoff) == seen && Collected(seen, seen.Keys - seen.Keys, cutoff, [])
  {
  }

  lemma VisitOne(seen: map<string, Entry>, todo: set<string>, cutoff: int, key: string)
    requires key in todo && todo <= seen.Keys
    ensures var kept := Kept(seen, todo, cutoff);
            && key in kept && kept[key] == seen[key]
            && Kept(seen, todo - {key}, cutoff) == (if seen[key].lastSeen < cutoff then kept - {key} else kept)
            && |kept - {key}| == |kept| - 1
            && seen.Keys - (todo - {key}) == seen.Keys - todo + {key}
  {
    var kept := Kept(seen, todo, cutoff);
    assert (kept - {key}).Keys == kept.Keys - {key};
    assert |kept.Keys| == |kept| && |(kept - {key}).Keys| == |kept - {key}|;
  }

  lemma AllVisited(s: State, cutoff: int)
    ensures Kept(s.seen, {}, cutoff) == AfterSweep(s, cutoff).seen
    ensures s.seen.Keys - {} == s.seen.Keys
  {
  }

  /** The vector with the first i listed tuples deleted. */
  function Without(vec: map<Labels, nat>, listed: seq<Entry>, i: nat): map<Labels, nat>
    requires i <= |listed|
  {
    map labels | labels in vec && forall j | 0 <= j < i :: listed[j].labels != labels :: vec[labels]
  }

  /** The list holds exactly the stale entries found under the keys already visited. */
  ghost predicate Collected(seen: map<string, Entry>, done: set<string>, cutoff: int, listed: seq<Entry>) {
    && (forall e | e in listed :: exists key :: key in done && key in seen && seen[key] == e && e.lastSeen < cutoff)
    && (forall key | key in done && key in seen && seen[key].lastSeen < cutoff :: seen[key] in listed)
  }

  ghost predicate Lists(s: State, cutoff: int, listed: seq<Entry>) {
    Collected(s.seen, s.seen.Keys, cutoff, listed)
  }

  lemma CollectedStep(seen: map<string, Entry>, done: set<string>, cutoff: int, listed: seq<Entry>, key: string)
    requires key in seen && Collected(seen, done, cutoff, listed)
    ensures Collected(seen, done + {key}, cutoff,
                      if seen[key].lastSeen < cutoff then listed + [seen[key]] else listed)
  {
  }

  lemma DeleteNone(vec: map<Labels, nat>, listed: seq<Entry>)
    ensures Without(vec, listed, 0) == vec
  {
  }

  lemma DeleteOne(vec: map<Labels, nat>, listed: seq<Entry>, i: nat)
    requires i < |listed|
    ensures Without(vec, listed, i + 1) == Without(vec, listed, i) - {listed[i].labels}
  {
  }

  lemma StaleListed(s: State, cutoff: int, listed: seq<Entry>)
    requires Lists(s, cutoff, listed)
    ensures Without(s.vec, listed, |listed|) == AfterSweep(s, cutoff).vec
  {
    forall labels | labels in s.vec
      ensures Stale(s, cutoff, labels) <==> exists j :: 0 <= j < |listed| && listed[j].labels == labels
    {
      if Stale(s, cutoff, labels) {
        var key :| key in s.seen && s.seen[key].labels == labels && s.seen[key].lastSeen < cutoff;
        assert s.seen[key] in listed;
      } else if exists j :: 0 <= j < |listed| && listed[j].labels == labels {
        var j :| 0 <= j < |listed| && listed[j].labels == labels;
        assert listed[j] in listed;
      }
    }
  }
}
