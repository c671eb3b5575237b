/** Exactly-once delivery over whole runs: entries are appended, searches succeed or fail,
    and the two consumers tick in their own ways. */
module ScanRuns {
  import opened Strings
  import opened Accesslog
  import opened AccesslogScan

  /** One stream as one consumer sees it.  `log` is what the server holds; `cursor` and
      `ready` are the bookmark.  The last three are history: the cursor left by the first
      successful scan, how much of the log the last successful scan saw, and the entries
      treated as new so far. */
  datatype Tape = Tape(log: seq<Entry>, cursor: string, ready: bool, first: string, seen: nat, delivered: seq<Entry>)

  datatype World = World(tape: map<Stream, Tape>)

  datatype Consumer = Metrics | Events

  datatype Step = Append(s: Stream, e: Entry) | Tick(binds: Answer, writes: Answer, locks: Answer)

  function AnswerFor(t: Step, s: Stream): Answer
    requires t.Tick?
  {
    match s case Bind => t.binds case Write => t.writes case Lock => t.locks
  }

  /** Does this tick search stream s?  The events collector stops at the first failure. */
  predicate Searched(c: Consumer, t: Step, s: Stream)
    requires t.Tick?
  {
    c.Metrics? || s.Bind? || (t.binds.Returned? && (s.Write? || t.writes.Returned?))
  }

  /** One stream after its search came back. */
  function Scan(p: Tape, a: Answer): Tape {
    match a
    case Failed => p
    case Returned(entries) =>
      var cursor := Highest(entries, p.cursor);
      Tape(p.log, cursor, true, if p.ready then p.first else cursor, |p.log|,
           p.delivered + Fresh(entries, p.cursor, !p.ready))
  }

  function Next(c: Consumer, p: Tape, s: Stream, t: Step): Tape {
    match t
    case Append(which, e) => if which == s then p.(log := p.log + [e]) else p
    case Tick(_, _, _) => if Searched(c, t, s) then Scan(p, AnswerFor(t, s)) else p
  }

  /** The entries of a log that the filter built from the cursor asks for. */
  function AtOrAbove(log: seq<Entry>, cursor: string): seq<Entry> {
    if log == [] then []
    else AtOrAbove(log[..|log| - 1], cursor) +
         if Matches(IncrementalFilter(cursor), log[|log| - 1]) then [log[|log| - 1]] else []
  }

  /** What the server is assumed to do: an appended entry's reqStart exceeds every earlier
      one, and a search returns, in any order, exactly the entries at or above the cursor. */
  predicate ServerKeepsItsWord(c: Consumer, p: Tape, s: Stream, t: Step) {
    match t
    case Append(which, e) =>
      which == s ==> forall i | 0 <= i < |p.log| :: Less(ReqStart(p.log[i]), ReqStart(e))
    case Tick(_, _, _) =>
      Searched(c, t, s) && AnswerFor(t, s).Returned? ==>
        multiset(AnswerFor(t, s).entries) == multiset(AtOrAbove(p.log, p.cursor))
  }

  /** A stream seeded with `now`, after a run. */
  function After(c: Consumer, s: Stream, now: string, run: seq<Step>): Tape {
    if run == [] then Tape([], now, false, "", 0, [])
    else Next(c, After(c, s, now, run[..|run| - 1]), s, run[|run| - 1])
  }

  predicate Faithful(c: Consumer, s: Stream, now: string, run: seq<Step>) {
    run != [] ==>
      && Faithful(c, s, now, run[..|run| - 1])
      && ServerKeepsItsWord(c, After(c, s, now, run[..|run| - 1]), s, run[|run| - 1])
  }

  // ---------------------------------------------------------------- what holds at every moment

  predicate Increasing(log: seq<Entry>) {
    forall i, j | 0 <= i < j < |log| :: Less(ReqStart(log[i]), ReqStart(log[j]))
  }

  /** The cursor is the highest reqStart seen, or still the first one. */
  predicate CursorFits(p: Tape) {
    p.ready ==>
      && p.seen <= |p.log| && AtMost(p.first, p.cursor)
      && (forall i | 0 <= i < p.seen :: AtMost(ReqStart(p.log[i]), p.cursor))
      && (p.cursor == p.first || exists i | 0 <= i < p.seen :: ReqStart(p.log[i]) == p.cursor)
  }

  ghost predicate NoDup(q: seq<Entry>) { forall i, j | 0 <= i < j < |q| :: q[i] != q[j] }

  /** Treated as new: exactly the seen entries above the first cursor, each once. */
  ghost predicate DeliveredFits(p: Tape) {
    && (!p.ready ==> p.delivered == [])
    && (p.ready ==> p.seen <= |p.log| && forall e :: e in p.delivered <==> e in p.log[..p.seen] && Less(p.first, ReqStart(e)))
    && NoDup(p.delivered)
  }

  ghost predicate Sound(p: Tape) {
    Increasing(p.log) && CursorFits(p) && DeliveredFits(p)
  }

  lemma {:induction false} AtOrAboveMembers(log: seq<Entry>, cursor: string)
    ensures forall e :: e in AtOrAbove(log, cursor) <==> e in log && AtMost(cursor, ReqStart(e))
    ensures Increasing(log) ==> NoDup(AtOrAbove(log, cursor))
  {
    if log != [] {
      var n := |log| - 1;
      var front := log[..n];
      AtOrAboveMembers(front, cursor);
      FilterIsInclusive(cursor, log[n]);
      assert log == front + [log[n]];
      if Increasing(log) {
        forall e | e in AtOrAbove(front, cursor) ensures e != log[n] {
          LessIrreflexive(ReqStart(e));
        }
      }
    }
  }

  /** A permutation of a sequence without repetitions has none either. */
  lemma {:induction false} NoDupIffSingle(q: seq<Entry>)
    ensures NoDup(q) <==> forall e :: multiset(q)[e] <= 1
  {
    if q != [] {
      var n := |q| - 1;
      NoDupIffSingle(q[..n]);
      assert q == q[..n] + [q[n]];
      assert multiset(q) == multiset(q[..n]) + multiset{q[n]};
      assert q[n] in q[..n] <==> multiset(q[..n])[q[n]] > 0;
      assert NoDup(q) <==> NoDup(q[..n]) && q[n] !in q[..n];
      forall e ensures multiset(q)[e] <= 1 ==> multiset(q[..n])[e] <= 1 {
      }
      assert multiset(q)[q[n]] <= 1 ==> q[n] !in q[..n];
    }
  }

  /** The entries a successful search makes new, once the stream is past its baseline. */
  lemma FreshExactly(p: Tape, entries: seq<Entry>)
    requires Increasing(p.log)
    requires multiset(entries) == multiset(AtOrAbove(p.log, p.cursor))
    ensures forall e :: e in entries <==> e in p.log && AtMost(p.cursor, ReqStart(e))
    ensures NoDup(Fresh(entries, p.cursor, !p.ready))
    ensures p.ready ==> forall e :: e in Fresh(entries, p.cursor, false) <==> e in p.log && Less(p.cursor, ReqStart(e))
    ensures !p.ready ==> Fresh(entries, p.cursor, true) == []
  {
    hide Fresh, AtOrAbove, NoDup, Increasing, ReqStart;
    var answer := AtOrAbove(p.log, p.cursor);
    AtOrAboveMembers(p.log, p.cursor);
    NoDupIffSingle(answer);
    FreshMembers(entries, p.cursor, !p.ready);
    forall e ensures e in entries <==> e in answer {
      assert e in entries <==> e in multiset(entries);
      assert e in answer <==> e in multiset(answer);
    }
    var f := Fresh(entries, p.cursor, !p.ready);
    forall e ensures multiset(f)[e] <= 1 {
      assert multiset(answer)[e] <= 1;
    }
    NoDupIffSingle(f);
    LessIrreflexive(p.cursor);
    assert f != [] ==> f[0] in f;
  }

  /** The cursor after a successful search. */
  lemma CursorMoves(p: Tape, entries: seq<Entry>)
    requires Increasing(p.log)
    requires forall e :: e in entries <==> e in p.log && AtMost(p.cursor, ReqStart(e))
    ensures var h := Highest(entries, p.cursor);
            && AtMost(p.cursor, h)
            && (forall e | e in p.log :: AtMost(ReqStart(e), h))
            && (h == p.cursor || exists e | e in p.log :: ReqStart(e) == h)
  {
    var h := Highest(entries, p.cursor);
    HighestIsMaximum(entries, p.cursor);
    forall e | e in p.log ensures AtMost(ReqStart(e), h) {
      LessTotal(ReqStart(e), p.cursor);
      if Less(ReqStart(e), p.cursor) && p.cursor != h {
        LessTransitive(ReqStart(e), p.cursor, h);
      }
    }
  }

  lemma CursorStays(p: Tape, entries: seq<Entry>)
    requires Sound(p) && multiset(entries) == multiset(AtOrAbove(p.log, p.cursor))
    ensures CursorFits(Scan(p, Returned(entries)))
  {
    FreshExactly(p, entries);
    CursorMoves(p, entries);
    var q := Scan(p, Returned(entries));
    if p.ready && p.first != p.cursor && p.cursor != q.cursor {
      LessTransitive(p.first, p.cursor, q.cursor);
    }
    if q.cursor != p.cursor {
      var e :| e in p.log && ReqStart(e) == q.cursor;
      var i :| 0 <= i < |p.log| && p.log[i] == e;
    }
  }

  /** What lies above the first cursor and was not seen before lies above the cursor. */
  lemma UnseenIsAbove(p: Tape, e: Entry)
    requires Sound(p) && p.ready && e in p.log
    ensures Less(p.cursor, ReqStart(e)) <==> e !in p.log[..p.seen] && Less(p.first, ReqStart(e))
  {
    var r := ReqStart(e);
    var i :| 0 <= i < |p.log| && p.log[i] == e;
    if i < p.seen {
      assert p.log[..p.seen][i] == e;
      if Less(p.cursor, r) {
        assert AtMost(ReqStart(p.log[i]), p.cursor);
        if r != p.cursor { LessTransitive(p.cursor, r, p.cursor); }
        LessIrreflexive(p.cursor);
      }
    } else {
      if e in p.log[..p.seen] {
        var j :| 0 <= j < p.seen && p.log[j] == e;
        LessIrreflexive(r);
      }
      if Less(p.first, r) && p.cursor != p.first {
        var k :| 0 <= k < p.seen && ReqStart(p.log[k]) == p.cursor;
        assert Less(ReqStart(p.log[k]), ReqStart(p.log[i]));
      }
      if Less(p.cursor, r) && p.first != p.cursor {
        LessTransitive(p.first, p.cursor, r);
      }
    }
  }

  lemma DeliveredStays(p: Tape, entries: seq<Entry>)
    requires Sound(p) && multiset(entries) == multiset(AtOrAbove(p.log, p.cursor))
    ensures DeliveredFits(Scan(p, Returned(entries)))
  {
    FreshExactly(p, entries);
    CursorMoves(p, entries);
    var q := Scan(p, Returned(entries));
    var f := Fresh(entries, p.cursor, !p.ready);
    assert q.log[..q.seen] == p.log;
    if p.ready {
      forall e ensures e in q.delivered <==> e in p.log && Less(p.first, ReqStart(e)) {
        if e in p.log { UnseenIsAbove(p, e); }
        if e in p.log[..p.seen] { assert e in p.log; }
      }
      forall e | e in p.delivered && e in f ensures false {
        UnseenIsAbove(p, e);
      }
      NoDupConcat(p.delivered, f);
    } else {
      assert q.delivered == [];
      forall e | e in p.log ensures !Less(q.first, ReqStart(e)) {
        assert AtMost(ReqStart(e), q.cursor);
        if Less(q.cursor, ReqStart(e)) {
          if ReqStart(e) != q.cursor { LessTransitive(q.cursor, ReqStart(e), q.cursor); }
          LessIrreflexive(q.cursor);
        }
      }
    }
  }

  lemma NoDupConcat(a: seq<Entry>, b: seq<Entry>)
    requires NoDup(a) && NoDup(b) && forall e | e in a :: e !in b
    ensures NoDup(a + b)
  {
    forall i, j | 0 <= i < j < |a + b| ensures (a + b)[i] != (a + b)[j] {
      if i < |a| <= j {
        assert a[i] in a && b[j - |a|] in b;
      }
    }
  }

  lemma StepKeeps(c: Consumer, p: Tape, s: Stream, t: Step)
    requires Sound(p) && ServerKeepsItsWord(c, p, s, t)
    ensures Sound(Next(c, p, s, t))
    ensures p.ready ==> Next(c, p, s, t).ready && Next(c, p, s, t).first == p.first
    ensures AtMost(p.cursor, Next(c, p, s, t).cursor)
  {
    match t
    case Append(which, e) =>
      if which == s && p.ready {
        var q := Next(c, p, s, t);
        assert q.log[..p.seen] == p.log[..p.seen];
      }
    case Tick(_, _, _) =>
      if Searched(c, t, s) && AnswerFor(t, s).Returned? {
        var entries := AnswerFor(t, s).entries;
        CursorStays(p, entries);
        DeliveredStays(p, entries);
        HighestIsMaximum(entries, p.cursor);
      }
  }

  lemma {:induction false} RunKeeps(c: Consumer, s: Stream, now: string, run: seq<Step>)
    requires Faithful(c, s, now, run)
    ensures Sound(After(c, s, now, run))
  {
    if run != [] {
      RunKeeps(c, s, now, run[..|run| - 1]);
      StepKeeps(c, After(c, s, now, run[..|run| - 1]), s, run[|run| - 1]);
    }
  }

  // ---------------------------------------------------------------- the promises

  /** Over any run, a stream treats as new exactly the entries present at its last
      successful scan whose reqStart exceeds the cursor left by its first successful scan,
      each once. */
  lemma {:induction false} ExactlyOnce(c: Consumer, s: Stream, now: string, run: seq<Step>)
    requires Faithful(c, s, now, run)
    ensures var p := After(c, s, now, run);
            && p.seen <= |p.log|
            && (forall e :: e in p.delivered <==> p.ready && e in p.log[..p.seen] && Less(p.first, ReqStart(e)))
            && (forall e | e in p.delivered :: multiset(p.delivered)[e] == 1)
  {
    RunKeeps(c, s, now, run);
    var p := After(c, s, now, run);
    SeenWithinLog(c, s, now, run);
    NoDupIffSingle(p.delivered);
    forall e | e in p.delivered ensures multiset(p.delivered)[e] == 1 {
      assert multiset(p.delivered)[e] > 0;
    }
  }

  lemma {:induction false} SeenWithinLog(c: Consumer, s: Stream, now: string, run: seq<Step>)
    ensures After(c, s, now, run).seen <= |After(c, s, now, run).log|
  {
    if run != [] { SeenWithinLog(c, s, now, run[..|run| - 1]); }
  }

  /** Cursors never move back, and the reference point never changes. */
  lemma {:induction false} CursorNeverMovesBack(c: Consumer, s: Stream, now: string, run: seq<Step>, i: nat)
    requires Faithful(c, s, now, run) && i <= |run|
    ensures AtMost(After(c, s, now, run[..i]).cursor, After(c, s, now, run).cursor)
    ensures After(c, s, now, run[..i]).ready ==> After(c, s, now, run).first == After(c, s, now, run[..i]).first
    ensures After(c, s, now, run[..i]).ready ==> After(c, s, now, run).ready
  {
    if i == |run| {
      assert run[..i] == run;
    } else {
      var front := run[..|run| - 1];
      CursorNeverMovesBack(c, s, now, front, i);
      assert front[..i] == run[..i];
      RunKeeps(c, s, now, front);
      StepKeeps(c, After(c, s, now, front), s, run[|run| - 1]);
      var x, y, z := After(c, s, now, run[..i]).cursor, After(c, s, now, front).cursor, After(c, s, now, run).cursor;
      if x != y && y != z { LessTransitive(x, y, z); }
    }
  }

  /** The two steps are the same as far as stream s of the metric collector can tell. */
  predicate SameFor(s: Stream, t: Step, t': Step) {
    match (t, t')
    case (Append(x, e), Append(y, f)) => (x == s || y == s) ==> t == t'
    case (Tick(_, _, _), Tick(_, _, _)) => AnswerFor(t, s) == AnswerFor(t', s)
    case _ => false
  }

  /** Over whole runs the metric collector's streams are independent: whatever happens to the
      other two, this one ends with the same cursor and the same deliveries. */
  lemma {:induction false} MetricStreamsAreIndependent(s: Stream, now: string, run: seq<Step>, run': seq<Step>)
    requires |run| == |run'| && forall i | 0 <= i < |run| :: SameFor(s, run[i], run'[i])
    ensures After(Metrics, s, now, run) == After(Metrics, s, now, run')
  {
    if run != [] {
      var n := |run| - 1;
      MetricStreamsAreIndependent(s, now, run[..n], run'[..n]);
      assert SameFor(s, run[n], run'[n]);
    }
  }

  /** A tick that did not search the stream, or whose search failed, leaves no trace: the
      whole run ends as if it had not happened. */
  lemma {:induction false} FailedTickLeavesNoTrace(c: Consumer, s: Stream, now: string, a: seq<Step>, t: Step, b: seq<Step>)
    requires t.Tick? && (!Searched(c, t, s) || AnswerFor(t, s).Failed?)
    ensures After(c, s, now, a + [t] + b) == After(c, s, now, a + b)
  {
    if b == [] {
      assert a + [t] + b == a + [t] && a + b == a;
      assert (a + [t])[..|a|] == a;
    } else {
      var n := |b| - 1;
      FailedTickLeavesNoTrace(c, s, now, a, t, b[..n]);
      assert (a + [t] + b)[..|a| + 1 + n] == a + [t] + b[..n];
      assert (a + b)[..|a| + n] == a + b[..n];
    }
  }

  /** The machine is what the two collectors' methods do to a stream's bookmark, and what it
      calls delivered is what they turn into events or label tuples. */
  lemma {:induction false} ScanIsTheCollectors(p: Tape, s: Stream, server: string, a: Answer)
    ensures (Scan(p, a).cursor, Scan(p, a).ready) == Moved((p.cursor, p.ready), a)
    ensures AllEvents(s, server, Scan(p, a).delivered) == AllEvents(s, server, p.delivered) + EventsNow(s, server, (p.cursor, p.ready), a)
    ensures AllLabels(s, server, Scan(p, a).delivered) == AllLabels(s, server, p.delivered) + LabelsNow(s, server, (p.cursor, p.ready), a)
  {
    if a.Returned? {
      AllConcat(s, server, p.delivered, Fresh(a.entries, p.cursor, !p.ready));
    }
  }

  lemma AllConcat(s: Stream, server: string, a: seq<Entry>, b: seq<Entry>)
    ensures AllEvents(s, server, a + b) == AllEvents(s, server, a) + AllEvents(s, server, b)
    ensures AllLabels(s, server, a + b) == AllLabels(s, server, a) + AllLabels(s, server, b)
  {
    hide AllEvents, AllLabels;
    EventsConcat(s, server, a, b);
    LabelsConcat(s, server, a, b);
  }

  lemma {:induction false} EventsConcat(s: Stream, server: string, a: seq<Entry>, b: seq<Entry>)
    ensures AllEvents(s, server, a + b) == AllEvents(s, server, a) + AllEvents(s, server, b)
  {
    hide EventsOf;
    if b == [] {
      assert a + b == a;
    } else {
      var n := |b| - 1;
      EventsConcat(s, server, a, b[..n]);
      assert (a + b)[..|a + b| - 1] == a + b[..n];
    }
  }

  lemma {:induction false} LabelsConcat(s: Stream, server: string, a: seq<Entry>, b: seq<Entry>)
    ensures AllLabels(s, server, a + b) == AllLabels(s, server, a) + AllLabels(s, server, b)
  {
    hide LabelsOf;
    if b == [] {
      assert a + b == a;
    } else {
      var n := |b| - 1;
      LabelsConcat(s, server, a, b[..n]);
      assert (a + b)[..|a + b| - 1] == a + b[..n];
    }
  }
}
