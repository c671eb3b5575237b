/** The two consumers of the accesslog: the JSON events collector, which stops at the first
    failing stream, and the metric collector, which carries on.  A search either fails
    or returns entries in some order. */
module AccesslogScan {
  import opened Strings
  import opened Accesslog

  datatype Answer = Failed | Returned(entries: seq<Entry>)

  datatype EventType =
    | BindSuccess | BindFailure | AccountLock | AccountUnlock | PasswordChange | PasswordResetRequired
    | WriteAdd | WriteModify | WriteDelete | WriteModRDN

  datatype Event = Event(
    event: EventType, server: string, reqStart: string, reqSession: string, actor: string,
    userDN: string, targetDN: string, result: string, resultCode: string,
    operation: string, attributes: seq<string>)

  type Labels = map<string, string>

  // ---------------------------------------------------------------- one entry

  datatype WriteOp = Known(t: EventType) | Unknown

  function MapWriteOp(opType: string): WriteOp {
    match ToLower(opType)
    case "add" => Known(WriteAdd)
    case "modify" => Known(WriteModify)
    case "delete" => Known(WriteDelete)
    case "modrdn" => Known(WriteModRDN)
    case _ => Unknown
  }

  predicate ContainsAttr(list: seq<string>, name: string) { exists v :: v in list && EqualFold(v, name) }

  /** The server recorded the operation as refused. */
  predicate Rejected(e: Entry) { Attr(e, "reqResult") != "" && Attr(e, "reqResult") != "0" }

  function Actor(e: Entry): string { TrimDNPrefix(Attr(e, "reqAuthzID")) }

  function BindEvent(server: string, e: Entry): Event {
    var code := Attr(e, "reqResult");
    Event(if code != "0" then BindFailure else BindSuccess, server, ReqStart(e), Attr(e, "reqSession"), Actor(e),
          Attr(e, "reqDN"), "", ClassifyBindResult(code), code, "", [])
  }

  function WriteEvent(server: string, e: Entry, t: EventType): Event {
    Event(t, server, ReqStart(e), Attr(e, "reqSession"), Actor(e),
          "", Attr(e, "reqDN"), "", "", ToLower(Attr(e, "reqType")), Touched(e))
  }

  /** The password and lock events name the target as the user. */
  function UserEvent(server: string, e: Entry, t: EventType): Event {
    Event(t, server, ReqStart(e), Attr(e, "reqSession"), Actor(e), Attr(e, "reqDN"), "", "", "", "", [])
  }

  predicate ChangesPassword(e: Entry) { ContainsAttr(Touched(e), "userPassword") || ContainsAttr(Touched(e), "pwdChangedTime") }

  /** Events of one new entry of a stream. */
  function EventsOf(s: Stream, server: string, e: Entry): seq<Event> {
    match s
    case Bind => [BindEvent(server, e)]
    case Lock =>
      if Rejected(e) then []
      else [UserEvent(server, e, if HasReqModAddition(e, "pwdAccountLockedTime") then AccountLock else AccountUnlock)]
    case Write =>
      if Rejected(e) || MapWriteOp(Attr(e, "reqType")).Unknown? then []
      else
        var t := MapWriteOp(Attr(e, "reqType")).t;
        [WriteEvent(server, e, t)]
        + (if t == WriteModify && ChangesPassword(e) then [UserEvent(server, e, PasswordChange)] else [])
        + (if t == WriteModify && HasReqModAddition(e, "pwdReset") then [UserEvent(server, e, PasswordResetRequired)] else [])
  }

  /** Label tuples counted for one new entry of a stream. */
  function LabelsOf(s: Stream, server: string, e: Entry): seq<Labels> {
    match s
    case Bind =>
      var user := UserName(Attr(e, "reqDN"));
      if user == "" then [] else [map["server" := server, "user" := user, "result" := ClassifyBindResult(Attr(e, "reqResult"))]]
    case Write =>
      var user := UserName(Actor(e));
      if user == "" || Attr(e, "reqType") == "" then []
      else [map["server" := server, "user" := user, "operation" := ToLower(Attr(e, "reqType"))]]
    case Lock =>
      var user := UserName(Attr(e, "reqDN"));
      if user == "" || !HasReqModAddition(e, "pwdAccountLockedTime") then []
      else [map["server" := server, "user" := user]]
  }

  // ---------------------------------------------------------------- a whole result

  function AllEvents(s: Stream, server: string, entries: seq<Entry>): seq<Event> {
    if entries == [] then []
    else AllEvents(s, server, entries[..|entries| - 1]) + EventsOf(s, server, entries[|entries| - 1])
  }

  function AllLabels(s: Stream, server: string, entries: seq<Entry>): seq<Labels> {
    if entries == [] then []
    else AllLabels(s, server, entries[..|entries| - 1]) + LabelsOf(s, server, entries[|entries| - 1])
  }

  /** Every emitted event belongs to an entry of the result, and every event of every such
      entry is emitted. */
  lemma {:induction false} EventsTraceBack(s: Stream, server: string, entries: seq<Entry>)
    ensures forall ev :: ev in AllEvents(s, server, entries) <==> exists e :: e in entries && ev in EventsOf(s, server, e)
  {
    if entries != [] {
      var n := |entries| - 1;
      EventsTraceBack(s, server, entries[..n]);
      assert entries == entries[..n] + [entries[n]];
      forall ev ensures ev in AllEvents(s, server, entries) <==> exists e :: e in entries && ev in EventsOf(s, server, e) {
        if ev in EventsOf(s, server, entries[n]) {
          assert entries[n] in entries;
        }
      }
    }
  }

  /** A reqMod value about the named attribute. */
  predicate About(v: string, attr: string) { IndexByte(v, ':') > 0 && EqualFold(v[..IndexByte(v, ':')], attr) }

  lemma ContainsMeans(e: Entry, attr: string)
    ensures ContainsAttr(Touched(e), attr) <==> exists v :: v in ReqMods(e) && About(v, attr)
  {
    hide ReqMods, Touched, IndexByte, EqualFold;
    if v :| v in ReqMods(e) && About(v, attr) {
      TouchedExactly(e, v[..IndexByte(v, ':')]);
    }
    if ContainsAttr(Touched(e), attr) {
      var name :| name in Touched(e) && EqualFold(name, attr);
      TouchedExactly(e, name);
    }
  }

  predicate Announces(events: seq<Event>, t: EventType) { exists ev :: ev in events && ev.event == t }

  /** When a write entry announces a password change, in terms of its reqMod values. */
  lemma {:induction false} PasswordChangeMeans(server: string, e: Entry)
    ensures Announces(EventsOf(Write, server, e), PasswordChange) <==>
              && !Rejected(e) && EqualFold(Attr(e, "reqType"), "modify")
              && exists v :: v in ReqMods(e) && (About(v, "userPassword") || About(v, "pwdChangedTime"))
  {
    hide Attr, ReqMods, Touched, HasReqModAddition, ContainsAttr, About, Rejected, ToLower;
    LiteralsLower();
    ContainsMeans(e, "userPassword");
    ContainsMeans(e, "pwdChangedTime");
    if !Rejected(e) && EqualFold(Attr(e, "reqType"), "modify") && ChangesPassword(e) {
      assert EventsOf(Write, server, e)[1] == UserEvent(server, e, PasswordChange);
    }
  }

  lemma LiteralsLower()
    ensures ToLower("modify") == "modify" && ToLower("add") == "add" && ToLower("delete") == "delete" && ToLower("modrdn") == "modrdn"
  {
  }

  /** What is emitted after the first i entries of a result. */
  function EventsUpTo(s: Stream, server: string, entries: seq<Entry>, i: nat, cur: string, baseline: bool): seq<Event>
    requires i <= |entries|
  { AllEvents(s, server, Fresh(entries[..i], cur, baseline)) }

  function LabelsUpTo(s: Stream, server: string, entries: seq<Entry>, i: nat, cur: string, baseline: bool): seq<Labels>
    requires i <= |entries|
  { AllLabels(s, server, Fresh(entries[..i], cur, baseline)) }

  /** One more entry. */
  lemma UpToStep(s: Stream, server: string, entries: seq<Entry>, i: nat, cur: string, baseline: bool)
    requires i < |entries|
    ensures var r := ShouldEmit(ReqStart(entries[i]), cur, baseline, Highest(entries[..i], cur));
            && r.1 == Highest(entries[..i + 1], cur)
            && EventsUpTo(s, server, entries, i + 1, cur, baseline) ==
               EventsUpTo(s, server, entries, i, cur, baseline) + (if r.0 then EventsOf(s, server, entries[i]) else [])
            && LabelsUpTo(s, server, entries, i + 1, cur, baseline) ==
               LabelsUpTo(s, server, entries, i, cur, baseline) + (if r.0 then LabelsOf(s, server, entries[i]) else [])
  {
    ShouldEmitStep(entries, i, cur, baseline, cur);
    var news := Fresh(entries[..i + 1], cur, baseline);
    if New(entries[i], cur, baseline) {
      assert news[..|news| - 1] == Fresh(entries[..i], cur, baseline);
    } else {
      assert news == Fresh(entries[..i], cur, baseline);
    }
  }

  lemma UpToEnds(s: Stream, server: string, entries: seq<Entry>, cur: string, baseline: bool)
    ensures EventsUpTo(s, server, entries, 0, cur, baseline) == [] && LabelsUpTo(s, server, entries, 0, cur, baseline) == []
    ensures EventsUpTo(s, server, entries, |entries|, cur, baseline) == AllEvents(s, server, Fresh(entries, cur, baseline))
    ensures LabelsUpTo(s, server, entries, |entries|, cur, baseline) == AllLabels(s, server, Fresh(entries, cur, baseline))
    ensures Highest(entries[..0], cur) == cur && Highest(entries[..|entries|], cur) == Highest(entries, cur)
  {
    assert entries[..|entries|] == entries && entries[..0] == [];
  }

  // ---------------------------------------------------------------- the events collector

  class EventSink {
    var events: seq<Event>

    constructor ()
      ensures events == []
    { events := []; }

    method Emit(e: Event)
      modifies this
      ensures events == old(events) + [e]
    { events := events + [e]; }
  }

  /** The effect of scanning stream s: a failed search changes nothing; otherwise the events
      of the new entries are emitted in returned order and counted, and the stream's cursor
      moves to the highest reqStart, skipped entries included. */
  twostate predicate Scanned(s: Stream, server: string, cursor: CursorState, sink: EventSink, answer: Answer, count: nat)
    reads cursor, sink
  {
    && (answer.Failed? ==> count == 0 && unchanged(cursor) && unchanged(sink))
    && (answer.Returned? ==>
          var (cur, ready) := old(cursor.At(s));
          var emitted := AllEvents(s, server, Fresh(answer.entries, cur, !ready));
          && sink.events == old(sink.events) + emitted && count == |emitted|
          && cursor.At(s) == (Highest(answer.entries, cur), true))
    && (forall t | t != s :: cursor.At(t) == old(cursor.At(t)))
  }

  class EventCollector {
    const server: string

    constructor (server: string)
      ensures this.server == server
    { this.server := server; }

    method ScanBinds(cursor: CursorState, sink: EventSink, answer: Answer) returns (count: nat, ok: bool)
      modifies cursor, sink
      ensures ok == answer.Returned?
      ensures Scanned(Bind, server, cursor, sink, answer, count)
    {
      hide EventsUpTo, LabelsUpTo, AllEvents, AllLabels, Fresh, Highest, Attr, HasReqModAddition, IndexByte, ToLower, Touched;
      var (cur, ready) := cursor.At(Bind);
      if answer.Failed? { return 0, false; }
      var entries, baseline, maxSeen := answer.entries, !ready, cur;
      count := 0;
      UpToEnds(Bind, server, entries, cur, baseline);
      for i := 0 to |entries|
        invariant unchanged(cursor) && maxSeen == Highest(entries[..i], cur)
        invariant sink.events == old(sink.events) + EventsUpTo(Bind, server, entries, i, cur, baseline)
        invariant count == |EventsUpTo(Bind, server, entries, i, cur, baseline)|
      {
        UpToStep(Bind, server, entries, i, cur, baseline);
        var (emitNow, next) := ShouldEmit(ReqStart(entries[i]), cur, baseline, maxSeen);
        maxSeen := next;
        if !emitNow { continue; }
        sink.Emit(BindEvent(server, entries[i]));
        count := count + 1;
      }
      cursor.Advance(Bind, maxSeen);
      ok := true;
    }

    method ScanWrites(cursor: CursorState, sink: EventSink, answer: Answer) returns (count: nat, ok: bool)
      modifies cursor, sink
      ensures ok == answer.Returned?
      ensures Scanned(Write, server, cursor, sink, answer, count)
    {
      hide EventsUpTo, LabelsUpTo, AllEvents, AllLabels, Fresh, Highest, Attr, HasReqModAddition, IndexByte, ToLower, Touched;
      var (cur, ready) := cursor.At(Write);
      if answer.Failed? { return 0, false; }
      var entries, baseline, maxSeen := answer.entries, !ready, cur;
      count := 0;
      UpToEnds(Write, server, entries, cur, baseline);
      for i := 0 to |entries|
        invariant unchanged(cursor) && maxSeen == Highest(entries[..i], cur)
        invariant sink.events == old(sink.events) + EventsUpTo(Write, server, entries, i, cur, baseline)
        invariant count == |EventsUpTo(Write, server, entries, i, cur, baseline)|
      {
        UpToStep(Write, server, entries, i, cur, baseline);
        var e := entries[i];
        var (emitNow, next) := ShouldEmit(ReqStart(e), cur, baseline, maxSeen);
        maxSeen := next;
        if !emitNow { continue; }
        var n := EmitWrite(e, sink);
        count := count + n;
      }
      cursor.Advance(Write, maxSeen);
      ok := true;
    }

    /** The body of the loop for an entry that is new. */
    method EmitWrite(e: Entry, sink: EventSink) returns (n: nat)
      modifies sink
      ensures sink.events == old(sink.events) + EventsOf(Write, server, e) && n == |EventsOf(Write, server, e)|
    {
      hide Touched, Attr, HasReqModAddition, ToLower, IndexByte, EqualFold, UserEvent, WriteEvent, Rejected;
      if Rejected(e) { return 0; }
      var attrs := TouchedAttributes(e);
      var op := MapWriteOp(Attr(e, "reqType"));
      if op.Unknown? { return 0; }
      sink.Emit(WriteEvent(server, e, op.t));
      n := 1;
      if op.t == WriteModify {
        if ContainsAttr(attrs, "userPassword") || ContainsAttr(attrs, "pwdChangedTime") {
          sink.Emit(UserEvent(server, e, PasswordChange));
          n := n + 1;
        }
        if HasReqModAddition(e, "pwdReset") {
          sink.Emit(UserEvent(server, e, PasswordResetRequired));
          n := n + 1;
        }
      }
    }

    method ScanLocks(cursor: CursorState, sink: EventSink, answer: Answer) returns (count: nat, ok: bool)
      modifies cursor, sink
      ensures ok == answer.Returned?
      ensures Scanned(Lock, server, cursor, sink, answer, count)
    {
      hide EventsUpTo, LabelsUpTo, AllEvents, AllLabels, Fresh, Highest, Attr, HasReqModAddition, IndexByte, ToLower, Touched;
      var (cur, ready) := cursor.At(Lock);
      if answer.Failed? { return 0, false; }
      var entries, baseline, maxSeen := answer.entries, !ready, cur;
      count := 0;
      UpToEnds(Lock, server, entries, cur, baseline);
      for i := 0 to |entries|
        invariant unchanged(cursor) && maxSeen == Highest(entries[..i], cur)
        invariant sink.events == old(sink.events) + EventsUpTo(Lock, server, entries, i, cur, baseline)
        invariant count == |EventsUpTo(Lock, server, entries, i, cur, baseline)|
      {
        UpToStep(Lock, server, entries, i, cur, baseline);
        var e := entries[i];
        var (emitNow, next) := ShouldEmit(ReqStart(e), cur, baseline, maxSeen);
        maxSeen := next;
        if !emitNow || Rejected(e) { continue; }
        var t := AccountUnlock;
        if HasReqModAddition(e, "pwdAccountLockedTime") {
          t := AccountLock;
        }
        sink.Emit(UserEvent(server, e, t));
        count := count + 1;
      }
      cursor.Advance(Lock, maxSeen);
      ok := true;
    }

    /** One tick: the three streams in order, stopping at the first that fails. */
    method Scan(cursor: CursorState, sink: EventSink, binds: Answer, writes: Answer, locks: Answer)
      returns (total: nat, ok: bool)
      modifies cursor, sink
      ensures ok == (binds.Returned? && writes.Returned? && locks.Returned?)
      ensures var b := EventsNow(Bind, server, old(cursor.At(Bind)), binds);
              var w := if binds.Returned? then EventsNow(Write, server, old(cursor.At(Write)), writes) else [];
              var l := if binds.Returned? && writes.Returned? then EventsNow(Lock, server, old(cursor.At(Lock)), locks) else [];
              sink.events == old(sink.events) + b + w + l && total == |b| + |w| + |l|
      ensures cursor.At(Bind) == Moved(old(cursor.At(Bind)), binds)
      ensures cursor.At(Write) == if binds.Returned? then Moved(old(cursor.At(Write)), writes) else old(cursor.At(Write))
      ensures cursor.At(Lock) == if binds.Returned? && writes.Returned? then Moved(old(cursor.At(Lock)), locks) else old(cursor.At(Lock))
    {
      total, ok := ScanBinds(cursor, sink, binds);
      if !ok { return; }
      var n;
      n, ok := ScanWrites(cursor, sink, writes);
      total := total + n;
      if !ok { return; }
      n, ok := ScanLocks(cursor, sink, locks);
      total := total + n;
    }
  }

  /** A stream's bookmark after a search. */
  function Moved(at: (string, bool), answer: Answer): (string, bool) {
    if answer.Failed? then at else (Highest(answer.entries, at.0), true)
  }

  function EventsNow(s: Stream, server: string, at: (string, bool), answer: Answer): seq<Event> {
    if answer.Failed? then [] else AllEvents(s, server, Fresh(answer.entries, at.0, !at.1))
  }

  // ---------------------------------------------------------------- the metric collector

  /** The label tuples handed to each tracker's Inc. */
  class IncLog {
    var binds: seq<Labels>
    var writes: seq<Labels>
    var locks: seq<Labels>

    constructor ()
      ensures forall s :: Of(s) == []
    { binds, writes, locks := [], [], []; }

    function Of(s: Stream): seq<Labels>
      reads this
    {
      match s
      case Bind => binds
      case Write => writes
      case Lock => locks
    }

    method Inc(s: Stream, labels: Labels)
      modifies this
      ensures Of(s) == old(Of(s)) + [labels]
      ensures forall t | t != s :: Of(t) == old(Of(t))
    {
      match s {
        case Bind => binds := binds + [labels];
        case Write => writes := writes + [labels];
        case Lock => locks := locks + [labels];
      }
    }
  }

  function LabelsNow(s: Stream, server: string, at: (string, bool), answer: Answer): seq<Labels> {
    if answer.Failed? then [] else AllLabels(s, server, Fresh(answer.entries, at.0, !at.1))
  }

  class MetricCollector {
    const server: string

    constructor (server: string)
      ensures this.server == server
    { this.server := server; }

    method CollectBinds(cursor: CursorState, log: IncLog, answer: Answer) returns (count: nat, ok: bool)
      modifies cursor, log
      ensures ok == answer.Returned?
      ensures var labels := LabelsNow(Bind, server, old(cursor.At(Bind)), answer);
              log.Of(Bind) == old(log.Of(Bind)) + labels && count == |labels|
      ensures cursor.At(Bind) == Moved(old(cursor.At(Bind)), answer)
      ensures forall t | t != Bind :: cursor.At(t) == old(cursor.At(t)) && log.Of(t) == old(log.Of(t))
    {
      hide EventsUpTo, LabelsUpTo, AllEvents, AllLabels, Fresh, Highest, Attr, HasReqModAddition, IndexByte, ToLower, Touched;
      var (cur, ready) := cursor.At(Bind);
      if answer.Failed? { return 0, false; }
      var entries, baseline, maxSeen := answer.entries, !ready, cur;
      count := 0;
      UpToEnds(Bind, server, entries, cur, baseline);
      for i := 0 to |entries|
        invariant unchanged(cursor) && maxSeen == Highest(entries[..i], cur)
        invariant log.Of(Bind) == old(log.Of(Bind)) + LabelsUpTo(Bind, server, entries, i, cur, baseline)
        invariant count == |LabelsUpTo(Bind, server, entries, i, cur, baseline)|
        invariant forall t | t != Bind :: log.Of(t) == old(log.Of(t))
      {
        UpToStep(Bind, server, entries, i, cur, baseline);
        var e := entries[i];
        var (emit, next) := ShouldEmit(ReqStart(e), cur, baseline, maxSeen);
        maxSeen := next;
        if !emit { continue; }
        var userDN := Attr(e, "reqDN");
        if userDN == "" { continue; }
        var user := UserName(userDN);
        if user == "" { continue; }
        log.Inc(Bind, map["server" := server, "user" := user, "result" := ClassifyBindResult(Attr(e, "reqResult"))]);
        count := count + 1;
      }
      cursor.Advance(Bind, maxSeen);
      ok := true;
    }

    method CollectWrites(cursor: CursorState, log: IncLog, answer: Answer) returns (count: nat, ok: bool)
      modifies cursor, log
      ensures ok == answer.Returned?
      ensures var labels := LabelsNow(Write, server, old(cursor.At(Write)), answer);
              log.Of(Write) == old(log.Of(Write)) + labels && count == |labels|
      ensures cursor.At(Write) == Moved(old(cursor.At(Write)), answer)
      ensures forall t | t != Write :: cursor.At(t) == old(cursor.At(t)) && log.Of(t) == old(log.Of(t))
    {
      hide EventsUpTo, LabelsUpTo, AllEvents, AllLabels, Fresh, Highest, Attr, HasReqModAddition, IndexByte, ToLower, Touched;
      var (cur, ready) := cursor.At(Write);
      if answer.Failed? { return 0, false; }
      var entries, baseline, maxSeen := answer.entries, !ready, cur;
      count := 0;
      UpToEnds(Write, server, entries, cur, baseline);
      for i := 0 to |entries|
        invariant unchanged(cursor) && maxSeen == Highest(entries[..i], cur)
        invariant log.Of(Write) == old(log.Of(Write)) + LabelsUpTo(Write, server, entries, i, cur, baseline)
        invariant count == |LabelsUpTo(Write, server, entries, i, cur, baseline)|
        invariant forall t | t != Write :: log.Of(t) == old(log.Of(t))
      {
        UpToStep(Write, server, entries, i, cur, baseline);
        var e := entries[i];
        var (emit, next) := ShouldEmit(ReqStart(e), cur, baseline, maxSeen);
        maxSeen := next;
        if !emit { continue; }
        var opType, authz := Attr(e, "reqType"), Actor(e);
        if authz == "" || opType == "" { continue; }
        var user := UserName(authz);
        if user == "" { continue; }
        log.Inc(Write, map["server" := server, "user" := user, "operation" := ToLower(opType)]);
        count := count + 1;
      }
      cursor.Advance(Write, maxSeen);
      ok := true;
    }

    method CollectLocks(cursor: CursorState, log: IncLog, answer: Answer) returns (count: nat, ok: bool)
      modifies cursor, log
      ensures ok == answer.Returned?
      ensures var labels := LabelsNow(Lock, server, old(cursor.At(Lock)), answer);
              log.Of(Lock) == old(log.Of(Lock)) + labels && count == |labels|
      ensures cursor.At(Lock) == Moved(old(cursor.At(Lock)), answer)
      ensures forall t | t != Lock :: cursor.At(t) == old(cursor.At(t)) && log.Of(t) == old(log.Of(t))
    {
      hide EventsUpTo, LabelsUpTo, AllEvents, AllLabels, Fresh, Highest, Attr, HasReqModAddition, IndexByte, ToLower, Touched;
      var (cur, ready) := cursor.At(Lock);
      if answer.Failed? { return 0, false; }
      var entries, baseline, maxSeen := answer.entries, !ready, cur;
      count := 0;
      UpToEnds(Lock, server, entries, cur, baseline);
      for i := 0 to |entries|
        invariant unchanged(cursor) && maxSeen == Highest(entries[..i], cur)
        invariant log.Of(Lock) == old(log.Of(Lock)) + LabelsUpTo(Lock, server, entries, i, cur, baseline)
        invariant count == |LabelsUpTo(Lock, server, entries, i, cur, baseline)|
        invariant forall t | t != Lock :: log.Of(t) == old(log.Of(t))
      {
        UpToStep(Lock, server, entries, i, cur, baseline);
        var e := entries[i];
        var (emit, next) := ShouldEmit(ReqStart(e), cur, baseline, maxSeen);
        maxSeen := next;
        if !emit || !HasReqModAddition(e, "pwdAccountLockedTime") { continue; }
        var userDN := Attr(e, "reqDN");
        if userDN == "" { continue; }
        var user := UserName(userDN);
        if user == "" { continue; }
        log.Inc(Lock, map["server" := server, "user" := user]);
        count := count + 1;
      }
      cursor.Advance(Lock, maxSeen);
      ok := true;
    }

    /** One scrape: every stream is collected, whatever happened to the others. */
    method Collect(cursor: CursorState, log: IncLog, binds: Answer, writes: Answer, locks: Answer)
      returns (count: nat)
      modifies cursor, log
      ensures var answer := (s: Stream) => match s case Bind => binds case Write => writes case Lock => locks;
              forall s: Stream ::
                && cursor.At(s) == Moved(old(cursor.At(s)), answer(s))
                && log.Of(s) == old(log.Of(s)) + LabelsNow(s, server, old(cursor.At(s)), answer(s))
      ensures count == |LabelsNow(Bind, server, old(cursor.At(Bind)), binds)|
                     + |LabelsNow(Write, server, old(cursor.At(Write)), writes)|
                     + |LabelsNow(Lock, server, old(cursor.At(Lock)), locks)|
    {
      var n, ok := CollectBinds(cursor, log, binds);
      count := n;
      n, ok := CollectWrites(cursor, log, writes);
      count := count + n;
      n, ok := CollectLocks(cursor, log, locks);
      count := count + n;
    }
  }
}
