/** What the events and label tuples of the two accesslog consumers mean, in terms of the values
    the entry holds. */
module EventMeanings {
  import opened Strings
  import opened Accesslog
  import opened AccesslogScan

  // ---------------------------------------------------------------- letters and reqMod values

  /** The same letter, the case of ASCII letters aside. */
  predicate SameLetter(a: char, b: char) {
    || a == b
    || ('A' <= a <= 'Z' && b as int == a as int + 32)
    || ('A' <= b <= 'Z' && a as int == b as int + 32)
  }

  predicate SameUpToCase(a: string, b: string) {
    |a| == |b| && forall i | 0 <= i < |a| :: SameLetter(a[i], b[i])
  }

  lemma FoldMeans(a: string, b: string)
    ensures EqualFold(a, b) <==> SameUpToCase(a, b)
  {
    var x, y := ToLower(a), ToLower(b);
    assert |x| == |a| && |y| == |b|;
    if |a| == |b| {
      forall i | 0 <= i < |a| ensures x[i] == y[i] <==> SameLetter(a[i], b[i]) {
        assert x[i] == LowerChar(a[i]) && y[i] == LowerChar(b[i]);
      }
      assert x == y <==> forall i | 0 <= i < |a| :: x[i] == y[i];
    }
  }

  lemma LowerTwice(a: string)
    ensures ToLower(ToLower(a)) == ToLower(a)
  {
  }

  /** A reqMod value that adds to the attribute or replaces it: name, colon, '+' or '='. */
  ghost predicate AddsOrReplaces(v: string, attr: string) {
    exists n: string, rest: string ::
      ':' !in n && SameUpToCase(n, attr) && (v == n + ":+" + rest || v == n + ":=" + rest)
  }

  /** The test the source makes on one value. */
  predicate TestedAs(v: string, attr: string) {
    && IndexByte(v, ':') > 0 && EqualFold(v[..IndexByte(v, ':')], ToLower(attr))
    && IndexByte(v, ':') + 1 < |v| && v[IndexByte(v, ':') + 1] in {'+', '='}
  }

  lemma ColonAfter(n: string, rest: string, v: string)
    requires ':' !in n && (v == n + ":+" + rest || v == n + ":=" + rest)
    ensures IndexByte(v, ':') == |n| && v[..|n|] == n && |n| + 1 < |v| && v[|n| + 1] in {'+', '='}
  {
    assert forall k | 0 <= k < |n| :: v[k] == n[k] && n[k] in n;
    IndexByteAt(v, ':', |n|);
  }

  lemma TestedExactly(v: string, attr: string)
    requires attr != ""
    ensures TestedAs(v, attr) <==> AddsOrReplaces(v, attr)
  {
    hide EqualFold, SameUpToCase;
    if TestedAs(v, attr) {
      var i := IndexByte(v, ':');
      var n, rest := v[..i], v[i + 2..];
      FoldLowered(n, attr);
      assert v == n + [v[i]] + [v[i + 1]] + rest;
      assert v == n + ":+" + rest || v == n + ":=" + rest;
      assert ':' !in n;
    }
    if AddsOrReplaces(v, attr) {
      var n: string, rest: string :|
        ':' !in n && SameUpToCase(n, attr) && (v == n + ":+" + rest || v == n + ":=" + rest);
      ColonAfter(n, rest, v);
      FoldLowered(n, attr);
      assert n != "" by { SameLength(n, attr); }
    }
  }

  lemma SameLength(a: string, b: string)
    requires SameUpToCase(a, b)
    ensures |a| == |b|
  {
  }

  lemma FoldLowered(n: string, attr: string)
    ensures EqualFold(n, ToLower(attr)) <==> SameUpToCase(n, attr)
  {
    LowerTwice(attr);
    FoldMeans(n, attr);
  }

  /** Some reqMod value of the entry adds to the attribute or replaces it. */
  ghost predicate Gains(e: Entry, attr: string) { exists v :: v in ReqMods(e) && AddsOrReplaces(v, attr) }

  lemma AdditionMeans(e: Entry, attr: string)
    requires attr != ""
    ensures HasReqModAddition(e, attr) <==> Gains(e, attr)
  {
    hide AddsOrReplaces, ReqMods, IndexByte, EqualFold, ToLower;
    forall v | v in ReqMods(e) ensures TestedAs(v, attr) <==> AddsOrReplaces(v, attr) {
      TestedExactly(v, attr);
    }
  }

  /** The values meant are all values of all attributes named reqMod. */
  lemma {:induction false} ReqModsAre(e: Entry, v: string)
    ensures v in ReqMods(e) <==> exists a :: a in e && a.name == "reqMod" && v in a.values
  {
    if e != [] {
      ReqModsAre(e[1..], v);
      assert e == [e[0]] + e[1..];
    }
  }

  predicate HasValue(a: Attribute, name: string) { a.name == name && a.values != [] }

  /** Attr is the first value of the first attribute of that name that has a value. */
  lemma {:induction false} AttrIsFirstValue(e: Entry, name: string, i: nat)
    requires i < |e| && HasValue(e[i], name) && forall k | 0 <= k < i :: !HasValue(e[k], name)
    ensures Attr(e, name) == e[i].values[0]
  {
    if i > 0 {
      assert !HasValue(e[0], name);
      assert e[1..][i - 1] == e[i];
      assert forall k | 0 <= k < i - 1 :: !HasValue(e[k + 1], name) && e[1..][k] == e[k + 1];
      AttrIsFirstValue(e[1..], name, i - 1);
    }
  }

  /** Without one it is empty. */
  lemma {:induction false} AttrMissing(e: Entry, name: string)
    requires forall a | a in e :: !HasValue(a, name)
    ensures Attr(e, name) == ""
  {
    if e != [] {
      assert e[0] in e;
      AttrMissing(e[1..], name);
    }
  }

  // ---------------------------------------------------------------- binds

  /** Each bind entry announces one event: a success exactly when its result code is 0. */
  lemma BindMeans(server: string, e: Entry)
    ensures var events := EventsOf(Bind, server, e);
            && |events| == 1
            && (Announces(events, BindSuccess) <==> Attr(e, "reqResult") == "0")
            && (Announces(events, BindFailure) <==> Attr(e, "reqResult") != "0")
            && events[0].resultCode == Attr(e, "reqResult")
            && (events[0].result == "success" <==> Attr(e, "reqResult") == "0")
  {
    hide Attr;
    SuccessOnlyForZero(Attr(e, "reqResult"));
    assert EventsOf(Bind, server, e)[0] == BindEvent(server, e);
  }

  /** Only the code 0 is labelled a success. */
  lemma SuccessOnlyForZero(code: string)
    ensures ClassifyBindResult(code) == "success" <==> code == "0"
  {
  }

  // ---------------------------------------------------------------- locks

  /** The server recorded the operation and did not refuse it. */
  predicate Accepted(e: Entry) { Attr(e, "reqResult") == "" || Attr(e, "reqResult") == "0" }

  /** A lock entry announces a lock exactly when it was accepted and some reqMod value adds or
      replaces pwdAccountLockedTime, an unlock exactly when it was accepted and none does, and
      nothing else. */
  lemma LockMeans(server: string, e: Entry)
    ensures var events := EventsOf(Lock, server, e);
            && (Announces(events, AccountLock) <==> Accepted(e) && Gains(e, "pwdAccountLockedTime"))
            && (Announces(events, AccountUnlock) <==> Accepted(e) && !Gains(e, "pwdAccountLockedTime"))
            && |events| == if Accepted(e) then 1 else 0
  {
    hide Attr, Gains, HasReqModAddition;
    AdditionMeans(e, "pwdAccountLockedTime");
    if Accepted(e) {
      assert EventsOf(Lock, server, e)[0].event in {AccountLock, AccountUnlock};
    }
  }

  // ---------------------------------------------------------------- writes

  lemma OpMeans(opType: string)
    ensures var op := MapWriteOp(opType);
            && (op == Known(WriteAdd) <==> SameUpToCase(opType, "add"))
            && (op == Known(WriteModify) <==> SameUpToCase(opType, "modify"))
            && (op == Known(WriteDelete) <==> SameUpToCase(opType, "delete"))
            && (op == Known(WriteModRDN) <==> SameUpToCase(opType, "modrdn"))
            && (op.Known? ==> op.t in {WriteAdd, WriteModify, WriteDelete, WriteModRDN})
  {
    hide ToLower, SameUpToCase;
    LiteralsLower();
    FoldMeans(opType, "add");
    FoldMeans(opType, "modify");
    FoldMeans(opType, "delete");
    FoldMeans(opType, "modrdn");
  }

  /** Which events a write entry announces: none unless accepted; each kind of write exactly for
      its request type, in any case of letters; a required reset exactly for an accepted modify
      with a reqMod value that adds or replaces pwdReset. */
  lemma WriteMeans(server: string, e: Entry)
    ensures var events := EventsOf(Write, server, e); var opType := Attr(e, "reqType");
            && (Announces(events, WriteAdd) <==> Accepted(e) && SameUpToCase(opType, "add"))
            && (Announces(events, WriteModify) <==> Accepted(e) && SameUpToCase(opType, "modify"))
            && (Announces(events, WriteDelete) <==> Accepted(e) && SameUpToCase(opType, "delete"))
            && (Announces(events, WriteModRDN) <==> Accepted(e) && SameUpToCase(opType, "modrdn"))
            && (Announces(events, PasswordResetRequired) <==>
                  Accepted(e) && SameUpToCase(opType, "modify") && Gains(e, "pwdReset"))
            && (!Accepted(e) ==> events == [])
  {
    hide Attr, Gains, HasReqModAddition, ChangesPassword, MapWriteOp, SameUpToCase, Touched, ToLower;
    AdditionMeans(e, "pwdReset");
    OpMeans(Attr(e, "reqType"));
    if Accepted(e) && MapWriteOp(Attr(e, "reqType")).Known? {
      WriteEventsListed(server, e);
    }
  }

  lemma WriteEventsListed(server: string, e: Entry)
    requires Accepted(e) && MapWriteOp(Attr(e, "reqType")).Known?
    ensures var t := MapWriteOp(Attr(e, "reqType")).t; var events := EventsOf(Write, server, e);
            forall k :: Announces(events, k) <==>
                        || k == t
                        || (t == WriteModify && k == PasswordChange && ChangesPassword(e))
                        || (t == WriteModify && k == PasswordResetRequired && HasReqModAddition(e, "pwdReset"))
  {
    hide Attr, HasReqModAddition, ChangesPassword, MapWriteOp, Touched, ToLower;
    var t := MapWriteOp(Attr(e, "reqType")).t;
    var events := EventsOf(Write, server, e);
    assert events[0] == WriteEvent(server, e, t);
    if t == WriteModify && HasReqModAddition(e, "pwdReset") {
      assert events[|events| - 1] == UserEvent(server, e, PasswordResetRequired);
    }
    if t == WriteModify && ChangesPassword(e) {
      assert events[1] == UserEvent(server, e, PasswordChange);
    }
  }

  // ---------------------------------------------------------------- what an event carries

  predicate IsWrite(t: EventType) { t.WriteAdd? || t.WriteModify? || t.WriteDelete? || t.WriteModRDN? }

  /** Every event of every stream carries the server and the entry's own start and session; its
      actor is the authorisation identity without a leading "dn:"; the entry's DN is the target of
      a write and the user of anything else; only writes carry an operation and the touched
      attributes, only binds a result. */
  lemma EventsCarry(s: Stream, server: string, e: Entry, ev: Event)
    requires ev in EventsOf(s, server, e)
    ensures ev.server == server && ev.reqStart == Attr(e, "reqStart") && ev.reqSession == Attr(e, "reqSession")
    ensures var authz := Attr(e, "reqAuthzID");
            authz == ev.actor || authz == "dn:" + ev.actor
    ensures var authz := Attr(e, "reqAuthzID"); "dn:" <= authz ==> authz == "dn:" + ev.actor
    ensures var dn := Attr(e, "reqDN");
            if IsWrite(ev.event) then ev.targetDN == dn && ev.userDN == "" else ev.userDN == dn && ev.targetDN == ""
    ensures if IsWrite(ev.event) then SameUpToCase(ev.operation, Attr(e, "reqType")) && ev.attributes == Touched(e)
            else ev.operation == "" && ev.attributes == []
    ensures if s.Bind? then ev.resultCode == Attr(e, "reqResult") else ev.resultCode == "" && ev.result == ""
  {
    hide Attr, Touched, HasReqModAddition, ChangesPassword, SameUpToCase, ToLower, MapWriteOp;
    PrefixTrimmed(Attr(e, "reqAuthzID"));
    var opType := Attr(e, "reqType");
    assert SameUpToCase(ToLower(opType), opType) by { LowerTwice(opType); FoldMeans(ToLower(opType), opType); }
    OpMeans(opType);
  }

  lemma PrefixTrimmed(v: string)
    ensures v == TrimDNPrefix(v) || v == "dn:" + TrimDNPrefix(v)
    ensures "dn:" <= v ==> v == "dn:" + TrimDNPrefix(v)
  {
  }

  // ---------------------------------------------------------------- what is counted

  /** The user name of a DN is the value of its first RDN. */
  lemma UserNameMeans(name: string, value: string, rest: string)
    requires '=' !in name && ',' !in name && ',' !in value && name != ""
    ensures UserName(name + "=" + value + "," + rest) == value
    ensures UserName(name + "=" + value) == value
  {
    var rdn := name + "=" + value;
    assert forall k | 0 <= k < |name| :: rdn[k] == name[k] && name[k] in name;
    IndexByteAt(rdn, '=', |name|);
    var dn := rdn + "," + rest;
    forall k | 0 <= k < |rdn| ensures rdn[k] != ',' && dn[k] == rdn[k] {
      assert k < |name| ==> rdn[k] in name;
      assert k > |name| ==> rdn[k] == value[k - |name| - 1] && rdn[k] in value;
    }
    IndexByteAt(dn, ',', |rdn|);
    assert dn[..|rdn|] == rdn && rdn[|name| + 1..] == value;
    assert ',' !in rdn;
  }

  /** A DN without a first RDN of that form stands for itself. */
  lemma PlainNameStaysItself(dn: string)
    requires '=' !in dn
    ensures UserName(dn) == dn
  {
    var comma := IndexByte(dn, ',');
    var rdn := if comma < 0 then dn else dn[..comma];
    assert forall x | x in rdn :: x in dn;
  }

  /** What the metric collector counts for a new entry, at most one tuple: a bind under the name
      in its DN with its result label; a write under the name of its actor with its type in lower
      case; a lock, and not an unlock, under the name in its DN. */
  lemma CountedMeans(s: Stream, server: string, e: Entry)
    ensures var tuples := LabelsOf(s, server, e);
            var user := UserName(if s.Write? then Actor(e) else Attr(e, "reqDN"));
            && |tuples| <= 1
            && (tuples != [] <==> user != "" && (s.Write? ==> Attr(e, "reqType") != "")
                                  && (s.Lock? ==> Gains(e, "pwdAccountLockedTime")))
            && (tuples != [] ==> "server" in tuples[0] && tuples[0]["server"] == server
                                 && "user" in tuples[0] && tuples[0]["user"] == user
                                 && tuples[0].Keys == {"server", "user"} + (match s case Bind => {"result"} case Write => {"operation"} case Lock => {})
                                 && (s.Bind? ==> tuples[0]["result"] == ClassifyBindResult(Attr(e, "reqResult")))
                                 && (s.Write? ==> SameUpToCase(tuples[0]["operation"], Attr(e, "reqType"))))
  {
    hide Attr, Gains, HasReqModAddition, UserName, Actor, ClassifyBindResult, ToLower, SameUpToCase;
    AdditionMeans(e, "pwdAccountLockedTime");
    var opType := Attr(e, "reqType");
    assert SameUpToCase(ToLower(opType), opType) by { LowerTwice(opType); FoldMeans(ToLower(opType), opType); }
  }
}
