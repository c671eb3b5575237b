/** The primitives both accesslog consumers share: cursors, the emission rule and the
    reqMod readers. */
module Accesslog {
  import opened Strings

  datatype Stream = Bind | Write | Lock

  datatype Attribute = Attribute(name: string, values: seq<string>)

  /** An LDAP entry as the search returned it. */
  type Entry = seq<Attribute>

  /** First value of the first attribute of that name that has one, or "". */
  function Attr(e: Entry, name: string): string {
    if e == [] then ""
    else if e[0].name == name && e[0].values != [] then e[0].values[0]
    else Attr(e[1..], name)
  }

  function ReqStart(e: Entry): string { Attr(e, "reqStart") }

  // ---------------------------------------------------------------- cursors

  class CursorState {
    var bind: string
    var bindReady: bool
    var write: string
    var writeReady: bool
    var lock: string
    var lockReady: bool

    /** NewCursorState: all three streams seeded to the same clock reading. */
    constructor (now: string)
      ensures forall s :: At(s) == (now, false)
    {
      bind, write, lock := now, now, now;
      bindReady, writeReady, lockReady := false, false, false;
    }

    /** A stream's bookmark and readiness. */
    function At(s: Stream): (string, bool)
      reads this
    {
      match s
      case Bind => (bind, bindReady)
      case Write => (write, writeReady)
      case Lock => (lock, lockReady)
    }

    method Advance(s: Stream, maxSeen: string)
      modifies this
      ensures At(s) == (maxSeen, true)
      ensures forall t | t != s :: At(t) == old(At(t))
    {
      match s {
        case Bind => bind, bindReady := maxSeen, true;
        case Write => write, writeReady := maxSeen, true;
        case Lock => lock, lockReady := maxSeen, true;
      }
    }
  }

  /** What BuildIncrementalFilter asks of an entry of the stream, beyond the stream's own base
      filter: nothing for an empty cursor, else a reqStart at or above it. */
  datatype Filter = Bare | NotBefore(cursor: string)

  function IncrementalFilter(cursor: string): Filter { if cursor == "" then Bare else NotBefore(cursor) }

  predicate Matches(f: Filter, e: Entry) {
    match f
    case Bare => true
    case NotBefore(cursor) => AtMost(cursor, ReqStart(e))
  }

  /** Both forms of the filter come to the same: at or above the cursor, the cursor included. */
  lemma FilterIsInclusive(cursor: string, e: Entry)
    ensures Matches(IncrementalFilter(cursor), e) <==> AtMost(cursor, ReqStart(e))
  {
  }

  // ---------------------------------------------------------------- the emission rule

  /** Whether an entry is new this tick, and the updated maximum. */
  function ShouldEmit(reqStart: string, cursor: string, baseline: bool, maxSeen: string): (bool, string) {
    if reqStart == "" then (false, maxSeen)
    else
      var next := if Less(maxSeen, reqStart) then reqStart else maxSeen;
      (!baseline && reqStart != cursor, next)
  }

  predicate New(e: Entry, cursor: string, baseline: bool) { !baseline && ReqStart(e) != "" && ReqStart(e) != cursor }

  /** The entries of a search result treated as new, in returned order. */
  function Fresh(entries: seq<Entry>, cursor: string, baseline: bool): seq<Entry> {
    if entries == [] then []
    else Fresh(entries[..|entries| - 1], cursor, baseline) +
         if New(entries[|entries| - 1], cursor, baseline) then [entries[|entries| - 1]] else []
  }

  /** The greatest reqStart of the entries and of `from`. */
  function Highest(entries: seq<Entry>, from: string): string {
    if entries == [] then from
    else
      var m := Highest(entries[..|entries| - 1], from);
      var r := ReqStart(entries[|entries| - 1]);
      if Less(m, r) then r else m
  }

  /** The emission rule on one entry, in terms of New and Highest. */
  lemma ShouldEmitStep(entries: seq<Entry>, i: nat, cursor: string, baseline: bool, from: string)
    requires i < |entries|
    ensures var r := ShouldEmit(ReqStart(entries[i]), cursor, baseline, Highest(entries[..i], from));
            && r.0 == New(entries[i], cursor, baseline)
            && r.1 == Highest(entries[..i + 1], from)
    ensures Fresh(entries[..i + 1], cursor, baseline) ==
            Fresh(entries[..i], cursor, baseline) + if New(entries[i], cursor, baseline) then [entries[i]] else []
  {
    assert entries[..i + 1][..i] == entries[..i];
  }

  /** Highest is an upper bound that is attained, so it does not depend on the order. */
  lemma {:induction false} HighestIsMaximum(entries: seq<Entry>, from: string)
    ensures AtMost(from, Highest(entries, from))
    ensures forall e | e in entries :: AtMost(ReqStart(e), Highest(entries, from))
    ensures Highest(entries, from) == from || exists e | e in entries :: ReqStart(e) == Highest(entries, from)
  {
    if entries != [] {
      var n := |entries| - 1;
      var front, last := entries[..n], entries[n];
      HighestIsMaximum(front, from);
      assert entries == front + [last];
      var m, r := Highest(front, from), ReqStart(last);
      LessTotal(m, r);
      if Less(m, r) {
        assert last in entries && ReqStart(last) == Highest(entries, from);
        forall e | e in front ensures AtMost(ReqStart(e), r) {
          if ReqStart(e) != m { LessTransitive(ReqStart(e), m, r); }
        }
        if from != m { LessTransitive(from, m, r); }
      } else if m != from {
        var e :| e in front && ReqStart(e) == m;
        assert e in entries;
      }
    }
  }

  lemma {:induction false} FreshMembers(entries: seq<Entry>, cursor: string, baseline: bool)
    ensures forall e :: e in Fresh(entries, cursor, baseline) <==> e in entries && New(e, cursor, baseline)
    ensures multiset(Fresh(entries, cursor, baseline)) <= multiset(entries)
  {
    if entries != [] {
      var n := |entries| - 1;
      FreshMembers(entries[..n], cursor, baseline);
      assert entries == entries[..n] + [entries[n]];
    }
  }

  // ---------------------------------------------------------------- reqMod values

  /** All reqMod values of an entry, in order. */
  function ReqMods(e: Entry): seq<string> {
    if e == [] then []
    else (if e[0].name == "reqMod" then e[0].values else []) + ReqMods(e[1..])
  }

  /** The attribute names before the colon; values without one (or with an empty one) have none. */
  function Names(values: seq<string>): seq<string> {
    if values == [] then []
    else
      var v := values[|values| - 1];
      var idx := IndexByte(v, ':');
      Names(values[..|values| - 1]) + if idx <= 0 then [] else [v[..idx]]
  }

  /** s without repetitions, first occurrences kept. */
  function Distinct(s: seq<string>): seq<string> {
    if s == [] then []
    else
      var d := Distinct(s[..|s| - 1]);
      if s[|s| - 1] in d then d else d + [s[|s| - 1]]
  }

  function Touched(e: Entry): seq<string> { Distinct(Names(ReqMods(e))) }

  /** The attributes touched are those named in a reqMod value, each once. */
  lemma TouchedExactly(e: Entry, name: string)
    ensures name in Touched(e) <==>
              exists v :: v in ReqMods(e) && IndexByte(v, ':') > 0 && v[..IndexByte(v, ':')] == name
    ensures forall i, j | 0 <= i < j < |Touched(e)| :: Touched(e)[i] != Touched(e)[j]
  {
    NamesMembers(ReqMods(e), name);
    DistinctMembers(Names(ReqMods(e)));
  }

  lemma {:induction false} NamesMembers(values: seq<string>, name: string)
    ensures name in Names(values) <==>
              exists v :: v in values && IndexByte(v, ':') > 0 && v[..IndexByte(v, ':')] == name
  {
    if values != [] {
      var n := |values| - 1;
      NamesMembers(values[..n], name);
      assert values == values[..n] + [values[n]];
      assert values[n] in values;
    }
  }

  lemma {:induction false} DistinctMembers(s: seq<string>)
    ensures forall x :: x in Distinct(s) <==> x in s
    ensures forall i, j | 0 <= i < j < |Distinct(s)| :: Distinct(s)[i] != Distinct(s)[j]
  {
    if s != [] {
      DistinctMembers(s[..|s| - 1]);
      assert s == s[..|s| - 1] + [s[|s| - 1]];
    }
  }

  /** One more value read. */
  lemma TouchStep(read: seq<string>, v: string)
    ensures var idx := IndexByte(v, ':');
            Distinct(Names(read + [v])) ==
            if idx > 0 && v[..idx] !in Distinct(Names(read)) then Distinct(Names(read)) + [v[..idx]] else Distinct(Names(read))
  {
    assert (read + [v])[..|read|] == read;
    var names := Names(read + [v]);
    if IndexByte(v, ':') > 0 {
      assert names[..|names| - 1] == Names(read);
    } else {
      assert names == Names(read);
    }
  }

  /** The attributes still to read. */
  lemma ReqModsSplit(e: Entry, i: nat)
    requires i < |e|
    ensures ReqMods(e[i..]) == (if e[i].name == "reqMod" then e[i].values else []) + ReqMods(e[i + 1..])
  {
    assert e[i..][1..] == e[i + 1..];
  }

  /** TouchedAttributes: the nested loops over attributes and values, with a seen set. */
  method TouchedAttributes(e: Entry) returns (out: seq<string>)
    ensures out == Touched(e)
  {
    hide ReqMods, Names, Distinct;
    out := [];
    var seen: set<string> := {};
    ghost var read: seq<string> := [];
    NothingLeft(e);
    for i := 0 to |e|
      invariant read + ReqMods(e[i..]) == ReqMods(e)
      invariant out == Distinct(Names(read)) && seen == set x | x in out
    {
      ReqModsSplit(e, i);
      if e[i].name == "reqMod" {
        ghost var before := read;
        var values := e[i].values;
        for j := 0 to |values|
          invariant read == before + values[..j]
          invariant out == Distinct(Names(read)) && seen == set x | x in out
        {
          var v := values[j];
          TouchStep(read, v);
          read := read + [v];
          var idx := IndexByte(v, ':');
          if idx > 0 {
            var name := v[..idx];
            if name !in seen {
              seen := seen + {name};
              out := out + [name];
            }
          }
        }
        assert read == before + values;
      }
    }
    assert read == ReqMods(e);
  }

  lemma NothingLeft(e: Entry)
    ensures ReqMods(e[|e|..]) == [] && e[0..] == e && Distinct(Names([])) == []
  {
  }

  /** Some reqMod value adds to or replaces the attribute. */
  predicate HasReqModAddition(e: Entry, attr: string) {
    exists v :: v in ReqMods(e) && IndexByte(v, ':') > 0 && EqualFold(v[..IndexByte(v, ':')], ToLower(attr)) &&
      IndexByte(v, ':') + 1 < |v| && v[IndexByte(v, ':') + 1] in {'+', '='}
  }

  function ClassifyBindResult(code: string): string {
    match code
    case "0" => "success"
    case "49" => "invalid_credentials"
    case "50" => "insufficient_access"
    case "53" => "unwilling_to_perform"
    case "19" => "constraint_violation"
    case "" => "unknown"
    case _ => "error_" + code
  }

  function TrimDNPrefix(v: string): string { TrimPrefix(v, "dn:") }

  /** The value of the first RDN of a DN, or the DN itself. */
  function UserName(dn: string): string {
    var comma := IndexByte(dn, ',');
    var rdn := if comma < 0 then dn else dn[..comma];
    var eq := IndexByte(rdn, '=');
    if dn == "" then "" else if eq < 0 then dn else rdn[eq + 1..]
  }
}
