/** The replication peer poller: reading each node's contextCSN, publishing the lag of every
    peer behind the most advanced source, and keeping one client per discovered peer. */
module Replication {
  import opened Strings

  // ---------------------------------------------------------------- what a node answers

  /** A contextCSN value after parsing: its time as an epoch and its server ID. */
  datatype Parsed = Malformed | Stamp(epoch: int, serverID: string)

  datatype ContextAttr = ContextAttr(name: string, values: seq<Parsed>)

  /** A failed search and an empty result are handled alike. */
  datatype ContextAnswer = NoContext | Context(attributes: seq<ContextAttr>)

  /** A naming context and what the node answers when asked for its contextCSN. */
  datatype Suffix = Suffix(dn: string, answer: ContextAnswer)

  datatype RootAttr = RootAttr(name: string, values: seq<Suffix>)

  datatype Node = Unreachable | Root(attributes: seq<RootAttr>)

  datatype CsnKey = CsnKey(baseDN: string, serverID: string)

  datatype Reading = Reading(key: CsnKey, epoch: int)

  predicate IsDataSuffix(dn: string) { !("cn=" <= ToLower(dn)) }

  function ValueReadings(dn: string, values: seq<Parsed>): seq<Reading> {
    if values == [] then []
    else var q, v := ValueReadings(dn, values[..|values| - 1]), values[|values| - 1];
         if v.Malformed? then q else q + [Reading(CsnKey(dn, v.serverID), v.epoch)]
  }

  function AttrReadings(dn: string, attributes: seq<ContextAttr>): seq<Reading> {
    if attributes == [] then []
    else var q, a := AttrReadings(dn, attributes[..|attributes| - 1]), attributes[|attributes| - 1];
         if a.name == "contextCSN" then q + ValueReadings(dn, a.values) else q
  }

  function SuffixReadings(suffixes: seq<Suffix>): seq<Reading> {
    if suffixes == [] then []
    else var q, s := SuffixReadings(suffixes[..|suffixes| - 1]), suffixes[|suffixes| - 1];
         if IsDataSuffix(s.dn) && s.answer.Context? then q + AttrReadings(s.dn, s.answer.attributes) else q
  }

  function RootReadings(attributes: seq<RootAttr>): seq<Reading> {
    if attributes == [] then []
    else var q, a := RootReadings(attributes[..|attributes| - 1]), attributes[|attributes| - 1];
         if a.name == "namingContexts" then q + SuffixReadings(a.values) else q
  }

  /** Every well-formed CSN a node reports for its data suffixes. */
  function Readings(node: Node): seq<Reading> {
    if node.Unreachable? then [] else RootReadings(node.attributes)
  }

  // ---------------------------------------------------------------- the per-key maxima

  /** A Go map read: the zero value when absent. */
  function Get(csns: map<CsnKey, int>, key: CsnKey): int { if key in csns then csns[key] else 0 }

  function Improved(csns: map<CsnKey, int>, r: Reading): map<CsnKey, int> {
    if r.epoch > Get(csns, r.key) then csns[r.key := r.epoch] else csns
  }

  function Merged(csns: map<CsnKey, int>, q: seq<Reading>): map<CsnKey, int> {
    if q == [] then csns else Improved(Merged(csns, q[..|q| - 1]), q[|q| - 1])
  }

  lemma {:induction false} MergedConcat(csns: map<CsnKey, int>, a: seq<Reading>, b: seq<Reading>)
    ensures Merged(csns, a + b) == Merged(Merged(csns, a), b)
  {
    if b == [] {
      assert a + b == a;
    } else {
      MergedConcat(csns, a, b[..|b| - 1]);
      assert (a + b)[..|a + b| - 1] == a + b[..|b| - 1];
    }
  }

  function CsnsOf(node: Node): map<CsnKey, int> { Merged(map[], Readings(node)) }

  /** m is the greatest epoch among the readings of a key, and one of them. */
  ghost predicate Greatest(q: seq<Reading>, key: CsnKey, m: int) {
    && (exists i :: 0 <= i < |q| && q[i] == Reading(key, m))
    && (forall i | 0 <= i < |q| && q[i].key == key :: q[i].epoch <= m)
  }

  /** A key is stored exactly when it has a positive reading, and then with the greatest one. */
  lemma {:induction false} MergedIsGreatest(q: seq<Reading>, key: CsnKey)
    ensures var csns := Merged(map[], q);
            && (key in csns <==> exists i :: 0 <= i < |q| && q[i].key == key && q[i].epoch > 0)
            && (key in csns ==> Greatest(q, key, csns[key]) && csns[key] > 0)
            && (key !in csns ==> forall i | 0 <= i < |q| && q[i].key == key :: q[i].epoch <= 0)
  {
    if q != [] {
      var before, r := q[..|q| - 1], q[|q| - 1];
      MergedIsGreatest(before, key);
      assert forall i | 0 <= i < |before| :: before[i] == q[i];
      var old_, csns := Merged(map[], before), Merged(map[], q);
      if key in csns {
        if r.key == key && r.epoch > Get(old_, key) {
          assert q[|q| - 1] == Reading(key, csns[key]);
        } else {
          var i :| 0 <= i < |before| && before[i] == Reading(key, old_[key]);
          assert q[i] == Reading(key, csns[key]);
        }
      }
    }
  }

  method ReadValues(csns: map<CsnKey, int>, dn: string, values: seq<Parsed>) returns (better: map<CsnKey, int>)
    ensures better == Merged(csns, ValueReadings(dn, values))
  {
    better := csns;
    for i := 0 to |values|
      invariant better == Merged(csns, ValueReadings(dn, values[..i]))
    {
      assert values[..i + 1][..i] == values[..i];
      var v := values[i];
      if v.Malformed? {
        continue;
      }
      var key := CsnKey(dn, v.serverID);
      MergedConcat(csns, ValueReadings(dn, values[..i]), [Reading(key, v.epoch)]);
      assert Merged(better, [Reading(key, v.epoch)]) == Improved(better, Reading(key, v.epoch));
      if v.epoch > Get(better, key) {
        better := better[key := v.epoch];
      }
    }
    assert values[..|values|] == values;
  }

  method ReadAttributes(csns: map<CsnKey, int>, dn: string, attributes: seq<ContextAttr>)
    returns (better: map<CsnKey, int>)
    ensures better == Merged(csns, AttrReadings(dn, attributes))
  {
    better := csns;
    for i := 0 to |attributes|
      invariant better == Merged(csns, AttrReadings(dn, attributes[..i]))
    {
      assert attributes[..i + 1][..i] == attributes[..i];
      var a := attributes[i];
      if a.name != "contextCSN" {
        continue;
      }
      MergedConcat(csns, AttrReadings(dn, attributes[..i]), ValueReadings(dn, a.values));
      better := ReadValues(better, dn, a.values);
    }
    assert attributes[..|attributes|] == attributes;
  }

  method ReadSuffixes(csns: map<CsnKey, int>, suffixes: seq<Suffix>) returns (better: map<CsnKey, int>)
    ensures better == Merged(csns, SuffixReadings(suffixes))
  {
    better := csns;
    for i := 0 to |suffixes|
      invariant better == Merged(csns, SuffixReadings(suffixes[..i]))
    {
      assert suffixes[..i + 1][..i] == suffixes[..i];
      var s := suffixes[i];
      if "cn=" <= ToLower(s.dn) {
        continue;
      }
      if s.answer.NoContext? {
        continue;
      }
      MergedConcat(csns, SuffixReadings(suffixes[..i]), AttrReadings(s.dn, s.answer.attributes));
      better := ReadAttributes(better, s.dn, s.answer.attributes);
    }
    assert suffixes[..|suffixes|] == suffixes;
  }

  method ReadCSN(node: Node) returns (csns: map<CsnKey, int>, up: bool)
    ensures csns == CsnsOf(node)
    ensures up <==> node.Root?
  {
    if node.Unreachable? {
      return map[], false;
    }
    csns, up := map[], true;
    var attributes := node.attributes;
    for i := 0 to |attributes|
      invariant csns == Merged(map[], RootReadings(attributes[..i]))
    {
      assert attributes[..i + 1][..i] == attributes[..i];
      var a := attributes[i];
      if a.name != "namingContexts" {
        continue;
      }
      MergedConcat(map[], RootReadings(attributes[..i]), SuffixReadings(a.values));
      csns := ReadSuffixes(csns, a.values);
    }
    assert attributes[..|attributes|] == attributes;
  }

  // ---------------------------------------------------------------- one poll round

  /** The local node's name among the sources. */
  const LOCAL: string := ""

  datatype Series = Series(peer: string, key: CsnKey)

  /** The three gauge vectors. */
  datatype Gauges = Gauges(up: map<string, int>, csn: map<Series, int>, lag: map<Series, int>)

  datatype SourceResult = SourceResult(peer: string, csns: map<CsnKey, int>, up: bool)

  function Max(a: int, b: int): int { if b > a then b else a }

  /** Greatest value stored for a key by the first results, starting from the zero value. */
  function MaxOver(results: seq<SourceResult>, key: CsnKey): (m: int)
    ensures m >= 0
  {
    if results == [] then 0
    else Max(MaxOver(results[..|results| - 1], key), Get(results[|results| - 1].csns, key))
  }

  /** The results hold every source's answer once, in the order they happened to arrive. */
  ghost predicate Arrived(results: seq<SourceResult>, nodes: map<string, Node>, sources: set<string>) {
    && (forall i | 0 <= i < |results| ::
          && results[i].peer in sources && results[i].peer in nodes
          && results[i].csns == CsnsOf(nodes[results[i].peer])
          && (results[i].up <==> nodes[results[i].peer].Root?))
    && (forall u | u in sources :: exists i :: 0 <= i < |results| && results[i].peer == u)
    && (forall i, j | 0 <= i < j < |results| :: results[i].peer != results[j].peer)
  }

  /** The reference of a key: no source is ahead of it, and unless it is 0 one source holds it. */
  ghost predicate IsReference(nodes: map<string, Node>, key: CsnKey, m: int) {
    && m >= 0
    && (forall u | u in nodes :: Get(CsnsOf(nodes[u]), key) <= m)
    && (m == 0 || exists u :: u in nodes && Get(CsnsOf(nodes[u]), key) == m)
  }

  lemma {:induction false} MaxOverBounds(results: seq<SourceResult>, key: CsnKey)
    ensures forall i | 0 <= i < |results| :: Get(results[i].csns, key) <= MaxOver(results, key)
    ensures MaxOver(results, key) == 0 ||
            exists i :: 0 <= i < |results| && Get(results[i].csns, key) == MaxOver(results, key)
  {
    if results != [] {
      var before := results[..|results| - 1];
      MaxOverBounds(before, key);
      assert forall i | 0 <= i < |before| :: before[i] == results[i];
      if MaxOver(results, key) != 0 && MaxOver(results, key) == MaxOver(before, key) {
        var i :| 0 <= i < |before| && Get(before[i].csns, key) == MaxOver(before, key);
        assert Get(results[i].csns, key) == MaxOver(results, key);
      }
    }
  }

  lemma MaxOverIsReference(results: seq<SourceResult>, nodes: map<string, Node>, key: CsnKey)
    requires Arrived(results, nodes, nodes.Keys)
    ensures IsReference(nodes, key, MaxOver(results, key))
  {
    hide CsnsOf;
    MaxOverBounds(results, key);
    var m := MaxOver(results, key);
    forall u | u in nodes ensures Get(CsnsOf(nodes[u]), key) <= m {
      var i :| 0 <= i < |results| && results[i].peer == u;
    }
    if m != 0 {
      var i :| 0 <= i < |results| && Get(results[i].csns, key) == m;
      assert Get(CsnsOf(nodes[results[i].peer]), key) == m;
    }
  }

  ghost function Reference(nodes: map<string, Node>, key: CsnKey): (m: int)
    ensures IsReference(nodes, key, m)
  {
    ReferenceExists(nodes, key);
    var m :| IsReference(nodes, key, m);
    m
  }

  lemma ReferenceExists(nodes: map<string, Node>, key: CsnKey)
    ensures exists m :: IsReference(nodes, key, m)
  {
    var results := AnyOrder(nodes, nodes.Keys);
    MaxOverIsReference(results, nodes, key);
  }

  lemma {:induction false} AnyOrder(nodes: map<string, Node>, sources: set<string>) returns (results: seq<SourceResult>)
    requires sources <= nodes.Keys
    ensures Arrived(results, nodes, sources)
  {
    hide CsnsOf;
    results := [];
    if u :| u in sources {
      var rest := AnyOrder(nodes, sources - {u});
      results := rest + [SourceResult(u, CsnsOf(nodes[u]), nodes[u].Root?)];
      ArriveOne(rest, nodes, sources - {u}, u);
      assert sources - {u} + {u} == sources;
    }
  }

  lemma ArriveOne(results: seq<SourceResult>, nodes: map<string, Node>, sources: set<string>, u: string)
    requires Arrived(results, nodes, sources) && u !in sources && u in nodes
    ensures Arrived(results + [SourceResult(u, CsnsOf(nodes[u]), nodes[u].Root?)], nodes, sources + {u})
  {
    hide CsnsOf;
    var more := results + [SourceResult(u, CsnsOf(nodes[u]), nodes[u].Root?)];
    forall v | v in sources + {u} ensures exists i :: 0 <= i < |more| && more[i].peer == v {
      if v == u {
        assert more[|results|].peer == v;
      } else {
        var i :| 0 <= i < |results| && results[i].peer == v;
        assert more[i].peer == v;
      }
    }
  }

  lemma ReferenceUnique(nodes: map<string, Node>, key: CsnKey, m: int)
    requires IsReference(nodes, key, m)
    ensures m == Reference(nodes, key)
  {
    hide CsnsOf;
  }

  /** The published lag: what is missing to the reference, clamped at 0. */
  function Lag(reference: int, epoch: int): int {
    if reference - epoch < 0 then 0 else reference - epoch
  }

  /** What a peer itself stores for the key of a series. */
  function Own(nodes: map<string, Node>, s: Series): int {
    if s.peer in nodes then Get(CsnsOf(nodes[s.peer]), s.key) else 0
  }

  /** A series of one of the peers in the set; the local node emits none. */
  ghost predicate Emits(nodes: map<string, Node>, peers: set<string>, s: Series) {
    s.peer in peers && s.peer != LOCAL && s.peer in nodes && s.key in CsnsOf(nodes[s.peer])
  }

  ghost function SeriesOf(nodes: map<string, Node>, peers: set<string>): (all: set<Series>)
    ensures forall s :: s in all <==> Emits(nodes, peers, s)
  {
    set u, key | u in peers && u != LOCAL && u in nodes && key in CsnsOf(nodes[u]) :: Series(u, key)
  }

  ghost function UpAfter(up: map<string, int>, nodes: map<string, Node>, told: set<string>): map<string, int> {
    map u | u in up.Keys + told :: if u in told then (if u in nodes && nodes[u].Root? then 1 else 0) else up[u]
  }

  ghost function CsnAfter(csn: map<Series, int>, nodes: map<string, Node>, told: set<Series>): map<Series, int> {
    map s | s in csn.Keys + told :: if s in told then Own(nodes, s) else csn[s]
  }

  ghost function LagAfter(lag: map<Series, int>, nodes: map<string, Node>, told: set<Series>): map<Series, int> {
    map s | s in lag.Keys + told :: if s in told then Lag(Reference(nodes, s.key), Own(nodes, s)) else lag[s]
  }

  /** The gauges after a round: the series of every peer asked are set, all others keep their value. */
  ghost function Published(g: Gauges, nodes: map<string, Node>): Gauges {
    PartlyPublished(g, nodes, nodes.Keys - {LOCAL}, SeriesOf(nodes, nodes.Keys))
  }

  ghost function PartlyPublished(g: Gauges, nodes: map<string, Node>, peers: set<string>, series: set<Series>): Gauges {
    Gauges(UpAfter(g.up, nodes, peers), CsnAfter(g.csn, nodes, series), LagAfter(g.lag, nodes, series))
  }

  lemma PublishNone(g: Gauges, nodes: map<string, Node>)
    ensures PartlyPublished(g, nodes, {}, {}) == g
  {
    hide Own, Reference;
  }

  lemma PublishUp(g: Gauges, nodes: map<string, Node>, peers: set<string>, series: set<Series>, u: string)
    requires u in nodes
    ensures var now := PartlyPublished(g, nodes, peers, series);
            PartlyPublished(g, nodes, peers + {u}, series) == now.(up := now.up[u := if nodes[u].Root? then 1 else 0])
  {
    hide Own, Reference, CsnAfter, LagAfter;
  }

  lemma PublishCsn(csn: map<Series, int>, nodes: map<string, Node>, told: set<Series>, s: Series)
    ensures CsnAfter(csn, nodes, told + {s}) == CsnAfter(csn, nodes, told)[s := Own(nodes, s)]
  {
    hide Own;
  }

  lemma PublishLag(lag: map<Series, int>, nodes: map<string, Node>, told: set<Series>, s: Series)
    ensures LagAfter(lag, nodes, told + {s}) == LagAfter(lag, nodes, told)[s := Lag(Reference(nodes, s.key), Own(nodes, s))]
  {
    hide Own, Reference, Lag;
  }

  lemma PublishSeries(g: Gauges, nodes: map<string, Node>, peers: set<string>, series: set<Series>, s: Series)
    ensures var now := PartlyPublished(g, nodes, peers, series);
            PartlyPublished(g, nodes, peers, series + {s}) ==
            now.(csn := now.csn[s := Own(nodes, s)],
                 lag := now.lag[s := Lag(Reference(nodes, s.key), Own(nodes, s))])
  {
    hide Own, Reference, UpAfter, CsnAfter, LagAfter;
    PublishCsn(g.csn, nodes, series, s);
    PublishLag(g.lag, nodes, series, s);
  }

  /** Every source is read; the answers arrive in any order. */
  method ReadAll(nodes: map<string, Node>) returns (results: seq<SourceResult>)
    ensures Arrived(results, nodes, nodes.Keys)
  {
    hide CsnsOf;
    results := [];
    var todo := nodes.Keys;
    while todo != {}
      invariant todo <= nodes.Keys && Arrived(results, nodes, nodes.Keys - todo)
      decreases todo
    {
      var u :| u in todo;
      var csns, up := ReadCSN(nodes[u]);
      ArriveOne(results, nodes, nodes.Keys - todo, u);
      results := results + [SourceResult(u, csns, up)];
      assert nodes.Keys - (todo - {u}) == nodes.Keys - todo + {u};
      todo := todo - {u};
    }
    assert nodes.Keys - todo == nodes.Keys;
  }

  /** The reference map: an absent key reads as 0. */
  method BuildReference(results: seq<SourceResult>) returns (reference: map<CsnKey, int>)
    ensures forall key :: Get(reference, key) == MaxOver(results, key)
  {
    reference := map[];
    for i := 0 to |results|
      invariant forall key :: Get(reference, key) == MaxOver(results[..i], key)
    {
      var csns := results[i].csns;
      var todo := csns.Keys;
      assert results[..i + 1][..i] == results[..i];
      while todo != {}
        invariant todo <= csns.Keys
        invariant forall key :: Get(reference, key) == if key in csns && key !in todo then MaxOver(results[..i + 1], key)
                                                       else MaxOver(results[..i], key)
        decreases todo
      {
        var key :| key in todo;
        if csns[key] > Get(reference, key) {
          reference := reference[key := csns[key]];
        }
        todo := todo - {key};
      }
    }
    assert results[..|results|] == results;
  }

  // ---------------------------------------------------------------- the peer set

  /** A poller's state: each peer's client, how many clients were ever built (a client is
      numbered by its turn), how often each was closed, and the gauges. */
  datatype State = State(peers: map<string, nat>, built: nat, closes: multiset<nat>, gauges: Gauges)

  /** New peers get a client each, known ones keep theirs. */
  function WithNew(s: State, discovered: seq<string>): State {
    if discovered == [] then s
    else var t, uri := WithNew(s, discovered[..|discovered| - 1]), discovered[|discovered| - 1];
         if uri in t.peers then t else t.(peers := t.peers[uri := t.built], built := t.built + 1)
  }

  /** DeletePartialMatch on the peer label of the three vectors. */
  function Pruned(g: Gauges, peer: string): Gauges {
    Gauges(g.up - {peer},
           map s | s in g.csn && s.peer != peer :: g.csn[s],
           map s | s in g.lag && s.peer != peer :: g.lag[s])
  }

  /** A peer that disappeared: client closed, entry dropped, series pruned. */
  function Dropped(s: State, uri: string): State
    requires uri in s.peers
  {
    s.(peers := s.peers - {uri}, closes := s.closes + multiset{s.peers[uri]}, gauges := Pruned(s.gauges, uri))
  }

  /** The peers among some URIs that a client serves. */
  function Holders(peers: map<string, nat>, uris: set<string>, id: nat): set<string> {
    set u | u in uris && u in peers && peers[u] == id
  }

  lemma HoldersStep(peers: map<string, nat>, uris: set<string>, uri: string, id: nat)
    requires uri in peers && uri !in uris
    ensures |Holders(peers, uris + {uri}, id)| == |Holders(peers, uris, id)| + (if peers[uri] == id then 1 else 0)
  {
    assert Holders(peers, uris + {uri}, id) ==
           if peers[uri] == id then Holders(peers, uris, id) + {uri} else Holders(peers, uris, id);
  }

  function Without(g: Gauges, gone: set<string>): Gauges {
    Gauges(g.up - gone,
           map s | s in g.csn && s.peer !in gone :: g.csn[s],
           map s | s in g.lag && s.peer !in gone :: g.lag[s])
  }

  lemma WithoutStep(g: Gauges, gone: set<string>, uri: string)
    ensures Pruned(Without(g, gone), uri) == Without(g, gone + {uri})
    ensures Without(g, {}) == g
  {
    assert Pruned(Without(g, gone), uri).up == Without(g, gone + {uri}).up;
    assert Without(g, {}).up == g.up;
  }

  /** t is s with the peers of a set dropped: each of their clients closed once more, each of
      their series gone. */
  ghost predicate DroppedAll(s: State, t: State, gone: set<string>) {
    && t.peers == s.peers - gone
    && t.built == s.built
    && (forall id: nat :: t.closes[id] == s.closes[id] + |Holders(s.peers, gone, id)|)
    && t.gauges == Without(s.gauges, gone)
  }

  lemma DropNone(s: State)
    ensures DroppedAll(s, s, {})
  {
    WithoutStep(s.gauges, {}, LOCAL);
    assert s.peers - {} == s.peers;
  }

  lemma DropOne(s: State, t: State, gone: set<string>, uri: string)
    requires DroppedAll(s, t, gone) && uri in t.peers && uri !in gone
    ensures DroppedAll(s, Dropped(t, uri), gone + {uri})
  {
    hide Holders, Without, Pruned;
    WithoutStep(s.gauges, gone, uri);
    assert s.peers - gone - {uri} == s.peers - (gone + {uri});
    forall id: nat ensures Dropped(t, uri).closes[id] == s.closes[id] + |Holders(s.peers, gone + {uri}, id)| {
      HoldersStep(s.peers, gone, uri, id);
    }
  }

  class Poller {
    var peers: map<string, nat>
    var built: nat
    var closes: multiset<nat>
    var gauges: Gauges

    ghost function Now(): State
      reads this
    { State(peers, built, closes, gauges) }

    constructor ()
      ensures Now() == State(map[], 0, multiset{}, Gauges(map[], map[], map[]))
    {
      peers, built, closes, gauges := map[], 0, multiset{}, Gauges(map[], map[], map[]);
    }

    method ReconcilePeers(discovered: seq<string>, reliable: bool)
      modifies this
      ensures var known := WithNew(old(Now()), discovered);
              if reliable then DroppedAll(known, Now(), known.peers.Keys - (set u | u in discovered))
              else Now() == known
    {
      var want := AddPeers(discovered);
      if !reliable {
        return;
      }
      DropPeers(want);
    }

    method AddPeers(discovered: seq<string>) returns (want: set<string>)
      modifies this
      ensures want == set u | u in discovered
      ensures Now() == WithNew(old(Now()), discovered)
    {
      want := {};
      for i := 0 to |discovered|
        invariant want == set u | u in discovered[..i]
        invariant Now() == WithNew(old(Now()), discovered[..i])
      {
        assert discovered[..i + 1] == discovered[..i] + [discovered[i]];
        assert discovered[..i + 1][..i] == discovered[..i];
        var uri := discovered[i];
        want := want + {uri};
        if uri !in peers {
          peers := peers[uri := built];
          built := built + 1;
        }
      }
      assert discovered[..|discovered|] == discovered;
    }

    method DropPeer(uri: string)
      requires uri in peers
      modifies this
      ensures Now() == Dropped(old(Now()), uri)
    {
      closes := closes + multiset{peers[uri]};
      peers := peers - {uri};
      PrunePeerMetrics(uri);
    }

    method DropPeers(want: set<string>)
      modifies this
      ensures DroppedAll(old(Now()), Now(), old(peers).Keys - want)
    {
      hide DroppedAll, Pruned;
      ghost var known, visited: set<string> := Now(), {};
      var todo := peers.Keys;
      DropNone(known);
      assert visited - want == {};
      while todo != {}
        invariant visited !! todo && visited + todo == known.peers.Keys && todo <= peers.Keys
        invariant DroppedAll(known, Now(), visited - want)
        decreases todo
      {
        var uri :| uri in todo;
        if uri !in want {
          DropOne(known, Now(), visited - want, uri);
          DropPeer(uri);
        }
        assert visited + {uri} - want == if uri in want then visited - want else visited - want + {uri};
        visited := visited + {uri};
        todo := todo - {uri};
      }
      assert visited == known.peers.Keys;
    }

    method PrunePeerMetrics(peer: string)
      modifies `gauges
      ensures gauges == Pruned(old(gauges), peer)
    {
      gauges := gauges.(up := gauges.up - {peer});
      gauges := gauges.(csn := map s | s in gauges.csn && s.peer != peer :: gauges.csn[s]);
      gauges := gauges.(lag := map s | s in gauges.lag && s.peer != peer :: gauges.lag[s]);
    }

    method Poll(nodes: map<string, Node>)
      requires nodes.Keys == peers.Keys + {LOCAL}
      modifies `gauges
      ensures gauges == Published(old(gauges), nodes)
    {
      hide CsnsOf, PartlyPublished, IsReference;
      ghost var g := gauges;
      var results := ReadAll(nodes);
      var reference := BuildReference(results);
      forall key ensures Get(reference, key) == Reference(nodes, key) {
        MaxOverIsReference(results, nodes, key);
        ReferenceUnique(nodes, key, MaxOver(results, key));
      }
      ghost var done: set<string> := {};
      PublishNone(g, nodes);
      assert SeriesOf(nodes, {}) == {};
      assert done - {LOCAL} == {};
      for i := 0 to |results|
        invariant done == set j | 0 <= j < i :: results[j].peer
        invariant gauges == PartlyPublished(g, nodes, done - {LOCAL}, SeriesOf(nodes, done))
      {
        var r := results[i];
        ghost var was := done;
        done := done + {r.peer};
        if r.peer == LOCAL {
          assert done - {LOCAL} == was - {LOCAL};
          assert SeriesOf(nodes, done) == SeriesOf(nodes, was);
          continue;
        }
        PublishUp(g, nodes, was - {LOCAL}, SeriesOf(nodes, was), r.peer);
        assert done - {LOCAL} == was - {LOCAL} + {r.peer};
        gauges := gauges.(up := gauges.up[r.peer := if r.up then 1 else 0]);
        PublishPeer(r, reference, g, nodes, was);
      }
      assert done == nodes.Keys;
    }

    /** The loop over one peer's keys. */
    method PublishPeer(r: SourceResult, reference: map<CsnKey, int>, ghost g: Gauges, ghost nodes: map<string, Node>,
                       ghost was: set<string>)
      requires r.peer in nodes && r.csns == CsnsOf(nodes[r.peer]) && r.peer != LOCAL && r.peer !in was
      requires forall key :: Get(reference, key) == Reference(nodes, key)
      requires gauges == PartlyPublished(g, nodes, was + {r.peer} - {LOCAL}, SeriesOf(nodes, was))
      modifies `gauges
      ensures gauges == PartlyPublished(g, nodes, was + {r.peer} - {LOCAL}, SeriesOf(nodes, was + {r.peer}))
    {
      hide CsnsOf, PartlyPublished;
      ghost var told, peers := SeriesOf(nodes, was), was + {r.peer} - {LOCAL};
      var todo := r.csns.Keys;
      while todo != {}
        invariant todo <= r.csns.Keys
        invariant forall s :: s in told <==> Emits(nodes, was, s) || (s.peer == r.peer && s.key in r.csns && s.key !in todo)
        invariant gauges == PartlyPublished(g, nodes, peers, told)
        decreases todo
      {
        var key :| key in todo;
        var s, ts := Series(r.peer, key), r.csns[key];
        PublishSeries(g, nodes, peers, told, s);
        gauges := gauges.(csn := gauges.csn[s := ts]);
        var lag := Get(reference, key) - ts;
        if lag < 0 {
          lag := 0;
        }
        gauges := gauges.(lag := gauges.lag[s := lag]);
        told := told + {s};
        todo := todo - {key};
      }
      assert told == SeriesOf(nodes, was + {r.peer});
    }

    /** Stop, once the loop has ended: every remaining client is closed; the map keeps them. */
    method Stop()
      modifies `closes
      ensures forall id: nat :: closes[id] == old(closes)[id] + |Holders(peers, peers.Keys, id)|
    {
      hide Holders;
      ghost var visited: set<string> := {};
      var todo := peers.Keys;
      HoldersNone(peers);
      while todo != {}
        invariant visited !! todo && visited + todo == peers.Keys
        invariant forall id: nat :: closes[id] == old(closes)[id] + |Holders(peers, visited, id)|
        decreases todo
      {
        var uri :| uri in todo;
        forall id: nat {
          HoldersStep(peers, visited, uri, id);
        }
        closes := closes + multiset{peers[uri]};
        visited := visited + {uri};
        todo := todo - {uri};
      }
      assert visited == peers.Keys;
    }
  }

  lemma HoldersNone(peers: map<string, nat>)
    ensures forall id: nat :: Holders(peers, {}, id) == {}
  {
  }
}
