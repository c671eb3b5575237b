/** What the poller's published lag means, and what every run of reconcile and poll rounds keeps. */
module ReplicationRuns {
  import opened Replication
  import opened Strings

  // ---------------------------------------------------------------- readCSN

  ghost predicate InValues(values: seq<Parsed>, sid: string, epoch: int) { Stamp(epoch, sid) in values }

  ghost predicate InContext(attributes: seq<ContextAttr>, sid: string, epoch: int) {
    exists a :: a in attributes && a.name == "contextCSN" && InValues(a.values, sid, epoch)
  }

  /** A naming context that is not a data suffix: its DN begins with cn=, in any case of letters. */
  predicate BeginsWithCn(dn: string) {
    |dn| >= 3 && dn[0] in {'c', 'C'} && dn[1] in {'n', 'N'} && dn[2] == '='
  }

  lemma DataSuffixMeans(dn: string)
    ensures IsDataSuffix(dn) <==> !BeginsWithCn(dn)
  {
    var low := ToLower(dn);
    assert |low| == |dn|;
    if |dn| >= 3 {
      assert low[0] == LowerChar(dn[0]) && low[1] == LowerChar(dn[1]) && low[2] == LowerChar(dn[2]);
      assert "cn=" <= low <==> low[..3] == "cn=";
      assert low[..3] == "cn=" <==> low[0] == 'c' && low[1] == 'n' && low[2] == '=';
    }
  }

  ghost predicate InSuffix(s: Suffix, key: CsnKey, epoch: int) {
    && s.dn == key.baseDN && !BeginsWithCn(s.dn)
    && s.answer.Context? && InContext(s.answer.attributes, key.serverID, epoch)
  }

  ghost predicate InSuffixes(suffixes: seq<Suffix>, key: CsnKey, epoch: int) {
    exists s :: s in suffixes && InSuffix(s, key, epoch)
  }

  ghost predicate InRoot(attributes: seq<RootAttr>, key: CsnKey, epoch: int) {
    exists a :: a in attributes && a.name == "namingContexts" && InSuffixes(a.values, key, epoch)
  }

  /** Somewhere in its answers the node reports this CSN time for the key. */
  ghost predicate Reports(node: Node, key: CsnKey, epoch: int) {
    node.Root? && InRoot(node.attributes, key, epoch)
  }

  lemma {:induction false} ValuesRead(dn: string, values: seq<Parsed>, key: CsnKey, epoch: int)
    ensures Reading(key, epoch) in ValueReadings(dn, values) <==> dn == key.baseDN && InValues(values, key.serverID, epoch)
  {
    if values != [] {
      ValuesRead(dn, values[..|values| - 1], key, epoch);
      assert values == values[..|values| - 1] + [values[|values| - 1]];
    }
  }

  lemma {:induction false} ContextRead(dn: string, attributes: seq<ContextAttr>, key: CsnKey, epoch: int)
    ensures Reading(key, epoch) in AttrReadings(dn, attributes) <==>
            dn == key.baseDN && InContext(attributes, key.serverID, epoch)
  {
    if attributes != [] {
      var before, a := attributes[..|attributes| - 1], attributes[|attributes| - 1];
      ContextRead(dn, before, key, epoch);
      ValuesRead(dn, a.values, key, epoch);
      assert attributes == before + [a];
      assert InContext(attributes, key.serverID, epoch) <==>
             InContext(before, key.serverID, epoch) || (a.name == "contextCSN" && InValues(a.values, key.serverID, epoch));
    }
  }

  lemma {:induction false} SuffixesRead(suffixes: seq<Suffix>, key: CsnKey, epoch: int)
    ensures Reading(key, epoch) in SuffixReadings(suffixes) <==> InSuffixes(suffixes, key, epoch)
  {
    hide InContext, AttrReadings, IsDataSuffix, BeginsWithCn;
    if suffixes != [] {
      var before, s := suffixes[..|suffixes| - 1], suffixes[|suffixes| - 1];
      DataSuffixMeans(s.dn);
      SuffixesRead(before, key, epoch);
      if s.answer.Context? {
        ContextRead(s.dn, s.answer.attributes, key, epoch);
      }
      assert suffixes == before + [s];
      assert InSuffixes(suffixes, key, epoch) <==> InSuffixes(before, key, epoch) || InSuffix(s, key, epoch);
    }
  }

  lemma {:induction false} RootRead(attributes: seq<RootAttr>, key: CsnKey, epoch: int)
    ensures Reading(key, epoch) in RootReadings(attributes) <==> InRoot(attributes, key, epoch)
  {
    hide InSuffixes, SuffixReadings;
    if attributes != [] {
      var before, a := attributes[..|attributes| - 1], attributes[|attributes| - 1];
      RootRead(before, key, epoch);
      SuffixesRead(a.values, key, epoch);
      assert attributes == before + [a];
      assert InRoot(attributes, key, epoch) <==>
             InRoot(before, key, epoch) || (a.name == "namingContexts" && InSuffixes(a.values, key, epoch));
    }
  }

  /** readCSN stores a key exactly when some positive CSN time is reported for it, and stores
      the greatest time reported. */
  lemma StoresGreatestReport(node: Node, key: CsnKey)
    ensures var csns := CsnsOf(node);
            && (key in csns <==> exists epoch :: epoch > 0 && Reports(node, key, epoch))
            && (key in csns ==> csns[key] > 0 && Reports(node, key, csns[key])
                                && forall epoch | Reports(node, key, epoch) :: epoch <= csns[key])
  {
    hide Reports, Merged, InRoot, RootReadings;
    var q := Readings(node);
    MergedIsGreatest(q, key);
    forall epoch ensures Reading(key, epoch) in q <==> Reports(node, key, epoch) {
      ReadingReported(node, key, epoch);
    }
    if i :| 0 <= i < |q| && q[i].key == key && q[i].epoch > 0 {
      assert q[i] == Reading(key, q[i].epoch) && q[i] in q;
    }
    forall epoch | Reports(node, key, epoch)
      ensures exists i :: 0 <= i < |q| && q[i] == Reading(key, epoch)
    {
      assert Reading(key, epoch) in q;
    }
  }

  lemma ReadingReported(node: Node, key: CsnKey, epoch: int)
    ensures Reading(key, epoch) in Readings(node) <==> Reports(node, key, epoch)
  {
    if node.Root? {
      RootRead(node.attributes, key, epoch);
    }
  }

  // ---------------------------------------------------------------- the published lag

  /** m is the most advanced CSN time that any source, local included, reports for the key. */
  ghost predicate MostAdvanced(nodes: map<string, Node>, key: CsnKey, m: int) {
    && (exists v :: v in nodes && Reports(nodes[v], key, m))
    && (forall v, epoch | v in nodes && Reports(nodes[v], key, epoch) :: epoch <= m)
  }

  lemma ReferenceIsMostAdvanced(nodes: map<string, Node>, key: CsnKey, u: string)
    requires u in nodes && key in CsnsOf(nodes[u])
    ensures MostAdvanced(nodes, key, Reference(nodes, key))
  {
    hide CsnsOf, Reports, Reference;
    var m := Reference(nodes, key);
    assert IsReference(nodes, key, m);
    forall v | v in nodes
      ensures key in CsnsOf(nodes[v]) ==> CsnsOf(nodes[v])[key] > 0 && Reports(nodes[v], key, CsnsOf(nodes[v])[key])
      ensures forall epoch | Reports(nodes[v], key, epoch) :: epoch <= Get(CsnsOf(nodes[v]), key)
    {
      StoresGreatestReport(nodes[v], key);
    }
    assert Get(CsnsOf(nodes[u]), key) > 0;
    var v :| v in nodes && Get(CsnsOf(nodes[v]), key) == m;
  }

  /** A source's own value against the reference: never ahead, level exactly when it reports it. */
  lemma OwnAgainstReference(nodes: map<string, Node>, u: string, key: CsnKey)
    requires u in nodes && key in CsnsOf(nodes[u])
    ensures CsnsOf(nodes[u])[key] <= Reference(nodes, key)
    ensures CsnsOf(nodes[u])[key] == Reference(nodes, key) <==> Reports(nodes[u], key, Reference(nodes, key))
  {
    hide CsnsOf, Reports, Reference;
    assert IsReference(nodes, key, Reference(nodes, key));
    assert Get(CsnsOf(nodes[u]), key) <= Reference(nodes, key);
    StoresGreatestReport(nodes[u], key);
  }

  lemma PublishedAt(g: Gauges, nodes: map<string, Node>, s: Series)
    ensures var after := Published(g, nodes);
            && (s in after.csn <==> s in g.csn || Emits(nodes, nodes.Keys, s))
            && (s in after.lag <==> s in g.lag || Emits(nodes, nodes.Keys, s))
            && (Emits(nodes, nodes.Keys, s) ==>
                  && after.csn[s] == CsnsOf(nodes[s.peer])[s.key]
                  && after.lag[s] == Lag(Reference(nodes, s.key), CsnsOf(nodes[s.peer])[s.key]))
  {
    hide CsnsOf, Reference, UpAfter;
  }

  /** A peer's published CSN is its own greatest; its lag is what it misses to the most advanced
      source.  The subtraction is never negative, so the clamp never fires, and the lag is 0
      exactly when the peer itself reports the most advanced CSN. */
  lemma {:induction false} LagIsDistanceToMostAdvanced(g: Gauges, nodes: map<string, Node>, u: string, key: CsnKey)
    requires u in nodes && u != LOCAL && key in CsnsOf(nodes[u])
    ensures var after := Published(g, nodes);
            var s := Series(u, key);
            && s in after.csn && s in after.lag
            && after.csn[s] == CsnsOf(nodes[u])[key]
            && MostAdvanced(nodes, key, after.csn[s] + after.lag[s])
            && after.lag[s] == Reference(nodes, key) - after.csn[s] >= 0
            && (after.lag[s] == 0 <==> Reports(nodes[u], key, Reference(nodes, key)))
  {
    hide CsnsOf, Reports, Reference, Published, MostAdvanced;
    ReferenceIsMostAdvanced(nodes, key, u);
    OwnAgainstReference(nodes, u, key);
    PublishedAt(g, nodes, Series(u, key));
    assert Emits(nodes, nodes.Keys, Series(u, key));
  }

  /** The reachability gauge of every peer asked reads 1 exactly when it answered. */
  lemma UpMeansReachable(g: Gauges, nodes: map<string, Node>, u: string)
    requires u in nodes && u != LOCAL
    ensures var after := Published(g, nodes);
            && u in after.up && after.up[u] in {0, 1} && (after.up[u] == 1 <==> nodes[u].Root?)
  {
    hide CsnAfter, LagAfter, SeriesOf;
  }

  /** What a peer did not report this round keeps its last CSN and lag, and the gauges of URIs that
      were not asked stay as they are. */
  lemma SilenceKeepsTheLastValue(g: Gauges, nodes: map<string, Node>, s: Series)
    requires s.peer !in nodes || s.peer == LOCAL || s.key !in CsnsOf(nodes[s.peer])
    ensures var after := Published(g, nodes);
            && (s in after.csn <==> s in g.csn) && (s in g.csn ==> after.csn[s] == g.csn[s])
            && (s in after.lag <==> s in g.lag) && (s in g.lag ==> after.lag[s] == g.lag[s])
            && (s.peer !in nodes || s.peer == LOCAL ==>
                  (s.peer in after.up <==> s.peer in g.up) && (s.peer in g.up ==> after.up[s.peer] == g.up[s.peer]))
  {
    hide CsnsOf, Reference;
    assert !Emits(nodes, nodes.Keys, s);
  }

  // ---------------------------------------------------------------- runs

  datatype Event = Reconcile(discovered: seq<string>, reliable: bool) | Round(nodes: map<string, Node>)

  ghost predicate Step(s: State, e: Event, t: State) {
    match e
    case Reconcile(discovered, reliable) =>
      var known := WithNew(s, discovered);
      LOCAL !in discovered &&
      if reliable then DroppedAll(known, t, known.peers.Keys - (set u | u in discovered)) else t == known
    case Round(nodes) => nodes.Keys == s.peers.Keys + {LOCAL} && t == s.(gauges := Published(s.gauges, nodes))
  }

  ghost predicate IsRun(trace: seq<State>, events: seq<Event>) {
    && |trace| == |events| + 1
    && trace[0] == State(map[], 0, multiset{}, Gauges(map[], map[], map[]))
    && forall i | 0 <= i < |events| :: Step(trace[i], events[i], trace[i + 1])
  }

  ghost predicate Serves(peers: map<string, nat>, id: nat) { exists u :: u in peers && peers[u] == id }

  /** One open client per URI: no client serves two URIs, a client in the map was never closed,
      and every other client ever built was closed exactly once. */
  ghost predicate ClientsInOrder(s: State) {
    && (forall u | u in s.peers :: s.peers[u] < s.built)
    && (forall u, v | u in s.peers && v in s.peers && s.peers[u] == s.peers[v] :: u == v)
    && (forall id: nat :: s.closes[id] == if id < s.built && !Serves(s.peers, id) then 1 else 0)
  }

  /** Series only for URIs in the map, and no client for the local node. */
  ghost predicate SeriesInOrder(s: State) {
    && LOCAL !in s.peers
    && s.gauges.up.Keys <= s.peers.Keys
    && (forall x | x in s.gauges.csn :: x.peer in s.peers)
    && (forall x | x in s.gauges.lag :: x.peer in s.peers)
  }

  lemma AddOneClient(s: State, uri: string)
    requires ClientsInOrder(s) && uri !in s.peers
    ensures ClientsInOrder(s.(peers := s.peers[uri := s.built], built := s.built + 1))
  {
    var t := s.(peers := s.peers[uri := s.built], built := s.built + 1);
    assert t.peers[uri] == s.built;
    forall id: nat ensures Serves(t.peers, id) <==> Serves(s.peers, id) || id == s.built {
      if Serves(s.peers, id) {
        var u :| u in s.peers && s.peers[u] == id;
        assert u in t.peers && t.peers[u] == id;
      }
    }
  }

  lemma {:induction false} AddKeeps(s: State, discovered: seq<string>)
    ensures var t := WithNew(s, discovered);
            && t.peers.Keys == s.peers.Keys + (set u | u in discovered)
            && (forall u | u in s.peers :: t.peers[u] == s.peers[u])
            && (forall u | u in t.peers && u !in s.peers :: t.peers[u] >= s.built)
            && t.built >= s.built && t.closes == s.closes && t.gauges == s.gauges
            && (ClientsInOrder(s) ==> ClientsInOrder(t))
  {
    hide ClientsInOrder;
    if discovered != [] {
      var before, uri := discovered[..|discovered| - 1], discovered[|discovered| - 1];
      AddKeeps(s, before);
      assert discovered == before + [uri];
      assert (set u | u in discovered) == (set u | u in before) + {uri};
      var t := WithNew(s, before);
      if uri !in t.peers && ClientsInOrder(s) {
        AddOneClient(t, uri);
      }
    }
  }

  /** Dropping a peer closes its client once. */
  lemma OneHolder(s: State, gone: set<string>, id: nat)
    requires ClientsInOrder(s) && gone <= s.peers.Keys
    ensures |Holders(s.peers, gone, id)| == if Serves(s.peers, id) && !Serves(s.peers - gone, id) then 1 else 0
  {
    if u :| u in gone && s.peers[u] == id {
      assert Holders(s.peers, gone, id) == {u};
    } else {
      assert Holders(s.peers, gone, id) == {};
      if Serves(s.peers, id) {
        var u :| u in s.peers && s.peers[u] == id;
        assert u in s.peers - gone && (s.peers - gone)[u] == id;
      }
    }
  }

  lemma DropKeeps(s: State, t: State, gone: set<string>)
    requires ClientsInOrder(s) && gone <= s.peers.Keys && DroppedAll(s, t, gone)
    ensures ClientsInOrder(t)
  {
    hide Without, Holders;
    forall id: nat ensures t.closes[id] == if id < t.built && !Serves(t.peers, id) then 1 else 0 {
      OneHolder(s, gone, id);
      if Serves(t.peers, id) {
        var u :| u in t.peers && t.peers[u] == id;
        assert u in s.peers && s.peers[u] == id;
      }
      if Serves(s.peers, id) {
        var u :| u in s.peers && s.peers[u] == id;
      }
    }
  }

  lemma StepKeepsClients(s: State, e: Event, t: State)
    requires ClientsInOrder(s) && Step(s, e, t)
    ensures ClientsInOrder(t)
  {
    hide ClientsInOrder, DroppedAll, Published;
    match e {
      case Reconcile(discovered, reliable) =>
        AddKeeps(s, discovered);
        if reliable {
          var known := WithNew(s, discovered);
          DropKeeps(known, t, known.peers.Keys - (set u | u in discovered));
        }
      case Round(nodes) =>
        SameClients(s, t);
    }
  }

  lemma SameClients(s: State, t: State)
    requires t == s.(gauges := t.gauges) && ClientsInOrder(s)
    ensures ClientsInOrder(t)
  {
  }

  lemma StepKeepsSeries(s: State, e: Event, t: State)
    requires SeriesInOrder(s) && Step(s, e, t)
    ensures SeriesInOrder(t)
  {
    match e {
      case Reconcile(discovered, reliable) =>
        hide Holders, Published;
        AddKeeps(s, discovered);
      case Round(nodes) =>
        hide WithNew, DroppedAll;
        RoundSeries(s, nodes);
    }
  }

  lemma RoundSeries(s: State, nodes: map<string, Node>)
    requires SeriesInOrder(s) && nodes.Keys == s.peers.Keys + {LOCAL}
    ensures SeriesInOrder(s.(gauges := Published(s.gauges, nodes)))
    ensures Published(s.gauges, nodes).up.Keys == s.peers.Keys
  {
    hide CsnsOf, Reference;
    forall x ensures x in Published(s.gauges, nodes).csn ==> x.peer in s.peers
             ensures x in Published(s.gauges, nodes).lag ==> x.peer in s.peers
    {
      PublishedAt(s.gauges, nodes, x);
    }
  }

  /** Every state of every run is in order. */
  lemma {:induction false} RunKeepsOrder(trace: seq<State>, events: seq<Event>, i: nat)
    requires IsRun(trace, events) && i < |trace|
    ensures ClientsInOrder(trace[i]) && SeriesInOrder(trace[i])
  {
    if i == 0 {
      assert forall id: nat :: !Serves(map[], id);
    } else {
      RunKeepsOrder(trace, events, i - 1);
      assert Step(trace[i - 1], events[i - 1], trace[i]);
      StepKeepsClients(trace[i - 1], events[i - 1], trace[i]);
      StepKeepsSeries(trace[i - 1], events[i - 1], trace[i]);
    }
  }

  /** A reliable round leaves exactly the discovered URIs; those already known keep their
      client and their series, a new one gets a client never used before. */
  lemma ReliableRound(s: State, discovered: seq<string>, t: State)
    requires Step(s, Reconcile(discovered, true), t) && ClientsInOrder(s)
    ensures t.peers.Keys == set u | u in discovered
    ensures forall u | u in t.peers :: if u in s.peers then t.peers[u] == s.peers[u] else t.peers[u] >= s.built
    ensures t.gauges == Without(s.gauges, s.peers.Keys - (set u | u in discovered))
    ensures forall x | x in s.gauges.csn && x.peer in s.peers ::
              (x in t.gauges.csn <==> x.peer in discovered) && (x in t.gauges.csn ==> t.gauges.csn[x] == s.gauges.csn[x])
    ensures forall x | x in s.gauges.lag && x.peer in s.peers ::
              (x in t.gauges.lag <==> x.peer in discovered) && (x in t.gauges.lag ==> t.gauges.lag[x] == s.gauges.lag[x])
    ensures forall u | u in s.gauges.up && u in s.peers ::
              (u in t.gauges.up <==> u in discovered) && (u in t.gauges.up ==> t.gauges.up[u] == s.gauges.up[u])
  {
    hide Holders, ClientsInOrder;
    AddKeeps(s, discovered);
    var want := set u | u in discovered;
    assert s.peers.Keys + want - want == s.peers.Keys - want;
  }

  /** An unreliable round only adds: no client is closed or replaced, no series touched. */
  lemma UnreliableRound(s: State, discovered: seq<string>, t: State)
    requires Step(s, Reconcile(discovered, false), t)
    ensures t.peers.Keys == s.peers.Keys + (set u | u in discovered)
    ensures forall u | u in s.peers :: t.peers[u] == s.peers[u]
    ensures t.closes == s.closes && t.gauges == s.gauges
  {
    AddKeeps(s, discovered);
  }

  /** After any run, a poll round gives every peer its reachability gauge and no other URI one. */
  lemma EveryPeerHasItsGauge(trace: seq<State>, events: seq<Event>, i: nat)
    requires IsRun(trace, events) && i < |events| && events[i].Round?
    ensures trace[i + 1].gauges.up.Keys == trace[i + 1].peers.Keys
  {
    RunKeepsOrder(trace, events, i);
    assert Step(trace[i], events[i], trace[i + 1]);
    RoundSeries(trace[i], events[i].nodes);
  }

  /** Stopping after any run: every client ever built has then been closed exactly once. */
  lemma StopClosesTheRest(trace: seq<State>, events: seq<Event>, closes: multiset<nat>, id: nat)
    requires IsRun(trace, events)
    requires var s := trace[|events|];
             forall k: nat :: closes[k] == s.closes[k] + |Holders(s.peers, s.peers.Keys, k)|
    ensures closes[id] == if id < trace[|events|].built then 1 else 0
  {
    RunKeepsOrder(trace, events, |events|);
    var s := trace[|events|];
    OneHolder(s, s.peers.Keys, id);
    assert !Serves(s.peers - s.peers.Keys, id);
    if Serves(s.peers, id) {
      var u :| u in s.peers && s.peers[u] == id;
    }
  }
}
