/** What syncing heartbeats means, for the two caches and for the stored nodes. */
module HeartbeatSpec {
  import opened Models

  // ---------- stored nodes ----------

  datatype NodeKey = NodeKey(appGuid: string, appVersion: string, instanceGuid: string)

  datatype NodeValue = NodeValue(instanceIndex: int, state: InstanceState, stateTimestamp: int, deaGuid: string)

  type Nodes = map<NodeKey, NodeValue>

  function KeyOf(h: InstanceHeartbeat): NodeKey { NodeKey(h.appGuid, h.appVersion, h.instanceGuid) }

  function ValueOf(h: InstanceHeartbeat): NodeValue {
    NodeValue(h.instanceIndex, h.state, h.stateTimestamp, h.deaGuid)
  }

  // A stored node read back.
  function Read(k: NodeKey, v: NodeValue): InstanceHeartbeat {
    InstanceHeartbeat(k.appGuid, k.appVersion, k.instanceGuid, v.instanceIndex, v.state, v.stateTimestamp, v.deaGuid)
  }

  // ---------- identities ----------

  // An instance guid determines the app, version, index and DEA of the instance.
  type Registry = string -> Identity

  ghost predicate Known(h: InstanceHeartbeat, who: Registry) { h.FixedPart() == who(h.instanceGuid) }

  ghost predicate KnownNodes(nodes: Nodes, who: Registry) {
    forall k :: k in nodes ==> Known(Read(k, nodes[k]), who)
  }

  // A DEA reports its own instances, each once.
  ghost predicate WellReported(hb: Heartbeat, who: Registry) {
    && DistinctGuids(hb.instanceHeartbeats)
    && (forall h :: h in hb.instanceHeartbeats ==> h.deaGuid == hb.deaGuid && Known(h, who))
  }

  // ---------- the two caches ----------

  type InstanceCache = map<string, InstanceHeartbeat>

  type DeaIndex = map<string, set<string>>

  ghost predicate KnownCache(cache: InstanceCache, who: Registry) {
    forall g :: g in cache ==> cache[g].instanceGuid == g && Known(cache[g], who)
  }

  // The index lists, for exactly the DEAs that have any, the guids of their cached instances.
  ghost predicate IndexAgrees(index: DeaIndex, cache: InstanceCache) {
    && (forall d :: d in index ==> index[d] != {})
    && (forall d, g :: d in index && g in index[d] ==> g in cache && cache[g].deaGuid == d)
    && (forall g :: g in cache ==> cache[g].deaGuid in index && g in index[cache[g].deaGuid])
  }

  ghost predicate CacheOk(index: DeaIndex, cache: InstanceCache, who: Registry) {
    KnownCache(cache, who) && IndexAgrees(index, cache)
  }

  /** The index is determined by the cache it indexes. */
  lemma IndexIsUnique(index: DeaIndex, index': DeaIndex, cache: InstanceCache)
    requires IndexAgrees(index, cache) && IndexAgrees(index', cache)
    ensures index == index'
  {
    forall d | d in index ensures d in index' {
      var g :| g in index[d];
      assert cache[g].deaGuid == d;
    }
    forall d | d in index' ensures d in index {
      var g :| g in index'[d];
      assert cache[g].deaGuid == d;
    }
    forall d, g | d in index ensures g in index[d] <==> g in index'[d] {
      if g in cache {
        assert g in index[cache[g].deaGuid] && g in index'[cache[g].deaGuid];
      }
    }
    assert forall d :: d in index ==> index[d] == index'[d];
  }

  // The cache and the store hold the same heartbeats.
  ghost predicate Mirrors(cache: InstanceCache, nodes: Nodes) {
    && (forall g :: g in cache ==> KeyOf(cache[g]) in nodes && nodes[KeyOf(cache[g])] == ValueOf(cache[g]))
    && (forall k :: k in nodes ==> k.instanceGuid in cache && KeyOf(cache[k.instanceGuid]) == k)
  }

  // ---------- one report ----------

  function ByGuid(hs: seq<InstanceHeartbeat>): (r: InstanceCache)
    ensures forall g :: g in r ==> r[g] in hs && r[g].instanceGuid == g
    ensures forall h :: h in hs ==> h.instanceGuid in r
  {
    if hs == [] then map[]
    else
      var init, last := hs[..|hs| - 1], hs[|hs| - 1];
      assert hs == init + [last];
      ByGuid(init)[last.instanceGuid := last]
  }

  lemma {:induction false} ByGuidFinds(hs: seq<InstanceHeartbeat>, h: InstanceHeartbeat)
    requires DistinctGuids(hs) && h in hs
    ensures ByGuid(hs)[h.instanceGuid] == h
  {
    var x := ByGuid(hs)[h.instanceGuid];
    var i :| 0 <= i < |hs| && hs[i] == h;
    var j :| 0 <= j < |hs| && hs[j] == x;
    assert i == j;
  }

  predicate Unchanged(cache: InstanceCache, h: InstanceHeartbeat) {
    h.instanceGuid in cache && cache[h.instanceGuid].state == h.state
  }

  // The cache after taking in the instances of a report: an entry whose state has not changed is kept.
  function Absorbed(cache: InstanceCache, hs: seq<InstanceHeartbeat>): InstanceCache {
    if hs == [] then cache
    else
      var before, last := Absorbed(cache, hs[..|hs| - 1]), hs[|hs| - 1];
      if Unchanged(cache, last) then before else before[last.instanceGuid := last]
  }

  // The nodes to be written for a report: its instances that are new or have changed state.
  function NewNodes(cache: InstanceCache, hs: seq<InstanceHeartbeat>): Nodes {
    if hs == [] then map[]
    else
      var before, last := NewNodes(cache, hs[..|hs| - 1]), hs[|hs| - 1];
      if Unchanged(cache, last) then before else before[KeyOf(last) := ValueOf(last)]
  }

  predicate StartsEvacuating(cache: InstanceCache, h: InstanceHeartbeat) {
    h.IsEvacuating() &&
    !(h.instanceGuid in cache && (cache[h.instanceGuid].IsEvacuating() || cache[h.instanceGuid].IsCrashed()))
  }

  // The instances of a report that have just begun to evacuate.
  function NewlyEvacuating(cache: InstanceCache, hs: seq<InstanceHeartbeat>): (r: seq<InstanceHeartbeat>)
    ensures forall h :: h in r <==> h in hs && StartsEvacuating(cache, h)
  {
    if hs == [] then []
    else
      var init, last := hs[..|hs| - 1], hs[|hs| - 1];
      assert hs == init + [last];
      if StartsEvacuating(cache, last) then NewlyEvacuating(cache, init) + [last] else NewlyEvacuating(cache, init)
  }

  // The guids cached for a DEA that its report no longer mentions.
  function Gone(cache: InstanceCache, hb: Heartbeat): set<string> {
    set g | g in cache && cache[g].deaGuid == hb.deaGuid && g !in GuidsOf(hb.instanceHeartbeats)
  }

  function GoneKeys(cache: InstanceCache, hb: Heartbeat): set<NodeKey> {
    set g | g in Gone(cache, hb) :: KeyOf(cache[g])
  }

  function Merged(cache: InstanceCache, hb: Heartbeat): InstanceCache {
    Absorbed(cache, hb.instanceHeartbeats) - Gone(cache, hb)
  }

  lemma ByGuidSnoc(hs: seq<InstanceHeartbeat>)
    requires DistinctGuids(hs) && hs != []
    ensures var init, last := hs[..|hs| - 1], hs[|hs| - 1];
            ByGuid(hs) == ByGuid(init)[last.instanceGuid := last] && last.instanceGuid !in ByGuid(init) &&
            DistinctGuids(init)
  {
  }

  lemma {:induction false} AbsorbedAt(cache: InstanceCache, hs: seq<InstanceHeartbeat>, g: string)
    requires DistinctGuids(hs)
    ensures var r, after := ByGuid(hs), Absorbed(cache, hs);
            if g in r then g in after && after[g] == if Unchanged(cache, r[g]) then cache[g] else r[g]
            else (g in after <==> g in cache) && (g in cache ==> after[g] == cache[g])
  {
    hide ByGuid, DistinctGuids;
    if hs != [] {
      ByGuidSnoc(hs);
      AbsorbedAt(cache, hs[..|hs| - 1], g);
    } else {
      NothingByGuid();
    }
  }

  lemma NothingByGuid()
    ensures ByGuid([]) == map[]
  {
  }

  // ---------- a batch of reports ----------

  // The last report of each DEA in a batch.
  function Latest(hbs: seq<Heartbeat>): map<string, Heartbeat> {
    if hbs == [] then map[] else Latest(hbs[..|hbs| - 1])[hbs[|hbs| - 1].deaGuid := hbs[|hbs| - 1]]
  }

  ghost predicate WellReportedAll(latest: map<string, Heartbeat>, who: Registry) {
    forall d :: d in latest ==> latest[d].deaGuid == d && WellReported(latest[d], who)
  }

  lemma {:induction false} LatestAreWellReported(hbs: seq<Heartbeat>, who: Registry)
    requires forall hb :: hb in hbs ==> WellReported(hb, who)
    ensures WellReportedAll(Latest(hbs), who)
    ensures forall d :: d in Latest(hbs) ==> Latest(hbs)[d] in hbs
  {
    if hbs != [] {
      var init, last := hbs[..|hbs| - 1], hbs[|hbs| - 1];
      assert hbs == init + [last];
      LatestAreWellReported(init, who);
    }
  }

  // What the batch says about an instance: nothing, if its DEA did not report; else its report, if any.
  ghost predicate DeaReports(latest: map<string, Heartbeat>, who: Registry, g: string) {
    who(g).deaGuid in latest
  }

  ghost function ReportFor(latest: map<string, Heartbeat>, who: Registry, g: string): Option<InstanceHeartbeat> {
    if DeaReports(latest, who, g) && g in ByGuid(latest[who(g).deaGuid].instanceHeartbeats)
    then Some(ByGuid(latest[who(g).deaGuid].instanceHeartbeats)[g]) else None
  }

  // An instance's cache entry after the batch, from the cache before it.
  ghost function NextEntry(cache: InstanceCache, latest: map<string, Heartbeat>, who: Registry,
                           g: string): Option<InstanceHeartbeat> {
    if DeaReports(latest, who, g) then
      match ReportFor(latest, who, g)
      case None => None
      case Some(h) => Some(if Unchanged(cache, h) then cache[g] else h)
    else if g in cache then Some(cache[g]) else None
  }

  ghost predicate CacheAfter(cache: InstanceCache, latest: map<string, Heartbeat>, who: Registry,
                             cache': InstanceCache) {
    forall g :: (g in cache' <==> NextEntry(cache, latest, who, g).Some?) &&
                (g in cache' ==> cache'[g] == NextEntry(cache, latest, who, g).value)
  }

  ghost predicate SavesAre(cache: InstanceCache, latest: map<string, Heartbeat>, who: Registry, saves: Nodes) {
    && (forall k :: k in saves ==>
          var r := ReportFor(latest, who, k.instanceGuid);
          r.Some? && KeyOf(r.value) == k && !Unchanged(cache, r.value) && saves[k] == ValueOf(r.value))
    && (forall g :: ReportFor(latest, who, g).Some? && !Unchanged(cache, ReportFor(latest, who, g).value) ==>
          KeyOf(ReportFor(latest, who, g).value) in saves)
  }

  ghost predicate DeletesAre(cache: InstanceCache, latest: map<string, Heartbeat>, who: Registry,
                             deletes: set<NodeKey>) {
    && (forall k :: k in deletes ==>
          var g := k.instanceGuid;
          g in cache && k == KeyOf(cache[g]) && DeaReports(latest, who, g) && ReportFor(latest, who, g).None?)
    && (forall g :: g in cache && DeaReports(latest, who, g) && ReportFor(latest, who, g).None? ==>
          KeyOf(cache[g]) in deletes)
  }

  ghost predicate EvacuationsAre(cache: InstanceCache, latest: map<string, Heartbeat>, who: Registry,
                                 evac: seq<InstanceHeartbeat>) {
    && DistinctGuids(evac)
    && (forall h :: h in evac <==> ReportFor(latest, who, h.instanceGuid) == Some(h) && StartsEvacuating(cache, h))
  }

  // ---------- the batch and the store ----------

  // A stored node after the batch if every reporting DEA's nodes are replaced by its report.
  ghost function NextNode(nodes: Nodes, latest: map<string, Heartbeat>, who: Registry, k: NodeKey): Option<NodeValue> {
    match ReportFor(latest, who, k.instanceGuid)
    case Some(h) => if KeyOf(h) == k then Some(ValueOf(h)) else None
    case None => if k in nodes && nodes[k].deaGuid !in latest then Some(nodes[k]) else None
  }

  predicate SameButTime(v: NodeValue, w: NodeValue) { v.(stateTimestamp := 0) == w.(stateTimestamp := 0) }

  ghost predicate ReplacedByReports(nodes: Nodes, latest: map<string, Heartbeat>, who: Registry, nodes': Nodes) {
    forall k :: (k in nodes' <==> NextNode(nodes, latest, who, k).Some?) &&
                (k in nodes' ==> SameButTime(nodes'[k], NextNode(nodes, latest, who, k).value))
  }

  /** What a call may leave in the store if a write fails: each node as it was, or as reported, or gone
      because its DEA reports it no more. */
  ghost predicate PartlyReplaced(nodes: Nodes, latest: map<string, Heartbeat>, who: Registry, nodes': Nodes) {
    && (forall k :: k in nodes' ==>
          || (k in nodes && nodes'[k] == nodes[k])
          || NodeReported(latest, who, k, nodes'[k]))
    && (forall k :: k in nodes && k !in nodes' ==>
          DeaReports(latest, who, k.instanceGuid) && ReportFor(latest, who, k.instanceGuid).None?)
  }

  ghost predicate NodeReported(latest: map<string, Heartbeat>, who: Registry, k: NodeKey, v: NodeValue) {
    var r := ReportFor(latest, who, k.instanceGuid);
    r.Some? && KeyOf(r.value) == k && ValueOf(r.value) == v
  }

  lemma ReportIsKnown(latest: map<string, Heartbeat>, who: Registry, g: string)
    requires WellReportedAll(latest, who)
    ensures ReportFor(latest, who, g).Some? ==>
              var h := ReportFor(latest, who, g).value;
              h.instanceGuid == g && Known(h, who) && h.deaGuid == who(g).deaGuid
    ensures ReportFor(latest, who, g).Some? ==> DeaReports(latest, who, g)
  {
  }

  /** The keys written and the keys deleted by one call are disjoint, so the order of the two
      writes cannot matter. */
  lemma SavesAndDeletesAreDisjoint(cache: InstanceCache, latest: map<string, Heartbeat>, who: Registry,
                                   saves: Nodes, deletes: set<NodeKey>)
    requires SavesAre(cache, latest, who, saves) && DeletesAre(cache, latest, who, deletes)
    ensures saves.Keys !! deletes
    ensures forall nodes: Nodes :: (nodes + saves) - deletes == (nodes - deletes) + saves
  {
    forall nodes: Nodes ensures (nodes + saves) - deletes == (nodes - deletes) + saves {
    }
  }

  /** The writes keep a store that mirrored the cache in step with it. */
  lemma WritesKeepMirror(cache: InstanceCache, latest: map<string, Heartbeat>, who: Registry, cache': InstanceCache,
                         saves: Nodes, deletes: set<NodeKey>, nodes: Nodes)
    requires KnownCache(cache, who) && WellReportedAll(latest, who) && Mirrors(cache, nodes)
    requires CacheAfter(cache, latest, who, cache')
    requires SavesAre(cache, latest, who, saves) && DeletesAre(cache, latest, who, deletes)
    ensures Mirrors(cache', (nodes + saves) - deletes)
  {
    var nodes' := (nodes + saves) - deletes;
    forall g | g in cache' ensures KeyOf(cache'[g]) in nodes' && nodes'[KeyOf(cache'[g])] == ValueOf(cache'[g]) {
      ReportIsKnown(latest, who, g);
      MirrorEntry(cache, latest, who, cache', saves, deletes, nodes, g);
    }
    forall k | k in nodes' ensures k.instanceGuid in cache' && KeyOf(cache'[k.instanceGuid]) == k {
      ReportIsKnown(latest, who, k.instanceGuid);
      MirrorNode(cache, latest, who, cache', saves, deletes, nodes, k);
    }
  }

  lemma MirrorEntry(cache: InstanceCache, latest: map<string, Heartbeat>, who: Registry, cache': InstanceCache,
                    saves: Nodes, deletes: set<NodeKey>, nodes: Nodes, g: string)
    requires KnownCache(cache, who) && WellReportedAll(latest, who) && Mirrors(cache, nodes)
    requires CacheAfter(cache, latest, who, cache')
    requires SavesAre(cache, latest, who, saves) && DeletesAre(cache, latest, who, deletes)
    requires g in cache'
    ensures var nodes' := (nodes + saves) - deletes;
            KeyOf(cache'[g]) in nodes' && nodes'[KeyOf(cache'[g])] == ValueOf(cache'[g])
  {
    hide ReportFor;
    ReportIsKnown(latest, who, g);
    assert cache'[g] == NextEntry(cache, latest, who, g).value;
    var k := KeyOf(cache'[g]);
    assert k.instanceGuid == g;
    if ReportFor(latest, who, g).Some? {
      var h := ReportFor(latest, who, g).value;
      assert k !in deletes;
      if Unchanged(cache, h) {
        assert k !in saves;
      } else {
        assert k in saves && saves[k] == ValueOf(h);
      }
    } else {
      assert k !in deletes && k !in saves;
    }
  }

  lemma MirrorNode(cache: InstanceCache, latest: map<string, Heartbeat>, who: Registry, cache': InstanceCache,
                   saves: Nodes, deletes: set<NodeKey>, nodes: Nodes, k: NodeKey)
    requires KnownCache(cache, who) && WellReportedAll(latest, who) && Mirrors(cache, nodes)
    requires CacheAfter(cache, latest, who, cache')
    requires SavesAre(cache, latest, who, saves) && DeletesAre(cache, latest, who, deletes)
    requires k in (nodes + saves) - deletes
    ensures k.instanceGuid in cache' && KeyOf(cache'[k.instanceGuid]) == k
  {
    hide ReportFor, DeaReports;
    var g := k.instanceGuid;
    ReportIsKnown(latest, who, g);
    assert g in cache' <==> NextEntry(cache, latest, who, g).Some?;
    if k in saves {
      var h := ReportFor(latest, who, g).value;
      assert NextEntry(cache, latest, who, g) == Some(h);
    } else {
      assert k in nodes && g in cache && KeyOf(cache[g]) == k;
      if DeaReports(latest, who, g) {
        assert k !in deletes;
        var h := ReportFor(latest, who, g).value;
        SameIdentity(h, cache[g], who);
        assert Unchanged(cache, h);
      }
    }
  }

  lemma SameIdentity(h: InstanceHeartbeat, h': InstanceHeartbeat, who: Registry)
    requires Known(h, who) && Known(h', who) && h.instanceGuid == h'.instanceGuid
    ensures KeyOf(h) == KeyOf(h') && h.deaGuid == h'.deaGuid
    ensures h.state == h'.state ==> SameButTime(ValueOf(h), ValueOf(h'))
  {
  }

  /** In the store, one call replaces each reporting DEA's nodes by its last report in the batch and
      leaves every other DEA's nodes alone; only the times of unchanged states are older. */
  lemma WritesReplaceReports(cache: InstanceCache, latest: map<string, Heartbeat>, who: Registry, cache': InstanceCache,
                             nodes: Nodes, nodes': Nodes)
    requires KnownCache(cache, who) && WellReportedAll(latest, who)
    requires Mirrors(cache, nodes) && CacheAfter(cache, latest, who, cache') && Mirrors(cache', nodes')
    ensures ReplacedByReports(nodes, latest, who, nodes')
  {
    forall k
      ensures k in nodes' <==> NextNode(nodes, latest, who, k).Some?
      ensures k in nodes' ==> SameButTime(nodes'[k], NextNode(nodes, latest, who, k).value)
    {
      NodeIsReplaced(cache, latest, who, cache', nodes, nodes', k);
    }
  }

  lemma NodeIsReplaced(cache: InstanceCache, latest: map<string, Heartbeat>, who: Registry, cache': InstanceCache,
                       nodes: Nodes, nodes': Nodes, k: NodeKey)
    requires KnownCache(cache, who) && WellReportedAll(latest, who)
    requires Mirrors(cache, nodes) && CacheAfter(cache, latest, who, cache') && Mirrors(cache', nodes')
    ensures k in nodes' <==> NextNode(nodes, latest, who, k).Some?
    ensures k in nodes' ==> SameButTime(nodes'[k], NextNode(nodes, latest, who, k).value)
  {
    hide ReportFor;
    var g := k.instanceGuid;
    ReportIsKnown(latest, who, g);
    assert g in cache' <==> NextEntry(cache, latest, who, g).Some?;
    match ReportFor(latest, who, g)
    case Some(h) =>
      assert g in cache' && Known(cache'[g], who);
      SameIdentity(h, cache'[g], who);
      assert KeyOf(cache'[g]) in nodes';
    case None =>
      if k in nodes {
        assert nodes[k] == ValueOf(cache[g]) && nodes[k].deaGuid == who(g).deaGuid;
      }
  }
}
