/** The store of actual state: a write-through cache of instance heartbeats in front of the
    key-value store, rebuilt from it at intervals. */
module HeartbeatStores {
  import opened Adapters
  import opened Collections
  import opened HeartbeatLaws
  import opened HeartbeatMerge
  import opened HeartbeatSpec
  import opened Models

  // The instance nodes and the expiring presence nodes in the key-value store.
  class ActualAdapter {
    var nodes: Nodes
    var presence: map<string, int>

    ghost function LiveDeas(now: int): set<string>
      reads this
    {
      set d | d in presence && now < presence[d]
    }

    constructor ()
      ensures nodes == map[] && presence == map[]
    {
      nodes, presence := map[], map[];
    }

    method ListNodes(fails: bool) returns (outcome: Outcome, listing: Nodes)
      ensures outcome == AdapterError <==> fails
      ensures outcome == Done ==> listing == nodes
      ensures outcome == KeyNotFound ==> nodes == map[]
    {
      listing := nodes;
      var directoryMissing: bool := *;
      if fails {
        outcome := AdapterError;
      } else {
        outcome := if nodes == map[] && directoryMissing then KeyNotFound else Done;
      }
    }

    method ListDeas(now: int, fails: bool) returns (outcome: Outcome, deas: set<string>)
      ensures outcome == AdapterError <==> fails
      ensures !fails ==> deas == LiveDeas(now)
    {
      deas := set d | d in presence && now < presence[d];
      if fails {
        outcome := AdapterError;
      } else {
        outcome := if deas == {} then KeyNotFound else Done;
      }
    }

    method SetMulti(instances: Nodes, deas: set<string>, expiry: int, fails: bool) returns (outcome: Outcome)
      modifies this
      ensures outcome == if fails then AdapterError else Done
      ensures !fails ==> nodes == old(nodes) + instances && presence == old(presence) + (map d | d in deas :: expiry)
      ensures fails ==> PartlyWritten(old(nodes), instances, nodes)
    {
      var presenceOutcome;
      nodes, outcome := SetNodes(nodes, instances, fails);
      presence, presenceOutcome := SetNodes(presence, map d | d in deas :: expiry, fails);
    }

    method Delete(keys: set<NodeKey>, fails: bool) returns (outcome: Outcome)
      modifies this`nodes
      ensures outcome == AdapterError <==> fails
      ensures !fails ==> nodes == old(nodes) - keys
      ensures fails ==> PartlyDeleted(old(nodes), keys, nodes)
    {
      nodes, outcome := DeleteNodes(nodes, keys, fails);
    }
  }

  // The stored nodes of DEAs that are present.
  ghost function Kept(nodes: Nodes, deas: set<string>): Nodes {
    map k | k in nodes && nodes[k].deaGuid in deas :: nodes[k]
  }

  ghost function Absent(nodes: Nodes, deas: set<string>): set<NodeKey> {
    set k | k in nodes && nodes[k].deaGuid !in deas
  }

  // A listing that loses nothing of what is kept and invents nothing.
  ghost predicate ListsNodes(hs: seq<InstanceHeartbeat>, nodes: Nodes) {
    && DistinctGuids(hs)
    && (forall h :: h in hs <==> KeyOf(h) in nodes && nodes[KeyOf(h)] == ValueOf(h))
  }

  lemma NoNodes(deas: set<string>)
    ensures Kept(map[], deas) == map[] && Absent(map[], deas) == {}
  {
  }

  // Where a node goes that is taken out of those remaining.
  lemma OneMoreNode(listing: Nodes, remaining: set<NodeKey>, k: NodeKey, deas: set<string>)
    requires k in remaining && k in listing
    ensures Kept(listing - (remaining - {k}), deas) ==
            if listing[k].deaGuid in deas then Kept(listing - remaining, deas)[k := listing[k]]
            else Kept(listing - remaining, deas)
    ensures Absent(listing - (remaining - {k}), deas) ==
            Absent(listing - remaining, deas) + if listing[k].deaGuid in deas then {} else {k}
  {
  }

  lemma KeptAreKnown(listing: Nodes, remaining: set<NodeKey>, k: NodeKey, deas: set<string>, who: Registry)
    requires KnownNodes(listing, who) && k in remaining && k in listing
    ensures KnownNodes(Kept(listing - remaining, deas), who) && k !in Kept(listing - remaining, deas)
    ensures Known(Read(k, listing[k]), who)
  {
  }

  lemma ListedGuidsAreNew(hs: seq<InstanceHeartbeat>, nodes: Nodes, k: NodeKey, v: NodeValue, who: Registry)
    requires ListsNodes(hs, nodes) && KnownNodes(nodes, who) && Known(Read(k, v), who) && k !in nodes
    ensures ListsNodes(hs + [Read(k, v)], nodes[k := v])
  {
    var h' := Read(k, v);
    forall h | h in hs ensures h.instanceGuid != h'.instanceGuid {
      assert Known(Read(KeyOf(h), nodes[KeyOf(h)]), who);
      assert Read(KeyOf(h), nodes[KeyOf(h)]) == h;
      assert KeyOf(h) != KeyOf(h');
    }
    forall h ensures h in hs + [h'] <==> KeyOf(h) in nodes[k := v] && nodes[k := v][KeyOf(h)] == ValueOf(h) {
      if KeyOf(h) == k && ValueOf(h) == v {
        assert h == h';
      }
    }
  }

  // A cache filled from a complete listing mirrors the store.
  lemma ListingMirrors(hs: seq<InstanceHeartbeat>, nodes: Nodes, who: Registry)
    requires ListsNodes(hs, nodes) && KnownNodes(nodes, who)
    ensures Mirrors(ByGuid(hs), nodes) && KnownCache(ByGuid(hs), who)
  {
    var cache := ByGuid(hs);
    forall g | g in cache
      ensures KeyOf(cache[g]) in nodes && nodes[KeyOf(cache[g])] == ValueOf(cache[g]) && Known(cache[g], who)
    {
      var h := cache[g];
      assert h in hs;
      assert Known(Read(KeyOf(h), nodes[KeyOf(h)]), who);
    }
    forall k | k in nodes ensures k.instanceGuid in cache && KeyOf(cache[k.instanceGuid]) == k {
      var h := Read(k, nodes[k]);
      assert KeyOf(h) == k && ValueOf(h) == nodes[k];
      assert h in hs;
      ByGuidFinds(hs, h);
    }
  }

  // Adding one more heartbeat of a new guid to the index.
  lemma IndexOneMore(index: DeaIndex, cache: InstanceCache, h: InstanceHeartbeat)
    requires IndexAgrees(index, cache) && h.instanceGuid !in cache
    ensures IndexAgrees(
              index[h.deaGuid := (if h.deaGuid in index then index[h.deaGuid] else {}) + {h.instanceGuid}],
              cache[h.instanceGuid := h])
  {
  }

  lemma PartialWriteIsKnown(before: Nodes, saves: Nodes, after: Nodes, who: Registry)
    requires KnownNodes(before, who) && KnownNodes(saves, who) && PartlyWritten(before, saves, after)
    ensures KnownNodes(after, who)
  {
  }

  lemma SavesAreKnown(cache: InstanceCache, latest: map<string, Heartbeat>, who: Registry, saves: Nodes)
    requires WellReportedAll(latest, who) && SavesAre(cache, latest, who, saves)
    ensures KnownNodes(saves, who)
  {
    hide ReportFor;
    forall k | k in saves ensures Known(Read(k, saves[k]), who) {
      ReportIsKnown(latest, who, k.instanceGuid);
      var h := ReportFor(latest, who, k.instanceGuid).value;
      assert Read(k, saves[k]) == h;
    }
  }

  // Between the state before and the state the call is to lead to, nothing else can be left.
  lemma FailedWritesLeave(cache: InstanceCache, latest: map<string, Heartbeat>, who: Registry, saves: Nodes,
                          deletes: set<NodeKey>, before: Nodes, mid: Nodes, after: Nodes)
    requires SavesAre(cache, latest, who, saves) && DeletesAre(cache, latest, who, deletes)
    requires PartlyWritten(before, saves, mid)
    requires after == mid || PartlyDeleted(mid, deletes, after)
    ensures PartlyReplaced(before, latest, who, after)
  {
    hide ReportFor, DeaReports;
    forall k | k in after && !(k in before && after[k] == before[k]) ensures NodeReported(latest, who, k, after[k]) {
      assert k in saves && after[k] == saves[k];
    }
    forall k | k in before && k !in after
      ensures DeaReports(latest, who, k.instanceGuid) && ReportFor(latest, who, k.instanceGuid).None?
    {
      assert k in deletes;
    }
  }

  lemma MergedShape(cache: InstanceCache, hb: Heartbeat, who: Registry)
    requires KnownCache(cache, who) && WellReported(hb, who)
    ensures var guids, after := GuidsOf(hb.instanceHeartbeats), Merged(cache, hb);
            && KnownCache(after, who)
            && (forall g :: g in after ==>
                  (after[g].deaGuid == hb.deaGuid <==> g in guids) &&
                  (g !in guids ==> g in cache && cache[g] == after[g]))
            && (forall g :: g in guids || (g in cache && cache[g].deaGuid != hb.deaGuid) ==> g in after)
            && (forall g :: g in guids && g in cache ==> cache[g].deaGuid == hb.deaGuid)
  {
    hide Merged, ByGuid, DistinctGuids;
    var guids, after := GuidsOf(hb.instanceHeartbeats), Merged(cache, hb);
    GuidsAreByGuid(hb.instanceHeartbeats);
    forall g | g in after
      ensures after[g].instanceGuid == g && Known(after[g], who)
      ensures after[g].deaGuid == hb.deaGuid <==> g in guids
      ensures g !in guids ==> g in cache && cache[g] == after[g]
    {
      MergedAt(cache, hb, who, g);
    }
    forall g | g in guids || (g in cache && cache[g].deaGuid != hb.deaGuid) ensures g in after {
      MergedAt(cache, hb, who, g);
    }
  }

  /** Merging a report keeps the index exact: the DEA is left with just the instances it reported. */
  lemma IndexAfterMerge(index: DeaIndex, cache: InstanceCache, hb: Heartbeat, who: Registry)
    requires CacheOk(index, cache, who) && WellReported(hb, who)
    ensures var guids := GuidsOf(hb.instanceHeartbeats);
            CacheOk(if guids == {} then index - {hb.deaGuid} else index[hb.deaGuid := guids], Merged(cache, hb), who)
  {
    hide Merged, GuidsOf, Known;
    MergedShape(cache, hb, who);
  }

  // The cache's view of the next instance of a report is not changed by those before it.
  lemma NextInReport(cache: InstanceCache, hs: seq<InstanceHeartbeat>, i: nat)
    requires DistinctGuids(hs) && i < |hs|
    ensures var before, g := Absorbed(cache, hs[..i]), hs[i].instanceGuid;
            (g in before <==> g in cache) && (g in cache ==> before[g] == cache[g])
    ensures Absorbed(cache, hs[..i + 1]) ==
            if Unchanged(cache, hs[i]) then Absorbed(cache, hs[..i])
            else Absorbed(cache, hs[..i])[hs[i].instanceGuid := hs[i]]
    ensures NewNodes(cache, hs[..i + 1]) ==
            if Unchanged(cache, hs[i]) then NewNodes(cache, hs[..i])
            else NewNodes(cache, hs[..i])[KeyOf(hs[i]) := ValueOf(hs[i])]
    ensures NewlyEvacuating(cache, hs[..i + 1]) ==
            if StartsEvacuating(cache, hs[i]) then NewlyEvacuating(cache, hs[..i]) + [hs[i]]
            else NewlyEvacuating(cache, hs[..i])
    ensures GuidsOf(hs[..i + 1]) == GuidsOf(hs[..i]) + {hs[i].instanceGuid}
  {
    assert hs[..i + 1][..i] == hs[..i];
    assert hs[..i + 1] == hs[..i] + [hs[i]];
    ByGuidSnoc(hs[..i + 1]);
    AbsorbedAt(cache, hs[..i], hs[i].instanceGuid);
  }

  lemma UnionWithUpdate(a: Nodes, b: Nodes, k: NodeKey, v: NodeValue)
    ensures a + b[k := v] == (a + b)[k := v]
  {
  }

  // What a report leaves uncached is found in the DEA's set, under unchanged entries.
  lemma GoneAreListed(index: DeaIndex, cache: InstanceCache, hb: Heartbeat, who: Registry, listed: set<string>)
    requires CacheOk(index, cache, who) && WellReported(hb, who)
    requires listed == if hb.deaGuid in index then index[hb.deaGuid] else {}
    ensures Gone(cache, hb) == listed - GuidsOf(hb.instanceHeartbeats)
    ensures forall h :: h in hb.instanceHeartbeats && Unchanged(cache, h) ==> h.instanceGuid in listed
    ensures var after := Absorbed(cache, hb.instanceHeartbeats);
            forall g :: g in Gone(cache, hb) ==>
              g in cache && g in after && after[g] == cache[g] && after[g].instanceGuid == g
  {
    hide Absorbed, ByGuid;
    GuidsAreByGuid(hb.instanceHeartbeats);
    forall g | g in Gone(cache, hb)
      ensures g in Absorbed(cache, hb.instanceHeartbeats) && Absorbed(cache, hb.instanceHeartbeats)[g] == cache[g]
    {
      AbsorbedAt(cache, hb.instanceHeartbeats, g);
    }
    forall h | h in hb.instanceHeartbeats && Unchanged(cache, h) ensures h.instanceGuid in listed {
      assert Known(cache[h.instanceGuid], who) && Known(h, who);
    }
  }

  datatype SyncError = LoadFailed | SaveFailed | DeleteFailed

  // Which requests of one call fail: listing the nodes, listing the DEAs, deleting the nodes of absent
  // DEAs, and the two writes of the call itself.
  datatype SyncWorld = SyncWorld(listFails: bool, deasFail: bool, purgeFails: bool, saveFails: bool, deleteFails: bool)
  {
    predicate ListsWell(deasDue: bool) { !listFails && !(deasDue && deasFail) && !purgeFails }

    function WriteError(): Option<SyncError> {
      if saveFails then Some(SaveFailed) else if deleteFails then Some(DeleteFailed) else None
    }
  }

  class HeartbeatStore {
    const adapter: ActualAdapter
    const refreshInterval: nat
    const heartbeatPeriod: nat
    const heartbeatTTL: nat
    ghost const who: Registry

    var heartbeatCache: DeaIndex
    var instanceHeartbeatCache: InstanceCache
    var cacheTimestamp: Option<int>
    var deaCache: set<string>
    var deaCacheExpiration: Option<int>

    constructor (adapter: ActualAdapter, refreshInterval: nat, heartbeatPeriod: nat, heartbeatTTL: nat,
                 ghost who: Registry)
      ensures this.adapter == adapter && this.refreshInterval == refreshInterval && this.who == who
      ensures CacheIsOk() && cacheTimestamp == None
    {
      this.adapter := adapter;
      this.refreshInterval := refreshInterval;
      this.heartbeatPeriod := heartbeatPeriod;
      this.heartbeatTTL := heartbeatTTL;
      this.who := who;
      heartbeatCache := map[];
      instanceHeartbeatCache := map[];
      cacheTimestamp := None;
      deaCache := {};
      deaCacheExpiration := None;
    }

    predicate ReloadDue(now: int)
      reads this`cacheTimestamp
    {
      cacheTimestamp.None? || now - cacheTimestamp.value >= refreshInterval
    }

    ghost predicate CacheIsOk()
      reads this
    {
      CacheOk(heartbeatCache, instanceHeartbeatCache, who)
    }

    predicate DeasDue(now: int)
      reads this`deaCacheExpiration
    {
      deaCacheExpiration.None? || now > deaCacheExpiration.value
    }

    // The set of present DEAs, itself cached for a heartbeat period.
    method GetDeaCache(now: int, fails: bool) returns (ok: bool)
      modifies this`deaCache, this`deaCacheExpiration
      ensures ok <==> !(old(DeasDue(now)) && fails)
      ensures !ok ==> unchanged(this`deaCache) && unchanged(this`deaCacheExpiration)
      ensures ok ==> if old(DeasDue(now))
                     then deaCache == adapter.LiveDeas(now) && deaCacheExpiration == Some(now + heartbeatPeriod)
                     else unchanged(this`deaCache) && unchanged(this`deaCacheExpiration)
    {
      if DeasDue(now) {
        var outcome, deas := adapter.ListDeas(now, fails);
        if outcome == AdapterError {
          return false;
        }
        deaCache := deas;
        deaCacheExpiration := Some(now + heartbeatPeriod);
      }
      return true;
    }

    /** Reads all stored heartbeats: those of present DEAs are returned, each once, and those of
        absent DEAs are deleted. */
    method GetInstanceHeartbeats(now: int, world: SyncWorld) returns (results: seq<InstanceHeartbeat>, ok: bool)
      requires KnownNodes(adapter.nodes, who)
      modifies this`deaCache, this`deaCacheExpiration, adapter`nodes
      ensures KnownNodes(adapter.nodes, who)
      ensures world.ListsWell(old(DeasDue(now))) ==> ok
      ensures world.listFails || (old(adapter.nodes) != map[] && !world.ListsWell(old(DeasDue(now)))) ==> !ok
      ensures ok ==> adapter.nodes == Kept(old(adapter.nodes), deaCache) && ListsNodes(results, adapter.nodes)
      ensures ok && old(adapter.nodes) != map[] ==>
                if old(DeasDue(now))
                then deaCache == old(adapter.LiveDeas(now)) && deaCacheExpiration == Some(now + heartbeatPeriod)
                else unchanged(this`deaCache) && unchanged(this`deaCacheExpiration)
      ensures !ok ==> adapter.nodes == old(adapter.nodes) ||
                      PartlyDeleted(old(adapter.nodes), Absent(old(adapter.nodes), deaCache), adapter.nodes)
    {
      hide ListsNodes;
      results := [];
      NothingListed();
      var outcome, listing := adapter.ListNodes(world.listFails);
      if outcome == KeyNotFound {
        assert Kept(adapter.nodes, deaCache) == map[];
        return results, true;
      }
      if outcome == AdapterError {
        return results, false;
      }
      var deasKnown := GetDeaCache(now, world.deasFail);
      if !deasKnown {
        return results, false;
      }
      var expiredKeys: set<NodeKey>;
      results, expiredKeys := HeartbeatsForNodes(listing);
      var deleted := adapter.Delete(expiredKeys, world.purgeFails);
      assert Kept(listing, deaCache) == listing - expiredKeys;
      if deleted == AdapterError {
        return [], false;
      }
      return results, true;
    }

    method HeartbeatsForNodes(listing: Nodes) returns (results: seq<InstanceHeartbeat>, expiredKeys: set<NodeKey>)
      requires KnownNodes(listing, who)
      ensures ListsNodes(results, Kept(listing, deaCache)) && expiredKeys == Absent(listing, deaCache)
    {
      hide ListsNodes, Kept, Absent, KnownNodes;
      results, expiredKeys := [], {};
      NothingListed();
      NoNodes(deaCache);
      var remaining := listing.Keys;
      assert listing - remaining == map[];
      while remaining != {}
        invariant remaining <= listing.Keys
        invariant ListsNodes(results, Kept(listing - remaining, deaCache))
        invariant expiredKeys == Absent(listing - remaining, deaCache)
        decreases remaining
      {
        var k := PickAny(remaining);
        OneMoreNode(listing, remaining, k, deaCache);
        if listing[k].deaGuid in deaCache {
          KeptAreKnown(listing, remaining, k, deaCache, who);
          ListedGuidsAreNew(results, Kept(listing - remaining, deaCache), k, listing[k], who);
          results := results + [Read(k, listing[k])];
        } else {
          expiredKeys := expiredKeys + {k};
        }
        remaining := remaining - {k};
      }
      assert listing - {} == listing;
    }

    lemma NothingListed()
      ensures ListsNodes([], map[])
    {
    }

    /** Rebuilds both caches when they are due. A reload that succeeds makes them agree with the store
        whatever they held before; one that fails leaves them alone. */
    method LoadCache(now: int, world: SyncWorld) returns (ok: bool)
      requires KnownNodes(adapter.nodes, who)
      modifies this`heartbeatCache, this`instanceHeartbeatCache, this`cacheTimestamp, this`deaCache,
               this`deaCacheExpiration, adapter`nodes
      ensures KnownNodes(adapter.nodes, who)
      ensures world.ListsWell(old(DeasDue(now))) ==> ok
      ensures old(ReloadDue(now)) &&
              (world.listFails || (old(adapter.nodes) != map[] && !world.ListsWell(old(DeasDue(now)))))
              ==> !ok
      ensures !ok ==> unchanged(this`heartbeatCache) && unchanged(this`instanceHeartbeatCache)
      ensures !ok ==> unchanged(this`cacheTimestamp)
      ensures !old(ReloadDue(now)) ==> ok && unchanged(this) && unchanged(adapter)
      ensures unchanged(adapter`presence)
      ensures old(ReloadDue(now)) && ok ==>
                && adapter.nodes == Kept(old(adapter.nodes), deaCache)
                && CacheIsOk() && Mirrors(instanceHeartbeatCache, adapter.nodes)
                && cacheTimestamp == Some(now)
      ensures old(ReloadDue(now)) && ok && old(adapter.nodes) != map[] ==>
                if old(DeasDue(now))
                then deaCache == old(adapter.LiveDeas(now)) && deaCacheExpiration == Some(now + heartbeatPeriod)
                else unchanged(this`deaCache) && unchanged(this`deaCacheExpiration)
    {
      hide ListsNodes, Mirrors, KnownNodes, KnownCache, IndexAgrees, Kept, PartlyDeleted, ByGuid;
      if ReloadDue(now) {
        var heartbeats, read := GetInstanceHeartbeats(now, world);
        if !read {
          return false;
        }
        cacheTimestamp := Some(now);
        FillCaches(heartbeats);
        ListingMirrors(heartbeats, adapter.nodes, who);
      }
      return true;
    }

    method FillCaches(heartbeats: seq<InstanceHeartbeat>)
      requires exists nodes :: ListsNodes(heartbeats, nodes)
      modifies this`heartbeatCache, this`instanceHeartbeatCache
      ensures instanceHeartbeatCache == ByGuid(heartbeats) && IndexAgrees(heartbeatCache, instanceHeartbeatCache)
    {
      heartbeatCache := map[];
      instanceHeartbeatCache := map[];
      for i := 0 to |heartbeats|
        invariant instanceHeartbeatCache == ByGuid(heartbeats[..i])
        invariant IndexAgrees(heartbeatCache, instanceHeartbeatCache)
      {
        var h := heartbeats[i];
        assert heartbeats[..i + 1][..i] == heartbeats[..i];
        ByGuidSnoc(heartbeats[..i + 1]);
        IndexOneMore(heartbeatCache, instanceHeartbeatCache, h);
        instanceHeartbeatCache := instanceHeartbeatCache[h.instanceGuid := h];
        var dea := if h.deaGuid in heartbeatCache then heartbeatCache[h.deaGuid] else {};
        heartbeatCache := heartbeatCache[h.deaGuid := dea + {h.instanceGuid}];
      }
      assert heartbeats[..|heartbeats|] == heartbeats;
    }

    // One DEA's report: entries are taken in, then those it no longer mentions are dropped.
    method MergeReport(hb: Heartbeat, saves: Nodes, deletes: set<NodeKey>, evac: seq<InstanceHeartbeat>)
      returns (saves': Nodes, deletes': set<NodeKey>, evac': seq<InstanceHeartbeat>)
      requires CacheIsOk() && WellReported(hb, who)
      modifies this`heartbeatCache, this`instanceHeartbeatCache
      ensures CacheIsOk() && instanceHeartbeatCache == Merged(old(instanceHeartbeatCache), hb)
      ensures saves' == saves + NewNodes(old(instanceHeartbeatCache), hb.instanceHeartbeats)
      ensures deletes' == deletes + GoneKeys(old(instanceHeartbeatCache), hb)
      ensures evac' == evac + NewlyEvacuating(old(instanceHeartbeatCache), hb.instanceHeartbeats)
    {
      hide CacheOk, Absorbed, NewNodes, NewlyEvacuating, StartsEvacuating, GuidsOf, Gone, DistinctGuids, Known;
      ghost var index, cache := heartbeatCache, instanceHeartbeatCache;
      ghost var listed := if hb.deaGuid in index then index[hb.deaGuid] else {};
      GoneAreListed(index, cache, hb, who, listed);
      if hb.deaGuid !in heartbeatCache {
        heartbeatCache := heartbeatCache[hb.deaGuid := {}];
      }
      saves', evac' := TakeIn(hb, saves, evac, index, cache, listed);
      var incoming := set h | h in hb.instanceHeartbeats :: h.instanceGuid;
      IncomingGuids(hb.instanceHeartbeats, incoming);
      deletes' := DropUnreported(hb, incoming, deletes, cache, listed);
      var remaining := heartbeatCache[hb.deaGuid];
      RemainingIsReported(cache, hb, listed, remaining);
      if remaining == {} {
        heartbeatCache := heartbeatCache - {hb.deaGuid};
      }
      IndexAfterMerge(index, cache, hb, who);
      assert heartbeatCache == if remaining == {} then index - {hb.deaGuid} else index[hb.deaGuid := remaining];
    }

    lemma IncomingGuids(hs: seq<InstanceHeartbeat>, incoming: set<string>)
      requires incoming == set h | h in hs :: h.instanceGuid
      ensures incoming == GuidsOf(hs)
    {
    }

    lemma RemainingIsReported(cache: InstanceCache, hb: Heartbeat, listed: set<string>, remaining: set<string>)
      requires Gone(cache, hb) == listed - GuidsOf(hb.instanceHeartbeats)
      requires remaining == (listed + GuidsOf(hb.instanceHeartbeats)) - Gone(cache, hb)
      ensures remaining == GuidsOf(hb.instanceHeartbeats)
    {
    }

    method TakeIn(hb: Heartbeat, saves: Nodes, evac: seq<InstanceHeartbeat>,
                  ghost index: DeaIndex, ghost cache: InstanceCache, ghost listed: set<string>)
      returns (saves': Nodes, evac': seq<InstanceHeartbeat>)
      requires DistinctGuids(hb.instanceHeartbeats) && instanceHeartbeatCache == cache
      requires heartbeatCache == index[hb.deaGuid := listed]
      requires forall h :: h in hb.instanceHeartbeats && Unchanged(cache, h) ==> h.instanceGuid in listed
      modifies this`heartbeatCache, this`instanceHeartbeatCache
      ensures instanceHeartbeatCache == Absorbed(cache, hb.instanceHeartbeats)
      ensures heartbeatCache == index[hb.deaGuid := listed + GuidsOf(hb.instanceHeartbeats)]
      ensures saves' == saves + NewNodes(cache, hb.instanceHeartbeats)
      ensures evac' == evac + NewlyEvacuating(cache, hb.instanceHeartbeats)
    {
      hide Absorbed, NewNodes, NewlyEvacuating, GuidsOf, DistinctGuids;
      var hs := hb.instanceHeartbeats;
      saves', evac' := saves, evac;
      NothingTaken(cache);
      assert listed + GuidsOf([]) == listed && hs[..0] == [];
      for i := 0 to |hs|
        invariant instanceHeartbeatCache == Absorbed(cache, hs[..i])
        invariant heartbeatCache == index[hb.deaGuid := listed + GuidsOf(hs[..i])]
        invariant saves' == saves + NewNodes(cache, hs[..i])
        invariant evac' == evac + NewlyEvacuating(cache, hs[..i])
      {
        var h := hs[i];
        NextInReport(cache, hs, i);
        var found := h.instanceGuid in instanceHeartbeatCache;
        var existing := if found then instanceHeartbeatCache[h.instanceGuid] else NO_INSTANCE;
        if found && existing.state == h.state {
          assert h in hs && Unchanged(cache, h);
          assert listed + GuidsOf(hs[..i + 1]) == listed + GuidsOf(hs[..i]);
        } else {
          if h.IsEvacuating() && !existing.IsCrashed() {
            evac' := evac' + [h];
          }
          UnionWithUpdate(saves, NewNodes(cache, hs[..i]), KeyOf(h), ValueOf(h));
          saves' := saves'[KeyOf(h) := ValueOf(h)];
          instanceHeartbeatCache := instanceHeartbeatCache[h.instanceGuid := h];
          heartbeatCache := heartbeatCache[hb.deaGuid := heartbeatCache[hb.deaGuid] + {h.instanceGuid}];
          assert listed + GuidsOf(hs[..i + 1]) == listed + GuidsOf(hs[..i]) + {h.instanceGuid};
        }
      }
      assert hs[..|hs|] == hs;
    }

    lemma NothingTaken(cache: InstanceCache)
      ensures Absorbed(cache, []) == cache && NewNodes(cache, []) == map[]
      ensures NewlyEvacuating(cache, []) == [] && GuidsOf([]) == {}
    {
    }

    method DropUnreported(hb: Heartbeat, incoming: set<string>, deletes: set<NodeKey>,
                          ghost cache: InstanceCache, ghost listed: set<string>)
      returns (deletes': set<NodeKey>)
      requires incoming == GuidsOf(hb.instanceHeartbeats)
      requires instanceHeartbeatCache == Absorbed(cache, hb.instanceHeartbeats)
      requires hb.deaGuid in heartbeatCache && heartbeatCache[hb.deaGuid] == listed + incoming
      requires Gone(cache, hb) == listed - incoming
      requires forall g :: g in Gone(cache, hb) ==>
                 g in cache && g in instanceHeartbeatCache && instanceHeartbeatCache[g] == cache[g] &&
                 instanceHeartbeatCache[g].instanceGuid == g
      modifies this`heartbeatCache, this`instanceHeartbeatCache
      ensures instanceHeartbeatCache == Merged(cache, hb)
      ensures heartbeatCache == old(heartbeatCache)[hb.deaGuid := (listed + incoming) - Gone(cache, hb)]
      ensures deletes' == deletes + GoneKeys(cache, hb)
    {
      hide Absorbed, GuidsOf, Gone;
      var dea := heartbeatCache[hb.deaGuid];
      var unvisited := dea;
      var cacheKeysToDelete: set<string> := {};
      deletes' := deletes;
      while unvisited != {}
        invariant unvisited <= dea && heartbeatCache == old(heartbeatCache) &&
                  instanceHeartbeatCache == old(instanceHeartbeatCache)
        invariant cacheKeysToDelete == (dea - unvisited) - incoming
        invariant deletes' == deletes + set g | g in cacheKeysToDelete && g in cache :: KeyOf(cache[g])
        decreases unvisited
      {
        var g := PickAny(unvisited);
        unvisited := unvisited - {g};
        if g !in incoming {
          assert g in Gone(cache, hb) by {
            assert g in listed - incoming;
          }
          var existing := instanceHeartbeatCache[g];
          deletes' := deletes' + {KeyOf(existing)};
          cacheKeysToDelete := cacheKeysToDelete + {existing.instanceGuid};
        }
      }
      assert cacheKeysToDelete == Gone(cache, hb);
      heartbeatCache := heartbeatCache[hb.deaGuid := dea - cacheKeysToDelete];
      instanceHeartbeatCache := instanceHeartbeatCache - cacheKeysToDelete;
    }

    // All reports of a batch, one DEA after another in no particular order.
    method MergeAll(latest: map<string, Heartbeat>)
      returns (saves: Nodes, deletes: set<NodeKey>, evac: seq<InstanceHeartbeat>)
      requires CacheIsOk() && WellReportedAll(latest, who)
      modifies this`heartbeatCache, this`instanceHeartbeatCache
      ensures CacheIsOk()
      ensures CacheAfter(old(instanceHeartbeatCache), latest, who, instanceHeartbeatCache)
      ensures SavesAre(old(instanceHeartbeatCache), latest, who, saves)
      ensures DeletesAre(old(instanceHeartbeatCache), latest, who, deletes)
      ensures EvacuationsAre(old(instanceHeartbeatCache), latest, who, evac)
    {
      hide CacheAfter, SavesAre, DeletesAre, EvacuationsAre, Only, Merged, NewNodes, GoneKeys, NewlyEvacuating,
           WellReported;
      ghost var cache := instanceHeartbeatCache;
      saves, deletes, evac := map[], {}, [];
      NothingMerged(cache, latest, who);
      var remaining := latest.Keys;
      ghost var done: set<string> := {};
      while remaining != {}
        invariant done + remaining == latest.Keys && done !! remaining
        invariant CacheIsOk()
        invariant MergedSoFar(cache, latest, who, done, instanceHeartbeatCache, saves, deletes, evac)
        decreases remaining
      {
        var d := PickAny(remaining);
        remaining := remaining - {d};
        MergeStep(cache, latest, who, done, instanceHeartbeatCache, saves, deletes, evac, d);
        saves, deletes, evac := MergeReport(latest[d], saves, deletes, evac);
        done := done + {d};
      }
      assert done == latest.Keys;
      OnlyAll(latest);
    }

    /** One batch of reports. Whatever the outcome of the writes, the caches agree with each other and
        hold what the batch says, and exactly the instances that have just begun to evacuate are
        returned. If the writes get through and the caches mirrored the store, as they do after a
        reload, they mirror it again, and in it each reporting DEA's nodes have been replaced. */
    method SyncHeartbeats(now: int, world: SyncWorld, incoming: seq<Heartbeat>)
      returns (evac: seq<InstanceHeartbeat>, error: Option<SyncError>, ghost base: InstanceCache,
               ghost baseNodes: Nodes)
      requires KnownNodes(adapter.nodes, who) && (ReloadDue(now) || CacheIsOk())
      requires forall hb :: hb in incoming ==> WellReported(hb, who)
      modifies this`heartbeatCache, this`instanceHeartbeatCache, this`cacheTimestamp, this`deaCache,
               this`deaCacheExpiration, adapter
      ensures KnownNodes(adapter.nodes, who)
      // A call fails for these reasons only, and does fail for them.
      ensures !old(ReloadDue(now)) || world.ListsWell(old(DeasDue(now))) ==> error != Some(LoadFailed)
      ensures old(ReloadDue(now)) &&
              (world.listFails || (old(adapter.nodes) != map[] && !world.ListsWell(old(DeasDue(now)))))
              ==> error == Some(LoadFailed)
      ensures error != Some(LoadFailed) ==> error == world.WriteError()
      ensures cacheTimestamp ==
              if old(ReloadDue(now)) && error != Some(LoadFailed) then Some(now) else old(cacheTimestamp)
      // The state merged into: as it was, or as a reload found it.
      ensures error != Some(LoadFailed) ==>
                && (!old(ReloadDue(now)) ==> base == old(instanceHeartbeatCache) && baseNodes == old(adapter.nodes))
                && (old(ReloadDue(now)) ==> baseNodes == Kept(old(adapter.nodes), deaCache) && Mirrors(base, baseNodes))
      // A reload is due when the refresh interval is over since the last; it keeps the nodes of present DEAs, and
      // which those are is read anew when the time for that is over.
      ensures old(cacheTimestamp).Some? && now - old(cacheTimestamp).value < refreshInterval ==>
                && error != Some(LoadFailed) && cacheTimestamp == old(cacheTimestamp)
                && base == old(instanceHeartbeatCache) && baseNodes == old(adapter.nodes)
                && unchanged(this`deaCache) && unchanged(this`deaCacheExpiration)
      ensures (old(cacheTimestamp).None? || now - old(cacheTimestamp).value >= refreshInterval) &&
              error != Some(LoadFailed) ==>
                && cacheTimestamp == Some(now) && Mirrors(base, baseNodes)
                && (forall k :: k in baseNodes <==>
                      k in old(adapter.nodes) && old(adapter.nodes)[k].deaGuid in deaCache)
                && (forall k :: k in baseNodes ==> baseNodes[k] == old(adapter.nodes)[k])
      ensures (old(cacheTimestamp).None? || now - old(cacheTimestamp).value >= refreshInterval) &&
              error != Some(LoadFailed) && old(adapter.nodes) != map[] ==>
                if old(deaCacheExpiration).None? || now > old(deaCacheExpiration).value then
                  && (forall d :: d in deaCache <==> d in old(adapter.presence) && now < old(adapter.presence)[d])
                  && deaCacheExpiration == Some(now + heartbeatPeriod)
                else unchanged(this`deaCache) && unchanged(this`deaCacheExpiration)
      // Which instances are returned.
      ensures error != Some(LoadFailed) ==> forall h :: h in evac <==> HasBegunEvacuating(base, incoming, h)
      ensures old(CacheIsOk()) ==> CacheIsOk()
      ensures error == Some(LoadFailed) ==>
                evac == [] && unchanged(this`heartbeatCache) && unchanged(this`instanceHeartbeatCache)
      ensures error != Some(LoadFailed) ==>
                && CacheIsOk()
                && CacheAfter(base, Latest(incoming), who, instanceHeartbeatCache)
                && EvacuationsAre(base, Latest(incoming), who, evac)
      ensures error == None ==>
                adapter.presence == old(adapter.presence) + (map d | d in Latest(incoming) :: now + heartbeatTTL)
      ensures error in {Some(SaveFailed), Some(DeleteFailed)} ==>
                PartlyReplaced(baseNodes, Latest(incoming), who, adapter.nodes)
      ensures error == None && Mirrors(base, baseNodes) ==>
                && Mirrors(instanceHeartbeatCache, adapter.nodes)
                && ReplacedByReports(baseNodes, Latest(incoming), who, adapter.nodes)
    {
      hide CacheAfter, SavesAre, DeletesAre, EvacuationsAre, WellReported, Mirrors, ReplacedByReports, KnownCache,
           IndexAgrees, Latest, PartlyWritten, PartlyDeleted, HasBegunEvacuating;
      var loaded := LoadCache(now, world);
      base, baseNodes := instanceHeartbeatCache, adapter.nodes;
      if !loaded {
        return [], Some(LoadFailed), base, baseNodes;
      }
      var latest := LatestReports(incoming);
      LatestAreWellReported(incoming, who);
      var saves, deletes;
      saves, deletes, evac := MergeAll(latest);
      EvacuationsMean(base, incoming, who, evac);
      if Mirrors(base, baseNodes) {
        WritesKeepMirror(base, latest, who, instanceHeartbeatCache, saves, deletes, baseNodes);
        WritesReplaceReports(base, latest, who, instanceHeartbeatCache, baseNodes, (baseNodes + saves) - deletes);
      }
      error := WriteReports(now, world, latest, saves, deletes, base);
    }

    // The two writes of a call, the second only if the first got through.
    method WriteReports(now: int, world: SyncWorld, latest: map<string, Heartbeat>, saves: Nodes,
                        deletes: set<NodeKey>, ghost base: InstanceCache)
      returns (error: Option<SyncError>)
      requires KnownNodes(adapter.nodes, who) && WellReportedAll(latest, who)
      requires SavesAre(base, latest, who, saves) && DeletesAre(base, latest, who, deletes)
      modifies adapter
      ensures KnownNodes(adapter.nodes, who) && error == world.WriteError()
      ensures error == None ==>
                && adapter.nodes == (old(adapter.nodes) + saves) - deletes
                && adapter.presence == old(adapter.presence) + (map d | d in latest :: now + heartbeatTTL)
      ensures error != None ==> PartlyReplaced(old(adapter.nodes), latest, who, adapter.nodes)
    {
      hide SavesAre, DeletesAre, PartlyWritten, PartlyDeleted, WellReportedAll;
      ghost var before := adapter.nodes;
      SavesAreKnown(base, latest, who, saves);
      var saved := adapter.SetMulti(saves, latest.Keys, now + heartbeatTTL, world.saveFails);
      if saved == AdapterError {
        PartialWriteIsKnown(before, saves, adapter.nodes, who);
        FailedWritesLeave(base, latest, who, saves, deletes, before, adapter.nodes, adapter.nodes);
        return Some(SaveFailed);
      }
      ghost var written := adapter.nodes;
      var deleted := adapter.Delete(deletes, world.deleteFails);
      if deleted == AdapterError {
        PartialDeleteIsKnown(written, deletes, adapter.nodes, who);
        FullWriteIsPartial(before, saves);
        FailedWritesLeave(base, latest, who, saves, deletes, before, written, adapter.nodes);
        return Some(DeleteFailed);
      }
      return None;
    }

    lemma FullWriteIsPartial(before: Nodes, saves: Nodes)
      ensures PartlyWritten(before, saves, before + saves)
    {
    }

    lemma PartialDeleteIsKnown(before: Nodes, keys: set<NodeKey>, after: Nodes, who: Registry)
      requires KnownNodes(before, who) && PartlyDeleted(before, keys, after)
      ensures KnownNodes(after, who)
    {
    }

    method LatestReports(incoming: seq<Heartbeat>) returns (latest: map<string, Heartbeat>)
      ensures latest == Latest(incoming)
    {
      latest := map[];
      for i := 0 to |incoming|
        invariant latest == Latest(incoming[..i])
      {
        assert incoming[..i + 1][..i] == incoming[..i];
        latest := latest[incoming[i].deaGuid := incoming[i]];
      }
      assert incoming[..|incoming|] == incoming;
    }
  }
}
