/** What a batch of reports does to cache and store, read off the reports and the states in them. */
module HeartbeatLaws {
  import opened HeartbeatSpec
  import opened Models

  // The j-th report of the batch is the last of its DEA.
  ghost predicate LastOfItsDea(incoming: seq<Heartbeat>, j: int) {
    && 0 <= j < |incoming|
    && forall l :: j < l < |incoming| ==> incoming[l].deaGuid != incoming[j].deaGuid
  }

  // A DEA's last report has the instance as h.
  ghost predicate ReportedAs(incoming: seq<Heartbeat>, h: InstanceHeartbeat) {
    exists j :: LastOfItsDea(incoming, j) && h in incoming[j].instanceHeartbeats
  }

  ghost predicate HeardFrom(incoming: seq<Heartbeat>, dea: string) {
    exists j :: 0 <= j < |incoming| && incoming[j].deaGuid == dea
  }

  ghost predicate AllWellReported(incoming: seq<Heartbeat>, who: Registry) {
    forall hb :: hb in incoming ==> WellReported(hb, who)
  }

  /** The report that counts for a DEA is the last one it made. */
  lemma {:induction false} LatestIsLast(incoming: seq<Heartbeat>, d: string)
    ensures d in Latest(incoming) <==> HeardFrom(incoming, d)
    ensures d in Latest(incoming) ==>
              exists j :: LastOfItsDea(incoming, j) && incoming[j].deaGuid == d && Latest(incoming)[d] == incoming[j]
  {
    if incoming != [] {
      var init, last := incoming[..|incoming| - 1], incoming[|incoming| - 1];
      LatestIsLast(init, d);
      if last.deaGuid == d {
        assert LastOfItsDea(incoming, |incoming| - 1);
      } else if d in Latest(init) {
        var j :| LastOfItsDea(init, j) && init[j].deaGuid == d && Latest(init)[d] == init[j];
        assert LastOfItsDea(incoming, j);
      }
      if j :| 0 <= j < |incoming| && incoming[j].deaGuid == d && j < |init| {
        assert init[j].deaGuid == d;
      }
    }
  }

  lemma LastIsLatest(incoming: seq<Heartbeat>, j: int)
    requires LastOfItsDea(incoming, j)
    ensures incoming[j].deaGuid in Latest(incoming) && Latest(incoming)[incoming[j].deaGuid] == incoming[j]
  {
    LatestIsLast(incoming, incoming[j].deaGuid);
    assert HeardFrom(incoming, incoming[j].deaGuid);
    var i :| LastOfItsDea(incoming, i) && incoming[i].deaGuid == incoming[j].deaGuid &&
             Latest(incoming)[incoming[j].deaGuid] == incoming[i];
    assert i == j;
  }

  lemma ReportMeans(incoming: seq<Heartbeat>, who: Registry, h: InstanceHeartbeat)
    requires AllWellReported(incoming, who)
    ensures ReportFor(Latest(incoming), who, h.instanceGuid) == Some(h) <==> ReportedAs(incoming, h)
  {
    var latest := Latest(incoming);
    hide Latest, ByGuid;
    if ReportedAs(incoming, h) {
      var j :| LastOfItsDea(incoming, j) && h in incoming[j].instanceHeartbeats;
      LastIsLatest(incoming, j);
      assert WellReported(incoming[j], who);
      ByGuidFinds(incoming[j].instanceHeartbeats, h);
    }
    var d := who(h.instanceGuid).deaGuid;
    if ReportFor(latest, who, h.instanceGuid) == Some(h) {
      LatestIsLast(incoming, d);
      var j :| LastOfItsDea(incoming, j) && incoming[j].deaGuid == d && latest[d] == incoming[j];
      assert h in incoming[j].instanceHeartbeats;
    }
  }

  /** An instance has begun to evacuate if its DEA's last report has it evacuating, and it was known neither to be
      evacuating nor to have crashed. */
  ghost predicate HasBegunEvacuating(base: InstanceCache, incoming: seq<Heartbeat>, h: InstanceHeartbeat) {
    && ReportedAs(incoming, h) && h.state == Evacuating
    && !(h.instanceGuid in base && base[h.instanceGuid].state in {Evacuating, Crashed})
  }

  // Exactly those instances are returned.
  lemma EvacuationsMean(base: InstanceCache, incoming: seq<Heartbeat>, who: Registry, evac: seq<InstanceHeartbeat>)
    requires AllWellReported(incoming, who) && EvacuationsAre(base, Latest(incoming), who, evac)
    ensures forall h :: h in evac <==> HasBegunEvacuating(base, incoming, h)
  {
    hide ReportedAs, ReportFor, Latest;
    forall h: InstanceHeartbeat
      ensures ReportFor(Latest(incoming), who, h.instanceGuid) == Some(h) <==> ReportedAs(incoming, h)
    {
      ReportMeans(incoming, who, h);
    }
  }

  /** What is cached afterwards: of a DEA that was heard from exactly what it last reported, an instance whose
      state is not new as it was before; of the others what was cached. */
  lemma CacheMeans(base: InstanceCache, incoming: seq<Heartbeat>, who: Registry, cache: InstanceCache)
    requires AllWellReported(incoming, who) && KnownCache(base, who)
    requires CacheAfter(base, Latest(incoming), who, cache)
    ensures forall h :: ReportedAs(incoming, h) ==>
              var g := h.instanceGuid;
              g in cache && cache[g] == if g in base && base[g].state == h.state then base[g] else h
    ensures forall g :: g in base && !HeardFrom(incoming, base[g].deaGuid) ==> g in cache && cache[g] == base[g]
    ensures forall g :: g in cache ==>
              || (exists h :: ReportedAs(incoming, h) && h.instanceGuid == g)
              || (g in base && !HeardFrom(incoming, base[g].deaGuid))
  {
    var latest := Latest(incoming);
    hide ReportedAs, ReportFor, Latest, HeardFrom;
    forall h | ReportedAs(incoming, h)
      ensures var g := h.instanceGuid;
              g in cache && cache[g] == if g in base && base[g].state == h.state then base[g] else h
    {
      ReportMeans(incoming, who, h);
      ReportedByItsDea(latest, who, h.instanceGuid);
    }
    forall g | g in base && !HeardFrom(incoming, base[g].deaGuid) ensures g in cache && cache[g] == base[g] {
      LatestIsLast(incoming, base[g].deaGuid);
    }
    forall g | g in cache && !(g in base && !HeardFrom(incoming, base[g].deaGuid))
      ensures exists h :: ReportedAs(incoming, h) && h.instanceGuid == g
    {
      LatestIsLast(incoming, who(g).deaGuid);
      ReportedUnderItsGuid(latest, who, g);
      var h := ReportFor(latest, who, g).value;
      ReportMeans(incoming, who, h);
    }
  }

  lemma ReportedByItsDea(latest: map<string, Heartbeat>, who: Registry, g: string)
    ensures ReportFor(latest, who, g).Some? ==> DeaReports(latest, who, g)
  {
  }

  lemma ReportedUnderItsGuid(latest: map<string, Heartbeat>, who: Registry, g: string)
    ensures ReportFor(latest, who, g).Some? ==> ReportFor(latest, who, g).value.instanceGuid == g
  {
  }

  /** What is stored afterwards, given that cache and store agreed before and agree now: of a DEA that was heard
      from exactly what it last reported, of the others what was stored. A state that is not new keeps the
      time it was first reported with. */
  lemma StoreMeans(base: InstanceCache, nodes: Nodes, incoming: seq<Heartbeat>, who: Registry,
                   cache: InstanceCache, nodes': Nodes)
    requires AllWellReported(incoming, who) && KnownCache(base, who) && Mirrors(base, nodes)
    requires CacheAfter(base, Latest(incoming), who, cache) && Mirrors(cache, nodes')
    ensures forall h :: ReportedAs(incoming, h) ==>
              var k := NodeKey(h.appGuid, h.appVersion, h.instanceGuid);
              && k in nodes'
              && nodes'[k] == NodeValue(h.instanceIndex, h.state,
                                        if k in nodes && nodes[k].state == h.state then nodes[k].stateTimestamp
                                        else h.stateTimestamp,
                                        h.deaGuid)
    ensures forall k :: k in nodes && !HeardFrom(incoming, nodes[k].deaGuid) ==> k in nodes' && nodes'[k] == nodes[k]
    ensures forall k :: k in nodes' ==>
              || (exists h :: ReportedAs(incoming, h) && k == NodeKey(h.appGuid, h.appVersion, h.instanceGuid))
              || (k in nodes && !HeardFrom(incoming, nodes[k].deaGuid))
  {
    CacheMeans(base, incoming, who, cache);
    hide CacheAfter, HeardFrom;
    forall h | ReportedAs(incoming, h)
      ensures var k := NodeKey(h.appGuid, h.appVersion, h.instanceGuid);
              && k in nodes'
              && nodes'[k] == NodeValue(h.instanceIndex, h.state,
                                        if k in nodes && nodes[k].state == h.state then nodes[k].stateTimestamp
                                        else h.stateTimestamp,
                                        h.deaGuid)
    {
      ReportedIsKnown(incoming, who, h);
      hide ReportedAs;
      var g := h.instanceGuid;
      if g in base {
        assert Known(base[g], who) && KeyOf(base[g]) == KeyOf(h);
      }
      assert nodes'[KeyOf(cache[g])] == ValueOf(cache[g]);
    }
    hide ReportedAs;
    forall k | k in nodes'
      ensures || (exists h :: ReportedAs(incoming, h) && k == NodeKey(h.appGuid, h.appVersion, h.instanceGuid))
              || (k in nodes && !HeardFrom(incoming, nodes[k].deaGuid))
    {
      var g := k.instanceGuid;
      assert g in cache && KeyOf(cache[g]) == k;
      if g in base && !HeardFrom(incoming, base[g].deaGuid) {
        assert cache[g] == base[g];
      } else {
        var h :| ReportedAs(incoming, h) && h.instanceGuid == g;
        assert KeyOf(h) == k by {
          ReportedIsKnown(incoming, who, h);
          assert g in base ==> Known(base[g], who);
        }
      }
    }
  }

  lemma ReportedIsKnown(incoming: seq<Heartbeat>, who: Registry, h: InstanceHeartbeat)
    requires AllWellReported(incoming, who) && ReportedAs(incoming, h)
    ensures Known(h, who)
  {
    var j :| LastOfItsDea(incoming, j) && h in incoming[j].instanceHeartbeats;
    assert WellReported(incoming[j], who);
  }
}
