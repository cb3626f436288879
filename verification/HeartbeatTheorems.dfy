/** Properties of sequences of heartbeat batches. */
module HeartbeatTheorems {
  import opened HeartbeatSpec
  import opened Models

  // ---------- batching ----------

  // The nodes after syncing the reports one at a time, with no reload in between.
  ghost predicate SyncedOneByOne(states: seq<Nodes>, hbs: seq<Heartbeat>, who: Registry) {
    && |states| == |hbs| + 1
    && (forall i :: 0 <= i < |states| ==> KnownNodes(states[i], who))
    && (forall i :: 0 <= i < |hbs| ==>
          WellReported(hbs[i], who) && ReplacedByReports(states[i], Latest([hbs[i]]), who, states[i + 1]))
  }

  lemma LatestOfOne(hb: Heartbeat)
    ensures Latest([hb]) == map[hb.deaGuid := hb]
  {
    assert [hb][..0] == [];
  }

  lemma LatestAppend(hbs: seq<Heartbeat>, hb: Heartbeat)
    ensures Latest(hbs + [hb]) == Latest(hbs)[hb.deaGuid := hb]
  {
    assert (hbs + [hb])[..|hbs|] == hbs;
  }

  lemma OneMoreReport(nodes: Nodes, hbs: seq<Heartbeat>, hb: Heartbeat, who: Registry, mid: Nodes, after: Nodes)
    requires KnownNodes(nodes, who) && KnownNodes(mid, who) && WellReported(hb, who)
    requires ReplacedByReports(nodes, Latest(hbs), who, mid)
    requires ReplacedByReports(mid, Latest([hb]), who, after)
    ensures ReplacedByReports(nodes, Latest(hbs + [hb]), who, after)
  {
    hide NextNode, KnownNodes, WellReported, Latest;
    forall k
      ensures k in after <==> NextNode(nodes, Latest(hbs + [hb]), who, k).Some?
      ensures k in after ==> SameButTime(after[k], NextNode(nodes, Latest(hbs + [hb]), who, k).value)
    {
      assert k in mid <==> NextNode(nodes, Latest(hbs), who, k).Some?;
      assert k in after <==> NextNode(mid, Latest([hb]), who, k).Some?;
      NodeAfterOneMore(nodes, hbs, hb, who, mid, k);
    }
  }

  // One node, before and after the last report.
  lemma NodeAfterOneMore(nodes: Nodes, hbs: seq<Heartbeat>, hb: Heartbeat, who: Registry, mid: Nodes, k: NodeKey)
    requires KnownNodes(nodes, who) && KnownNodes(mid, who)
    requires k in mid <==> NextNode(nodes, Latest(hbs), who, k).Some?
    requires k in mid ==> SameButTime(mid[k], NextNode(nodes, Latest(hbs), who, k).value)
    ensures NextNode(mid, Latest([hb]), who, k).Some? <==> NextNode(nodes, Latest(hbs + [hb]), who, k).Some?
    ensures NextNode(mid, Latest([hb]), who, k).Some? ==>
              SameButTime(NextNode(mid, Latest([hb]), who, k).value, NextNode(nodes, Latest(hbs + [hb]), who, k).value)
  {
    hide ByGuid, Latest;
    LatestOfOne(hb);
    LatestAppend(hbs, hb);
    assert k in nodes ==> Known(Read(k, nodes[k]), who);
    assert k in mid ==> Known(Read(k, mid[k]), who);
  }

  lemma {:induction false} OneByOneReplaces(states: seq<Nodes>, hbs: seq<Heartbeat>, who: Registry)
    requires SyncedOneByOne(states, hbs, who)
    ensures ReplacedByReports(states[0], Latest(hbs), who, states[|hbs|])
  {
    if hbs != [] {
      var n := |hbs| - 1;
      OneByOneReplaces(states[..n + 1], hbs[..n], who);
      OneMoreReport(states[0], hbs[..n], hbs[n], who, states[n], states[n + 1]);
      assert hbs[..n] + [hbs[n]] == hbs;
    }
  }

  /** Syncing a batch in one call and syncing its reports one at a time in order of arrival leave the
      same nodes in the store, up to the times of unchanged states. */
  lemma BatchingIsCoalescing(states: seq<Nodes>, hbs: seq<Heartbeat>, who: Registry, batched: Nodes)
    requires SyncedOneByOne(states, hbs, who)
    requires ReplacedByReports(states[0], Latest(hbs), who, batched)
    ensures batched.Keys == states[|hbs|].Keys
    ensures forall k :: k in batched ==> SameButTime(batched[k], states[|hbs|][k])
  {
    hide NextNode, Latest, KnownNodes, WellReported;
    OneByOneReplaces(states, hbs, who);
    var last := states[|hbs|];
    forall k
      ensures k in batched <==> k in last
      ensures k in batched ==> SameButTime(batched[k], last[k])
    {
      assert k in batched <==> NextNode(states[0], Latest(hbs), who, k).Some?;
      assert k in last <==> NextNode(states[0], Latest(hbs), who, k).Some?;
    }
  }

  /** And so do the caches that go with them: they hold the same instances, up to those times, and the same
      index. */
  lemma BatchedCachesAgree(states: seq<Nodes>, hbs: seq<Heartbeat>, who: Registry, batched: Nodes,
                           index: DeaIndex, cache: InstanceCache, index': DeaIndex, cache': InstanceCache)
    requires SyncedOneByOne(states, hbs, who)
    requires ReplacedByReports(states[0], Latest(hbs), who, batched)
    requires CacheOk(index, cache, who) && Mirrors(cache, batched)
    requires CacheOk(index', cache', who) && Mirrors(cache', states[|hbs|])
    ensures cache.Keys == cache'.Keys && index == index'
    ensures forall g :: g in cache ==> cache[g].(stateTimestamp := 0) == cache'[g].(stateTimestamp := 0)
  {
    hide ReplacedByReports, IndexAgrees, KnownCache, Mirrors, KnownNodes, WellReported, Latest;
    BatchingIsCoalescing(states, hbs, who, batched);
    var last := states[|hbs|];
    MirrorsAgree(cache, batched, cache', last, who);
    MirrorsAgree(cache', last, cache, batched, who);
    IndexOfSame(index, cache, index', cache');
  }

  lemma MirrorsAgree(cache: InstanceCache, nodes: Nodes, cache': InstanceCache, nodes': Nodes, who: Registry)
    requires KnownCache(cache, who) && KnownCache(cache', who) && Mirrors(cache, nodes) && Mirrors(cache', nodes')
    requires forall k :: k in nodes ==> k in nodes' && SameButTime(nodes[k], nodes'[k])
    ensures forall g :: g in cache ==>
              g in cache' && cache[g].(stateTimestamp := 0) == cache'[g].(stateTimestamp := 0)
  {
    forall g | g in cache ensures g in cache' && cache[g].(stateTimestamp := 0) == cache'[g].(stateTimestamp := 0) {
      var k := KeyOf(cache[g]);
      assert k in nodes' && k.instanceGuid == g;
    }
  }

  lemma IndexOfSame(index: DeaIndex, cache: InstanceCache, index': DeaIndex, cache': InstanceCache)
    requires IndexAgrees(index, cache) && IndexAgrees(index', cache')
    requires cache.Keys == cache'.Keys && forall g :: g in cache ==> cache[g].deaGuid == cache'[g].deaGuid
    ensures index == index'
  {
    assert IndexAgrees(index', cache);
    IndexIsUnique(index, index', cache);
  }

  /** The cache a batch leads to does not depend on the order in which its DEAs are visited. */
  lemma CacheAfterIsUnique(cache: InstanceCache, latest: map<string, Heartbeat>, who: Registry,
                           cache': InstanceCache, cache'': InstanceCache)
    requires CacheAfter(cache, latest, who, cache') && CacheAfter(cache, latest, who, cache'')
    ensures cache' == cache''
  {
    hide NextEntry;
    forall g
      ensures g in cache' <==> g in cache''
      ensures g in cache' ==> cache'[g] == cache''[g]
    {
      assert g in cache' <==> NextEntry(cache, latest, who, g).Some?;
    }
  }

  // ---------- evacuations ----------

  // A cache over time: batches merged into it, whether or not their writes got through, and reloads.
  datatype CacheStep = Synced(latest: map<string, Heartbeat>) | Reloaded

  ghost predicate IsTrace(caches: seq<InstanceCache>, steps: seq<CacheStep>, who: Registry) {
    && |caches| == |steps| + 1
    && (forall i :: 0 <= i < |steps| && steps[i].Synced? ==>
          WellReportedAll(steps[i].latest, who) && CacheAfter(caches[i], steps[i].latest, who, caches[i + 1]))
  }

  // The i-th step returned the instance for evacuation.
  ghost predicate Returned(caches: seq<InstanceCache>, steps: seq<CacheStep>, who: Registry, i: int, g: string)
    requires IsTrace(caches, steps, who)
  {
    0 <= i < |steps| && steps[i].Synced? &&
    ReportFor(steps[i].latest, who, g).Some? && StartsEvacuating(caches[i], ReportFor(steps[i].latest, who, g).value)
  }

  // The i-th step saw the instance in another state, or absent, or a reload lost sight of it.
  ghost predicate SeenOtherwise(caches: seq<InstanceCache>, steps: seq<CacheStep>, who: Registry, i: int, g: string)
    requires IsTrace(caches, steps, who)
  {
    0 <= i < |steps| &&
    match steps[i]
    case Synced(latest) =>
      DeaReports(latest, who, g) &&
      (ReportFor(latest, who, g).None? || !ReportFor(latest, who, g).value.IsEvacuating())
    case Reloaded => g !in caches[i + 1] || !caches[i + 1][g].IsEvacuating()
  }

  lemma StaysEvacuating(caches: seq<InstanceCache>, steps: seq<CacheStep>, who: Registry, i: int, g: string)
    requires IsTrace(caches, steps, who) && 0 <= i < |steps| && !SeenOtherwise(caches, steps, who, i, g)
    requires g in caches[i] && caches[i][g].IsEvacuating() && caches[i][g].instanceGuid == g
    ensures g in caches[i + 1] && caches[i + 1][g].IsEvacuating()
  {
    if steps[i].Synced? {
      assert g in caches[i + 1] <==> NextEntry(caches[i], steps[i].latest, who, g).Some?;
      ReportIsKnown(steps[i].latest, who, g);
    }
  }

  lemma {:induction false} EvacuatingUntil(caches: seq<InstanceCache>, steps: seq<CacheStep>, who: Registry,
                                           i: int, j: int, g: string)
    requires IsTrace(caches, steps, who) && Returned(caches, steps, who, i, g) && i < j < |caches|
    requires forall k :: 0 <= k < |caches| ==> KnownCache(caches[k], who)
    requires forall k :: i < k < j ==> !SeenOtherwise(caches, steps, who, k, g)
    ensures g in caches[j] && caches[j][g].IsEvacuating()
    decreases j
  {
    hide ReportFor, StartsEvacuating;
    if j == i + 1 {
      ReturnedIsCached(caches, steps, who, i, g);
    } else {
      EvacuatingUntil(caches, steps, who, i, j - 1, g);
      assert KnownCache(caches[j - 1], who);
      StaysEvacuating(caches, steps, who, j - 1, g);
    }
  }

  lemma ReturnedIsCached(caches: seq<InstanceCache>, steps: seq<CacheStep>, who: Registry, i: int, g: string)
    requires IsTrace(caches, steps, who) && Returned(caches, steps, who, i, g)
    ensures g in caches[i + 1] && caches[i + 1][g].IsEvacuating()
  {
    ReportIsKnown(steps[i].latest, who, g);
    assert g in caches[i + 1] <==> NextEntry(caches[i], steps[i].latest, who, g).Some?;
  }

  /** An instance is started elsewhere once per evacuation: between two calls that return it, some
      call saw it in another state or not at all, or a reload lost sight of it. */
  lemma OneStartPerEvacuation(caches: seq<InstanceCache>, steps: seq<CacheStep>, who: Registry, i: int, j: int,
                              g: string)
    requires IsTrace(caches, steps, who) && i < j
    requires forall k :: 0 <= k < |caches| ==> KnownCache(caches[k], who)
    requires Returned(caches, steps, who, i, g) && Returned(caches, steps, who, j, g)
    ensures exists k :: i < k < j && SeenOtherwise(caches, steps, who, k, g)
  {
    if !exists k :: i < k < j && SeenOtherwise(caches, steps, who, k, g) {
      EvacuatingUntil(caches, steps, who, i, j, g);
      ReportIsKnown(steps[j].latest, who, g);
      assert false;
    }
  }
}
