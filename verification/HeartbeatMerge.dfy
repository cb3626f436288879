/** Taking the DEAs of a batch one by one, in any order, amounts to taking them all together. */
module HeartbeatMerge {
  import opened Models
  import opened HeartbeatSpec

  // The part of a batch that comes from the given DEAs.
  function Only(latest: map<string, Heartbeat>, done: set<string>): map<string, Heartbeat> {
    map d | d in latest && d in done :: latest[d]
  }

  lemma OnlyNone(latest: map<string, Heartbeat>)
    ensures Only(latest, {}) == map[]
  {
  }

  lemma OnlyAll(latest: map<string, Heartbeat>)
    ensures Only(latest, latest.Keys) == latest
  {
  }

  // An entry after merging one report.
  lemma MergedAt(cache: InstanceCache, hb: Heartbeat, who: Registry, g: string)
    requires KnownCache(cache, who) && WellReported(hb, who)
    ensures var r, after := ByGuid(hb.instanceHeartbeats), Merged(cache, hb);
            if g in r then g in after && after[g] == if Unchanged(cache, r[g]) then cache[g] else r[g]
            else if who(g).deaGuid == hb.deaGuid then g !in after
            else (g in after <==> g in cache) && (g in cache ==> after[g] == cache[g])
    ensures g in ByGuid(hb.instanceHeartbeats) ==> who(g).deaGuid == hb.deaGuid
  {
    AbsorbedAt(cache, hb.instanceHeartbeats, g);
    GuidsAreByGuid(hb.instanceHeartbeats);
  }

  lemma GuidsAreByGuid(hs: seq<InstanceHeartbeat>)
    ensures GuidsOf(hs) == ByGuid(hs).Keys
  {
  }

  lemma {:induction false} NewNodesAt(cache: InstanceCache, hs: seq<InstanceHeartbeat>, k: NodeKey)
    requires DistinctGuids(hs)
    ensures var r, nodes := ByGuid(hs), NewNodes(cache, hs);
            && (k in nodes <==>
                  k.instanceGuid in r && KeyOf(r[k.instanceGuid]) == k && !Unchanged(cache, r[k.instanceGuid]))
            && (k in nodes ==> nodes[k] == ValueOf(r[k.instanceGuid]))
  {
    hide ByGuid, DistinctGuids;
    if hs != [] {
      ByGuidSnoc(hs);
      NewNodesAt(cache, hs[..|hs| - 1], k);
    }
  }

  // The state of the loop over the batch, when the DEAs in `done` have been merged.
  ghost predicate MergedSoFar(cache: InstanceCache, latest: map<string, Heartbeat>, who: Registry, done: set<string>,
                              cache': InstanceCache, saves: Nodes, deletes: set<NodeKey>, evac: seq<InstanceHeartbeat>)
  {
    && CacheAfter(cache, Only(latest, done), who, cache')
    && SavesAre(cache, Only(latest, done), who, saves)
    && DeletesAre(cache, Only(latest, done), who, deletes)
    && EvacuationsAre(cache, Only(latest, done), who, evac)
  }

  lemma ReportWithin(latest: map<string, Heartbeat>, who: Registry, done: set<string>, d: string, g: string)
    requires WellReportedAll(latest, who) && d in latest && d !in done
    ensures who(g).deaGuid != d ==>
              && ReportFor(Only(latest, done + {d}), who, g) == ReportFor(Only(latest, done), who, g)
              && (DeaReports(Only(latest, done + {d}), who, g) <==> DeaReports(Only(latest, done), who, g))
    ensures who(g).deaGuid == d ==>
              && DeaReports(Only(latest, done + {d}), who, g)
              && !DeaReports(Only(latest, done), who, g) && ReportFor(Only(latest, done), who, g) == None
              && ReportFor(Only(latest, done + {d}), who, g) ==
                 if g in ByGuid(latest[d].instanceHeartbeats) then Some(ByGuid(latest[d].instanceHeartbeats)[g])
                 else None
  {
    hide ByGuid;
  }

  // Until its DEA is merged, an entry is as it was.
  lemma UntouchedEntry(cache: InstanceCache, latest: map<string, Heartbeat>, who: Registry, done: set<string>,
                       cache': InstanceCache, g: string)
    requires CacheAfter(cache, Only(latest, done), who, cache')
    requires !DeaReports(Only(latest, done), who, g)
    ensures (g in cache' <==> g in cache) && (g in cache ==> cache'[g] == cache[g])
  {
    hide ReportFor, DeaReports;
    assert g in cache' <==> NextEntry(cache, Only(latest, done), who, g).Some?;
  }

  lemma EntriesStep(cache: InstanceCache, latest: map<string, Heartbeat>, who: Registry, done: set<string>,
                    cache': InstanceCache, d: string)
    requires KnownCache(cache', who) && WellReportedAll(latest, who) && d in latest && d !in done
    requires CacheAfter(cache, Only(latest, done), who, cache')
    ensures CacheAfter(cache, Only(latest, done + {d}), who, Merged(cache', latest[d]))
  {
    hide ReportFor, DeaReports, ByGuid, Merged, Only;
    var after := Merged(cache', latest[d]);
    forall g
      ensures g in after <==> NextEntry(cache, Only(latest, done + {d}), who, g).Some?
      ensures g in after ==> after[g] == NextEntry(cache, Only(latest, done + {d}), who, g).value
    {
      MergedAt(cache', latest[d], who, g);
      ReportWithin(latest, who, done, d, g);
      assert g in cache' <==> NextEntry(cache, Only(latest, done), who, g).Some?;
    }
  }

  lemma SavesStep(cache: InstanceCache, latest: map<string, Heartbeat>, who: Registry, done: set<string>,
                  cache': InstanceCache, saves: Nodes, d: string)
    requires WellReportedAll(latest, who) && d in latest && d !in done
    requires CacheAfter(cache, Only(latest, done), who, cache') && SavesAre(cache, Only(latest, done), who, saves)
    ensures SavesAre(cache, Only(latest, done + {d}), who, saves + NewNodes(cache', latest[d].instanceHeartbeats))
  {
    hide ReportFor, DeaReports, ByGuid, Only, NewNodes, CacheAfter;
    var hs := latest[d].instanceHeartbeats;
    var more := NewNodes(cache', hs);
    var saves' := saves + more;
    forall k | k in saves'
      ensures var r := ReportFor(Only(latest, done + {d}), who, k.instanceGuid);
              r.Some? && KeyOf(r.value) == k && !Unchanged(cache, r.value) && saves'[k] == ValueOf(r.value)
    {
      NewNodesAt(cache', hs, k);
      ReportWithin(latest, who, done, d, k.instanceGuid);
      if k in more {
        UntouchedReport(cache, latest, who, done, cache', d, k.instanceGuid);
      }
    }
    forall g | ReportFor(Only(latest, done + {d}), who, g).Some? &&
               !Unchanged(cache, ReportFor(Only(latest, done + {d}), who, g).value)
      ensures KeyOf(ReportFor(Only(latest, done + {d}), who, g).value) in saves'
    {
      ReportWithin(latest, who, done, d, g);
      if who(g).deaGuid == d {
        var h := ByGuid(hs)[g];
        NewNodesAt(cache', hs, KeyOf(h));
        UntouchedReport(cache, latest, who, done, cache', d, g);
      }
    }
  }

  lemma UntouchedReport(cache: InstanceCache, latest: map<string, Heartbeat>, who: Registry, done: set<string>,
                        cache': InstanceCache, d: string, g: string)
    requires WellReportedAll(latest, who) && d in latest && d !in done
    requires CacheAfter(cache, Only(latest, done), who, cache')
    requires g in ByGuid(latest[d].instanceHeartbeats)
    ensures who(g).deaGuid == d
    ensures var h := ByGuid(latest[d].instanceHeartbeats)[g];
            && h.instanceGuid == g && Known(h, who)
            && (Unchanged(cache', h) <==> Unchanged(cache, h))
            && (StartsEvacuating(cache', h) <==> StartsEvacuating(cache, h))
  {
    hide ReportFor;
    UntouchedEntry(cache, latest, who, done, cache', g);
  }

  lemma DeletesStep(cache: InstanceCache, latest: map<string, Heartbeat>, who: Registry, done: set<string>,
                    cache': InstanceCache, deletes: set<NodeKey>, d: string)
    requires KnownCache(cache, who) && KnownCache(cache', who) && WellReportedAll(latest, who) && d in latest &&
             d !in done
    requires CacheAfter(cache, Only(latest, done), who, cache') && DeletesAre(cache, Only(latest, done), who, deletes)
    ensures DeletesAre(cache, Only(latest, done + {d}), who, deletes + GoneKeys(cache', latest[d]))
  {
    hide ReportFor, DeaReports, ByGuid, Only, CacheAfter;
    var hb := latest[d];
    GuidsAreByGuid(hb.instanceHeartbeats);
    forall g
      ensures g in Gone(cache', hb) <==> g in cache && who(g).deaGuid == d && g !in ByGuid(hb.instanceHeartbeats)
    {
      ReportWithin(latest, who, done, d, g);
      if who(g).deaGuid == d {
        UntouchedEntry(cache, latest, who, done, cache', g);
      }
    }
    forall k | k in deletes + GoneKeys(cache', hb)
      ensures var g := k.instanceGuid;
              g in cache && k == KeyOf(cache[g]) && DeaReports(Only(latest, done + {d}), who, g) &&
              ReportFor(Only(latest, done + {d}), who, g).None?
    {
      ReportWithin(latest, who, done, d, k.instanceGuid);
      if k !in deletes {
        var g :| g in Gone(cache', hb) && k == KeyOf(cache'[g]);
        ReportWithin(latest, who, done, d, g);
        UntouchedEntry(cache, latest, who, done, cache', g);
      }
    }
    forall g |
      g in cache && DeaReports(Only(latest, done + {d}), who, g) && ReportFor(Only(latest, done + {d}), who, g).None?
      ensures KeyOf(cache[g]) in deletes + GoneKeys(cache', hb)
    {
      ReportWithin(latest, who, done, d, g);
      if who(g).deaGuid == d {
        UntouchedEntry(cache, latest, who, done, cache', g);
        assert g in Gone(cache', hb);
      }
    }
  }

  lemma {:induction false} NewlyEvacuatingDistinct(cache: InstanceCache, hs: seq<InstanceHeartbeat>)
    requires DistinctGuids(hs)
    ensures DistinctGuids(NewlyEvacuating(cache, hs))
  {
    hide StartsEvacuating;
    if hs != [] {
      var init, last := hs[..|hs| - 1], hs[|hs| - 1];
      NewlyEvacuatingDistinct(cache, init);
      forall h | h in NewlyEvacuating(cache, init) ensures h.instanceGuid != last.instanceGuid {
        var i :| 0 <= i < |init| && init[i] == h;
      }
    }
  }

  lemma EvacuationsStep(cache: InstanceCache, latest: map<string, Heartbeat>, who: Registry, done: set<string>,
                        cache': InstanceCache, evac: seq<InstanceHeartbeat>, d: string)
    requires WellReportedAll(latest, who) && d in latest && d !in done
    requires CacheAfter(cache, Only(latest, done), who, cache') && EvacuationsAre(cache, Only(latest, done), who, evac)
    ensures EvacuationsAre(cache, Only(latest, done + {d}), who,
                           evac + NewlyEvacuating(cache', latest[d].instanceHeartbeats))
  {
    hide ReportFor, DeaReports, ByGuid, Only, CacheAfter, StartsEvacuating, NewlyEvacuating;
    var hs := latest[d].instanceHeartbeats;
    var more := NewlyEvacuating(cache', hs);
    forall h ensures h in more <==> who(h.instanceGuid).deaGuid == d &&
                                    ReportFor(Only(latest, done + {d}), who, h.instanceGuid) == Some(h) &&
                                    StartsEvacuating(cache, h) {
      ReportWithin(latest, who, done, d, h.instanceGuid);
      if h in hs {
        ByGuidFinds(hs, h);
        UntouchedReport(cache, latest, who, done, cache', d, h.instanceGuid);
      }
      if h.instanceGuid in ByGuid(hs) {
        UntouchedReport(cache, latest, who, done, cache', d, h.instanceGuid);
      }
    }
    forall h ensures h in evac + more <==>
                     ReportFor(Only(latest, done + {d}), who, h.instanceGuid) == Some(h) && StartsEvacuating(cache, h) {
      ReportWithin(latest, who, done, d, h.instanceGuid);
    }
    NewlyEvacuatingDistinct(cache', hs);
    forall i, j | 0 <= i < j < |evac + more| ensures (evac + more)[i].instanceGuid != (evac + more)[j].instanceGuid {
      if i < |evac| <= j {
        assert evac[i] in evac && more[j - |evac|] in more;
        ReportWithin(latest, who, done, d, evac[i].instanceGuid);
      }
    }
  }

  /** Merging one more DEA keeps the loop's invariant, whichever DEA comes next. */
  lemma MergeStep(cache: InstanceCache, latest: map<string, Heartbeat>, who: Registry, done: set<string>,
                  cache': InstanceCache, saves: Nodes, deletes: set<NodeKey>, evac: seq<InstanceHeartbeat>, d: string)
    requires KnownCache(cache, who) && KnownCache(cache', who) && WellReportedAll(latest, who) && d in latest &&
             d !in done
    requires MergedSoFar(cache, latest, who, done, cache', saves, deletes, evac)
    ensures MergedSoFar(cache, latest, who, done + {d}, Merged(cache', latest[d]),
                        saves + NewNodes(cache', latest[d].instanceHeartbeats),
                        deletes + GoneKeys(cache', latest[d]),
                        evac + NewlyEvacuating(cache', latest[d].instanceHeartbeats))
  {
    hide CacheAfter, SavesAre, DeletesAre, EvacuationsAre;
    EntriesStep(cache, latest, who, done, cache', d);
    SavesStep(cache, latest, who, done, cache', saves, d);
    DeletesStep(cache, latest, who, done, cache', deletes, d);
    EvacuationsStep(cache, latest, who, done, cache', evac, d);
  }

  lemma NothingMerged(cache: InstanceCache, latest: map<string, Heartbeat>, who: Registry)
    ensures MergedSoFar(cache, latest, who, {}, cache, map[], {}, [])
  {
    OnlyNone(latest);
  }
}
