/** Two courses of events in which an evacuating instance is never started elsewhere by the listener,
    played out on the listener's own objects. Nothing is wrong with the cloud controller in either. */
module SyncerScenarios {
  import opened Freshness
  import opened HeartbeatSpec
  import opened HeartbeatStores
  import opened HeartbeatTheorems
  import opened Models
  import opened PendingStores
  import opened SendDecisions
  import opened Senders
  import opened Syncers

  // Every instance belongs to the same index of the same app on the same DEA.
  function Who(guid: string): Identity { Identity("app", "version", 3, "dea") }

  // The cloud controller accepts everything.
  function Yes(n: nat): bool { true }

  function Evacuee(guid: string): InstanceHeartbeat {
    InstanceHeartbeat("app", "version", guid, 3, Evacuating, 0, "dea")
  }

  const NONE := Heartbeat("dea", [])
  const LEAVING := Heartbeat("dea", [Evacuee("a")])

  // All clock readings for starts give the same instant.
  function At(t: nat): nat -> nat { _ => t }

  // All requests of a turn take effect, at the given instant, except perhaps the save.
  function WorldAt(t: nat, saveFails: bool): SyncerWorld {
    SyncerWorld(SyncWorld(false, false, false, saveFails, false), t, t, BumpRequests(t, false, t, Confirmed),
                RevokeRequest(t, Confirmed), At(t), t,
                SendWorld(Reading(t, false), false, false, false, false, false))
  }

  method NewListener(messageLimit: int) returns (syncer: ActualStateSyncer)
    ensures fresh(syncer) && fresh(syncer.store) && fresh(syncer.store.adapter) && fresh(syncer.freshness)
    ensures fresh(syncer.sender) && fresh(syncer.sender.controller) && fresh(syncer.sender.store)
    ensures syncer.Valid() && syncer.heartbeatsToSave == [] && syncer.heartbeatPeriod == 10 * SECOND &&
            syncer.gracePeriod == 30
    ensures syncer.store.who == Who && syncer.store.refreshInterval == 60 * SECOND
    ensures syncer.store.adapter.nodes == map[] && syncer.store.cacheTimestamp.None?
    ensures syncer.received == [] && syncer.asked == []
    ensures syncer.freshness.history == [] && syncer.freshness.ttl == 30 && syncer.freshness.clock == 0
    ensures syncer.sender.messageLimit == messageLimit && syncer.sender.Unused()
    ensures syncer.sender.controller.startPosts == [] && syncer.sender.controller.startBodies == []
    ensures syncer.sender.controller.startAnswer == Yes
  {
    hide ActualStateSyncer.Valid, FreshnessStore.Valid, PendingStore.Valid, CloudController.Valid,
         HeartbeatStore.CacheIsOk;
    var adapter := new ActualAdapter();
    var store := new HeartbeatStore(adapter, 60 * SECOND, 10 * SECOND, 30 * SECOND, Who);
    var freshness := new FreshnessStore(30);
    var queues := new PendingStore();
    var controller := new CloudController(Yes, Yes);
    var sender := new Sender(queues, freshness, controller, messageLimit);
    syncer := new ActualStateSyncer(store, freshness, sender, 10 * SECOND, 30);
  }

  // What is known of a listener of the parts it is made of.
  lemma Parts(syncer: ActualStateSyncer)
    requires syncer.Valid()
    ensures syncer.freshness.Valid() && syncer.sender.freshness == syncer.freshness
    ensures syncer.sender.store.Valid() && syncer.sender.controller.Valid()
  {
  }

  // Bumps at 0 and 20 seconds, and what that means at 30 seconds and after.
  const TWO_BUMPS := [Bump(0, 0, false, 0), Bump(20 * SECOND, 20 * SECOND, false, 20 * SECOND)]

  lemma FreshAfterTwo(t: nat)
    requires 30 * SECOND <= t < 50 * SECOND
    ensures UnbrokenFrom(TWO_BUMPS, 30, t, t, 0)
  {
  }

  // ---------- the limit ----------

  /** A listener with a limit of one, whose state is fresh and whose controller accepts every post, was asked
      to start instance a elsewhere and a second later instance b. It has sent the start of a and nothing
      more, and its sender will send no start again. */
  method LimitIsForGood() returns (syncer: ActualStateSyncer)
    ensures syncer.sender.messageLimit == 1 && syncer.sender.controller.startAnswer == Yes
    ensures syncer.freshness.Passes(30 * SECOND, Reading(30 * SECOND, false))
    ensures syncer.freshness.Passes(31 * SECOND, Reading(31 * SECOND, false))
    ensures syncer.asked == [Evacuee("a"), Evacuee("b")]
    ensures syncer.sender.controller.startPosts ==
              [Post(PendingStart(30, 0, 30, "app", "version", 3, 2.0, true, EvacuatingStart), true)]
    ensures syncer.sender.controller.startBodies == [StartMessage("app", "version", 3)]
    ensures syncer.sender.numberOfStartMessagesSent == 1
  {
    hide FreshnessStore.Valid, ActualStateSyncer.Valid, UnbrokenFrom, CloudController.Valid,
         PendingStore.Valid;
    syncer := NewListener(1);
    Parts(syncer);
    var freshness := syncer.freshness;
    var ok := freshness.BumpActualFreshness(0, BumpRequests(0, false, 0, Confirmed));
    ok := freshness.BumpActualFreshness(20 * SECOND, BumpRequests(20 * SECOND, false, 20 * SECOND, Confirmed));
    assert freshness.history == TWO_BUMPS;
    FreshAfterTwo(30 * SECOND);
    FreshAfterTwo(31 * SECOND);
    AskFor(syncer, Evacuee("a"), 30 * SECOND);
    AskFor(syncer, Evacuee("b"), 31 * SECOND);
  }

  // A start is asked for while the state is fresh: it is posted exactly if something is left of the limit.
  method AskFor(syncer: ActualStateSyncer, h: InstanceHeartbeat, t: nat)
    requires syncer.sender.store.Valid() && syncer.freshness.Valid() && syncer.sender.controller.Valid()
    requires syncer.sender.freshness == syncer.freshness && syncer.freshness.Passes(t, Reading(t, false))
    requires syncer.gracePeriod == 30 && syncer.sender.controller.startAnswer == Yes
    modifies syncer`asked, syncer.sender, syncer.sender.controller, syncer.sender.store
    ensures syncer.sender.store.Valid() && syncer.sender.controller.Valid() && syncer.asked == old(syncer.asked) + [h]
    ensures var m := PendingStart(Unix(t), 0, 30, h.appGuid, h.appVersion, h.instanceIndex, 2.0, true,
                                  EvacuatingStart);
            var body := StartMessage(h.appGuid, h.appVersion, h.instanceIndex);
            var left := old(syncer.sender.numberOfStartMessagesSent) < syncer.sender.messageLimit;
            && syncer.sender.controller.startPosts ==
                 old(syncer.sender.controller.startPosts) + (if left then [Post(m, true)] else [])
            && syncer.sender.controller.startBodies ==
                 old(syncer.sender.controller.startBodies) + (if left then [body] else [])
            && syncer.sender.numberOfStartMessagesSent ==
                 old(syncer.sender.numberOfStartMessagesSent) + (if left then 1 else 0)
  {
    hide FreshnessStore.Passes, FreshnessStore.Valid, RunFollows, EvacuationStarts, StartBodies,
         PendingStore.Valid, Accepted, EvacueesPosted;
    syncer.NoneAccepted();
    ghost var before := syncer.sender.controller.startPosts;
    ghost var allowance := syncer.sender.messageLimit - syncer.sender.numberOfStartMessagesSent;
    ghost var run := syncer.StartElsewhere([h], WorldAt(t, false));
    if allowance > 0 {
      OneIsPosted(h, At(t), Unix(t), allowance, run);
      assert syncer.sender.controller.startPosts[|before|] == run.startPosts[0];
      OneIsAccepted(run.startPosts);
    } else {
      syncer.NonePosted([h], At(t), 30);
    }
  }

  lemma OneIsPosted(h: InstanceHeartbeat, made: nat -> nat, now: int, allowance: int, run: SendRun)
    requires Unix(made(0)) == now && allowance > 0
    requires RunFollows(map[], now, allowance, EvacuationStarts(made, 30, [h]), [], run)
    ensures |run.startPosts| == 1 && |StartBodies(map[], run.startPosts)| == 1
    ensures IsPostedFor(h, now, 30, run.startPosts[0].pending, StartBodies(map[], run.startPosts)[0])
  {
    EvacuationsPosted(now, made, 30, [h], allowance, run);
    PostsAreForEvacuees(now, made, 30, [h], allowance, run);
    hide RunFollows, EvacuationStarts, StartBodies;
  }

  lemma OneIsAccepted(posts: seq<Post<PendingStart>>)
    requires |posts| == 1 && posts[0].accepted
    ensures Accepted(posts) == 1
  {
    assert posts[..0] == [];
  }

  // ---------- a failed sync ----------

  // The listener of this course of events, in between turns.
  ghost predicate Waiting(syncer: ActualStateSyncer, t: nat)
    reads syncer, syncer.store, syncer.store.adapter, syncer.freshness, syncer.sender, syncer.sender.store,
          syncer.sender.controller
  {
    && syncer.Valid() && syncer.heartbeatsToSave == [] && syncer.freshness.clock <= t < 60 * SECOND
    && syncer.heartbeatPeriod == 10 * SECOND && syncer.freshness.ttl == 30
    && syncer.store.who == Who && syncer.store.refreshInterval == 60 * SECOND
    && (if syncer.store.cacheTimestamp.None? then syncer.store.adapter.nodes == map[]
        else 0 <= syncer.store.cacheTimestamp.value)
  }

  // One report is received and handed over.
  method Turn(syncer: ActualStateSyncer, hb: Heartbeat, t: nat, saveFails: bool)
    returns (ghost base: InstanceCache, ghost evac: seq<InstanceHeartbeat>)
    requires Waiting(syncer, t) && hb in {NONE, LEAVING}
    requires saveFails ==> !syncer.store.cacheTimestamp.None?
    modifies syncer, syncer.store, syncer.store.adapter, syncer.freshness, syncer.sender, syncer.sender.controller,
             syncer.sender.store
    ensures Waiting(syncer, t) && !syncer.store.cacheTimestamp.None?
    ensures syncer.received == old(syncer.received) + [hb] && syncer.asked == old(syncer.asked) + evac
    ensures syncer.freshness.history == old(syncer.freshness.history) +
              [if saveFails then Revoke(t) else Bump(t, t, false, t)]
    ensures base == if old(syncer.store.cacheTimestamp.None?) then map[] else old(syncer.store.instanceHeartbeatCache)
    ensures CacheAfter(base, map["dea" := hb], Who, syncer.store.instanceHeartbeatCache)
    ensures EvacuationsAre(base, map["dea" := hb], Who, evac) && (evac != [] ==> exists h :: h in evac)
    ensures evac == [] || !syncer.freshness.Passes(t, Reading(t, false)) ==>
              && syncer.sender.controller.startPosts == old(syncer.sender.controller.startPosts)
              && syncer.sender.numberOfStartMessagesSent == old(syncer.sender.numberOfStartMessagesSent)
  {
    hide ActualStateSyncer.Valid, CacheAfter, EvacuationsAre, Latest, ReplacedByReports, FreshnessStore.Passes,
         RunFollows, EvacuationStarts, Accepted, WellReported;
    syncer.NoneAccepted();
    ReportsAreGood(hb);
    LatestOfOne(hb);
    syncer.Heartbeat(hb);
    assert syncer.heartbeatsToSave == [hb];
    ClockOf(syncer);
    ghost var call, run, before, nodes, evacuating := syncer.SyncOnce(t, WorldAt(t, saveFails));
    base, evac := before, evacuating;
    ClockOf(syncer);
    if evac != [] {
      assert evac[0] in evac;
    }
  }

  // For the two reports of interest.
  lemma ReportsAreGood(hb: Heartbeat)
    requires hb in {NONE, LEAVING}
    ensures hb.deaGuid == "dea" && WellReported(hb, Who)
  {
  }

  lemma ClockOf(syncer: ActualStateSyncer)
    requires syncer.Valid()
    ensures syncer.sender.freshness == syncer.freshness
  {
  }

  lemma NothingReported(base: InstanceCache, evac: seq<InstanceHeartbeat>, cache: InstanceCache)
    requires base == map[] && CacheAfter(base, map["dea" := NONE], Who, cache)
    requires EvacuationsAre(base, map["dea" := NONE], Who, evac)
    ensures !(exists h :: h in evac) && cache == map[]
  {
    forall g ensures g !in cache {
      assert NextEntry(base, map["dea" := NONE], Who, g).None?;
    }
  }

  lemma FirstReported(base: InstanceCache, evac: seq<InstanceHeartbeat>, cache: InstanceCache)
    requires base == map[] && CacheAfter(base, map["dea" := LEAVING], Who, cache)
    requires EvacuationsAre(base, map["dea" := LEAVING], Who, evac)
    ensures Evacuee("a") in evac && "a" in cache && cache["a"] == Evacuee("a")
  {
    assert LEAVING.instanceHeartbeats[0] == Evacuee("a");
    ByGuidFinds(LEAVING.instanceHeartbeats, Evacuee("a"));
    assert ReportFor(map["dea" := LEAVING], Who, "a") == Some(Evacuee("a"));
    assert NextEntry(base, map["dea" := LEAVING], Who, "a") == Some(Evacuee("a"));
  }

  lemma ReportedAgain(base: InstanceCache, evac: seq<InstanceHeartbeat>, cache: InstanceCache)
    requires "a" in base && base["a"] == Evacuee("a")
    requires CacheAfter(base, map["dea" := LEAVING], Who, cache)
    requires EvacuationsAre(base, map["dea" := LEAVING], Who, evac)
    ensures !(exists h :: h in evac) && "a" in cache && cache["a"] == Evacuee("a")
  {
    assert LEAVING.instanceHeartbeats[0] == Evacuee("a");
    ByGuidFinds(LEAVING.instanceHeartbeats, Evacuee("a"));
    assert NextEntry(base, map["dea" := LEAVING], Who, "a") == Some(Evacuee("a"));
  }

  lemma OnlyOne(evac: seq<InstanceHeartbeat>)
    requires EvacuationsAre(map[], map["dea" := LEAVING], Who, evac) && Evacuee("a") in evac
    ensures evac == [Evacuee("a")]
  {
    forall h | h in evac ensures h == Evacuee("a") {
      assert ReportFor(map["dea" := LEAVING], Who, h.instanceGuid) == Some(h);
    }
    OnlyElement(evac, Evacuee("a"));
  }

  lemma OnlyElement(hs: seq<InstanceHeartbeat>, h: InstanceHeartbeat)
    requires DistinctGuids(hs) && h in hs && forall x :: x in hs ==> x == h
    ensures hs == [h]
  {
    hide DistinctGuids;
    assert forall j :: 0 <= j < |hs| ==> hs[j] in hs;
    if |hs| >= 2 {
      CopiesShareTheirGuid(hs);
    }
  }

  lemma CopiesShareTheirGuid(hs: seq<InstanceHeartbeat>)
    requires |hs| >= 2 && hs[0] == hs[1]
    ensures !DistinctGuids(hs)
  {
    assert hs[0].instanceGuid == hs[1].instanceGuid;
  }

  /** A listener has received four reports. The first two made the state fresh. The third, the first to say
      that instance a is evacuating, could not be saved, and the freshness key was deleted for that: the
      start of a was asked for and held at the gate. The fourth says the same and was saved: the cache
      knows it by then, and nothing is asked for. No start has been posted, although the controller would
      accept any and nothing of the limit is used up. */
  method HeldForGood() returns (syncer: ActualStateSyncer, ghost third: seq<InstanceHeartbeat>,
                                ghost fourth: seq<InstanceHeartbeat>)
    ensures syncer.sender.messageLimit == 1 && syncer.sender.controller.startAnswer == Yes
    ensures syncer.received == [NONE, NONE, LEAVING, LEAVING] && syncer.heartbeatsToSave == []
    ensures syncer.freshness.history == TWO_BUMPS + [Revoke(31 * SECOND),
                                                     Bump(40 * SECOND, 40 * SECOND, false, 40 * SECOND)]
    ensures UnbrokenFrom(TWO_BUMPS, 30, 31 * SECOND, 31 * SECOND, 0)
    ensures third == [Evacuee("a")] && fourth == [] && syncer.asked == third + fourth
    ensures "a" in syncer.store.instanceHeartbeatCache && syncer.store.instanceHeartbeatCache["a"] == Evacuee("a")
    ensures syncer.sender.controller.startPosts == [] && syncer.sender.numberOfStartMessagesSent == 0
  {
    hide FreshnessStore.Valid, ActualStateSyncer.Valid, UnbrokenFrom, CacheAfter, EvacuationsAre;
    syncer := NewListener(1);
    var store, freshness := syncer.store, syncer.freshness;
    ghost var base, evac := Turn(syncer, NONE, 0, false);
    NothingReported(base, evac, store.instanceHeartbeatCache);
    base, evac := Turn(syncer, NONE, 20 * SECOND, false);
    NothingReported(base, evac, store.instanceHeartbeatCache);
    assert freshness.history == TWO_BUMPS;
    FreshAfterTwo(31 * SECOND);
    base, third := Turn(syncer, LEAVING, 31 * SECOND, true);
    FirstReported(base, third, store.instanceHeartbeatCache);
    OnlyOne(third);
    RevokedIsBroken(freshness.history, 30, 31 * SECOND, 31 * SECOND);
    base, fourth := Turn(syncer, LEAVING, 40 * SECOND, false);
    ReportedAgain(base, fourth, store.instanceHeartbeatCache);
  }
}
