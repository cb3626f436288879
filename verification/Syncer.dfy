/** The listener's loop: reports are collected in a mailbox, handed to the store in batches, and the
    actual state is declared fresh only on the strength of batches that went well. */
module Syncers {
  import opened Arithmetic
  import opened Freshness
  import opened HeartbeatSpec
  import opened HeartbeatStores
  import opened Models
  import opened PendingStores
  import opened SendDecisions
  import opened Senders

  // What a turn meets with: which requests of the sync fail and when it is over, when the key is bumped
  // and what becomes of that or of its deletion, when the start for the i-th evacuating instance is made,
  // and what the sender meets with later.
  datatype SyncerWorld = SyncerWorld(
    sync: SyncWorld,
    ended: nat,
    asked: nat,
    bump: BumpRequests,
    revoke: RevokeRequest,
    made: nat -> nat,
    later: nat,
    send: SendWorld)
  {
    ghost predicate From(instant: nat) {
      && instant <= ended <= asked <= bump.getAt <= bump.setAt <= later
      && asked <= revoke.at <= later
      && MadeInTime()
    }

    ghost predicate MadeInTime() { forall i :: bump.setAt <= made(i) <= later && revoke.at <= made(i) }

    // What a turn does to the freshness key: a deletion if the sync failed, a bump if it succeeded within
    // the period, each as far as it takes effect.
    function KeyEvents(started: nat, succeeded: bool, period: nat): seq<Event> {
      if !succeeded then (if revoke.delivery.Lost? then [] else [Revoke(revoke.at)])
      else if ended - started < period && !bump.delivery.Lost? then
        [Bump(asked, bump.getAt, bump.getFails, bump.setAt)]
      else []
    }
  }

  // When a batch was handed over, when the call returned, and whether it succeeded.
  datatype SyncCall = SyncCall(started: nat, ended: nat, succeeded: bool)

  // Every bump in the history follows a call that succeeded in less than a heartbeat period.
  ghost predicate Backed(history: seq<Event>, calls: seq<SyncCall>, period: nat) {
    && |calls| == |history|
    && (forall i :: 0 <= i < |history| && history[i].Bump? ==>
          calls[i].succeeded && calls[i].started <= calls[i].ended < calls[i].started + period &&
          calls[i].ended <= history[i].stampAt)
    && (forall i :: 0 <= i < |history| && history[i].Revoke? ==> !calls[i].succeeded && calls[i].ended <= history[i].at)
  }

  lemma BackedStep(history: seq<Event>, calls: seq<SyncCall>, period: nat, e: Event, call: SyncCall)
    requires Backed(history, calls, period)
    requires e.Bump? ==> call.succeeded && call.started <= call.ended < call.started + period && call.ended <= e.stampAt
    requires e.Revoke? ==> !call.succeeded && call.ended <= e.at
    ensures Backed(history + [e], calls + [call], period)
  {
  }

  /** If the actual state is judged fresh, the listener has, for at least the freshness period, been
      syncing successfully and quickly, each time soon enough after the last, with no failed call in
      between that was recorded. */
  lemma FreshMeansSyncing(history: seq<Event>, calls: seq<SyncCall>, period: nat, ttl: nat, now: nat, at: nat)
    requires Sequential(history) && Backed(history, calls, period)
    requires IsFresh(Replay(history, ttl), now, at, ttl)
    ensures exists s :: UnbrokenFrom(history, ttl, now, at, s) &&
              (forall i :: s <= i < |history| ==>
                 calls[i].succeeded && calls[i].ended < calls[i].started + period &&
                 calls[i].ended <= history[i].stampAt)
  {
    FreshIffUnbroken(history, ttl, now, at);
    var s :| UnbrokenFrom(history, ttl, now, at, s);
    assert forall i :: s <= i < |history| ==> history[i].Bump?;
  }

  function EvacuationStart(now: int, gracePeriod: nat, h: InstanceHeartbeat): PendingStart {
    NewPendingStart(now, 0, gracePeriod, h.appGuid, h.appVersion, h.instanceIndex, 2.0, EvacuatingStart)
      .(skipVerification := true)
  }

  // The clock is read for each start.
  function EvacuationStarts(made: nat -> nat, gracePeriod: nat, evac: seq<InstanceHeartbeat>): (r: seq<PendingStart>)
    ensures |r| == |evac|
    ensures forall i :: 0 <= i < |evac| ==> r[i] == EvacuationStart(Unix(made(i)), gracePeriod, evac[i])
  {
    seq(|evac|, i requires 0 <= i < |evac| => EvacuationStart(Unix(made(i)), gracePeriod, evac[i]))
  }

  // The starts were made by the time the sender reads its clock.
  ghost predicate MadeBy(now: int, made: nat -> nat, evac: seq<InstanceHeartbeat>) {
    forall i: nat :: i < |evac| ==> Unix(made(i)) <= now
  }

  /** Every start asked for on behalf of an evacuating instance is due by then and needs no verification. */
  lemma EvacuationStartsAreDue(now: int, made: nat -> nat, gracePeriod: nat, evac: seq<InstanceHeartbeat>)
    requires MadeBy(now, made, evac)
    ensures forall m :: m in EvacuationStarts(made, gracePeriod, evac) ==>
              m.sendOn <= now && !m.HasBeenSent() && m.skipVerification && IsDueStart(map[], now, m)
  {
    forall m | m in EvacuationStarts(made, gracePeriod, evac)
      ensures m.sendOn <= now && !m.HasBeenSent() && m.skipVerification && IsDueStart(map[], now, m)
    {
      var i :| 0 <= i < |evac| && EvacuationStarts(made, gracePeriod, evac)[i] == m;
    }
  }

  lemma MadeInTimeIsBy(world: SyncerWorld, evac: seq<InstanceHeartbeat>)
    requires world.MadeInTime()
    ensures MadeBy(Unix(world.later), world.made, evac)
  {
    forall i: nat | i < |evac| ensures Unix(world.made(i)) <= Unix(world.later) {
      UnixMonotone(world.made(i), world.later);
    }
  }

  /** All starts for evacuating instances are considered, the earliest first, and each is posted exactly if
      fewer of those before it were accepted than what is left of the limit. */
  lemma EvacuationsPosted(now: int, made: nat -> nat, gracePeriod: nat, evac: seq<InstanceHeartbeat>, allowance: int,
                          run: SendRun)
    requires MadeBy(now, made, evac)
    requires RunFollows(map[], now, allowance, EvacuationStarts(made, gracePeriod, evac), [], run)
    ensures |run.sorted| == |evac| && |run.startPosts| <= |evac| &&
            Pendings(run.startPosts) == run.sorted[..|run.startPosts|]
    ensures forall i: nat :: i < |evac| ==>
              (i < |run.startPosts| <==> Accepted(run.startPosts[..Min(i, |run.startPosts|)]) < allowance)
    ensures run.startPosts == [] <==> evac == [] || allowance <= 0
    ensures AllAccepted(run.startPosts) ==> |run.startPosts| == Max(0, Min(allowance, |evac|))
  {
    var starts := EvacuationStarts(made, gracePeriod, evac);
    EvacuationStartsAreDue(now, made, gracePeriod, evac);
    SameElements(run.sorted, starts);
    hide EvacuationStart, EvacuationStarts, IsDueStart, InPriorityOrder, DueStarts;
    AllDue(map[], now, run.sorted);
    PostsNeedAllowance(run.startPosts, run.sorted, allowance);
    forall i: nat | i < |evac|
      ensures i < |run.startPosts| <==> Accepted(run.startPosts[..Min(i, |run.startPosts|)]) < allowance
    {
      PostedIffAllowed(run.startPosts, run.sorted, allowance, i);
    }
    if AllAccepted(run.startPosts) && allowance >= 0 {
      assert forall p :: p in run.startPosts ==> p.accepted;
      ThrottleIsExact(run.startPosts, run.sorted, allowance);
    }
  }

  /** What is posted for an evacuating instance: a start of its index, made when the clock was read for it, to be
      sent at once, before all others and without verification, and to be kept for a grace period; and what the
      cloud controller is told to start is that index of that app. */
  ghost predicate IsPostedFor(h: InstanceHeartbeat, made: int, gracePeriod: nat, m: PendingStart, body: StartMessage) {
    && m == PendingStart(made, 0, gracePeriod, h.appGuid, h.appVersion, h.instanceIndex, 2.0, true, EvacuatingStart)
    && body == StartMessage(h.appGuid, h.appVersion, h.instanceIndex)
  }

  // Every start posted is for an instance that is evacuating.
  ghost predicate EvacueesPosted(evac: seq<InstanceHeartbeat>, made: nat -> nat, gracePeriod: nat,
                                 posts: seq<Post<PendingStart>>, bodies: seq<StartMessage>) {
    && |bodies| == |posts|
    && forall i :: 0 <= i < |posts| ==>
         exists j: nat :: j < |evac| && IsPostedFor(evac[j], Unix(made(j)), gracePeriod, posts[i].pending, bodies[i])
  }

  lemma PostsAreForEvacuees(now: int, made: nat -> nat, gracePeriod: nat, evac: seq<InstanceHeartbeat>, allowance: int,
                            run: SendRun)
    requires RunFollows(map[], now, allowance, EvacuationStarts(made, gracePeriod, evac), [], run)
    ensures EvacueesPosted(evac, made, gracePeriod, run.startPosts, StartBodies(map[], run.startPosts))
  {
    var starts, due, posts := EvacuationStarts(made, gracePeriod, evac), DueStarts(map[], now, run.sorted),
                              run.startPosts;
    SameElements(run.sorted, starts);
    hide DueStarts, InPriorityOrder, IsDueStart, IsPostedFor, EvacuationStart, StartMessageToSend;
    forall i | 0 <= i < |posts|
      ensures exists j: nat :: j < |evac| && IsPostedFor(evac[j], Unix(made(j)), gracePeriod, posts[i].pending,
                                                         StartBodies(map[], posts)[i])
    {
      var m := posts[i].pending;
      assert Pendings(posts)[i] == due[i] && due[i] in due;
      assert m in starts;
      var j: nat :| j < |starts| && starts[j] == m;
      StartIsForEvacuee(Unix(made(j)), gracePeriod, evac[j]);
    }
  }

  lemma StartIsForEvacuee(made: int, gracePeriod: nat, h: InstanceHeartbeat)
    ensures var m := EvacuationStart(made, gracePeriod, h);
            var body := StartMessageToSend(map[], m);
            body.Some? && IsPostedFor(h, made, gracePeriod, m, body.value)
  {
  }

  lemma SameElements<T>(a: seq<T>, b: seq<T>)
    requires multiset(a) == multiset(b)
    ensures |a| == |b| && forall x :: x in a <==> x in b
  {
    assert |multiset(a)| == |a| && |multiset(b)| == |b|;
    assert forall x :: x in a <==> x in multiset(a);
    assert forall x :: x in b <==> x in multiset(b);
  }

  class ActualStateSyncer {
    const store: HeartbeatStore
    const freshness: FreshnessStore
    const sender: Sender
    const heartbeatPeriod: nat
    const gracePeriod: nat

    var heartbeatsToSave: seq<Heartbeat>
    ghost var received: seq<Heartbeat>
    ghost var handedOver: seq<Heartbeat>
    ghost var calls: seq<SyncCall>
    ghost var asked: seq<InstanceHeartbeat>  // the instances whose start elsewhere was asked for

    ghost predicate Valid()
      reads this, store, store.adapter, freshness, sender, sender.store, sender.controller
    {
      && received == handedOver + heartbeatsToSave
      && (forall hb :: hb in heartbeatsToSave ==> WellReported(hb, store.who))
      && store.CacheIsOk() && KnownNodes(store.adapter.nodes, store.who)
      && freshness.Valid() && sender.freshness == freshness && sender.store.Valid() && sender.controller.Valid()
      && Backed(freshness.history, calls, heartbeatPeriod)
    }

    constructor (store: HeartbeatStore, freshness: FreshnessStore, sender: Sender, heartbeatPeriod: nat,
                 gracePeriod: nat)
      requires store.CacheIsOk() && KnownNodes(store.adapter.nodes, store.who)
      requires freshness.Valid() && freshness.history == [] && sender.freshness == freshness && sender.store.Valid()
      requires sender.controller.Valid()
      ensures Valid() && received == [] && heartbeatsToSave == [] && asked == []
      ensures this.store == store && this.freshness == freshness && this.sender == sender
      ensures this.heartbeatPeriod == heartbeatPeriod && this.gracePeriod == gracePeriod
    {
      this.store := store;
      this.freshness := freshness;
      this.sender := sender;
      this.heartbeatPeriod := heartbeatPeriod;
      this.gracePeriod := gracePeriod;
      heartbeatsToSave := [];
      received := [];
      handedOver := [];
      calls := [];
      asked := [];
    }

    method Heartbeat(hb: Heartbeat)
      requires Valid() && WellReported(hb, store.who)
      modifies this`heartbeatsToSave, this`received
      ensures Valid() && received == old(received) + [hb] && heartbeatsToSave == old(heartbeatsToSave) + [hb]
    {
      heartbeatsToSave := heartbeatsToSave + [hb];
      received := received + [hb];
    }

    /** One turn of the loop, begun at the given instant. The mailbox is emptied into the store in
        order of arrival; the key is deleted after a call that failed and bumped after one that succeeded
        in time; and then starts are asked for exactly the instances that the batch showed to have begun
        evacuating. */
    method SyncOnce(instant: nat, world: SyncerWorld)
      returns (ghost call: SyncCall, ghost run: SendRun, ghost base: InstanceCache, ghost baseNodes: Nodes,
               ghost evac: seq<InstanceHeartbeat>)
      requires Valid() && freshness.clock <= instant && world.From(instant)
      modifies this, store, store.adapter, freshness, sender, sender.controller, sender.store
      ensures Valid() && received == old(received) && heartbeatsToSave == [] && handedOver == received
      ensures freshness.clock <= world.later
      ensures store.cacheTimestamp == old(store.cacheTimestamp) || store.cacheTimestamp == Some(instant)
      ensures old(heartbeatsToSave) != [] && call.succeeded ==> !store.cacheTimestamp.None?
      ensures old(heartbeatsToSave) == [] ==>
                evac == [] && unchanged(store) && unchanged(store.adapter) && unchanged(freshness)
      // When the call succeeds, and what that does to the freshness key.
      ensures old(heartbeatsToSave) != [] ==>
                && call == SyncCall(instant, world.ended, call.succeeded)
                && (call.succeeded ==> world.sync.WriteError().None?)
                && (!old(store.ReloadDue(instant)) || world.sync.ListsWell(old(store.DeasDue(instant))) ==>
                      (call.succeeded <==> world.sync.WriteError().None?))
                && freshness.history ==
                     old(freshness.history) + world.KeyEvents(instant, call.succeeded, heartbeatPeriod)
      ensures old(heartbeatsToSave) != [] && call.succeeded && world.ended - instant < heartbeatPeriod ==>
                freshness.history == old(freshness.history) +
                  if world.bump.delivery.Lost? then []
                  else [Bump(world.asked, world.bump.getAt, world.bump.getFails, world.bump.setAt)]
      ensures old(heartbeatsToSave) != [] && !call.succeeded ==>
                freshness.history == old(freshness.history) +
                  if world.revoke.delivery.Lost? then [] else [Revoke(world.revoke.at)]
      ensures old(heartbeatsToSave) != [] && call.succeeded && world.ended - instant >= heartbeatPeriod ==>
                freshness.history == old(freshness.history)
      // What the batch was merged into, what came of it, and which instances have begun evacuating.
      ensures var merged := call.succeeded || !old(store.ReloadDue(instant)) ||
                            world.sync.ListsWell(old(store.DeasDue(instant)));
              old(heartbeatsToSave) != [] && (merged || evac != []) ==>
                && MergedInto(base, baseNodes, old(store.ReloadDue(instant)), old(store.instanceHeartbeatCache),
                              old(store.adapter.nodes))
                && CacheAfter(base, Latest(old(heartbeatsToSave)), store.who, store.instanceHeartbeatCache)
                && EvacuationsAre(base, Latest(old(heartbeatsToSave)), store.who, evac)
      ensures old(heartbeatsToSave) != [] && call.succeeded && Mirrors(base, baseNodes) ==>
                && Mirrors(store.instanceHeartbeatCache, store.adapter.nodes)
                && ReplacedByReports(baseNodes, Latest(old(heartbeatsToSave)), store.who, store.adapter.nodes)
      // The starts that are asked for.
      ensures asked == old(asked) + evac
      ensures evac == [] ==>
                run.startPosts == [] && unchanged(sender) && unchanged(sender.controller) && unchanged(sender.store)
      ensures evac != [] ==>
                StartsAskedFor(evac, world, old(sender.numberOfStartMessagesSent), old(sender.controller.startPosts),
                               old(sender.controller.startBodies), run)
      // The sender is the same in every turn and its limit is for all of them together.
      ensures old(sender.numberOfStartMessagesSent) <= sender.numberOfStartMessagesSent
    {
      hide CacheAfter, EvacuationsAre, Mirrors, ReplacedByReports, Latest, Kept, Backed, FreshnessStore.Valid,
           HeartbeatStore.CacheIsOk, KnownNodes, WellReported, PendingStore.Valid, EvacuationStarts, Merged,
           NextEntry, CloudController.Valid, StartsAskedFor, SyncerWorld.KeyEvents;
      call, run := SyncCall(instant, instant, false), SendRun(true, false, [], [], []);
      base, baseNodes, evac := map[], map[], [];
      var batch := heartbeatsToSave;
      heartbeatsToSave := [];
      handedOver := handedOver + batch;
      assert handedOver + [] == handedOver;
      assert asked + [] == asked;
      if |batch| > 0 {
        var evacuating, error, before, beforeNodes := store.SyncHeartbeats(instant, world.sync, batch);
        base, baseNodes, evac := before, beforeNodes, evacuating;
        call := SyncCall(instant, world.ended, error == None);
        Settle(instant, error == None, world);
        KeyIsBumpedOrDeleted(world, instant, error == None, heartbeatPeriod);
        if |evacuating| > 0 {
          run := StartElsewhere(evacuating, world);
        }
      }
    }

    // The state a batch is merged into: as it was, or, after a reload, what is stored of present DEAs.
    ghost predicate MergedInto(base: InstanceCache, baseNodes: Nodes, reloaded: bool, cache: InstanceCache,
                               nodes: Nodes)
      reads store
    {
      if reloaded then baseNodes == Kept(nodes, store.deaCache) && Mirrors(base, baseNodes)
      else base == cache && baseNodes == nodes
    }

    /** The starts are withheld exactly if the actual state cannot be seen to be fresh by now or the limit
        has been used up, by this turn or any before it; else the earliest come first, as many as what is
        left of the limit allows, each made when the clock was read for it. */
    ghost predicate StartsAskedFor(evac: seq<InstanceHeartbeat>, world: SyncerWorld, sentBefore: nat,
                                   postsBefore: seq<Post<PendingStart>>, bodiesBefore: seq<StartMessage>,
                                   run: SendRun)
      reads this, freshness, sender, sender.controller
    {
      var passes := freshness.Passes(world.later, world.send.read);
      && sender.controller.startPosts == postsBefore + run.startPosts
      && sender.controller.startBodies == bodiesBefore + StartBodies(map[], run.startPosts)
      && EvacueesPosted(evac, world.made, gracePeriod, run.startPosts, StartBodies(map[], run.startPosts))
      && (run.startPosts == [] <==> !passes || sentBefore >= sender.messageLimit)
      && (passes ==>
            RunFollows(map[], Unix(world.later), sender.messageLimit - sentBefore,
                       EvacuationStarts(world.made, gracePeriod, evac), [], run))
      && sender.numberOfStartMessagesSent == sentBefore + Accepted(run.startPosts)
    }

    // Asks the sender, without an apps snapshot, to start the evacuating instances elsewhere.
    method StartElsewhere(evac: seq<InstanceHeartbeat>, world: SyncerWorld) returns (ghost run: SendRun)
      requires sender.store.Valid() && sender.freshness.Valid() && sender.controller.Valid()
      requires sender.freshness == freshness && evac != [] && world.MadeInTime()
      modifies this`asked, sender, sender.controller, sender.store
      ensures sender.store.Valid() && sender.controller.Valid() && asked == old(asked) + evac
      ensures StartsAskedFor(evac, world, old(sender.numberOfStartMessagesSent), old(sender.controller.startPosts),
                             old(sender.controller.startBodies), run)
      ensures run.gated ==> unchanged(sender.controller) && unchanged(sender.store)
      ensures old(sender.numberOfStartMessagesSent) <= sender.numberOfStartMessagesSent
    {
      hide FreshnessStore.Passes, RunFollows, QueuesUpdated, QueuesTouched, FreshnessStore.Valid,
           PendingStore.Valid, StartBodies, StopBodies, Accepted, AllAccepted, StartsByKey, StopsByKey, StartKeys,
           StopKeys, Sender.Written, CloudController.Valid, EvacueesPosted;
      NoneAccepted();
      NonePosted(evac, world.made, gracePeriod);
      MadeInTimeIsBy(world, evac);
      ghost var allowance := sender.messageLimit - sender.numberOfStartMessagesSent;
      var starts := EvacuationStarts(world.made, gracePeriod, evac);
      asked := asked + evac;
      var ok;
      ok, run := sender.Send(world.later, world.send, map[], starts, []);
      if !run.gated {
        EvacuationsPosted(Unix(world.later), world.made, gracePeriod, evac, allowance, run);
        PostsAreForEvacuees(Unix(world.later), world.made, gracePeriod, evac, allowance, run);
      }
    }

    lemma NonePosted(evac: seq<InstanceHeartbeat>, made: nat -> nat, gracePeriod: nat)
      ensures StartBodies(map[], []) == [] && EvacueesPosted(evac, made, gracePeriod, [], [])
    {
    }

    lemma NoneAccepted()
      ensures Accepted<PendingStart>([]) == 0
    {
    }

    // Deletes the key after a failure, bumps it after a timely success, and otherwise does neither.
    method Settle(started: nat, succeeded: bool, world: SyncerWorld)
      requires freshness.Valid() && freshness.clock <= started && world.From(started)
      requires Backed(freshness.history, calls, heartbeatPeriod)
      modifies this`calls, freshness
      ensures freshness.Valid() && freshness.clock <= world.later
      ensures Backed(freshness.history, calls, heartbeatPeriod)
      ensures freshness.history == old(freshness.history) + world.KeyEvents(started, succeeded, heartbeatPeriod)
    {
      ghost var call := SyncCall(started, world.ended, succeeded);
      if !succeeded {
        var ok := freshness.RevokeActualFreshness(world.revoke);
      } else if world.ended - started < heartbeatPeriod {
        var ok := freshness.BumpActualFreshness(world.asked, world.bump);
      }
      if freshness.history != old(freshness.history) {
        BackedStep(old(freshness.history), old(calls), heartbeatPeriod, freshness.history[|old(freshness.history)|],
                   call);
        calls := calls + [call];
      }
    }
  }

  lemma KeyIsBumpedOrDeleted(world: SyncerWorld, started: nat, succeeded: bool, period: nat)
    ensures world.KeyEvents(started, succeeded, period) ==
            if succeeded && world.ended - started < period then
              (if world.bump.delivery.Lost? then []
               else [Bump(world.asked, world.bump.getAt, world.bump.getFails, world.bump.setAt)])
            else if succeeded || world.revoke.delivery.Lost? then []
            else [Revoke(world.revoke.at)]
  {
  }

  /** After a call that failed and whose deletion of the key took effect no start is asked for in that
      turn, however long the state had been fresh before. */
  lemma RevokedKeyHoldsStarts(before: seq<Event>, world: SyncerWorld, started: nat, period: nat, ttl: nat)
    requires !world.revoke.delivery.Lost?
    ensures forall s :: !UnbrokenFrom(before + world.KeyEvents(started, false, period), ttl, world.later,
                                      world.send.read.at, s)
  {
    RevokedIsBroken(before + world.KeyEvents(started, false, period), ttl, world.later, world.send.read.at);
  }
}
