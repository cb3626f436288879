/** One turn of the control loop: the analyzer, and after it a sender made for the occasion. Such a
    turn is a round in the sense of the runs below, so what is proved of runs holds of the program. */
module ControlLoop {
  import opened Analyzers
  import opened Arithmetic
  import opened AppAnalysis
  import Coherence
  import DuplicateRuns
  import opened Freshness
  import opened Models
  import opened Overlap
  import opened PendingStores
  import RateLimit
  import opened SendDecisions
  import opened Senders

  // What a turn that passed the sender's gate did: what it found, the crash counts with it, what the
  // analyzer made of it, what the sender did, and what was left.
  datatype Turn = Turn(
    round: Round,
    counts: map<StartKey, CrashCount>,
    actual: map<AppKey, AppSnapshot>,
    batches: seq<Batch>,
    p: Progress,
    startMessages: seq<PendingStart>,
    stopMessages: seq<PendingStop>,
    sent: int,
    limit: int,
    run: SendRun,
    startsLeft: map<StartKey, PendingStart>,
    stopsLeft: map<string, PendingStop>)
  {
    function StartsQueued(): map<StartKey, PendingStart> { round.existingStarts + StartsByKey(p.newStarts) }

    function StopsQueued(): map<string, PendingStop> { round.existingStops + StopsByKey(p.newStops) }

    function CountsLeft(): map<StartKey, CrashCount> { counts + CountsByKey(p.crashCounts) }

    function Starts(): RateLimit.StartRound {
      RateLimit.StartRound(sent, p.apps, StartsQueued(), startMessages, run.startPosts, startsLeft)
    }

    function Stops(k: AppKey): DuplicateRuns.StopRound
      requires k in p.apps
    {
      DuplicateRuns.StopRound(round.now, sent, p.apps[k], p.apps, StopsQueued(), stopMessages, run.stopPosts, stopsLeft)
    }
  }

  // What the two methods promise of a turn, whatever writes of the sender failed.
  ghost predicate Taken(t: Turn) {
    && t.round.conf.Valid() && ActualApps(t.actual)
    && (forall i :: 0 <= i < |t.batches| ==> KeyedBatch(t.batches[i]))
    && CompleteRound(t.round, t.actual, t.batches, t.p, t.startMessages, t.stopMessages)
    && KeyedQueues(t)
    && RunFollows(t.p.apps, t.sent, t.limit, t.startMessages, t.stopMessages, t.run)
    && QueuesTouched(t.p.apps, t.sent, t.run, t.StartsQueued(), t.startMessages, t.startsLeft,
                     t.StopsQueued(), t.stopMessages, t.stopsLeft)
  }

  // And what they promise if none did.
  ghost predicate Completed(t: Turn) {
    && Taken(t)
    && QueuesUpdated(t.p.apps, t.sent, t.run, t.StartsQueued(), t.startMessages, t.startsLeft,
                     t.StopsQueued(), t.stopMessages, t.stopsLeft)
  }

  // Queued messages keep their keys, nothing queued before is overwritten, and what is new is unsent.
  ghost predicate KeyedQueues(t: Turn) {
    && (forall k :: k in t.StartsQueued() ==> t.StartsQueued()[k].StoreKey() == k)
    && (forall k :: k in t.StopsQueued() ==> t.StopsQueued()[k].StoreKey() == k)
    && (forall k :: k in t.round.existingStarts ==>
          k in t.StartsQueued() && t.StartsQueued()[k] == t.round.existingStarts[k])
    && (forall k :: k in t.round.existingStops ==>
          k in t.StopsQueued() && t.StopsQueued()[k] == t.round.existingStops[k])
    && (forall k :: k in t.StartsQueued() && k !in t.round.existingStarts ==> !t.StartsQueued()[k].HasBeenSent())
    && (forall k :: k in t.StopsQueued() && k !in t.round.existingStops ==> !t.StopsQueued()[k].HasBeenSent())
  }

  lemma RoundLists(r: Round, actual: map<AppKey, AppSnapshot>, batches: seq<Batch>, p: Progress,
                   startMessages: seq<PendingStart>, stopMessages: seq<PendingStop>)
    requires r.conf.Valid() && CompleteRound(r, actual, batches, p, startMessages, stopMessages)
    ensures DisjointBatches(batches) ==>
              && p.apps.Keys == actual.Keys + DesiredKeys(batches)
              && Lists(r.existingStarts + StartsByKey(p.newStarts), startMessages)
              && (OneOwner(p.apps, p.apps.Keys) ==> Lists(r.existingStops + StopsByKey(p.newStops), stopMessages))
  {
    hide Tallied, Gathered, Lists, DisjointBatches, LastBatchCounts, HandedOn, DesiredSnapshots, OneOwner,
         StartsByKey, StopsByKey;
  }

  // No start was called for by two pages, which is so unless an app came on both.
  ghost predicate CalledOnce(t: Turn) { CalledAtMostOnce(t.round, t.actual, t.batches) }

  lemma DisjointTurnCallsOnce(t: Turn)
    requires DisjointBatches(t.batches)
    ensures CalledOnce(t)
  {
    forall key ensures TimesCalled(t.round, t.actual, t.batches, key) <= 1 {
      DisjointCallOnce(t.round, t.actual, t.batches, key);
    }
  }

  // The sender is handed the stored starts, each once, exactly in such a turn.
  lemma StartsAreQueue(t: Turn)
    requires Taken(t)
    ensures Lists(t.StartsQueued(), t.startMessages) <==> CalledOnce(t)
  {
    RoundIsHandedOn(t);
    hide CompleteRound, Lists, RunFollows, QueuesUpdated, QueuesTouched, ActualApps, KeyedBatch, OneOwner,
         StartsByKey, StopsByKey, HandedOn;
    ListedOnceIff(t.round, t.actual, t.batches, t.p, t.startMessages);
  }

  lemma RoundIsHandedOn(t: Turn)
    requires Taken(t)
    ensures HandedOn(t.round, t.actual, t.batches, t.p, t.startMessages)
    ensures forall k :: k in t.round.existingStarts ==> t.round.existingStarts[k].StoreKey() == k
    ensures forall m :: m in t.p.newStarts ==> m.StoreKey() !in t.round.existingStarts
  {
    hide Tallied, LastBatchCounts, HandedOn, Lists, OneOwner, DisjointBatches, RunFollows, QueuesTouched,
         ActualApps, KeyedBatch, DesiredSnapshots, RemovedSnapshots, NeedsStart, OwedStart, StopOwed, CountRaised,
         StopGuids, Quiet, StartsByKey, StopsByKey;
  }

  lemma StopsAreQueue(t: Turn)
    requires Taken(t) && DisjointBatches(t.batches) && OneOwner(t.p.apps, t.p.apps.Keys)
    ensures Lists(t.StopsQueued(), t.stopMessages)
  {
    hide CompleteRound, Lists, KeyedQueues, RunFollows, QueuesUpdated, QueuesTouched, ActualApps, KeyedBatch,
         OneOwner, StartsByKey, StopsByKey, DisjointBatches;
    RoundLists(t.round, t.actual, t.batches, t.p, t.startMessages, t.stopMessages);
  }

  /** Every turn past the gate in which no start was called for twice is a round of the run that the rate
      limit is about, and one whose writes got through has stored all it is to store. */
  lemma StartsFormRound(t: Turn)
    requires Taken(t) && CalledOnce(t) && 0 < t.sent
    ensures RateLimit.IsRound(t.round.existingStarts, t.Starts())
    ensures Completed(t) ==> RateLimit.IsStored(t.Starts())
  {
    hide CompleteRound, StartFates, StopFates, PartStartFates, PartStopFates, ThrottledPrefix, InPriorityOrder,
         DueStarts, DueStops, Lists, ActualApps, KeyedBatch, StartsByKey, StopsByKey, PostsDueStarts,
         Turn.StartsQueued, Turn.StopsQueued, OneOwner, CalledOnce;
    StartsAreQueue(t);
    assert multiset(t.run.sorted) == multiset(t.startMessages) &&
           ThrottledPrefix(t.run.startPosts, DueStarts(t.p.apps, t.sent, t.run.sorted), t.limit);
  }

  // Stops stored for an app's instances were queued on behalf of that app.
  ghost predicate StopsAreOwn(queue: map<string, PendingStop>, a: AppSnapshot) {
    forall g :: g in queue && g in GuidsOf(a.instanceHeartbeats) ==>
      AppKey(queue[g].appGuid, queue[g].appVersion) == a.Key()
  }

  /** Every turn past the gate whose posts were all accepted, whatever writes fail, is for each app a round of
      the run in which duplicates die out, provided no two apps share an instance. */
  lemma StopsFormRound(t: Turn, k: AppKey)
    requires Taken(t) && DisjointBatches(t.batches) && k in t.p.apps
    requires OneOwner(t.p.apps, t.p.apps.Keys) && StopsAreOwn(t.round.existingStops, t.p.apps[k])
    requires forall p :: p in t.run.stopPosts ==> p.accepted
    ensures DuplicateRuns.IsRound(t.round.existingStops, t.Stops(k))
  {
    hide CompleteRound, PartStartFates, PartStopFates, ThrottledPrefix, InPriorityOrder, DueStarts, DueStops, Lists,
         ActualApps, DisjointBatches, KeyedBatch, StartsByKey, StopsByKey, PostsDueStarts, Turn.StartsQueued,
         Turn.StopsQueued, OneOwner, StopsTally;
    StopsAreQueue(t);
    AppsAreKeyed(t);
    QueuedStopsAreOwn(t, k);
  }

  lemma AppsAreKeyed(t: Turn)
    requires Taken(t) && DisjointBatches(t.batches)
    ensures forall j :: j in t.p.apps ==> t.p.apps[j].Key() == j
    ensures StopsTally(t.round, t.p.apps, t.p.apps.Keys, t.p.newStops)
  {
    hide CompleteRound, KeyedQueues, RunFollows, QueuesUpdated, DisjointBatches, ActualApps, KeyedBatch, StopsTally;
    Coherence.SnapshotKeys(t.round, t.actual, t.batches, t.p, t.startMessages, t.stopMessages);
    RoundIsTallied(t);
  }

  lemma RoundIsTallied(t: Turn)
    requires Taken(t) && DisjointBatches(t.batches)
    ensures StopsTally(t.round, t.p.apps, t.p.apps.Keys, t.p.newStops)
  {
    hide KeyedQueues, RunFollows, QueuesUpdated, DisjointBatches, ActualApps, KeyedBatch, StopsTally, StartsTally,
         CountsTally, Lists, WithDesired, OneOwner, Gathered, LastBatchCounts, HandedOn, DesiredSnapshots;
  }

  lemma QueuedStopsAreOwn(t: Turn, k: AppKey)
    requires k in t.p.apps && OneOwner(t.p.apps, t.p.apps.Keys)
    requires KeyedQueues(t) && StopsAreOwn(t.round.existingStops, t.p.apps[k])
    requires forall j :: j in t.p.apps ==> t.p.apps[j].Key() == j
    requires StopsTally(t.round, t.p.apps, t.p.apps.Keys, t.p.newStops)
    ensures StopsAreOwn(t.StopsQueued(), t.p.apps[k])
  {
    hide StopsTally, OneOwner;
    var after := t.StopsQueued();
    forall g | g in after && g in GuidsOf(t.p.apps[k].instanceHeartbeats)
      ensures AppKey(after[g].appGuid, after[g].appVersion) == k
    {
      if g !in t.round.existingStops {
        assert after[g] in t.p.newStops;
        NewStopIsOwn(t.round, t.p, k, after[g]);
      }
    }
  }

  lemma NewStopIsOwn(r: Round, p: Progress, k: AppKey, m: PendingStop)
    requires StopsTally(r, p.apps, p.apps.Keys, p.newStops) && OneOwner(p.apps, p.apps.Keys)
    requires forall j :: j in p.apps ==> p.apps[j].Key() == j
    requires k in p.apps && m in p.newStops && m.instanceGuid in GuidsOf(p.apps[k].instanceHeartbeats)
    ensures AppKey(m.appGuid, m.appVersion) == k && StopOwed(r, p.apps[k], m)
  {
    hide Quiet;
    var j :| j in p.apps && StopOwed(r, p.apps[j], m);
    StopGuidsAreReported(p.apps[j], r.now, Quiet(p.apps[j], r.existingStarts.Keys));
    assert j == k;
    var h :| h in p.apps[k].instanceHeartbeats &&
             StopFor(p.apps[k], r.conf, r.now, Quiet(p.apps[k], r.existingStarts.Keys), h, m);
  }

  /** A turn that finds several instances at an index, with no stop queued for any of them and no
      start due for the app, is the first round of such a run. */
  lemma DuplicatesStartRun(t: Turn, k: AppKey, index: int) returns (stops: map<string, PendingStop>)
    requires Taken(t) && DisjointBatches(t.batches) && k in t.p.apps && OneOwner(t.p.apps, t.p.apps.Keys)
    requires Quiet(t.p.apps[k], t.round.existingStarts.Keys)
    requires |t.p.apps[k].StartingOrRunningAt(index)| >= 2
    requires DuplicateRuns.Live(t.Stops(k), index) !! t.round.existingStops.Keys
    ensures DuplicateRuns.StartsWithDuplicates(t.round.existingStops, t.Stops(k), index, t.round.conf, stops)
  {
    hide StopsTally, OneOwner, Quiet, AppSnapshot.StartingOrRunningAt, CompleteRound, RunFollows, QueuesUpdated,
         QueuesTouched, KeyedQueues, DisjointBatches, ActualApps, KeyedBatch, ExactStops, StopsByKey;
    AppsAreKeyed(t);
    stops := OwedStops(t.round, t.p, k);
  }

  // The app's own new stops, picked out of all those queued.
  lemma OwedStops(r: Round, p: Progress, k: AppKey) returns (stops: map<string, PendingStop>)
    requires StopsTally(r, p.apps, p.apps.Keys, p.newStops) && OneOwner(p.apps, p.apps.Keys)
    requires forall j :: j in p.apps ==> p.apps[j].Key() == j
    requires k in p.apps && Quiet(p.apps[k], r.existingStarts.Keys)
    ensures ExactStops(p.apps[k], r.conf, r.now, r.existingStops.Keys, true, stops)
    ensures forall g :: g in stops ==>
              var queued := r.existingStops + StopsByKey(p.newStops);
              g in queued && queued[g] == stops[g]
  {
    hide Quiet, StopGuids, Justified, OneOwner;
    var a, news := p.apps[k], StopsByKey(p.newStops);
    var owed := StopGuids(a, r.now, true) - r.existingStops.Keys;
    StopGuidsAreReported(a, r.now, true);
    forall g | g in owed
      ensures g in news && news[g].instanceGuid == g && Justified(a, r.conf, r.now, true, news[g])
    {
      assert g in StopKeys(p.newStops);
      assert news[g] in p.newStops;
      NewStopIsOwn(r, p, k, news[g]);
    }
    stops := map g | g in owed :: news[g];
    assert stops.Keys == owed;
  }

  lemma TurnIsTaken(t: Turn, starts: map<StartKey, PendingStart>, stops: map<string, PendingStop>)
    requires t.round.conf.Valid() && ActualApps(t.actual)
    requires forall i :: 0 <= i < |t.batches| ==> KeyedBatch(t.batches[i])
    requires CompleteRound(t.round, t.actual, t.batches, t.p, t.startMessages, t.stopMessages)
    requires starts == t.round.existingStarts + StartsByKey(t.p.newStarts)
    requires stops == t.round.existingStops + StopsByKey(t.p.newStops)
    requires RateLimit.Enqueued(t.round.existingStarts, starts) && DuplicateRuns.Enqueued(t.round.existingStops, stops)
    requires RunFollows(t.p.apps, t.sent, t.limit, t.startMessages, t.stopMessages, t.run)
    requires QueuesTouched(t.p.apps, t.sent, t.run, starts, t.startMessages, t.startsLeft,
                           stops, t.stopMessages, t.stopsLeft)
    ensures Taken(t)
    ensures QueuesUpdated(t.p.apps, t.sent, t.run, starts, t.startMessages, t.startsLeft,
                          stops, t.stopMessages, t.stopsLeft)
            ==> Completed(t)
  {
    hide ActualApps, DisjointBatches, KeyedBatch, CompleteRound, StartsByKey, StopsByKey, RunFollows, QueuesUpdated,
         QueuesTouched;
  }

  // What a turn meets with, from the analyzer's reading of the clock to the last write of the sender.
  datatype TurnWorld = TurnWorld(analyzeAt: nat, analyze: AnalyzeWorld, sendAt: nat, send: SendWorld)

  // What a turn needs from outside to get past the gate was there. The freshness key can be read, and what
  // is behind it is fresh, both times; the fetch went well; and every request of the analyzer got through.
  ghost predicate Favourable(freshness: FreshnessStore, world: TurnWorld, appsRead: bool, fetchSuccess: bool)
    reads freshness
  {
    && Refusal(freshness.Passes(world.analyzeAt, world.analyze.read), appsRead, fetchSuccess, world.analyze).None?
    && freshness.Passes(world.sendAt, world.send.read)
  }

  /** Analyzes and, unless the analyzer refused, sends what is then queued. The two read the clock for
      themselves. A turn is on record exactly when it got past the sender's gate; whatever the sender's writes
      do then, every stored message has met its fate or stays as it was. */
  method AnalyzeAndSend(analyzer: Analyzer, controller: CloudController, messageLimit: int, world: TurnWorld,
                        actual: Option<map<AppKey, AppSnapshot>>, batches: seq<Batch>, fetchSuccess: bool)
    returns (ok: bool, ghost turn: Option<Turn>)
    requires analyzer.Valid() && controller.Valid() && world.analyzeAt <= world.sendAt
    requires actual.Some? ==> ActualApps(actual.value)
    requires forall i :: 0 <= i < |batches| ==> KeyedBatch(batches[i])
    modifies analyzer.store, controller
    ensures analyzer.Valid() && controller.Valid()
    ensures turn.Some? <==> Favourable(analyzer.freshness, world, actual.Some?, fetchSuccess)
    ensures !fetchSuccess ==> !ok && unchanged(analyzer.store) && unchanged(controller)
    // What a turn leaves that the analyzer refuses or that ends at the gate: everything that was queued,
    // and perhaps more that is still to be sent.
    ensures turn.None? ==>
              && !ok && unchanged(controller)
              && RateLimit.Enqueued(old(analyzer.store.starts), analyzer.store.starts)
              && DuplicateRuns.Enqueued(old(analyzer.store.stops), analyzer.store.stops)
    ensures turn.Some? ==>
              var t := turn.value;
              && actual == Some(t.actual) && t.batches == batches && t.limit == messageLimit
              && t.round == Round(analyzer.conf, Unix(world.analyzeAt), old(analyzer.store.starts),
                                  old(analyzer.store.stops))
              && t.sent == Unix(world.sendAt) && t.run.stored == world.send.Stores()
              && t.counts == old(analyzer.store.crashCounts) && t.CountsLeft() == analyzer.store.crashCounts
              && t.startsLeft == analyzer.store.starts && t.stopsLeft == analyzer.store.stops
              && controller.startPosts == old(controller.startPosts) + t.run.startPosts
              && controller.stopPosts == old(controller.stopPosts) + t.run.stopPosts
              && Accepted(t.run.startPosts) <= Max(messageLimit, 0)
              && Taken(t) && (t.run.stored ==> Completed(t))
              && (ok ==> t.run.stored && AllAccepted(t.run.startPosts) && AllAccepted(t.run.stopPosts))
              && (DisjointBatches(batches) && OneOwner(t.p.apps, t.p.apps.Keys) ==>
                    (ok <==> t.run.stored && AllAccepted(t.run.startPosts) && AllAccepted(t.run.stopPosts) &&
                             !world.send.metricsFail))
  {
    hide CompleteRound, RunFollows, QueuesUpdated, QueuesTouched, FreshnessStore.Passes, ActualApps,
         DisjointBatches, KeyedBatch, StartsByKey, StopsByKey, StartKeys, StopKeys, CountsByKey, StartBodies,
         StopBodies, Accepted, AllAccepted, Sender.Written, Analyzer.SavedAsFar, CloudController.Valid, Lists,
         OneOwner, SendWorld.Stores, FreshnessStore.Valid, Taken, Completed;
    turn := None;
    ghost var counts := analyzer.store.crashCounts;
    ghost var r := Round(analyzer.conf, Unix(world.analyzeAt), analyzer.store.starts, analyzer.store.stops);
    var result, p := analyzer.Analyze(world.analyzeAt, world.analyze, actual, batches, fetchSuccess);
    if result.Refused? {
      return false, None;
    }
    var sender := new Sender(analyzer.store, analyzer.freshness, controller, messageLimit);
    RoundLists(r, actual.value, batches, p, result.startMessages, result.stopMessages);
    ghost var startsQueued, stopsQueued := analyzer.store.starts, analyzer.store.stops;
    ghost var run;
    ok, run := sender.Send(world.sendAt, world.send, result.apps, result.startMessages, result.stopMessages);
    if !run.gated {
      ghost var t := Turn(r, counts, actual.value, batches, p, result.startMessages, result.stopMessages,
                          Unix(world.sendAt), messageLimit, run, analyzer.store.starts, analyzer.store.stops);
      TurnIsTaken(t, startsQueued, stopsQueued);
      turn := Some(t);
    }
  }
}
