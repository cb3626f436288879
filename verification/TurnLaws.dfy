/** One turn of the control loop, read off what it was given: the reported apps, the pages of the fetch, the
    stored queues and the clock. */
module TurnLaws {
  import opened Analyzers
  import opened AnalysisLaws
  import opened AppAnalysis
  import Coherence
  import opened ControlLoop
  import opened Models
  import opened Observations
  import opened PendingStores
  import opened SendDecisions
  import opened SendLaws

  // ---------- the apps ----------

  /** A turn knows the apps that are reported or on some page, each with the heartbeats and crash counts it
      is reported with, if any, and desired as the last page that has it says, or not at all. */
  lemma AppsAreAsGiven(t: Turn, k: AppKey)
    requires Taken(t)
    ensures k in t.p.apps <==> k in t.actual || exists i :: 0 <= i < |t.batches| && k in t.batches[i]
    ensures k in t.p.apps ==>
              var a := t.p.apps[k];
              && a.Key() == k
              && a.instanceHeartbeats == (if k in t.actual then t.actual[k].instanceHeartbeats else [])
              && a.crashCounts == (if k in t.actual then t.actual[k].crashCounts else map[])
    ensures k in t.p.apps && (forall i :: 0 <= i < |t.batches| ==> k !in t.batches[i]) ==>
              t.p.apps[k].desired == DesiredAppState("", "", 0, OtherAppState(""), OtherPackageState(""))
    ensures forall i :: 0 <= i < |t.batches| && k in t.batches[i] &&
                        (forall j :: i < j < |t.batches| ==> k !in t.batches[j]) ==>
              k in t.p.apps && t.p.apps[k].desired == t.batches[i][k]
  {
    hide Taken, WithDesired, ActualApps;
    TurnKnowsApps(t);
    DesiredKeysContain(t.batches);
    forall i: nat | i < |t.batches| && k in t.batches[i] && forall j :: i < j < |t.batches| ==> k !in t.batches[j]
      ensures k in t.p.apps && t.p.apps[k] == WithDesired(t.actual, t.batches[i][k])
      ensures t.p.apps[k].desired == t.batches[i][k]
    {
      assert NotAfter(t.batches, i, k);
      AppWithDesired(t, i, k);
    }
    if k in DesiredKeys(t.batches) {
      var i := LastNaming(t.batches, k);
      AppWithDesired(t, i, k);
    } else if k in t.actual {
      AppNotDesired(t, k);
    }
  }

  lemma TurnKnowsApps(t: Turn)
    requires Taken(t)
    ensures t.p.apps.Keys == t.actual.Keys + DesiredKeys(t.batches)
    ensures LastBatchCounts(t.actual, t.batches, t.p.apps)
    ensures forall k :: k in t.actual && k !in DesiredKeys(t.batches) ==> t.p.apps[k] == t.actual[k]
  {
    hide Tallied, Gathered, HandedOn, Lists, OneOwner, DisjointBatches, RunFollows, QueuesTouched, KeyedQueues,
         DesiredSnapshots, LastBatchCounts, ActualApps, KeyedBatch;
  }

  lemma AppWithDesired(t: Turn, i: nat, k: AppKey)
    requires Taken(t) && i < |t.batches| && k in t.batches[i]
    ensures var a := WithDesired(t.actual, t.batches[i][k]);
            && a.Key() == k && a.desired == t.batches[i][k]
            && a.instanceHeartbeats == (if k in t.actual then t.actual[k].instanceHeartbeats else [])
            && a.crashCounts == (if k in t.actual then t.actual[k].crashCounts else map[])
  {
    hide CompleteRound, RunFollows, QueuesTouched, KeyedQueues;
    assert KeyedBatch(t.batches[i]);
  }

  lemma AppNotDesired(t: Turn, k: AppKey)
    requires Taken(t) && k in t.actual
    ensures t.actual[k].Key() == k
    ensures t.actual[k].desired == DesiredAppState("", "", 0, OtherAppState(""), OtherPackageState(""))
  {
    hide CompleteRound, RunFollows, QueuesTouched, KeyedQueues, KeyedBatch;
  }

  // ---------- the messages ----------

  // The app with what is reported of it.
  ghost predicate AsReported(t: Turn, a: AppSnapshot) {
    && a.instanceHeartbeats == (if a.Key() in t.actual then t.actual[a.Key()].instanceHeartbeats else [])
    && a.crashCounts == (if a.Key() in t.actual then t.actual[a.Key()].crashCounts else map[])
  }

  // The app as some page desires it.
  ghost predicate OnPage(t: Turn, a: AppSnapshot) {
    AsReported(t, a) &&
    exists i :: 0 <= i < |t.batches| && a.Key() in t.batches[i] && a.desired == t.batches[i][a.Key()]
  }

  // It is on no page and not desired.
  ghost predicate OffPages(t: Turn, a: AppSnapshot) {
    && a.Key() in t.actual && a == t.actual[a.Key()]
    && forall i :: 0 <= i < |t.batches| ==> a.Key() !in t.batches[i]
  }

  lemma OnPageIsDesired(t: Turn, a: AppSnapshot)
    requires Taken(t) && OnPage(t, a)
    ensures a in DesiredSnapshots(t.actual, t.batches)
  {
    var k := a.Key();
    var i :| 0 <= i < |t.batches| && k in t.batches[i] && a.desired == t.batches[i][k];
    AppWithDesired(t, i, k);
    hide Taken, WithDesired;
    assert a == WithDesired(t.actual, t.batches[i][k]);
  }

  lemma OffPagesIsRemoved(t: Turn, a: AppSnapshot)
    requires OffPages(t, a)
    ensures a in RemovedSnapshots(t.actual, DesiredKeys(t.batches))
  {
    DesiredKeysContain(t.batches);
  }

  // No start is called for that is not queued.
  ghost predicate NothingToStart(a: AppSnapshot, queued: set<StartKey>) {
    forall i :: IsMissing(a, i) || IsDown(a, i) || IsLeaving(a, i) ==>
      StartKey(a.appGuid, a.appVersion, i) in queued
  }

  lemma QuietMeans(a: AppSnapshot, queued: set<StartKey>)
    ensures Quiet(a, queued) <==> NothingToStart(a, queued)
  {
    forall i ensures NeedsStart(a, i) <==> IsMissing(a, i) || IsDown(a, i) || IsLeaving(a, i) {
      NeedsMean(a, i);
    }
    hide NeedsStart, IsMissing, IsDown, IsLeaving;
  }

  /** After the analysis a start is queued, unsent unless it was queued before, for every index of an app of
      some page that is missing, down or left. */
  lemma CalledStartsAreQueued(t: Turn, a: AppSnapshot, index: int)
    requires Taken(t) && OnPage(t, a)
    requires IsMissing(a, index) || IsDown(a, index) || IsLeaving(a, index)
    ensures var key := StartKey(a.appGuid, a.appVersion, index);
            && key in t.StartsQueued()
            && (key !in t.round.existingStarts ==> t.StartsQueued()[key].sentOn == 0)
  {
    hide Taken, OnPage, NeedsMissingStart, NeedsCrashedStart, NeedsEvacuatingStart, IsMissing, IsDown, IsLeaving,
         DesiredSnapshots, RemovedSnapshots, StopOwed, CountRaised, Turn.StartsQueued;
    OnPageIsDesired(t, a);
    NeedsMean(a, index);
    TurnIsGathered(t);
    var key := StartKey(a.appGuid, a.appVersion, index);
    if key !in t.round.existingStarts {
      var m := OwedStart(a, t.round.conf, t.round.now, index);
      assert StartOwed(t.round, a, m);
      assert m in t.p.newStarts && m.StoreKey() == key;
      assert key in StartKeys(t.p.newStarts);
    }
    NewStartIsQueued(t, key);
  }

  lemma NewStartIsQueued(t: Turn, k: StartKey)
    requires Taken(t) && (k in t.round.existingStarts || k in StartKeys(t.p.newStarts))
    ensures k in t.StartsQueued()
    ensures k !in t.round.existingStarts ==> t.StartsQueued()[k].sentOn == 0
  {
    hide RunFollows, QueuesTouched, CompleteRound, ActualApps, KeyedBatch, StartsByKey;
    StartsByKeyKeys(t.p.newStarts);
  }

  /** After the analysis a stop is queued, unsent unless it was queued before, for every instance that is to
      go. */
  lemma CalledStopsAreQueued(t: Turn, a: AppSnapshot, h: InstanceHeartbeat)
    requires Taken(t) && (OnPage(t, a) || OffPages(t, a)) && h in a.instanceHeartbeats
    requires IsToGo(a, NothingToStart(a, t.round.existingStarts.Keys), h)
    ensures h.instanceGuid in t.StopsQueued()
    ensures h.instanceGuid !in t.round.existingStops ==> t.StopsQueued()[h.instanceGuid].sentOn == 0
  {
    hide Taken, NeedsStop, IsToGo, Quiet, NothingToStart, DesiredSnapshots, RemovedSnapshots, StopOwed, StartOwed,
         CountRaised, StopKeys, Turn.StopsQueued, OnPage, OffPages;
    if OnPage(t, a) {
      OnPageIsDesired(t, a);
    } else {
      OffPagesIsRemoved(t, a);
    }
    var queued := t.round.existingStarts.Keys;
    QuietMeans(a, queued);
    NeedsStopMeans(a, t.round.now, Quiet(a, queued), h);
    TurnIsGathered(t);
    assert h.instanceGuid in StopGuids(a, t.round.now, Quiet(a, queued));
    NewStopIsQueued(t, h.instanceGuid);
  }

  lemma TurnIsGathered(t: Turn)
    requires Taken(t)
    ensures t.round.conf.Valid()
    ensures Gathered(t.round, DesiredSnapshots(t.actual, t.batches),
                     DesiredSnapshots(t.actual, t.batches) + RemovedSnapshots(t.actual, DesiredKeys(t.batches)), t.p)
  {
    hide RunFollows, QueuesTouched, CompleteRound, ActualApps, KeyedBatch, KeyedQueues, Gathered;
    Coherence.RoundIsGathered(t.round, t.actual, t.batches, t.p, t.startMessages, t.stopMessages);
  }

  lemma NewStopIsQueued(t: Turn, g: string)
    requires Taken(t) && (g in t.round.existingStops || g in StopKeys(t.p.newStops))
    ensures g in t.StopsQueued()
    ensures g !in t.round.existingStops ==> t.StopsQueued()[g].sentOn == 0
  {
    hide RunFollows, QueuesTouched, CompleteRound, ActualApps, KeyedBatch, StopsByKey;
    StopsByKeyKeys(t.p.newStops);
  }

  // ---------- what the sender makes of them ----------

  /** Every start posted was stored or called for, is due, and is wanted by the apps the turn knows. */
  lemma PostsAreWanted(t: Turn, i: nat)
    requires Taken(t) && i < |t.run.startPosts|
    ensures var m := t.run.startPosts[i].pending;
            && (m in t.round.existingStarts.Values || m in t.p.newStarts)
            && StartIsDue(t.sent, m) && StartIsWanted(t.p.apps, m)
  {
    HandedOnOrNew(t);
    hide CompleteRound, ActualApps, KeyedBatch, KeyedQueues, RunFollows, QueuesTouched;
    TurnRuns(t);
    PostedStartsAreWanted(t.p.apps, t.sent, t.limit, t.startMessages, t.stopMessages, t.run, i);
  }

  lemma TurnRuns(t: Turn)
    requires Taken(t)
    ensures RunFollows(t.p.apps, t.sent, t.limit, t.startMessages, t.stopMessages, t.run)
  {
    hide CompleteRound, ActualApps, KeyedBatch, KeyedQueues, RunFollows, QueuesTouched;
  }

  lemma HandedOnOrNew(t: Turn)
    requires Taken(t)
    ensures forall m :: m in t.startMessages ==> m in t.round.existingStarts.Values || m in t.p.newStarts
  {
    RoundIsHandedOn(t);
    hide CompleteRound, ActualApps, KeyedBatch, KeyedQueues, RunFollows, QueuesTouched;
  }

  /** Once the writes got through, a start is left exactly if it was stored or called for and is neither due
      and unwanted, nor expired, nor just accepted and not to be kept. */
  lemma TurnRetiresStarts(t: Turn, k: StartKey)
    requires Completed(t) && CalledOnce(t)
    ensures var queue, posts := t.StartsQueued(), t.run.startPosts;
            && (k in t.startsLeft <==>
                  k in queue &&
                  !(StartIsDue(t.sent, queue[k]) && !StartIsWanted(t.p.apps, queue[k])) &&
                  !StartHasExpired(t.sent, queue[k]) &&
                  !(queue[k].keepAlive == 0 && Post(queue[k], true) in posts))
            && (k in t.startsLeft ==>
                  t.startsLeft[k] == if Post(queue[k], true) in posts then queue[k].(sentOn := t.sent) else queue[k])
  {
    hide CompleteRound, ActualApps, KeyedBatch, KeyedQueues, RunFollows, QueuesTouched, StartFates, StopFates,
         PostsDueStarts, Lists, StartsByKey, StopsByKey, CalledOnce;
    StartsAreQueue(t);
    StartsGoneAre(t.StartsQueued(), t.startsLeft, t.sent, t.p.apps, t.run.startPosts, k);
  }

  lemma TurnRetiresStops(t: Turn, g: string)
    requires Completed(t) && DisjointBatches(t.batches) && OneOwner(t.p.apps, t.p.apps.Keys)
    ensures var queue, posts := t.StopsQueued(), t.run.stopPosts;
            && (g in t.stopsLeft <==>
                  g in queue &&
                  !(StopIsDue(t.sent, queue[g]) && !StopIsWanted(t.p.apps, queue[g])) &&
                  !StopHasExpired(t.sent, queue[g]) &&
                  !(queue[g].keepAlive == 0 && Post(queue[g], true) in posts))
            && (g in t.stopsLeft ==>
                  t.stopsLeft[g] == if Post(queue[g], true) in posts then queue[g].(sentOn := t.sent) else queue[g])
  {
    hide CompleteRound, ActualApps, KeyedBatch, KeyedQueues, RunFollows, QueuesTouched, StartFates, StopFates,
         PostsDueStarts, Lists, StartsByKey, StopsByKey, DisjointBatches, OneOwner;
    StopsAreQueue(t);
    StopsGoneAre(t.StopsQueued(), t.stopsLeft, t.sent, t.p.apps, t.run.stopPosts, g);
  }
}
