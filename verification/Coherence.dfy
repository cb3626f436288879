/** The analyzer and the sender agree: whatever the one queues from a snapshot, the other does not
    refuse when it checks it against the same snapshot. */
module Coherence {
  import opened AppAnalysis
  import opened Analyzers
  import opened Models
  import opened PendingStores
  import opened SendDecisions

  /** A start that an app needs passes the sender's check exactly when the app has a guid, which is
      how the sender recognises a desired app. */
  lemma NeededStartPasses(apps: map<AppKey, AppSnapshot>, a: AppSnapshot, conf: Config, now: int, index: int)
    requires conf.Valid() && NeedsStart(a, index)
    requires a.Key() in apps && apps[a.Key()] == a
    ensures var m := OwedStart(a, conf, now, index);
            StartMessageToSend(apps, m) ==
            if a.IsDesired() then Some(StartMessage(a.appGuid, a.appVersion, index)) else None
  {
    assert !a.HasStartingOrRunningAt(index);
  }

  /** Every stop that is owed passes, and is marked as a duplicate exactly when another copy is to
      keep running: the app is desired at that index. */
  lemma OwedStopPasses(apps: map<AppKey, AppSnapshot>, a: AppSnapshot, conf: Config, now: int, quiet: bool,
                       m: PendingStop)
    requires DistinctGuids(a.instanceHeartbeats) && Justified(a, conf, now, quiet, m)
    requires a.Key() in apps && apps[a.Key()] == a
    ensures var h := InstanceWithGuid(a.instanceHeartbeats, m.instanceGuid);
            && h in a.instanceHeartbeats
            && StopMessageToSend(apps, m) ==
               Some(StopMessage(a.appGuid, a.appVersion, h.instanceGuid, h.instanceIndex,
                                a.IsDesired() && a.IsIndexDesired(h.instanceIndex)))
  {
    var h :| h in a.instanceHeartbeats && StopFor(a, conf, now, quiet, h, m);
    LookupFindsInstance(a.instanceHeartbeats, h);
  }

  // No two batches desire the same app differently; batches with no app in common certainly do not.
  ghost predicate ConsistentBatches(batches: seq<Batch>) {
    forall i, j, k :: 0 <= i < j < |batches| && k in batches[i] && k in batches[j] ==> batches[i][k] == batches[j][k]
  }

  lemma DisjointIsConsistent(batches: seq<Batch>)
    requires DisjointBatches(batches)
    ensures ConsistentBatches(batches)
  {
  }

  /** A whole round: every message newly queued for any app is accepted by the sender when it is due, as long
      as no two batches contradict each other, instance guids are unique and desired apps have guids. */
  lemma RoundIsCoherent(r: Round, actual: map<AppKey, AppSnapshot>, batches: seq<Batch>, p: Progress,
                        startMessages: seq<PendingStart>, stopMessages: seq<PendingStop>)
    requires r.conf.Valid() && ActualApps(actual) && ConsistentBatches(batches)
    requires forall i :: 0 <= i < |batches| ==> KeyedBatch(batches[i])
    requires CompleteRound(r, actual, batches, p, startMessages, stopMessages)
    requires forall k :: k in p.apps ==> DistinctGuids(p.apps[k].instanceHeartbeats)
    requires forall k :: k in DesiredKeys(batches) ==> k.appGuid != ""
    ensures forall m :: m in p.newStarts ==> StartMessageToSend(p.apps, m).Some?
    ensures forall m :: m in p.newStops ==> StopMessageToSend(p.apps, m).Some?
  {
    hide DistinctGuids, NeedsStart, OwedStart, OneOwner, Lists, Justified, StopGuids, Quiet, StartMessageToSend,
         StopMessageToSend, CompleteRound, ActualApps, KeyedBatch, ConsistentBatches, StartOwed;
    RoundIsGathered(r, actual, batches, p, startMessages, stopMessages);
    forall m | m in p.newStarts ensures StartMessageToSend(p.apps, m).Some? {
      var a :| a in DesiredSnapshots(actual, batches) && StartOwed(r, a, m);
      SnapshotOfBatch(r, actual, batches, p, startMessages, stopMessages, a);
      OwedStartPasses(r, p.apps, a, m);
    }
    forall m | m in p.newStops ensures StopMessageToSend(p.apps, m).Some? {
      var a :| a in DesiredSnapshots(actual, batches) + RemovedSnapshots(actual, DesiredKeys(batches)) &&
               StopOwed(r, a, m);
      AnySnapshot(r, actual, batches, p, startMessages, stopMessages, a);
      OwedStopPasses(p.apps, a, r.conf, r.now, Quiet(a, r.existingStarts.Keys), m);
    }
  }

  lemma OwedStartPasses(r: Round, apps: map<AppKey, AppSnapshot>, a: AppSnapshot, m: PendingStart)
    requires r.conf.Valid() && StartOwed(r, a, m)
    requires a.Key() in apps && apps[a.Key()].(desired := a.desired) == a && apps[a.Key()].IsDesired()
    ensures StartMessageToSend(apps, m).Some? <==> apps[a.Key()].IsIndexDesired(m.indexToStart)
    ensures a.IsIndexDesired(m.indexToStart)
  {
    NeedsNothingRunning(a, m.indexToStart);
    hide NeedsStart;
  }

  lemma NeedsNothingRunning(a: AppSnapshot, index: int)
    requires NeedsStart(a, index)
    ensures a.IsIndexDesired(index) && !a.HasStartingOrRunningAt(index)
  {
  }

  /** Where batches do contradict each other, a new start is accepted exactly if the last of them that names
      its app desires its index. */
  lemma StartPassesIff(r: Round, actual: map<AppKey, AppSnapshot>, batches: seq<Batch>, p: Progress,
                       startMessages: seq<PendingStart>, stopMessages: seq<PendingStop>, m: PendingStart)
    requires r.conf.Valid() && ActualApps(actual) && m in p.newStarts
    requires forall i :: 0 <= i < |batches| ==> KeyedBatch(batches[i])
    requires CompleteRound(r, actual, batches, p, startMessages, stopMessages)
    requires forall k :: k in DesiredKeys(batches) ==> k.appGuid != ""
    ensures var k := AppOf(m.StoreKey());
            && k in p.apps
            && (StartMessageToSend(p.apps, m).Some? <==> p.apps[k].IsIndexDesired(m.indexToStart))
  {
    hide NeedsStart, StartMessageToSend, CompleteRound, ActualApps, KeyedBatch, StartOwed;
    RoundIsGathered(r, actual, batches, p, startMessages, stopMessages);
    var a :| a in DesiredSnapshots(actual, batches) && StartOwed(r, a, m);
    SnapshotOfBatch(r, actual, batches, p, startMessages, stopMessages, a);
    OwedStartPasses(r, p.apps, a, m);
    OwedUnderKey(r, a, m);
  }

  lemma OwedUnderKey(r: Round, a: AppSnapshot, m: PendingStart)
    requires r.conf.Valid() && StartOwed(r, a, m)
    ensures AppOf(m.StoreKey()) == a.Key()
  {
    OwedStartIsNew(a, r.conf, r.now, m.indexToStart);
  }

  lemma RoundIsGathered(r: Round, actual: map<AppKey, AppSnapshot>, batches: seq<Batch>, p: Progress,
                        startMessages: seq<PendingStart>, stopMessages: seq<PendingStop>)
    requires r.conf.Valid() && CompleteRound(r, actual, batches, p, startMessages, stopMessages)
    ensures Gathered(r, DesiredSnapshots(actual, batches),
                     DesiredSnapshots(actual, batches) + RemovedSnapshots(actual, DesiredKeys(batches)), p)
  {
    hide Tallied, Gathered, HandedOn, Lists, OneOwner, LastBatchCounts, DesiredSnapshots, RemovedSnapshots,
         DisjointBatches;
  }

  // What was analyzed for a batch is the app the round ends with, except perhaps for what is desired of it.
  lemma SnapshotOfBatch(r: Round, actual: map<AppKey, AppSnapshot>, batches: seq<Batch>, p: Progress,
                        startMessages: seq<PendingStart>, stopMessages: seq<PendingStop>, a: AppSnapshot)
    requires r.conf.Valid() && ActualApps(actual) && a in DesiredSnapshots(actual, batches)
    requires forall i :: 0 <= i < |batches| ==> KeyedBatch(batches[i])
    requires CompleteRound(r, actual, batches, p, startMessages, stopMessages)
    ensures a.Key() in DesiredKeys(batches) && a.Key() in p.apps
    ensures p.apps[a.Key()].(desired := a.desired) == a && p.apps[a.Key()].desired.StoreKey() == a.Key()
    ensures ConsistentBatches(batches) ==> p.apps[a.Key()] == a
  {
    hide Tallied, Gathered, HandedOn, Lists, OneOwner, NotAfter, DisjointBatches;
    var i, k :| 0 <= i < |batches| && k in batches[i] && a == WithDesired(actual, batches[i][k]);
    DesiredKeysContain(batches);
    var j := LastNaming(batches, k);
    assert p.apps[k] == WithDesired(actual, batches[j][k]);
    if ConsistentBatches(batches) {
      assert batches[i][k] == batches[j][k];
    }
  }

  lemma AnySnapshot(r: Round, actual: map<AppKey, AppSnapshot>, batches: seq<Batch>, p: Progress,
                    startMessages: seq<PendingStart>, stopMessages: seq<PendingStop>, a: AppSnapshot)
    requires r.conf.Valid() && ActualApps(actual) && ConsistentBatches(batches)
    requires a in DesiredSnapshots(actual, batches) + RemovedSnapshots(actual, DesiredKeys(batches))
    requires forall i :: 0 <= i < |batches| ==> KeyedBatch(batches[i])
    requires CompleteRound(r, actual, batches, p, startMessages, stopMessages)
    ensures a.Key() in p.apps && p.apps[a.Key()] == a
  {
    if a in DesiredSnapshots(actual, batches) {
      SnapshotOfBatch(r, actual, batches, p, startMessages, stopMessages, a);
    } else {
      hide Tallied, Gathered, HandedOn, Lists, OneOwner, LastBatchCounts, DisjointBatches, ConsistentBatches;
      var k :| k in actual && k !in DesiredKeys(batches) && a == actual[k];
    }
  }

  lemma SnapshotKeys(r: Round, actual: map<AppKey, AppSnapshot>, batches: seq<Batch>, p: Progress,
                     startMessages: seq<PendingStart>, stopMessages: seq<PendingStop>)
    requires r.conf.Valid() && ActualApps(actual)
    requires forall i :: 0 <= i < |batches| ==> KeyedBatch(batches[i])
    requires CompleteRound(r, actual, batches, p, startMessages, stopMessages)
    ensures forall k :: k in p.apps ==> p.apps[k].Key() == k
    ensures forall k :: k in DesiredKeys(batches) ==> k in p.apps && p.apps[k].desired.StoreKey() == k
  {
    hide Tallied, Gathered, HandedOn, Lists, OneOwner, DesiredSnapshots, NotAfter;
    forall k | k in DesiredKeys(batches)
      ensures k in p.apps && p.apps[k].Key() == k && p.apps[k].desired.StoreKey() == k
    {
      var i := LastNaming(batches, k);
      assert p.apps[k] == WithDesired(actual, batches[i][k]);
    }
  }
}
