/** What an analysis yields, read off the heartbeats, the desired state and the crash counts alone. */
module AnalysisLaws {
  import opened AppAnalysis
  import opened CrashDelay
  import opened Models
  import opened Observations

  // ---------- starts ----------

  // Nothing at all is reported of a desired index of a staged app that counts.
  ghost predicate IsMissing(a: AppSnapshot, index: int) {
    && a.desired.packageState == Staged && 0 <= index < a.desired.numberOfInstances
    && !Seen(a, index, {Starting, Running, Crashed, Evacuating})
  }

  // Its instance has crashed and no other took its place; and the app has not crashed as a whole, or this is
  // the index that is tried first.
  ghost predicate IsDown(a: AppSnapshot, index: int) {
    && a.desired.packageState == Staged && 0 <= index < a.desired.numberOfInstances
    && Seen(a, index, {Crashed}) && !Seen(a, index, {Starting, Running})
    && (index == 0 || SeenAnywhere(a, {Starting, Running}))
  }

  // Its instance is evacuating and no other took its place.
  ghost predicate IsLeaving(a: AppSnapshot, index: int) {
    && index < a.desired.numberOfInstances
    && Seen(a, index, {Evacuating}) && !Seen(a, index, {Starting, Running})
  }

  lemma NeedsMean(a: AppSnapshot, index: int)
    ensures NeedsMissingStart(a, index) <==> IsMissing(a, index)
    ensures NeedsCrashedStart(a, index) <==> IsDown(a, index)
    ensures NeedsEvacuatingStart(a, index) <==> IsLeaving(a, index)
  {
    QueriesSee(a, index);
    hide AppSnapshot.HasStartingOrRunningAt, AppSnapshot.HasStartingAt, AppSnapshot.HasRunningAt,
         AppSnapshot.HasCrashedAt, AppSnapshot.HasEvacuatingAt, AppSnapshot.HasStartingOrRunning;
  }

  /** An index gets a new start exactly if it is missing, down or left and has none queued. A missing one is
      started a grace period later and the message is not kept; a crashed one as the backoff has it; and where
      an instance evacuates, at once and before all others. */
  lemma StartsAreThose(a: AppSnapshot, conf: Config, now: int, queuedStarts: set<StartKey>, queuedStops: set<string>,
                       starts: map<StartKey, PendingStart>, stops: map<string, PendingStop>, counts: seq<CrashCount>,
                       index: int)
    requires conf.Valid() && AnalysisOf(a, conf, now, queuedStarts, queuedStops, starts, stops, counts)
    ensures var key, grace := StartKey(a.appGuid, a.appVersion, index), conf.gracePeriod;
            && (key in starts <==>
                  key !in queuedStarts && (IsMissing(a, index) || IsDown(a, index) || IsLeaving(a, index)))
            && (key in starts ==>
                  starts[key] ==
                  if IsLeaving(a, index) then
                    PendingStart(now, 0, grace, a.appGuid, a.appVersion, index, 2.0, false, EvacuatingStart)
                  else if IsDown(a, index) then
                    PendingStart(now + BackoffOf(a, conf, index), 0, grace, a.appGuid, a.appVersion, index,
                                 starts[key].priority, false, CrashedStart)
                  else
                    PendingStart(now + grace, 0, 0, a.appGuid, a.appVersion, index,
                                 starts[key].priority, false, MissingStart))
            && (key in starts && !IsLeaving(a, index) ==> IsShareOfVacant(a, starts[key].priority))
    ensures forall key :: key in starts ==> key.appGuid == a.appGuid && key.appVersion == a.appVersion
  {
    hide ExactStops, CrashIncrements, IsMissing, IsDown, IsLeaving, ComputeCrashDelay, Priority;
    NeedsMean(a, index);
    PriorityIsShare(a);
    hide NeedsMissingStart, NeedsCrashedStart, NeedsEvacuatingStart, IsShareOfVacant;
  }

  ghost function BackoffOf(a: AppSnapshot, conf: Config, index: int): int
    requires conf.Valid()
  {
    ComputeCrashDelay(CrashesOf(a, index), conf.crashesBeforeBackoff, conf.startingBackoff, conf.maximumBackoff)
  }

  // The share of the desired indices at which nothing starts or runs.
  ghost predicate IsShareOfVacant(a: AppSnapshot, priority: real) {
    a.desired.numberOfInstances > 0 ==>
      priority * a.desired.numberOfInstances as real == |VacantIndices(a)| as real
  }

  lemma PriorityIsShare(a: AppSnapshot)
    ensures IsShareOfVacant(a, Priority(a))
  {
    var n := a.desired.numberOfInstances;
    if n > 0 {
      VacantOrCovered(a, n);
      Ratio(n - a.CoveredIndices(n), n);
    }
  }

  lemma Ratio(p: int, q: int)
    requires 0 < q
    ensures p as real / q as real * q as real == p as real
  {
  }

  // ---------- stops ----------

  /** An evacuating instance has nothing left to wait for: its index is not desired, the app cannot be started,
      another instance of the index runs, or none is starting and the index is known to crash. */
  ghost predicate LeavesForGood(a: AppSnapshot, h: InstanceHeartbeat) {
    && h.state == Evacuating
    && (|| h.instanceIndex >= a.desired.numberOfInstances
        || a.desired.packageState != Staged
        || Seen(a, h.instanceIndex, {Running})
        || (!Seen(a, h.instanceIndex, {Starting}) && CrashesOf(a, h.instanceIndex) > 0))
  }

  ghost predicate IsSurplus(a: AppSnapshot, h: InstanceHeartbeat) {
    h.state in {Starting, Running} && h.instanceIndex >= a.desired.numberOfInstances
  }

  ghost predicate IsDuplicate(a: AppSnapshot, h: InstanceHeartbeat) {
    && h.state in {Starting, Running} && 0 <= h.instanceIndex < a.desired.numberOfInstances
    && Crowded(a, h.instanceIndex)
  }

  // The instance is to go, where `quiet` says that no start was queued for its app.
  ghost predicate IsToGo(a: AppSnapshot, quiet: bool, h: InstanceHeartbeat) {
    LeavesForGood(a, h) || (quiet && (IsSurplus(a, h) || IsDuplicate(a, h)))
  }

  lemma NeedsStopMeans(a: AppSnapshot, now: int, quiet: bool, h: InstanceHeartbeat)
    ensures StopsAsEvacuating(a, now, h) <==> LeavesForGood(a, h)
    ensures StopsAsExtra(a, h) <==> IsSurplus(a, h)
    ensures StopsAsDuplicate(a, h) <==> IsDuplicate(a, h)
    ensures NeedsStop(a, now, quiet, h) <==> IsToGo(a, quiet, h)
  {
    QueriesSee(a, h.instanceIndex);
    CrowdedIff(a, h.instanceIndex);
    hide AppSnapshot.HasStartingOrRunningAt, AppSnapshot.HasStartingAt, AppSnapshot.HasRunningAt,
         AppSnapshot.HasCrashedAt, AppSnapshot.HasEvacuatingAt, AppSnapshot.HasStartingOrRunning,
         AppSnapshot.StartingOrRunningAt, Seen, Crowded;
  }

  /** An instance gets a new stop exactly if it is to go and has none queued; surplus and duplicate instances
      are to go only in an analysis that starts nothing. */
  lemma StopsAreThose(a: AppSnapshot, conf: Config, now: int, queuedStarts: set<StartKey>, queuedStops: set<string>,
                      starts: map<StartKey, PendingStart>, stops: map<string, PendingStop>, counts: seq<CrashCount>)
    requires conf.Valid() && AnalysisOf(a, conf, now, queuedStarts, queuedStops, starts, stops, counts)
    ensures forall g :: g in stops <==>
              g !in queuedStops &&
              exists h :: h in a.instanceHeartbeats && h.instanceGuid == g && IsToGo(a, |starts| == 0, h)
  {
    hide ExactStarts, CrashIncrements, IsToGo, NeedsStop;
    assert |starts| == 0 <==> starts == map[];
    forall h | h in a.instanceHeartbeats
      ensures NeedsStop(a, now, starts == map[], h) <==> IsToGo(a, |starts| == 0, h)
    {
      NeedsStopMeans(a, now, starts == map[], h);
    }
    assert forall g :: g in stops <==> g in StopGuids(a, now, starts == map[]) && g !in queuedStops;
  }

  /** What the stop for the p-th heartbeat says: evacuating and surplus instances are stopped at once, and of
      several instances at an index each a grace period after the one before it, the first after four. */
  lemma StopIsFor(a: AppSnapshot, conf: Config, now: int, queuedStarts: set<StartKey>, queuedStops: set<string>,
                  starts: map<StartKey, PendingStart>, stops: map<string, PendingStop>, counts: seq<CrashCount>, p: nat)
    requires conf.Valid() && AnalysisOf(a, conf, now, queuedStarts, queuedStops, starts, stops, counts)
    requires DistinctGuids(a.instanceHeartbeats) && p < |a.instanceHeartbeats|
    requires a.instanceHeartbeats[p].instanceGuid in stops
    ensures var h, grace := a.instanceHeartbeats[p], conf.gracePeriod;
            stops[h.instanceGuid] ==
            if h.state in {Starting, Running} && h.instanceIndex < a.desired.numberOfInstances then
              PendingStop(now + (4 + |UpBefore(a, h.instanceIndex, p)|) * grace, 0, grace, a.appGuid, a.appVersion,
                          h.instanceGuid, DuplicateStop)
            else
              PendingStop(now, 0, grace, a.appGuid, a.appVersion, h.instanceGuid,
                          if h.instanceIndex < a.desired.numberOfInstances then EvacuationCompleteStop else ExtraStop)
  {
    var h, quiet := a.instanceHeartbeats[p], starts == map[];
    var m := stops[h.instanceGuid];
    assert Justified(a, conf, now, quiet, m) && m.instanceGuid == h.instanceGuid by {
      hide ExactStarts, CrashIncrements, Justified;
    }
    JustifiedStop(a, conf, now, quiet, p, m);
  }

  /** While another instance is to take its place, an evacuating one is stopped exactly if its index is known to
      crash, and then at once. */
  lemma UnstableEvacueeIsStopped(a: AppSnapshot, conf: Config, now: int, queuedStarts: set<StartKey>,
                                 queuedStops: set<string>, starts: map<StartKey, PendingStart>,
                                 stops: map<string, PendingStop>, counts: seq<CrashCount>, p: nat)
    requires conf.Valid() && AnalysisOf(a, conf, now, queuedStarts, queuedStops, starts, stops, counts)
    requires DistinctGuids(a.instanceHeartbeats) && p < |a.instanceHeartbeats|
    requires var h := a.instanceHeartbeats[p];
             h.state == Evacuating && IsLeaving(a, h.instanceIndex) && h.instanceGuid !in queuedStops
    requires a.desired.packageState == Staged
    ensures var h := a.instanceHeartbeats[p];
            && (h.instanceGuid in stops <==> CrashesOf(a, h.instanceIndex) > 0)
            && (h.instanceGuid in stops ==>
                  stops[h.instanceGuid] == PendingStop(now, 0, conf.gracePeriod, a.appGuid, a.appVersion,
                                                       h.instanceGuid, EvacuationCompleteStop))
  {
    var h := a.instanceHeartbeats[p];
    StopsAreThose(a, conf, now, queuedStarts, queuedStops, starts, stops, counts);
    if h.instanceGuid in stops {
      StopIsFor(a, conf, now, queuedStarts, queuedStops, starts, stops, counts, p);
    }
    hide AnalysisOf;
    forall g | g in a.instanceHeartbeats && g.instanceGuid == h.instanceGuid ensures g == h {
      LookupFindsInstance(a.instanceHeartbeats, g);
      LookupFindsInstance(a.instanceHeartbeats, h);
    }
  }

  lemma JustifiedStop(a: AppSnapshot, conf: Config, now: int, quiet: bool, p: nat, m: PendingStop)
    requires DistinctGuids(a.instanceHeartbeats) && p < |a.instanceHeartbeats|
    requires Justified(a, conf, now, quiet, m) && m.instanceGuid == a.instanceHeartbeats[p].instanceGuid
    ensures var h, up := a.instanceHeartbeats[p], |UpBefore(a, a.instanceHeartbeats[p].instanceIndex, p)|;
            var n := a.desired.numberOfInstances;
            m == if h.state in {Starting, Running} && h.instanceIndex < n
                 then OwedStop(a, conf, now, (4 + up) * conf.gracePeriod, h.instanceGuid, DuplicateStop)
                 else OwedStop(a, conf, now, 0, h.instanceGuid,
                               if h.instanceIndex < n then EvacuationCompleteStop else ExtraStop)
  {
    hide Justified, DistinctGuids, AppSnapshot.StartingOrRunningAt, HoldsPosition, UpBefore, DuplicateMessage,
         AppSnapshot.HasRunningAt, AppSnapshot.HasStartingAt;
    var h := a.instanceHeartbeats[p];
    JustifiedIsFor(a, conf, now, quiet, h, m);
    if StopsAsDuplicate(a, h) {
      DuplicateStands(a, conf, now, p, m);
    }
  }

  lemma JustifiedIsFor(a: AppSnapshot, conf: Config, now: int, quiet: bool, h: InstanceHeartbeat, m: PendingStop)
    requires Justified(a, conf, now, quiet, m) && DistinctGuids(a.instanceHeartbeats)
    requires h in a.instanceHeartbeats && m.instanceGuid == h.instanceGuid
    ensures StopFor(a, conf, now, quiet, h, m)
  {
    hide StopFor;
    var h' :| h' in a.instanceHeartbeats && StopFor(a, conf, now, quiet, h', m);
    StopForNamesInstance(a, conf, now, quiet, h', m);
    LookupFindsInstance(a.instanceHeartbeats, h);
    LookupFindsInstance(a.instanceHeartbeats, h');
  }

  lemma DuplicateStands(a: AppSnapshot, conf: Config, now: int, p: nat, m: PendingStop)
    requires DistinctGuids(a.instanceHeartbeats) && p < |a.instanceHeartbeats|
    requires UpAt(a, a.instanceHeartbeats[p].instanceIndex, p)
    requires exists j :: HoldsPosition(a, a.instanceHeartbeats[p], j) &&
               m == DuplicateMessage(a, conf, now, a.instanceHeartbeats[p].instanceIndex, j)
    ensures var h := a.instanceHeartbeats[p];
            m == OwedStop(a, conf, now, (4 + |UpBefore(a, h.instanceIndex, p)|) * conf.gracePeriod, h.instanceGuid,
                          DuplicateStop)
  {
    var h := a.instanceHeartbeats[p];
    hide UpBefore, AppSnapshot.StartingOrRunningAt, HoldsPosition;
    HoldsItsPlace(a, p);
    PositionIsUnique(a, h);
    hide DistinctGuids;
    var j :| HoldsPosition(a, h, j) && m == DuplicateMessage(a, conf, now, h.instanceIndex, j);
    assert j == |UpBefore(a, h.instanceIndex, p)|;
    PlaceHolds(a, h, j);
    FourMore(j, conf.gracePeriod);
  }

  lemma PlaceHolds(a: AppSnapshot, h: InstanceHeartbeat, j: int)
    requires HoldsPosition(a, h, j)
    ensures 0 <= j < |a.StartingOrRunningAt(h.instanceIndex)| && a.StartingOrRunningAt(h.instanceIndex)[j] == h
  {
  }

  lemma FourMore(j: nat, grace: nat)
    ensures j * grace + 4 * grace == (4 + j) * grace
  {
  }

  lemma HoldsItsPlace(a: AppSnapshot, p: nat)
    requires p < |a.instanceHeartbeats| && UpAt(a, a.instanceHeartbeats[p].instanceIndex, p)
    ensures var h := a.instanceHeartbeats[p]; HoldsPosition(a, h, |UpBefore(a, h.instanceIndex, p)|)
  {
    var h, n := a.instanceHeartbeats[p], |a.instanceHeartbeats|;
    AllUp(a, h.instanceIndex);
    ListedInOrder(a, h.instanceIndex, n);
    hide UpBefore, UpAmong, AppSnapshot.StartingOrRunningAt;
    assert StandsAt(a, h.instanceIndex, UpAmong(a, h.instanceIndex, n), p);
  }

  // ---------- crash counts ----------

  /** A crash is counted exactly for an index whose restart is newly called for. */
  lemma CountsAreThose(a: AppSnapshot, conf: Config, now: int, queuedStarts: set<StartKey>, queuedStops: set<string>,
                       starts: map<StartKey, PendingStart>, stops: map<string, PendingStop>, counts: seq<CrashCount>,
                       c: CrashCount)
    requires conf.Valid() && AnalysisOf(a, conf, now, queuedStarts, queuedStops, starts, stops, counts)
    ensures c in counts <==>
            exists i :: IsDown(a, i) && StartKey(a.appGuid, a.appVersion, i) !in queuedStarts &&
              c == if i in a.crashCounts then a.crashCounts[i].(crashCount := a.crashCounts[i].crashCount + 1)
                   else CrashCount(a.appGuid, a.appVersion, i, 1, now)
  {
    hide ExactStarts, ExactStops;
    IncrementsAre(a, queuedStarts, now, a.desired.numberOfInstances, c);
    hide CrashIncrements;
    forall i ensures CountsCrash(a, queuedStarts, i) <==>
                     IsDown(a, i) && StartKey(a.appGuid, a.appVersion, i) !in queuedStarts
    {
      NeedsMean(a, i);
    }
    assert forall i :: IsDown(a, i) ==> 0 <= i < a.desired.numberOfInstances;
    hide IsDown, CountsCrash;
    if i :| IsDown(a, i) && StartKey(a.appGuid, a.appVersion, i) !in queuedStarts &&
              c == if i in a.crashCounts then a.crashCounts[i].(crashCount := a.crashCounts[i].crashCount + 1)
                   else CrashCount(a.appGuid, a.appVersion, i, 1, now)
    {
      assert CountsCrash(a, queuedStarts, i);
    }
  }
}
