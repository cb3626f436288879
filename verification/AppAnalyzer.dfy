/** The analyzer of a single app: four generators that walk its indices and instances and
    collect the messages to queue. */
module AppAnalyzers {
  import opened Collections
  import opened Models
  import opened Apps
  import opened AppAnalysis

  predicate Queueable(a: AppSnapshot, queued: set<StartKey>, k: StartKey) {
    OfApp(a, k) && k !in queued
  }

  // The start messages after each of the three generators that produce them.

  ghost predicate MissingStage(a: AppSnapshot, conf: Config, now: int, queued: set<StartKey>, n: int,
                               starts: map<StartKey, PendingStart>)
  {
    && (forall k :: k in starts <==> Queueable(a, queued, k) && k.index < n && NeedsMissingStart(a, k.index))
    && (forall k :: k in starts ==> starts[k] == MissingMessage(a, conf, now, k.index))
  }

  ghost predicate CrashedStage(a: AppSnapshot, conf: Config, now: int, queued: set<StartKey>, n: int,
                               before: map<StartKey, PendingStart>, starts: map<StartKey, PendingStart>)
    requires conf.Valid()
  {
    && (forall k :: k in starts <==>
          k in before || (Queueable(a, queued, k) && k.index < n && NeedsCrashedStart(a, k.index)))
    && (forall k :: k in starts ==>
          starts[k] == if k in before then before[k] else CrashedMessage(a, conf, now, k.index))
  }

  ghost predicate EvacuatingStage(a: AppSnapshot, conf: Config, now: int, queued: set<StartKey>, done: set<int>,
                                  before: map<StartKey, PendingStart>, starts: map<StartKey, PendingStart>)
  {
    && (forall k :: k in starts <==>
          k in before || (Queueable(a, queued, k) && k.index in done && NeedsEvacuatingStart(a, k.index)))
    && (forall k :: k in starts ==>
          if Queueable(a, queued, k) && k.index in done && NeedsEvacuatingStart(a, k.index)
          then starts[k] == EvacuatingMessage(a, conf, now, k.index) else k in before && starts[k] == before[k])
  }

  ghost predicate CoversReports(a: AppSnapshot, done: set<int>) {
    forall h :: h in a.instanceHeartbeats ==> h.instanceIndex in done
  }

  lemma MissingExcludesCrashed(a: AppSnapshot, conf: Config, now: int, queued: set<StartKey>,
                               starts: map<StartKey, PendingStart>)
    requires MissingStage(a, conf, now, queued, a.desired.numberOfInstances, starts)
    ensures forall k :: k in starts ==> !NeedsCrashedStart(a, k.index)
  {
  }

  lemma StagesGiveExactStarts(a: AppSnapshot, conf: Config, now: int, queued: set<StartKey>,
                              missing: map<StartKey, PendingStart>, crashed: map<StartKey, PendingStart>,
                              done: set<int>, starts: map<StartKey, PendingStart>)
    requires conf.Valid()
    requires MissingStage(a, conf, now, queued, a.desired.numberOfInstances, missing)
    requires CrashedStage(a, conf, now, queued, a.desired.numberOfInstances, missing, crashed)
    requires CoversReports(a, done) && EvacuatingStage(a, conf, now, queued, done, crashed, starts)
    ensures ExactStarts(a, conf, now, queued, starts)
  {
    forall k: StartKey
      ensures k in starts <==> OfApp(a, k) && k !in queued && NeedsStart(a, k.index)
      ensures k in starts ==> starts[k] == OwedStart(a, conf, now, k.index)
    {
      if NeedsEvacuatingStart(a, k.index) {
        var h :| h in a.instanceHeartbeats && h.instanceIndex == k.index && h.IsEvacuating();
        assert k.index in done;
      }
    }
  }

  lemma SplitStopGuids(a: AppSnapshot, now: int)
    ensures StopGuids(a, now, true) ==
            StopGuids(a, now, false) +
            (set h | h in a.instanceHeartbeats && StopsAsExtra(a, h) :: h.instanceGuid) +
            (set h | h in a.instanceHeartbeats && StopsAsDuplicate(a, h) :: h.instanceGuid)
  {
  }

  // The stops added for evacuating instances at one index.
  function EvacuationStops(a: AppSnapshot, conf: Config, now: int, queued: set<string>,
                           instances: seq<InstanceHeartbeat>, reason: StopReason): map<string, PendingStop>
  {
    map g | g in GuidsOf(instances) && g !in queued :: OwedStop(a, conf, now, 0, g, reason)
  }

  lemma NoEvacuationStops(a: AppSnapshot, conf: Config, now: int, queued: set<string>, reason: StopReason)
    ensures EvacuationStops(a, conf, now, queued, [], reason) == map[]
  {
  }

  lemma EvacuationStopsStep(a: AppSnapshot, conf: Config, now: int, queued: set<string>,
                            instances: seq<InstanceHeartbeat>, reason: StopReason, k: nat)
    requires k < |instances|
    ensures var g := instances[k].instanceGuid;
            EvacuationStops(a, conf, now, queued, instances[..k + 1], reason) ==
            if g in queued then EvacuationStops(a, conf, now, queued, instances[..k], reason)
            else
              var before := EvacuationStops(a, conf, now, queued, instances[..k], reason);
              before[g := OwedStop(a, conf, now, 0, g, reason)]
  {
    assert instances[..k + 1] == instances[..k] + [instances[k]];
    assert GuidsOf(instances[..k + 1]) == GuidsOf(instances[..k]) + {instances[k].instanceGuid};
  }

  function EvacuationStopsAt(a: AppSnapshot, conf: Config, now: int, queued: set<string>, index: int)
    : map<string, PendingStop>
  {
    match EvacuationStopReason(a, now, index)
    case None => map[]
    case Some(reason) =>
      EvacuationStops(a, conf, now, queued, EvacuatingOf(AtIndex(a.instanceHeartbeats, index)), reason)
  }

  lemma NoneEvacuatingMeans(a: AppSnapshot, conf: Config, now: int, queued: set<string>, index: int)
    ensures a.HasEvacuatingAt(index) <==> EvacuatingOf(AtIndex(a.instanceHeartbeats, index)) != []
    ensures !a.HasEvacuatingAt(index) ==> EvacuationStopsAt(a, conf, now, queued, index) == map[]
  {
    var instances := EvacuatingOf(AtIndex(a.instanceHeartbeats, index));
    if instances != [] {
      assert instances[0] in instances;
    }
    if a.HasEvacuatingAt(index) {
      var h :| h in a.instanceHeartbeats && h.instanceIndex == index && h.IsEvacuating();
      assert h in instances;
    }
  }

  ghost function EvacuationGuids(a: AppSnapshot, now: int, indices: set<int>): set<string> {
    set h | h in a.instanceHeartbeats && h.instanceIndex in indices && StopsAsEvacuating(a, now, h) :: h.instanceGuid
  }

  ghost predicate AllJustified(a: AppSnapshot, conf: Config, now: int, quiet: bool, stops: map<string, PendingStop>) {
    forall g :: g in stops ==> stops[g].instanceGuid == g && Justified(a, conf, now, quiet, stops[g])
  }

  lemma EvacuationStopsAtMeaning(a: AppSnapshot, conf: Config, now: int, queued: set<string>, index: int,
                                 done: set<int>)
    ensures AllJustified(a, conf, now, false, EvacuationStopsAt(a, conf, now, queued, index))
    ensures EvacuationGuids(a, now, done + {index}) - queued ==
            (EvacuationGuids(a, now, done) - queued) + EvacuationStopsAt(a, conf, now, queued, index).Keys
  {
    var stops := EvacuationStopsAt(a, conf, now, queued, index);
    var instances := EvacuatingOf(AtIndex(a.instanceHeartbeats, index));
    forall g | g in stops ensures stops[g].instanceGuid == g && Justified(a, conf, now, false, stops[g]) {
      var h :| h in instances && h.instanceGuid == g;
      assert StopFor(a, conf, now, false, h, stops[g]);
    }
    var here :=
      set h | h in a.instanceHeartbeats && h.instanceIndex == index && StopsAsEvacuating(a, now, h) :: h.instanceGuid;
    assert EvacuationGuids(a, now, done + {index}) == EvacuationGuids(a, now, done) + here;
    assert here - queued == stops.Keys;
  }

  ghost function DuplicateGuids(a: AppSnapshot, n: int): set<string> {
    set h | h in a.instanceHeartbeats && StopsAsDuplicate(a, h) && h.instanceIndex < n :: h.instanceGuid
  }

  lemma AllDuplicateGuids(a: AppSnapshot)
    ensures DuplicateGuids(a, 0) == {}
    ensures forall n :: 0 <= n && (n == a.desired.numberOfInstances || (n == 0 && a.desired.numberOfInstances < 0)) ==>
              DuplicateGuids(a, n) == set h | h in a.instanceHeartbeats && StopsAsDuplicate(a, h) :: h.instanceGuid
  {
  }

  lemma NoGuids()
    ensures GuidsOf([]) == {}
  {
  }

  lemma GuidsStep(instances: seq<InstanceHeartbeat>, k: nat)
    requires k < |instances|
    ensures GuidsOf(instances[..k + 1]) == GuidsOf(instances[..k]) + {instances[k].instanceGuid}
  {
    assert instances[..k + 1] == instances[..k] + [instances[k]];
  }

  lemma QuietAddsReasons(a: AppSnapshot, conf: Config, now: int, stops: map<string, PendingStop>)
    requires AllJustified(a, conf, now, false, stops)
    ensures AllJustified(a, conf, now, true, stops)
  {
    forall g | g in stops ensures Justified(a, conf, now, true, stops[g]) {
      var h :| h in a.instanceHeartbeats && StopFor(a, conf, now, false, h, stops[g]);
      assert StopFor(a, conf, now, true, h, stops[g]);
    }
  }

  // The instances among the given ones that lie beyond the desired range.
  ghost function ExtraGuids(a: AppSnapshot, hs: seq<InstanceHeartbeat>): set<string> {
    set h | h in hs && StopsAsExtra(a, h) :: h.instanceGuid
  }

  lemma NoExtraGuids(a: AppSnapshot)
    ensures ExtraGuids(a, []) == {}
  {
  }

  lemma NextExtraGuid(a: AppSnapshot, hs: seq<InstanceHeartbeat>, k: nat)
    requires k < |hs|
    ensures ExtraGuids(a, hs[..k + 1]) ==
            ExtraGuids(a, hs[..k]) + (if StopsAsExtra(a, hs[k]) then {hs[k].instanceGuid} else {})
  {
    hide StopsAsExtra;
    assert hs[..k + 1] == hs[..k] + [hs[k]];
  }

  lemma ExtraIsJustified(a: AppSnapshot, conf: Config, now: int, h: InstanceHeartbeat, m: PendingStop)
    requires h in a.instanceHeartbeats && StopsAsExtra(a, h)
    requires m == OwedStop(a, conf, now, 0, h.instanceGuid, ExtraStop)
    ensures m.instanceGuid == h.instanceGuid && Justified(a, conf, now, true, m)
  {
    assert StopFor(a, conf, now, true, h, m);
  }

  lemma DuplicateIsJustified(a: AppSnapshot, conf: Config, now: int, index: int, i: nat, m: PendingStop)
    requires 0 <= index && a.IsIndexDesired(index)
    requires 1 < |a.StartingOrRunningAt(index)| && i < |a.StartingOrRunningAt(index)|
    requires m == NewPendingStop(now, i * conf.gracePeriod + 4 * conf.gracePeriod, conf.gracePeriod, a.appGuid,
                                 a.appVersion, a.StartingOrRunningAt(index)[i].instanceGuid, DuplicateStop)
    ensures Justified(a, conf, now, true, m)
  {
    var instance := a.StartingOrRunningAt(index)[i];
    assert instance in a.StartingOrRunningAt(index);
    assert HoldsPosition(a, instance, i) && m == DuplicateMessage(a, conf, now, index, i);
    assert StopFor(a, conf, now, true, instance, m);
  }

  lemma DuplicateGuidsStep(a: AppSnapshot, n: int)
    requires 0 <= n && a.IsIndexDesired(n)
    ensures DuplicateGuids(a, n + 1) ==
            if |a.StartingOrRunningAt(n)| > 1 then DuplicateGuids(a, n) + GuidsOf(a.StartingOrRunningAt(n))
            else DuplicateGuids(a, n)
  {
    var instances := a.StartingOrRunningAt(n);
    assert forall h :: h in instances <==> h in a.instanceHeartbeats && h.instanceIndex == n && h.IsStartingOrRunning();
  }

  class AppAnalyzer {
    const app: App
    const conf: Config
    const existingStarts: map<StartKey, PendingStart>
    const existingStops: map<string, PendingStop>
    const now: int

    var startMessages: map<StartKey, PendingStart>
    var stopMessages: map<string, PendingStop>
    var crashCounts: seq<CrashCount>

    ghost predicate Valid()
      reads this, app
    {
      app.Valid() && conf.Valid()
    }

    constructor (app: App, now: int, existingStarts: map<StartKey, PendingStart>,
                 existingStops: map<string, PendingStop>, conf: Config)
      requires app.Valid() && conf.Valid()
      ensures Valid() && this.app == app && this.conf == conf && this.now == now
      ensures this.existingStarts == existingStarts && this.existingStops == existingStops
      ensures startMessages == map[] && stopMessages == map[] && crashCounts == []
    {
      this.app := app;
      this.conf := conf;
      this.existingStarts := existingStarts;
      this.existingStops := existingStops;
      this.now := now;
      startMessages := map[];
      stopMessages := map[];
      crashCounts := [];
    }

    method AnalyzeApp()
      requires Valid() && startMessages == map[] && stopMessages == map[] && crashCounts == []
      modifies this, app`table
      ensures Valid()
      ensures AnalysisOf(app.Snapshot(), conf, now, existingStarts.Keys, existingStops.Keys,
                         startMessages, stopMessages, crashCounts)
    {
      hide NeedsStop, StopsAsExtra, StopsAsDuplicate, Justified, CrashIncrements, Priority;
      hide ExactStarts, MissingStage, CrashedStage, EvacuatingStage, CoversReports;
      ghost var a := app.Snapshot();
      var priority := ComputePriority();
      GenerateStartsForMissing(priority);
      ghost var missing := startMessages;
      GenerateStartsForCrashed(priority);
      ghost var crashed := startMessages;
      ghost var done := GenerateForEvacuating();
      StagesGiveExactStarts(a, conf, now, existingStarts.Keys, missing, crashed, done, startMessages);
      if startMessages == map[] {
        GenerateStopsForExtra();
        GenerateStopsForDuplicates();
        SplitStopGuids(a, now);
      }
    }

    method ComputePriority() returns (priority: real)
      requires Valid()
      modifies app`table
      ensures Valid() && priority == Priority(app.Snapshot())
    {
      var covered := app.NumberOfDesiredIndicesWithAStartingOrRunningInstance();
      var n := app.desired.numberOfInstances;
      // With no desired instances the quotient is never used.
      priority := if n == 0 then 0.0 else (n - covered) as real / n as real;
    }

    method AppendStartIfNotDuplicate(m: PendingStart) returns (didAppend: bool)
      modifies this`startMessages
      ensures didAppend == (m.StoreKey() !in existingStarts)
      ensures startMessages == if didAppend then old(startMessages)[m.StoreKey() := m] else old(startMessages)
    {
      didAppend := m.StoreKey() !in existingStarts;
      if didAppend {
        startMessages := startMessages[m.StoreKey() := m];
      }
    }

    method AppendStopIfNotDuplicate(m: PendingStop)
      modifies this`stopMessages
      ensures stopMessages ==
              if m.StoreKey() in existingStops then old(stopMessages) else old(stopMessages)[m.StoreKey() := m]
    {
      if m.StoreKey() !in existingStops {
        stopMessages := stopMessages[m.StoreKey() := m];
      }
    }

    method GenerateStartsForMissing(priority: real)
      requires Valid() && startMessages == map[] && priority == Priority(app.Snapshot())
      modifies this`startMessages, app`table
      ensures Valid()
      ensures MissingStage(app.Snapshot(), conf, now, existingStarts.Keys, app.desired.numberOfInstances, startMessages)
    {
      ghost var a := app.Snapshot();
      if !app.Snapshot().IsStaged() {
        return;
      }
      var index := 0;
      while app.Snapshot().IsIndexDesired(index)
        invariant Valid() && 0 <= index
        invariant MissingStage(a, conf, now, existingStarts.Keys, index, startMessages)
        decreases a.desired.numberOfInstances - index
      {
        var live := app.HasStartingOrRunningInstanceAtIndex(index);
        var crashed := app.HasCrashedInstanceAtIndex(index);
        var evacuating := app.HasEvacuatingInstanceAtIndex(index);
        if !live && !crashed && !evacuating {
          var message := NewPendingStart(now, conf.gracePeriod, 0, app.appGuid, app.appVersion, index, priority,
                                         MissingStart);
          var _ := AppendStartIfNotDuplicate(message);
        }
        index := index + 1;
      }
    }

    method GenerateStartsForCrashed(priority: real)
      requires Valid() && priority == Priority(app.Snapshot()) && crashCounts == []
      requires MissingStage(app.Snapshot(), conf, now, existingStarts.Keys, app.desired.numberOfInstances,
                            startMessages)
      modifies this`startMessages, this`crashCounts, app`table
      ensures Valid()
      ensures CrashedStage(app.Snapshot(), conf, now, existingStarts.Keys, app.desired.numberOfInstances,
                           old(startMessages), startMessages)
      ensures crashCounts == CrashIncrements(app.Snapshot(), existingStarts.Keys, now, app.desired.numberOfInstances)
    {
      hide MissingStage, Priority, CrashedMessage;
      hide AppSnapshot.HasStartingOrRunningAt, AppSnapshot.HasCrashedAt, AppSnapshot.HasStartingOrRunning;
      ghost var a := app.Snapshot();
      ghost var before := startMessages;
      MissingExcludesCrashed(a, conf, now, existingStarts.Keys, before);
      if !app.Snapshot().IsStaged() {
        NoIncrementsUnlessStaged(a, a.desired.numberOfInstances);
        return;
      }
      var index := 0;
      while app.Snapshot().IsIndexDesired(index)
        invariant Valid() && 0 <= index && (index <= a.desired.numberOfInstances || index == 0)
        invariant CrashedStage(a, conf, now, existingStarts.Keys, index, before, startMessages)
        invariant crashCounts == CrashIncrements(a, existingStarts.Keys, now, index)
        decreases a.desired.numberOfInstances - index
      {
        GenerateStartForCrashedAt(index, priority);
        index := index + 1;
      }
    }

    method GenerateStartForCrashedAt(index: int, priority: real)
      requires Valid() && priority == Priority(app.Snapshot())
      requires 0 <= index && app.Snapshot().IsStaged() && app.Snapshot().IsIndexDesired(index)
      modifies this`startMessages, this`crashCounts, app`table
      ensures Valid()
      ensures var a := app.Snapshot();
              if CountsCrash(a, existingStarts.Keys, index) then
                startMessages ==
                  old(startMessages)[StartKey(a.appGuid, a.appVersion, index) := CrashedMessage(a, conf, now, index)]
                && crashCounts == old(crashCounts) +
                   [a.CrashCountAt(index, now).(crashCount := a.CrashCountAt(index, now).crashCount + 1)]
              else startMessages == old(startMessages) && crashCounts == old(crashCounts)
    {
      var live := app.HasStartingOrRunningInstanceAtIndex(index);
      var crashed := app.HasCrashedInstanceAtIndex(index);
      if !live && crashed {
        var anyLive := app.HasStartingOrRunningInstances();
        if index != 0 && !anyLive {
          return;
        }
        var crashCount := app.Snapshot().CrashCountAt(index, now);
        var delay := CrashDelayOf(conf, crashCount);
        var message := NewPendingStart(now, delay, conf.gracePeriod, app.appGuid, app.appVersion, index, priority,
                                       CrashedStart);
        var didAppend := AppendStartIfNotDuplicate(message);
        if didAppend {
          crashCounts := crashCounts + [crashCount.(crashCount := crashCount.crashCount + 1)];
        }
      }
    }

    lemma NoIncrementsUnlessStaged(a: AppSnapshot, n: int)
      requires !a.IsStaged()
      ensures CrashIncrements(a, existingStarts.Keys, now, n) == []
      decreases n
    {
      if n > 0 {
        NoIncrementsUnlessStaged(a, n - 1);
      }
    }

    method AddEvacuationStops(instances: seq<InstanceHeartbeat>, reason: StopReason)
      modifies this`stopMessages
      ensures stopMessages == old(stopMessages) +
                              EvacuationStops(app.Snapshot(), conf, now, existingStops.Keys, instances, reason)
    {
      hide EvacuationStops, GuidsOf;
      ghost var a := app.Snapshot();
      NoEvacuationStops(a, conf, now, existingStops.Keys, reason);
      for k := 0 to |instances|
        invariant stopMessages == old(stopMessages) +
                                  EvacuationStops(a, conf, now, existingStops.Keys, instances[..k], reason)
      {
        var guid := instances[k].instanceGuid;
        EvacuationStopsStep(a, conf, now, existingStops.Keys, instances, reason, k);
        AppendStopIfNotDuplicate(NewPendingStop(now, 0, conf.gracePeriod, app.appGuid, app.appVersion, guid, reason));
      }
      assert instances[..|instances|] == instances;
    }

    method GenerateForEvacuating() returns (ghost done: set<int>)
      requires Valid() && stopMessages == map[]
      modifies this`startMessages, this`stopMessages, app`table
      ensures Valid()
      ensures CoversReports(app.Snapshot(), done)
      ensures EvacuatingStage(app.Snapshot(), conf, now, existingStarts.Keys, done, old(startMessages), startMessages)
      ensures ExactStops(app.Snapshot(), conf, now, existingStops.Keys, false, stopMessages)
    {
      ghost var a := app.Snapshot();
      ghost var before := startMessages;
      var heartbeatsByIndex := BuildIndexTable(app.instanceHeartbeats);
      var remaining := heartbeatsByIndex.Keys;
      done := {};
      while remaining != {}
        invariant Valid() && done + remaining == heartbeatsByIndex.Keys && done !! remaining
        invariant EvacuatingStage(a, conf, now, existingStarts.Keys, done, before, startMessages)
        invariant stopMessages.Keys == EvacuationGuids(a, now, done) - existingStops.Keys
        invariant AllJustified(a, conf, now, false, stopMessages)
        decreases remaining
      {
        var index := PickAny(remaining);
        remaining := remaining - {index};
        GenerateForEvacuatingAt(index);
        EvacuationStopsAtMeaning(a, conf, now, existingStops.Keys, index, done);
        done := done + {index};
      }
      forall h | h in app.instanceHeartbeats ensures h.instanceIndex in done {
        assert h in AtIndex(app.instanceHeartbeats, h.instanceIndex);
      }
      assert CoversReports(a, done);
      assert EvacuationGuids(a, now, done) == StopGuids(a, now, false);
    }

    method GenerateForEvacuatingAt(index: int)
      requires Valid()
      modifies this`startMessages, this`stopMessages, app`table
      ensures Valid()
      ensures var k := StartKey(app.appGuid, app.appVersion, index);
              startMessages ==
              if k !in existingStarts && NeedsEvacuatingStart(app.Snapshot(), index)
              then old(startMessages)[k := EvacuatingMessage(app.Snapshot(), conf, now, index)] else old(startMessages)
      ensures stopMessages == old(stopMessages) +
                              EvacuationStopsAt(app.Snapshot(), conf, now, existingStops.Keys, index)
    {
      hide EvacuationStops, GuidsOf, AtIndex, EvacuatingOf, OwedStop;
      hide AppSnapshot.HasStartingAt, AppSnapshot.HasRunningAt, AppSnapshot.HasEvacuatingAt;
      ghost var a := app.Snapshot();
      var instances := app.EvacuatingInstancesAtIndex(index);
      NoneEvacuatingMeans(a, conf, now, existingStops.Keys, index);
      if |instances| == 0 {
        return;
      }
      if !app.Snapshot().IsIndexDesired(index) {
        AddEvacuationStops(instances, ExtraStop);
        return;
      }
      if !app.Snapshot().IsStaged() {
        AddEvacuationStops(instances, EvacuationCompleteStop);
      }
      var running := app.HasRunningInstanceAtIndex(index);
      if running {
        AddEvacuationStops(instances, EvacuationCompleteStop);
        return;
      }
      var starting := app.HasStartingInstanceAtIndex(index);
      if starting {
        return;
      }
      if app.Snapshot().CrashCountAt(index, now).crashCount > 0 {
        AddEvacuationStops(instances, EvacuationCompleteStop);
      }
      var _ := AppendStartIfNotDuplicate(
        NewPendingStart(now, 0, conf.gracePeriod, app.appGuid, app.appVersion, index, 2.0, EvacuatingStart));
    }

    method GenerateStopsForExtra()
      requires Valid()
      requires AllJustified(app.Snapshot(), conf, now, false, stopMessages)
      modifies this`stopMessages
      ensures Valid()
      ensures stopMessages.Keys == old(stopMessages.Keys) +
              (ExtraGuids(app.Snapshot(), app.instanceHeartbeats) - existingStops.Keys)
      ensures AllJustified(app.Snapshot(), conf, now, true, stopMessages)
    {
      hide Justified, ExtraGuids;
      NoExtraGuids(app.Snapshot());
      ghost var a := app.Snapshot();
      var hs := app.instanceHeartbeats;
      QuietAddsReasons(a, conf, now, stopMessages);
      for k := 0 to |hs|
        invariant stopMessages.Keys == old(stopMessages.Keys) +
                  (ExtraGuids(a, hs[..k]) - existingStops.Keys)
        invariant AllJustified(a, conf, now, true, stopMessages)
      {
        var h := hs[k];
        NextExtraGuid(a, hs, k);
        if !app.Snapshot().IsIndexDesired(h.instanceIndex) && h.IsStartingOrRunning() {
          var message := NewPendingStop(now, 0, conf.gracePeriod, app.appGuid, app.appVersion, h.instanceGuid,
                                        ExtraStop);
          ExtraIsJustified(a, conf, now, h, message);
          AppendStopIfNotDuplicate(message);
        }
      }
      assert hs[..|hs|] == hs;
    }

    method GenerateStopsForDuplicates()
      requires Valid()
      requires AllJustified(app.Snapshot(), conf, now, true, stopMessages)
      modifies this`stopMessages, app`table
      ensures Valid()
      ensures stopMessages.Keys == old(stopMessages.Keys) +
              ((set h | h in app.instanceHeartbeats && StopsAsDuplicate(app.Snapshot(), h) :: h.instanceGuid)
               - existingStops.Keys)
      ensures AllJustified(app.Snapshot(), conf, now, true, stopMessages)
    {
      hide StopsAsDuplicate, DuplicateGuids, Justified, GuidsOf, AtIndex, StartingOrRunning;
      ghost var a := app.Snapshot();
      AllDuplicateGuids(a);
      var index := 0;
      while app.Snapshot().IsIndexDesired(index)
        invariant Valid() && 0 <= index && (index <= a.desired.numberOfInstances || index == 0)
        invariant stopMessages.Keys == old(stopMessages.Keys) + (DuplicateGuids(a, index) - existingStops.Keys)
        invariant AllJustified(a, conf, now, true, stopMessages)
        decreases a.desired.numberOfInstances - index
      {
        var instances := app.StartingOrRunningInstancesAtIndex(index);
        DuplicateGuidsStep(a, index);
        if |instances| > 1 {
          AddDuplicateStops(index, instances);
        }
        index := index + 1;
      }
    }

    method AddDuplicateStops(index: int, instances: seq<InstanceHeartbeat>)
      requires Valid() && 0 <= index && app.Snapshot().IsIndexDesired(index)
      requires |instances| > 1 && instances == app.Snapshot().StartingOrRunningAt(index)
      requires AllJustified(app.Snapshot(), conf, now, true, stopMessages)
      modifies this`stopMessages
      ensures Valid()
      ensures stopMessages.Keys == old(stopMessages.Keys) + (GuidsOf(instances) - existingStops.Keys)
      ensures AllJustified(app.Snapshot(), conf, now, true, stopMessages)
    {
      hide Justified, GuidsOf, DuplicateMessage, OwedStop, AtIndex, StartingOrRunning;
      ghost var a := app.Snapshot();
      NoGuids();
      var minimumDelay := 4 * conf.gracePeriod;
      for i := 0 to |instances|
        invariant stopMessages.Keys == old(stopMessages.Keys) + (GuidsOf(instances[..i]) - existingStops.Keys)
        invariant AllJustified(a, conf, now, true, stopMessages)
      {
        var instance := instances[i];
        GuidsStep(instances, i);
        var delay := i * conf.gracePeriod + minimumDelay;
        var message := NewPendingStop(now, delay, conf.gracePeriod, app.appGuid, app.appVersion,
                                      instance.instanceGuid, DuplicateStop);
        DuplicateIsJustified(a, conf, now, index, i, message);
        AppendStopIfNotDuplicate(message);
      }
      assert instances[..|instances|] == instances;
    }
  }
}
