/** What one app's analysis must produce, stated index by index and instance by instance,
    and what that says about the app. */
module AppAnalysis {
  import opened Models
  import opened CrashDelay

  datatype Config = Config(gracePeriod: nat, crashesBeforeBackoff: nat, startingBackoff: nat, maximumBackoff: nat) {
    predicate Valid() { 0 < startingBackoff && 0 < maximumBackoff }
  }

  // ---------- starts ----------

  predicate NeedsMissingStart(a: AppSnapshot, index: int) {
    && a.IsStaged()
    && 0 <= index && a.IsIndexDesired(index)
    && !a.HasStartingOrRunningAt(index) && !a.HasCrashedAt(index) && !a.HasEvacuatingAt(index)
  }

  predicate NeedsCrashedStart(a: AppSnapshot, index: int) {
    && a.IsStaged()
    && 0 <= index && a.IsIndexDesired(index)
    && !a.HasStartingOrRunningAt(index) && a.HasCrashedAt(index)
    && (index == 0 || a.HasStartingOrRunning())
  }

  predicate NeedsEvacuatingStart(a: AppSnapshot, index: int) {
    && a.IsIndexDesired(index)
    && a.HasEvacuatingAt(index)
    && !a.HasRunningAt(index) && !a.HasStartingAt(index)
  }

  predicate NeedsStart(a: AppSnapshot, index: int) {
    NeedsMissingStart(a, index) || NeedsCrashedStart(a, index) || NeedsEvacuatingStart(a, index)
  }

  // The share of desired indices that have nothing starting or running.
  function Priority(a: AppSnapshot): real {
    var n := a.desired.numberOfInstances;
    if n == 0 then 0.0 else (n - a.CoveredIndices(n)) as real / n as real
  }

  function CrashDelayOf(conf: Config, count: CrashCount): int
    requires conf.Valid()
  {
    ComputeCrashDelay(count.crashCount, conf.crashesBeforeBackoff, conf.startingBackoff, conf.maximumBackoff)
  }

  function MissingMessage(a: AppSnapshot, conf: Config, now: int, index: int): PendingStart {
    NewPendingStart(now, conf.gracePeriod, 0, a.appGuid, a.appVersion, index, Priority(a), MissingStart)
  }

  function CrashedMessage(a: AppSnapshot, conf: Config, now: int, index: int): PendingStart
    requires conf.Valid()
  {
    NewPendingStart(now, CrashDelayOf(conf, a.CrashCountAt(index, now)), conf.gracePeriod,
                    a.appGuid, a.appVersion, index, Priority(a), CrashedStart)
  }

  function EvacuatingMessage(a: AppSnapshot, conf: Config, now: int, index: int): PendingStart {
    NewPendingStart(now, 0, conf.gracePeriod, a.appGuid, a.appVersion, index, 2.0, EvacuatingStart)
  }

  // At an index with several reasons the evacuation wins; missing and crashed exclude each other.
  function OwedStart(a: AppSnapshot, conf: Config, now: int, index: int): PendingStart
    requires conf.Valid()
  {
    if NeedsEvacuatingStart(a, index) then EvacuatingMessage(a, conf, now, index)
    else if NeedsCrashedStart(a, index) then CrashedMessage(a, conf, now, index)
    else MissingMessage(a, conf, now, index)
  }

  predicate OfApp(a: AppSnapshot, k: StartKey) {
    k.appGuid == a.appGuid && k.appVersion == a.appVersion
  }

  ghost predicate ExactStarts(a: AppSnapshot, conf: Config, now: int, queued: set<StartKey>,
                              starts: map<StartKey, PendingStart>)
    requires conf.Valid()
  {
    && (forall k :: k in starts <==> OfApp(a, k) && k !in queued && NeedsStart(a, k.index))
    && (forall k :: k in starts ==> starts[k] == OwedStart(a, conf, now, k.index))
  }

  // ---------- stops ----------

  // Why the evacuating instances at an index are to be stopped, if they are.
  function EvacuationStopReason(a: AppSnapshot, now: int, index: int): Option<StopReason> {
    if !a.IsIndexDesired(index) then Some(ExtraStop)
    else if !a.IsStaged() || a.HasRunningAt(index) then Some(EvacuationCompleteStop)
    else if !a.HasStartingAt(index) && a.CrashCountAt(index, now).crashCount > 0 then Some(EvacuationCompleteStop)
    else None
  }

  predicate StopsAsEvacuating(a: AppSnapshot, now: int, h: InstanceHeartbeat) {
    h.IsEvacuating() && EvacuationStopReason(a, now, h.instanceIndex).Some?
  }

  predicate StopsAsExtra(a: AppSnapshot, h: InstanceHeartbeat) {
    h.IsStartingOrRunning() && !a.IsIndexDesired(h.instanceIndex)
  }

  predicate StopsAsDuplicate(a: AppSnapshot, h: InstanceHeartbeat) {
    && h.IsStartingOrRunning()
    && 0 <= h.instanceIndex && a.IsIndexDesired(h.instanceIndex)
    && |a.StartingOrRunningAt(h.instanceIndex)| > 1
  }

  predicate NeedsStop(a: AppSnapshot, now: int, quiet: bool, h: InstanceHeartbeat) {
    StopsAsEvacuating(a, now, h) || (quiet && (StopsAsExtra(a, h) || StopsAsDuplicate(a, h)))
  }

  ghost function StopGuids(a: AppSnapshot, now: int, quiet: bool): set<string> {
    set h | h in a.instanceHeartbeats && NeedsStop(a, now, quiet, h) :: h.instanceGuid
  }

  function OwedStop(a: AppSnapshot, conf: Config, now: int, delay: int, guid: string, reason: StopReason): PendingStop {
    NewPendingStop(now, delay, conf.gracePeriod, a.appGuid, a.appVersion, guid, reason)
  }

  // The j-th of several instances at an index is stopped j grace periods after the first.
  function DuplicateMessage(a: AppSnapshot, conf: Config, now: int, index: int, j: nat): PendingStop
    requires j < |a.StartingOrRunningAt(index)|
  {
    OwedStop(a, conf, now, j * conf.gracePeriod + 4 * conf.gracePeriod,
                a.StartingOrRunningAt(index)[j].instanceGuid, DuplicateStop)
  }

  ghost predicate HoldsPosition(a: AppSnapshot, h: InstanceHeartbeat, j: int) {
    0 <= j < |a.StartingOrRunningAt(h.instanceIndex)| && a.StartingOrRunningAt(h.instanceIndex)[j] == h
  }

  // m is the stop that the analysis owes instance h.
  ghost predicate StopFor(a: AppSnapshot, conf: Config, now: int, quiet: bool, h: InstanceHeartbeat, m: PendingStop) {
    || (StopsAsEvacuating(a, now, h) &&
        m == OwedStop(a, conf, now, 0, h.instanceGuid, EvacuationStopReason(a, now, h.instanceIndex).value))
    || (quiet && StopsAsExtra(a, h) && m == OwedStop(a, conf, now, 0, h.instanceGuid, ExtraStop))
    || (quiet && StopsAsDuplicate(a, h) &&
        exists j :: HoldsPosition(a, h, j) && m == DuplicateMessage(a, conf, now, h.instanceIndex, j))
  }

  ghost predicate Justified(a: AppSnapshot, conf: Config, now: int, quiet: bool, m: PendingStop) {
    exists h :: h in a.instanceHeartbeats && StopFor(a, conf, now, quiet, h, m)
  }

  // Stops for running instances are held back in a round that queues any start for the app.
  ghost predicate ExactStops(a: AppSnapshot, conf: Config, now: int, queued: set<string>, quiet: bool,
                             stops: map<string, PendingStop>)
  {
    && stops.Keys == StopGuids(a, now, quiet) - queued
    && (forall g :: g in stops ==> stops[g].instanceGuid == g && Justified(a, conf, now, quiet, stops[g]))
  }

  // ---------- crash counts ----------

  predicate CountsCrash(a: AppSnapshot, queued: set<StartKey>, index: int) {
    NeedsCrashedStart(a, index) && StartKey(a.appGuid, a.appVersion, index) !in queued
  }

  // One incremented count, in index order, for each crashed index below n whose restart was queued.
  function CrashIncrements(a: AppSnapshot, queued: set<StartKey>, now: int, n: int): (r: seq<CrashCount>)
    decreases n
  {
    if n <= 0 then []
    else if CountsCrash(a, queued, n - 1) then
      CrashIncrements(a, queued, now, n - 1) +
      [a.CrashCountAt(n - 1, now).(crashCount := a.CrashCountAt(n - 1, now).crashCount + 1)]
    else CrashIncrements(a, queued, now, n - 1)
  }

  lemma {:induction false} IncrementsAre(a: AppSnapshot, queued: set<StartKey>, now: int, n: int, c: CrashCount)
    ensures c in CrashIncrements(a, queued, now, n) <==>
            exists i :: 0 <= i < n && CountsCrash(a, queued, i) &&
              c == a.CrashCountAt(i, now).(crashCount := a.CrashCountAt(i, now).crashCount + 1)
    decreases n
  {
    hide CountsCrash;
    if n > 0 {
      IncrementsAre(a, queued, now, n - 1, c);
    }
  }

  // ---------- the whole analysis ----------

  ghost predicate AnalysisOf(a: AppSnapshot, conf: Config, now: int,
                             queuedStarts: set<StartKey>, queuedStops: set<string>,
                             starts: map<StartKey, PendingStart>, stops: map<string, PendingStop>,
                             crashCounts: seq<CrashCount>)
    requires conf.Valid()
  {
    && ExactStarts(a, conf, now, queuedStarts, starts)
    && ExactStops(a, conf, now, queuedStops, starts == map[], stops)
    && crashCounts == CrashIncrements(a, queuedStarts, now, a.desired.numberOfInstances)
  }

  // ---------- consequences ----------

  ghost predicate NonNegativeIndices(a: AppSnapshot) {
    forall h :: h in a.instanceHeartbeats ==> 0 <= h.instanceIndex
  }

  // What "nothing to do" means in terms of the instances alone.
  ghost predicate Converged(a: AppSnapshot) {
    && (forall i :: 0 <= i < a.desired.numberOfInstances ==> |a.StartingOrRunningAt(i)| == 1)
    && (forall h :: h in a.instanceHeartbeats && !a.IsIndexDesired(h.instanceIndex) ==>
          !h.IsStartingOrRunning() && !h.IsEvacuating())
    && (forall h :: h in a.instanceHeartbeats && h.IsEvacuating() ==>
          a.HasStartingAt(h.instanceIndex) && !a.HasRunningAt(h.instanceIndex))
  }

  /** Index 0 is never skipped, so a staged app always gets a start when some desired index
      has nothing starting or running. */
  lemma SomeStartWhenUncovered(a: AppSnapshot, i: int) returns (j: int)
    requires a.IsStaged() && 0 <= i < a.desired.numberOfInstances && !a.HasStartingOrRunningAt(i)
    ensures 0 <= j < a.desired.numberOfInstances && NeedsStart(a, j)
  {
    if a.HasEvacuatingAt(i) || !a.HasCrashedAt(i) || a.HasStartingOrRunning() {
      j := i;
      NoStartingNorRunning(a, i);
    } else {
      j := 0;
      NoStartingNorRunning(a, 0);
    }
  }

  lemma NoStartingNorRunning(a: AppSnapshot, i: int)
    requires !a.HasStartingOrRunningAt(i)
    ensures !a.HasStartingAt(i) && !a.HasRunningAt(i)
  {
    if h :| h in a.instanceHeartbeats && h.instanceIndex == i && (h.IsStarting() || h.IsRunning()) {
      assert h.IsStartingOrRunning();
    }
  }

  lemma CoveredIffInstance(a: AppSnapshot, i: int)
    ensures a.HasStartingOrRunningAt(i) <==> |a.StartingOrRunningAt(i)| >= 1
  {
    if a.HasStartingOrRunningAt(i) {
      var h :| h in a.instanceHeartbeats && h.instanceIndex == i && h.IsStartingOrRunning();
      assert h in a.StartingOrRunningAt(i);
    }
    if a.StartingOrRunningAt(i) != [] {
      var h := a.StartingOrRunningAt(i)[0];
      assert h in a.StartingOrRunningAt(i);
    }
  }

  /** A staged app with nothing queued gets neither start nor stop exactly when it has converged. */
  lemma SilentIffConverged(a: AppSnapshot, conf: Config, now: int,
                           starts: map<StartKey, PendingStart>, stops: map<string, PendingStop>,
                           crashCounts: seq<CrashCount>)
    requires conf.Valid() && a.IsStaged() && NonNegativeIndices(a)
    requires AnalysisOf(a, conf, now, {}, {}, starts, stops, crashCounts)
    ensures starts == map[] && stops == map[] <==> Converged(a)
  {
    if Converged(a) {
      ConvergedNeedsNothing(a, now);
      assert starts.Keys == {};
      assert stops.Keys == {};
    }
    if starts == map[] && stops == map[] {
      SilentIsConverged(a, conf, now, starts, stops);
    }
  }

  lemma ConvergedNeedsNothing(a: AppSnapshot, now: int)
    requires a.IsStaged() && NonNegativeIndices(a) && Converged(a)
    ensures forall i :: !NeedsStart(a, i)
    ensures StopGuids(a, now, true) == {}
  {
    forall i ensures !NeedsStart(a, i) {
      CoveredIffInstance(a, i);
    }
    forall h | h in a.instanceHeartbeats ensures !NeedsStop(a, now, true, h) {
    }
  }

  lemma SilentIsConverged(a: AppSnapshot, conf: Config, now: int,
                          starts: map<StartKey, PendingStart>, stops: map<string, PendingStop>)
    requires conf.Valid() && a.IsStaged() && NonNegativeIndices(a)
    requires ExactStarts(a, conf, now, {}, starts) && starts == map[]
    requires ExactStops(a, conf, now, {}, true, stops) && stops == map[]
    ensures Converged(a)
  {
    forall i ensures !NeedsStart(a, i) {
      assert StartKey(a.appGuid, a.appVersion, i) !in starts;
    }
    assert StopGuids(a, now, true) == stops.Keys == {};
    forall h | h in a.instanceHeartbeats
      ensures NeedsStop(a, now, true, h) ==> h.instanceGuid in StopGuids(a, now, true)
    {
    }
    forall i | 0 <= i < a.desired.numberOfInstances ensures |a.StartingOrRunningAt(i)| == 1 {
      if !a.HasStartingOrRunningAt(i) {
        var j := SomeStartWhenUncovered(a, i);
      } else {
        CoveredIffInstance(a, i);
        var h := a.StartingOrRunningAt(i)[0];
        assert h in a.StartingOrRunningAt(i);
        assert !StopsAsDuplicate(a, h);
      }
    }
    forall h | h in a.instanceHeartbeats && h.IsEvacuating()
      ensures a.HasStartingAt(h.instanceIndex) && !a.HasRunningAt(h.instanceIndex)
    {
      assert !StopsAsEvacuating(a, now, h);
      assert !NeedsStart(a, h.instanceIndex);
    }
  }

  /** Missing and crashed starts carry a priority in (0,1]; evacuation starts carry 2. */
  lemma StartPriorities(a: AppSnapshot, conf: Config, now: int, index: int)
    requires conf.Valid() && NeedsStart(a, index)
    ensures var m := OwedStart(a, conf, now, index);
            if NeedsEvacuatingStart(a, index) then m.priority == 2.0 && m.startReason.EvacuatingStart?
            else 0.0 < m.priority <= 1.0 && !m.startReason.EvacuatingStart?
  {
    if !NeedsEvacuatingStart(a, index) {
      UncoveredIndexLowersCount(a, index, a.desired.numberOfInstances);
      var n := a.desired.numberOfInstances;
      var missing := n - a.CoveredIndices(n);
      assert 0 < missing <= n;
      RatioInUnit(missing, n);
    }
  }

  lemma RatioInUnit(p: int, q: int)
    requires 0 < p <= q
    ensures 0.0 < p as real / q as real <= 1.0
  {
  }

  lemma {:induction false} UncoveredIndexLowersCount(a: AppSnapshot, index: int, n: int)
    requires 0 <= index < n && !a.HasStartingOrRunningAt(index)
    ensures a.CoveredIndices(n) < n
    decreases n
  {
    if index == n - 1 {
      CoveredAtMost(a, n - 1);
    } else {
      UncoveredIndexLowersCount(a, index, n - 1);
    }
  }

  lemma {:induction false} CoveredAtMost(a: AppSnapshot, n: int)
    requires 0 <= n
    ensures a.CoveredIndices(n) <= n
    decreases n
  {
    if n > 0 {
      CoveredAtMost(a, n - 1);
    }
  }

  /** While an app is being given any new start, the only instances newly scheduled to stop are
      evacuating ones: no running copy is taken away. */
  lemma StartsGuardStops(a: AppSnapshot, conf: Config, now: int,
                         queuedStarts: set<StartKey>, queuedStops: set<string>,
                         starts: map<StartKey, PendingStart>, stops: map<string, PendingStop>,
                         crashCounts: seq<CrashCount>)
    requires conf.Valid() && DistinctGuids(a.instanceHeartbeats)
    requires AnalysisOf(a, conf, now, queuedStarts, queuedStops, starts, stops, crashCounts)
    requires starts != map[]
    ensures forall g :: g in stops ==> InstanceWithGuid(a.instanceHeartbeats, g).IsEvacuating()
  {
    forall g | g in stops ensures InstanceWithGuid(a.instanceHeartbeats, g).IsEvacuating() {
      var h :| h in a.instanceHeartbeats && NeedsStop(a, now, false, h) && h.instanceGuid == g;
      LookupFindsInstance(a.instanceHeartbeats, h);
    }
  }

  /** An app nobody desires gets no start, and a stop for every starting, running or evacuating
      instance that has none queued: dropping its starts loses nothing. */
  lemma UndesiredAppIsStopped(a: AppSnapshot, conf: Config, now: int,
                              queuedStarts: set<StartKey>, queuedStops: set<string>,
                              starts: map<StartKey, PendingStart>, stops: map<string, PendingStop>,
                              crashCounts: seq<CrashCount>)
    requires conf.Valid() && NonNegativeIndices(a) && a.desired == NOT_DESIRED
    requires AnalysisOf(a, conf, now, queuedStarts, queuedStops, starts, stops, crashCounts)
    ensures starts == map[] && crashCounts == []
    ensures forall h :: h in a.instanceHeartbeats && (h.IsStartingOrRunning() || h.IsEvacuating()) ==>
              (h.instanceGuid in stops <==> h.instanceGuid !in queuedStops)
  {
    assert forall k :: k !in starts;
    assert starts.Keys == {};
    forall h | h in a.instanceHeartbeats && (h.IsStartingOrRunning() || h.IsEvacuating())
      ensures h.instanceGuid in stops <==> h.instanceGuid !in queuedStops
    {
      assert NeedsStop(a, now, true, h);
      assert h.instanceGuid in StopGuids(a, now, true);
    }
  }

  /** With distinct instance guids an analysis is determined by the snapshot and the queues: the
      order in which indices and instances are visited cannot matter. */
  lemma AnalysisIsUnique(a: AppSnapshot, conf: Config, now: int,
                         queuedStarts: set<StartKey>, queuedStops: set<string>,
                         starts: map<StartKey, PendingStart>, stops: map<string, PendingStop>, counts: seq<CrashCount>,
                         starts': map<StartKey, PendingStart>, stops': map<string, PendingStop>,
                         counts': seq<CrashCount>)
    requires conf.Valid() && DistinctGuids(a.instanceHeartbeats)
    requires AnalysisOf(a, conf, now, queuedStarts, queuedStops, starts, stops, counts)
    requires AnalysisOf(a, conf, now, queuedStarts, queuedStops, starts', stops', counts')
    ensures starts == starts' && stops == stops' && counts == counts'
  {
    assert starts.Keys == starts'.Keys;
    assert starts == starts';
    forall g | g in stops ensures stops[g] == stops'[g] {
      JustificationIsUnique(a, conf, now, starts == map[], stops[g], stops'[g]);
    }
    assert stops == stops';
  }

  lemma JustificationIsUnique(a: AppSnapshot, conf: Config, now: int, quiet: bool, m: PendingStop, m': PendingStop)
    requires DistinctGuids(a.instanceHeartbeats) && m.instanceGuid == m'.instanceGuid
    requires Justified(a, conf, now, quiet, m) && Justified(a, conf, now, quiet, m')
    ensures m == m'
  {
    hide StopFor;
    var h :| h in a.instanceHeartbeats && StopFor(a, conf, now, quiet, h, m);
    var h' :| h' in a.instanceHeartbeats && StopFor(a, conf, now, quiet, h', m');
    StopForNamesInstance(a, conf, now, quiet, h, m);
    StopForNamesInstance(a, conf, now, quiet, h', m');
    LookupFindsInstance(a.instanceHeartbeats, h);
    LookupFindsInstance(a.instanceHeartbeats, h');
    assert h == h';
    StopForIsUnique(a, conf, now, quiet, h, m, m');
  }

  lemma StopForIsUnique(a: AppSnapshot, conf: Config, now: int, quiet: bool, h: InstanceHeartbeat, m: PendingStop,
                        m': PendingStop)
    requires DistinctGuids(a.instanceHeartbeats)
    requires StopFor(a, conf, now, quiet, h, m) && StopFor(a, conf, now, quiet, h, m')
    ensures m == m'
  {
    hide OwedStop, DuplicateMessage, HoldsPosition;
    PositionIsUnique(a, h);
  }

  lemma StopForNamesInstance(a: AppSnapshot, conf: Config, now: int, quiet: bool, h: InstanceHeartbeat, m: PendingStop)
    requires StopFor(a, conf, now, quiet, h, m)
    ensures m.instanceGuid == h.instanceGuid
  {
  }

  lemma PositionIsUnique(a: AppSnapshot, h: InstanceHeartbeat)
    requires DistinctGuids(a.instanceHeartbeats)
    ensures forall i, j :: HoldsPosition(a, h, i) && HoldsPosition(a, h, j) ==> i == j
  {
    DistinctAtIndex(a.instanceHeartbeats, h.instanceIndex);
    DistinctStartingOrRunning(AtIndex(a.instanceHeartbeats, h.instanceIndex));
  }
}
