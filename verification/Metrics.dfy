/** The counters emitted after an analysis, as one pass over the apps. */
module Metrics {
  import opened Apps
  import opened Collections
  import opened Models
  import opened Observations

  datatype Counter =
    | AppsWithAllInstancesReporting
    | AppsWithMissingInstances
    | UndesiredRunningApps
    | RunningInstances
    | MissingIndices
    | CrashedInstances
    | CrashedIndices
    | DesiredApps
    | DesiredInstances
    | DesiredAppsPendingStaging

  const COUNTERS := {AppsWithAllInstancesReporting, AppsWithMissingInstances, UndesiredRunningApps, RunningInstances,
                     MissingIndices, CrashedInstances, CrashedIndices, DesiredApps, DesiredInstances,
                     DesiredAppsPendingStaging}

  type Counts = map<Counter, int>

  ghost predicate AllCounted(counts: Counts) { forall c: Counter :: c in counts }

  // The apps that are counted as desired: those not still being staged.
  predicate CountsAsDesired(a: AppSnapshot) { a.IsDesired() && !a.desired.packageState.Pending? }

  function MissingOf(a: AppSnapshot): int {
    a.desired.numberOfInstances - a.ReportingIndices(a.desired.numberOfInstances)
  }

  // What one app contributes to a counter.
  function Contribution(a: AppSnapshot, c: Counter): int {
    match c
    case AppsWithAllInstancesReporting => if CountsAsDesired(a) && MissingOf(a) == 0 then 1 else 0
    case AppsWithMissingInstances => if CountsAsDesired(a) && MissingOf(a) != 0 then 1 else 0
    case UndesiredRunningApps => if !a.IsDesired() && a.HasStartingOrRunning() then 1 else 0
    case RunningInstances => |StartingOrRunning(a.instanceHeartbeats)|
    case MissingIndices => if CountsAsDesired(a) then MissingOf(a) else 0
    case CrashedInstances => |CrashedOf(a.instanceHeartbeats)|
    case CrashedIndices => |a.CrashedIndices()|
    case DesiredApps => if CountsAsDesired(a) then 1 else 0
    case DesiredInstances => if CountsAsDesired(a) then a.desired.numberOfInstances else 0
    case DesiredAppsPendingStaging => if a.IsDesired() && a.desired.packageState.Pending? then 1 else 0
  }

  ghost function Total(apps: map<AppKey, AppSnapshot>, keys: set<AppKey>, c: Counter): int
    requires keys <= apps.Keys
  {
    if keys == {} then 0 else Contribution(apps[Pick(keys)], c) + Total(apps, keys - {Pick(keys)}, c)
  }

  lemma {:induction false} TotalPlusOne(apps: map<AppKey, AppSnapshot>, keys: set<AppKey>, k: AppKey, c: Counter)
    requires keys <= apps.Keys && k in apps && k !in keys
    ensures Total(apps, keys + {k}, c) == Total(apps, keys, c) + Contribution(apps[k], c)
    decreases keys
  {
    hide Contribution;
    var p := Pick(keys + {k});
    if p == k {
      assert keys + {k} - {k} == keys;
    } else {
      assert keys + {k} - {p} == (keys - {p}) + {k};
      TotalPlusOne(apps, keys - {p}, k, c);
      TotalMinusOne(apps, keys, p, c);
    }
  }

  lemma {:induction false} TotalMinusOne(apps: map<AppKey, AppSnapshot>, keys: set<AppKey>, k: AppKey, c: Counter)
    requires keys <= apps.Keys && k in keys
    ensures Total(apps, keys, c) == Total(apps, keys - {k}, c) + Contribution(apps[k], c)
    decreases keys, 0
  {
    hide Contribution;
    var p := Pick(keys);
    if p != k {
      TotalMinusOne(apps, keys - {p}, k, c);
      TotalMinusOne(apps, keys - {k}, p, c);
      assert keys - {p} - {k} == keys - {k} - {p};
    }
  }

  function AddToCounter(counts: Counts, c: Counter, increment: int): Counts {
    counts[c := (if c in counts then counts[c] else 0) + increment]
  }

  method CountApp(counts: Counts, a: AppSnapshot) returns (counts': Counts)
    requires AllCounted(counts)
    ensures AllCounted(counts')
    ensures forall c: Counter :: counts'[c] == counts[c] + Contribution(a, c)
  {
    hide AppSnapshot.ReportingIndices, AppSnapshot.HasStartingOrRunning, AppSnapshot.CrashedIndices,
         StartingOrRunning, CrashedOf;
    var app := new App(a);
    counts' := counts;
    if a.IsDesired() {
      if a.desired.packageState.Pending? {
        counts' := AddToCounter(counts', DesiredAppsPendingStaging, 1);
      } else {
        counts' := AddToCounter(counts', DesiredApps, 1);
        counts' := AddToCounter(counts', DesiredInstances, a.desired.numberOfInstances);
        var reporting := app.NumberOfDesiredIndicesReporting();
        var missing := a.desired.numberOfInstances - reporting;
        if missing == 0 {
          counts' := AddToCounter(counts', AppsWithAllInstancesReporting, 1);
        } else {
          counts' := AddToCounter(counts', AppsWithMissingInstances, 1);
          counts' := AddToCounter(counts', MissingIndices, missing);
        }
      }
    } else {
      var runs := app.HasStartingOrRunningInstances();
      if runs {
        counts' := AddToCounter(counts', UndesiredRunningApps, 1);
      }
    }
    counts' := CountInstances(counts', app);
  }

  // The counters that are counted for every app, desired or not.
  method CountInstances(counts: Counts, app: App) returns (counts': Counts)
    requires AllCounted(counts) && app.Valid()
    modifies app`table
    ensures AllCounted(counts')
    ensures forall c: Counter :: counts'[c] ==
              counts[c] +
              if c in {RunningInstances, CrashedInstances, CrashedIndices} then Contribution(app.Snapshot(), c) else 0
  {
    hide AppSnapshot.CrashedIndices, StartingOrRunning, CrashedOf;
    var running := app.NumberOfStartingOrRunningInstances();
    counts' := AddToCounter(counts, RunningInstances, running);
    var crashed := app.NumberOfCrashedInstances();
    counts' := AddToCounter(counts', CrashedInstances, crashed);
    var crashedIndices := app.NumberOfCrashedIndices();
    counts' := AddToCounter(counts', CrashedIndices, crashedIndices);
  }

  /** Every counter is the sum of what the apps contribute, whatever order they are visited in; after
      a failed analysis every counter is -1. */
  method CountApps(apps: Option<map<AppKey, AppSnapshot>>) returns (counts: Counts)
    ensures AllCounted(counts)
    ensures apps.Some? ==> forall c: Counter :: counts[c] == Total(apps.value, apps.value.Keys, c)
    ensures apps.None? ==> forall c: Counter :: counts[c] == -1
  {
    forall c: Counter ensures c in COUNTERS {
      match c
      case AppsWithAllInstancesReporting =>
      case AppsWithMissingInstances =>
      case UndesiredRunningApps =>
      case RunningInstances =>
      case MissingIndices =>
      case CrashedInstances =>
      case CrashedIndices =>
      case DesiredApps =>
      case DesiredInstances =>
      case DesiredAppsPendingStaging =>
    }
    if apps.None? {
      return map c | c in COUNTERS :: -1;
    }
    counts := map c | c in COUNTERS :: 0;
    var remaining := apps.value.Keys;
    ghost var done: set<AppKey> := {};
    while remaining != {}
      invariant done + remaining == apps.value.Keys && done !! remaining
      invariant AllCounted(counts)
      invariant forall c: Counter :: counts[c] == Total(apps.value, done, c)
      decreases remaining
    {
      var k := PickAny(remaining);
      remaining := remaining - {k};
      forall c: Counter
        ensures Total(apps.value, done + {k}, c) == Total(apps.value, done, c) + Contribution(apps.value[k], c)
      {
        TotalPlusOne(apps.value, done, k, c);
      }
      counts := CountApp(counts, apps.value[k]);
      done := done + {k};
    }
  }

  lemma {:induction false} ReportingAtMost(a: AppSnapshot, n: int)
    requires 0 <= n
    ensures a.ReportingIndices(n) <= n
    decreases n
  {
    if n > 0 {
      ReportingAtMost(a, n - 1);
    }
  }

  // The desired indices that report, over the apps that count as desired.
  ghost function ReportingTotal(apps: map<AppKey, AppSnapshot>, keys: set<AppKey>): int
    requires keys <= apps.Keys
  {
    if keys == {} then 0
    else
      var a := apps[Pick(keys)];
      (if CountsAsDesired(a) then a.ReportingIndices(a.desired.numberOfInstances) else 0) +
      ReportingTotal(apps, keys - {Pick(keys)})
  }

  /** The counters add up: every desired app either has all instances reporting or misses some, and
      the missing indices are the desired ones less those that report, never fewer than none; and no more
      indices count as crashed than instances have crashed. */
  lemma {:induction false} CountersAddUp(apps: map<AppKey, AppSnapshot>, keys: set<AppKey>)
    requires keys <= apps.Keys && forall k :: k in apps ==> 0 <= apps[k].desired.numberOfInstances
    ensures Total(apps, keys, AppsWithAllInstancesReporting) + Total(apps, keys, AppsWithMissingInstances) ==
              Total(apps, keys, DesiredApps)
    ensures Total(apps, keys, MissingIndices) == Total(apps, keys, DesiredInstances) - ReportingTotal(apps, keys)
    ensures 0 <= Total(apps, keys, MissingIndices)
    ensures Total(apps, keys, MissingIndices) == 0 <==> Total(apps, keys, AppsWithMissingInstances) == 0
    ensures 0 <= Total(apps, keys, AppsWithMissingInstances)
    ensures 0 <= Total(apps, keys, CrashedIndices) <= Total(apps, keys, CrashedInstances)
    decreases keys
  {
    hide AppSnapshot.ReportingIndices, AppSnapshot.CrashedIndices, CrashedOf;
    if keys != {} {
      var a := apps[Pick(keys)];
      CountersAddUp(apps, keys - {Pick(keys)});
      ReportingAtMost(a, a.desired.numberOfInstances);
      CrashedIndicesAtMost(a);
    }
  }

  // ---------- what is counted ----------

  ghost function SeenPositions(a: AppSnapshot, n: nat, states: set<InstanceState>): set<int>
    requires n <= |a.instanceHeartbeats|
  {
    set p | 0 <= p < n && a.instanceHeartbeats[p].state in states
  }

  lemma {:induction false} FiltersCount(a: AppSnapshot, n: nat)
    requires n <= |a.instanceHeartbeats|
    ensures |StartingOrRunning(a.instanceHeartbeats[..n])| == |SeenPositions(a, n, {Starting, Running})|
    ensures |CrashedOf(a.instanceHeartbeats[..n])| == |SeenPositions(a, n, {Crashed})|
  {
    if n > 0 {
      FiltersCount(a, n - 1);
      OneMorePosition(a, n - 1, {Starting, Running});
      OneMorePosition(a, n - 1, {Crashed});
      hide StartingOrRunning, CrashedOf, SeenPositions;
      NextStartingOrRunning(a.instanceHeartbeats, n - 1);
      NextCrashed(a.instanceHeartbeats, n - 1);
    } else {
      assert SeenPositions(a, 0, {Starting, Running}) == {} && SeenPositions(a, 0, {Crashed}) == {};
    }
  }

  lemma OneMorePosition(a: AppSnapshot, n: nat, states: set<InstanceState>)
    requires n < |a.instanceHeartbeats|
    ensures |SeenPositions(a, n + 1, states)| ==
            |SeenPositions(a, n, states)| + (if a.instanceHeartbeats[n].state in states then 1 else 0)
  {
    assert SeenPositions(a, n + 1, states) ==
           SeenPositions(a, n, states) + (if a.instanceHeartbeats[n].state in states then {n} else {});
  }

  // The indices below n for which nothing is reported.
  ghost function SilentBelow(a: AppSnapshot, n: int): set<int> { set i | 0 <= i < n && IsSilent(a, i) }

  ghost predicate IsSilent(a: AppSnapshot, index: int) {
    forall h :: h in a.instanceHeartbeats ==> h.instanceIndex != index
  }

  ghost function SilentIndices(a: AppSnapshot): set<int> { SilentBelow(a, a.desired.numberOfInstances) }

  lemma {:induction false} SilentOrReporting(a: AppSnapshot, n: nat)
    ensures |SilentBelow(a, n)| + a.ReportingIndices(n) == n
  {
    if n == 0 {
      assert SilentBelow(a, n) == {};
    } else {
      SilentOrReporting(a, n - 1);
      var reports := AtIndex(a.instanceHeartbeats, n - 1) != [];
      assert reports <==> exists h :: h in a.instanceHeartbeats && h.instanceIndex == n - 1 by {
        if reports {
          assert AtIndex(a.instanceHeartbeats, n - 1)[0] in a.instanceHeartbeats;
        }
      }
      assert SilentBelow(a, n) == SilentBelow(a, n - 1) + (if reports then {} else {n - 1});
    }
  }

  // The indices at which something has crashed and nothing starts or runs.
  ghost function DownIndices(a: AppSnapshot): set<int> {
    set h | h in a.instanceHeartbeats && h.state == Crashed && !Seen(a, h.instanceIndex, {Starting, Running}) ::
      h.instanceIndex
  }

  /** What an app adds to the counters of instances and indices: its starting and running instances, its crashed
      ones, the indices where all have crashed and, if it is desired and not about to be staged, the instances
      desired of it and the indices that report nothing. */
  lemma InstancesCounted(a: AppSnapshot)
    requires 0 <= a.desired.numberOfInstances
    ensures Contribution(a, RunningInstances) ==
            |set p | 0 <= p < |a.instanceHeartbeats| && a.instanceHeartbeats[p].state in {Starting, Running}|
    ensures Contribution(a, CrashedInstances) ==
            |set p | 0 <= p < |a.instanceHeartbeats| && a.instanceHeartbeats[p].state == Crashed|
    ensures Contribution(a, CrashedIndices) == |DownIndices(a)|
    ensures var counts := a.desired.appGuid != "" && a.desired.packageState != Pending;
            && Contribution(a, DesiredInstances) == (if counts then a.desired.numberOfInstances else 0)
            && Contribution(a, MissingIndices) == (if counts then |SilentIndices(a)| else 0)
  {
    hide StartingOrRunning, CrashedOf, AppSnapshot.CrashedIndices, AppSnapshot.ReportingIndices, DownIndices,
         SilentBelow;
    PositionsCounted(a);
    SilentOrReporting(a, a.desired.numberOfInstances);
    DownAreCrashed(a);
  }

  lemma PositionsCounted(a: AppSnapshot)
    ensures |StartingOrRunning(a.instanceHeartbeats)| ==
            |set p | 0 <= p < |a.instanceHeartbeats| && a.instanceHeartbeats[p].state in {Starting, Running}|
    ensures |CrashedOf(a.instanceHeartbeats)| ==
            |set p | 0 <= p < |a.instanceHeartbeats| && a.instanceHeartbeats[p].state == Crashed|
  {
    hide StartingOrRunning, CrashedOf;
    var n := |a.instanceHeartbeats|;
    assert a.instanceHeartbeats[..n] == a.instanceHeartbeats;
    FiltersCount(a, n);
    assert SeenPositions(a, n, {Starting, Running}) ==
           set p | 0 <= p < |a.instanceHeartbeats| && a.instanceHeartbeats[p].state in {Starting, Running};
    assert SeenPositions(a, n, {Crashed}) ==
           set p | 0 <= p < |a.instanceHeartbeats| && a.instanceHeartbeats[p].state == Crashed;
  }

  lemma DownAreCrashed(a: AppSnapshot)
    ensures a.CrashedIndices() == DownIndices(a)
  {
    forall i ensures i in a.CrashedIndices() <==> i in DownIndices(a) {
      QueriesSee(a, i);
    }
  }

  lemma {:induction false} TotalIsSize(apps: map<AppKey, AppSnapshot>, keys: set<AppKey>, c: Counter,
                                       counted: set<AppKey>)
    requires keys <= apps.Keys && counted <= keys
    requires forall k :: k in keys ==> Contribution(apps[k], c) == if k in counted then 1 else 0
    ensures Total(apps, keys, c) == |counted|
    decreases keys
  {
    hide Contribution;
    if keys != {} {
      var k := Pick(keys);
      TotalIsSize(apps, keys - {k}, c, counted - {k});
    }
  }

  /** The counters of apps count, in this order: the apps running undesired, those desired, those desired but
      still to be staged, and of the desired ones those that report for every index and those that do not. */
  lemma AppsCounted(apps: map<AppKey, AppSnapshot>)
    requires forall k :: k in apps ==> 0 <= apps[k].desired.numberOfInstances
    ensures Total(apps, apps.Keys, UndesiredRunningApps) ==
            |set k | k in apps && apps[k].desired.appGuid == "" && SeenAnywhere(apps[k], {Starting, Running})|
    ensures Total(apps, apps.Keys, DesiredApps) ==
            |set k | k in apps && apps[k].desired.appGuid != "" && apps[k].desired.packageState != Pending|
    ensures Total(apps, apps.Keys, DesiredAppsPendingStaging) ==
            |set k | k in apps && apps[k].desired.appGuid != "" && apps[k].desired.packageState == Pending|
    ensures Total(apps, apps.Keys, AppsWithAllInstancesReporting) ==
            |set k | k in apps && apps[k].desired.appGuid != "" && apps[k].desired.packageState != Pending &&
                     SilentIndices(apps[k]) == {}|
    ensures Total(apps, apps.Keys, AppsWithMissingInstances) ==
            |set k | k in apps && apps[k].desired.appGuid != "" && apps[k].desired.packageState != Pending &&
                     SilentIndices(apps[k]) != {}|
  {
    forall k | k in apps ensures AppCounted(apps[k]) {
      AppIsCounted(apps[k]);
    }
    hide Contribution, SeenAnywhere, SilentIndices;
    TotalIsSize(apps, apps.Keys, UndesiredRunningApps,
                set k | k in apps && apps[k].desired.appGuid == "" && SeenAnywhere(apps[k], {Starting, Running}));
    TotalIsSize(apps, apps.Keys, DesiredApps,
                set k | k in apps && apps[k].desired.appGuid != "" && apps[k].desired.packageState != Pending);
    TotalIsSize(apps, apps.Keys, DesiredAppsPendingStaging,
                set k | k in apps && apps[k].desired.appGuid != "" && apps[k].desired.packageState == Pending);
    TotalIsSize(apps, apps.Keys, AppsWithAllInstancesReporting,
                set k | k in apps && apps[k].desired.appGuid != "" && apps[k].desired.packageState != Pending &&
                        SilentIndices(apps[k]) == {});
    TotalIsSize(apps, apps.Keys, AppsWithMissingInstances,
                set k | k in apps && apps[k].desired.appGuid != "" && apps[k].desired.packageState != Pending &&
                        SilentIndices(apps[k]) != {});
  }

  // What the app adds to the counters of apps.
  ghost predicate AppCounted(a: AppSnapshot) {
    var desired, pending, silent := a.desired.appGuid != "", a.desired.packageState == Pending, SilentIndices(a);
    && Contribution(a, UndesiredRunningApps) == (if !desired && SeenAnywhere(a, {Starting, Running}) then 1 else 0)
    && Contribution(a, DesiredApps) == (if desired && !pending then 1 else 0)
    && Contribution(a, DesiredAppsPendingStaging) == (if desired && pending then 1 else 0)
    && Contribution(a, AppsWithAllInstancesReporting) == (if desired && !pending && silent == {} then 1 else 0)
    && Contribution(a, AppsWithMissingInstances) == (if desired && !pending && silent != {} then 1 else 0)
  }

  lemma AppIsCounted(a: AppSnapshot)
    requires 0 <= a.desired.numberOfInstances
    ensures AppCounted(a)
  {
    QueriesSee(a, 0);
    SilentOrReporting(a, a.desired.numberOfInstances);
    hide AppSnapshot.HasStartingOrRunning, SeenAnywhere, SilentBelow, AppSnapshot.CrashedIndices,
         AppSnapshot.ReportingIndices, StartingOrRunning, CrashedOf;
  }
}
