/** The analyzer: consumes the desired apps batch by batch, analyzes every app that is desired or
    running, and queues the new messages only when the whole desired state has been seen. */
module Analyzers {
  import opened Adapters
  import opened AppAnalysis
  import opened AppAnalyzers
  import opened Apps
  import opened Collections
  import opened Freshness
  import opened Models
  import opened PendingStores
  import opened SendDecisions

  type Batch = map<AppKey, DesiredAppState>

  // A batch is keyed by its apps, as the fetcher builds it.
  ghost predicate KeyedBatch(b: Batch) { forall k :: k in b ==> b[k].StoreKey() == k }

  ghost function DesiredKeys(batches: seq<Batch>): set<AppKey> {
    if batches == [] then {} else DesiredKeys(batches[..|batches| - 1]) + batches[|batches| - 1].Keys
  }

  ghost predicate DisjointBatches(batches: seq<Batch>) {
    forall i, j :: 0 <= i < j < |batches| ==> batches[i].Keys !! batches[j].Keys
  }

  // The apps the store reports: keyed by app, and not yet told what is desired.
  ghost predicate ActualApps(apps: map<AppKey, AppSnapshot>) {
    forall k :: k in apps ==> apps[k].Key() == k && apps[k].desired == NOT_DESIRED
  }

  // The snapshot that is analyzed for a desired app.
  function WithDesired(apps: map<AppKey, AppSnapshot>, d: DesiredAppState): AppSnapshot {
    if d.StoreKey() in apps then apps[d.StoreKey()].(desired := d)
    else AppSnapshot(d.appGuid, d.appVersion, d, [], map[])
  }

  // No start is queued for the app in this round.
  ghost predicate Quiet(a: AppSnapshot, queued: set<StartKey>) {
    forall i {:trigger NeedsStart(a, i)} :: NeedsStart(a, i) ==> StartKey(a.appGuid, a.appVersion, i) in queued
  }

  datatype Round = Round(conf: Config, now: int, existingStarts: map<StartKey, PendingStart>,
                         existingStops: map<string, PendingStop>)

  function AppOf(k: StartKey): AppKey { AppKey(k.appGuid, k.appVersion) }

  // The new starts are exactly those that the desired apps among `apps` need.
  ghost predicate StartsTally(r: Round, apps: map<AppKey, AppSnapshot>, desired: set<AppKey>,
                              starts: map<StartKey, PendingStart>)
    requires r.conf.Valid() && desired <= apps.Keys
  {
    && (forall k :: k in starts <==>
          AppOf(k) in desired && k !in r.existingStarts && NeedsStart(apps[AppOf(k)], k.index))
    && (forall k :: k in starts ==> starts[k] == OwedStart(apps[AppOf(k)], r.conf, r.now, k.index))
  }

  ghost predicate StopOwed(r: Round, a: AppSnapshot, m: PendingStop) {
    && m.instanceGuid !in r.existingStops
    && m.instanceGuid in StopGuids(a, r.now, Quiet(a, r.existingStarts.Keys))
    && Justified(a, r.conf, r.now, Quiet(a, r.existingStarts.Keys), m)
  }

  // No two apps report an instance under the same guid.
  ghost predicate OneOwner(apps: map<AppKey, AppSnapshot>, done: set<AppKey>)
    requires done <= apps.Keys
  {
    forall j, k :: j in done && k in done && j != k ==>
      GuidsOf(apps[j].instanceHeartbeats) !! GuidsOf(apps[k].instanceHeartbeats)
  }

  // Every new stop is owed to an instance of one of the apps, every stop owed is there, and no two
  // of them are for the same instance.
  ghost predicate StopsTally(r: Round, apps: map<AppKey, AppSnapshot>, done: set<AppKey>, stops: seq<PendingStop>)
    requires done <= apps.Keys
  {
    && (forall m :: m in stops ==> exists k :: k in done && StopOwed(r, apps[k], m))
    && (forall k, g ::
          k in done && g in StopGuids(apps[k], r.now, Quiet(apps[k], r.existingStarts.Keys)) && g !in r.existingStops
          ==> g in StopKeys(stops))
    && (OneOwner(apps, done) ==> Lists(StopsByKey(stops), stops))
  }

  ghost predicate CountsTally(r: Round, apps: map<AppKey, AppSnapshot>, done: set<AppKey>, counts: seq<CrashCount>)
    requires done <= apps.Keys
  {
    forall c :: c in counts <==> exists k :: k in done && CountRaised(r, apps[k], c)
  }

  datatype Progress = Progress(
    apps: map<AppKey, AppSnapshot>,
    newStarts: seq<PendingStart>,
    newStops: seq<PendingStop>,
    crashCounts: seq<CrashCount>)

  ghost predicate Tallied(r: Round, desired: set<AppKey>, done: set<AppKey>, p: Progress)
    requires r.conf.Valid()
  {
    && desired <= done <= p.apps.Keys
    && Lists(StartsByKey(p.newStarts), p.newStarts)
    && StartsTally(r, p.apps, desired, StartsByKey(p.newStarts))
    && StopsTally(r, p.apps, done, p.newStops)
    && CountsTally(r, p.apps, done, p.crashCounts)
  }

  // Whatever the batches look like, nothing that is already queued is queued again.
  ghost predicate OnlyNew(r: Round, p: Progress) {
    && (forall m :: m in p.newStarts ==> m.StoreKey() !in r.existingStarts && !m.HasBeenSent())
    && (forall m :: m in p.newStops ==> m.StoreKey() !in r.existingStops && !m.HasBeenSent())
  }

  // A start that an app needs and that is not queued yet.
  ghost predicate StartOwed(r: Round, a: AppSnapshot, m: PendingStart)
    requires r.conf.Valid()
  {
    && NeedsStart(a, m.indexToStart) && m == OwedStart(a, r.conf, r.now, m.indexToStart)
    && m.StoreKey() !in r.existingStarts
  }

  /** The new messages are those that the given snapshots call for, also where one app was analyzed more
      than once: exactly the starts owed to a desired app, only stops owed to an app and one for each
      instance they are owed to, and exactly the crash counts to be raised. */
  ghost predicate Gathered(r: Round, desired: set<AppSnapshot>, all: set<AppSnapshot>, p: Progress)
    requires r.conf.Valid()
  {
    && (forall m :: m in p.newStarts <==> exists a :: a in desired && StartOwed(r, a, m))
    && (forall m :: m in p.newStops ==> exists a :: a in all && StopOwed(r, a, m))
    && (forall a, g ::
          a in all && g in StopGuids(a, r.now, Quiet(a, r.existingStarts.Keys)) && g !in r.existingStops
          ==> g in StopKeys(p.newStops))
    && (forall c :: c in p.crashCounts <==> exists a :: a in all && CountRaised(r, a, c))
  }

  // ---------- how often a start is called for ----------

  // How often each key occurs in a list.
  ghost function KeysOf(ms: seq<PendingStart>): multiset<StartKey> {
    if ms == [] then multiset{} else KeysOf(ms[..|ms| - 1]) + multiset{ms[|ms| - 1].StoreKey()}
  }

  ghost predicate OwesKey(r: Round, a: AppSnapshot, key: StartKey) {
    OfApp(a, key) && key !in r.existingStarts && NeedsStart(a, key.index)
  }

  // Whether a batch calls for a start under the key, as far as it has been worked through.
  ghost function Calls(r: Round, actual: map<AppKey, AppSnapshot>, batch: Batch, done: set<AppKey>, key: StartKey)
    : nat
  {
    var k := AppOf(key);
    if k in done && k in batch && OwesKey(r, WithDesired(actual, batch[k]), key) then 1 else 0
  }

  // How many batches call for a start under the key.
  ghost function TimesCalled(r: Round, actual: map<AppKey, AppSnapshot>, batches: seq<Batch>, key: StartKey): nat {
    if batches == [] then 0
    else
      var last := batches[|batches| - 1];
      TimesCalled(r, actual, batches[..|batches| - 1], key) + Calls(r, actual, last, last.Keys, key)
  }

  ghost predicate AppCalled(r: Round, a: AppSnapshot, before: seq<PendingStart>, after: seq<PendingStart>) {
    forall key :: KeysOf(after)[key] == KeysOf(before)[key] + if OwesKey(r, a, key) then 1 else 0
  }

  ghost predicate BatchCalled(r: Round, actual: map<AppKey, AppSnapshot>, batch: Batch, done: set<AppKey>,
                              before: seq<PendingStart>, after: seq<PendingStart>) {
    forall key :: KeysOf(after)[key] == KeysOf(before)[key] + Calls(r, actual, batch, done, key)
  }

  ghost predicate AllCalled(r: Round, actual: map<AppKey, AppSnapshot>, batches: seq<Batch>,
                            starts: seq<PendingStart>) {
    forall key :: KeysOf(starts)[key] == TimesCalled(r, actual, batches, key)
  }

  lemma KeysOfLast(ms: seq<PendingStart>, m: PendingStart)
    ensures KeysOf(ms + [m]) == KeysOf(ms) + multiset{m.StoreKey()}
  {
    assert (ms + [m])[..|ms|] == ms;
  }

  lemma NoKeys()
    ensures KeysOf([]) == multiset{}
  {
  }

  lemma {:induction false} KeysOfAppend(a: seq<PendingStart>, b: seq<PendingStart>)
    ensures KeysOf(a + b) == KeysOf(a) + KeysOf(b)
  {
    hide KeysOf;
    if b == [] {
      NoKeys();
      assert a + b == a;
    } else {
      var init, last := b[..|b| - 1], b[|b| - 1];
      KeysOfAppend(a, init);
      KeysOfLast(a + init, last);
      KeysOfLast(init, last);
      assert a + b == (a + init) + [last] && b == init + [last];
    }
  }

  lemma {:induction false} KeysOfSize(ms: seq<PendingStart>)
    ensures |KeysOf(ms)| == |ms|
    ensures forall m :: m in ms ==> m.StoreKey() in KeysOf(ms)
    ensures forall key :: key in KeysOf(ms) ==> key in StartKeys(ms)
  {
    if ms != [] {
      var init, last := ms[..|ms| - 1], ms[|ms| - 1];
      assert ms == init + [last];
      KeysOfSize(init);
    }
  }

  // A list of all messages of a queue has every key once.
  lemma ListedKeys(queue: map<StartKey, PendingStart>, ms: seq<PendingStart>)
    requires Lists(queue, ms) && forall k :: k in queue ==> queue[k].StoreKey() == k
    ensures KeysOf(ms) == multiset(queue.Keys)
  {
    KeysOfSize(ms);
    forall k | k in queue ensures k in KeysOf(ms) {
      assert queue[k] in ms;
    }
    assert multiset(queue.Keys) <= KeysOf(ms);
    assert |multiset(queue.Keys)| == |queue| == |KeysOf(ms)|;
    SameSize(multiset(queue.Keys), KeysOf(ms));
  }

  lemma SameSize<T>(a: multiset<T>, b: multiset<T>)
    requires a <= b && |a| == |b|
    ensures a == b
  {
    assert |b - a| == 0;
    assert b == a + (b - a);
  }

  lemma CallApp(r: Round, a: AppSnapshot, before: seq<PendingStart>, starts: seq<PendingStart>,
                startMap: map<StartKey, PendingStart>)
    requires r.conf.Valid() && ExactStarts(a, r.conf, r.now, r.existingStarts.Keys, startMap) && Lists(startMap, starts)
    requires forall k :: k in startMap ==> startMap[k].StoreKey() == k
    ensures AppCalled(r, a, before, before + starts)
  {
    hide NeedsStart, OwedStart, Lists, KeysOf;
    KeysOfAppend(before, starts);
    ListedKeys(startMap, starts);
  }

  lemma CallAnalyzed(r: Round, a: AppSnapshot, before: seq<PendingStart>, starts: seq<PendingStart>,
                     counts: seq<CrashCount>, startMap: map<StartKey, PendingStart>, stopMap: map<string, PendingStop>)
    requires r.conf.Valid() && Lists(startMap, starts)
    requires AnalysisOf(a, r.conf, r.now, r.existingStarts.Keys, r.existingStops.Keys, startMap, stopMap, counts)
    ensures AppCalled(r, a, before, before + starts)
  {
    hide ExactStarts, ExactStops, CrashIncrements, Lists, AppCalled;
    AnalysisIsNew(a, r, startMap, stopMap, counts);
    CallApp(r, a, before, starts, startMap);
  }

  lemma CallOneMore(r: Round, actual: map<AppKey, AppSnapshot>, batch: Batch, done: set<AppKey>, k: AppKey,
                    before: seq<PendingStart>, mid: seq<PendingStart>, after: seq<PendingStart>)
    requires KeyedBatch(batch) && k in batch && k !in done && WithDesired(actual, batch[k]).Key() == k
    requires BatchCalled(r, actual, batch, done, before, mid)
    requires AppCalled(r, WithDesired(actual, batch[k]), mid, after)
    ensures BatchCalled(r, actual, batch, done + {k}, before, after)
  {
    hide NeedsStart, WithDesired, KeysOf;
  }

  lemma CallNothing(r: Round, actual: map<AppKey, AppSnapshot>, batch: Batch, starts: seq<PendingStart>)
    ensures BatchCalled(r, actual, batch, {}, starts, starts)
    ensures AllCalled(r, actual, [], [])
  {
    hide OwesKey;
  }

  lemma CallBatch(r: Round, actual: map<AppKey, AppSnapshot>, batches: seq<Batch>, i: nat,
                  before: seq<PendingStart>, after: seq<PendingStart>)
    requires i < |batches| && AllCalled(r, actual, batches[..i], before)
    requires BatchCalled(r, actual, batches[i], batches[i].Keys, before, after)
    ensures AllCalled(r, actual, batches[..i + 1], after)
  {
    hide Calls, KeysOf;
    assert batches[..i + 1][..i] == batches[..i];
  }

  // The list handed to the sender is that of the stored starts and after it the new ones.
  ghost predicate HandedOn(r: Round, actual: map<AppKey, AppSnapshot>, batches: seq<Batch>, p: Progress,
                           startMessages: seq<PendingStart>) {
    && AllCalled(r, actual, batches, p.newStarts)
    && (exists stored :: Lists(r.existingStarts, stored) && startMessages == stored + p.newStarts)
  }

  ghost predicate CountRaised(r: Round, a: AppSnapshot, c: CrashCount) {
    c in CrashIncrements(a, r.existingStarts.Keys, r.now, a.desired.numberOfInstances)
  }

  // What is analyzed: every app of every batch as that batch desires it, and what no batch names.
  ghost function DesiredSnapshots(actual: map<AppKey, AppSnapshot>, batches: seq<Batch>): set<AppSnapshot> {
    set i, k | 0 <= i < |batches| && k in batches[i] :: WithDesired(actual, batches[i][k])
  }

  ghost function RemovedSnapshots(actual: map<AppKey, AppSnapshot>, desired: set<AppKey>): set<AppSnapshot> {
    AppsAt(actual, actual.Keys - desired)
  }

  ghost function AppsAt(apps: map<AppKey, AppSnapshot>, keys: set<AppKey>): set<AppSnapshot> {
    set k | k in keys && k in apps :: apps[k]
  }

  // ---------- lists of a map's values ----------

  method ValuesOf<K, M(==)>(m: map<K, M>) returns (s: seq<M>)
    ensures Lists(m, s)
  {
    hide Lists;
    s := [];
    var remaining := m.Keys;
    NothingListed<K, M>();
    assert m - remaining == map[];
    while remaining != {}
      invariant remaining <= m.Keys
      invariant Lists(m - remaining, s)
      decreases remaining
    {
      var k := PickAny(remaining);
      assert m - (remaining - {k}) == (m - remaining)[k := m[k]];
      ListsOneMore(m - remaining, s, k, m[k]);
      s := s + [m[k]];
      remaining := remaining - {k};
    }
    assert m - {} == m;
  }

  lemma NothingListed<K, M>()
    ensures Lists<K, M>(map[], [])
  {
  }

  lemma ListsOneMore<K, M>(q: map<K, M>, s: seq<M>, k: K, v: M)
    requires Lists(q, s) && k !in q
    ensures Lists(q[k := v], s + [v])
  {
    var q' := q[k := v];
    forall m | m in s + [v] ensures m in q'.Values {
      if m in s {
        var j :| j in q && q[j] == m;
        assert q'[j] == m;
      } else {
        assert q'[k] == m;
      }
    }
  }

  lemma ListedStarts(m: map<StartKey, PendingStart>, s: seq<PendingStart>)
    requires Lists(m, s) && forall k :: k in m ==> m[k].StoreKey() == k
    ensures StartsByKey(s) == m
  {
    var r := StartsByKey(s);
    forall k | k in r ensures k in m && r[k] == m[k] {
      var j :| j in m && m[j] == r[k];
    }
    forall k | k in m ensures k in r {
      assert m[k] in s;
    }
  }

  lemma ListedStops(m: map<string, PendingStop>, s: seq<PendingStop>)
    requires Lists(m, s) && forall k :: k in m ==> m[k].StoreKey() == k
    ensures StopsByKey(s) == m
  {
    var r := StopsByKey(s);
    forall k | k in r ensures k in m && r[k] == m[k] {
      var j :| j in m && m[j] == r[k];
    }
    forall k | k in m ensures k in r {
      assert m[k] in s;
    }
  }

  lemma UpdateAfterUnion<K, V>(a: map<K, V>, b: map<K, V>, k: K, v: V)
    ensures a + b[k := v] == (a + b)[k := v]
  {
  }

  lemma {:induction false} StartsByKeyAppend(a: seq<PendingStart>, b: seq<PendingStart>)
    ensures StartsByKey(a + b) == StartsByKey(a) + StartsByKey(b)
  {
    if b == [] {
      assert a + b == a;
    } else {
      var init, last := b[..|b| - 1], b[|b| - 1];
      assert (a + b)[..|a + b| - 1] == a + init;
      StartsByKeyAppend(a, init);
      UpdateAfterUnion(StartsByKey(a), StartsByKey(init), last.StoreKey(), last);
    }
  }

  lemma {:induction false} StopsByKeyAppend(a: seq<PendingStop>, b: seq<PendingStop>)
    ensures StopsByKey(a + b) == StopsByKey(a) + StopsByKey(b)
  {
    if b == [] {
      assert a + b == a;
    } else {
      var init, last := b[..|b| - 1], b[|b| - 1];
      assert (a + b)[..|a + b| - 1] == a + init;
      StopsByKeyAppend(a, init);
      UpdateAfterUnion(StopsByKey(a), StopsByKey(init), last.StoreKey(), last);
    }
  }

  // ---------- one app more ----------

  lemma QuietIsNoStarts(a: AppSnapshot, conf: Config, now: int, queued: set<StartKey>,
                        starts: map<StartKey, PendingStart>)
    requires conf.Valid() && ExactStarts(a, conf, now, queued, starts)
    ensures starts == map[] <==> Quiet(a, queued)
  {
    if Quiet(a, queued) {
      assert starts.Keys == {};
    }
    if starts == map[] {
      forall i | NeedsStart(a, i) ensures StartKey(a.appGuid, a.appVersion, i) in queued {
        assert StartKey(a.appGuid, a.appVersion, i) !in starts;
      }
    }
  }

  lemma AddStarts(r: Round, apps: map<AppKey, AppSnapshot>, desired: set<AppKey>, newStarts: seq<PendingStart>,
                  a: AppSnapshot, starts: map<StartKey, PendingStart>, values: seq<PendingStart>)
    requires r.conf.Valid() && desired <= apps.Keys && a.Key() !in desired
    requires Lists(StartsByKey(newStarts), newStarts) && StartsTally(r, apps, desired, StartsByKey(newStarts))
    requires ExactStarts(a, r.conf, r.now, r.existingStarts.Keys, starts)
    requires StartsByKey(values) == starts && Lists(starts, values)
    ensures Lists(StartsByKey(newStarts + values), newStarts + values)
    ensures StartsTally(r, apps[a.Key() := a], desired + {a.Key()}, StartsByKey(newStarts + values))
  {
    hide Lists, StartsTally, ExactStarts;
    StartsByKeyAppend(newStarts, values);
    TallyUnion(r, apps, desired, StartsByKey(newStarts), a, starts);
    ListsUnion(StartsByKey(newStarts), newStarts, starts, values);
  }

  lemma TallyUnion(r: Round, apps: map<AppKey, AppSnapshot>, desired: set<AppKey>, before: map<StartKey, PendingStart>,
                   a: AppSnapshot, starts: map<StartKey, PendingStart>)
    requires r.conf.Valid() && desired <= apps.Keys && a.Key() !in desired
    requires StartsTally(r, apps, desired, before)
    requires ExactStarts(a, r.conf, r.now, r.existingStarts.Keys, starts)
    ensures before.Keys !! starts.Keys
    ensures StartsTally(r, apps[a.Key() := a], desired + {a.Key()}, before + starts)
  {
    hide NeedsStart, OwedStart;
    forall k | k in before ensures k !in starts {
      assert AppOf(k) in desired;
    }
  }

  lemma AddStops(r: Round, apps: map<AppKey, AppSnapshot>, done: set<AppKey>, newStops: seq<PendingStop>,
                 k: AppKey, a: AppSnapshot, stops: map<string, PendingStop>, values: seq<PendingStop>)
    requires done <= apps.Keys && k !in done
    requires StopsTally(r, apps, done, newStops)
    requires ExactStops(a, r.conf, r.now, r.existingStops.Keys, Quiet(a, r.existingStarts.Keys), stops)
    requires StopsByKey(values) == stops && Lists(stops, values)
    ensures StopsTally(r, apps[k := a], done + {k}, newStops + values)
  {
    hide Justified, StopGuids, Quiet, OneOwner, StopsByKey;
    var apps' := apps[k := a];
    AddedStopsAreOwed(r, apps, done, newStops, k, a, stops, values);
    OwedStopsAreAdded(r, apps, done, newStops, k, a, stops, values);
    assert stops.Keys <= StopGuids(a, r.now, Quiet(a, r.existingStarts.Keys));
    hide ExactStops, StopOwed;
    if OneOwner(apps', done + {k}) {
      OwnersKept(apps, done, k, a);
      NewStopsAreDistinct(r, apps, done, newStops, k, a, stops);
      ListsAppend(newStops, values);
    }
  }

  lemma OwedStopsAreAdded(r: Round, apps: map<AppKey, AppSnapshot>, done: set<AppKey>, newStops: seq<PendingStop>,
                          k: AppKey, a: AppSnapshot, stops: map<string, PendingStop>, values: seq<PendingStop>)
    requires done <= apps.Keys && k !in done
    requires StopsTally(r, apps, done, newStops)
    requires ExactStops(a, r.conf, r.now, r.existingStops.Keys, Quiet(a, r.existingStarts.Keys), stops)
    requires Lists(stops, values)
    ensures forall j, g ::
              j in done + {k} &&
              g in StopGuids(apps[k := a][j], r.now, Quiet(apps[k := a][j], r.existingStarts.Keys)) &&
              g !in r.existingStops
              ==> g in StopKeys(newStops + values)
  {
    hide Justified, StopGuids, Quiet, OneOwner, StopsByKey, StopOwed;
    var apps' := apps[k := a];
    forall j, g |
      j in done + {k} && g in StopGuids(apps'[j], r.now, Quiet(apps'[j], r.existingStarts.Keys)) &&
      g !in r.existingStops
      ensures g in StopKeys(newStops + values)
    {
      if j in done {
        assert g in StopKeys(newStops);
        var m :| m in newStops && m.StoreKey() == g;
        assert m in newStops + values;
      } else {
        assert g in stops;
        assert stops[g] in newStops + values;
      }
    }
  }

  lemma AddedStopsAreOwed(r: Round, apps: map<AppKey, AppSnapshot>, done: set<AppKey>, newStops: seq<PendingStop>,
                          k: AppKey, a: AppSnapshot, stops: map<string, PendingStop>, values: seq<PendingStop>)
    requires done <= apps.Keys && k !in done
    requires forall m :: m in newStops ==> exists j :: j in done && StopOwed(r, apps[j], m)
    requires ExactStops(a, r.conf, r.now, r.existingStops.Keys, Quiet(a, r.existingStarts.Keys), stops)
    requires Lists(stops, values)
    ensures forall m :: m in newStops + values ==> exists j :: j in done + {k} && StopOwed(r, apps[k := a][j], m)
  {
    hide Justified, StopGuids, Quiet;
    var apps' := apps[k := a];
    forall m | m in newStops + values
      ensures exists j :: j in done + {k} && StopOwed(r, apps'[j], m)
    {
      if m in newStops {
        var j :| j in done && StopOwed(r, apps[j], m);
        assert apps'[j] == apps[j];
      } else {
        var g :| g in stops && stops[g] == m;
        assert StopOwed(r, apps'[k], m);
      }
    }
  }

  lemma NewStopsAreDistinct(r: Round, apps: map<AppKey, AppSnapshot>, done: set<AppKey>, newStops: seq<PendingStop>,
                            k: AppKey, a: AppSnapshot, stops: map<string, PendingStop>)
    requires done <= apps.Keys && k !in done && OneOwner(apps[k := a], done + {k})
    requires forall m :: m in newStops ==> exists j :: j in done && StopOwed(r, apps[j], m)
    requires stops.Keys <= StopGuids(a, r.now, Quiet(a, r.existingStarts.Keys))
    ensures forall m :: m in newStops ==> m.StoreKey() !in stops
  {
    hide StopGuids, Quiet, Justified, GuidsOf;
    forall m | m in newStops ensures m.StoreKey() !in stops {
      var j :| j in done && StopOwed(r, apps[j], m);
      StopGuidsAreReported(apps[j], r.now, Quiet(apps[j], r.existingStarts.Keys));
      StopGuidsAreReported(a, r.now, Quiet(a, r.existingStarts.Keys));
      assert apps[k := a][j] == apps[j];
    }
  }

  lemma OwnersKept(apps: map<AppKey, AppSnapshot>, done: set<AppKey>, k: AppKey, a: AppSnapshot)
    requires done <= apps.Keys && k !in done
    requires OneOwner(apps[k := a], done + {k})
    ensures OneOwner(apps, done)
  {
    hide GuidsOf;
    forall i, j | i in done && j in done && i != j
      ensures GuidsOf(apps[i].instanceHeartbeats) !! GuidsOf(apps[j].instanceHeartbeats)
    {
      assert apps[k := a][i] == apps[i] && apps[k := a][j] == apps[j];
    }
  }

  lemma StopGuidsAreReported(a: AppSnapshot, now: int, quiet: bool)
    ensures StopGuids(a, now, quiet) <= GuidsOf(a.instanceHeartbeats)
  {
  }

  lemma ListsAppend(a: seq<PendingStop>, b: seq<PendingStop>)
    requires Lists(StopsByKey(a), a) && Lists(StopsByKey(b), b)
    requires forall m :: m in a ==> m.StoreKey() !in StopsByKey(b)
    ensures Lists(StopsByKey(a + b), a + b)
  {
    StopsByKeyAppend(a, b);
    var ma, mb := StopsByKey(a), StopsByKey(b);
    forall k | k in ma ensures k !in mb {
      assert ma[k] in a;
    }
    ListsUnion(ma, a, mb, b);
  }

  lemma AddCounts(r: Round, apps: map<AppKey, AppSnapshot>, done: set<AppKey>, crashCounts: seq<CrashCount>,
                  k: AppKey, a: AppSnapshot)
    requires done <= apps.Keys && k !in done
    requires CountsTally(r, apps, done, crashCounts)
    ensures CountsTally(r, apps[k := a], done + {k},
                        crashCounts + CrashIncrements(a, r.existingStarts.Keys, r.now, a.desired.numberOfInstances))
  {
    hide CrashIncrements;
    var apps' := apps[k := a];
    var more := CrashIncrements(a, r.existingStarts.Keys, r.now, a.desired.numberOfInstances);
    forall c
      ensures c in crashCounts + more <==>
              exists j :: j in done + {k} && CountRaised(r, apps'[j], c)
    {
      if c in crashCounts {
        var j :| j in done && CountRaised(r, apps[j], c);
        assert apps'[j] == apps[j];
      } else if c in more {
        assert apps'[k] == a;
      }
      if j :| j in done + {k} && CountRaised(r, apps'[j], c) {
        if j in done {
          assert apps'[j] == apps[j];
        }
      }
    }
  }

  // ---------- the analyzer ----------

  // The app object is made from the snapshot for the time of its analysis.
  method AnalyzeOne(a: AppSnapshot, r: Round)
    returns (starts: seq<PendingStart>, stops: seq<PendingStop>, counts: seq<CrashCount>,
             ghost startMap: map<StartKey, PendingStart>, ghost stopMap: map<string, PendingStop>)
    requires r.conf.Valid()
    ensures AnalysisOf(a, r.conf, r.now, r.existingStarts.Keys, r.existingStops.Keys, startMap, stopMap, counts)
    ensures StartsByKey(starts) == startMap && Lists(startMap, starts)
    ensures StopsByKey(stops) == stopMap && Lists(stopMap, stops)
    ensures forall m :: m in starts ==> m.StoreKey() !in r.existingStarts && !m.HasBeenSent()
    ensures forall m :: m in stops ==> m.StoreKey() !in r.existingStops && !m.HasBeenSent()
  {
    var app := new App(a);
    var analyzer := new AppAnalyzer(app, r.now, r.existingStarts, r.existingStops, r.conf);
    analyzer.AnalyzeApp();
    startMap, stopMap := analyzer.startMessages, analyzer.stopMessages;
    AnalysisIsNew(a, r, startMap, stopMap, analyzer.crashCounts);
    starts := ValuesOf(analyzer.startMessages);
    stops := ValuesOf(analyzer.stopMessages);
    ListedStarts(startMap, starts);
    ListedStops(stopMap, stops);
    counts := analyzer.crashCounts;
  }

  lemma AnalysisIsNew(a: AppSnapshot, r: Round, starts: map<StartKey, PendingStart>, stops: map<string, PendingStop>,
                      counts: seq<CrashCount>)
    requires r.conf.Valid()
    requires AnalysisOf(a, r.conf, r.now, r.existingStarts.Keys, r.existingStops.Keys, starts, stops, counts)
    ensures forall k :: k in starts ==> starts[k].StoreKey() == k && k !in r.existingStarts && !starts[k].HasBeenSent()
    ensures forall k :: k in stops ==> stops[k].StoreKey() == k && k !in r.existingStops && !stops[k].HasBeenSent()
  {
    hide NeedsStart, OwedStart, StopGuids, StopFor, CrashIncrements;
    forall k | k in starts ensures starts[k].StoreKey() == k && !starts[k].HasBeenSent() {
      OwedStartIsNew(a, r.conf, r.now, k.index);
    }
    forall k | k in stops ensures k !in r.existingStops && !stops[k].HasBeenSent() {
      assert k in stops.Keys;
      var h :| h in a.instanceHeartbeats && StopFor(a, r.conf, r.now, starts == map[], h, stops[k]);
      OwedStopIsNew(a, r.conf, r.now, starts == map[], h, stops[k]);
    }
  }

  lemma OwedStartIsNew(a: AppSnapshot, conf: Config, now: int, index: int)
    requires conf.Valid()
    ensures var m := OwedStart(a, conf, now, index);
            m.StoreKey() == StartKey(a.appGuid, a.appVersion, index) && !m.HasBeenSent()
  {
    hide NeedsEvacuatingStart, NeedsCrashedStart;
  }

  lemma OwedStopIsNew(a: AppSnapshot, conf: Config, now: int, quiet: bool, h: InstanceHeartbeat, m: PendingStop)
    requires StopFor(a, conf, now, quiet, h, m)
    ensures !m.HasBeenSent()
  {
    hide StopsAsEvacuating, StopsAsExtra, StopsAsDuplicate;
  }

  lemma TallyApp(r: Round, desired: set<AppKey>, done: set<AppKey>, p: Progress, a: AppSnapshot,
                 starts: seq<PendingStart>, stops: seq<PendingStop>, counts: seq<CrashCount>,
                 startMap: map<StartKey, PendingStart>, stopMap: map<string, PendingStop>)
    requires r.conf.Valid() && Tallied(r, desired, done, p) && a.Key() !in done
    requires AnalysisOf(a, r.conf, r.now, r.existingStarts.Keys, r.existingStops.Keys, startMap, stopMap, counts)
    requires StartsByKey(starts) == startMap && Lists(startMap, starts)
    requires StopsByKey(stops) == stopMap && Lists(stopMap, stops)
    ensures Tallied(r, desired + {a.Key()}, done + {a.Key()},
                    Progress(p.apps[a.Key() := a], p.newStarts + starts, p.newStops + stops, p.crashCounts + counts))
    ensures p.apps[a.Key() := a] == p.apps ==>
            Tallied(r, desired, done + {a.Key()},
                    Progress(p.apps, p.newStarts, p.newStops + stops, p.crashCounts + counts))
  {
    hide StartsTally, StopsTally, CountsTally, ExactStarts, ExactStops, Lists, StartsByKey, StopsByKey, Quiet,
         CrashIncrements;
    QuietIsNoStarts(a, r.conf, r.now, r.existingStarts.Keys, startMap);
    AddStarts(r, p.apps, desired, p.newStarts, a, startMap, starts);
    AddStops(r, p.apps, done, p.newStops, a.Key(), a, stopMap, stops);
    AddCounts(r, p.apps, done, p.crashCounts, a.Key(), a);
  }

  lemma GatherApp(r: Round, desired: set<AppSnapshot>, all: set<AppSnapshot>, p: Progress, a: AppSnapshot,
                  starts: seq<PendingStart>, stops: seq<PendingStop>, counts: seq<CrashCount>,
                  startMap: map<StartKey, PendingStart>, stopMap: map<string, PendingStop>,
                  apps: map<AppKey, AppSnapshot>)
    requires r.conf.Valid() && Gathered(r, desired, all, p)
    requires AnalysisOf(a, r.conf, r.now, r.existingStarts.Keys, r.existingStops.Keys, startMap, stopMap, counts)
    requires Lists(startMap, starts) && Lists(stopMap, stops)
    ensures Gathered(r, desired + {a}, all + {a},
                     Progress(apps, p.newStarts + starts, p.newStops + stops, p.crashCounts + counts))
    ensures Gathered(r, desired, all + {a}, Progress(apps, p.newStarts, p.newStops + stops, p.crashCounts + counts))
  {
    hide ExactStarts, ExactStops, Lists, Quiet, CrashIncrements, StopOwed, StartOwed, StopGuids;
    QuietIsNoStarts(a, r.conf, r.now, r.existingStarts.Keys, startMap);
    OwnStarts(r, a, starts, startMap);
    OwnStops(r, a, stops, stopMap);
    OwnKeysAppend(p.newStops, stops);
  }

  lemma OwnStarts(r: Round, a: AppSnapshot, starts: seq<PendingStart>, startMap: map<StartKey, PendingStart>)
    requires r.conf.Valid() && ExactStarts(a, r.conf, r.now, r.existingStarts.Keys, startMap) && Lists(startMap, starts)
    ensures forall m :: m in starts <==> StartOwed(r, a, m)
  {
    hide NeedsStart, OwedStart;
    forall m | m in starts ensures StartOwed(r, a, m) {
      var k :| k in startMap && startMap[k] == m;
      OwedStartIsNew(a, r.conf, r.now, k.index);
    }
    forall m | StartOwed(r, a, m) ensures m in starts {
      OwedStartIsNew(a, r.conf, r.now, m.indexToStart);
      assert m.StoreKey() in startMap;
    }
  }

  lemma OwnStops(r: Round, a: AppSnapshot, stops: seq<PendingStop>, stopMap: map<string, PendingStop>)
    requires ExactStops(a, r.conf, r.now, r.existingStops.Keys, Quiet(a, r.existingStarts.Keys), stopMap)
    requires Lists(stopMap, stops)
    ensures forall m :: m in stops ==> StopOwed(r, a, m)
    ensures forall g :: g in StopGuids(a, r.now, Quiet(a, r.existingStarts.Keys)) && g !in r.existingStops ==>
                          g in StopKeys(stops)
  {
    hide Quiet, Justified, StopGuids;
    forall m | m in stops ensures StopOwed(r, a, m) {
      var g :| g in stopMap && stopMap[g] == m;
    }
    forall g | g in StopGuids(a, r.now, Quiet(a, r.existingStarts.Keys)) && g !in r.existingStops
      ensures g in StopKeys(stops)
    {
      assert g in stopMap && stopMap[g] in stops;
    }
  }

  lemma OwnKeysAppend(a: seq<PendingStop>, b: seq<PendingStop>)
    ensures StopKeys(a + b) == StopKeys(a) + StopKeys(b)
  {
  }

  datatype AnalyzeError = StoreNotFresh | AppsUnavailable | QueuesUnavailable | FetchFailed
                        | CountsNotSaved | StartsNotSaved | StopsNotSaved

  // What a run of the analyzer meets with: the freshness read and which requests fail.
  datatype AnalyzeWorld = AnalyzeWorld(read: Reading, queuesFail: bool, countsFail: bool, startsFail: bool,
                                       stopsFail: bool)

  // The one reason a run has for giving up, if it has one: the first of these to arise.
  function Refusal(isFresh: bool, appsRead: bool, fetchSuccess: bool, world: AnalyzeWorld): Option<AnalyzeError> {
    if !isFresh then Some(StoreNotFresh)
    else if !appsRead then Some(AppsUnavailable)
    else if world.queuesFail then Some(QueuesUnavailable)
    else if !fetchSuccess then Some(FetchFailed)
    else WriteRefusal(world)
  }

  function WriteRefusal(world: AnalyzeWorld): Option<AnalyzeError> {
    if world.countsFail then Some(CountsNotSaved)
    else if world.startsFail then Some(StartsNotSaved)
    else if world.stopsFail then Some(StopsNotSaved)
    else None
  }

  datatype AnalyzeResult =
    | Analyzed(apps: map<AppKey, AppSnapshot>, startMessages: seq<PendingStart>, stopMessages: seq<PendingStop>)
    | Refused(error: AnalyzeError)

  /** What a round that ran to its end has established. An app that is running but in none of the
      batches is analyzed as undesired, and no other; an app is left desired as the last batch that names
      it desires it; and the new messages are those that the analyzed snapshots call for. If no app came
      in two batches there is one new message for each that is called for, and the lists handed on are
      the stored queues. */
  ghost predicate CompleteRound(r: Round, actual: map<AppKey, AppSnapshot>, batches: seq<Batch>, p: Progress,
                                startMessages: seq<PendingStart>, stopMessages: seq<PendingStop>)
    requires r.conf.Valid()
  {
    && p.apps.Keys == actual.Keys + DesiredKeys(batches)
    && (forall k :: k in actual && k !in DesiredKeys(batches) ==> k in p.apps && p.apps[k] == actual[k])
    && LastBatchCounts(actual, batches, p.apps)
    && HandedOn(r, actual, batches, p, startMessages)
    && Gathered(r, DesiredSnapshots(actual, batches),
                DesiredSnapshots(actual, batches) + RemovedSnapshots(actual, DesiredKeys(batches)), p)
    && (DisjointBatches(batches) ==>
          && Tallied(r, DesiredKeys(batches), p.apps.Keys, p)
          && Lists(r.existingStarts + StartsByKey(p.newStarts), startMessages)
          && (OneOwner(p.apps, p.apps.Keys) ==> Lists(r.existingStops + StopsByKey(p.newStops), stopMessages)))
  }

  ghost predicate LastBatchCounts(actual: map<AppKey, AppSnapshot>, batches: seq<Batch>,
                                  apps: map<AppKey, AppSnapshot>) {
    forall i: nat, k :: i < |batches| && k in batches[i] && NotAfter(batches, i, k) ==>
      k in apps && apps[k] == WithDesired(actual, batches[i][k])
  }

  // No batch after the i-th names the app.
  ghost predicate NotAfter(batches: seq<Batch>, i: nat, k: AppKey) {
    forall j :: i < j < |batches| ==> k !in batches[j]
  }

  class Analyzer {
    const store: PendingStore
    const freshness: FreshnessStore
    const conf: Config

    ghost predicate Valid()
      reads this, store, freshness
    {
      store.Valid() && freshness.Valid() && conf.Valid()
    }

    constructor (store: PendingStore, freshness: FreshnessStore, conf: Config)
      requires store.Valid() && freshness.Valid() && conf.Valid()
      ensures Valid() && this.store == store && this.freshness == freshness && this.conf == conf
    {
      this.store := store;
      this.freshness := freshness;
      this.conf := conf;
    }

    // One desired app: found among the running ones or made from nothing.
    method AnalyzeDesired(r: Round, p: Progress, pendingRemoval: set<AppKey>, d: DesiredAppState,
                          ghost desired: set<AppKey>, ghost analyzed: set<AppSnapshot>)
      returns (p': Progress, pendingRemoval': set<AppKey>)
      requires r.conf.Valid() && OnlyNew(r, p) && Gathered(r, analyzed, analyzed, p)
      ensures OnlyNew(r, p') && p'.apps == p.apps[d.StoreKey() := WithDesired(p.apps, d)]
      ensures pendingRemoval' == if d.StoreKey() in p.apps then pendingRemoval - {d.StoreKey()} else pendingRemoval
      ensures Gathered(r, analyzed + {WithDesired(p.apps, d)}, analyzed + {WithDesired(p.apps, d)}, p')
      ensures AppCalled(r, WithDesired(p.apps, d), p.newStarts, p'.newStarts)
      ensures Tallied(r, desired, desired, p) && d.StoreKey() !in desired &&
              WithDesired(p.apps, d).Key() == d.StoreKey() ==>
              Tallied(r, desired + {d.StoreKey()}, desired + {d.StoreKey()}, p')
    {
      hide Tallied, Gathered, AppCalled, AnalysisOf, Lists, StartsByKey, StopsByKey;
      var k := d.StoreKey();
      var a := WithDesired(p.apps, d);
      pendingRemoval' := if k in p.apps then pendingRemoval - {k} else pendingRemoval;
      ghost var startMap, stopMap;
      var starts, stops, counts;
      starts, stops, counts, startMap, stopMap := AnalyzeOne(a, r);
      p' := Progress(p.apps[k := a], p.newStarts + starts, p.newStops + stops, p.crashCounts + counts);
      GatherApp(r, analyzed, analyzed, p, a, starts, stops, counts, startMap, stopMap, p'.apps);
      CallAnalyzed(r, a, p.newStarts, starts, counts, startMap, stopMap);
      if Tallied(r, desired, desired, p) && k !in desired && a.Key() == k {
        TallyApp(r, desired, desired, p, a, starts, stops, counts, startMap, stopMap);
      }
    }

    // An app that runs but is not desired: only its stops count.
    method AnalyzeRemoved(r: Round, p: Progress, k: AppKey, ghost desired: set<AppKey>, ghost done: set<AppKey>,
                          ghost wanted: set<AppSnapshot>, ghost analyzed: set<AppSnapshot>)
      returns (p': Progress)
      requires r.conf.Valid() && OnlyNew(r, p) && k in p.apps && Gathered(r, wanted, analyzed, p)
      ensures OnlyNew(r, p') && p'.apps == p.apps && p'.newStarts == p.newStarts
      ensures Gathered(r, wanted, analyzed + {p.apps[k]}, p')
      ensures Tallied(r, desired, done, p) && k !in done && p.apps[k].Key() == k ==> Tallied(r, desired, done + {k}, p')
    {
      hide Tallied, Gathered, AnalysisOf, Lists, StartsByKey, StopsByKey;
      var a := p.apps[k];
      ghost var startMap, stopMap;
      var starts, stops, counts;
      starts, stops, counts, startMap, stopMap := AnalyzeOne(a, r);
      p' := Progress(p.apps, p.newStarts, p.newStops + stops, p.crashCounts + counts);
      GatherApp(r, wanted, analyzed, p, a, starts, stops, counts, startMap, stopMap, p'.apps);
      if Tallied(r, desired, done, p) && k !in done && a.Key() == k {
        assert p.apps[k := a] == p.apps;
        TallyApp(r, desired, done, p, a, starts, stops, counts, startMap, stopMap);
      }
    }

    method AnalyzeBatch(r: Round, ghost actual: map<AppKey, AppSnapshot>, ghost seen: set<AppKey>,
                        ghost analyzed: set<AppSnapshot>, p: Progress, pendingRemoval: set<AppKey>, batch: Batch)
      returns (p': Progress, pendingRemoval': set<AppKey>)
      requires r.conf.Valid() && KeyedBatch(batch)
      requires Consumed(actual, r, seen, p, pendingRemoval) && Gathered(r, analyzed, analyzed, p)
      ensures Consumed(actual, r, seen + batch.Keys, p', pendingRemoval')
      ensures forall k :: k in p.apps && k !in batch ==> k in p'.apps && p'.apps[k] == p.apps[k]
      ensures forall k :: k in batch ==> k in p'.apps && p'.apps[k] == WithDesired(actual, batch[k])
      ensures var all := analyzed + SnapshotsOf(actual, batch, batch.Keys); Gathered(r, all, all, p')
      ensures BatchCalled(r, actual, batch, batch.Keys, p.newStarts, p'.newStarts)
      ensures seen !! batch.Keys && Tallied(r, seen, seen, p) ==> Tallied(r, seen + batch.Keys, seen + batch.Keys, p')
    {
      hide Tallied, Gathered, AppCalled, BatchCalled, OnlyNew, Consumed, WithDesired, SnapshotsOf;
      ConsumedApps(actual, r, seen, p, pendingRemoval);
      CallNothing(r, actual, batch, p.newStarts);
      NoSnapshots(actual, batch);
      p', pendingRemoval' := p, pendingRemoval;
      var remaining := batch.Keys;
      ghost var done: set<AppKey> := {};
      assert seen + done == seen && analyzed + SnapshotsOf(actual, batch, done) == analyzed;
      while remaining != {}
        invariant done + remaining == batch.Keys && done !! remaining
        invariant Consumed(actual, r, seen + done, p', pendingRemoval')
        invariant p'.apps.Keys == actual.Keys + seen + done
        invariant forall k :: k in p.apps && k !in batch ==> k in p'.apps && p'.apps[k] == p.apps[k]
        invariant forall k :: k in done ==> k in p'.apps && p'.apps[k] == WithDesired(actual, batch[k])
        invariant Gathered(r, analyzed + SnapshotsOf(actual, batch, done), analyzed + SnapshotsOf(actual, batch, done),
                           p')
        invariant BatchCalled(r, actual, batch, done, p.newStarts, p'.newStarts)
        invariant seen !! batch.Keys && Tallied(r, seen, seen, p) ==> Tallied(r, seen + done, seen + done, p')
        decreases remaining
      {
        var k := PickAny(remaining);
        ghost var before, removalBefore := p', pendingRemoval';
        ConsumedApps(actual, r, seen + done, p', pendingRemoval');
        p', pendingRemoval' :=
          AnalyzeDesired(r, p', pendingRemoval', batch[k], seen + done, analyzed + SnapshotsOf(actual, batch, done));
        ConsumeOne(actual, r, seen + done, before, removalBefore, batch[k], p', pendingRemoval');
        OneMoreSnapshot(actual, batch, done, k, analyzed);
        CallOneMore(r, actual, batch, done, k, p.newStarts, before.newStarts, p'.newStarts);
        assert seen + done + {k} == seen + (done + {k});
        done := done + {k};
        remaining := remaining - {k};
      }
      assert done == batch.Keys;
    }

    method AnalyzeBatches(r: Round, actual: map<AppKey, AppSnapshot>, batches: seq<Batch>)
      returns (p: Progress, pendingRemoval: set<AppKey>)
      requires r.conf.Valid() && ActualApps(actual)
      requires forall i :: 0 <= i < |batches| ==> KeyedBatch(batches[i])
      ensures Consumed(actual, r, DesiredKeys(batches), p, pendingRemoval)
      ensures LastBatchCounts(actual, batches, p.apps)
      ensures Gathered(r, DesiredSnapshots(actual, batches), DesiredSnapshots(actual, batches), p)
      ensures AllCalled(r, actual, batches, p.newStarts)
      ensures DisjointBatches(batches) ==> Tallied(r, DesiredKeys(batches), DesiredKeys(batches), p)
    {
      hide Tallied, Gathered, AllCalled, BatchCalled, OnlyNew, Consumed, WithDesired, DisjointBatches,
           LastBatchCounts, DesiredSnapshots;
      CallNothing(r, actual, map[], []);
      p, pendingRemoval := Progress(actual, [], [], []), actual.Keys;
      NothingTallied(r, actual, p);
      NothingSeen(actual, actual);
      for i := 0 to |batches|
        invariant Consumed(actual, r, DesiredKeys(batches[..i]), p, pendingRemoval)
        invariant LastBatchCounts(actual, batches[..i], p.apps)
        invariant AllCalled(r, actual, batches[..i], p.newStarts)
        invariant Gathered(r, DesiredSnapshots(actual, batches[..i]), DesiredSnapshots(actual, batches[..i]), p)
        invariant DisjointBatches(batches) ==> Tallied(r, DesiredKeys(batches[..i]), DesiredKeys(batches[..i]), p)
      {
        assert batches[..i + 1][..i] == batches[..i];
        if DisjointBatches(batches) {
          LaterBatchIsDisjoint(batches, i, i);
        }
        ghost var before, starts := p.apps, p.newStarts;
        ghost var analyzed := DesiredSnapshots(actual, batches[..i]);
        p, pendingRemoval := AnalyzeBatch(r, actual, DesiredKeys(batches[..i]), analyzed, p, pendingRemoval,
                                          batches[i]);
        NextBatch(actual, batches, i, before, p.apps);
        CallBatch(r, actual, batches, i, starts, p.newStarts);
      }
      assert batches[..|batches|] == batches;
    }

    method AnalyzeRemovals(r: Round, p: Progress, pendingRemoval: set<AppKey>, ghost desired: set<AppKey>,
                           ghost analyzed: set<AppSnapshot>)
      returns (p': Progress)
      requires r.conf.Valid() && OnlyNew(r, p) && pendingRemoval <= p.apps.Keys && pendingRemoval !! desired
      requires forall k :: k in p.apps ==> p.apps[k].Key() == k
      requires Gathered(r, analyzed, analyzed, p)
      ensures OnlyNew(r, p') && p'.apps == p.apps && p'.newStarts == p.newStarts
      ensures Gathered(r, analyzed, analyzed + AppsAt(p.apps, pendingRemoval), p')
      ensures Tallied(r, desired, desired, p) ==> Tallied(r, desired, desired + pendingRemoval, p')
    {
      hide Tallied, Gathered, OnlyNew;
      p' := p;
      var remaining := pendingRemoval;
      ghost var done: set<AppKey> := {};
      assert desired + done == desired && analyzed + AppsAt(p.apps, done) == analyzed;
      while remaining != {}
        invariant done + remaining == pendingRemoval && done !! remaining
        invariant OnlyNew(r, p') && p'.apps == p.apps && p'.newStarts == p.newStarts
        invariant Gathered(r, analyzed, analyzed + AppsAt(p.apps, done), p')
        invariant Tallied(r, desired, desired, p) ==> Tallied(r, desired, desired + done, p')
        decreases remaining
      {
        var k := PickAny(remaining);
        assert desired + done + {k} == desired + (done + {k});
        assert analyzed + AppsAt(p.apps, done) + {p.apps[k]} == analyzed + AppsAt(p.apps, done + {k});
        p' := AnalyzeRemoved(r, p', k, desired, desired + done, analyzed, analyzed + AppsAt(p.apps, done));
        done := done + {k};
        remaining := remaining - {k};
      }
      assert done == pendingRemoval;
    }

    // From the batches to the messages; gives up before the removals if the fetcher failed.
    method ComputeMessages(r: Round, actual: map<AppKey, AppSnapshot>, batches: seq<Batch>, fetchSuccess: bool)
      returns (p: Progress, startMessages: seq<PendingStart>, stopMessages: seq<PendingStop>)
      requires r.conf.Valid() && ActualApps(actual)
      requires forall i :: 0 <= i < |batches| ==> KeyedBatch(batches[i])
      requires forall k :: k in r.existingStarts ==> r.existingStarts[k].StoreKey() == k
      requires forall k :: k in r.existingStops ==> r.existingStops[k].StoreKey() == k
      ensures fetchSuccess ==> OnlyNew(r, p) && CompleteRound(r, actual, batches, p, startMessages, stopMessages)
    {
      hide Tallied, Gathered, OnlyNew, Consumed, WithDesired, DisjointBatches, Lists, StartsByKey, StopsByKey,
           OneOwner, LastBatchCounts, DesiredSnapshots, AllCalled;
      var pendingRemoval;
      p, pendingRemoval := AnalyzeBatches(r, actual, batches);
      if !fetchSuccess {
        return p, [], [];
      }
      ghost var desired := DesiredKeys(batches);
      ConsumedApps(actual, r, desired, p, pendingRemoval);
      ConsumedRemovals(actual, r, desired, p, pendingRemoval);
      assert RemovedSnapshots(actual, desired) == AppsAt(p.apps, pendingRemoval);
      p := AnalyzeRemovals(r, p, pendingRemoval, desired, DesiredSnapshots(actual, batches));
      assert desired + pendingRemoval == p.apps.Keys;
      startMessages := ValuesOf(r.existingStarts);
      stopMessages := ValuesOf(r.existingStops);
      if DisjointBatches(batches) {
        TallyLists(r, desired, p, startMessages, stopMessages);
      }
      assert HandedOn(r, actual, batches, p, startMessages + p.newStarts);
      startMessages := startMessages + p.newStarts;
      stopMessages := stopMessages + p.newStops;
    }

    /** One run of the analyzer, given the apps read from the store, the batches received until the
        channel was closed, and the success flag read after that. It gives up for the first reason that
        arises and for no other; nothing at all is written unless the store is fresh and the fetcher
        succeeded; no queued message is ever overwritten. */
    method Analyze(instant: nat, world: AnalyzeWorld, actual: Option<map<AppKey, AppSnapshot>>, batches: seq<Batch>,
                   fetchSuccess: bool)
      returns (result: AnalyzeResult, ghost p: Progress)
      requires Valid()
      requires actual.Some? ==> ActualApps(actual.value)
      requires forall i :: 0 <= i < |batches| ==> KeyedBatch(batches[i])
      modifies store
      ensures Valid()
      ensures var refusal := Refusal(freshness.Passes(instant, world.read), actual.Some?, fetchSuccess, world);
              if refusal.Some? then result == Refused(refusal.value) else result.Analyzed?
      ensures !freshness.Passes(instant, world.read) ==> result == Refused(StoreNotFresh) && unchanged(store)
      ensures actual.None? || world.queuesFail || !fetchSuccess ==> result.Refused? && unchanged(store)
      ensures world.countsFail || world.startsFail || world.stopsFail ==> result.Refused?
      ensures result.Refused? && result.error in {StoreNotFresh, AppsUnavailable, QueuesUnavailable, FetchFailed} ==>
                unchanged(store)
      ensures forall k :: k in old(store.starts) ==> k in store.starts && store.starts[k] == old(store.starts)[k]
      ensures forall k :: k in old(store.stops) ==> k in store.stops && store.stops[k] == old(store.stops)[k]
      ensures forall k :: k in store.starts && k !in old(store.starts) ==> !store.starts[k].HasBeenSent()
      ensures forall k :: k in store.stops && k !in old(store.stops) ==> !store.stops[k].HasBeenSent()
      ensures actual.Some? && (result.Analyzed? || result.error in {CountsNotSaved, StartsNotSaved, StopsNotSaved}) ==>
                && SavedAsFar(p, world, old(store.crashCounts), old(store.starts), old(store.stops))
                && (exists startMessages, stopMessages ::
                      CompleteRound(Round(conf, Unix(instant), old(store.starts), old(store.stops)),
                                    actual.value, batches, p, startMessages, stopMessages))
      ensures result.Analyzed? ==>
                && actual.Some? && result.apps == p.apps
                && store.starts == old(store.starts) + StartsByKey(p.newStarts)
                && store.stops == old(store.stops) + StopsByKey(p.newStops)
                && store.crashCounts == old(store.crashCounts) + CountsByKey(p.crashCounts)
                && CompleteRound(Round(conf, Unix(instant), old(store.starts), old(store.stops)),
                                 actual.value, batches, p, result.startMessages, result.stopMessages)
    {
      hide CompleteRound, OnlyNew, StartsByKey, StopsByKey, CountsByKey, FreshnessStore.Passes,
           FreshnessStore.Valid, KeyedBatch, ActualApps, PartlyWritten;
      p := Progress(map[], [], [], []);
      var isFresh := freshness.VerifyFreshness(instant, world.read);
      if !isFresh {
        return Refused(StoreNotFresh), p;
      }
      if actual.None? {
        return Refused(AppsUnavailable), p;
      }
      if world.queuesFail {
        return Refused(QueuesUnavailable), p;
      }
      var r := Round(conf, Unix(instant), store.starts, store.stops);
      var progress, startMessages, stopMessages := ComputeMessages(r, actual.value, batches, fetchSuccess);
      p := progress;
      if !fetchSuccess {
        return Refused(FetchFailed), p;
      }
      OnlyNewKeys(r, progress);
      var error := SaveAll(r, progress, world);
      if error.Some? {
        return Refused(error.value), p;
      }
      result := Analyzed(progress.apps, startMessages, stopMessages);
    }

    // What the writes before the first that failed have stored, and that it left nothing half known.
    ghost predicate SavedAsFar(p: Progress, world: AnalyzeWorld, counts: map<StartKey, CrashCount>,
                               starts: map<StartKey, PendingStart>, stops: map<string, PendingStop>)
      reads store
    {
      && (if world.countsFail then PartlyWritten(counts, CountsByKey(p.crashCounts), store.crashCounts)
          else store.crashCounts == counts + CountsByKey(p.crashCounts))
      && (if world.countsFail then store.starts == starts
          else if world.startsFail then PartlyWritten(starts, StartsByKey(p.newStarts), store.starts)
          else store.starts == starts + StartsByKey(p.newStarts))
      && (if world.countsFail || world.startsFail then store.stops == stops
          else if world.stopsFail then PartlyWritten(stops, StopsByKey(p.newStops), store.stops)
          else store.stops == stops + StopsByKey(p.newStops))
    }

    // The three writes, each made only if the one before it got through.
    method SaveAll(r: Round, p: Progress, world: AnalyzeWorld) returns (error: Option<AnalyzeError>)
      requires store.Valid() && r.existingStarts == store.starts && r.existingStops == store.stops
      requires forall k :: k in StartsByKey(p.newStarts) ==>
                 k !in r.existingStarts && !StartsByKey(p.newStarts)[k].HasBeenSent()
      requires forall k :: k in StopsByKey(p.newStops) ==>
                 k !in r.existingStops && !StopsByKey(p.newStops)[k].HasBeenSent()
      modifies store
      ensures store.Valid() && error == WriteRefusal(world)
      ensures SavedAsFar(p, world, old(store.crashCounts), old(store.starts), old(store.stops))
      ensures forall k :: k in old(store.starts) ==> k in store.starts && store.starts[k] == old(store.starts)[k]
      ensures forall k :: k in old(store.stops) ==> k in store.stops && store.stops[k] == old(store.stops)[k]
      ensures forall k :: k in store.starts && k !in old(store.starts) ==> !store.starts[k].HasBeenSent()
      ensures forall k :: k in store.stops && k !in old(store.stops) ==> !store.stops[k].HasBeenSent()
    {
      hide StartsByKey, StopsByKey, CountsByKey;
      var outcome := store.SaveCrashCounts(p.crashCounts, world.countsFail);
      if outcome != Done {
        return Some(CountsNotSaved);
      }
      outcome := store.SavePendingStarts(p.newStarts, world.startsFail);
      if outcome != Done {
        return Some(StartsNotSaved);
      }
      outcome := store.SavePendingStops(p.newStops, world.stopsFail);
      if outcome != Done {
        return Some(StopsNotSaved);
      }
      return None;
    }
  }

  ghost function SnapshotsOf(actual: map<AppKey, AppSnapshot>, batch: Batch, keys: set<AppKey>): set<AppSnapshot> {
    set k | k in keys && k in batch :: WithDesired(actual, batch[k])
  }

  lemma NoSnapshots(actual: map<AppKey, AppSnapshot>, batch: Batch)
    ensures SnapshotsOf(actual, batch, {}) == {}
  {
  }

  lemma OneMoreSnapshot(actual: map<AppKey, AppSnapshot>, batch: Batch, done: set<AppKey>, k: AppKey,
                        analyzed: set<AppSnapshot>)
    requires k in batch
    ensures analyzed + SnapshotsOf(actual, batch, done + {k}) ==
            analyzed + SnapshotsOf(actual, batch, done) + {WithDesired(actual, batch[k])}
  {
    hide WithDesired;
    assert SnapshotsOf(actual, batch, done + {k}) == SnapshotsOf(actual, batch, done) + {WithDesired(actual, batch[k])};
  }

  lemma NothingSeen(actual: map<AppKey, AppSnapshot>, apps: map<AppKey, AppSnapshot>)
    ensures LastBatchCounts(actual, [], apps) && DesiredSnapshots(actual, []) == {} && DesiredKeys([]) == {}
  {
  }

  lemma NextBatch(actual: map<AppKey, AppSnapshot>, batches: seq<Batch>, i: nat,
                  before: map<AppKey, AppSnapshot>, after: map<AppKey, AppSnapshot>)
    requires i < |batches| && LastBatchCounts(actual, batches[..i], before)
    requires forall k :: k in before && k !in batches[i] ==> k in after && after[k] == before[k]
    requires forall k :: k in batches[i] ==> k in after && after[k] == WithDesired(actual, batches[i][k])
    ensures LastBatchCounts(actual, batches[..i + 1], after)
    ensures DesiredSnapshots(actual, batches[..i + 1]) ==
            DesiredSnapshots(actual, batches[..i]) + SnapshotsOf(actual, batches[i], batches[i].Keys)
  {
    hide WithDesired;
    var all := batches[..i + 1];
    forall j: nat, k | j < |all| && k in all[j] && NotAfter(all, j, k)
      ensures k in after && after[k] == WithDesired(actual, all[j][k])
    {
      if j < i {
        assert k !in all[i];
        assert batches[..i][j] == all[j] && NotAfter(batches[..i], j, k) by {
          forall n | j < n < i ensures k !in batches[..i][n] {
            assert batches[..i][n] == all[n];
          }
        }
      }
    }
    assert forall j :: 0 <= j < i ==> batches[..i][j] == all[j];
  }

  // What having consumed the apps in `seen` has done to the running ones.
  ghost predicate Consumed(actual: map<AppKey, AppSnapshot>, r: Round, seen: set<AppKey>, p: Progress,
                           pendingRemoval: set<AppKey>)
  {
    && OnlyNew(r, p)
    && p.apps.Keys == actual.Keys + seen
    && pendingRemoval == actual.Keys - seen
    && (forall k :: k in p.apps ==> p.apps[k].Key() == k && p.apps[k] == ReportedAs(actual, k, p.apps[k].desired))
    && (forall k :: k in pendingRemoval ==> p.apps[k] == actual[k])
  }

  // An app as the store reports it, with what is desired of it.
  function ReportedAs(actual: map<AppKey, AppSnapshot>, k: AppKey, d: DesiredAppState): AppSnapshot {
    if k in actual then actual[k].(desired := d) else AppSnapshot(k.appGuid, k.appVersion, d, [], map[])
  }

  lemma ConsumedApps(actual: map<AppKey, AppSnapshot>, r: Round, seen: set<AppKey>, p: Progress,
                     pendingRemoval: set<AppKey>)
    requires Consumed(actual, r, seen, p, pendingRemoval)
    ensures OnlyNew(r, p) && p.apps.Keys == actual.Keys + seen
  {
  }

  lemma ConsumeOne(actual: map<AppKey, AppSnapshot>, r: Round, seen: set<AppKey>, p: Progress,
                   pendingRemoval: set<AppKey>,
                   d: DesiredAppState, p': Progress, pendingRemoval': set<AppKey>)
    requires Consumed(actual, r, seen, p, pendingRemoval) && OnlyNew(r, p')
    requires p'.apps == p.apps[d.StoreKey() := WithDesired(p.apps, d)]
    requires pendingRemoval' == if d.StoreKey() in p.apps then pendingRemoval - {d.StoreKey()} else pendingRemoval
    ensures WithDesired(p.apps, d).Key() == d.StoreKey()
    ensures Consumed(actual, r, seen + {d.StoreKey()}, p', pendingRemoval')
    ensures WithDesired(p.apps, d) == WithDesired(actual, d)
  {
    hide OnlyNew;
  }

  lemma NothingTallied(r: Round, actual: map<AppKey, AppSnapshot>, p: Progress)
    requires r.conf.Valid() && p.newStarts == [] && p.newStops == [] && p.crashCounts == []
    requires p.apps == actual && ActualApps(actual)
    ensures Tallied(r, {}, {}, p) && Consumed(actual, r, {}, p, actual.Keys) && Gathered(r, {}, {}, p)
  {
    hide NeedsStart, StopOwed, StartOwed, StopGuids, Quiet, CrashIncrements, Consumed, ActualApps, OwedStart;
    NothingConsumed(r, actual, p);
  }

  lemma NothingConsumed(r: Round, actual: map<AppKey, AppSnapshot>, p: Progress)
    requires p.newStarts == [] && p.newStops == [] && p.apps == actual && ActualApps(actual)
    ensures Consumed(actual, r, {}, p, actual.Keys)
  {
  }

  lemma {:induction false} LaterBatchIsDisjoint(batches: seq<Batch>, i: nat, j: nat)
    requires DisjointBatches(batches) && i <= j < |batches|
    ensures DesiredKeys(batches[..i]) !! batches[j].Keys
  {
    if i > 0 {
      assert batches[..i][..i - 1] == batches[..i - 1];
      LaterBatchIsDisjoint(batches, i - 1, j);
      assert batches[i - 1].Keys !! batches[j].Keys;
    }
  }

  lemma {:induction false} DesiredKeysContain(batches: seq<Batch>)
    ensures forall k :: k in DesiredKeys(batches) <==> exists i :: 0 <= i < |batches| && k in batches[i]
  {
    if batches != [] {
      var init := batches[..|batches| - 1];
      DesiredKeysContain(init);
      assert forall i :: 0 <= i < |init| ==> init[i] == batches[i];
    }
  }

  // Of the batches that name an app there is a last one.
  lemma {:induction false} LastNaming(batches: seq<Batch>, k: AppKey) returns (i: nat)
    requires k in DesiredKeys(batches)
    ensures i < |batches| && k in batches[i] && NotAfter(batches, i, k)
  {
    i := |batches| - 1;
    if k !in batches[i] {
      var init := batches[..i];
      var j := LastNaming(init, k);
      forall n | j < n < |batches| ensures k !in batches[n] {
        assert n < i ==> init[n] == batches[n];
      }
      i := j;
    }
  }

  lemma ConsumedRemovals(actual: map<AppKey, AppSnapshot>, r: Round, seen: set<AppKey>, p: Progress,
                         pendingRemoval: set<AppKey>)
    requires Consumed(actual, r, seen, p, pendingRemoval)
    ensures pendingRemoval == actual.Keys - seen && pendingRemoval <= p.apps.Keys
    ensures forall k :: k in p.apps ==> p.apps[k].Key() == k
    ensures forall k :: k in pendingRemoval ==> p.apps[k] == actual[k]
  {
    hide OnlyNew;
  }

  lemma OnlyNewKeys(r: Round, p: Progress)
    requires OnlyNew(r, p)
    ensures forall k :: k in StartsByKey(p.newStarts) ==>
              k !in r.existingStarts && !StartsByKey(p.newStarts)[k].HasBeenSent()
    ensures forall k :: k in StopsByKey(p.newStops) ==>
              k !in r.existingStops && !StopsByKey(p.newStops)[k].HasBeenSent()
  {
  }

  // The lists handed to the sender are the stored queues.
  lemma TallyLists(r: Round, desired: set<AppKey>, p: Progress, starts: seq<PendingStart>, stops: seq<PendingStop>)
    requires r.conf.Valid() && Tallied(r, desired, p.apps.Keys, p) && OnlyNew(r, p)
    requires Lists(r.existingStarts, starts) && Lists(r.existingStops, stops)
    ensures Lists(r.existingStarts + StartsByKey(p.newStarts), starts + p.newStarts)
    ensures OneOwner(p.apps, p.apps.Keys) ==> Lists(r.existingStops + StopsByKey(p.newStops), stops + p.newStops)
  {
    hide OneOwner, StartsTally, CountsTally;
    OnlyNewKeys(r, p);
    ListsUnion(r.existingStarts, starts, StartsByKey(p.newStarts), p.newStarts);
    if OneOwner(p.apps, p.apps.Keys) {
      ListsUnion(r.existingStops, stops, StopsByKey(p.newStops), p.newStops);
    }
  }

  lemma ListsUnion<K, M>(a: map<K, M>, sa: seq<M>, b: map<K, M>, sb: seq<M>)
    requires Lists(a, sa) && Lists(b, sb) && a.Keys !! b.Keys
    ensures Lists(a + b, sa + sb)
  {
    forall m | m in sa + sb ensures m in (a + b).Values {
      if m in sa {
        var k :| k in a && a[k] == m;
        assert (a + b)[k] == m;
      } else {
        var k :| k in b && b[k] == m;
        assert (a + b)[k] == m;
      }
    }
    UnionSize(a, b);
  }

  lemma UnionSize<K, M>(a: map<K, M>, b: map<K, M>)
    requires a.Keys !! b.Keys
    ensures |a + b| == |a| + |b|
  {
    assert (a + b).Keys == a.Keys + b.Keys;
  }
}
