/** Turns of the control loop, seen from the stored crash counts: what one turn saves the next reads back,
    so what is proved of runs of analyses holds of the program. */
module CrashTurns {
  import opened Analyzers
  import opened AppAnalysis
  import opened BackoffRuns
  import Coherence
  import opened ControlLoop
  import opened CrashDelay
  import opened Models
  import opened PendingStores
  import opened SendDecisions

  // The counts stored for an app, by index.
  function StoredFor(counts: map<StartKey, CrashCount>, k: AppKey): map<int, CrashCount> {
    map i | i in IndicesOf(counts, k) :: counts[StartKey(k.appGuid, k.appVersion, i)]
  }

  function IndicesOf(counts: map<StartKey, CrashCount>, k: AppKey): (r: set<int>)
    ensures forall i :: i in r <==> StartKey(k.appGuid, k.appVersion, i) in counts
  {
    var r := set key | key in counts && AppOf(key) == k :: key.index;
    assert forall i :: var key := StartKey(k.appGuid, k.appVersion, i);
                       key in counts ==> AppOf(key) == k && key.index in r;
    r
  }

  // The app as the turn knows it; one that is neither reported nor desired has nothing to it.
  function AppIn(t: Turn, k: AppKey): AppSnapshot {
    if k in t.p.apps then t.p.apps[k] else AppSnapshot(k.appGuid, k.appVersion, NOT_DESIRED, [], map[])
  }

  function StartsFor(starts: map<StartKey, PendingStart>, k: AppKey): map<StartKey, PendingStart> {
    map key | key in starts && AppOf(key) == k :: starts[key]
  }

  function RoundFor(t: Turn, k: AppKey): CrashRound {
    CrashRound(t.round.now, StoredFor(t.counts, k), AppIn(t, k), t.round.existingStarts.Keys,
               StartsFor(StartsByKey(t.p.newStarts), k))
  }

  // Counts are stored under their own keys and read with the apps they belong to.
  ghost predicate CountsAreRead(t: Turn) {
    && (forall key :: key in t.counts ==> CrashKey(t.counts[key]) == key)
    && (forall k :: k in t.actual ==> t.actual[k].crashCounts == StoredFor(t.counts, k))
  }

  /** Turns one after another, each finding the count of an index as the last of them left it. Turns that
      came to nothing may lie in between as long as they raised no count of the index, which one refused
      because its starts could not be saved may have done. */
  ghost predicate CountsChain(turns: seq<Turn>, k: AppKey, index: int, conf: Config) {
    && (forall i :: 0 <= i < |turns| ==>
          && Taken(turns[i]) && DisjointBatches(turns[i].batches) && turns[i].round.conf == conf
          && CountsAreRead(turns[i])
          && NonNegativeIndices(AppIn(turns[i], k)))
    && (forall i :: 0 < i < |turns| ==>
          SameAt(StoredFor(turns[i - 1].CountsLeft(), k), StoredFor(turns[i].counts, k), index))
  }

  // ---------- one turn ----------

  ghost predicate OwnCounts(a: AppSnapshot) {
    forall i :: i in a.crashCounts ==> CrashKey(a.crashCounts[i]) == StartKey(a.appGuid, a.appVersion, i)
  }

  // What is known of the app of a turn.
  lemma AppOfTurn(t: Turn, k: AppKey)
    requires Taken(t) && DisjointBatches(t.batches) && CountsAreRead(t)
    ensures var a := AppIn(t, k);
            && a.Key() == k
            && OwnCounts(a)
            && (a.instanceHeartbeats != [] ==> a.crashCounts == StoredFor(t.counts, k))
            && (k !in DesiredKeys(t.batches) ==> a.desired == NOT_DESIRED)
  {
    hide Tallied, Gathered, RunFollows, QueuesTouched, KeyedQueues, DesiredSnapshots, NotAfter, Lists, OneOwner,
         DisjointBatches;
    if k in DesiredKeys(t.batches) {
      var i := LastNaming(t.batches, k);
      assert t.p.apps[k] == WithDesired(t.actual, t.batches[i][k]);
    }
  }

  lemma StartsOfTurn(t: Turn, k: AppKey)
    requires Taken(t) && DisjointBatches(t.batches) && CountsAreRead(t) && NonNegativeIndices(AppIn(t, k))
    ensures ExactStarts(AppIn(t, k), t.round.conf, t.round.now, t.round.existingStarts.Keys,
                        StartsFor(StartsByKey(t.p.newStarts), k))
  {
    AppOfTurn(t, k);
    TallyOfTurn(t);
    hide Taken, CountsAreRead, CountsTally, StartsTally, ExactStarts, NeedsStart;
    if k !in DesiredKeys(t.batches) {
      NothingNeeded(AppIn(t, k));
    }
    StartsOfApp(t.round, t.p.apps, DesiredKeys(t.batches), StartsByKey(t.p.newStarts), k, AppIn(t, k));
  }

  lemma StartsOfApp(r: Round, apps: map<AppKey, AppSnapshot>, desired: set<AppKey>, starts: map<StartKey, PendingStart>,
                    k: AppKey, a: AppSnapshot)
    requires r.conf.Valid() && desired <= apps.Keys && StartsTally(r, apps, desired, starts) && a.Key() == k
    requires if k in desired then a == apps[k] else forall i :: !NeedsStart(a, i)
    ensures ExactStarts(a, r.conf, r.now, r.existingStarts.Keys, StartsFor(starts, k))
  {
    hide NeedsStart, OwedStart;
    var own := StartsFor(starts, k);
    forall key ensures key in own <==> OfApp(a, key) && key !in r.existingStarts && NeedsStart(a, key.index) {
      assert OfApp(a, key) <==> AppOf(key) == k;
    }
  }

  lemma NothingNeeded(a: AppSnapshot)
    requires a.desired == NOT_DESIRED && NonNegativeIndices(a)
    ensures forall i :: !NeedsStart(a, i)
  {
  }

  lemma TallyOfTurn(t: Turn)
    requires Taken(t) && DisjointBatches(t.batches)
    ensures DesiredKeys(t.batches) <= t.p.apps.Keys
    ensures StartsTally(t.round, t.p.apps, DesiredKeys(t.batches), StartsByKey(t.p.newStarts))
    ensures CountsTally(t.round, t.p.apps, t.p.apps.Keys, t.p.crashCounts)
  {
    hide Gathered, RunFollows, QueuesTouched, KeyedQueues, DesiredSnapshots, LastBatchCounts, HandedOn, Lists,
         OneOwner, DisjointBatches, StartsTally, StopsTally, CountsTally, ActualApps, KeyedBatch, StartsByKey;
  }

  // ---------- the counts a turn leaves ----------

  // Every count raised is stored under the key of its app and index, and no two under the same.
  lemma RaisedUnderKey(r: Round, a: AppSnapshot, c: CrashCount)
    requires OwnCounts(a)
    ensures CountRaised(r, a, c) <==>
            exists i :: 0 <= i < a.desired.numberOfInstances && CountsCrash(a, r.existingStarts.Keys, i) &&
              c == Raised(a, r.now, i) && CrashKey(c) == StartKey(a.appGuid, a.appVersion, i)
  {
    hide CountsCrash;
    IncrementsAre(a, r.existingStarts.Keys, r.now, a.desired.numberOfInstances, c);
  }

  function Raised(a: AppSnapshot, now: int, i: int): CrashCount {
    a.CrashCountAt(i, now).(crashCount := a.CrashCountAt(i, now).crashCount + 1)
  }

  // What the saved counts hold for an app and index.
  ghost predicate SavedFor(saved: map<StartKey, CrashCount>, a: AppSnapshot, queued: set<StartKey>, now: int,
                           index: int) {
    var key := StartKey(a.appGuid, a.appVersion, index);
    && (key in saved <==> 0 <= index < a.desired.numberOfInstances && CountsCrash(a, queued, index))
    && (key in saved ==> saved[key] == Raised(a, now, index))
  }

  lemma SavedAt(r: Round, apps: map<AppKey, AppSnapshot>, counts: seq<CrashCount>, k: AppKey, a: AppSnapshot,
                index: int)
    requires CountsTally(r, apps, apps.Keys, counts) && a.Key() == k && OwnCounts(a)
    requires forall j :: j in apps ==> apps[j].Key() == j && OwnCounts(apps[j])
    requires if k in apps then apps[k] == a else a.desired == NOT_DESIRED
    ensures SavedFor(CountsByKey(counts), a, r.existingStarts.Keys, r.now, index)
  {
    hide CountsCrash, CountRaised, CountsByKey, OwnCounts;
    var saved, key := CountsByKey(counts), StartKey(k.appGuid, k.appVersion, index);
    if key in saved {
      var c := saved[key];
      var j :| j in apps && CountRaised(r, apps[j], c);
      RaisedUnderKey(r, apps[j], c);
      assert j == k;
    }
    if 0 <= index < a.desired.numberOfInstances && CountsCrash(a, r.existingStarts.Keys, index) {
      RaisedOwnKey(a, r.now, index);
      RaisedUnderKey(r, a, Raised(a, r.now, index));
      assert Raised(a, r.now, index) in counts;
    }
  }

  lemma RaisedOwnKey(a: AppSnapshot, now: int, index: int)
    requires OwnCounts(a)
    ensures CrashKey(Raised(a, now, index)) == StartKey(a.appGuid, a.appVersion, index)
  {
  }

  lemma AppsOfTurn(t: Turn)
    requires Taken(t) && DisjointBatches(t.batches) && CountsAreRead(t)
    ensures forall j :: j in t.p.apps ==> t.p.apps[j].Key() == j && OwnCounts(t.p.apps[j])
  {
    hide Taken, CountsAreRead, OwnCounts;
    forall j | j in t.p.apps ensures t.p.apps[j].Key() == j && OwnCounts(t.p.apps[j]) {
      AppOfTurn(t, j);
    }
  }

  lemma StoredAt(counts: map<StartKey, CrashCount>, k: AppKey, index: int)
    ensures var key := StartKey(k.appGuid, k.appVersion, index);
            && (index in StoredFor(counts, k) <==> key in counts)
            && (key in counts ==> StoredFor(counts, k)[index] == counts[key])
  {
  }

  lemma CountsOfTurn(t: Turn, k: AppKey, index: int)
    requires Taken(t) && DisjointBatches(t.batches) && CountsAreRead(t)
    ensures SameAt(StoredFor(t.CountsLeft(), k), RoundFor(t, k).StoredAfter(), index)
  {
    hide Taken, CountsAreRead, CountsCrash, CountsByKey, StoredFor, OwnCounts, CountsTally, StartsTally, WellKeyed;
    var r := RoundFor(t, k);
    TallyOfTurn(t);
    AppOfTurn(t, k);
    AppsOfTurn(t);
    OwnIsWellKeyed(r.app);
    SavedAt(t.round, t.p.apps, t.p.crashCounts, k, r.app, index);
    StoredAt(t.counts, k, index);
    StoredAt(t.CountsLeft(), k, index);
    IncrementAt(r.app, r.queued, r.now, r.app.desired.numberOfInstances, index);
  }

  lemma OwnIsWellKeyed(a: AppSnapshot)
    requires OwnCounts(a)
    ensures WellKeyed(a)
  {
  }

  // ---------- whole runs ----------

  function CrashRounds(turns: seq<Turn>, k: AppKey): seq<CrashRound> {
    seq(|turns|, i requires 0 <= i < |turns| => RoundFor(turns[i], k))
  }

  lemma RoundOfTurn(t: Turn, k: AppKey, index: int)
    requires Taken(t) && DisjointBatches(t.batches) && CountsAreRead(t) && NonNegativeIndices(AppIn(t, k))
    ensures BackoffRuns.IsRound(RoundFor(t, k), t.round.conf, index)
  {
    hide Taken, CountsAreRead, ExactStarts, StoredFor, OwnCounts;
    StartsOfTurn(t, k);
    AppOfTurn(t, k);
    OwnIsWellKeyed(AppIn(t, k));
  }

  lemma TurnsFormCrashRun(turns: seq<Turn>, k: AppKey, index: int, conf: Config)
    requires conf.Valid() && CountsChain(turns, k, index, conf)
    ensures BackoffRuns.IsRun(CrashRounds(turns, k), conf, index)
  {
    hide Taken, CountsAreRead, BackoffRuns.IsRound, NonNegativeIndices, SameAt, CrashRound.StoredAfter, AppIn,
         StoredFor;
    var rounds := CrashRounds(turns, k);
    forall i | 0 <= i < |rounds| ensures BackoffRuns.IsRound(rounds[i], conf, index) {
      RoundOfTurn(turns[i], k, index);
    }
    forall i | 0 < i < |rounds| ensures SameAt(rounds[i - 1].StoredAfter(), rounds[i].stored, index) {
      CountsOfTurn(turns[i - 1], k, index);
      SameAtTwice(rounds[i - 1].StoredAfter(), StoredFor(turns[i - 1].CountsLeft(), k), rounds[i].stored, index);
    }
  }

  lemma SameAtTwice(a: map<int, CrashCount>, b: map<int, CrashCount>, c: map<int, CrashCount>, index: int)
    requires SameAt(b, a, index) && SameAt(b, c, index)
    ensures SameAt(a, c, index)
  {
  }

  /** In the turns of the program, the k-th restart queued for an index that crashes again and again carries
      the delay of the backoff law for k crashes. */
  lemma TurnsBackOff(turns: seq<Turn>, app: AppKey, index: int, conf: Config, i: nat, k: nat)
    requires conf.Valid() && conf.startingBackoff <= conf.maximumBackoff
    requires CountsChain(turns, app, index, conf) && i < |turns|
    requires StartKey(app.appGuid, app.appVersion, index) !in turns[0].counts
    requires CountsCrash(AppIn(turns[i], app), turns[i].round.existingStarts.Keys, index)
    requires !NeedsEvacuatingStart(AppIn(turns[i], app), index)
    requires Restarts(CrashRounds(turns, app), index, i) == k
    ensures var key := StartKey(app.appGuid, app.appVersion, index);
            var starts := StartsByKey(turns[i].p.newStarts);
            && key in starts && starts[key].startReason == CrashedStart
            && starts[key].sendOn ==
               turns[i].round.now + ExponentialBackoff(k, conf.crashesBeforeBackoff, conf.startingBackoff,
                                                       conf.maximumBackoff)
  {
    hide Taken, CountsAreRead, BackoffRuns.IsRun, NonNegativeIndices, CountsCrash, NeedsEvacuatingStart,
         StartsByKey;
    TurnsFormCrashRun(turns, app, index, conf);
    AppOfTurn(turns[i], app);
    KthRestartDelay(CrashRounds(turns, app), conf, index, i, k);
  }
}
