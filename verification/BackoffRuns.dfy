/** Runs of analyses over an index that crashes again and again, being up in between or not: the stored
    crash count is the number of restarts queued so far, so the delays follow the backoff law one by one. */
module BackoffRuns {
  import opened AppAnalysis
  import opened CrashDelay
  import opened Models

  // One analysis of an app: the crash counts stored for it, what the analysis saw and what it yielded.
  datatype CrashRound = CrashRound(
    now: int,
    stored: map<int, CrashCount>,
    app: AppSnapshot,
    queued: set<StartKey>,
    starts: map<StartKey, PendingStart>)
  {
    function Counts(): seq<CrashCount> { CrashIncrements(app, queued, now, app.desired.numberOfInstances) }

    function StoredAfter(): map<int, CrashCount> { stored + CountsByIndex(Counts()) }
  }

  function CountsByIndex(cs: seq<CrashCount>): map<int, CrashCount> {
    if cs == [] then map[]
    else CountsByIndex(cs[..|cs| - 1])[cs[|cs| - 1].instanceIndex := cs[|cs| - 1]]
  }

  // Crash counts are looked up under their own index.
  ghost predicate WellKeyed(a: AppSnapshot) {
    forall i :: i in a.crashCounts ==> a.crashCounts[i].instanceIndex == i
  }

  ghost predicate SameAt(a: map<int, CrashCount>, b: map<int, CrashCount>, index: int) {
    (index in a <==> index in b) && (index in a ==> a[index] == b[index])
  }

  // An app is read together with its counts if anything at all is reported of it.
  ghost predicate IsRound(r: CrashRound, conf: Config, index: int)
    requires conf.Valid()
  {
    && WellKeyed(r.app)
    && (r.app.instanceHeartbeats != [] ==> SameAt(r.app.crashCounts, r.stored, index))
    && ExactStarts(r.app, conf, r.now, r.queued, r.starts)
  }

  // Each round finds the counts that the one before it left: none has expired.
  ghost predicate IsRun(rounds: seq<CrashRound>, conf: Config, index: int)
    requires conf.Valid()
  {
    && (forall i :: 0 <= i < |rounds| ==> IsRound(rounds[i], conf, index))
    && (forall i :: 0 < i < |rounds| ==> SameAt(rounds[i - 1].StoredAfter(), rounds[i].stored, index))
  }

  function CountIn(stored: map<int, CrashCount>, index: int): int {
    if index in stored then stored[index].crashCount else 0
  }

  predicate QueuesRestart(r: CrashRound, index: int) { CountsCrash(r.app, r.queued, index) }

  // How many of the rounds before the i-th queued a restart of the index.
  ghost function Restarts(rounds: seq<CrashRound>, index: int, i: nat): nat
    requires i <= |rounds|
  {
    if i == 0 then 0
    else Restarts(rounds, index, i - 1) + (if QueuesRestart(rounds[i - 1], index) then 1 else 0)
  }

  lemma {:induction false} IncrementAt(a: AppSnapshot, queued: set<StartKey>, now: int, n: int, index: int)
    requires WellKeyed(a)
    ensures var stored := CountsByIndex(CrashIncrements(a, queued, now, n));
            && (index in stored <==> 0 <= index < n && CountsCrash(a, queued, index))
            && (index in stored ==>
                  stored[index] == a.CrashCountAt(index, now).(crashCount := a.CrashCountAt(index, now).crashCount + 1))
    decreases n
  {
    hide CountsCrash;
    if n > 0 {
      IncrementAt(a, queued, now, n - 1, index);
      var init := CrashIncrements(a, queued, now, n - 1);
      var c := a.CrashCountAt(n - 1, now);
      assert (init + [c.(crashCount := c.crashCount + 1)])[..|init|] == init;
    }
  }

  // A crashed instance is reported, so the count that is raised is the one that is stored.
  lemma RestartReadsCount(r: CrashRound, conf: Config, index: int)
    requires conf.Valid() && IsRound(r, conf, index) && QueuesRestart(r, index)
    ensures r.app.CrashCountAt(index, r.now).crashCount == CountIn(r.stored, index)
  {
  }

  /** A round raises the stored count by one if it queues a restart of the index, and otherwise, whether the
      index is up or missing or its restart is queued already, leaves it alone. */
  lemma CountStep(r: CrashRound, conf: Config, index: int)
    requires conf.Valid() && IsRound(r, conf, index)
    ensures CountIn(r.StoredAfter(), index) == CountIn(r.stored, index) + (if QueuesRestart(r, index) then 1 else 0)
  {
    hide ExactStarts, SameAt;
    IncrementAt(r.app, r.queued, r.now, r.app.desired.numberOfInstances, index);
    if QueuesRestart(r, index) {
      RestartReadsCount(r, conf, index);
    }
  }

  lemma {:induction false} CountIsRestarts(rounds: seq<CrashRound>, conf: Config, index: int, i: nat)
    requires conf.Valid() && IsRun(rounds, conf, index) && i < |rounds|
    ensures CountIn(rounds[i].stored, index) == CountIn(rounds[0].stored, index) + Restarts(rounds, index, i)
  {
    hide IsRound, CountsCrash, CrashRound.StoredAfter;
    if i > 0 {
      CountIsRestarts(rounds, conf, index, i - 1);
      CountStep(rounds[i - 1], conf, index);
    }
  }

  /** The k-th restart newly queued for an index that crashes again and again, counting from zero and from a
      clean slate, is delayed by exactly what the backoff law says for k crashes, whatever the index did
      in between. If an instance is also evacuating there, the start that is queued is for that, at once. */
  lemma KthRestartDelay(rounds: seq<CrashRound>, conf: Config, index: int, i: nat, k: nat)
    requires conf.Valid() && conf.startingBackoff <= conf.maximumBackoff
    requires IsRun(rounds, conf, index) && i < |rounds|
    requires index !in rounds[0].stored
    requires QueuesRestart(rounds[i], index) && Restarts(rounds, index, i) == k
    ensures var r := rounds[i];
            var key := StartKey(r.app.appGuid, r.app.appVersion, index);
            && key in r.starts
            && (if NeedsEvacuatingStart(r.app, index) then
                  r.starts[key].startReason == EvacuatingStart && r.starts[key].sendOn == r.now
                else
                  && r.starts[key].startReason == CrashedStart
                  && r.starts[key].sendOn ==
                     r.now + ExponentialBackoff(k, conf.crashesBeforeBackoff, conf.startingBackoff,
                                                conf.maximumBackoff))
  {
    CountIsRestarts(rounds, conf, index, i);
    BackoffLaw(k, conf.crashesBeforeBackoff, conf.startingBackoff, conf.maximumBackoff);
    assert IsRound(rounds[i], conf, index);
    RestartReadsCount(rounds[i], conf, index);
  }
}
