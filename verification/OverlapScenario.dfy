/** An app that comes on two pages of a fetch has its crashed instance restarted twice at once, played out on
    the objects of the control loop. */
module OverlapScenario {
  import opened Analyzers
  import opened AppAnalysis
  import opened ControlLoop
  import opened Freshness
  import opened Models
  import opened PendingStores
  import opened SendDecisions
  import opened Senders
  import opened SyncerScenarios
  import opened Syncers

  const CONF := Config(30, 3, 30, 960)
  const KEY := AppKey("app", "version")
  const WANTED := DesiredAppState("app", "version", 1, Started, Staged)
  const CRASH := InstanceHeartbeat("app", "version", "a", 0, Crashed, 0, "dea")

  // One instance is desired and has crashed.
  const CRASHED := AppSnapshot("app", "version", WANTED, [CRASH], map[])
  const ACTUAL: map<AppKey, AppSnapshot> := map[KEY := CRASHED.(desired := NOT_DESIRED)]
  const PAGE: Batch := map[KEY := WANTED]

  // Its restart, which is to be kept for 30 seconds once it is sent.
  const RESTART := PendingStart(30, 0, 30, "app", "version", 0, 1.0, false, CrashedStart)

  const ROUND := Round(CONF, 30, map[], map[])

  lemma OnlyRestartOwed()
    ensures CONF.Valid() && forall m :: StartOwed(ROUND, CRASHED, m) <==> m == RESTART
    ensures forall key :: OwesKey(ROUND, CRASHED, key) <==> key == RESTART.StoreKey()
  {
    assert CRASHED.instanceHeartbeats[0] == CRASH;
    assert CRASHED.HasCrashedAt(0);
    assert NeedsCrashedStart(CRASHED, 0) && !NeedsEvacuatingStart(CRASHED, 0);
    NothingCovered();
    assert Priority(CRASHED) == 1.0;
    assert OwedStart(CRASHED, CONF, 30, 0) == RESTART;
    forall i ensures NeedsStart(CRASHED, i) <==> i == 0 {
    }
  }

  lemma NothingCovered()
    ensures CRASHED.CoveredIndices(1) == 0
  {
    assert CRASHED.CoveredIndices(0) == 0;
  }

  lemma AnalyzedOnBothPages()
    ensures WithDesired(ACTUAL, WANTED) == CRASHED
    ensures DesiredSnapshots(ACTUAL, [PAGE, PAGE]) == {CRASHED}
  {
    assert [PAGE, PAGE][0] == PAGE && KEY in PAGE;
    assert WithDesired(ACTUAL, [PAGE, PAGE][0][KEY]) == CRASHED;
  }

  lemma CalledTwice(key: StartKey)
    ensures TimesCalled(ROUND, ACTUAL, [PAGE, PAGE], key) == if key == RESTART.StoreKey() then 2 else 0
  {
    OnlyRestartOwed();
    AnalyzedOnBothPages();
    hide OwesKey, WithDesired;
    assert [PAGE, PAGE][..1] == [PAGE] && [PAGE][..0] == [];
    assert AppOf(RESTART.StoreKey()) == KEY;
    assert Calls(ROUND, ACTUAL, PAGE, PAGE.Keys, key) == if key == RESTART.StoreKey() then 1 else 0;
    assert TimesCalled(ROUND, ACTUAL, [], key) == 0;
    assert TimesCalled(ROUND, ACTUAL, [PAGE], key) == if key == RESTART.StoreKey() then 1 else 0;
  }

  // What the analyzer makes of it and hands to the sender.
  lemma HandedOnTwice(t: Turn)
    requires Taken(t) && t.round == ROUND && t.actual == ACTUAL && t.batches == [PAGE, PAGE]
    ensures t.startMessages == [RESTART, RESTART]
  {
    hide Taken, KeysOf, TimesCalled;
    RoundIsHandedOn(t);
    OnlyRestarts(t);
    CalledTwice(RESTART.StoreKey());
    hide PAGE, ACTUAL, CRASHED, RESTART;
    var stored :| Lists(t.round.existingStarts, stored) && t.startMessages == stored + t.p.newStarts;
    assert stored == [];
    assert forall i :: 0 <= i < |t.p.newStarts| ==> t.p.newStarts[i] in t.p.newStarts;
    AllOfOne(t.p.newStarts, RESTART);
    TwoOfOne(t.p.newStarts, RESTART);
  }

  lemma {:induction false} AllOfOne(ms: seq<PendingStart>, m: PendingStart)
    requires forall i :: 0 <= i < |ms| ==> ms[i] == m
    ensures KeysOf(ms)[m.StoreKey()] == |ms|
  {
    if ms != [] {
      var init := ms[..|ms| - 1];
      AllOfOne(init, m);
      assert KeysOf(ms) == KeysOf(init) + multiset{m.StoreKey()};
    }
  }

  lemma TwoOfOne(ms: seq<PendingStart>, m: PendingStart)
    requires |ms| == 2 && forall x :: x in ms ==> x == m
    ensures ms == [m, m]
  {
    assert ms[0] in ms && ms[1] in ms;
  }

  lemma OnlyRestarts(t: Turn)
    requires Taken(t) && t.round == ROUND && t.actual == ACTUAL && t.batches == [PAGE, PAGE]
    ensures forall m :: m in t.p.newStarts ==> m == RESTART
    ensures KEY in t.p.apps && t.p.apps[KEY] == CRASHED
  {
    OnlyRestartOwed();
    AnalyzedOnBothPages();
    hide Tallied, HandedOn, Lists, OneOwner, DisjointBatches, RunFollows, QueuesTouched, ActualApps, KeyedQueues,
         StartOwed, StopOwed, CountRaised, StopGuids, Quiet, WithDesired, OwesKey, DesiredSnapshots,
         RemovedSnapshots;
    assert [PAGE, PAGE][1] == PAGE && NotAfter([PAGE, PAGE], 1, KEY);
    assert t.batches[1][KEY] == WANTED;
  }

  lemma SentTwice(t: Turn)
    requires Taken(t) && t.round == ROUND && t.actual == ACTUAL && t.batches == [PAGE, PAGE]
    requires t.sent == 30 && t.limit == 2 && AllAccepted(t.run.startPosts)
    ensures t.run.startPosts == [Post(RESTART, true), Post(RESTART, true)]
  {
    HandedOnTwice(t);
    OnlyRestarts(t);
    RunOfTurn(t);
    hide Taken;
    TwoArePosted(t.p.apps, t.startMessages, t.run);
  }

  lemma RunOfTurn(t: Turn)
    requires Taken(t)
    ensures RunFollows(t.p.apps, t.sent, t.limit, t.startMessages, t.stopMessages, t.run)
  {
    hide CompleteRound, QueuesTouched, KeyedQueues, ActualApps, KeyedBatch, RunFollows;
  }

  lemma TwoArePosted(apps: map<AppKey, AppSnapshot>, starts: seq<PendingStart>, run: SendRun)
    requires KEY in apps && apps[KEY] == CRASHED && starts == [RESTART, RESTART] && AllAccepted(run.startPosts)
    requires multiset(run.sorted) == multiset(starts)
    requires ThrottledPrefix(run.startPosts, DueStarts(apps, 30, run.sorted), 2)
    ensures run.startPosts == [Post(RESTART, true), Post(RESTART, true)]
  {
    RestartIsDue(apps);
    hide DueStarts, IsDueStart, RESTART, CRASHED, ThrottledPrefix, AllAccepted, Pendings;
    SameElements(run.sorted, starts);
    TwoOfOne(run.sorted, RESTART);
    AllDue(apps, 30, run.sorted);
    PostsOfTwo(run.startPosts, RESTART);
  }

  // Nothing stands in the way of two posts.
  lemma PostsOfTwo(posts: seq<Post<PendingStart>>, m: PendingStart)
    requires ThrottledPrefix(posts, [m, m], 2) && AllAccepted(posts)
    ensures posts == [Post(m, true), Post(m, true)]
  {
    ThrottleIsExact(posts, [m, m], 2);
    assert posts[0].pending == Pendings(posts)[0] == m && posts[0] in posts;
    assert posts[1].pending == Pendings(posts)[1] == m && posts[1] in posts;
  }

  lemma RestartIsDue(apps: map<AppKey, AppSnapshot>)
    requires KEY in apps && apps[KEY] == CRASHED
    ensures IsDueStart(apps, 30, RESTART)
  {
  }

  /** A fetch delivers the same page twice. The turn analyzes the app twice, finds nothing queued either time,
      and posts the same restart twice at the same moment, although it is to be kept for 30 seconds. */
  method RestartIsSentTwice() returns (controller: CloudController, ghost turn: Option<Turn>)
    ensures turn.Some? && Taken(turn.value) && turn.value.batches == [PAGE, PAGE] && turn.value.actual == ACTUAL
    ensures turn.value.round == ROUND && turn.value.sent == 30
    ensures controller.startAnswer == Yes
    ensures controller.startPosts == [Post(RESTART, true), Post(RESTART, true)]
  {
    hide FreshnessStore.Valid, PendingStore.Valid, UnbrokenFrom, Taken, Completed, OneOwner, DisjointBatches,
         Accepted;
    var freshness := new FreshnessStore(30);
    var ok := freshness.BumpActualFreshness(0, BumpRequests(0, false, 0, Confirmed));
    ok := freshness.BumpActualFreshness(20 * SECOND, BumpRequests(20 * SECOND, false, 20 * SECOND, Confirmed));
    assert freshness.history == TWO_BUMPS;
    FreshAfterTwo(30 * SECOND);
    var store := new PendingStore();
    var analyzer := new Analyzer(store, freshness, CONF);
    controller := new CloudController(Yes, Yes);
    var read := Reading(30 * SECOND, false);
    var world := TurnWorld(30 * SECOND, AnalyzeWorld(read, false, false, false, false), 30 * SECOND,
                           SendWorld(read, false, false, false, false, false));
    assert forall i :: 0 <= i < 2 ==> [PAGE, PAGE][i] == PAGE;
    ok, turn := AnalyzeAndSend(analyzer, controller, 2, world, Some(ACTUAL), [PAGE, PAGE], true);
    assert controller.startPosts == turn.value.run.startPosts;
    SentTwice(turn.value);
  }
}
