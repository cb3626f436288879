/** Runs of the kind the duplicate theorems speak of exist, for every app and every timetable of rounds;
    and one in which the shipped settings stop all of three duplicates. */
module DuplicateExample {
  import opened AppAnalysis
  import opened DuplicateRuns
  import opened DuplicateTiming
  import opened Models
  import opened SendDecisions

  // ---------- one round ----------

  ghost function Listing(queue: map<string, PendingStop>): seq<PendingStop> {
    if queue == map[] then [] else
    var k :| k in queue;
    Listing(queue - {k}) + [queue[k]]
  }

  lemma {:induction false} ListingLists(queue: map<string, PendingStop>)
    ensures Lists(queue, Listing(queue))
  {
    if queue != map[] {
      var k :| k in queue && Listing(queue) == Listing(queue - {k}) + [queue[k]];
      ListingLists(queue - {k});
      assert queue.Keys == (queue - {k}).Keys + {k};
      assert |queue.Keys| == |(queue - {k}).Keys| + 1;
    }
  }

  // The controller accepts every post.
  ghost function AllAccepted(due: seq<PendingStop>): (posts: seq<Post<PendingStop>>)
    ensures Pendings(posts) == due && forall p :: p in posts ==> p.accepted
  {
    var posts := seq(|due|, i requires 0 <= i < |due| => Post(due[i], true));
    assert Pendings(posts) == due;
    posts
  }

  ghost function Left(queue: map<string, PendingStop>, now: int, apps: map<AppKey, AppSnapshot>,
                      posts: seq<Post<PendingStop>>): map<string, PendingStop> {
    map k | k in queue && !RetiresStop(apps, now, posts, queue[k]) ::
      if MarksStop(posts, queue[k]) then queue[k].(sentOn := now) else queue[k]
  }

  // A round over the queue as it is, with an app that is the only one.
  ghost function RoundAt(analyzed: int, now: int, app: AppSnapshot, queue: map<string, PendingStop>): StopRound {
    var apps := map[app.Key() := app];
    var posts := AllAccepted(DueStops(apps, now, Listing(queue)));
    StopRound(analyzed, now, app, apps, queue, Listing(queue), posts, Left(queue, now, apps, posts))
  }

  ghost predicate OwnQueue(queue: map<string, PendingStop>, key: AppKey) {
    forall k :: k in queue ==> queue[k].StoreKey() == k && AppKey(queue[k].appGuid, queue[k].appVersion) == key
  }

  lemma RoundAtIsRound(analyzed: int, now: int, app: AppSnapshot, queue: map<string, PendingStop>)
    requires OwnQueue(queue, app.Key())
    ensures var r := RoundAt(analyzed, now, app, queue);
            IsRound(queue, r) && Wrote(r) && OwnQueue(r.left, app.Key())
  {
    ListingLists(queue);
    hide Lists, Listing, DueStops, StopMessageToSend;
  }

  // ---------- what is left of an app ----------

  ghost function Without(hs: seq<InstanceHeartbeat>, gone: set<string>): (r: seq<InstanceHeartbeat>)
    ensures forall h :: h in r <==> h in hs && h.instanceGuid !in gone
  {
    if hs == [] then []
    else
      var init, last := hs[..|hs| - 1], hs[|hs| - 1];
      assert hs == init + [last];
      if last.instanceGuid in gone then Without(init, gone) else Without(init, gone) + [last]
  }

  lemma {:induction false} WithoutIsDistinct(hs: seq<InstanceHeartbeat>, gone: set<string>)
    requires DistinctGuids(hs)
    ensures DistinctGuids(Without(hs, gone))
  {
    if hs != [] {
      var init, last := hs[..|hs| - 1], hs[|hs| - 1];
      assert hs == init + [last];
      WithoutIsDistinct(init, gone);
      forall h | h in Without(init, gone) ensures h.instanceGuid != last.instanceGuid {
        var i :| 0 <= i < |init| && init[i] == h;
        assert hs[i] == h;
      }
    }
  }

  lemma LiveWithout(r: StopRound, index: int, r': StopRound, gone: set<string>)
    requires r'.app == r.app.(instanceHeartbeats := Without(r.app.instanceHeartbeats, gone))
    ensures Live(r', index) == Live(r, index) - gone
  {
    forall g | g in Live(r, index) - gone ensures g in Live(r', index) {
      var h :| h in r.app.StartingOrRunningAt(index) && h.instanceGuid == g;
      assert h in r'.app.StartingOrRunningAt(index);
    }
    forall g | g in Live(r', index) ensures g in Live(r, index) - gone {
      var h :| h in r'.app.StartingOrRunningAt(index) && h.instanceGuid == g;
      assert h in r.app.StartingOrRunningAt(index);
    }
  }

  // ---------- whole runs ----------

  ghost predicate Ascending(times: seq<int>, gap: nat) {
    && (forall i :: 0 <= i < |times| ==> 0 < times[i])
    && (forall i :: 0 < i < |times| ==> times[i - 1] <= times[i] <= times[i - 1] + gap)
  }

  ghost predicate RunsAt(rounds: seq<StopRound>, times: seq<int>) {
    |rounds| == |times| && forall i :: 0 <= i < |rounds| ==> rounds[i].now == times[i]
  }

  // The writes of a round got through, so that every stop has met its fate.
  ghost predicate Wrote(r: StopRound) { StopFates(r.queued, r.left, r.now, r.apps, r.posts) }

  // No write fails, and every round finds just what the round before it left: nothing is queued later.
  ghost predicate Undisturbed(rounds: seq<StopRound>) {
    && (forall i :: 0 <= i < |rounds| ==> Wrote(rounds[i]))
    && (forall i :: 0 < i < |rounds| ==> rounds[i].queued == rounds[i - 1].left)
  }

  /** Whatever the app and whenever the rounds, there is a run: the controller accepts everything and
      what is stopped is gone by the next round. */
  lemma {:induction false} RunExists(app: AppSnapshot, index: int, queue: map<string, PendingStop>, times: seq<int>,
                                     gap: nat, analyzed: int) returns (rounds: seq<StopRound>)
    requires app.IsDesired() && 0 <= index && app.IsIndexDesired(index) && DistinctGuids(app.instanceHeartbeats)
    requires OwnQueue(queue, app.Key())
    requires times != [] && Ascending(times, gap) && analyzed <= times[0] <= analyzed + gap
    ensures RunsAt(rounds, times) && IsRun(queue, rounds, index, gap) && Undisturbed(rounds)
    ensures rounds[0].app == app && rounds[0].queued == queue && rounds[0].analyzed == analyzed
    decreases |times|
  {
    hide IsRun, IsRound, RoundAt, StoppedBy, Live, DistinctGuids, OwnQueue, Without, Wrote;
    var r := RoundAt(analyzed, times[0], app, queue);
    RoundAtIsRound(analyzed, times[0], app, queue);
    RoundAtFields(analyzed, times[0], app, queue);
    if |times| == 1 {
      rounds := [r];
      RunFromSteps(queue, rounds, index, gap);
    } else {
      WithoutIsDistinct(app.instanceHeartbeats, StoppedBy(r));
      var next := app.(instanceHeartbeats := Without(app.instanceHeartbeats, StoppedBy(r)));
      assert Ascending(times[1..], gap);
      var rest := RunExists(next, index, r.left, times[1..], gap, times[1]);
      LiveWithout(r, index, rest[0], StoppedBy(r));
      rounds := [r] + rest;
      RunPrepend(queue, r, rest, index, gap);
      assert RunsAt(rounds, times);
    }
  }

  lemma RoundAtFields(analyzed: int, now: int, app: AppSnapshot, queue: map<string, PendingStop>)
    ensures var r := RoundAt(analyzed, now, app, queue);
            r.analyzed == analyzed && r.now == now && r.app == app && r.queued == queue
  {
  }

  lemma RunPrepend(before: map<string, PendingStop>, r: StopRound, rest: seq<StopRound>, index: int, gap: nat)
    requires rest != [] && IsRun(r.left, rest, index, gap) && IsRound(before, r) && IndexIsDesired(r, index)
    requires 0 < r.now <= rest[0].now <= r.now + gap && r.analyzed <= r.now <= r.analyzed + gap
    requires Live(rest[0], index) == Live(r, index) - StoppedBy(r)
    ensures IsRun(before, [r] + rest, index, gap)
  {
    hide IsRun, IsRound, StoppedBy, Live, IndexIsDesired;
    var rounds := [r] + rest;
    assert QueueBefore(before, rounds, 0) == before;
    hide QueueBefore;
    forall i | 0 < i < |rounds|
      ensures 0 < rounds[i].now && IndexIsDesired(rounds[i], index)
      ensures IsRound(QueueBefore(before, rounds, i), rounds[i])
      ensures Live(rounds[i], index) == Live(rounds[i - 1], index) - StoppedBy(rounds[i - 1])
      ensures rounds[i - 1].now <= rounds[i].now <= rounds[i - 1].now + gap
    {
      StepInRest(before, r, rest, index, gap, i);
    }
    RunFromSteps(before, rounds, index, gap);
  }

  lemma StepInRest(before: map<string, PendingStop>, r: StopRound, rest: seq<StopRound>, index: int, gap: nat, i: nat)
    requires rest != [] && IsRun(r.left, rest, index, gap) && 0 < i <= |rest|
    requires r.now <= rest[0].now <= r.now + gap
    requires Live(rest[0], index) == Live(r, index) - StoppedBy(r)
    ensures var rounds := [r] + rest;
            && 0 < rounds[i].now && IndexIsDesired(rounds[i], index)
            && IsRound(QueueBefore(before, rounds, i), rounds[i])
            && Live(rounds[i], index) == Live(rounds[i - 1], index) - StoppedBy(rounds[i - 1])
            && rounds[i - 1].now <= rounds[i].now <= rounds[i - 1].now + gap
  {
    hide IsRound, StoppedBy, Live, IndexIsDesired;
    var rounds := [r] + rest;
    assert rounds[i] == rest[i - 1];
    assert IsRound(QueueBefore(r.left, rest, i - 1), rest[i - 1]);
    if i > 1 {
      assert rounds[i - 1] == rest[i - 2];
      assert QueueBefore(before, rounds, i) == rest[i - 2].left == QueueBefore(r.left, rest, i - 1);
    }
  }

  // ---------- the stops an analysis queues ----------

  ghost predicate IsStopFor(a: AppSnapshot, conf: Config, now: int, g: string, m: PendingStop) {
    m.instanceGuid == g && Justified(a, conf, now, true, m)
  }

  lemma StopExists(a: AppSnapshot, conf: Config, now: int, g: string) returns (m: PendingStop)
    requires g in StopGuids(a, now, true)
    ensures IsStopFor(a, conf, now, g, m)
  {
    var h :| h in a.instanceHeartbeats && NeedsStop(a, now, true, h) && h.instanceGuid == g;
    if StopsAsEvacuating(a, now, h) {
      m := OwedStop(a, conf, now, 0, g, EvacuationStopReason(a, now, h.instanceIndex).value);
    } else if StopsAsExtra(a, h) {
      m := OwedStop(a, conf, now, 0, g, ExtraStop);
    } else {
      assert h in a.StartingOrRunningAt(h.instanceIndex);
      var j :| 0 <= j < |a.StartingOrRunningAt(h.instanceIndex)| && a.StartingOrRunningAt(h.instanceIndex)[j] == h;
      assert HoldsPosition(a, h, j);
      m := DuplicateMessage(a, conf, now, h.instanceIndex, j);
    }
    assert StopFor(a, conf, now, true, h, m);
  }

  lemma StopsExist(a: AppSnapshot, conf: Config, now: int) returns (stops: map<string, PendingStop>)
    ensures ExactStops(a, conf, now, {}, true, stops) && OwnQueue(stops, a.Key())
    ensures forall g :: g in stops ==> !stops[g].HasBeenSent()
  {
    hide StopGuids;
    var guids := StopGuids(a, now, true);
    stops := map[];
    while stops.Keys != guids
      invariant stops.Keys <= guids
      invariant forall g :: g in stops ==> IsStopFor(a, conf, now, g, stops[g])
      decreases guids - stops.Keys
    {
      assert !(guids <= stops.Keys);
      var g :| g in guids && g !in stops.Keys;
      var m := StopExists(a, conf, now, g);
      assert guids - stops[g := m].Keys == guids - stops.Keys - {g};
      stops := stops[g := m];
    }
    forall g | g in stops
      ensures AppKey(stops[g].appGuid, stops[g].appVersion) == a.Key() && !stops[g].HasBeenSent()
    {
      var h :| h in a.instanceHeartbeats && StopFor(a, conf, now, true, h, stops[g]);
    }
  }

  // ---------- runs that stop everything ----------

  lemma FreshQueue(queue: map<string, PendingStop>, rounds: seq<StopRound>, index: int, gap: nat)
    requires rounds != [] && IsRun(queue, rounds, index, gap) && rounds[0].queued == queue
    requires forall g :: g in queue ==> !queue[g].HasBeenSent()
    ensures IsRun(map[], rounds, index, gap)
  {
    hide StoppedBy, Live, IndexIsDesired, PartStopFates, DueStops, Lists;
    assert IsRound(QueueBefore(queue, rounds, 0), rounds[0]);
    forall i | 0 <= i < |rounds| ensures IsRound(QueueBefore(map[], rounds, i), rounds[i]) {
      assert IsRound(QueueBefore(queue, rounds, i), rounds[i]);
    }
  }

  /** For any app with an odd number of instances at a desired index there is a run, with a round every
      two grace periods, in which the index loses them all: the analyzer queues just the stops it owes,
      nothing is queued after that, and each stop is sent as the sender's check allows. */
  lemma OddNumberIsLost(app: AppSnapshot, index: int, conf: Config, analyzed: int)
    returns (rounds: seq<StopRound>, stops: map<string, PendingStop>)
    requires app.IsDesired() && 0 <= index && app.IsIndexDesired(index) && DistinctGuids(app.instanceHeartbeats)
    requires 0 < conf.gracePeriod && 0 < analyzed
    requires var n := |app.StartingOrRunningAt(index)|; n >= 3 && n % 2 == 1
    ensures |rounds| == (|app.StartingOrRunningAt(index)| + 3) / 2 + 1
    ensures rounds[0].app == app && rounds[0].analyzed == analyzed
    ensures StartsWithDuplicates(map[], rounds[0], index, conf, stops) && rounds[0].queued == stops
    ensures IsRun(map[], rounds, index, 2 * conf.gracePeriod) && EverySecond(rounds, conf) && Undisturbed(rounds)
    ensures var last := rounds[|rounds| - 1]; Live(last, index) - StoppedBy(last) == {}
  {
    hide IsRun, Live, StoppedBy, AppSnapshot.StartingOrRunningAt, ExactStops, DistinctGuids, OwnQueue, StopTime,
         EverySecond;
    var n, g := |app.StartingOrRunningAt(index)|, conf.gracePeriod;
    stops := StopsExist(app, conf, analyzed);
    var times := EveryOther(analyzed, g, (n + 3) / 2);
    rounds := RunExists(app, index, stops, times, 2 * g, analyzed);
    FreshQueue(stops, rounds, index, 2 * g);
    var none: map<string, PendingStop> := map[];
    assert none.Keys == {};
    assert StartsWithDuplicates(none, rounds[0], index, conf, stops);
    TimesAreEverySecond(rounds, conf, times, analyzed, (n + 3) / 2);
    EverySecondPeriod(map[], rounds, index, conf, stops);
  }

  lemma EveryOther(analyzed: int, g: nat, last: nat) returns (times: seq<int>)
    requires 0 < analyzed
    ensures |times| == last + 1 && forall i :: 0 <= i <= last ==> times[i] == analyzed + 2 * i * g
    ensures Ascending(times, 2 * g) && times[0] == analyzed
  {
    times := seq(last + 1, i => analyzed + 2 * i * g);
    forall i | 0 < i <= last ensures times[i] == times[i - 1] + 2 * g && 0 < times[i] {
      assert 2 * i * g == 2 * (i - 1) * g + 2 * g;
      assert 0 <= 2 * i * g;
    }
  }

  lemma TimesAreEverySecond(rounds: seq<StopRound>, conf: Config, times: seq<int>, analyzed: int, last: nat)
    requires |times| == last + 1 && RunsAt(rounds, times) && rounds[0].analyzed == analyzed
    requires forall i :: 0 <= i <= last ==> times[i] == analyzed + 2 * i * conf.gracePeriod
    ensures EverySecond(rounds, conf)
    ensures StopTime(rounds[0], conf, 2 * last - 4) == rounds[last].now
  {
  }

  // Three running instances where one is desired.
  function Replica(guid: string): InstanceHeartbeat {
    InstanceHeartbeat("app", "version", guid, 0, Running, 0, "dea")
  }

  const THREE := AppSnapshot("app", "version", DesiredAppState("app", "version", 1, Started, Staged),
                             [Replica("a"), Replica("b"), Replica("c")], map[])

  // The stop of one of them.
  function StopOf(guid: string, sendOn: int): PendingStop {
    PendingStop(sendOn, 0, 30, "app", "version", guid, DuplicateStop)
  }

  /** With a grace period of 30 seconds and a round every 60, three running instances of an app of which
      one is desired are all stopped. */
  lemma ThreeAreLost(conf: Config) returns (rounds: seq<StopRound>, stops: map<string, PendingStop>)
    requires conf.gracePeriod == 30
    ensures |rounds| == 4 && rounds[0].app == THREE && |THREE.StartingOrRunningAt(0)| == 3
    ensures StartsWithDuplicates(map[], rounds[0], 0, conf, stops) && rounds[0].queued == stops
    ensures rounds[0].analyzed == 1 && Undisturbed(rounds)
    ensures stops.Keys == {"a", "b", "c"}
    ensures stops["a"] == StopOf("a", 121) && stops["b"] == StopOf("b", 151) && stops["c"] == StopOf("c", 181)
    ensures IsRun(map[], rounds, 0, 60) && forall i :: 0 <= i < |rounds| ==> rounds[i].now == 1 + 60 * i
    ensures var last := rounds[|rounds| - 1]; Live(last, 0) - StoppedBy(last) == {}
  {
    ThreeAtIndex();
    hide IsRun, Live, StoppedBy, AppSnapshot.StartingOrRunningAt;
    rounds, stops := OddNumberIsLost(THREE, 0, conf, 1);
    ThreeStops(conf, stops);
  }

  lemma ThreeAtIndex()
    ensures THREE.StartingOrRunningAt(0) == THREE.instanceHeartbeats
  {
    hide AtIndex, StartingOrRunning;
    AllAtIndex(THREE.instanceHeartbeats, 0);
    AllRunning(THREE.instanceHeartbeats);
  }

  lemma ThreeStops(conf: Config, stops: map<string, PendingStop>)
    requires conf.gracePeriod == 30 && ExactStops(THREE, conf, 1, {}, true, stops)
    ensures stops.Keys == {"a", "b", "c"}
    ensures stops["a"] == StopOf("a", 121) && stops["b"] == StopOf("b", 151) && stops["c"] == StopOf("c", 181)
  {
    ThreeAtIndex();
    hide AppSnapshot.StartingOrRunningAt, ExactStops;
    ThreeStop(conf, stops, 0);
    ThreeStop(conf, stops, 1);
    ThreeStop(conf, stops, 2);
    NoOtherStop(conf, stops);
  }

  lemma NoOtherStop(conf: Config, stops: map<string, PendingStop>)
    requires ExactStops(THREE, conf, 1, {}, true, stops)
    ensures stops.Keys <= {"a", "b", "c"}
  {
    hide NeedsStop, Justified;
    forall g | g in stops ensures g in {"a", "b", "c"} {
      assert g in StopGuids(THREE, 1, true);
      var h :| h in THREE.instanceHeartbeats && h.instanceGuid == g;
    }
  }

  lemma ThreeStop(conf: Config, stops: map<string, PendingStop>, j: int)
    requires conf.gracePeriod == 30 && ExactStops(THREE, conf, 1, {}, true, stops) && 0 <= j < 3
    requires THREE.StartingOrRunningAt(0) == THREE.instanceHeartbeats
    ensures var g := THREE.instanceHeartbeats[j].instanceGuid;
            g in stops && stops[g] == StopOf(g, 121 + 30 * j)
  {
    hide AppSnapshot.StartingOrRunningAt, Justified;
    var h := THREE.instanceHeartbeats[j];
    assert h in THREE.instanceHeartbeats && StopsAsDuplicate(THREE, h);
    assert NeedsStop(THREE, 1, true, h);
    assert h.instanceGuid in StopGuids(THREE, 1, true);
    StopIsDuplicate(THREE, conf, 1, h, stops[h.instanceGuid]);
    var i :| HoldsPosition(THREE, h, i) && stops[h.instanceGuid] == DuplicateMessage(THREE, conf, 1, 0, i);
    assert i == j;
  }

  lemma {:induction false} AllAtIndex(hs: seq<InstanceHeartbeat>, index: int)
    requires forall h :: h in hs ==> h.instanceIndex == index
    ensures AtIndex(hs, index) == hs
  {
    if hs != [] {
      assert hs == hs[..|hs| - 1] + [hs[|hs| - 1]];
      AllAtIndex(hs[..|hs| - 1], index);
    }
  }

  lemma {:induction false} AllRunning(hs: seq<InstanceHeartbeat>)
    requires forall h :: h in hs ==> h.IsStartingOrRunning()
    ensures StartingOrRunning(hs) == hs
  {
    if hs != [] {
      assert hs == hs[..|hs| - 1] + [hs[|hs| - 1]];
      AllRunning(hs[..|hs| - 1]);
    }
  }
}
