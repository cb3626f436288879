/** Runs of rounds over an index that has too many running instances: staggered stops, each checked
    again before it is sent, bring it down to exactly one. */
module DuplicateRuns {
  import opened AppAnalysis
  import opened Arithmetic
  import opened Models
  import opened SendDecisions

  // One round: when the analyzer and when the sender read the clock, a snapshot of the app, the stops
  // queued after the analyzer, the list the sender went through, its posts, and the stops left
  // afterwards.
  datatype StopRound = StopRound(
    analyzed: int,
    now: int,
    app: AppSnapshot,
    apps: map<AppKey, AppSnapshot>,
    queued: map<string, PendingStop>,
    stops: seq<PendingStop>,
    posts: seq<Post<PendingStop>>,
    left: map<string, PendingStop>)

  ghost predicate Enqueued(before: map<string, PendingStop>, after: map<string, PendingStop>) {
    && (forall k :: k in before ==> k in after && after[k] == before[k])
    && (forall k :: k in after && k !in before ==> !after[k].HasBeenSent())
    && (forall k :: k in after ==> after[k].StoreKey() == k)
  }

  // What the analyzer and the sender promise of a round whose posts were all accepted, whatever writes of the
  // sender failed; stops for an instance are queued on behalf of its own app.
  ghost predicate IsRound(before: map<string, PendingStop>, r: StopRound) {
    && Enqueued(before, r.queued)
    && Lists(r.queued, r.stops)
    && Pendings(r.posts) == DueStops(r.apps, r.now, r.stops)
    && (forall p :: p in r.posts ==> p.accepted)
    && PartStopFates(r.queued, r.left, r.now, r.apps, r.posts)
    && r.app.Key() in r.apps && r.apps[r.app.Key()] == r.app
    && (forall k :: k in r.queued && k in GuidsOf(r.app.instanceHeartbeats) ==>
          AppKey(r.queued[k].appGuid, r.queued[k].appVersion) == r.app.Key())
  }

  ghost function Live(r: StopRound, index: int): set<string> { GuidsOf(r.app.StartingOrRunningAt(index)) }

  ghost function StoppedBy(r: StopRound): set<string> { set p | p in r.posts :: p.pending.instanceGuid }

  ghost predicate IndexIsDesired(r: StopRound, index: int) {
    && r.app.IsDesired() && 0 <= index && r.app.IsIndexDesired(index)
    && DistinctGuids(r.app.instanceHeartbeats)
  }

  ghost function QueueBefore(before: map<string, PendingStop>, rounds: seq<StopRound>, i: nat): map<string, PendingStop>
    requires i <= |rounds|
  {
    if i == 0 then before else rounds[i - 1].left
  }

  // Instances at the index leave only by being stopped, and none appears; rounds are at most a grace
  // period apart.
  ghost predicate IsRun(before: map<string, PendingStop>, rounds: seq<StopRound>, index: int, grace: nat) {
    && (forall i :: 0 <= i < |rounds| ==> 0 < rounds[i].now && IndexIsDesired(rounds[i], index))
    && (forall i :: 0 <= i < |rounds| ==> IsRound(QueueBefore(before, rounds, i), rounds[i]))
    && (forall i :: 0 < i < |rounds| ==>
          && Live(rounds[i], index) == Live(rounds[i - 1], index) - StoppedBy(rounds[i - 1])
          && rounds[i - 1].now <= rounds[i].now <= rounds[i - 1].now + grace)
    && (rounds != [] ==> rounds[0].analyzed <= rounds[0].now <= rounds[0].analyzed + grace)
  }

  lemma RunFromSteps(before: map<string, PendingStop>, rounds: seq<StopRound>, index: int, gap: nat)
    requires rounds != [] && rounds[0].analyzed <= rounds[0].now <= rounds[0].analyzed + gap
    requires forall i :: 0 <= i < |rounds| ==>
               0 < rounds[i].now && IndexIsDesired(rounds[i], index) &&
               IsRound(QueueBefore(before, rounds, i), rounds[i])
    requires forall i :: 0 < i < |rounds| ==>
               && Live(rounds[i], index) == Live(rounds[i - 1], index) - StoppedBy(rounds[i - 1])
               && rounds[i - 1].now <= rounds[i].now <= rounds[i - 1].now + gap
    ensures IsRun(before, rounds, index, gap)
  {
    hide IsRound, QueueBefore, StoppedBy, Live, IndexIsDesired;
  }

  // The first round is one in which the analyzer queues the stops: several instances run at the
  // index, none has a stop queued, and no start is being queued for the app.
  ghost predicate StartsWithDuplicates(before: map<string, PendingStop>, r: StopRound, index: int, conf: Config,
                                       stops: map<string, PendingStop>) {
    && |r.app.StartingOrRunningAt(index)| >= 2
    && Live(r, index) !! before.Keys
    && ExactStops(r.app, conf, r.analyzed, before.Keys, true, stops)
    && (forall g :: g in stops ==> g in r.queued && r.queued[g] == stops[g])
  }

  ghost predicate AtMostOne(live: set<string>, stopped: set<string>) {
    forall g, g' :: g in live && g in stopped && g' in live && g' in stopped ==> g == g'
  }

  // ---------- one round ----------

  lemma LiveInstance(r: StopRound, index: int, g: string)
    requires IndexIsDesired(r, index) && g in Live(r, index)
    ensures var h := InstanceWithGuid(r.app.instanceHeartbeats, g);
            h in r.app.StartingOrRunningAt(index) && h in r.app.instanceHeartbeats &&
            h.instanceGuid == g && h.instanceIndex == index && h.IsStartingOrRunning()
  {
    var h :| h in r.app.StartingOrRunningAt(index) && h.instanceGuid == g;
    LookupFindsInstance(r.app.instanceHeartbeats, h);
  }

  // The sender's check lets a stop for a live instance through exactly while there is another one.
  lemma PassesWhileDuplicate(before: map<string, PendingStop>, r: StopRound, index: int, g: string)
    requires IsRound(before, r) && IndexIsDesired(r, index)
    requires g in Live(r, index) && g in r.queued
    ensures StopMessageToSend(r.apps, r.queued[g]).Some? <==> |r.app.StartingOrRunningAt(index)| > 1
  {
    hide PartStopFates, Lists, DueStops, StartingOrRunning, AtIndex;
    LiveInstance(r, index, g);
    assert g in GuidsOf(r.app.instanceHeartbeats);
  }

  lemma StoppedIffDue(before: map<string, PendingStop>, r: StopRound, g: string)
    requires IsRound(before, r)
    ensures g in StoppedBy(r) <==> g in r.queued && IsDueStop(r.apps, r.now, r.queued[g])
    ensures g in r.queued ==> (StopAccepted(r.posts, r.queued[g]) <==> IsDueStop(r.apps, r.now, r.queued[g]))
  {
    hide StopMessageToSend, PartStopFates;
    var due := DueStops(r.apps, r.now, r.stops);
    if g in StoppedBy(r) {
      var p :| p in r.posts && p.pending.instanceGuid == g;
      PostIsDue(r, p);
    }
    if g in r.queued && IsDueStop(r.apps, r.now, r.queued[g]) {
      assert r.queued[g] in r.stops;
      var i :| 0 <= i < |due| && due[i] == r.queued[g];
      assert Pendings(r.posts)[i] == due[i];
      assert r.posts[i] in r.posts;
      assert r.posts[i] == Post(r.queued[g], true);
    }
    if g in r.queued && StopAccepted(r.posts, r.queued[g]) {
      PostIsDue(r, Post(r.queued[g], true));
    }
  }

  lemma PostIsDue(r: StopRound, p: Post<PendingStop>)
    requires forall k :: k in r.queued ==> r.queued[k].StoreKey() == k
    requires Lists(r.queued, r.stops) && Pendings(r.posts) == DueStops(r.apps, r.now, r.stops)
    requires p in r.posts
    ensures p.pending.instanceGuid in r.queued && r.queued[p.pending.instanceGuid] == p.pending
    ensures IsDueStop(r.apps, r.now, p.pending)
  {
    hide StopMessageToSend;
    var i :| 0 <= i < |r.posts| && r.posts[i] == p;
    assert Pendings(r.posts)[i] == DueStops(r.apps, r.now, r.stops)[i];
    assert p.pending in r.stops;
    var k :| k in r.queued && r.queued[k] == p.pending;
  }

  lemma UndueIsLeft(before: map<string, PendingStop>, r: StopRound, g: string)
    requires IsRound(before, r) && g in r.queued
    requires !r.queued[g].HasBeenSent() && !r.queued[g].IsTimeToSend(r.now)
    ensures g !in StoppedBy(r) && g in r.left && r.left[g] == r.queued[g]
  {
    StoppedIffDue(before, r, g);
  }

  // ---------- the invariant ----------

  // The instance at position j of the first snapshot is live and its stop still lies ahead.
  ghost predicate Scheduled(first: StopRound, index: int, conf: Config, queue: map<string, PendingStop>,
                            g: string, j: int, after: int) {
    && 0 <= j < |first.app.StartingOrRunningAt(index)|
    && first.app.StartingOrRunningAt(index)[j].instanceGuid == g
    && g in queue && queue[g] == DuplicateMessage(first.app, conf, first.analyzed, index, j)
    && after < queue[g].sendOn
  }

  ghost predicate AllScheduled(first: StopRound, index: int, conf: Config, queue: map<string, PendingStop>,
                               live: set<string>, after: int) {
    forall g :: g in live ==> exists j :: Scheduled(first, index, conf, queue, g, j, after)
  }

  ghost predicate Singleton(s: set<string>) { exists g :: s == {g} }

  // Either one instance is left, or several are and all their stops are still to come.
  ghost predicate Shrinking(first: StopRound, index: int, conf: Config, queue: map<string, PendingStop>,
                            live: set<string>, after: int) {
    Singleton(live) || (live != {} && AllScheduled(first, index, conf, queue, live, after))
  }

  lemma SeveralLive(r: StopRound, index: int)
    requires DistinctGuids(r.app.instanceHeartbeats)
    ensures |Live(r, index)| == |r.app.StartingOrRunningAt(index)|
  {
    DistinctAtIndex(r.app.instanceHeartbeats, index);
    DistinctStartingOrRunning(AtIndex(r.app.instanceHeartbeats, index));
    DistinctGuidsCount(r.app.StartingOrRunningAt(index));
  }

  lemma SingletonSize(s: set<string>)
    ensures Singleton(s) <==> |s| == 1
  {
    if |s| == 1 {
      var g :| g in s;
      assert |s - {g}| == 0;
      assert s == {g};
    }
  }

  lemma FirstRoundSchedules(before: map<string, PendingStop>, r: StopRound, index: int, conf: Config,
                            stops: map<string, PendingStop>)
    requires IndexIsDesired(r, index) && 0 < conf.gracePeriod
    requires StartsWithDuplicates(before, r, index, conf, stops)
    ensures Shrinking(r, index, conf, r.queued, Live(r, index), r.analyzed)
  {
    hide StartsWithDuplicates, DuplicateMessage;
    forall g | g in Live(r, index) ensures exists j :: Scheduled(r, index, conf, r.queued, g, j, r.analyzed) {
      var j := InstanceIsScheduled(before, r, index, conf, stops, g);
    }
    SomeLive(before, r, index, conf, stops);
  }

  lemma SomeLive(before: map<string, PendingStop>, r: StopRound, index: int, conf: Config,
                 stops: map<string, PendingStop>)
    requires StartsWithDuplicates(before, r, index, conf, stops)
    ensures Live(r, index) != {}
  {
    var instances := r.app.StartingOrRunningAt(index);
    assert instances[0] in instances;
    assert instances[0].instanceGuid in Live(r, index);
  }

  lemma InstanceIsScheduled(before: map<string, PendingStop>, r: StopRound, index: int, conf: Config,
                            stops: map<string, PendingStop>, g: string) returns (j: int)
    requires IndexIsDesired(r, index) && 0 < conf.gracePeriod && g in Live(r, index)
    requires StartsWithDuplicates(before, r, index, conf, stops)
    ensures Scheduled(r, index, conf, r.queued, g, j, r.analyzed)
  {
    hide Justified, DuplicateMessage, StartingOrRunning, AtIndex;
    LiveInstance(r, index, g);
    var h := InstanceWithGuid(r.app.instanceHeartbeats, g);
    assert NeedsStop(r.app, r.analyzed, true, h);
    assert g in StopGuids(r.app, r.analyzed, true);
    assert g in stops && r.queued[g] == stops[g];
    StopIsDuplicate(r.app, conf, r.analyzed, h, stops[g]);
    j :| HoldsPosition(r.app, h, j) && stops[g] == DuplicateMessage(r.app, conf, r.analyzed, index, j);
    DuplicateLiesAhead(r.app, conf, r.analyzed, index, j);
  }

  lemma DuplicateLiesAhead(a: AppSnapshot, conf: Config, now: int, index: int, j: nat)
    requires j < |a.StartingOrRunningAt(index)| && 0 < conf.gracePeriod
    ensures now < DuplicateMessage(a, conf, now, index, j).sendOn
  {
    assert j * conf.gracePeriod >= 0;
  }

  lemma StopIsDuplicate(a: AppSnapshot, conf: Config, now: int, h: InstanceHeartbeat, m: PendingStop)
    requires DistinctGuids(a.instanceHeartbeats) && h in a.instanceHeartbeats
    requires StopsAsDuplicate(a, h) && Justified(a, conf, now, true, m) && m.instanceGuid == h.instanceGuid
    ensures exists j :: HoldsPosition(a, h, j) && m == DuplicateMessage(a, conf, now, h.instanceIndex, j)
  {
    var h' :| h' in a.instanceHeartbeats && StopFor(a, conf, now, true, h', m);
    StopForNamesInstance(a, conf, now, true, h', m);
    LookupFindsInstance(a.instanceHeartbeats, h);
    LookupFindsInstance(a.instanceHeartbeats, h');
  }

  lemma ScheduledTime(first: StopRound, index: int, conf: Config, queue: map<string, PendingStop>, g: string, j: int,
                      after: int)
    requires Scheduled(first, index, conf, queue, g, j, after)
    ensures 0 <= j < |first.app.StartingOrRunningAt(index)|
    ensures first.app.StartingOrRunningAt(index)[j].instanceGuid == g
    ensures g in queue && after < queue[g].sendOn == first.analyzed + (j + 4) * conf.gracePeriod
  {
    assert (j + 4) * conf.gracePeriod == j * conf.gracePeriod + 4 * conf.gracePeriod;
  }

  lemma GracePeriodsApart(i: int, j: int, grace: nat)
    requires i < j
    ensures (j + 4) * grace - (i + 4) * grace >= grace
  {
    assert (j + 4) * grace == (i + 4) * grace + grace * (j - i);
    MulMonotone(grace, 1, j - i);
  }

  // Stops are a grace period apart, so at most one of them falls due in a round.
  lemma AtMostOneDue(first: StopRound, index: int, conf: Config, queue: map<string, PendingStop>,
                     g: string, j: int, g': string, j': int, after: int, now: int)
    requires Scheduled(first, index, conf, queue, g, j, after) && Scheduled(first, index, conf, queue, g', j', after)
    requires queue[g].sendOn <= now && queue[g'].sendOn <= now <= after + conf.gracePeriod
    ensures g == g'
  {
    hide Scheduled;
    ScheduledTime(first, index, conf, queue, g, j, after);
    ScheduledTime(first, index, conf, queue, g', j', after);
    if j < j' {
      GracePeriodsApart(j, j', conf.gracePeriod);
    } else if j' < j {
      GracePeriodsApart(j', j, conf.gracePeriod);
    }
  }

  /** What one round does to the index: at most one of its instances is stopped and one at least is
      left, and what is left is again one instance or several with their stops still to come. */
  lemma RoundShrinks(first: StopRound, before: map<string, PendingStop>, r: StopRound, index: int, conf: Config,
                     after: int)
    requires 0 < conf.gracePeriod && IndexIsDesired(r, index) && IsRound(before, r)
    requires r.now <= after + conf.gracePeriod
    requires Shrinking(first, index, conf, r.queued, Live(r, index), after)
    ensures AtMostOne(Live(r, index), StoppedBy(r))
    ensures Shrinking(first, index, conf, r.left, Live(r, index) - StoppedBy(r), r.now)
    ensures Singleton(Live(r, index)) ==> Live(r, index) - StoppedBy(r) == Live(r, index)
  {
    hide IsRound, Scheduled;
    var live := Live(r, index);
    SeveralLive(r, index);
    SingletonSize(live);
    if Singleton(live) {
      forall g | g in live ensures g !in StoppedBy(r) {
        StoppedIffDue(before, r, g);
        if g in r.queued {
          PassesWhileDuplicate(before, r, index, g);
        }
      }
      assert live - StoppedBy(r) == live;
    } else {
      forall g | g in live
        ensures g in r.queued && (g in StoppedBy(r) <==> r.queued[g].sendOn <= r.now)
        ensures g !in StoppedBy(r) ==> exists j :: Scheduled(first, index, conf, r.left, g, j, r.now)
      {
        var j :| Scheduled(first, index, conf, r.queued, g, j, after);
        LiveRound(first, before, r, index, conf, g, j, after);
      }
      forall g, g' | g in live && g in StoppedBy(r) && g' in live && g' in StoppedBy(r) ensures g == g' {
        var j :| Scheduled(first, index, conf, r.queued, g, j, after);
        var j' :| Scheduled(first, index, conf, r.queued, g', j', after);
        AtMostOneDue(first, index, conf, r.queued, g, j, g', j', after, r.now);
      }
      SomeRemain(live, StoppedBy(r));
    }
  }

  lemma SomeRemain(live: set<string>, stopped: set<string>)
    requires |live| > 1
    requires AtMostOne(live, stopped)
    ensures live - stopped != {}
  {
    var g :| g in live;
    assert |live - {g}| >= 1;
    var g' :| g' in live - {g};
    assert g in live - stopped || g' in live - stopped;
  }

  // A live, scheduled instance with company is stopped when its time has come, else stays scheduled.
  lemma LiveRound(first: StopRound, before: map<string, PendingStop>, r: StopRound, index: int, conf: Config,
                  g: string, j: int, after: int)
    requires IndexIsDesired(r, index) && IsRound(before, r)
    requires g in Live(r, index) && |r.app.StartingOrRunningAt(index)| > 1
    requires Scheduled(first, index, conf, r.queued, g, j, after)
    ensures g in r.queued && (g in StoppedBy(r) <==> r.queued[g].sendOn <= r.now)
    ensures g !in StoppedBy(r) ==> Scheduled(first, index, conf, r.left, g, j, r.now)
  {
    hide IsRound;
    StoppedIffDue(before, r, g);
    PassesWhileDuplicate(before, r, index, g);
    if r.queued[g].sendOn > r.now {
      UndueIsLeft(before, r, g);
    }
  }

  // ---------- whole runs ----------

  lemma KeptByAnalyzer(first: StopRound, index: int, conf: Config, queue: map<string, PendingStop>,
                       queued: map<string, PendingStop>, live: set<string>, after: int)
    requires Enqueued(queue, queued) && Shrinking(first, index, conf, queue, live, after)
    ensures Shrinking(first, index, conf, queued, live, after)
  {
    if !Singleton(live) {
      forall g | g in live ensures exists j :: Scheduled(first, index, conf, queued, g, j, after) {
        var j :| Scheduled(first, index, conf, queue, g, j, after);
        assert Scheduled(first, index, conf, queued, g, j, after);
      }
    }
  }

  lemma {:induction false} RunShrinks(before: map<string, PendingStop>, rounds: seq<StopRound>, index: int,
                                      conf: Config,
                                      stops: map<string, PendingStop>, i: nat)
    requires 0 < conf.gracePeriod && IsRun(before, rounds, index, conf.gracePeriod) && i < |rounds|
    requires StartsWithDuplicates(before, rounds[0], index, conf, stops)
    ensures exists after :: rounds[i].now <= after + conf.gracePeriod &&
              Shrinking(rounds[0], index, conf, rounds[i].queued, Live(rounds[i], index), after)
    decreases i
  {
    hide Shrinking, StartsWithDuplicates, IsRound, Live, StoppedBy, Enqueued;
    if i == 0 {
      FirstRoundSchedules(before, rounds[0], index, conf, stops);
    } else {
      RunShrinks(before, rounds, index, conf, stops, i - 1);
      var after :| rounds[i - 1].now <= after + conf.gracePeriod &&
                   Shrinking(rounds[0], index, conf, rounds[i - 1].queued, Live(rounds[i - 1], index), after);
      RoundShrinks(rounds[0], QueueBefore(before, rounds, i - 1), rounds[i - 1], index, conf, after);
      RoundEnqueues(rounds[i - 1].left, rounds[i]);
      KeptByAnalyzer(rounds[0], index, conf, rounds[i - 1].left, rounds[i].queued, Live(rounds[i], index),
                     rounds[i - 1].now);
    }
  }

  lemma RoundEnqueues(before: map<string, PendingStop>, r: StopRound)
    requires IsRound(before, r)
    ensures Enqueued(before, r.queued)
  {
  }

  /** In every round of such a run at most one of the instances at the index is stopped and at least
      one survives. Once n+2 grace periods have passed since the stops were queued, where n is the
      number of instances there were, exactly one is left. */
  lemma DuplicatesConverge(before: map<string, PendingStop>, rounds: seq<StopRound>, index: int, conf: Config,
                           stops: map<string, PendingStop>, i: nat)
    requires 0 < conf.gracePeriod && IsRun(before, rounds, index, conf.gracePeriod) && i < |rounds|
    requires StartsWithDuplicates(before, rounds[0], index, conf, stops)
    ensures AtMostOne(Live(rounds[i], index), StoppedBy(rounds[i]))
    ensures Live(rounds[i], index) - StoppedBy(rounds[i]) != {}
    ensures var n := |rounds[0].app.StartingOrRunningAt(index)|;
            rounds[i].now >= rounds[0].analyzed + (n + 2) * conf.gracePeriod ==>
              Singleton(Live(rounds[i], index) - StoppedBy(rounds[i]))
  {
    hide StartsWithDuplicates, IsRound, Live, StoppedBy;
    RunShrinks(before, rounds, index, conf, stops, i);
    var after :| rounds[i].now <= after + conf.gracePeriod &&
                 Shrinking(rounds[0], index, conf, rounds[i].queued, Live(rounds[i], index), after);
    RoundShrinks(rounds[0], QueueBefore(before, rounds, i), rounds[i], index, conf, after);
    var left := Live(rounds[i], index) - StoppedBy(rounds[i]);
    var n := |rounds[0].app.StartingOrRunningAt(index)|;
    if rounds[i].now >= rounds[0].analyzed + (n + 2) * conf.gracePeriod {
      FewStopsAhead(rounds[0], index, conf, rounds[i].left, left, rounds[i].now);
    }
  }

  // After n+2 grace periods only the last of the n stops can still lie ahead.
  lemma FewStopsAhead(first: StopRound, index: int, conf: Config, queue: map<string, PendingStop>,
                      live: set<string>, now: int)
    requires Shrinking(first, index, conf, queue, live, now)
    requires now >= first.analyzed + (|first.app.StartingOrRunningAt(index)| + 2) * conf.gracePeriod
    ensures Singleton(live)
  {
    hide Scheduled;
    if live != {} && AllScheduled(first, index, conf, queue, live, now) {
      var g :| g in live;
      forall g' | g' in live ensures g' == g {
        var j :| Scheduled(first, index, conf, queue, g, j, now);
        var j' :| Scheduled(first, index, conf, queue, g', j', now);
        LateMeansLast(first, index, conf, queue, g, j, now);
        LateMeansLast(first, index, conf, queue, g', j', now);
        ScheduledTime(first, index, conf, queue, g, j, now);
        ScheduledTime(first, index, conf, queue, g', j', now);
      }
      assert live == {g};
    }
  }

  lemma LateMeansLast(first: StopRound, index: int, conf: Config, queue: map<string, PendingStop>,
                      g: string, j: int, now: int)
    requires Scheduled(first, index, conf, queue, g, j, now)
    requires now >= first.analyzed + (|first.app.StartingOrRunningAt(index)| + 2) * conf.gracePeriod
    ensures j == |first.app.StartingOrRunningAt(index)| - 1
  {
    hide Scheduled;
    var n := |first.app.StartingOrRunningAt(index)|;
    ScheduledTime(first, index, conf, queue, g, j, now);
    assert (n - 1 + 4) * conf.gracePeriod == (n + 2) * conf.gracePeriod + conf.gracePeriod;
    if j < n - 1 {
      GracePeriodsApart(j, n - 1, conf.gracePeriod);
    }
  }

  /** What decides a round exactly: with several instances left and their stops scheduled, the
      survivors are those whose stop is not due yet. All of them go when all are due together, which is
      what rounds more than a grace period apart allow. */
  lemma SurvivorsAreTheUndue(first: StopRound, before: map<string, PendingStop>, r: StopRound, index: int, conf: Config,
                             after: int)
    requires IndexIsDesired(r, index) && IsRound(before, r)
    requires |r.app.StartingOrRunningAt(index)| > 1
    requires AllScheduled(first, index, conf, r.queued, Live(r, index), after)
    ensures Live(r, index) - StoppedBy(r) == set g | g in Live(r, index) && g in r.queued && r.queued[g].sendOn > r.now
  {
    hide IsRound, Scheduled;
    forall g | g in Live(r, index) ensures g in r.queued && (g in StoppedBy(r) <==> r.queued[g].sendOn <= r.now) {
      var j :| Scheduled(first, index, conf, r.queued, g, j, after);
      LiveRound(first, before, r, index, conf, g, j, after);
    }
  }
}
