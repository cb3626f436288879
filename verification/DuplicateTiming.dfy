/** When exactly duplicates die out to one and when they all die, for rounds at any distance: the stops
    of n instances form a timetable, and an instance survives exactly if the sender looks at the queue
    between the last two entries. */
module DuplicateTiming {
  import opened AppAnalysis
  import opened Arithmetic
  import opened DuplicateRuns
  import opened Models

  // When the stop of the j-th instance falls due.
  function StopTime(first: StopRound, conf: Config, j: int): int { first.analyzed + (j + 4) * conf.gracePeriod }

  // The instances whose stops lie ahead of a time.
  ghost function Ahead(first: StopRound, index: int, conf: Config, after: int): set<string> {
    set j | 0 <= j < |first.app.StartingOrRunningAt(index)| && after < StopTime(first, conf, j) ::
      first.app.StartingOrRunningAt(index)[j].instanceGuid
  }

  // The time since which no round has been.
  function Since(rounds: seq<StopRound>, i: nat): int
    requires i < |rounds|
  {
    if i == 0 then rounds[0].analyzed else rounds[i - 1].now
  }

  // The instances at the index are those with stops ahead, and those stops are queued.
  ghost predicate OnTimetable(first: StopRound, index: int, conf: Config, queue: map<string, PendingStop>,
                              live: set<string>, after: int) {
    AllScheduled(first, index, conf, queue, live, after) && live == Ahead(first, index, conf, after)
  }

  lemma StopTimesGrow(first: StopRound, conf: Config, i: int, j: int)
    requires i < j && 0 < conf.gracePeriod
    ensures StopTime(first, conf, i) < StopTime(first, conf, j)
  {
    GracePeriodsApart(i, j, conf.gracePeriod);
  }

  lemma SamePosition(r: StopRound, index: int, i: int, j: int)
    requires DistinctGuids(r.app.instanceHeartbeats)
    requires 0 <= i < |r.app.StartingOrRunningAt(index)| && 0 <= j < |r.app.StartingOrRunningAt(index)|
    requires r.app.StartingOrRunningAt(index)[i].instanceGuid == r.app.StartingOrRunningAt(index)[j].instanceGuid
    ensures i == j
  {
    DistinctAtIndex(r.app.instanceHeartbeats, index);
    DistinctStartingOrRunning(AtIndex(r.app.instanceHeartbeats, index));
  }

  lemma FirstOnTimetable(before: map<string, PendingStop>, r: StopRound, index: int, conf: Config,
                         stops: map<string, PendingStop>)
    requires IndexIsDesired(r, index) && 0 < conf.gracePeriod
    requires StartsWithDuplicates(before, r, index, conf, stops)
    ensures OnTimetable(r, index, conf, r.queued, Live(r, index), r.analyzed)
  {
    hide StartsWithDuplicates, Scheduled, AllScheduled, Live, Ahead, AppSnapshot.StartingOrRunningAt;
    SeveralAtStart(before, r, index, conf, stops);
    FirstRoundSchedules(before, r, index, conf, stops);
    SeveralLive(r, index);
    SingletonSize(Live(r, index));
    AllAhead(r, index, conf);
  }

  // When the stops have just been queued all of them lie ahead.
  lemma AllAhead(r: StopRound, index: int, conf: Config)
    requires 0 < conf.gracePeriod
    ensures Live(r, index) == Ahead(r, index, conf, r.analyzed)
  {
    hide AppSnapshot.StartingOrRunningAt;
    var instances := r.app.StartingOrRunningAt(index);
    forall j | 0 <= j < |instances| ensures r.analyzed < StopTime(r, conf, j) {
      MulMonotone(conf.gracePeriod, 1, j + 4);
    }
    forall g | g in Live(r, index) ensures g in Ahead(r, index, conf, r.analyzed) {
      var j :| 0 <= j < |instances| && instances[j].instanceGuid == g;
    }
  }

  /** A round with several instances left moves on to the next part of the timetable, however late it
      is: the instances overdue by then are stopped, all of them. */
  lemma RoundAdvances(first: StopRound, before: map<string, PendingStop>, r: StopRound, index: int, conf: Config,
                      after: int)
    requires IndexIsDesired(first, index) && IndexIsDesired(r, index) && IsRound(before, r) && after <= r.now
    requires |Live(r, index)| > 1 && OnTimetable(first, index, conf, r.queued, Live(r, index), after)
    ensures OnTimetable(first, index, conf, r.left, Live(r, index) - StoppedBy(r), r.now)
  {
    hide IsRound, Scheduled, AppSnapshot.StartingOrRunningAt;
    SeveralLive(r, index);
    var live, left := Live(r, index), Live(r, index) - StoppedBy(r);
    forall g | g in live
      ensures g in left <==> g in Ahead(first, index, conf, r.now)
      ensures g in left ==> exists j :: Scheduled(first, index, conf, r.left, g, j, r.now)
    {
      var j :| Scheduled(first, index, conf, r.queued, g, j, after);
      LiveRound(first, before, r, index, conf, g, j, after);
      ScheduledTime(first, index, conf, r.queued, g, j, after);
      if g in Ahead(first, index, conf, r.now) {
        var i :| 0 <= i < |first.app.StartingOrRunningAt(index)| && r.now < StopTime(first, conf, i) &&
                 first.app.StartingOrRunningAt(index)[i].instanceGuid == g;
        SamePosition(first, index, i, j);
      }
    }
    assert Ahead(first, index, conf, r.now) <= Ahead(first, index, conf, after);
  }

  lemma KeptOnTimetable(first: StopRound, index: int, conf: Config, queue: map<string, PendingStop>,
                        queued: map<string, PendingStop>, live: set<string>, after: int)
    requires Enqueued(queue, queued) && OnTimetable(first, index, conf, queue, live, after)
    ensures OnTimetable(first, index, conf, queued, live, after)
  {
    forall g | g in live ensures exists j :: Scheduled(first, index, conf, queued, g, j, after) {
      var j :| Scheduled(first, index, conf, queue, g, j, after);
      assert Scheduled(first, index, conf, queued, g, j, after);
    }
  }

  // While no round has come so late that only the last stop lies ahead, several instances are left.
  lemma SeveralAhead(first: StopRound, index: int, conf: Config, after: int)
    requires DistinctGuids(first.app.instanceHeartbeats) && 0 < conf.gracePeriod
    requires var n := |first.app.StartingOrRunningAt(index)|;
             n >= 2 && after < StopTime(first, conf, n - 2)
    ensures |Ahead(first, index, conf, after)| > 1
  {
    var instances := first.app.StartingOrRunningAt(index);
    var n := |instances|;
    StopTimesGrow(first, conf, n - 2, n - 1);
    var g, g' := instances[n - 2].instanceGuid, instances[n - 1].instanceGuid;
    if g == g' {
      SamePosition(first, index, n - 2, n - 1);
    }
    hide AppSnapshot.StartingOrRunningAt;
    var ahead := Ahead(first, index, conf, after);
    assert g in ahead && g' in ahead;
    assert {g, g'} <= ahead;
    SubsetSize({g, g'}, ahead);
  }

  lemma {:induction false} SubsetSize(a: set<string>, b: set<string>)
    requires a <= b
    ensures |a| <= |b|
  {
    if a != {} {
      var g :| g in a;
      SubsetSize(a - {g}, b - {g});
    }
  }

  lemma {:induction false} RunOnTimetable(before: map<string, PendingStop>, rounds: seq<StopRound>, index: int,
                                          conf: Config,
                                          gap: nat, stops: map<string, PendingStop>, i: nat)
    requires 0 < conf.gracePeriod && IsRun(before, rounds, index, gap) && i < |rounds|
    requires StartsWithDuplicates(before, rounds[0], index, conf, stops)
    requires Since(rounds, i) < StopTime(rounds[0], conf, |rounds[0].app.StartingOrRunningAt(index)| - 2)
    ensures Since(rounds, i) <= rounds[i].now
    ensures OnTimetable(rounds[0], index, conf, rounds[i].queued, Live(rounds[i], index), Since(rounds, i))
    ensures |Live(rounds[i], index)| > 1
    decreases i
  {
    hide OnTimetable, StartsWithDuplicates, IsRound, Live, StoppedBy, Enqueued, StopTime, IsRun,
         AppSnapshot.StartingOrRunningAt;
    RoundOf(before, rounds, index, gap, 0);
    RoundOf(before, rounds, index, gap, i);
    if i == 0 {
      FirstOnTimetable(before, rounds[0], index, conf, stops);
    } else {
      RoundOf(before, rounds, index, gap, i - 1);
      RunOnTimetable(before, rounds, index, conf, gap, stops, i - 1);
      RoundAdvances(rounds[0], QueueBefore(before, rounds, i - 1), rounds[i - 1], index, conf, Since(rounds, i - 1));
      RoundEnqueues(rounds[i - 1].left, rounds[i]);
      KeptOnTimetable(rounds[0], index, conf, rounds[i - 1].left, rounds[i].queued, Live(rounds[i], index),
                      rounds[i - 1].now);
    }
    SeveralAtStart(before, rounds[0], index, conf, stops);
    SeveralAhead(rounds[0], index, conf, Since(rounds, i));
    TimetableLive(rounds[0], index, conf, rounds[i].queued, Live(rounds[i], index), Since(rounds, i));
  }

  lemma SeveralAtStart(before: map<string, PendingStop>, r: StopRound, index: int, conf: Config,
                       stops: map<string, PendingStop>)
    requires StartsWithDuplicates(before, r, index, conf, stops)
    ensures |r.app.StartingOrRunningAt(index)| >= 2
  {
  }

  lemma TimetableLive(first: StopRound, index: int, conf: Config, queue: map<string, PendingStop>, live: set<string>,
                      after: int)
    requires OnTimetable(first, index, conf, queue, live, after)
    ensures live == Ahead(first, index, conf, after)
  {
  }

  // The first round after which at most the last stop lies ahead.
  lemma FirstLateRound(rounds: seq<StopRound>, time: int) returns (i: nat)
    requires rounds != [] && rounds[0].analyzed < time <= rounds[|rounds| - 1].now
    ensures i < |rounds| && Since(rounds, i) < time <= rounds[i].now
  {
    i := 0;
    while rounds[i].now < time
      invariant i < |rounds| && Since(rounds, i) < time
      decreases |rounds| - i
    {
      i := i + 1;
    }
  }

  lemma RoundOf(before: map<string, PendingStop>, rounds: seq<StopRound>, index: int, gap: nat, i: nat)
    requires IsRun(before, rounds, index, gap) && i < |rounds|
    ensures IndexIsDesired(rounds[i], index) && IsRound(QueueBefore(before, rounds, i), rounds[i])
    ensures Since(rounds, i) <= rounds[i].now
    ensures i > 0 ==> Live(rounds[i], index) == Live(rounds[i - 1], index) - StoppedBy(rounds[i - 1])
  {
    hide IsRound, IndexIsDesired, Live, StoppedBy;
  }

  lemma {:induction false} LaterRounds(before: map<string, PendingStop>, rounds: seq<StopRound>, index: int, gap: nat,
                                       i: nat, j: nat)
    requires IsRun(before, rounds, index, gap) && i <= j < |rounds|
    ensures rounds[i].now <= rounds[j].now
    decreases j
  {
    if i < j {
      LaterRounds(before, rounds, index, gap, i, j - 1);
    }
  }

  // One instance alone is never stopped, and nothing comes of nothing.
  lemma {:induction false} LeftForGood(before: map<string, PendingStop>, rounds: seq<StopRound>, index: int,
                                       conf: Config,
                                       gap: nat, i: nat, j: nat)
    requires 0 < conf.gracePeriod && IsRun(before, rounds, index, gap) && i <= j < |rounds|
    requires var left := Live(rounds[i], index) - StoppedBy(rounds[i]);
             left == {} || Singleton(left)
    ensures Live(rounds[j], index) - StoppedBy(rounds[j]) == Live(rounds[i], index) - StoppedBy(rounds[i])
    decreases j
  {
    hide StoppedBy, Live, IsRound;
    if i < j {
      LeftForGood(before, rounds, index, conf, gap, i, j - 1);
      if Singleton(Live(rounds[j], index)) {
        RoundShrinks(rounds[0], QueueBefore(before, rounds, j), rounds[j], index, conf, rounds[j].now);
      }
    }
  }

  /** Whether anything is left in the end depends on one thing only: that some round falls between the
      times of the last two stops. Rounds at most a grace period apart cannot miss that. */
  lemma SurvivesIffSeenInTime(before: map<string, PendingStop>, rounds: seq<StopRound>, index: int, conf: Config,
                              gap: nat, stops: map<string, PendingStop>)
    requires 0 < conf.gracePeriod && IsRun(before, rounds, index, gap) && rounds != []
    requires StartsWithDuplicates(before, rounds[0], index, conf, stops)
    requires StopTime(rounds[0], conf, |rounds[0].app.StartingOrRunningAt(index)| - 1) <= rounds[|rounds| - 1].now
    ensures var n, last := |rounds[0].app.StartingOrRunningAt(index)|, rounds[|rounds| - 1];
            Live(last, index) - StoppedBy(last) != {} <==>
            exists i :: 0 <= i < |rounds| &&
              StopTime(rounds[0], conf, n - 2) <= rounds[i].now < StopTime(rounds[0], conf, n - 1)
  {
    hide StartsWithDuplicates, IsRound, Live, StoppedBy, StopTime, IsRun, AppSnapshot.StartingOrRunningAt;
    var first, n := rounds[0], |rounds[0].app.StartingOrRunningAt(index)|;
    SeveralAtStart(before, first, index, conf, stops);
    StopTimesGrow(first, conf, n - 2, n - 1);
    LastTwoAreLater(first, conf, n);
    var i := FirstLateRound(rounds, StopTime(first, conf, n - 2));
    LateRoundLeaves(before, rounds, index, conf, gap, stops, i);
    LeftForGood(before, rounds, index, conf, gap, i, |rounds| - 1);
    FirstIsEarliest(before, rounds, index, gap, i, StopTime(first, conf, n - 2), StopTime(first, conf, n - 1));
  }

  // What the first round leaves that does not come before the second to last stop.
  lemma LateRoundLeaves(before: map<string, PendingStop>, rounds: seq<StopRound>, index: int, conf: Config,
                        gap: nat, stops: map<string, PendingStop>, i: nat)
    requires 0 < conf.gracePeriod && IsRun(before, rounds, index, gap) && i < |rounds|
    requires StartsWithDuplicates(before, rounds[0], index, conf, stops)
    requires var n := |rounds[0].app.StartingOrRunningAt(index)|;
             Since(rounds, i) < StopTime(rounds[0], conf, n - 2) <= rounds[i].now
    ensures var n, left := |rounds[0].app.StartingOrRunningAt(index)|, Live(rounds[i], index) - StoppedBy(rounds[i]);
            if rounds[i].now < StopTime(rounds[0], conf, n - 1) then Singleton(left) else left == {}
  {
    hide StartsWithDuplicates, IsRound, Live, StoppedBy, StopTime, OnTimetable, IsRun, IndexIsDesired, Ahead,
         AppSnapshot.StartingOrRunningAt;
    SeveralAtStart(before, rounds[0], index, conf, stops);
    RunOnTimetable(before, rounds, index, conf, gap, stops, i);
    RoundOf(before, rounds, index, gap, 0);
    RoundOf(before, rounds, index, gap, i);
    RoundAdvances(rounds[0], QueueBefore(before, rounds, i), rounds[i], index, conf, Since(rounds, i));
    TimetableLive(rounds[0], index, conf, rounds[i].left, Live(rounds[i], index) - StoppedBy(rounds[i]), rounds[i].now);
    LastAhead(rounds[0], index, conf, rounds[i].now);
  }

  // If any round falls within the window, the first that is not before it does.
  lemma FirstIsEarliest(before: map<string, PendingStop>, rounds: seq<StopRound>, index: int, gap: nat, i: nat,
                        from: int, to: int)
    requires IsRun(before, rounds, index, gap) && i < |rounds| && Since(rounds, i) < from <= rounds[i].now
    ensures (exists k :: 0 <= k < |rounds| && from <= rounds[k].now < to) <==> rounds[i].now < to
  {
    hide IsRun;
    forall k | 0 <= k < |rounds| && from <= rounds[k].now ensures rounds[i].now <= rounds[k].now {
      if k < i {
        LaterRounds(before, rounds, index, gap, k, i - 1);
      } else {
        LaterRounds(before, rounds, index, gap, i, k);
      }
    }
  }

  lemma LastTwoAreLater(first: StopRound, conf: Config, n: int)
    requires 0 < conf.gracePeriod && n >= 2
    ensures first.analyzed < StopTime(first, conf, n - 2)
  {
    MulMonotone(conf.gracePeriod, 1, n + 2);
  }

  // From the second to last stop on, at most the last lies ahead.
  lemma LastAhead(first: StopRound, index: int, conf: Config, after: int)
    requires 0 < conf.gracePeriod
    requires var n := |first.app.StartingOrRunningAt(index)|;
             n >= 2 && StopTime(first, conf, n - 2) <= after
    ensures var n := |first.app.StartingOrRunningAt(index)|;
            Ahead(first, index, conf, after) ==
            if after < StopTime(first, conf, n - 1) then {first.app.StartingOrRunningAt(index)[n - 1].instanceGuid}
            else {}
  {
    var instances := first.app.StartingOrRunningAt(index);
    var n := |instances|;
    forall j | 0 <= j < n - 1 ensures StopTime(first, conf, j) <= after {
      if j < n - 2 {
        StopTimesGrow(first, conf, j, n - 2);
      }
    }
  }

  ghost predicate EverySecond(rounds: seq<StopRound>, conf: Config) {
    forall i :: 0 <= i < |rounds| ==> rounds[i].now == rounds[0].analyzed + 2 * i * conf.gracePeriod
  }

  /** With a round every two grace periods, which is what the shipped settings of 60 and 30 seconds
      amount to, an odd number of duplicates is stopped to the last one, and of an even number one
      is left. */
  lemma EverySecondPeriod(before: map<string, PendingStop>, rounds: seq<StopRound>, index: int, conf: Config,
                          stops: map<string, PendingStop>)
    requires 0 < conf.gracePeriod && IsRun(before, rounds, index, 2 * conf.gracePeriod) && rounds != []
    requires StartsWithDuplicates(before, rounds[0], index, conf, stops)
    requires EverySecond(rounds, conf)
    requires StopTime(rounds[0], conf, |rounds[0].app.StartingOrRunningAt(index)| - 1) <= rounds[|rounds| - 1].now
    ensures var n, last := |rounds[0].app.StartingOrRunningAt(index)|, rounds[|rounds| - 1];
            Live(last, index) - StoppedBy(last) != {} <==> n % 2 == 0
  {
    hide StartsWithDuplicates, IsRun, Live, StoppedBy, AppSnapshot.StartingOrRunningAt, EverySecond, StopTime;
    var n, g := |rounds[0].app.StartingOrRunningAt(index)|, conf.gracePeriod;
    SurvivesIffSeenInTime(before, rounds, index, conf, 2 * g, stops);
    SeveralAtStart(before, rounds[0], index, conf, stops);
    forall i | 0 <= i < |rounds|
      ensures StopTime(rounds[0], conf, n - 2) <= rounds[i].now < StopTime(rounds[0], conf, n - 1) <==> 2 * i == n + 2
    {
      BetweenLastTwo(rounds, conf, n, i);
    }
    if n % 2 == 0 {
      EnoughRounds(rounds, conf, n, |rounds| - 1);
      var i := (n + 2) / 2;
      assert 0 <= i < |rounds| && 2 * i == n + 2;
      assert StopTime(rounds[0], conf, n - 2) <= rounds[i].now < StopTime(rounds[0], conf, n - 1);
    }
  }

  lemma BetweenLastTwo(rounds: seq<StopRound>, conf: Config, n: int, i: nat)
    requires 0 < conf.gracePeriod && EverySecond(rounds, conf) && i < |rounds|
    ensures StopTime(rounds[0], conf, n - 2) <= rounds[i].now < StopTime(rounds[0], conf, n - 1) <==> 2 * i == n + 2
  {
    MultiplesApart(2 * i, n + 2, conf.gracePeriod);
  }

  lemma EnoughRounds(rounds: seq<StopRound>, conf: Config, n: nat, i: nat)
    requires 0 < conf.gracePeriod && EverySecond(rounds, conf) && i < |rounds|
    requires StopTime(rounds[0], conf, n - 1) <= rounds[i].now
    ensures 2 * i >= n + 3
  {
    if 2 * i < n + 3 {
      MultiplesApart(2 * i, n + 3, conf.gracePeriod);
      assert 2 * i * conf.gracePeriod + (n + 3 - 2 * i) * conf.gracePeriod == (n + 3) * conf.gracePeriod;
      MulMonotone(conf.gracePeriod, 1, n + 3 - 2 * i);
    }
  }

  lemma MultiplesApart(a: int, b: int, g: nat)
    requires 0 < g
    ensures b * g <= a * g < (b + 1) * g <==> a == b
  {
    assert a * g - b * g == (a - b) * g;
    assert (b + 1) * g - b * g == g;
    if a < b {
      MulMonotone(g, 1, b - a);
      assert (a - b) * g == -(g * (b - a));
    } else if a > b {
      MulMonotone(g, 1, a - b);
    }
  }
}
