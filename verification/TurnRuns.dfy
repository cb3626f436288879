/** Turns of the control loop one after another. In between there may be turns that came to nothing,
    refused by the analyzer or held at the sender's gate; the theorems about runs hold of the others. */
module TurnRuns {
  import opened Analyzers
  import opened ControlLoop
  import opened DuplicateRuns
  import opened Models
  import RateLimit
  import opened SendDecisions

  // ---------- starts ----------

  /** A turn finds the starts that the turn before it left, and perhaps others that turns which came to
      nothing have queued since; AnalyzeAndSend promises no less of those. */
  ghost predicate StartsChain(turns: seq<Turn>) {
    && (forall i :: 0 <= i < |turns| ==> Taken(turns[i]) && CalledOnce(turns[i]) && 0 < turns[i].sent)
    && (forall i :: 0 < i < |turns| ==>
          && RateLimit.Enqueued(turns[i - 1].startsLeft, turns[i].round.existingStarts)
          && turns[i - 1].sent <= turns[i].sent)
  }

  function StartRounds(turns: seq<Turn>): seq<RateLimit.StartRound> {
    seq(|turns|, i requires 0 <= i < |turns| => turns[i].Starts())
  }

  lemma StartsEnqueuedTwice(a: map<StartKey, PendingStart>, b: map<StartKey, PendingStart>,
                            c: map<StartKey, PendingStart>)
    requires RateLimit.Enqueued(a, b) && RateLimit.Enqueued(b, c)
    ensures RateLimit.Enqueued(a, c)
  {
  }

  lemma StartsRoundAfter(before: map<StartKey, PendingStart>, found: map<StartKey, PendingStart>,
                         r: RateLimit.StartRound)
    requires RateLimit.Enqueued(before, found) && RateLimit.IsRound(found, r)
    ensures RateLimit.IsRound(before, r)
  {
    hide RateLimit.Enqueued;
    StartsEnqueuedTwice(before, found, r.queued);
  }

  lemma TurnsFormStartRun(turns: seq<Turn>)
    requires turns != [] && StartsChain(turns)
    ensures RateLimit.IsRun(turns[0].round.existingStarts, StartRounds(turns))
  {
    hide RateLimit.IsRound, RateLimit.IsStored, RateLimit.Enqueued, Taken, Completed, CalledOnce, Turn.Starts;
    var rounds := StartRounds(turns);
    forall i | 0 <= i < |rounds|
      ensures RateLimit.IsRound(RateLimit.QueueBefore(turns[0].round.existingStarts, rounds, i), rounds[i])
      ensures i > 0 ==> rounds[i - 1].now <= rounds[i].now
    {
      StartsFormRound(turns[i]);
      RoundOfTurn(turns[i]);
      if i > 0 {
        RoundOfTurn(turns[i - 1]);
        StartsRoundAfter(turns[i - 1].startsLeft, turns[i].round.existingStarts, rounds[i]);
      }
    }
  }

  lemma RoundOfTurn(t: Turn)
    ensures t.Starts().now == t.sent && t.Starts().left == t.startsLeft && t.Starts().posts == t.run.startPosts
  {
  }

  // In the i-th turn the p-th post asked for a start under key k and was accepted.
  ghost predicate StartedAt(turns: seq<Turn>, i: int, p: int, k: StartKey) {
    && 0 <= i < |turns| && 0 <= p < |turns[i].run.startPosts|
    && turns[i].run.startPosts[p].accepted && turns[i].run.startPosts[p].pending.StoreKey() == k
  }

  // What was sent is stored as sent in that turn.
  ghost predicate MarkLeft(t: Turn, p: int)
    requires 0 <= p < |t.run.startPosts|
  {
    var m := t.run.startPosts[p].pending;
    m.StoreKey() in t.startsLeft && t.startsLeft[m.StoreKey()] == m.(sentOn := t.sent)
  }

  /** However the turns of the program follow each other, and whichever writes fail, two accepted starts of
      the same index of the same app are at least the first one's keep-alive apart unless storing the mark
      of the first failed; then that start stays queued as it was and is due again at once. */
  lemma TurnsAreRateLimited(turns: seq<Turn>, i: nat, p: nat, j: nat, q: nat, k: StartKey)
    requires StartsChain(turns) && StartedAt(turns, i, p, k) && StartedAt(turns, j, q, k)
    requires i < j || (i == j && p < q)
    requires turns[i].run.startPosts[p].pending.keepAlive > 0
    ensures i < j
    ensures Completed(turns[i]) ==> MarkLeft(turns[i], p)
    ensures MarkLeft(turns[i], p) ==> turns[j].sent >= turns[i].sent + turns[i].run.startPosts[p].pending.keepAlive
    ensures !MarkLeft(turns[i], p) ==>
              var m := turns[i].run.startPosts[p].pending;
              k in turns[i].startsLeft && turns[i].startsLeft[k] == m && m.IsTimeToSend(turns[i].sent)
  {
    hide StartsChain, RateLimit.IsRun, RateLimit.IsRound, RateLimit.IsStored, Taken, Completed, MarkLeft,
         RateLimit.MarkStored, Turn.Starts;
    var before, rounds := turns[0].round.existingStarts, StartRounds(turns);
    TurnsFormStartRun(turns);
    TurnIsPastGate(turns, i);
    MarkOfTurn(turns[i], p);
    RoundOfTurn(turns[i]);
    RoundOfTurn(turns[j]);
    RateLimit.RestartsAreRateLimited(before, rounds, i, p, j, q, k);
  }

  lemma TurnIsPastGate(turns: seq<Turn>, i: nat)
    requires StartsChain(turns) && i < |turns|
    ensures Taken(turns[i]) && CalledOnce(turns[i]) && 0 < turns[i].sent
  {
    hide Taken, CalledOnce;
  }

  lemma MarkOfTurn(t: Turn, p: nat)
    requires Taken(t) && CalledOnce(t) && 0 < t.sent && p < |t.run.startPosts|
    requires t.run.startPosts[p].accepted && t.run.startPosts[p].pending.keepAlive > 0
    ensures p < |t.Starts().posts| && (MarkLeft(t, p) <==> RateLimit.MarkStored(t.Starts(), p))
    ensures Completed(t) ==> MarkLeft(t, p)
    ensures var m := t.run.startPosts[p].pending;
            !MarkLeft(t, p) ==>
              m.StoreKey() in t.startsLeft && t.startsLeft[m.StoreKey()] == m && m.IsTimeToSend(t.sent)
  {
    hide Taken, Completed, CalledOnce, RateLimit.IsRound, RateLimit.IsStored;
    StartsFormRound(t);
    RoundOfTurn(t);
    RateLimit.UnmarkedIsStillDue(t.round.existingStarts, t.Starts(), p, t.sent);
    if Completed(t) {
      RateLimit.SentIsMarked(t.round.existingStarts, t.Starts(), p);
    }
  }

  // ---------- stops ----------

  // Every instance belongs to one app for good, and reports are made and stops are queued accordingly.
  ghost predicate Reports(apps: map<AppKey, AppSnapshot>, owner: string -> AppKey) {
    forall k, h :: k in apps && h in apps[k].instanceHeartbeats ==> owner(h.instanceGuid) == k
  }

  ghost predicate Owned(m: PendingStop, owner: string -> AppKey) {
    AppKey(m.appGuid, m.appVersion) == owner(m.instanceGuid)
  }

  ghost predicate AllOwned(queue: map<string, PendingStop>, owner: string -> AppKey) {
    forall g :: g in queue ==> queue[g].instanceGuid == g && Owned(queue[g], owner)
  }

  /** The same of stops, for one app whose index has too many instances: the index stays desired, posts are
      accepted, an instance leaves the index by being stopped and none comes to it. The stops stored to begin
      with, and those that turns which came to nothing have queued since, are each for an instance of the app
      they name. */
  ghost predicate StopsChain(turns: seq<Turn>, k: AppKey, index: int, gap: nat, owner: string -> AppKey) {
    && (forall i :: 0 <= i < |turns| ==> StopTurn(turns[i], k, index, owner))
    && (forall i :: 0 < i < |turns| ==>
          && DuplicateRuns.Enqueued(turns[i - 1].stopsLeft, turns[i].round.existingStops)
          && AddedAreOwned(turns[i - 1].stopsLeft, turns[i].round.existingStops, owner)
          && Live(turns[i].Stops(k), index) == Live(turns[i - 1].Stops(k), index) - StoppedBy(turns[i - 1].Stops(k))
          && turns[i - 1].sent <= turns[i].sent <= turns[i - 1].sent + gap)
    && (turns != [] ==>
          && turns[0].round.now <= turns[0].sent <= turns[0].round.now + gap
          && AllOwned(turns[0].round.existingStops, owner))
  }

  ghost predicate AddedAreOwned(before: map<string, PendingStop>, after: map<string, PendingStop>,
                                owner: string -> AppKey) {
    forall g :: g in after && g !in before ==> Owned(after[g], owner)
  }

  ghost predicate StopTurn(t: Turn, k: AppKey, index: int, owner: string -> AppKey) {
    && Taken(t) && DisjointBatches(t.batches) && 0 < t.sent && k in t.p.apps && Reports(t.p.apps, owner)
    && (forall p :: p in t.run.stopPosts ==> p.accepted)
    && IndexIsDesired(t.Stops(k), index)
  }

  lemma ReportsOnce(apps: map<AppKey, AppSnapshot>, owner: string -> AppKey)
    requires Reports(apps, owner)
    ensures OneOwner(apps, apps.Keys)
  {
  }

  // What the analyzer queues for an instance names the app that reports it, and the sender changes no names.
  lemma TurnKeepsOwned(t: Turn, owner: string -> AppKey)
    requires Taken(t) && DisjointBatches(t.batches)
    requires Reports(t.p.apps, owner) && AllOwned(t.round.existingStops, owner)
    ensures AllOwned(t.StopsQueued(), owner) && AllOwned(t.stopsLeft, owner)
  {
    hide CompleteRound, RunFollows, DisjointBatches, ActualApps, KeyedBatch, Lists, PartStartFates, PostsDueStarts,
         RetiresStop, MarksStop, StopsTally, Turn.StartsQueued, OneOwner;
    ReportsOnce(t.p.apps, owner);
    StopsAreQueue(t);
    AppsAreKeyed(t);
    var queued := t.StopsQueued();
    forall g | g in queued ensures queued[g].instanceGuid == g && Owned(queued[g], owner) {
      if g !in t.round.existingStops {
        assert queued[g] in t.p.newStops;
        NewStopIsOwned(t.round, t.p, queued[g], owner);
      }
    }
  }

  lemma NewStopIsOwned(r: Round, p: Progress, m: PendingStop, owner: string -> AppKey)
    requires StopsTally(r, p.apps, p.apps.Keys, p.newStops) && OneOwner(p.apps, p.apps.Keys)
    requires forall j :: j in p.apps ==> p.apps[j].Key() == j
    requires Reports(p.apps, owner) && m in p.newStops
    ensures Owned(m, owner)
  {
    hide Quiet, OneOwner;
    var k :| k in p.apps && StopOwed(r, p.apps[k], m);
    StopGuidsAreReported(p.apps[k], r.now, Quiet(p.apps[k], r.existingStarts.Keys));
    NewStopIsOwn(r, p, k, m);
  }

  lemma {:induction false} QueueIsOwned(turns: seq<Turn>, k: AppKey, index: int, gap: nat, owner: string -> AppKey,
                                        i: nat)
    requires StopsChain(turns, k, index, gap, owner) && i < |turns|
    ensures AllOwned(turns[i].round.existingStops, owner)
  {
    hide Taken, Reports, Live, StoppedBy, IndexIsDesired, AppSnapshot.StartingOrRunningAt, Turn.Stops,
         QueuesUpdated;
    if i > 0 {
      QueueIsOwned(turns, k, index, gap, owner, i - 1);
      TurnKeepsOwned(turns[i - 1], owner);
    }
  }

  lemma OwnedStopsAreOwn(queue: map<string, PendingStop>, apps: map<AppKey, AppSnapshot>, k: AppKey,
                         owner: string -> AppKey)
    requires AllOwned(queue, owner) && Reports(apps, owner) && k in apps && apps[k].Key() == k
    ensures StopsAreOwn(queue, apps[k])
  {
  }

  ghost function StopRounds(turns: seq<Turn>, k: AppKey): seq<StopRound>
    requires forall i :: 0 <= i < |turns| ==> k in turns[i].p.apps
  {
    seq(|turns|, i requires 0 <= i < |turns| => turns[i].Stops(k))
  }

  lemma StopsRoundAfter(before: map<string, PendingStop>, found: map<string, PendingStop>, r: StopRound)
    requires DuplicateRuns.Enqueued(before, found) && DuplicateRuns.IsRound(found, r)
    ensures DuplicateRuns.IsRound(before, r)
  {
    hide PartStopFates, Lists, DueStops, GuidsOf;
  }

  lemma StopsOfTurn(t: Turn, k: AppKey)
    requires k in t.p.apps
    ensures t.Stops(k).now == t.sent && t.Stops(k).analyzed == t.round.now && t.Stops(k).left == t.stopsLeft
    ensures t.Stops(k).app == t.p.apps[k] && t.Stops(k).queued == t.StopsQueued()
  {
  }

  lemma KeyedApp(t: Turn, k: AppKey)
    requires Taken(t) && DisjointBatches(t.batches) && k in t.p.apps
    ensures t.p.apps[k].Key() == k
  {
    hide Taken, QueuesUpdated, StopsTally;
    AppsAreKeyed(t);
  }

  lemma StopRoundOfTurn(turns: seq<Turn>, k: AppKey, index: int, gap: nat, owner: string -> AppKey, i: nat)
    requires StopsChain(turns, k, index, gap, owner) && i < |turns|
    ensures var before, rounds := turns[0].round.existingStops, StopRounds(turns, k);
            && 0 < rounds[i].now == turns[i].sent && rounds[i].analyzed == turns[i].round.now
            && IndexIsDesired(rounds[i], index)
            && DuplicateRuns.IsRound(DuplicateRuns.QueueBefore(before, rounds, i), rounds[i])
  {
    hide DuplicateRuns.IsRound, DuplicateRuns.Enqueued, Taken, Turn.Stops, IndexIsDesired, Live,
         StoppedBy, OneOwner, StopsAreOwn, Reports, AllOwned, AddedAreOwned;
    QueueIsOwned(turns, k, index, gap, owner, i);
    KeyedApp(turns[i], k);
    ReportsOnce(turns[i].p.apps, owner);
    OwnedStopsAreOwn(turns[i].round.existingStops, turns[i].p.apps, k, owner);
    StopsFormRound(turns[i], k);
    StopsOfTurn(turns[i], k);
    if i > 0 {
      StopsOfTurn(turns[i - 1], k);
      StopsRoundAfter(turns[i - 1].stopsLeft, turns[i].round.existingStops, turns[i].Stops(k));
    }
  }

  lemma StopStepOfTurn(turns: seq<Turn>, k: AppKey, index: int, gap: nat, owner: string -> AppKey, i: nat)
    requires StopsChain(turns, k, index, gap, owner) && 0 < i < |turns|
    ensures var rounds := StopRounds(turns, k);
            && Live(rounds[i], index) == Live(rounds[i - 1], index) - StoppedBy(rounds[i - 1])
            && rounds[i - 1].now <= rounds[i].now <= rounds[i - 1].now + gap
  {
    hide DuplicateRuns.IsRound, DuplicateRuns.Enqueued, Taken, Turn.Stops, IndexIsDesired, Live, StoppedBy,
         OneOwner, StopsAreOwn;
    StopsOfTurn(turns[i], k);
    StopsOfTurn(turns[i - 1], k);
  }

  lemma ChainBasics(turns: seq<Turn>, k: AppKey, index: int, gap: nat, owner: string -> AppKey)
    requires turns != [] && StopsChain(turns, k, index, gap, owner)
    ensures forall i :: 0 <= i < |turns| ==> k in turns[i].p.apps
    ensures turns[0].round.now <= turns[0].sent <= turns[0].round.now + gap
  {
    hide Taken, Reports, AllOwned, AddedAreOwned, IndexIsDesired, Live, StoppedBy, Turn.Stops,
         DuplicateRuns.Enqueued;
  }

  // Such turns are rounds of the run over duplicates.
  lemma TurnsFormStopRun(turns: seq<Turn>, k: AppKey, index: int, gap: nat, owner: string -> AppKey)
    requires turns != [] && StopsChain(turns, k, index, gap, owner)
    ensures DuplicateRuns.IsRun(turns[0].round.existingStops, StopRounds(turns, k), index, gap)
  {
    ChainBasics(turns, k, index, gap, owner);
    hide DuplicateRuns.IsRound, DuplicateRuns.IsRun, DuplicateRuns.QueueBefore, Turn.Stops, IndexIsDesired, Live,
         StoppedBy, StopsChain;
    var before, rounds := turns[0].round.existingStops, StopRounds(turns, k);
    forall i | 0 <= i < |rounds|
      ensures 0 < rounds[i].now == turns[i].sent && IndexIsDesired(rounds[i], index)
      ensures rounds[i].analyzed == turns[i].round.now
      ensures DuplicateRuns.IsRound(DuplicateRuns.QueueBefore(before, rounds, i), rounds[i])
    {
      StopRoundOfTurn(turns, k, index, gap, owner, i);
    }
    forall i | 0 < i < |rounds|
      ensures Live(rounds[i], index) == Live(rounds[i - 1], index) - StoppedBy(rounds[i - 1])
      ensures rounds[i - 1].now <= rounds[i].now <= rounds[i - 1].now + gap
    {
      StopStepOfTurn(turns, k, index, gap, owner, i);
    }
    RunFromSteps(before, rounds, index, gap);
  }

  /** From a turn on that finds several instances at an index, with no stop queued for them and no start
      due for their app, each turn stops at most one of them and at least one is left, and n+2 grace
      periods after the stops were queued exactly one, if turns are at most a grace period apart. */
  lemma TurnsEndDuplicates(turns: seq<Turn>, k: AppKey, index: int, owner: string -> AppKey, i: nat)
    requires i < |turns| && 0 < turns[0].round.conf.gracePeriod
    requires StopsChain(turns, k, index, turns[0].round.conf.gracePeriod, owner)
    requires Quiet(turns[0].p.apps[k], turns[0].round.existingStarts.Keys)
    requires |turns[0].p.apps[k].StartingOrRunningAt(index)| >= 2
    requires Live(turns[0].Stops(k), index) !! turns[0].round.existingStops.Keys
    ensures AtMostOne(Live(turns[i].Stops(k), index), StoppedBy(turns[i].Stops(k)))
    ensures var left := Live(turns[i].Stops(k), index) - StoppedBy(turns[i].Stops(k));
            var n := |turns[0].p.apps[k].StartingOrRunningAt(index)|;
            && left != {}
            && (turns[i].sent >= turns[0].round.now + (n + 2) * turns[0].round.conf.gracePeriod ==> Singleton(left))
  {
    hide DuplicateRuns.IsRun, Taken, Live, StoppedBy, OneOwner, Reports, AllOwned, Quiet,
         AppSnapshot.StartingOrRunningAt, StartsWithDuplicates, AtMostOne, IndexIsDesired;
    var conf := turns[0].round.conf;
    assert StopTurn(turns[0], k, index, owner);
    ReportsOnce(turns[0].p.apps, owner);
    var stops := DuplicatesStartRun(turns[0], k, index);
    TurnsFormStopRun(turns, k, index, conf.gracePeriod, owner);
    StopsOfTurn(turns[0], k);
    StopsOfTurn(turns[i], k);
    DuplicatesConverge(turns[0].round.existingStops, StopRounds(turns, k), index, conf, stops, i);
  }
}
