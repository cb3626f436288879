/** What becomes of a message that was sent, over turns: it stays as long as it is to be kept, then it goes, and
    what it was for is called for anew if it is still needed. */
module MessageLives {
  import opened Analyzers
  import opened AnalysisLaws
  import opened ControlLoop
  import DuplicateRuns
  import opened Models
  import opened Observations
  import opened PendingStores
  import RateLimit
  import opened SendDecisions
  import opened SendLaws
  import opened TurnLaws
  import opened TurnRuns

  // ---------- starts ----------

  /** A start that was sent and marked blocks its index for its keep-alive and no longer: until then it is
      stored as sent; the first turn after that whose writes get through leaves nothing under its key; and an
      index that is still missing, down or left in the turn after that one has a new start queued. */
  lemma SentStartComesAnew(turns: seq<Turn>, i: nat, p: nat, j: nat, k: StartKey, a: AppSnapshot)
    requires StartsChain(turns) && StartedAt(turns, i, p, k) && MarkLeft(turns[i], p) && i < j < |turns| - 1
    requires turns[i].run.startPosts[p].pending.keepAlive > 0
    requires var until := turns[i].sent + turns[i].run.startPosts[p].pending.keepAlive;
             turns[j - 1].sent < until <= turns[j].sent && Completed(turns[j])
    requires OnPage(turns[j + 1], a) && a.Key() == AppOf(k)
    requires IsMissing(a, k.index) || IsDown(a, k.index) || IsLeaving(a, k.index)
    ensures forall l :: i <= l < j ==> k in turns[l].startsLeft && turns[l].startsLeft[k].sentOn == turns[i].sent
    ensures k !in turns[j].startsLeft
    ensures k in turns[j + 1].StartsQueued() && turns[j + 1].StartsQueued()[k].sentOn == 0
  {
    hide StartsChain, StartedAt, Taken, Completed, CalledOnce, MarkLeft, IsMissing, IsDown, IsLeaving,
         OnPage, RateLimit.Enqueued, Turn.StartsQueued;
    SentStartStays(turns, i, p, j, k);
    SentStartGoes(turns, i, p, j, k);
    NextStartTurn(turns, j);
    CalledStartsAreQueued(turns[j + 1], a, k.index);
    QueuedAsFound(turns[j + 1], k);
    FoundUnsent(turns[j].startsLeft, turns[j + 1].round.existingStarts, k);
  }

  lemma NextStartTurn(turns: seq<Turn>, j: nat)
    requires StartsChain(turns) && j + 1 < |turns|
    ensures Taken(turns[j + 1])
    ensures RateLimit.Enqueued(turns[j].startsLeft, turns[j + 1].round.existingStarts)
  {
    hide Taken, CalledOnce, RateLimit.Enqueued;
  }

  lemma FoundUnsent(before: map<StartKey, PendingStart>, after: map<StartKey, PendingStart>, k: StartKey)
    requires RateLimit.Enqueued(before, after) && k !in before
    ensures k in after ==> after[k].sentOn == 0
  {
  }

  // What was queued before is queued as it was.
  lemma QueuedAsFound(t: Turn, k: StartKey)
    requires Taken(t)
    ensures k in t.round.existingStarts ==> k in t.StartsQueued() && t.StartsQueued()[k] == t.round.existingStarts[k]
  {
    hide CompleteRound, ActualApps, KeyedBatch, RunFollows, QueuesTouched;
  }

  lemma SentStartStays(turns: seq<Turn>, i: nat, p: nat, j: nat, k: StartKey)
    requires StartsChain(turns) && StartedAt(turns, i, p, k) && MarkLeft(turns[i], p) && i < j < |turns|
    requires turns[i].run.startPosts[p].pending.keepAlive > 0
    requires turns[j - 1].sent < turns[i].sent + turns[i].run.startPosts[p].pending.keepAlive
    ensures forall l :: i <= l < j ==> k in turns[l].startsLeft && turns[l].startsLeft[k].sentOn == turns[i].sent
  {
    hide StartsChain, RateLimit.IsRun, RateLimit.IsRound, RateLimit.IsStored, Taken, Completed, MarkLeft,
         RateLimit.MarkStored, Turn.Starts;
    var before, rounds := turns[0].round.existingStarts, StartRounds(turns);
    TurnsFormStartRun(turns);
    TurnIsPastGate(turns, i);
    MarkOfTurn(turns[i], p);
    RoundOfTurn(turns[i]);
    forall l | i <= l < j
      ensures k in turns[l].startsLeft && turns[l].startsLeft[k].sentOn == turns[i].sent
    {
      RoundOfTurn(turns[l]);
      SentNoLater(turns, l, j - 1);
      RateLimit.SentMessageStays(before, rounds, i, p, l, k);
    }
  }

  lemma {:induction false} SentNoLater(turns: seq<Turn>, l: nat, j: nat)
    requires StartsChain(turns) && l <= j < |turns|
    ensures turns[l].sent <= turns[j].sent
  {
    hide Taken, CalledOnce, RateLimit.Enqueued;
    if l < j {
      SentNoLater(turns, l, j - 1);
    }
  }

  lemma SentStartGoes(turns: seq<Turn>, i: nat, p: nat, j: nat, k: StartKey)
    requires StartsChain(turns) && StartedAt(turns, i, p, k) && MarkLeft(turns[i], p) && i < j < |turns|
    requires turns[i].run.startPosts[p].pending.keepAlive > 0 && Completed(turns[j])
    requires turns[i].sent + turns[i].run.startPosts[p].pending.keepAlive <= turns[j].sent
    ensures turns[j - 1].sent < turns[i].sent + turns[i].run.startPosts[p].pending.keepAlive ==>
              k !in turns[j].startsLeft
    ensures k in turns[j].startsLeft ==>
              turns[j].startsLeft[k] != turns[i].run.startPosts[p].pending.(sentOn := turns[i].sent)
  {
    hide StartsChain, RateLimit.IsRun, RateLimit.IsRound, RateLimit.IsStored, Taken, Completed, MarkLeft,
         RateLimit.MarkStored, Turn.Starts;
    var before, rounds := turns[0].round.existingStarts, StartRounds(turns);
    TurnsFormStartRun(turns);
    TurnIsPastGate(turns, i);
    TurnIsPastGate(turns, j);
    MarkOfTurn(turns[i], p);
    StartsFormRound(turns[j]);
    RoundOfTurn(turns[i]);
    RoundOfTurn(turns[j]);
    RoundOfTurn(turns[j - 1]);
    RateLimit.SentMessageGoes(before, rounds, i, p, j, k);
  }

  // ---------- stops ----------

  /** Turns seen from the stops, where no app comes on two pages and no two apps report an instance: each finds
      what the one before it left, and perhaps more that turns which came to nothing have queued. */
  ghost predicate StopsPass(turns: seq<Turn>) {
    && (forall i :: 0 <= i < |turns| ==>
          && Taken(turns[i]) && DisjointBatches(turns[i].batches) && 0 < turns[i].sent
          && OneOwner(turns[i].p.apps, turns[i].p.apps.Keys))
    && (forall i :: 0 < i < |turns| ==>
          && DuplicateRuns.Enqueued(turns[i - 1].stopsLeft, turns[i].round.existingStops)
          && turns[i - 1].sent <= turns[i].sent)
  }

  // The stop left by the turn is one that was sent at that time.
  ghost predicate StopLeft(t: Turn, g: string, sentOn: int) { g in t.stopsLeft && t.stopsLeft[g].sentOn == sentOn }

  lemma StopsOf(turns: seq<Turn>, i: nat)
    requires StopsPass(turns) && i < |turns|
    ensures Taken(turns[i]) && DisjointBatches(turns[i].batches) && OneOwner(turns[i].p.apps, turns[i].p.apps.Keys)
    ensures i > 0 ==> DuplicateRuns.Enqueued(turns[i - 1].stopsLeft, turns[i].round.existingStops) &&
                      turns[i - 1].sent <= turns[i].sent
  {
    hide Taken, DisjointBatches, OneOwner, DuplicateRuns.Enqueued;
  }

  /** A stop that was accepted and is to be kept is stored as sent once the writes got through. */
  lemma AcceptedStopIsMarked(t: Turn, p: nat)
    requires Completed(t) && DisjointBatches(t.batches) && OneOwner(t.p.apps, t.p.apps.Keys)
    requires p < |t.run.stopPosts| && t.run.stopPosts[p].accepted && t.run.stopPosts[p].pending.keepAlive > 0
    ensures var m := t.run.stopPosts[p].pending;
            m.instanceGuid in t.stopsLeft && t.stopsLeft[m.instanceGuid] == m.(sentOn := t.sent)
  {
    var m := t.run.stopPosts[p].pending;
    PostedStopIsQueued(t, p);
    hide Completed, Taken, DisjointBatches, OneOwner, StopIsWanted;
    assert t.run.stopPosts[p] == Post(m, true) && t.run.stopPosts[p] in t.run.stopPosts;
    TurnRetiresStops(t, m.instanceGuid);
  }

  lemma PostedStopIsQueued(t: Turn, p: nat)
    requires Taken(t) && DisjointBatches(t.batches) && OneOwner(t.p.apps, t.p.apps.Keys)
    requires p < |t.run.stopPosts|
    ensures var m := t.run.stopPosts[p].pending;
            && m.instanceGuid in t.StopsQueued() && t.StopsQueued()[m.instanceGuid] == m
            && StopIsDue(t.sent, m) && StopIsWanted(t.p.apps, m)
  {
    var m := t.run.stopPosts[p].pending;
    hide CompleteRound, ActualApps, KeyedBatch, RunFollows, QueuesTouched, DisjointBatches, OneOwner, StartsByKey,
         StopsByKey, StopIsWanted, StopIsDue;
    StopsAreQueue(t);
    TurnLaws.TurnRuns(t);
    PostedStopsAreWanted(t.p.apps, t.sent, t.limit, t.startMessages, t.stopMessages, t.run);
    assert t.run.stopPosts[p] in t.run.stopPosts;
    assert m in t.stopMessages;
    var g :| g in t.StopsQueued() && t.StopsQueued()[g] == m;
  }

  // A sent stop is not posted again while it is stored, and is left unless it has expired.
  lemma MarkedStopStays(t: Turn, g: string)
    requires Taken(t) && DisjointBatches(t.batches) && OneOwner(t.p.apps, t.p.apps.Keys)
    requires g in t.round.existingStops && t.round.existingStops[g].sentOn != 0
    requires !StopHasExpired(t.sent, t.round.existingStops[g])
    ensures g in t.stopsLeft && t.stopsLeft[g] == t.round.existingStops[g]
    ensures forall p :: 0 <= p < |t.run.stopPosts| ==> t.run.stopPosts[p].pending.instanceGuid != g
  {
    forall p | 0 <= p < |t.run.stopPosts| ensures t.run.stopPosts[p].pending.instanceGuid != g {
      PostedStopIsQueued(t, p);
      StopQueuedAsFound(t, g);
    }
    StopTouched(t);
    StopQueuedAsFound(t, g);
    hide Taken, DisjointBatches, OneOwner;
    var m := t.StopsQueued()[g];
    StopDecision(t.p.apps, t.sent, m);
    assert !StopAccepted(t.run.stopPosts, m);
  }

  lemma StopTouched(t: Turn)
    requires Taken(t) && DisjointBatches(t.batches) && OneOwner(t.p.apps, t.p.apps.Keys)
    ensures PartStopFates(t.StopsQueued(), t.stopsLeft, t.sent, t.p.apps, t.run.stopPosts)
  {
    hide CompleteRound, ActualApps, KeyedBatch, KeyedQueues, RunFollows, PartStopFates, PartStartFates,
         PostsDueStarts, Lists, StartsByKey, StopsByKey, DisjointBatches, OneOwner;
    StopsAreQueue(t);
  }

  lemma StopQueuedAsFound(t: Turn, g: string)
    requires Taken(t)
    ensures g in t.round.existingStops ==> g in t.StopsQueued() && t.StopsQueued()[g] == t.round.existingStops[g]
    ensures g in t.StopsQueued() ==> t.StopsQueued()[g].instanceGuid == g
  {
    hide CompleteRound, ActualApps, KeyedBatch, RunFollows, QueuesTouched;
  }

  /** Through any number of turns, whatever writes fail. */
  lemma {:induction false} SentStopStays(turns: seq<Turn>, i: nat, j: nat, m: PendingStop)
    requires StopsPass(turns) && i <= j < |turns| && m.sentOn != 0
    requires m.instanceGuid in turns[i].stopsLeft && turns[i].stopsLeft[m.instanceGuid] == m
    requires turns[j].sent < m.sentOn + m.keepAlive
    ensures m.instanceGuid in turns[j].stopsLeft && turns[j].stopsLeft[m.instanceGuid] == m
    ensures j > i ==> m.instanceGuid in turns[j].StopsQueued() && turns[j].StopsQueued()[m.instanceGuid] == m
    ensures j > i ==>
              forall p :: 0 <= p < |turns[j].run.stopPosts| ==>
                turns[j].run.stopPosts[p].pending.instanceGuid != m.instanceGuid
    decreases j
  {
    if i < j {
      StopsOf(turns, j);
      hide StopsPass, Taken, DisjointBatches, OneOwner;
      SentStopStays(turns, i, j - 1, m);
      MarkedStopStays(turns[j], m.instanceGuid);
      StopQueuedAsFound(turns[j], m.instanceGuid);
    }
  }

  /** Two accepted stops of one instance are at least the first one's keep-alive apart, if the mark of the first
      was stored. */
  lemma StopsAreRateLimited(turns: seq<Turn>, i: nat, p: nat, j: nat, q: nat)
    requires StopsPass(turns) && i < j < |turns| && p < |turns[i].run.stopPosts| && q < |turns[j].run.stopPosts|
    requires var m := turns[i].run.stopPosts[p].pending;
             && m.instanceGuid in turns[i].stopsLeft
             && turns[i].stopsLeft[m.instanceGuid] == m.(sentOn := turns[i].sent)
    requires turns[j].run.stopPosts[q].pending.instanceGuid == turns[i].run.stopPosts[p].pending.instanceGuid
    ensures turns[i].sent + turns[i].run.stopPosts[p].pending.keepAlive <= turns[j].sent
  {
    var m := turns[i].run.stopPosts[p].pending.(sentOn := turns[i].sent);
    assert turns[i].sent > 0;
    if turns[j].sent < m.sentOn + m.keepAlive {
      SentStopStays(turns, i, j, m);
      assert false;
    }
  }

  /** The first turn after its keep-alive whose writes get through leaves nothing for the instance; and if the
      instance is to go in the turn after that one, it has a new stop queued. */
  lemma SentStopComesAnew(turns: seq<Turn>, i: nat, j: nat, m: PendingStop, a: AppSnapshot, h: InstanceHeartbeat)
    requires StopsPass(turns) && i < j < |turns| - 1 && m.sentOn != 0
    requires m.instanceGuid in turns[i].stopsLeft && turns[i].stopsLeft[m.instanceGuid] == m
    requires turns[j - 1].sent < m.sentOn + m.keepAlive <= turns[j].sent && Completed(turns[j])
    requires OnPage(turns[j + 1], a) || OffPages(turns[j + 1], a)
    requires h in a.instanceHeartbeats && h.instanceGuid == m.instanceGuid
    requires IsToGo(a, NothingToStart(a, turns[j + 1].round.existingStarts.Keys), h)
    ensures m.instanceGuid !in turns[j].stopsLeft
    ensures m.instanceGuid in turns[j + 1].StopsQueued() && turns[j + 1].StopsQueued()[m.instanceGuid].sentOn == 0
  {
    hide StopsPass, Completed, Taken, DisjointBatches, OneOwner, OnPage, OffPages, IsToGo, NothingToStart, StopIsWanted,
         DuplicateRuns.Enqueued, Turn.StopsQueued;
    var g := m.instanceGuid;
    StopsOf(turns, j);
    StopsOf(turns, j + 1);
    SentStopStays(turns, i, j - 1, m);
    StopFoundAgain(turns, j, m);
    TurnRetiresStops(turns[j], g);
    StopQueuedAsFound(turns[j + 1], g);
    CalledStopsAreQueued(turns[j + 1], a, h);
    StopFoundUnsent(turns[j].stopsLeft, turns[j + 1].round.existingStops, g);
  }

  lemma StopFoundAgain(turns: seq<Turn>, j: nat, m: PendingStop)
    requires StopsPass(turns) && 0 < j < |turns|
    requires m.instanceGuid in turns[j - 1].stopsLeft && turns[j - 1].stopsLeft[m.instanceGuid] == m
    ensures m.instanceGuid in turns[j].StopsQueued() && turns[j].StopsQueued()[m.instanceGuid] == m
  {
    hide Taken, DisjointBatches, OneOwner, Turn.StopsQueued;
    StopQueuedAsFound(turns[j], m.instanceGuid);
  }

  lemma StopFoundUnsent(before: map<string, PendingStop>, after: map<string, PendingStop>, g: string)
    requires DuplicateRuns.Enqueued(before, after) && g !in before
    ensures g in after ==> after[g].sentOn == 0
  {
  }
}
