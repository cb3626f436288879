/** What the sender does with a message, read off the apps, their heartbeats and the clock alone. */
module SendLaws {
  import opened Arithmetic
  import opened Models
  import opened Observations
  import opened PendingStores
  import opened SendDecisions

  // ---------- starts ----------

  /** An app that is desired desires the index, and nothing is starting or running there; or the message is
      to be believed as it is. */
  ghost predicate StartIsWanted(apps: map<AppKey, AppSnapshot>, m: PendingStart) {
    var k := AppKey(m.appGuid, m.appVersion);
    || m.skipVerification
    || (&& k in apps && apps[k].desired.appGuid != ""
        && m.indexToStart < apps[k].desired.numberOfInstances
        && !Seen(apps[k], m.indexToStart, {Starting, Running}))
  }

  ghost predicate StartIsDue(now: int, m: PendingStart) { m.sentOn == 0 && m.sendOn <= now }

  ghost predicate StartHasExpired(now: int, m: PendingStart) { m.sentOn != 0 && m.sentOn + m.keepAlive <= now }

  lemma StartDecision(apps: map<AppKey, AppSnapshot>, now: int, m: PendingStart)
    ensures StartMessageToSend(apps, m) ==
            if StartIsWanted(apps, m) then Some(StartMessage(m.appGuid, m.appVersion, m.indexToStart)) else None
    ensures IsDueStart(apps, now, m) <==> StartIsDue(now, m) && StartIsWanted(apps, m)
    ensures m.IsTimeToSend(now) <==> StartIsDue(now, m)
    ensures m.IsExpired(now) <==> StartHasExpired(now, m)
  {
    var k := AppKey(m.appGuid, m.appVersion);
    if k in apps {
      QueriesSee(apps[k], m.indexToStart);
    }
  }

  /** Every start posted is due, unsent and wanted, and its body names its app and index. */
  lemma PostedStartsAreWanted(apps: map<AppKey, AppSnapshot>, now: int, allowance: int, starts: seq<PendingStart>,
                              stops: seq<PendingStop>, run: SendRun, i: nat)
    requires RunFollows(apps, now, allowance, starts, stops, run) && i < |run.startPosts|
    ensures var m := run.startPosts[i].pending;
            && m in starts && StartIsDue(now, m) && StartIsWanted(apps, m)
            && StartBodies(apps, run.startPosts)[i] == StartMessage(m.appGuid, m.appVersion, m.indexToStart)
  {
    var m := run.startPosts[i].pending;
    var due := DueStarts(apps, now, run.sorted);
    hide StartMessageToSend, InPriorityOrder, StartIsWanted, StartIsDue;
    assert Pendings(run.startPosts)[i] == due[i] && due[i] in due;
    SortedElements(run.sorted, starts);
    StartDecision(apps, now, m);
  }

  lemma SortedElements(sorted: seq<PendingStart>, starts: seq<PendingStart>)
    requires multiset(sorted) == multiset(starts)
    ensures forall m :: m in sorted <==> m in starts
  {
    assert forall m :: m in sorted <==> m in multiset(sorted);
    assert forall m :: m in starts <==> m in multiset(starts);
  }

  /** And every start that is due and wanted is posted unless the limit is reached, and then not before any
      that is due later or at the same time and less urgent. */
  lemma WantedStartsArePosted(apps: map<AppKey, AppSnapshot>, now: int, allowance: int, starts: seq<PendingStart>,
                              stops: seq<PendingStop>, run: SendRun, m: PendingStart)
    requires RunFollows(apps, now, allowance, starts, stops, run)
    requires m in starts && StartIsDue(now, m) && StartIsWanted(apps, m)
    ensures (exists p :: p in run.startPosts && p.pending == m) ||
            (&& Accepted(run.startPosts) >= allowance
             && forall p :: p in run.startPosts ==>
                  p.pending.sendOn < m.sendOn || (p.pending.sendOn == m.sendOn && p.pending.priority >= m.priority))
  {
    var due := DueStarts(apps, now, run.sorted);
    hide StartMessageToSend, StartIsWanted, StartIsDue;
    SortedElements(run.sorted, starts);
    StartDecision(apps, now, m);
    DueInOrder(apps, now, run.sorted);
    assert m in due;
    var j :| 0 <= j < |due| && due[j] == m;
    var n := |run.startPosts|;
    if j < n {
      assert Pendings(run.startPosts)[j] == m;
      assert run.startPosts[j] in run.startPosts;
    } else {
      forall p | p in run.startPosts ensures !Less(m, p.pending) {
        var i :| 0 <= i < n && run.startPosts[i] == p;
        assert Pendings(run.startPosts)[i] == due[i];
      }
    }
  }

  lemma {:induction false} DueInOrder(apps: map<AppKey, AppSnapshot>, now: int, ms: seq<PendingStart>)
    requires InPriorityOrder(ms)
    ensures InPriorityOrder(DueStarts(apps, now, ms))
  {
    hide IsDueStart, Less;
    if ms != [] {
      var init, last := ms[..|ms| - 1], ms[|ms| - 1];
      DueInOrder(apps, now, init);
      var due := DueStarts(apps, now, init);
      forall i | 0 <= i < |due| ensures !Less(last, due[i]) {
        assert due[i] in init;
        var j :| 0 <= j < |init| && init[j] == due[i];
        assert ms[j] == due[i];
      }
    }
  }

  /** What is gone from the queue once the writes got through: exactly the starts that were due and not wanted,
      those sent so long ago that they need not be kept, and those just accepted that were not to be kept. The
      others are as they were, those accepted marked with the time. */
  lemma StartsGoneAre(queue: map<StartKey, PendingStart>, left: map<StartKey, PendingStart>, now: int,
                      apps: map<AppKey, AppSnapshot>, posts: seq<Post<PendingStart>>, k: StartKey)
    requires StartFates(queue, left, now, apps, posts)
    ensures k in left <==>
            k in queue &&
            !(StartIsDue(now, queue[k]) && !StartIsWanted(apps, queue[k])) &&
            !StartHasExpired(now, queue[k]) &&
            !(queue[k].keepAlive == 0 && Post(queue[k], true) in posts)
    ensures k in left ==>
              left[k] == if Post(queue[k], true) in posts then queue[k].(sentOn := now) else queue[k]
  {
    if k in queue {
      StartDecision(apps, now, queue[k]);
    }
    hide StartMessageToSend, StartIsWanted, StartIsDue, StartHasExpired;
  }

  // ---------- stops ----------

  // The p-th heartbeat is the first of the instance.
  ghost predicate FirstOf(a: AppSnapshot, guid: string, p: int) {
    && 0 <= p < |a.instanceHeartbeats| && a.instanceHeartbeats[p].instanceGuid == guid
    && forall q :: 0 <= q < p ==> a.instanceHeartbeats[q].instanceGuid != guid
  }

  // Where an instance is taken to be: at the index it reports, or else at the first.
  ghost predicate IsAt(a: AppSnapshot, guid: string, index: int, state: InstanceState) {
    || (exists p :: FirstOf(a, guid, p) &&
                    a.instanceHeartbeats[p].instanceIndex == index && a.instanceHeartbeats[p].state == state)
    || ((forall h :: h in a.instanceHeartbeats ==> h.instanceGuid != guid) && index == 0 && state == OtherState(""))
  }

  /** What a stop that is sent says: the app reports or desires something, and it desires nothing, or not the
      index, or the instance is evacuating, or there is more than one at the index; in the last two cases
      it is called a duplicate. */
  ghost predicate StopSays(apps: map<AppKey, AppSnapshot>, m: PendingStop, index: int, duplicate: bool) {
    var k := AppKey(m.appGuid, m.appVersion);
    && k in apps
    && exists state :: IsAt(apps[k], m.instanceGuid, index, state) &&
         if apps[k].desired.appGuid == "" || index >= apps[k].desired.numberOfInstances then !duplicate
         else duplicate && (state == Evacuating || Crowded(apps[k], index))
  }

  ghost predicate StopIsWanted(apps: map<AppKey, AppSnapshot>, m: PendingStop) {
    exists index, duplicate :: StopSays(apps, m, index, duplicate)
  }

  ghost predicate StopIsDue(now: int, m: PendingStop) { m.sentOn == 0 && m.sendOn <= now }

  ghost predicate StopHasExpired(now: int, m: PendingStop) { m.sentOn != 0 && m.sentOn + m.keepAlive <= now }

  lemma {:induction false} LookupIsFirst(a: AppSnapshot, guid: string, n: nat)
    requires n <= |a.instanceHeartbeats|
    requires forall q :: 0 <= q < n ==> a.instanceHeartbeats[q].instanceGuid != guid
    ensures InstanceWithGuid(a.instanceHeartbeats, guid) == InstanceWithGuid(a.instanceHeartbeats[n..], guid)
  {
    if n > 0 {
      LookupIsFirst(a, guid, n - 1);
      assert a.instanceHeartbeats[n - 1..][1..] == a.instanceHeartbeats[n..];
    }
  }

  lemma InstanceIsAt(a: AppSnapshot, guid: string, index: int, state: InstanceState)
    ensures IsAt(a, guid, index, state) <==>
            var h := InstanceWithGuid(a.instanceHeartbeats, guid); h.instanceIndex == index && h.state == state
  {
    hide InstanceWithGuid;
    if h :| h in a.instanceHeartbeats && h.instanceGuid == guid {
      var p := FindFirst(a, guid, 0);
      FirstIsLookedUp(a, guid, p);
      forall q | FirstOf(a, guid, q) ensures q == p {
      }
    }
  }

  lemma {:induction false} FindFirst(a: AppSnapshot, guid: string, n: nat) returns (p: nat)
    requires n <= |a.instanceHeartbeats| && exists h :: h in a.instanceHeartbeats && h.instanceGuid == guid
    requires forall q :: 0 <= q < n ==> a.instanceHeartbeats[q].instanceGuid != guid
    ensures FirstOf(a, guid, p)
    decreases |a.instanceHeartbeats| - n
  {
    if a.instanceHeartbeats[n].instanceGuid == guid {
      p := n;
    } else {
      p := FindFirst(a, guid, n + 1);
    }
  }

  lemma FirstIsLookedUp(a: AppSnapshot, guid: string, p: nat)
    requires FirstOf(a, guid, p)
    ensures InstanceWithGuid(a.instanceHeartbeats, guid) == a.instanceHeartbeats[p]
  {
    LookupIsFirst(a, guid, p);
    assert a.instanceHeartbeats[p..][0] == a.instanceHeartbeats[p];
  }

  lemma StopDecision(apps: map<AppKey, AppSnapshot>, now: int, m: PendingStop)
    ensures forall index, duplicate ::
              StopSays(apps, m, index, duplicate) <==>
              StopMessageToSend(apps, m) ==
                Some(StopMessage(m.appGuid, m.appVersion, m.instanceGuid, index, duplicate))
    ensures StopMessageToSend(apps, m).Some? <==> StopIsWanted(apps, m)
    ensures IsDueStop(apps, now, m) <==> StopIsDue(now, m) && StopIsWanted(apps, m)
    ensures m.IsTimeToSend(now) <==> StopIsDue(now, m)
    ensures m.IsExpired(now) <==> StopHasExpired(now, m)
  {
    forall index, duplicate
      ensures StopSays(apps, m, index, duplicate) <==>
              StopMessageToSend(apps, m) ==
                Some(StopMessage(m.appGuid, m.appVersion, m.instanceGuid, index, duplicate))
    {
      StopSaysIff(apps, m, index, duplicate);
    }
    hide StopSays;
    if body :| StopMessageToSend(apps, m) == Some(body) {
      assert StopSays(apps, m, body.instanceIndex, body.isDuplicate);
    }
  }

  lemma StopSaysIff(apps: map<AppKey, AppSnapshot>, m: PendingStop, index: int, duplicate: bool)
    ensures StopSays(apps, m, index, duplicate) <==>
            StopMessageToSend(apps, m) == Some(StopMessage(m.appGuid, m.appVersion, m.instanceGuid, index, duplicate))
  {
    var k := AppKey(m.appGuid, m.appVersion);
    if k in apps {
      var a := apps[k];
      var h := InstanceWithGuid(a.instanceHeartbeats, m.instanceGuid);
      CrowdedIff(a, h.instanceIndex);
      forall state ensures IsAt(a, m.instanceGuid, index, state) <==> h.instanceIndex == index && h.state == state {
        InstanceIsAt(a, m.instanceGuid, index, state);
      }
      hide IsAt, Crowded, AppSnapshot.StartingOrRunningAt, InstanceWithGuid;
      assert IsAt(a, m.instanceGuid, index, h.state) <==> index == h.instanceIndex;
    }
  }

  /** Exactly the stops that are due and wanted are posted, in order, each saying where the instance is and
      whether it is a duplicate. */
  lemma PostedStopsAreWanted(apps: map<AppKey, AppSnapshot>, now: int, allowance: int, starts: seq<PendingStart>,
                             stops: seq<PendingStop>, run: SendRun)
    requires RunFollows(apps, now, allowance, starts, stops, run)
    ensures forall m :: (exists p :: p in run.stopPosts && p.pending == m) <==>
                        m in stops && StopIsDue(now, m) && StopIsWanted(apps, m)
    ensures forall i :: 0 <= i < |run.stopPosts| ==>
              var m, body := run.stopPosts[i].pending, StopBodies(apps, run.stopPosts)[i];
              && body.appGuid == m.appGuid && body.appVersion == m.appVersion && body.instanceGuid == m.instanceGuid
              && StopSays(apps, m, body.instanceIndex, body.isDuplicate)
  {
    var posts, due := run.stopPosts, DueStops(apps, now, stops);
    hide StopMessageToSend, StopIsWanted, StopIsDue, StopSays, IsDueStop, InPriorityOrder;
    forall m ensures (exists p :: p in posts && p.pending == m) <==> m in due {
      if p :| p in posts && p.pending == m {
        var i :| 0 <= i < |posts| && posts[i] == p;
        assert Pendings(posts)[i] == due[i];
      }
      if m in due {
        var i :| 0 <= i < |due| && due[i] == m;
        assert Pendings(posts)[i] == m && posts[i] in posts;
      }
    }
    forall m ensures IsDueStop(apps, now, m) <==> StopIsDue(now, m) && StopIsWanted(apps, m) {
      StopDecision(apps, now, m);
    }
    forall i | 0 <= i < |posts|
      ensures var m, body := posts[i].pending, StopBodies(apps, posts)[i];
              && body.appGuid == m.appGuid && body.appVersion == m.appVersion && body.instanceGuid == m.instanceGuid
              && StopSays(apps, m, body.instanceIndex, body.isDuplicate)
    {
      assert Pendings(posts)[i] == due[i] && due[i] in due;
      StopBodySays(apps, now, posts[i].pending);
    }
  }

  lemma StopBodySays(apps: map<AppKey, AppSnapshot>, now: int, m: PendingStop)
    requires IsDueStop(apps, now, m)
    ensures StopMessageToSend(apps, m).Some?
    ensures var body := StopMessageToSend(apps, m).value;
            && body.appGuid == m.appGuid && body.appVersion == m.appVersion && body.instanceGuid == m.instanceGuid
            && StopSays(apps, m, body.instanceIndex, body.isDuplicate)
  {
    StopDecision(apps, now, m);
    hide StopSays, StopIsWanted;
  }

  /** The same of the queue of stops. */
  lemma StopsGoneAre(queue: map<string, PendingStop>, left: map<string, PendingStop>, now: int,
                     apps: map<AppKey, AppSnapshot>, posts: seq<Post<PendingStop>>, g: string)
    requires StopFates(queue, left, now, apps, posts)
    ensures g in left <==>
            g in queue &&
            !(StopIsDue(now, queue[g]) && !StopIsWanted(apps, queue[g])) &&
            !StopHasExpired(now, queue[g]) &&
            !(queue[g].keepAlive == 0 && Post(queue[g], true) in posts)
    ensures g in left ==>
              left[g] == if Post(queue[g], true) in posts then queue[g].(sentOn := now) else queue[g]
  {
    if g in queue {
      StopDecision(apps, now, queue[g]);
    }
    hide StopMessageToSend, StopIsWanted, StopIsDue, StopHasExpired;
  }
}
