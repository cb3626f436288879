/** What the sender does with each pending message, given a snapshot of the apps and the answers of
    the cloud controller. */
module SendDecisions {
  import opened Adapters
  import opened Arithmetic
  import opened Models
  import opened PendingStores

  datatype StartMessage = StartMessage(appGuid: string, appVersion: string, instanceIndex: int)

  datatype StopMessage = StopMessage(appGuid: string, appVersion: string, instanceGuid: string,
                                     instanceIndex: int, isDuplicate: bool)

  function StartMessageToSend(apps: map<AppKey, AppSnapshot>, m: PendingStart): Option<StartMessage> {
    var toSend := Some(StartMessage(m.appGuid, m.appVersion, m.indexToStart));
    var key := AppKey(m.appGuid, m.appVersion);
    if m.skipVerification then toSend
    else if key !in apps then None
    else if !apps[key].IsDesired() then None
    else if !apps[key].IsIndexDesired(m.indexToStart) then None
    else if apps[key].HasStartingOrRunningAt(m.indexToStart) then None
    else toSend
  }

  function StopMessageToSend(apps: map<AppKey, AppSnapshot>, m: PendingStop): Option<StopMessage> {
    var key := AppKey(m.appGuid, m.appVersion);
    if key !in apps then None
    else
      var app := apps[key];
      var instance := InstanceWithGuid(app.instanceHeartbeats, m.instanceGuid);
      var toSend := StopMessage(m.appGuid, m.appVersion, m.instanceGuid, instance.instanceIndex, false);
      if !app.IsDesired() then Some(toSend)
      else if !app.IsIndexDesired(instance.instanceIndex) then Some(toSend)
      else if instance.IsEvacuating() then Some(toSend.(isDuplicate := true))
      else if |app.StartingOrRunningAt(instance.instanceIndex)| > 1 then Some(toSend.(isDuplicate := true))
      else None
  }

  // One request to the cloud controller for a pending message, and whether it was accepted.
  datatype Post<M> = Post(pending: M, accepted: bool)

  function Pendings<M>(posts: seq<Post<M>>): (r: seq<M>)
    ensures |r| == |posts| && forall i :: 0 <= i < |r| ==> r[i] == posts[i].pending
  {
    seq(|posts|, i requires 0 <= i < |posts| => posts[i].pending)
  }

  function Accepted<M>(posts: seq<Post<M>>): nat {
    if posts == [] then 0
    else Accepted(posts[..|posts| - 1]) + (if posts[|posts| - 1].accepted then 1 else 0)
  }

  predicate AllAccepted<M>(posts: seq<Post<M>>) { forall i :: 0 <= i < |posts| ==> posts[i].accepted }

  lemma AllAcceptedAppend<M>(posts: seq<Post<M>>, p: Post<M>)
    ensures AllAccepted(posts + [p]) <==> AllAccepted(posts) && p.accepted
  {
    assert forall i :: 0 <= i < |posts| ==> (posts + [p])[i] == posts[i];
    assert (posts + [p])[|posts|] == p;
  }

  // The bodies a sequence of posts must have carried.
  function StartBodies(apps: map<AppKey, AppSnapshot>, posts: seq<Post<PendingStart>>): (r: seq<StartMessage>)
    ensures |r| == |posts|
  {
    seq(|posts|, i requires 0 <= i < |posts| =>
      var body := StartMessageToSend(apps, posts[i].pending);
      if body.Some? then body.value else StartMessage("", "", 0))
  }

  function StopBodies(apps: map<AppKey, AppSnapshot>, posts: seq<Post<PendingStop>>): (r: seq<StopMessage>)
    ensures |r| == |posts|
  {
    seq(|posts|, i requires 0 <= i < |posts| =>
      var body := StopMessageToSend(apps, posts[i].pending);
      if body.Some? then body.value else StopMessage("", "", "", 0, false))
  }

  // ---------- starts ----------

  predicate IsDueStart(apps: map<AppKey, AppSnapshot>, now: int, m: PendingStart) {
    m.IsTimeToSend(now) && StartMessageToSend(apps, m).Some?
  }

  // The messages that are due and pass verification, in the given order.
  function DueStarts(apps: map<AppKey, AppSnapshot>, now: int, ms: seq<PendingStart>): (r: seq<PendingStart>)
    ensures forall m :: m in r <==> m in ms && IsDueStart(apps, now, m)
  {
    if ms == [] then []
    else
      var init, last := ms[..|ms| - 1], ms[|ms| - 1];
      assert ms == init + [last];
      if IsDueStart(apps, now, last) then DueStarts(apps, now, init) + [last] else DueStarts(apps, now, init)
  }

  ghost predicate StartAccepted(posts: seq<Post<PendingStart>>, m: PendingStart) {
    Post(m, true) in posts
  }

  ghost predicate RetiresStart(apps: map<AppKey, AppSnapshot>, now: int, posts: seq<Post<PendingStart>>,
                               m: PendingStart) {
    || (m.IsTimeToSend(now) && StartMessageToSend(apps, m).None?)
    || m.IsExpired(now)
    || (StartAccepted(posts, m) && m.keepAlive == 0)
  }

  ghost predicate MarksStart(posts: seq<Post<PendingStart>>, m: PendingStart) {
    StartAccepted(posts, m) && m.keepAlive != 0
  }

  // The order of attempts: earliest first, then most urgent first.
  predicate Less(a: PendingStart, b: PendingStart) {
    a.sendOn < b.sendOn || (a.sendOn == b.sendOn && a.priority > b.priority)
  }

  ghost predicate InPriorityOrder(ms: seq<PendingStart>) {
    forall i, j :: 0 <= i < j < |ms| ==> !Less(ms[j], ms[i])
  }

  // What became of every stored start: dropped, marked as sent now, or left as it was.
  ghost predicate StartFates(queue: map<StartKey, PendingStart>, queue': map<StartKey, PendingStart>, now: int,
                             apps: map<AppKey, AppSnapshot>, posts: seq<Post<PendingStart>>)
  {
    && (forall k :: k in queue' ==> k in queue)
    && (forall k :: k in queue ==> (k in queue' <==> !RetiresStart(apps, now, posts, queue[k])))
    && (forall k :: k in queue' ==>
          queue'[k] == if MarksStart(posts, queue[k]) then queue[k].(sentOn := now) else queue[k])
  }

  // What may have become of them when a write failed: the same, or nothing.
  ghost predicate PartStartFates(queue: map<StartKey, PendingStart>, queue': map<StartKey, PendingStart>, now: int,
                                 apps: map<AppKey, AppSnapshot>, posts: seq<Post<PendingStart>>)
  {
    && (forall k :: k in queue' ==> k in queue)
    && (forall k :: k in queue && k !in queue' ==> RetiresStart(apps, now, posts, queue[k]))
    && (forall k :: k in queue' && queue'[k] != queue[k] ==>
          MarksStart(posts, queue[k]) && queue'[k] == queue[k].(sentOn := now))
  }

  // Only stored messages that are due and verified were posted.
  ghost predicate PostsDueStarts(queue: map<StartKey, PendingStart>, now: int,
                                 apps: map<AppKey, AppSnapshot>, posts: seq<Post<PendingStart>>)
  {
    forall p :: p in posts ==> p.pending in queue.Values && IsDueStart(apps, now, p.pending)
  }

  // ---------- stops ----------

  predicate IsDueStop(apps: map<AppKey, AppSnapshot>, now: int, m: PendingStop) {
    m.IsTimeToSend(now) && StopMessageToSend(apps, m).Some?
  }

  function DueStops(apps: map<AppKey, AppSnapshot>, now: int, ms: seq<PendingStop>): (r: seq<PendingStop>)
    ensures forall m :: m in r <==> m in ms && IsDueStop(apps, now, m)
  {
    if ms == [] then []
    else
      var init, last := ms[..|ms| - 1], ms[|ms| - 1];
      assert ms == init + [last];
      if IsDueStop(apps, now, last) then DueStops(apps, now, init) + [last] else DueStops(apps, now, init)
  }

  ghost predicate StopAccepted(posts: seq<Post<PendingStop>>, m: PendingStop) {
    Post(m, true) in posts
  }

  ghost predicate RetiresStop(apps: map<AppKey, AppSnapshot>, now: int, posts: seq<Post<PendingStop>>, m: PendingStop) {
    || (m.IsTimeToSend(now) && StopMessageToSend(apps, m).None?)
    || m.IsExpired(now)
    || (StopAccepted(posts, m) && m.keepAlive == 0)
  }

  ghost predicate MarksStop(posts: seq<Post<PendingStop>>, m: PendingStop) {
    StopAccepted(posts, m) && m.keepAlive != 0
  }

  ghost predicate StopFates(queue: map<string, PendingStop>, queue': map<string, PendingStop>, now: int,
                            apps: map<AppKey, AppSnapshot>, posts: seq<Post<PendingStop>>)
  {
    && (forall k :: k in queue' ==> k in queue)
    && (forall k :: k in queue ==> (k in queue' <==> !RetiresStop(apps, now, posts, queue[k])))
    && (forall k :: k in queue' ==>
          queue'[k] == if MarksStop(posts, queue[k]) then queue[k].(sentOn := now) else queue[k])
  }

  ghost predicate PartStopFates(queue: map<string, PendingStop>, queue': map<string, PendingStop>, now: int,
                                apps: map<AppKey, AppSnapshot>, posts: seq<Post<PendingStop>>)
  {
    && (forall k :: k in queue' ==> k in queue)
    && (forall k :: k in queue && k !in queue' ==> RetiresStop(apps, now, posts, queue[k]))
    && (forall k :: k in queue' && queue'[k] != queue[k] ==>
          MarksStop(posts, queue[k]) && queue'[k] == queue[k].(sentOn := now))
  }

  // ---------- throttling ----------

  // Posts were made for a prefix of the due messages, stopping early only at the limit and never made
  // once it was reached.
  ghost predicate ThrottledPrefix(posts: seq<Post<PendingStart>>, due: seq<PendingStart>, allowance: int) {
    && |posts| <= |due|
    && Pendings(posts) == due[..|posts|]
    && Accepted(posts) <= Max(allowance, 0)
    && (|posts| < |due| ==> Accepted(posts) >= allowance)
    && (posts != [] ==> Accepted(posts[..|posts| - 1]) < allowance)
  }

  /** With nothing left of the limit nothing is posted at all, and otherwise something is unless
      nothing is due. */
  lemma PostsNeedAllowance(posts: seq<Post<PendingStart>>, due: seq<PendingStart>, allowance: int)
    requires ThrottledPrefix(posts, due, allowance)
    ensures posts == [] <==> allowance <= 0 || due == []
  {
  }

  /** When exactly a due message gets its turn: while fewer of those before it have been accepted than the
      limit allows. */
  lemma {:induction false} PostedIffAllowed(posts: seq<Post<PendingStart>>, due: seq<PendingStart>, allowance: int,
                                            i: nat)
    requires ThrottledPrefix(posts, due, allowance) && i < |due|
    ensures i < |posts| <==> Accepted(posts[..Min(i, |posts|)]) < allowance
  {
    if i < |posts| {
      AcceptedGrows(posts, i, |posts| - 1);
    } else {
      assert posts[..|posts|] == posts;
    }
  }

  lemma {:induction false} AcceptedGrows<M>(posts: seq<Post<M>>, i: nat, j: nat)
    requires i <= j <= |posts|
    ensures Accepted(posts[..i]) <= Accepted(posts[..j])
    decreases j
  {
    if i < j {
      AcceptedGrows(posts, i, j - 1);
      assert posts[..j][..j - 1] == posts[..j - 1];
    }
  }

  // If all messages are due, all are considered for posting.
  lemma {:induction false} AllDue(apps: map<AppKey, AppSnapshot>, now: int, ms: seq<PendingStart>)
    requires forall m :: m in ms ==> IsDueStart(apps, now, m)
    ensures DueStarts(apps, now, ms) == ms
  {
    hide IsDueStart;
    if ms != [] {
      var init, last := ms[..|ms| - 1], ms[|ms| - 1];
      assert ms == init + [last];
      AllDue(apps, now, init);
    }
  }

  lemma {:induction false} AcceptedAtMost<M>(posts: seq<Post<M>>)
    ensures Accepted(posts) <= |posts|
    ensures Accepted(posts) == |posts| <==> forall p :: p in posts ==> p.accepted
  {
    if posts != [] {
      var init, last := posts[..|posts| - 1], posts[|posts| - 1];
      assert posts == init + [last];
      AcceptedAtMost(init);
      assert last in posts;
    }
  }

  /** When every post is accepted the number sent is exactly the smaller of the limit and the number
      of due messages. */
  lemma ThrottleIsExact(posts: seq<Post<PendingStart>>, due: seq<PendingStart>, limit: nat)
    requires ThrottledPrefix(posts, due, limit)
    requires forall p :: p in posts ==> p.accepted
    ensures Accepted(posts) == |posts| == Min(limit, |due|)
  {
    AcceptedAtMost(posts);
  }

  // ---------- queue bookkeeping ----------

  // ms lists every message of the queue once, in some order.
  ghost predicate Lists<K, M>(queue: map<K, M>, ms: seq<M>) {
    && (forall k :: k in queue ==> queue[k] in ms)
    && (forall m :: m in ms ==> m in queue.Values)
    && |ms| == |queue|
  }

  ghost predicate StartsToSave(posts: seq<Post<PendingStart>>, now: int, ms: seq<PendingStart>,
                               saves: seq<PendingStart>) {
    && (forall m :: m in ms && MarksStart(posts, m) ==> m.(sentOn := now) in saves)
    && (forall s :: s in saves ==> exists m :: m in ms && MarksStart(posts, m) && s == m.(sentOn := now))
  }

  ghost predicate StartsToDelete(apps: map<AppKey, AppSnapshot>, now: int, posts: seq<Post<PendingStart>>,
                                 ms: seq<PendingStart>, deletes: seq<PendingStart>) {
    forall m :: m in deletes <==> m in ms && RetiresStart(apps, now, posts, m)
  }

  ghost predicate StopsToSave(posts: seq<Post<PendingStop>>, now: int, ms: seq<PendingStop>, saves: seq<PendingStop>) {
    && (forall m :: m in ms && MarksStop(posts, m) ==> m.(sentOn := now) in saves)
    && (forall s :: s in saves ==> exists m :: m in ms && MarksStop(posts, m) && s == m.(sentOn := now))
  }

  ghost predicate StopsToDelete(apps: map<AppKey, AppSnapshot>, now: int, posts: seq<Post<PendingStop>>,
                                ms: seq<PendingStop>, deletes: seq<PendingStop>) {
    forall m :: m in deletes <==> m in ms && RetiresStop(apps, now, posts, m)
  }

  /** Saving and deleting touch different keys, so the writes give every stored start exactly one
      fate, whatever their order. */
  lemma StartWritesGiveFates(queue: map<StartKey, PendingStart>, ms: seq<PendingStart>, now: int,
                             apps: map<AppKey, AppSnapshot>, posts: seq<Post<PendingStart>>,
                             saves: seq<PendingStart>, deletes: seq<PendingStart>)
    requires forall k :: k in queue ==> queue[k].StoreKey() == k
    requires Lists(queue, ms) && PostsDueStarts(queue, now, apps, posts)
    requires StartsToSave(posts, now, ms, saves) && StartsToDelete(apps, now, posts, ms, deletes)
    ensures StartsByKey(saves).Keys !! StartKeys(deletes)
    ensures StartFates(queue, (queue + StartsByKey(saves)) - StartKeys(deletes), now, apps, posts)
  {
    var nodes := StartsByKey(saves);
    forall k | k in nodes
      ensures k in queue && MarksStart(posts, queue[k]) && nodes[k] == queue[k].(sentOn := now)
    {
      var m :| m in ms && MarksStart(posts, m) && nodes[k] == m.(sentOn := now);
      var k' :| k' in queue && queue[k'] == m;
      assert m.StoreKey() == nodes[k].StoreKey();
    }
    forall k | k in queue && MarksStart(posts, queue[k])
      ensures k in nodes && !RetiresStart(apps, now, posts, queue[k])
    {
      assert queue[k].(sentOn := now) in saves;
      assert queue[k].(sentOn := now).StoreKey() == k;
    }
    forall k | k in StartKeys(deletes) ensures k in queue && RetiresStart(apps, now, posts, queue[k]) {
      var m :| m in deletes && m.StoreKey() == k;
      var k' :| k' in queue && queue[k'] == m;
    }
    forall k | k in queue && RetiresStart(apps, now, posts, queue[k]) ensures k in StartKeys(deletes) {
      assert queue[k] in deletes;
    }
  }

  lemma StopWritesGiveFates(queue: map<string, PendingStop>, ms: seq<PendingStop>, now: int,
                            apps: map<AppKey, AppSnapshot>, posts: seq<Post<PendingStop>>,
                            saves: seq<PendingStop>, deletes: seq<PendingStop>)
    requires forall k :: k in queue ==> queue[k].StoreKey() == k
    requires Lists(queue, ms)
    requires forall p :: p in posts ==> IsDueStop(apps, now, p.pending)
    requires StopsToSave(posts, now, ms, saves) && StopsToDelete(apps, now, posts, ms, deletes)
    ensures StopsByKey(saves).Keys !! StopKeys(deletes)
    ensures StopFates(queue, (queue + StopsByKey(saves)) - StopKeys(deletes), now, apps, posts)
  {
    var nodes := StopsByKey(saves);
    forall k | k in nodes
      ensures k in queue && MarksStop(posts, queue[k]) && nodes[k] == queue[k].(sentOn := now)
    {
      var m :| m in ms && MarksStop(posts, m) && nodes[k] == m.(sentOn := now);
      var k' :| k' in queue && queue[k'] == m;
      assert m.StoreKey() == nodes[k].StoreKey();
    }
    forall k | k in queue && MarksStop(posts, queue[k])
      ensures k in nodes && !RetiresStop(apps, now, posts, queue[k])
    {
      assert queue[k].(sentOn := now) in saves;
      assert queue[k].(sentOn := now).StoreKey() == k;
    }
    forall k | k in StopKeys(deletes) ensures k in queue && RetiresStop(apps, now, posts, queue[k]) {
      var m :| m in deletes && m.StoreKey() == k;
      var k' :| k' in queue && queue[k'] == m;
    }
    forall k | k in queue && RetiresStop(apps, now, posts, queue[k]) ensures k in StopKeys(deletes) {
      assert queue[k] in deletes;
    }
  }

  /** If a write fails, each stored message has met the fate it was meant to meet or stays as it was: no
      failure loses a message that is still wanted or marks one that was not sent. */
  lemma PartOfStartFates(queue: map<StartKey, PendingStart>, now: int, apps: map<AppKey, AppSnapshot>,
                         posts: seq<Post<PendingStart>>, saves: map<StartKey, PendingStart>, deletes: set<StartKey>,
                         saveFails: bool, deleteFails: bool, queue': map<StartKey, PendingStart>)
    requires saves.Keys !! deletes && StartFates(queue, (queue + saves) - deletes, now, apps, posts)
    requires QueueWritten(queue, saves, deletes, saveFails, deleteFails, queue')
    ensures PartStartFates(queue, queue', now, apps, posts)
  {
    hide RetiresStart, MarksStart;
    var ideal := (queue + saves) - deletes;
    assert forall k :: k in saves ==> k in ideal && ideal[k] == saves[k];
    assert forall k :: k in queue && k !in deletes ==> k in ideal;
  }

  lemma PartOfStopFates(queue: map<string, PendingStop>, now: int, apps: map<AppKey, AppSnapshot>,
                        posts: seq<Post<PendingStop>>, saves: map<string, PendingStop>, deletes: set<string>,
                        saveFails: bool, deleteFails: bool, queue': map<string, PendingStop>)
    requires saves.Keys !! deletes && StopFates(queue, (queue + saves) - deletes, now, apps, posts)
    requires QueueWritten(queue, saves, deletes, saveFails, deleteFails, queue')
    ensures PartStopFates(queue, queue', now, apps, posts)
  {
    hide RetiresStop, MarksStop;
    var ideal := (queue + saves) - deletes;
    assert forall k :: k in saves ==> k in ideal && ideal[k] == saves[k];
    assert forall k :: k in queue && k !in deletes ==> k in ideal;
  }

  // ---------- one message at a time ----------

  // What handling the first messages of an ordered list has produced.
  ghost predicate StartsHandled(apps: map<AppKey, AppSnapshot>, now: int, allowance: int, done: seq<PendingStart>,
                                posts: seq<Post<PendingStart>>, saves: seq<PendingStart>, deletes: seq<PendingStart>)
  {
    && ThrottledPrefix(posts, DueStarts(apps, now, done), allowance)
    && StartsToSave(posts, now, done, saves)
    && StartsToDelete(apps, now, posts, done, deletes)
  }

  lemma NothingHandled(apps: map<AppKey, AppSnapshot>, now: int, allowance: int)
    ensures StartsHandled(apps, now, allowance, [], [], [], [])
  {
  }

  lemma NoStopsHandled(apps: map<AppKey, AppSnapshot>, now: int)
    ensures StopsHandled(apps, now, [], [], [], [])
  {
  }

  lemma PostedAreDue(posts: seq<Post<PendingStart>>, due: seq<PendingStart>)
    requires |posts| <= |due| && Pendings(posts) == due[..|posts|]
    ensures forall m :: StartAccepted(posts, m) ==> m in due
  {
    forall m | StartAccepted(posts, m) ensures m in due {
      var i :| 0 <= i < |posts| && posts[i] == Post(m, true);
      assert Pendings(posts)[i] == due[i];
    }
  }

  lemma StartNotDue(apps: map<AppKey, AppSnapshot>, now: int, allowance: int, done: seq<PendingStart>,
                    posts: seq<Post<PendingStart>>, saves: seq<PendingStart>, deletes: seq<PendingStart>,
                    m: PendingStart)
    requires StartsHandled(apps, now, allowance, done, posts, saves, deletes)
    requires !IsDueStart(apps, now, m)
    ensures StartsHandled(apps, now, allowance, done + [m], posts, saves,
                          deletes + if m.IsTimeToSend(now) || m.IsExpired(now) then [m] else [])
  {
    hide StartMessageToSend;
    assert (done + [m])[..|done|] == done;
    PostedAreDue(posts, DueStarts(apps, now, done));
  }

  lemma StartThrottled(apps: map<AppKey, AppSnapshot>, now: int, allowance: int, done: seq<PendingStart>,
                       posts: seq<Post<PendingStart>>, saves: seq<PendingStart>, deletes: seq<PendingStart>,
                       m: PendingStart)
    requires StartsHandled(apps, now, allowance, done, posts, saves, deletes)
    requires IsDueStart(apps, now, m) && Accepted(posts) >= allowance
    ensures StartsHandled(apps, now, allowance, done + [m], posts, saves, deletes)
  {
    hide StartMessageToSend;
    assert (done + [m])[..|done|] == done;
    PostedAreDue(posts, DueStarts(apps, now, done));
    assert DueStarts(apps, now, done + [m])[..|posts|] == DueStarts(apps, now, done)[..|posts|];
  }

  lemma StartPosted(apps: map<AppKey, AppSnapshot>, now: int, allowance: int, done: seq<PendingStart>,
                    posts: seq<Post<PendingStart>>, saves: seq<PendingStart>, deletes: seq<PendingStart>,
                    m: PendingStart, accepted: bool)
    requires StartsHandled(apps, now, allowance, done, posts, saves, deletes)
    requires IsDueStart(apps, now, m) && Accepted(posts) < allowance
    ensures StartsHandled(apps, now, allowance, done + [m], posts + [Post(m, accepted)],
                          saves + (if accepted && m.keepAlive != 0 then [m.(sentOn := now)] else []),
                          deletes + (if accepted && m.keepAlive == 0 then [m] else []))
    ensures Accepted(posts + [Post(m, accepted)]) == Accepted(posts) + (if accepted then 1 else 0)
  {
    hide StartMessageToSend;
    var due := DueStarts(apps, now, done);
    var posts' := posts + [Post(m, accepted)];
    PostedAreDue(posts, due);
    PostedPrefix(apps, now, allowance, done, posts, m, accepted);
    assert forall x :: StartAccepted(posts', x) <==> StartAccepted(posts, x) || (accepted && x == m);
    PostedSaves(posts, posts', now, done, saves, m, accepted);
    PostedDeletes(apps, now, posts, posts', done, deletes, m, accepted);
  }

  lemma PostedPrefix(apps: map<AppKey, AppSnapshot>, now: int, allowance: int, done: seq<PendingStart>,
                     posts: seq<Post<PendingStart>>, m: PendingStart, accepted: bool)
    requires ThrottledPrefix(posts, DueStarts(apps, now, done), allowance)
    requires IsDueStart(apps, now, m) && Accepted(posts) < allowance
    ensures ThrottledPrefix(posts + [Post(m, accepted)], DueStarts(apps, now, done + [m]), allowance)
    ensures Accepted(posts + [Post(m, accepted)]) == Accepted(posts) + (if accepted then 1 else 0)
  {
    var due := DueStarts(apps, now, done);
    var posts' := posts + [Post(m, accepted)];
    assert DueStarts(apps, now, done + [m]) == due + [m] by {
      assert (done + [m])[..|done|] == done;
    }
    hide IsDueStart, DueStarts;
    assert posts'[..|posts'| - 1] == posts;
    assert due[..|due|] == due && (due + [m])[..|due| + 1] == due + [m];
    assert Pendings(posts') == Pendings(posts) + [m];
    assert Accepted(posts') == Accepted(posts) + (if accepted then 1 else 0);
    hide Accepted, Pendings;
  }

  lemma PostedSaves(posts: seq<Post<PendingStart>>, posts': seq<Post<PendingStart>>, now: int,
                    done: seq<PendingStart>, saves: seq<PendingStart>, m: PendingStart, accepted: bool)
    requires StartsToSave(posts, now, done, saves)
    requires forall x :: StartAccepted(posts', x) <==> StartAccepted(posts, x) || (accepted && x == m)
    requires StartAccepted(posts, m) ==> m in done
    ensures StartsToSave(posts', now, done + [m],
                         saves + (if accepted && m.keepAlive != 0 then [m.(sentOn := now)] else []))
  {
    hide StartAccepted;
  }

  lemma PostedDeletes(apps: map<AppKey, AppSnapshot>, now: int, posts: seq<Post<PendingStart>>,
                      posts': seq<Post<PendingStart>>, done: seq<PendingStart>, deletes: seq<PendingStart>,
                      m: PendingStart, accepted: bool)
    requires StartsToDelete(apps, now, posts, done, deletes)
    requires IsDueStart(apps, now, m)
    requires forall x :: StartAccepted(posts', x) <==> StartAccepted(posts, x) || (accepted && x == m)
    requires StartAccepted(posts, m) ==> m in done
    ensures StartsToDelete(apps, now, posts', done + [m], deletes + (if accepted && m.keepAlive == 0 then [m] else []))
  {
    hide StartAccepted, StartMessageToSend;
  }

  ghost predicate StopsHandled(apps: map<AppKey, AppSnapshot>, now: int, done: seq<PendingStop>,
                               posts: seq<Post<PendingStop>>, saves: seq<PendingStop>, deletes: seq<PendingStop>)
  {
    && Pendings(posts) == DueStops(apps, now, done)
    && StopsToSave(posts, now, done, saves)
    && StopsToDelete(apps, now, posts, done, deletes)
  }

  lemma PostedStopsAreDue(posts: seq<Post<PendingStop>>, due: seq<PendingStop>)
    requires Pendings(posts) == due
    ensures forall p :: p in posts ==> p.pending in due
  {
    forall p | p in posts ensures p.pending in due {
      var i :| 0 <= i < |posts| && posts[i] == p;
      assert Pendings(posts)[i] == due[i];
    }
  }

  lemma StopNotDue(apps: map<AppKey, AppSnapshot>, now: int, done: seq<PendingStop>,
                   posts: seq<Post<PendingStop>>, saves: seq<PendingStop>, deletes: seq<PendingStop>, m: PendingStop)
    requires StopsHandled(apps, now, done, posts, saves, deletes)
    requires !IsDueStop(apps, now, m)
    ensures StopsHandled(apps, now, done + [m], posts, saves,
                         deletes + if m.IsTimeToSend(now) || m.IsExpired(now) then [m] else [])
  {
    assert (done + [m])[..|done|] == done;
    PostedStopsAreDue(posts, DueStops(apps, now, done));
  }

  lemma StopPosted(apps: map<AppKey, AppSnapshot>, now: int, done: seq<PendingStop>,
                   posts: seq<Post<PendingStop>>, saves: seq<PendingStop>, deletes: seq<PendingStop>,
                   m: PendingStop, accepted: bool)
    requires StopsHandled(apps, now, done, posts, saves, deletes)
    requires IsDueStop(apps, now, m)
    ensures StopsHandled(apps, now, done + [m], posts + [Post(m, accepted)],
                         saves + (if accepted && m.keepAlive != 0 then [m.(sentOn := now)] else []),
                         deletes + (if accepted && m.keepAlive == 0 then [m] else []))
  {
    hide StopMessageToSend;
    var posts' := posts + [Post(m, accepted)];
    PostedStopsAreDue(posts, DueStops(apps, now, done));
    assert DueStops(apps, now, done + [m]) == DueStops(apps, now, done) + [m] by {
      assert (done + [m])[..|done|] == done;
    }
    assert Pendings(posts') == Pendings(posts) + [m];
    assert forall x :: StopAccepted(posts', x) <==> StopAccepted(posts, x) || (accepted && x == m);
    PostedStopSaves(posts, posts', now, done, saves, m, accepted);
    PostedStopDeletes(apps, now, posts, posts', done, deletes, m, accepted);
  }

  lemma PostedStopSaves(posts: seq<Post<PendingStop>>, posts': seq<Post<PendingStop>>, now: int,
                        done: seq<PendingStop>, saves: seq<PendingStop>, m: PendingStop, accepted: bool)
    requires StopsToSave(posts, now, done, saves)
    requires forall x :: StopAccepted(posts', x) <==> StopAccepted(posts, x) || (accepted && x == m)
    requires StopAccepted(posts, m) ==> m in done
    ensures StopsToSave(posts', now, done + [m],
                        saves + (if accepted && m.keepAlive != 0 then [m.(sentOn := now)] else []))
  {
    hide StopAccepted;
  }

  lemma PostedStopDeletes(apps: map<AppKey, AppSnapshot>, now: int, posts: seq<Post<PendingStop>>,
                          posts': seq<Post<PendingStop>>, done: seq<PendingStop>, deletes: seq<PendingStop>,
                          m: PendingStop, accepted: bool)
    requires StopsToDelete(apps, now, posts, done, deletes)
    requires IsDueStop(apps, now, m)
    requires forall x :: StopAccepted(posts', x) <==> StopAccepted(posts, x) || (accepted && x == m)
    requires StopAccepted(posts, m) ==> m in done
    ensures StopsToDelete(apps, now, posts', done + [m], deletes + (if accepted && m.keepAlive == 0 then [m] else []))
  {
    hide StopAccepted, StopMessageToSend;
  }

  lemma StartsHandledGiveFates(queue: map<StartKey, PendingStart>, ms: seq<PendingStart>, sorted: seq<PendingStart>,
                               now: int,
                               apps: map<AppKey, AppSnapshot>, allowance: int, posts: seq<Post<PendingStart>>,
                               saves: seq<PendingStart>, deletes: seq<PendingStart>)
    requires forall k :: k in queue ==> queue[k].StoreKey() == k
    requires Lists(queue, ms) && multiset(sorted) == multiset(ms)
    requires StartsHandled(apps, now, allowance, sorted, posts, saves, deletes)
    ensures StartsByKey(saves).Keys !! StartKeys(deletes)
    ensures StartFates(queue, (queue + StartsByKey(saves)) - StartKeys(deletes), now, apps, posts)
    ensures PostsDueStarts(queue, now, apps, posts)
  {
    assert forall m :: m in sorted <==> m in multiset(sorted);
    assert forall m :: m in ms <==> m in multiset(ms);
    var due := DueStarts(apps, now, sorted);
    forall p | p in posts ensures p.pending in queue.Values && IsDueStart(apps, now, p.pending) {
      var i :| 0 <= i < |posts| && posts[i] == p;
      assert Pendings(posts)[i] == due[i];
      assert due[i] in due;
    }
    StartWritesGiveFates(queue, sorted, now, apps, posts, saves, deletes);
  }

  lemma StopsHandledGiveFates(queue: map<string, PendingStop>, ms: seq<PendingStop>, now: int,
                              apps: map<AppKey, AppSnapshot>, posts: seq<Post<PendingStop>>,
                              saves: seq<PendingStop>, deletes: seq<PendingStop>)
    requires forall k :: k in queue ==> queue[k].StoreKey() == k
    requires Lists(queue, ms)
    requires StopsHandled(apps, now, ms, posts, saves, deletes)
    ensures StopsByKey(saves).Keys !! StopKeys(deletes)
    ensures StopFates(queue, (queue + StopsByKey(saves)) - StopKeys(deletes), now, apps, posts)
  {
    PostedStopsAreDue(posts, DueStops(apps, now, ms));
    StopWritesGiveFates(queue, ms, now, apps, posts, saves, deletes);
  }

  // What one run of the sender did: stopped at the freshness gate or not, whether its writes got
  // through, the order in which starts were considered, and the posts it made.
  datatype SendRun = SendRun(
    gated: bool,
    stored: bool,
    sorted: seq<PendingStart>,
    startPosts: seq<Post<PendingStart>>,
    stopPosts: seq<Post<PendingStop>>)

  /** Starts were considered most urgent first and posted, up to the allowance, for a prefix of those
      that are due and verified; stops were posted for all that are due and verified. */
  ghost predicate RunFollows(apps: map<AppKey, AppSnapshot>, now: int, allowance: int,
                             starts: seq<PendingStart>, stops: seq<PendingStop>, run: SendRun)
  {
    && InPriorityOrder(run.sorted) && multiset(run.sorted) == multiset(starts)
    && ThrottledPrefix(run.startPosts, DueStarts(apps, now, run.sorted), allowance)
    && Pendings(run.stopPosts) == DueStops(apps, now, stops)
  }

  // The same where a write failed: every stored message met its fate or none.
  ghost predicate QueuesTouched(apps: map<AppKey, AppSnapshot>, now: int, run: SendRun,
                                startQueue: map<StartKey, PendingStart>, starts: seq<PendingStart>,
                                startQueue': map<StartKey, PendingStart>,
                                stopQueue: map<string, PendingStop>, stops: seq<PendingStop>,
                                stopQueue': map<string, PendingStop>)
  {
    && (Lists(startQueue, starts) ==>
          PartStartFates(startQueue, startQueue', now, apps, run.startPosts) &&
          PostsDueStarts(startQueue, now, apps, run.startPosts))
    && (Lists(stopQueue, stops) ==> PartStopFates(stopQueue, stopQueue', now, apps, run.stopPosts))
  }

  /** Every stored message met exactly one fate, given that the lists were the stored queues. */
  ghost predicate QueuesUpdated(apps: map<AppKey, AppSnapshot>, now: int, run: SendRun,
                                startQueue: map<StartKey, PendingStart>, starts: seq<PendingStart>,
                                startQueue': map<StartKey, PendingStart>,
                                stopQueue: map<string, PendingStop>, stops: seq<PendingStop>,
                                stopQueue': map<string, PendingStop>)
  {
    && (Lists(startQueue, starts) ==>
          StartFates(startQueue, startQueue', now, apps, run.startPosts) &&
          PostsDueStarts(startQueue, now, apps, run.startPosts))
    && (Lists(stopQueue, stops) ==> StopFates(stopQueue, stopQueue', now, apps, run.stopPosts))
  }

  lemma HandledGivesRun(apps: map<AppKey, AppSnapshot>, now: int, allowance: int,
                        starts: seq<PendingStart>, startSaves: seq<PendingStart>, startDeletes: seq<PendingStart>,
                        stops: seq<PendingStop>, stopSaves: seq<PendingStop>, stopDeletes: seq<PendingStop>,
                        startQueue: map<StartKey, PendingStart>, stopQueue: map<string, PendingStop>, run: SendRun)
    requires InPriorityOrder(run.sorted) && multiset(run.sorted) == multiset(starts)
    requires StartsHandled(apps, now, allowance, run.sorted, run.startPosts, startSaves, startDeletes)
    requires StopsHandled(apps, now, stops, run.stopPosts, stopSaves, stopDeletes)
    requires forall k :: k in startQueue ==> startQueue[k].StoreKey() == k
    requires forall k :: k in stopQueue ==> stopQueue[k].StoreKey() == k
    ensures RunFollows(apps, now, allowance, starts, stops, run)
    ensures Accepted(run.startPosts) <= Max(allowance, 0)
    ensures QueuesUpdated(apps, now, run,
                          startQueue, starts, (startQueue + StartsByKey(startSaves)) - StartKeys(startDeletes),
                          stopQueue, stops, (stopQueue + StopsByKey(stopSaves)) - StopKeys(stopDeletes))
  {
    hide StartFates, StopFates, StartsByKey, StopsByKey, StartKeys, StopKeys, PostsDueStarts, Lists;
    if Lists(startQueue, starts) {
      StartsHandledGiveFates(startQueue, starts, run.sorted, now, apps, allowance, run.startPosts, startSaves,
                             startDeletes);
    }
    if Lists(stopQueue, stops) {
      StopsHandledGiveFates(stopQueue, stops, now, apps, run.stopPosts, stopSaves, stopDeletes);
    }
  }
}
