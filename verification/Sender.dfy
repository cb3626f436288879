/** The sender: takes pending messages in order of urgency, re-checks each one against the apps,
    posts it to the cloud controller and retires it from the store. */
module Senders {
  import opened Adapters
  import opened Arithmetic
  import opened Freshness
  import opened Models
  import opened PendingStores
  import opened SendDecisions

  // Insertion position of m in an ordered list: before the first message m should precede.
  method InsertStart(sorted: seq<PendingStart>, m: PendingStart) returns (r: seq<PendingStart>)
    requires InPriorityOrder(sorted)
    ensures InPriorityOrder(r)
    ensures multiset(r) == multiset(sorted) + multiset{m}
  {
    var p := 0;
    while p < |sorted| && !Less(m, sorted[p])
      invariant 0 <= p <= |sorted|
      invariant forall i :: 0 <= i < p ==> !Less(m, sorted[i])
    {
      p := p + 1;
    }
    r := sorted[..p] + [m] + sorted[p..];
    InsertedInOrder(sorted, p, m);
    assert multiset(r) == multiset(sorted) + multiset{m} by {
      hide InPriorityOrder, Less;
      assert sorted == sorted[..p] + sorted[p..];
    }
  }

  lemma InsertedInOrder(sorted: seq<PendingStart>, p: nat, m: PendingStart)
    requires InPriorityOrder(sorted) && p <= |sorted|
    requires forall i :: 0 <= i < p ==> !Less(m, sorted[i])
    requires p < |sorted| ==> Less(m, sorted[p])
    ensures InPriorityOrder(sorted[..p] + [m] + sorted[p..])
  {
    var r := sorted[..p] + [m] + sorted[p..];
    forall i, j | 0 <= i < j < |r| ensures !Less(r[j], r[i]) {
      assert i < p ==> r[i] == sorted[i];
      assert i > p ==> r[i] == sorted[i - 1];
      assert j < p ==> r[j] == sorted[j];
      assert j > p ==> r[j] == sorted[j - 1];
      assert i == p && j > p + 1 ==> !Less(sorted[j - 1], sorted[p]);
    }
  }

  method SortStartMessagesByPriority(messages: seq<PendingStart>) returns (sorted: seq<PendingStart>)
    ensures InPriorityOrder(sorted)
    ensures multiset(sorted) == multiset(messages)
  {
    sorted := [];
    for i := 0 to |messages|
      invariant InPriorityOrder(sorted)
      invariant multiset(sorted) == multiset(messages[..i])
    {
      assert messages[..i + 1] == messages[..i] + [messages[i]];
      sorted := InsertStart(sorted, messages[i]);
    }
    assert messages[..|messages|] == messages;
  }

  // The cloud controller's answers are not under our control: what it will say to its n-th request is
  // given. It remembers what it was asked.
  class CloudController {
    const startAnswer: nat -> bool
    const stopAnswer: nat -> bool
    var startPosts: seq<Post<PendingStart>>
    var startBodies: seq<StartMessage>
    var stopPosts: seq<Post<PendingStop>>
    var stopBodies: seq<StopMessage>

    ghost predicate Valid()
      reads this
    {
      && (forall i :: 0 <= i < |startPosts| ==> startPosts[i].accepted == startAnswer(i))
      && (forall i :: 0 <= i < |stopPosts| ==> stopPosts[i].accepted == stopAnswer(i))
    }

    constructor (startAnswer: nat -> bool, stopAnswer: nat -> bool)
      ensures Valid() && startPosts == [] && stopPosts == [] && startBodies == [] && stopBodies == []
      ensures this.startAnswer == startAnswer && this.stopAnswer == stopAnswer
    {
      this.startAnswer := startAnswer;
      this.stopAnswer := stopAnswer;
      startPosts := [];
      startBodies := [];
      stopPosts := [];
      stopBodies := [];
    }

    method PostStart(m: PendingStart, body: StartMessage) returns (accepted: bool)
      requires Valid()
      modifies this`startPosts, this`startBodies
      ensures Valid() && accepted == startAnswer(|old(startPosts)|)
      ensures startPosts == old(startPosts) + [Post(m, accepted)]
      ensures startBodies == old(startBodies) + [body]
    {
      accepted := startAnswer(|startPosts|);
      startPosts := startPosts + [Post(m, accepted)];
      startBodies := startBodies + [body];
    }

    method PostStop(m: PendingStop, body: StopMessage) returns (accepted: bool)
      requires Valid()
      modifies this`stopPosts, this`stopBodies
      ensures Valid() && accepted == stopAnswer(|old(stopPosts)|)
      ensures stopPosts == old(stopPosts) + [Post(m, accepted)]
      ensures stopBodies == old(stopBodies) + [body]
    {
      accepted := stopAnswer(|stopPosts|);
      stopPosts := stopPosts + [Post(m, accepted)];
      stopBodies := stopBodies + [body];
    }
  }

  // What a run of the sender meets with: the read of the freshness key, and which requests fail.
  datatype SendWorld = SendWorld(
    read: Reading,
    metricsFail: bool,
    saveStartsFails: bool,
    deleteStartsFails: bool,
    saveStopsFails: bool,
    deleteStopsFails: bool)
  {
    predicate Stores() { !saveStartsFails && !deleteStartsFails && !saveStopsFails && !deleteStopsFails }
  }

  class Sender {
    const store: PendingStore
    const freshness: FreshnessStore
    const controller: CloudController
    const messageLimit: int

    var apps: map<AppKey, AppSnapshot>
    var currentTime: int
    var numberOfStartMessagesSent: nat
    var sentStartMessages: seq<PendingStart>
    var startMessagesToSave: seq<PendingStart>
    var startMessagesToDelete: seq<PendingStart>
    var sentStopMessages: seq<PendingStop>
    var stopMessagesToSave: seq<PendingStop>
    var stopMessagesToDelete: seq<PendingStop>
    var didSucceed: bool

    constructor (store: PendingStore, freshness: FreshnessStore, controller: CloudController, messageLimit: int)
      ensures this.store == store && this.freshness == freshness && this.controller == controller
      ensures this.messageLimit == messageLimit && Unused()
    {
      this.store := store;
      this.freshness := freshness;
      this.controller := controller;
      this.messageLimit := messageLimit;
      apps := map[];
      currentTime := 0;
      numberOfStartMessagesSent := 0;
      sentStartMessages := [];
      startMessagesToSave := [];
      startMessagesToDelete := [];
      sentStopMessages := [];
      stopMessagesToSave := [];
      stopMessagesToDelete := [];
      didSucceed := true;
    }

    // None of these fields is ever reset, so only a sender's first call starts out like this.
    ghost predicate Unused()
      reads this
    {
      && numberOfStartMessagesSent == 0 && didSucceed
      && sentStartMessages == [] && startMessagesToSave == [] && startMessagesToDelete == []
      && sentStopMessages == [] && stopMessagesToSave == [] && stopMessagesToDelete == []
    }

    method SendStartMessageHttp(m: PendingStart)
      requires m.IsTimeToSend(currentTime) && controller.Valid()
      modifies this`numberOfStartMessagesSent, this`sentStartMessages, this`startMessagesToSave,
               this`startMessagesToDelete, this`didSucceed, controller`startPosts, controller`startBodies
      ensures controller.Valid()
      ensures var body := StartMessageToSend(apps, m);
              var throttled := old(numberOfStartMessagesSent) >= messageLimit;
              if body.Some? && !throttled then
                var accepted := controller.startAnswer(|old(controller.startPosts)|);
                  && controller.startPosts == old(controller.startPosts) + [Post(m, accepted)]
                  && controller.startBodies == old(controller.startBodies) + [body.value]
                  && numberOfStartMessagesSent == old(numberOfStartMessagesSent) + (if accepted then 1 else 0)
                  && sentStartMessages == old(sentStartMessages) + (if accepted then [m] else [])
                  && startMessagesToSave == old(startMessagesToSave) +
                       (if accepted && m.keepAlive != 0 then [m.(sentOn := currentTime)] else [])
                  && startMessagesToDelete == old(startMessagesToDelete) +
                       (if accepted && m.keepAlive == 0 then [m] else [])
                  && didSucceed == (old(didSucceed) && accepted)
              else
                && unchanged(controller`startPosts) && unchanged(controller`startBodies)
                && unchanged(this`numberOfStartMessagesSent) && unchanged(this`sentStartMessages)
                && unchanged(this`startMessagesToSave) && unchanged(this`didSucceed)
                && startMessagesToDelete == old(startMessagesToDelete) + (if body.None? then [m] else [])
    {
      var body := StartMessageToSend(apps, m);
      if body.Some? {
        if numberOfStartMessagesSent < messageLimit {
          var accepted := controller.PostStart(m, body.value);
          if !accepted {
            didSucceed := false;
            return;
          }
          sentStartMessages := sentStartMessages + [m];
          numberOfStartMessagesSent := numberOfStartMessagesSent + 1;
          if m.keepAlive == 0 {
            startMessagesToDelete := startMessagesToDelete + [m];
          } else {
            startMessagesToSave := startMessagesToSave + [m.(sentOn := currentTime)];
          }
        }
      } else {
        startMessagesToDelete := startMessagesToDelete + [m];
      }
    }

    method SendStopMessageHttp(m: PendingStop)
      requires m.IsTimeToSend(currentTime) && controller.Valid()
      modifies this`sentStopMessages, this`stopMessagesToSave, this`stopMessagesToDelete, this`didSucceed,
               controller`stopPosts, controller`stopBodies
      ensures controller.Valid()
      ensures var body := StopMessageToSend(apps, m);
              if body.Some? then
                var accepted := controller.stopAnswer(|old(controller.stopPosts)|);
                  && controller.stopPosts == old(controller.stopPosts) + [Post(m, accepted)]
                  && controller.stopBodies == old(controller.stopBodies) + [body.value]
                  && sentStopMessages == old(sentStopMessages) + (if accepted then [m] else [])
                  && stopMessagesToSave == old(stopMessagesToSave) +
                       (if accepted && m.keepAlive != 0 then [m.(sentOn := currentTime)] else [])
                  && stopMessagesToDelete == old(stopMessagesToDelete) +
                       (if accepted && m.keepAlive == 0 then [m] else [])
                  && didSucceed == (old(didSucceed) && accepted)
              else
                && unchanged(controller`stopPosts) && unchanged(controller`stopBodies)
                && unchanged(this`sentStopMessages)
                && unchanged(this`stopMessagesToSave) && unchanged(this`didSucceed)
                && stopMessagesToDelete == old(stopMessagesToDelete) + [m]
    {
      var body := StopMessageToSend(apps, m);
      if body.Some? {
        var accepted := controller.PostStop(m, body.value);
        if !accepted {
          didSucceed := false;
          return;
        }
        sentStopMessages := sentStopMessages + [m];
        if m.keepAlive == 0 {
          stopMessagesToDelete := stopMessagesToDelete + [m];
        } else {
          stopMessagesToSave := stopMessagesToSave + [m.(sentOn := currentTime)];
        }
      } else {
        stopMessagesToDelete := stopMessagesToDelete + [m];
      }
    }

    method SendStartMessages(messages: seq<PendingStart>)
      returns (ghost sorted: seq<PendingStart>, ghost posts: seq<Post<PendingStart>>,
               ghost saves: seq<PendingStart>, ghost deletes: seq<PendingStart>)
      requires controller.Valid()
      modifies this`numberOfStartMessagesSent, this`sentStartMessages, this`startMessagesToSave,
               this`startMessagesToDelete, this`didSucceed, controller`startPosts, controller`startBodies
      ensures controller.Valid()
      ensures InPriorityOrder(sorted) && multiset(sorted) == multiset(messages)
      ensures StartsHandled(apps, currentTime, messageLimit - old(numberOfStartMessagesSent), sorted, posts, saves,
                            deletes)
      ensures controller.startPosts == old(controller.startPosts) + posts
      ensures controller.startBodies == old(controller.startBodies) + StartBodies(apps, posts)
      ensures startMessagesToSave == old(startMessagesToSave) + saves
      ensures startMessagesToDelete == old(startMessagesToDelete) + deletes
      ensures numberOfStartMessagesSent == old(numberOfStartMessagesSent) + Accepted(posts)
      ensures didSucceed == (old(didSucceed) && AllAccepted(posts))
    {
      hide StartsHandled, DueStarts, StartMessageToSend;
      var list := SortStartMessagesByPriority(messages);
      sorted, posts, saves, deletes := list, [], [], [];
      NothingHandled(apps, currentTime, messageLimit - numberOfStartMessagesSent);
      label start:
      for i := 0 to |list|
        invariant controller.Valid()
        invariant StartsHandled(apps, currentTime, messageLimit - old@start(numberOfStartMessagesSent), list[..i],
                                posts, saves, deletes)
        invariant controller.startPosts == old@start(controller.startPosts) + posts
        invariant controller.startBodies == old@start(controller.startBodies) + StartBodies(apps, posts)
        invariant startMessagesToSave == old@start(startMessagesToSave) + saves
        invariant startMessagesToDelete == old@start(startMessagesToDelete) + deletes
        invariant numberOfStartMessagesSent == old@start(numberOfStartMessagesSent) + Accepted(posts)
        invariant didSucceed == (old@start(didSucceed) && AllAccepted(posts))
      {
        var m := list[i];
        assert list[..i + 1] == list[..i] + [m];
        if m.IsTimeToSend(currentTime) {
          posts, saves, deletes := SendDueStart(m, list[..i], posts, saves, deletes,
                                                messageLimit - old@start(numberOfStartMessagesSent));
        } else {
          StartNotDue(apps, currentTime, messageLimit - old@start(numberOfStartMessagesSent), list[..i], posts, saves,
                      deletes, m);
          assert deletes + [] == deletes;
          if m.IsExpired(currentTime) {
            startMessagesToDelete := startMessagesToDelete + [m];
            deletes := deletes + [m];
          }
        }
      }
      assert list[..|list|] == list;
    }

    method SendDueStart(m: PendingStart, ghost done: seq<PendingStart>, ghost posts: seq<Post<PendingStart>>,
                        ghost saves: seq<PendingStart>, ghost deletes: seq<PendingStart>, ghost allowance: int)
      returns (ghost posts': seq<Post<PendingStart>>, ghost saves': seq<PendingStart>,
               ghost deletes': seq<PendingStart>)
      requires m.IsTimeToSend(currentTime) && controller.Valid()
      requires StartsHandled(apps, currentTime, allowance, done, posts, saves, deletes)
      requires allowance - Accepted(posts) == messageLimit - numberOfStartMessagesSent
      modifies this`numberOfStartMessagesSent, this`sentStartMessages, this`startMessagesToSave,
               this`startMessagesToDelete, this`didSucceed, controller`startPosts, controller`startBodies
      ensures controller.Valid()
      ensures StartsHandled(apps, currentTime, allowance, done + [m], posts', saves', deletes')
      ensures posts <= posts' && saves <= saves' && deletes <= deletes'
      ensures controller.startPosts == old(controller.startPosts) + posts'[|posts|..]
      ensures controller.startBodies == old(controller.startBodies) + StartBodies(apps, posts'[|posts|..])
      ensures StartBodies(apps, posts') == StartBodies(apps, posts) + StartBodies(apps, posts'[|posts|..])
      ensures startMessagesToSave == old(startMessagesToSave) + saves'[|saves|..]
      ensures startMessagesToDelete == old(startMessagesToDelete) + deletes'[|deletes|..]
      ensures numberOfStartMessagesSent - old(numberOfStartMessagesSent) == Accepted(posts') - Accepted(posts)
      ensures didSucceed == (old(didSucceed) && AllAccepted(posts'[|posts|..]))
    {
      hide StartsHandled, DueStarts, StartBodies, AllAccepted, Accepted;
      NothingPosted(apps);
      var body := StartMessageToSend(apps, m);
      label start:
      SendStartMessageHttp(m);
      posts', saves', deletes' := posts, saves, deletes;
      if body.None? {
        StartNotDue(apps, currentTime, allowance, done, posts, saves, deletes, m);
        deletes' := deletes + [m];
      } else if old@start(numberOfStartMessagesSent) >= messageLimit {
        StartThrottled(apps, currentTime, allowance, done, posts, saves, deletes, m);
      } else {
        ghost var accepted := controller.startPosts[|controller.startPosts| - 1].accepted;
        StartPosted(apps, currentTime, allowance, done, posts, saves, deletes, m, accepted);
        posts' := posts + [Post(m, accepted)];
        saves' := saves + (if accepted && m.keepAlive != 0 then [m.(sentOn := currentTime)] else []);
        deletes' := deletes + (if accepted && m.keepAlive == 0 then [m] else []);
        assert posts'[|posts|..] == [Post(m, accepted)];
        OnePosted(apps, posts, m, accepted);
      }
    }

    lemma NothingPosted(apps: map<AppKey, AppSnapshot>)
      ensures StartBodies(apps, []) == [] && AllAccepted<PendingStart>([])
    {
    }

    lemma OnePosted(apps: map<AppKey, AppSnapshot>, posts: seq<Post<PendingStart>>, m: PendingStart, accepted: bool)
      requires StartMessageToSend(apps, m).Some?
      ensures StartBodies(apps, [Post(m, accepted)]) == [StartMessageToSend(apps, m).value]
      ensures StartBodies(apps, posts + [Post(m, accepted)]) ==
                StartBodies(apps, posts) + [StartMessageToSend(apps, m).value]
      ensures AllAccepted([Post(m, accepted)]) <==> accepted
    {
      hide StartMessageToSend;
      assert [Post(m, accepted)][0].accepted == accepted;
    }

    method SendStopMessages(messages: seq<PendingStop>)
      returns (ghost posts: seq<Post<PendingStop>>, ghost saves: seq<PendingStop>, ghost deletes: seq<PendingStop>)
      requires controller.Valid()
      modifies this`sentStopMessages, this`stopMessagesToSave, this`stopMessagesToDelete, this`didSucceed,
               controller`stopPosts, controller`stopBodies
      ensures controller.Valid()
      ensures StopsHandled(apps, currentTime, messages, posts, saves, deletes)
      ensures controller.stopPosts == old(controller.stopPosts) + posts
      ensures controller.stopBodies == old(controller.stopBodies) + StopBodies(apps, posts)
      ensures stopMessagesToSave == old(stopMessagesToSave) + saves
      ensures stopMessagesToDelete == old(stopMessagesToDelete) + deletes
      ensures didSucceed == (old(didSucceed) && AllAccepted(posts))
    {
      hide StopsHandled, DueStops, StopMessageToSend, AllAccepted, StopBodies;
      NoStopPosted(apps);
      posts, saves, deletes := [], [], [];
      NoStopsHandled(apps, currentTime);
      for i := 0 to |messages|
        invariant controller.Valid()
        invariant StopsHandled(apps, currentTime, messages[..i], posts, saves, deletes)
        invariant controller.stopPosts == old(controller.stopPosts) + posts
        invariant controller.stopBodies == old(controller.stopBodies) + StopBodies(apps, posts)
        invariant stopMessagesToSave == old(stopMessagesToSave) + saves
        invariant stopMessagesToDelete == old(stopMessagesToDelete) + deletes
        invariant didSucceed == (old(didSucceed) && AllAccepted(posts))
      {
        var m := messages[i];
        assert messages[..i + 1] == messages[..i] + [m];
        if m.IsTimeToSend(currentTime) {
          var body := StopMessageToSend(apps, m);
          SendStopMessageHttp(m);
          if body.None? {
            StopNotDue(apps, currentTime, messages[..i], posts, saves, deletes, m);
            deletes := deletes + [m];
          } else {
            ghost var accepted := controller.stopPosts[|controller.stopPosts| - 1].accepted;
            StopPosted(apps, currentTime, messages[..i], posts, saves, deletes, m, accepted);
            OneStopPosted(apps, posts, m, accepted);
            AllAcceptedAppend(posts, Post(m, accepted));
            posts := posts + [Post(m, accepted)];
            saves := saves + (if accepted && m.keepAlive != 0 then [m.(sentOn := currentTime)] else []);
            deletes := deletes + (if accepted && m.keepAlive == 0 then [m] else []);
          }
        } else {
          StopNotDue(apps, currentTime, messages[..i], posts, saves, deletes, m);
          assert deletes + [] == deletes;
          if m.IsExpired(currentTime) {
            stopMessagesToDelete := stopMessagesToDelete + [m];
            deletes := deletes + [m];
          }
        }
      }
      assert messages[..|messages|] == messages;
    }

    lemma NoStopPosted(apps: map<AppKey, AppSnapshot>)
      ensures StopBodies(apps, []) == [] && AllAccepted<PendingStop>([])
    {
    }

    lemma OneStopPosted(apps: map<AppKey, AppSnapshot>, posts: seq<Post<PendingStop>>, m: PendingStop, accepted: bool)
      requires StopMessageToSend(apps, m).Some?
      ensures StopBodies(apps, posts + [Post(m, accepted)]) ==
                StopBodies(apps, posts) + [StopMessageToSend(apps, m).value]
    {
      hide StopMessageToSend;
    }

    /** One run of the sender. Nothing is touched unless the actual state is fresh and can be seen to
        be; then everything is. When the given lists are the stored queues, every stored message meets
        exactly one fate, or, where a store write fails, that fate or none. */
    method Send(instant: nat, world: SendWorld, apps: map<AppKey, AppSnapshot>, starts: seq<PendingStart>,
                stops: seq<PendingStop>)
      returns (ok: bool, ghost run: SendRun)
      requires store.Valid() && freshness.Valid() && controller.Valid()
      modifies this, controller, store`starts, store`stops
      ensures store.Valid() && controller.Valid()
      ensures run.gated <==> !freshness.Passes(instant, world.read)
      ensures run.gated ==> !ok && run.startPosts == [] && run.stopPosts == []
      ensures run.gated ==>
                unchanged(controller) && unchanged(store) && numberOfStartMessagesSent == old(numberOfStartMessagesSent)
      ensures !run.gated ==>
                && controller.startPosts == old(controller.startPosts) + run.startPosts
                && controller.startBodies == old(controller.startBodies) + StartBodies(apps, run.startPosts)
                && controller.stopPosts == old(controller.stopPosts) + run.stopPosts
                && controller.stopBodies == old(controller.stopBodies) + StopBodies(apps, run.stopPosts)
                && RunFollows(apps, Unix(instant), messageLimit - old(numberOfStartMessagesSent), starts, stops, run)
                && numberOfStartMessagesSent == old(numberOfStartMessagesSent) + Accepted(run.startPosts)
      ensures numberOfStartMessagesSent <= Max(messageLimit, old(numberOfStartMessagesSent))
      ensures !run.gated ==> run.stored == world.Stores()
      ensures ok <==>
              && !run.gated && run.stored && !world.metricsFail && old(didSucceed)
              && AllAccepted(run.startPosts) && AllAccepted(run.stopPosts)
              && StartKeys(startMessagesToDelete) <= old(store.starts).Keys + StartKeys(startMessagesToSave)
              && StopKeys(stopMessagesToDelete) <= old(store.stops).Keys + StopKeys(stopMessagesToSave)
      ensures !run.gated ==> Written(old(store.starts), old(store.stops), world)
      ensures old(Unused()) && Lists(old(store.starts), starts) ==>
                StartKeys(startMessagesToDelete) <= old(store.starts).Keys
      ensures old(Unused()) && Lists(old(store.stops), stops) ==>
                StopKeys(stopMessagesToDelete) <= old(store.stops).Keys
      // What an earlier call saved or deleted is saved or deleted again.
      ensures old(startMessagesToSave) <= startMessagesToSave && old(startMessagesToDelete) <= startMessagesToDelete
      ensures old(stopMessagesToSave) <= stopMessagesToSave && old(stopMessagesToDelete) <= stopMessagesToDelete
      ensures !run.gated && old(Unused()) ==>
                && QueuesTouched(apps, Unix(instant), run, old(store.starts), starts, store.starts,
                                 old(store.stops), stops, store.stops)
                && (run.stored ==> QueuesUpdated(apps, Unix(instant), run, old(store.starts), starts, store.starts,
                                                 old(store.stops), stops, store.stops))
    {
      hide StartsByKey, StopsByKey, StartKeys, StopKeys, QueuesUpdated, QueuesTouched, FreshnessStore.Valid,
           FreshnessStore.Passes, RunFollows, StartBodies, StopBodies, Accepted, AllAccepted, QueueWritten,
           CloudController.Valid, PendingStore.Valid, Lists;
      NothingToDelete();
      this.currentTime := Unix(instant);
      this.apps := apps;
      var isFresh := freshness.VerifyFreshness(instant, world.read);
      if !isFresh {
        ok, run := false, SendRun(true, false, [], [], []);
        return;
      }
      ok, run := Act(world, starts, stops);
    }

    // What a run does once it has passed the gate.
    method Act(world: SendWorld, starts: seq<PendingStart>, stops: seq<PendingStop>)
      returns (ok: bool, ghost run: SendRun)
      requires store.Valid() && controller.Valid()
      modifies this`numberOfStartMessagesSent, this`sentStartMessages, this`startMessagesToSave,
               this`startMessagesToDelete, this`sentStopMessages, this`stopMessagesToSave, this`stopMessagesToDelete,
               this`didSucceed, controller, store`starts, store`stops
      ensures store.Valid() && controller.Valid()
      ensures !run.gated && run.stored == world.Stores()
      ensures controller.startPosts == old(controller.startPosts) + run.startPosts
      ensures controller.startBodies == old(controller.startBodies) + StartBodies(apps, run.startPosts)
      ensures controller.stopPosts == old(controller.stopPosts) + run.stopPosts
      ensures controller.stopBodies == old(controller.stopBodies) + StopBodies(apps, run.stopPosts)
      ensures RunFollows(apps, currentTime, messageLimit - old(numberOfStartMessagesSent), starts, stops, run)
      ensures numberOfStartMessagesSent == old(numberOfStartMessagesSent) + Accepted(run.startPosts)
      ensures numberOfStartMessagesSent <= Max(messageLimit, old(numberOfStartMessagesSent))
      ensures ok <==>
              && run.stored && !world.metricsFail && old(didSucceed)
              && AllAccepted(run.startPosts) && AllAccepted(run.stopPosts)
              && StartKeys(startMessagesToDelete) <= old(store.starts).Keys + StartKeys(startMessagesToSave)
              && StopKeys(stopMessagesToDelete) <= old(store.stops).Keys + StopKeys(stopMessagesToSave)
      ensures Written(old(store.starts), old(store.stops), world)
      ensures old(startMessagesToSave) <= startMessagesToSave && old(startMessagesToDelete) <= startMessagesToDelete
      ensures old(stopMessagesToSave) <= stopMessagesToSave && old(stopMessagesToDelete) <= stopMessagesToDelete
      ensures old(Unused()) ==>
                && (Lists(old(store.starts), starts) ==> StartKeys(startMessagesToDelete) <= old(store.starts).Keys)
                && (Lists(old(store.stops), stops) ==> StopKeys(stopMessagesToDelete) <= old(store.stops).Keys)
                && QueuesTouched(apps, currentTime, run, old(store.starts), starts, store.starts,
                                 old(store.stops), stops, store.stops)
                && (run.stored ==> QueuesUpdated(apps, currentTime, run, old(store.starts), starts, store.starts,
                                                 old(store.stops), stops, store.stops))
    {
      hide StartsHandled, StopsHandled, StartsByKey, StopsByKey, StartKeys, StopKeys, QueuesUpdated, QueuesTouched,
           InPriorityOrder, RunFollows, StartBodies, StopBodies, Accepted, AllAccepted, QueueWritten,
           CloudController.Valid, Lists;
      ghost var startSaves, startDeletes, stopSaves, stopDeletes;
      run, startSaves, startDeletes, stopSaves, stopDeletes := ProcessMessages(starts, stops);
      if world.metricsFail {
        didSucceed := false;
      }
      WriteQueues(world);
      ok, run := didSucceed, run.(stored := world.Stores());
      ghost var allowance := messageLimit - old(numberOfStartMessagesSent);
      HandledGivesRun(apps, currentTime, allowance, starts, startSaves, startDeletes,
                      stops, stopSaves, stopDeletes, old(store.starts), old(store.stops), run);
      if old(Unused()) {
        assert [] + startSaves == startSaves && [] + startDeletes == startDeletes;
        assert [] + stopSaves == stopSaves && [] + stopDeletes == stopDeletes;
        NewSenderOutcome(apps, currentTime, allowance, starts, startSaves, startDeletes, stops, stopSaves, stopDeletes,
                         old(store.starts), old(store.stops), run, world, store.starts, store.stops);
      }
    }

    lemma NewSenderOutcome(apps: map<AppKey, AppSnapshot>, now: int, allowance: int,
                           starts: seq<PendingStart>, startSaves: seq<PendingStart>, startDeletes: seq<PendingStart>,
                           stops: seq<PendingStop>, stopSaves: seq<PendingStop>, stopDeletes: seq<PendingStop>,
                           startQueue: map<StartKey, PendingStart>, stopQueue: map<string, PendingStop>, run: SendRun,
                           world: SendWorld, startQueue': map<StartKey, PendingStart>,
                           stopQueue': map<string, PendingStop>)
      requires InPriorityOrder(run.sorted) && multiset(run.sorted) == multiset(starts)
      requires StartsHandled(apps, now, allowance, run.sorted, run.startPosts, startSaves, startDeletes)
      requires StopsHandled(apps, now, stops, run.stopPosts, stopSaves, stopDeletes)
      requires forall k :: k in startQueue ==> startQueue[k].StoreKey() == k
      requires forall k :: k in stopQueue ==> stopQueue[k].StoreKey() == k
      requires QueueWritten(startQueue, StartsByKey(startSaves), StartKeys(startDeletes),
                            world.saveStartsFails, world.deleteStartsFails, startQueue')
      requires QueueWritten(stopQueue, StopsByKey(stopSaves), StopKeys(stopDeletes),
                            world.saveStopsFails, world.deleteStopsFails, stopQueue')
      ensures QueuesTouched(apps, now, run, startQueue, starts, startQueue', stopQueue, stops, stopQueue')
      ensures world.Stores() ==>
                QueuesUpdated(apps, now, run, startQueue, starts, startQueue', stopQueue, stops, stopQueue')
      ensures Lists(startQueue, starts) ==> StartKeys(startDeletes) <= startQueue.Keys
      ensures Lists(stopQueue, stops) ==> StopKeys(stopDeletes) <= stopQueue.Keys
    {
      hide StartsHandled, StopsHandled, StartsByKey, StopsByKey, StartKeys, StopKeys, QueuesUpdated, QueuesTouched,
           InPriorityOrder, RunFollows, Lists, QueueWritten;
      HandledGivesRun(apps, now, allowance, starts, startSaves, startDeletes, stops, stopSaves, stopDeletes,
                      startQueue, stopQueue, run);
      DeletesAreStored(apps, now, allowance, starts, startSaves, startDeletes, stops, stopSaves, stopDeletes,
                       startQueue, stopQueue, run);
      HandledTouches(apps, now, allowance, starts, startSaves, startDeletes, stops, stopSaves, stopDeletes,
                     startQueue, stopQueue, run, world, startQueue', stopQueue');
      if world.Stores() {
        WrittenWithoutFault(startQueue, StartsByKey(startSaves), StartKeys(startDeletes), startQueue');
        WrittenWithoutFault(stopQueue, StopsByKey(stopSaves), StopKeys(stopDeletes), stopQueue');
      }
    }

    // Each queue has had its saves and its deletions, as far as the requests got through.
    ghost predicate Written(starts: map<StartKey, PendingStart>, stops: map<string, PendingStop>, world: SendWorld)
      reads this, store
    {
      && QueueWritten(starts, StartsByKey(startMessagesToSave), StartKeys(startMessagesToDelete),
                      world.saveStartsFails, world.deleteStartsFails, store.starts)
      && QueueWritten(stops, StopsByKey(stopMessagesToSave), StopKeys(stopMessagesToDelete),
                      world.saveStopsFails, world.deleteStopsFails, store.stops)
    }

    lemma NothingToDelete()
      ensures StartKeys([]) == {} && StopKeys([]) == {}
    {
    }

    lemma DeletesAreStored(apps: map<AppKey, AppSnapshot>, now: int, allowance: int,
                           starts: seq<PendingStart>, startSaves: seq<PendingStart>, startDeletes: seq<PendingStart>,
                           stops: seq<PendingStop>, stopSaves: seq<PendingStop>, stopDeletes: seq<PendingStop>,
                           startQueue: map<StartKey, PendingStart>, stopQueue: map<string, PendingStop>, run: SendRun)
      requires multiset(run.sorted) == multiset(starts)
      requires StartsHandled(apps, now, allowance, run.sorted, run.startPosts, startSaves, startDeletes)
      requires StopsHandled(apps, now, stops, run.stopPosts, stopSaves, stopDeletes)
      requires forall k :: k in startQueue ==> startQueue[k].StoreKey() == k
      requires forall k :: k in stopQueue ==> stopQueue[k].StoreKey() == k
      ensures Lists(startQueue, starts) ==> StartKeys(startDeletes) <= startQueue.Keys
      ensures Lists(stopQueue, stops) ==> StopKeys(stopDeletes) <= stopQueue.Keys
    {
      hide ThrottledPrefix, StartsToSave, StopsToSave, RetiresStart, RetiresStop, DueStops;
      assert forall m :: m in run.sorted <==> m in multiset(run.sorted);
      assert forall m :: m in starts <==> m in multiset(starts);
    }

    lemma HandledTouches(apps: map<AppKey, AppSnapshot>, now: int, allowance: int,
                         starts: seq<PendingStart>, startSaves: seq<PendingStart>, startDeletes: seq<PendingStart>,
                         stops: seq<PendingStop>, stopSaves: seq<PendingStop>, stopDeletes: seq<PendingStop>,
                         startQueue: map<StartKey, PendingStart>, stopQueue: map<string, PendingStop>, run: SendRun,
                         world: SendWorld, startQueue': map<StartKey, PendingStart>,
                         stopQueue': map<string, PendingStop>)
      requires multiset(run.sorted) == multiset(starts)
      requires StartsHandled(apps, now, allowance, run.sorted, run.startPosts, startSaves, startDeletes)
      requires StopsHandled(apps, now, stops, run.stopPosts, stopSaves, stopDeletes)
      requires forall k :: k in startQueue ==> startQueue[k].StoreKey() == k
      requires forall k :: k in stopQueue ==> stopQueue[k].StoreKey() == k
      requires QueueWritten(startQueue, StartsByKey(startSaves), StartKeys(startDeletes),
                            world.saveStartsFails, world.deleteStartsFails, startQueue')
      requires QueueWritten(stopQueue, StopsByKey(stopSaves), StopKeys(stopDeletes),
                            world.saveStopsFails, world.deleteStopsFails, stopQueue')
      ensures QueuesTouched(apps, now, run, startQueue, starts, startQueue', stopQueue, stops, stopQueue')
    {
      hide StartsHandled, StopsHandled, QueueWritten, StartsByKey, StopsByKey, StartKeys, StopKeys, StartFates,
           StopFates, PartStartFates, PartStopFates, Lists, PostsDueStarts;
      if Lists(startQueue, starts) {
        StartsHandledGiveFates(startQueue, starts, run.sorted, now, apps, allowance, run.startPosts, startSaves,
                               startDeletes);
        PartOfStartFates(startQueue, now, apps, run.startPosts, StartsByKey(startSaves), StartKeys(startDeletes),
                         world.saveStartsFails, world.deleteStartsFails, startQueue');
      }
      if Lists(stopQueue, stops) {
        StopsHandledGiveFates(stopQueue, stops, now, apps, run.stopPosts, stopSaves, stopDeletes);
        PartOfStopFates(stopQueue, now, apps, run.stopPosts, StopsByKey(stopSaves), StopKeys(stopDeletes),
                        world.saveStopsFails, world.deleteStopsFails, stopQueue');
      }
    }

    method ProcessMessages(starts: seq<PendingStart>, stops: seq<PendingStop>)
      returns (ghost run: SendRun, ghost startSaves: seq<PendingStart>, ghost startDeletes: seq<PendingStart>,
               ghost stopSaves: seq<PendingStop>, ghost stopDeletes: seq<PendingStop>)
      requires controller.Valid()
      modifies this`numberOfStartMessagesSent, this`sentStartMessages, this`startMessagesToSave,
               this`startMessagesToDelete, this`sentStopMessages, this`stopMessagesToSave, this`stopMessagesToDelete,
               this`didSucceed, controller
      ensures controller.Valid()
      ensures !run.gated && InPriorityOrder(run.sorted) && multiset(run.sorted) == multiset(starts)
      ensures StartsHandled(apps, currentTime, messageLimit - old(numberOfStartMessagesSent), run.sorted,
                            run.startPosts, startSaves, startDeletes)
      ensures StopsHandled(apps, currentTime, stops, run.stopPosts, stopSaves, stopDeletes)
      ensures controller.startPosts == old(controller.startPosts) + run.startPosts
      ensures controller.startBodies == old(controller.startBodies) + StartBodies(apps, run.startPosts)
      ensures controller.stopPosts == old(controller.stopPosts) + run.stopPosts
      ensures controller.stopBodies == old(controller.stopBodies) + StopBodies(apps, run.stopPosts)
      ensures numberOfStartMessagesSent == old(numberOfStartMessagesSent) + Accepted(run.startPosts)
      ensures startMessagesToSave == old(startMessagesToSave) + startSaves
      ensures startMessagesToDelete == old(startMessagesToDelete) + startDeletes
      ensures stopMessagesToSave == old(stopMessagesToSave) + stopSaves
      ensures stopMessagesToDelete == old(stopMessagesToDelete) + stopDeletes
      ensures didSucceed == (old(didSucceed) && AllAccepted(run.startPosts) && AllAccepted(run.stopPosts))
    {
      hide StartsHandled, StopsHandled, InPriorityOrder, StartBodies, StopBodies, Accepted;
      ghost var sorted, startPosts, stopPosts;
      sorted, startPosts, startSaves, startDeletes := SendStartMessages(starts);
      stopPosts, stopSaves, stopDeletes := SendStopMessages(stops);
      run := SendRun(false, false, sorted, startPosts, stopPosts);
    }

    // The four writes that end a run; each is attempted whatever became of the others.
    method WriteQueues(world: SendWorld)
      requires store.Valid()
      modifies this`didSucceed, store`starts, store`stops
      ensures store.Valid() && Written(old(store.starts), old(store.stops), world)
      ensures didSucceed <==>
              && old(didSucceed) && world.Stores()
              && StartKeys(startMessagesToDelete) <= old(store.starts).Keys + StartKeys(startMessagesToSave)
              && StopKeys(stopMessagesToDelete) <= old(store.stops).Keys + StopKeys(stopMessagesToSave)
    {
      hide PartlyWritten, PartlyDeleted, StartsByKey, StopsByKey, StartKeys, StopKeys, QueueWritten;
      StartsByKeyKeys(startMessagesToSave);
      StopsByKeyKeys(stopMessagesToSave);
      var savedStarts := store.SavePendingStarts(startMessagesToSave, world.saveStartsFails);
      if savedStarts != Done {
        didSucceed := false;
      }
      ghost var starts := store.starts;
      var deletedStarts := store.DeletePendingStarts(startMessagesToDelete, world.deleteStartsFails);
      if deletedStarts != Done {
        didSucceed := false;
      }
      SavedThenDeleted(old(store.starts), StartsByKey(startMessagesToSave), StartKeys(startMessagesToDelete),
                       world.saveStartsFails, world.deleteStartsFails, starts, store.starts);
      var savedStops := store.SavePendingStops(stopMessagesToSave, world.saveStopsFails);
      if savedStops != Done {
        didSucceed := false;
      }
      ghost var stops := store.stops;
      var deletedStops := store.DeletePendingStops(stopMessagesToDelete, world.deleteStopsFails);
      if deletedStops != Done {
        didSucceed := false;
      }
      SavedThenDeleted(old(store.stops), StopsByKey(stopMessagesToSave), StopKeys(stopMessagesToDelete),
                       world.saveStopsFails, world.deleteStopsFails, stops, store.stops);
    }
  }
}
