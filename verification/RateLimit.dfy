/** Runs of analyze-then-send rounds, seen from the queue of pending starts. */
module RateLimit {
  import opened Models
  import opened PendingStores
  import opened SendDecisions

  // One round: the queue after the analyzer, and after the sender that followed it.
  datatype StartRound = StartRound(
    now: int,
    apps: map<AppKey, AppSnapshot>,
    queued: map<StartKey, PendingStart>,
    starts: seq<PendingStart>,
    posts: seq<Post<PendingStart>>,
    left: map<StartKey, PendingStart>)

  // The analyzer overwrites nothing and queues only unsent messages.
  ghost predicate Enqueued(before: map<StartKey, PendingStart>, after: map<StartKey, PendingStart>) {
    && (forall k :: k in before ==> k in after && after[k] == before[k])
    && (forall k :: k in after && k !in before ==> !after[k].HasBeenSent())
    && (forall k :: k in after ==> after[k].StoreKey() == k)
  }

  // What Analyzer.Analyze and Sender.Send promise of a round past the gate, whatever store writes of
  // the sender failed: every stored start has met its fate or stays as it was.
  ghost predicate IsRound(before: map<StartKey, PendingStart>, r: StartRound) {
    && 0 < r.now
    && Enqueued(before, r.queued)
    && Lists(r.queued, r.starts)
    && (exists sorted, limit ::
          multiset(sorted) == multiset(r.starts) && ThrottledPrefix(r.posts, DueStarts(r.apps, r.now, sorted), limit))
    && PartStartFates(r.queued, r.left, r.now, r.apps, r.posts)
    && PostsDueStarts(r.queued, r.now, r.apps, r.posts)
  }

  // The writes got through.
  ghost predicate IsStored(r: StartRound) { StartFates(r.queued, r.left, r.now, r.apps, r.posts) }

  // The p-th message posted is stored as sent in this round. Otherwise the save that was to say so failed.
  ghost predicate MarkStored(r: StartRound, p: int)
    requires 0 <= p < |r.posts|
  {
    var m := r.posts[p].pending;
    m.StoreKey() in r.left && r.left[m.StoreKey()] == m.(sentOn := r.now)
  }

  ghost function QueueBefore(before: map<StartKey, PendingStart>, rounds: seq<StartRound>, i: nat)
    : map<StartKey, PendingStart>
    requires i <= |rounds|
  {
    if i == 0 then before else rounds[i - 1].left
  }

  ghost predicate IsRun(before: map<StartKey, PendingStart>, rounds: seq<StartRound>) {
    forall i :: 0 <= i < |rounds| ==>
      && IsRound(QueueBefore(before, rounds, i), rounds[i])
      && (i > 0 ==> rounds[i - 1].now <= rounds[i].now)
  }

  // At round i the message for key k was accepted with the given keep-alive.
  ghost predicate SentAt(rounds: seq<StartRound>, i: int, p: int, k: StartKey) {
    && 0 <= i < |rounds| && 0 <= p < |rounds[i].posts|
    && rounds[i].posts[p].accepted && rounds[i].posts[p].pending.StoreKey() == k
  }

  lemma RoundAt(before: map<StartKey, PendingStart>, rounds: seq<StartRound>, i: nat)
    requires IsRun(before, rounds) && i < |rounds|
    ensures IsRound(QueueBefore(before, rounds, i), rounds[i])
    ensures 0 < rounds[i].now && (i > 0 ==> rounds[i - 1].now <= rounds[i].now)
  {
  }

  lemma SentMessageIsQueued(r: StartRound, p: int)
    requires forall k :: k in r.queued ==> r.queued[k].StoreKey() == k
    requires PostsDueStarts(r.queued, r.now, r.apps, r.posts) && 0 <= p < |r.posts|
    ensures var m := r.posts[p].pending;
            m.StoreKey() in r.queued && r.queued[m.StoreKey()] == m && IsDueStart(r.apps, r.now, m)
  {
    assert r.posts[p] in r.posts;
    var m := r.posts[p].pending;
    var k :| k in r.queued && r.queued[k] == m;
  }

  /** A round whose writes got through has stored the mark of every message with a keep-alive it sent. */
  lemma SentIsMarked(before: map<StartKey, PendingStart>, r: StartRound, p: int)
    requires IsRound(before, r) && IsStored(r)
    requires 0 <= p < |r.posts| && r.posts[p].accepted && r.posts[p].pending.keepAlive > 0
    ensures MarkStored(r, p)
  {
    hide ThrottledPrefix, StartMessageToSend, Lists, DueStarts;
    var m := r.posts[p].pending;
    SentMessageIsQueued(r, p);
    assert Post(m, true) == r.posts[p];
    assert StartAccepted(r.posts, m);
  }

  /** If the mark was not stored the message stays queued as if it had not been sent, so it is due again in
      any later round and the rate limit does not cover it. */
  lemma UnmarkedIsStillDue(before: map<StartKey, PendingStart>, r: StartRound, p: int, later: int)
    requires IsRound(before, r) && 0 <= p < |r.posts| && r.posts[p].pending.keepAlive > 0 && r.now <= later
    ensures var m := r.posts[p].pending;
            !MarkStored(r, p) ==> m.StoreKey() in r.left && r.left[m.StoreKey()] == m && m.IsTimeToSend(later)
  {
    hide ThrottledPrefix, Lists, DueStarts;
    SentMessageIsQueued(r, p);
  }

  lemma MarkedIsKept(before: map<StartKey, PendingStart>, r: StartRound, k: StartKey)
    requires IsRound(before, r) && k in before && before[k].HasBeenSent() && !before[k].IsExpired(r.now)
    ensures k in r.queued && r.queued[k] == before[k]
    ensures k in r.left && r.left[k] == before[k]
  {
    hide ThrottledPrefix, StartMessageToSend, Lists, DueStarts;
    NotPosted(r, k);
  }

  // From the round in which its mark was stored on, a message stays stored, marked with that time, as long
  // as its keep-alive has not run out, whatever writes fail.
  lemma {:induction false} SentMessageStays(before: map<StartKey, PendingStart>, rounds: seq<StartRound>,
                                            i: nat, p: nat, j: nat, k: StartKey)
    requires IsRun(before, rounds) && SentAt(rounds, i, p, k) && i <= j < |rounds|
    requires MarkStored(rounds[i], p)
    requires rounds[j].now < rounds[i].now + rounds[i].posts[p].pending.keepAlive
    ensures rounds[i].now > 0
    ensures k in rounds[j].left && rounds[j].left[k] == rounds[i].posts[p].pending.(sentOn := rounds[i].now)
    ensures j > i ==> k in rounds[j].queued && rounds[j].queued[k] == rounds[j].left[k]
    decreases j
  {
    hide IsRun, IsRound;
    RoundAt(before, rounds, i);
    RoundAt(before, rounds, j);
    if j > i {
      SentMessageStays(before, rounds, i, p, j - 1, k);
      MarkedIsKept(QueueBefore(before, rounds, j), rounds[j], k);
    }
  }

  /** A round whose writes got through leaves no start that was sent its keep-alive ago or longer, unless it
      has just sent one that is to be kept for less than no time. */
  lemma ExpiredIsGone(before: map<StartKey, PendingStart>, r: StartRound, k: StartKey)
    requires IsRound(before, r) && IsStored(r) && k in r.left && r.left[k].sentOn != 0
    ensures || r.now < r.left[k].sentOn + r.left[k].keepAlive
            || (r.left[k].sentOn == r.now && r.left[k].keepAlive < 0)
  {
    hide ThrottledPrefix, StartMessageToSend, Lists, DueStarts;
  }

  lemma ExpiredIsNotLeft(before: map<StartKey, PendingStart>, r: StartRound, k: StartKey)
    requires IsRound(before, r) && IsStored(r) && k in before
    requires before[k].sentOn != 0 && before[k].sentOn + before[k].keepAlive <= r.now
    ensures k !in r.left
  {
    hide ThrottledPrefix, StartMessageToSend, Lists, DueStarts;
  }

  /** The first round at or after the end of its keep-alive, if its writes get through, leaves nothing under
      the key of a start that was sent and marked; and in no such round, first or not, is that message left. */
  lemma SentMessageGoes(before: map<StartKey, PendingStart>, rounds: seq<StartRound>, i: nat, p: nat, j: nat,
                        k: StartKey)
    requires IsRun(before, rounds) && SentAt(rounds, i, p, k) && i < j < |rounds|
    requires MarkStored(rounds[i], p) && rounds[i].posts[p].pending.keepAlive > 0
    requires IsStored(rounds[j]) && rounds[i].now + rounds[i].posts[p].pending.keepAlive <= rounds[j].now
    ensures rounds[j - 1].now < rounds[i].now + rounds[i].posts[p].pending.keepAlive ==> k !in rounds[j].left
    ensures k in rounds[j].left ==> rounds[j].left[k] != rounds[i].posts[p].pending.(sentOn := rounds[i].now)
  {
    hide IsRun, IsRound, IsStored;
    RoundAt(before, rounds, i);
    RoundAt(before, rounds, j);
    if rounds[j - 1].now < rounds[i].now + rounds[i].posts[p].pending.keepAlive {
      SentMessageStays(before, rounds, i, p, j - 1, k);
      ExpiredIsNotLeft(QueueBefore(before, rounds, j), rounds[j], k);
    }
    if k in rounds[j].left && rounds[j].left[k].sentOn != 0 {
      ExpiredIsGone(QueueBefore(before, rounds, j), rounds[j], k);
    }
  }

  lemma NotPosted(r: StartRound, k: StartKey)
    requires forall k :: k in r.queued ==> r.queued[k].StoreKey() == k
    requires PostsDueStarts(r.queued, r.now, r.apps, r.posts)
    requires k in r.queued && r.queued[k].HasBeenSent()
    ensures forall p :: 0 <= p < |r.posts| ==> r.posts[p].pending.StoreKey() != k
    ensures !StartAccepted(r.posts, r.queued[k])
  {
    forall p | 0 <= p < |r.posts| ensures r.posts[p].pending.StoreKey() != k {
      SentMessageIsQueued(r, p);
    }
  }

  // A round posts at most once for a key, because the list it works through names each key once.
  lemma OnePostPerKey(before: map<StartKey, PendingStart>, r: StartRound, p: int, q: int)
    requires IsRound(before, r) && 0 <= p < q < |r.posts|
    ensures r.posts[p].pending.StoreKey() != r.posts[q].pending.StoreKey()
  {
    var sorted, limit :|
      multiset(sorted) == multiset(r.starts) && ThrottledPrefix(r.posts, DueStarts(r.apps, r.now, sorted), limit);
    var due := DueStarts(r.apps, r.now, sorted);
    ListedKeysAreDistinct(r.queued, r.starts, sorted);
    DueKeysAreDistinct(r.apps, r.now, sorted);
    assert Pendings(r.posts)[p] == due[p] && Pendings(r.posts)[q] == due[q];
  }

  ghost predicate DistinctKeys(ms: seq<PendingStart>) {
    forall i, j :: 0 <= i < j < |ms| ==> ms[i].StoreKey() != ms[j].StoreKey()
  }

  lemma ListedKeysAreDistinct(queue: map<StartKey, PendingStart>, ms: seq<PendingStart>, sorted: seq<PendingStart>)
    requires forall k :: k in queue ==> queue[k].StoreKey() == k
    requires Lists(queue, ms) && multiset(sorted) == multiset(ms)
    ensures DistinctKeys(sorted)
  {
    assert forall m :: m in sorted <==> m in multiset(sorted);
    assert forall m :: m in ms <==> m in multiset(ms);
    assert |sorted| == |multiset(sorted)| == |multiset(ms)| == |ms|;
    assert StartKeys(sorted) == queue.Keys by {
      forall k | k in queue ensures k in StartKeys(sorted) {
        assert queue[k] in sorted;
      }
    }
    FullKeySetIsDistinct(sorted);
  }

  lemma {:induction false} FullKeySetIsDistinct(ms: seq<PendingStart>)
    ensures |StartKeys(ms)| <= |ms|
    ensures |StartKeys(ms)| == |ms| ==> DistinctKeys(ms)
  {
    if ms != [] {
      var init, last := ms[..|ms| - 1], ms[|ms| - 1];
      FullKeySetIsDistinct(init);
      assert ms == init + [last];
      assert StartKeys(ms) == StartKeys(init) + {last.StoreKey()};
      if |StartKeys(ms)| == |ms| {
        assert last.StoreKey() !in StartKeys(init);
        forall i | 0 <= i < |init| ensures ms[i].StoreKey() != last.StoreKey() {
          assert init[i] in init;
        }
      }
    }
  }

  lemma {:induction false} DueKeysAreDistinct(apps: map<AppKey, AppSnapshot>, now: int, ms: seq<PendingStart>)
    requires DistinctKeys(ms)
    ensures DistinctKeys(DueStarts(apps, now, ms))
  {
    if ms != [] {
      var init, last := ms[..|ms| - 1], ms[|ms| - 1];
      DueKeysAreDistinct(apps, now, init);
      forall m | m in DueStarts(apps, now, init) ensures m.StoreKey() != last.StoreKey() {
        var i :| 0 <= i < |init| && init[i] == m;
      }
    }
  }

  /** In any run, two accepted starts for the same app, version and index are at least the first one's
      keep-alive apart if its mark was stored, as it is in a round whose writes get through; and never in
      the same round. */
  lemma RestartsAreRateLimited(before: map<StartKey, PendingStart>, rounds: seq<StartRound>,
                               i: nat, p: nat, j: nat, q: nat, k: StartKey)
    requires IsRun(before, rounds)
    requires SentAt(rounds, i, p, k) && SentAt(rounds, j, q, k)
    requires i < j || (i == j && p < q)
    requires rounds[i].posts[p].pending.keepAlive > 0
    ensures i < j
    ensures MarkStored(rounds[i], p) || IsStored(rounds[i]) ==>
              rounds[j].now >= rounds[i].now + rounds[i].posts[p].pending.keepAlive
  {
    hide ThrottledPrefix, StartMessageToSend, Lists, DueStarts, IsStored;
    RoundAt(before, rounds, j);
    RoundAt(before, rounds, i);
    if i == j {
      OnePostPerKey(QueueBefore(before, rounds, j), rounds[j], p, q);
      assert false;
    }
    if IsStored(rounds[i]) {
      SentIsMarked(QueueBefore(before, rounds, i), rounds[i], p);
    }
    if MarkStored(rounds[i], p) && rounds[j].now < rounds[i].now + rounds[i].posts[p].pending.keepAlive {
      SentMessageStays(before, rounds, i, p, j, k);
      NotPosted(rounds[j], k);
      assert false;
    }
  }
}
