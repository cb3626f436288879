/** What comes of an app that a fetch delivers on more than one page: it is analyzed once for each, and each
    time the starts it needs are queued and handed to the sender. */
module Overlap {
  import opened Analyzers
  import opened Models
  import opened PendingStores
  import opened SendDecisions

  // How often a start comes in the list that is handed to the sender: once if it is stored, and once more
  // for every batch that calls for it.
  lemma TimesHandedOn(r: Round, actual: map<AppKey, AppSnapshot>, batches: seq<Batch>, p: Progress,
                      startMessages: seq<PendingStart>, key: StartKey)
    requires HandedOn(r, actual, batches, p, startMessages)
    requires forall k :: k in r.existingStarts ==> r.existingStarts[k].StoreKey() == k
    ensures KeysOf(startMessages)[key] ==
            (if key in r.existingStarts then 1 else 0) + TimesCalled(r, actual, batches, key)
  {
    hide KeysOf, TimesCalled, Lists;
    var stored :| Lists(r.existingStarts, stored) && startMessages == stored + p.newStarts;
    ListedKeys(r.existingStarts, stored);
    KeysOfAppend(stored, p.newStarts);
  }

  ghost predicate CalledAtMostOnce(r: Round, actual: map<AppKey, AppSnapshot>, batches: seq<Batch>) {
    forall key :: TimesCalled(r, actual, batches, key) <= 1
  }

  /** The list handed to the sender is the stored queue, each start once, exactly if no start is called for
      by two batches. */
  lemma ListedOnceIff(r: Round, actual: map<AppKey, AppSnapshot>, batches: seq<Batch>, p: Progress,
                      startMessages: seq<PendingStart>)
    requires HandedOn(r, actual, batches, p, startMessages)
    requires forall k :: k in r.existingStarts ==> r.existingStarts[k].StoreKey() == k
    requires forall m :: m in p.newStarts ==> m.StoreKey() !in r.existingStarts
    ensures Lists(r.existingStarts + StartsByKey(p.newStarts), startMessages) <==>
            CalledAtMostOnce(r, actual, batches)
  {
    hide KeysOf, TimesCalled, HandedOn, Lists, StartsByKey;
    var queue := r.existingStarts + StartsByKey(p.newStarts);
    StartsByKeyKeys(p.newStarts);
    if Lists(queue, startMessages) {
      ListedKeys(queue, startMessages);
      forall key ensures TimesCalled(r, actual, batches, key) <= 1 {
        TimesHandedOn(r, actual, batches, p, startMessages, key);
      }
    }
    if CalledAtMostOnce(r, actual, batches) {
      CalledOnce(r, actual, batches, p, startMessages);
    }
  }

  // Batches with no app in common call for nothing twice.
  lemma {:induction false} DisjointCallOnce(r: Round, actual: map<AppKey, AppSnapshot>, batches: seq<Batch>,
                                            key: StartKey)
    requires DisjointBatches(batches)
    ensures TimesCalled(r, actual, batches, key) <= 1
    ensures AppOf(key) !in DesiredKeys(batches) ==> TimesCalled(r, actual, batches, key) == 0
  {
    hide OwesKey, WithDesired;
    if batches != [] {
      var init, n := batches[..|batches| - 1], |batches| - 1;
      assert DisjointBatches(init);
      DisjointCallOnce(r, actual, init, key);
      LaterBatchIsDisjoint(batches, n, n);
    }
  }

  lemma CalledOnce(r: Round, actual: map<AppKey, AppSnapshot>, batches: seq<Batch>, p: Progress,
                   startMessages: seq<PendingStart>)
    requires HandedOn(r, actual, batches, p, startMessages)
    requires forall k :: k in r.existingStarts ==> r.existingStarts[k].StoreKey() == k
    requires forall m :: m in p.newStarts ==> m.StoreKey() !in r.existingStarts
    requires CalledAtMostOnce(r, actual, batches)
    ensures Lists(r.existingStarts + StartsByKey(p.newStarts), startMessages)
  {
    hide KeysOf, TimesCalled;
    var stored :| Lists(r.existingStarts, stored) && startMessages == stored + p.newStarts;
    OnceIsListed(p.newStarts);
    hide Lists, StartsByKey;
    StartsByKeyKeys(p.newStarts);
    NewKeysOnly(r, p);
    ListsUnion(r.existingStarts, stored, StartsByKey(p.newStarts), p.newStarts);
  }

  lemma NewKeysOnly(r: Round, p: Progress)
    requires forall m :: m in p.newStarts ==> m.StoreKey() !in r.existingStarts
    ensures r.existingStarts.Keys !! StartKeys(p.newStarts)
  {
  }

  // A list with no key twice lists the messages by their keys.
  lemma {:induction false} OnceIsListed(ms: seq<PendingStart>)
    requires forall key :: KeysOf(ms)[key] <= 1
    ensures Lists(StartsByKey(ms), ms)
  {
    if ms != [] {
      var init, last := ms[..|ms| - 1], ms[|ms| - 1];
      var queue := StartsByKey(init);
      assert StartsByKey(ms) == queue[last.StoreKey() := last];
      hide StartsByKey, KeysOf, Lists;
      assert ms == init + [last];
      KeysOfLast(init, last);
      KeysOfSize(init);
      StartsByKeyKeys(init);
      LastIsNew(init, last);
      OnceIsListed(init);
      ListsOneMore(queue, init, last.StoreKey(), last);
    } else {
      NothingListed<StartKey, PendingStart>();
    }
  }

  lemma LastIsNew(init: seq<PendingStart>, last: PendingStart)
    requires forall key :: (KeysOf(init) + multiset{last.StoreKey()})[key] <= 1
    ensures last.StoreKey() !in StartKeys(init) && forall key :: KeysOf(init)[key] <= 1
  {
    KeysOfSize(init);
    hide KeysOf;
    assert (KeysOf(init) + multiset{last.StoreKey()})[last.StoreKey()] <= 1;
    forall key ensures KeysOf(init)[key] <= 1 {
      assert (KeysOf(init) + multiset{last.StoreKey()})[key] <= 1;
    }
  }
}
