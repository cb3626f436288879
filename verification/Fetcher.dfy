/** One page of the desired state as the fetcher hands it on. */
module Fetchers {
  import opened Analyzers
  import opened Collections
  import opened Models

  // A page of the cloud controller's bulk listing: desired states under arbitrary names.
  type Page = map<string, DesiredAppState>

  predicate Wanted(d: DesiredAppState) {
    d.state.Started? && (d.packageState.Staged? || d.packageState.Pending?)
  }

  // An entry for the app that is started, and staged or about to be.
  ghost predicate IsWantedAs(d: DesiredAppState, k: AppKey) {
    d.state == Started && d.packageState in {Staged, Pending} && AppKey(d.appGuid, d.appVersion) == k
  }

  // The apps that are to be started, each under its own key; where a page names an app twice either
  // entry may be the one that is kept.
  ghost predicate IsBatchOf(page: Page, batch: Batch) {
    && KeyedBatch(batch)
    && (forall k :: k in batch ==> IsWantedAs(batch[k], k) && exists n :: n in page && batch[k] == page[n])
    && (forall n, k :: n in page && IsWantedAs(page[n], k) ==> k in batch)
  }

  method FilterPage(page: Page) returns (batch: Batch)
    ensures IsBatchOf(page, batch)
    ensures forall k :: k in batch ==> batch[k].state == Started && batch[k].packageState in {Staged, Pending}
    ensures forall n :: n in page && page[n].state == Started && page[n].packageState in {Staged, Pending} ==>
              AppKey(page[n].appGuid, page[n].appVersion) in batch
  {
    batch := map[];
    var remaining := page.Keys;
    while remaining != {}
      invariant remaining <= page.Keys
      invariant IsBatchOf(page - remaining, batch)
      decreases remaining
    {
      var n := PickAny(remaining);
      ghost var seen := page - remaining;
      ghost var seen' := page - (remaining - {n});
      assert seen' == seen[n := page[n]];
      assert forall m :: m in seen ==> seen'[m] == seen[m];
      if Wanted(page[n]) {
        assert seen'[n] == page[n];
        batch := batch[page[n].StoreKey() := page[n]];
      }
      remaining := remaining - {n};
    }
    assert page - {} == page;
    BatchHasWanted(page, batch);
  }

  lemma BatchHasWanted(page: Page, batch: Batch)
    requires IsBatchOf(page, batch)
    ensures forall k :: k in batch ==> batch[k].state == Started && batch[k].packageState in {Staged, Pending}
    ensures forall n :: n in page && page[n].state == Started && page[n].packageState in {Staged, Pending} ==>
              AppKey(page[n].appGuid, page[n].appVersion) in batch
  {
    forall n | n in page && page[n].state == Started && page[n].packageState in {Staged, Pending}
      ensures AppKey(page[n].appGuid, page[n].appVersion) in batch
    {
      assert IsWantedAs(page[n], AppKey(page[n].appGuid, page[n].appVersion));
    }
  }

  // Some page names the app as one to be started.
  ghost predicate WantedSomewhere(pages: seq<Page>, k: AppKey) {
    exists i, n :: 0 <= i < |pages| && n in pages[i] && IsWantedAs(pages[i][n], k)
  }

  /** The batches of all pages name exactly the apps that are to be started. */
  lemma BatchesNameTheWanted(pages: seq<Page>, batches: seq<Batch>)
    requires |batches| == |pages| && forall i :: 0 <= i < |pages| ==> IsBatchOf(pages[i], batches[i])
    ensures forall k :: k in DesiredKeys(batches) <==> WantedSomewhere(pages, k)
    ensures forall i, n :: 0 <= i < |pages| && n in pages[i] && pages[i][n].state == Started &&
                           pages[i][n].packageState in {Staged, Pending} ==>
              AppKey(pages[i][n].appGuid, pages[i][n].appVersion) in DesiredKeys(batches)
    ensures forall i, k :: 0 <= i < |batches| && k in batches[i] ==>
              batches[i][k].state == Started && batches[i][k].packageState in {Staged, Pending}
  {
    DesiredKeysContain(batches);
    forall k ensures k in DesiredKeys(batches) <==> WantedSomewhere(pages, k) {
      if k in DesiredKeys(batches) {
        var i :| 0 <= i < |batches| && k in batches[i];
        assert IsBatchOf(pages[i], batches[i]);
        var n :| n in pages[i] && batches[i][k] == pages[i][n];
        assert IsWantedAs(pages[i][n], k);
      }
      if WantedSomewhere(pages, k) {
        var i, n :| 0 <= i < |pages| && n in pages[i] && IsWantedAs(pages[i][n], k);
        assert IsBatchOf(pages[i], batches[i]);
        assert k in batches[i];
      }
    }
    hide DesiredKeys;
    forall i | 0 <= i < |batches|
      ensures forall k :: k in batches[i] ==>
                batches[i][k].state == Started && batches[i][k].packageState in {Staged, Pending}
      ensures forall n :: n in pages[i] && pages[i][n].state == Started && pages[i][n].packageState in {Staged, Pending}
                ==> AppKey(pages[i][n].appGuid, pages[i][n].appVersion) in DesiredKeys(batches)
    {
      BatchHasWanted(pages[i], batches[i]);
    }
  }
}
