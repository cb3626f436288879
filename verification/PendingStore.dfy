/** The queues of pending messages and the crash counts, kept in the store as keyed nodes. */
module PendingStores {
  import opened Adapters
  import opened Models

  function StartsByKey(ms: seq<PendingStart>): (r: map<StartKey, PendingStart>)
    ensures forall k :: k in r ==> r[k] in ms && r[k].StoreKey() == k
    ensures forall m :: m in ms ==> m.StoreKey() in r
  {
    if ms == [] then map[]
    else
      var init, last := ms[..|ms| - 1], ms[|ms| - 1];
      assert ms == init + [last];
      StartsByKey(init)[last.StoreKey() := last]
  }

  function StopsByKey(ms: seq<PendingStop>): (r: map<string, PendingStop>)
    ensures forall k :: k in r ==> r[k] in ms && r[k].StoreKey() == k
    ensures forall m :: m in ms ==> m.StoreKey() in r
  {
    if ms == [] then map[]
    else
      var init, last := ms[..|ms| - 1], ms[|ms| - 1];
      assert ms == init + [last];
      StopsByKey(init)[last.StoreKey() := last]
  }

  function CrashKey(c: CrashCount): StartKey { StartKey(c.appGuid, c.appVersion, c.instanceIndex) }

  function CountsByKey(cs: seq<CrashCount>): (r: map<StartKey, CrashCount>)
    ensures forall k :: k in r ==> r[k] in cs && CrashKey(r[k]) == k
    ensures forall c :: c in cs ==> CrashKey(c) in r
  {
    if cs == [] then map[]
    else
      var init, last := cs[..|cs| - 1], cs[|cs| - 1];
      assert cs == init + [last];
      CountsByKey(init)[CrashKey(last) := last]
  }

  function StartKeys(ms: seq<PendingStart>): set<StartKey> { set m | m in ms :: m.StoreKey() }

  function StopKeys(ms: seq<PendingStop>): set<string> { set m | m in ms :: m.StoreKey() }

  lemma StartsByKeyKeys(ms: seq<PendingStart>)
    ensures StartsByKey(ms).Keys == StartKeys(ms)
  {
  }

  lemma StopsByKeyKeys(ms: seq<PendingStop>)
    ensures StopsByKey(ms).Keys == StopKeys(ms)
  {
  }

  class PendingStore {
    var starts: map<StartKey, PendingStart>
    var stops: map<string, PendingStop>
    var crashCounts: map<StartKey, CrashCount>

    // Every message is stored under its own key.
    ghost predicate Valid()
      reads this
    {
      && (forall k :: k in starts ==> starts[k].StoreKey() == k)
      && (forall k :: k in stops ==> stops[k].StoreKey() == k)
    }

    constructor ()
      ensures Valid() && starts == map[] && stops == map[] && crashCounts == map[]
    {
      starts, stops, crashCounts := map[], map[], map[];
    }

    method SavePendingStarts(ms: seq<PendingStart>, fails: bool) returns (outcome: Outcome)
      requires Valid()
      modifies this`starts
      ensures Valid() && outcome == (if fails then AdapterError else Done)
      ensures !fails ==> starts == old(starts) + StartsByKey(ms)
      ensures fails ==> PartlyWritten(old(starts), StartsByKey(ms), starts)
    {
      var nodes: map<StartKey, PendingStart> := map[];
      for i := 0 to |ms|
        invariant nodes == StartsByKey(ms[..i])
      {
        assert ms[..i + 1][..i] == ms[..i];
        nodes := nodes[ms[i].StoreKey() := ms[i]];
      }
      assert ms[..|ms|] == ms;
      starts, outcome := SetNodes(starts, nodes, fails);
    }

    method SavePendingStops(ms: seq<PendingStop>, fails: bool) returns (outcome: Outcome)
      requires Valid()
      modifies this`stops
      ensures Valid() && outcome == (if fails then AdapterError else Done)
      ensures !fails ==> stops == old(stops) + StopsByKey(ms)
      ensures fails ==> PartlyWritten(old(stops), StopsByKey(ms), stops)
    {
      var nodes: map<string, PendingStop> := map[];
      for i := 0 to |ms|
        invariant nodes == StopsByKey(ms[..i])
      {
        assert ms[..i + 1][..i] == ms[..i];
        nodes := nodes[ms[i].StoreKey() := ms[i]];
      }
      assert ms[..|ms|] == ms;
      stops, outcome := SetNodes(stops, nodes, fails);
    }

    method SaveCrashCounts(cs: seq<CrashCount>, fails: bool) returns (outcome: Outcome)
      requires Valid()
      modifies this`crashCounts
      ensures Valid() && outcome == (if fails then AdapterError else Done)
      ensures !fails ==> crashCounts == old(crashCounts) + CountsByKey(cs)
      ensures fails ==> PartlyWritten(old(crashCounts), CountsByKey(cs), crashCounts)
    {
      var nodes: map<StartKey, CrashCount> := map[];
      for i := 0 to |cs|
        invariant nodes == CountsByKey(cs[..i])
      {
        assert cs[..i + 1][..i] == cs[..i];
        nodes := nodes[CrashKey(cs[i]) := cs[i]];
      }
      assert cs[..|cs|] == cs;
      crashCounts, outcome := SetNodes(crashCounts, nodes, fails);
    }

    method DeletePendingStarts(ms: seq<PendingStart>, fails: bool) returns (outcome: Outcome)
      requires Valid()
      modifies this`starts
      ensures Valid()
      ensures outcome ==
              if fails then AdapterError else if StartKeys(ms) <= old(starts).Keys then Done else KeyNotFound
      ensures !fails ==> starts == old(starts) - StartKeys(ms)
      ensures fails ==> PartlyDeleted(old(starts), StartKeys(ms), starts)
    {
      var keys := StartKeys(ms);
      starts, outcome := DeleteNodes(starts, keys, fails);
    }

    method DeletePendingStops(ms: seq<PendingStop>, fails: bool) returns (outcome: Outcome)
      requires Valid()
      modifies this`stops
      ensures Valid()
      ensures outcome ==
              if fails then AdapterError else if StopKeys(ms) <= old(stops).Keys then Done else KeyNotFound
      ensures !fails ==> stops == old(stops) - StopKeys(ms)
      ensures fails ==> PartlyDeleted(old(stops), StopKeys(ms), stops)
    {
      var keys := StopKeys(ms);
      stops, outcome := DeleteNodes(stops, keys, fails);
    }
  }
}
