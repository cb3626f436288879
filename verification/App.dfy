/** An app as the analyzer holds it: its heartbeats, plus a by-index table that is built on
    the first query and reused by every later one, even after the desired state is replaced. */
module Apps {
  import opened Collections
  import opened Models

  // The table has a bucket for exactly the indices that report, in heartbeat order.
  ghost predicate IsIndexTable(table: map<int, seq<InstanceHeartbeat>>, hs: seq<InstanceHeartbeat>) {
    && (forall i :: i in table <==> AtIndex(hs, i) != [])
    && (forall i :: i in table ==> table[i] == AtIndex(hs, i))
  }

  method BuildIndexTable(hs: seq<InstanceHeartbeat>) returns (table: map<int, seq<InstanceHeartbeat>>)
    ensures IsIndexTable(table, hs)
  {
    table := map[];
    for k := 0 to |hs|
      invariant IsIndexTable(table, hs[..k])
    {
      hide AtIndex;
      var h := hs[k];
      OneMoreHeartbeat(hs, k);
      var bucket := if h.instanceIndex in table then table[h.instanceIndex] else [];
      table := table[h.instanceIndex := bucket + [h]];
    }
    assert hs[..|hs|] == hs;
  }

  lemma OneMoreHeartbeat(hs: seq<InstanceHeartbeat>, k: nat)
    requires k < |hs|
    ensures forall i :: AtIndex(hs[..k + 1], i) ==
                        AtIndex(hs[..k], i) + if hs[k].instanceIndex == i then [hs[k]] else []
  {
    assert hs[..k + 1][..k] == hs[..k];
  }

  class App {
    const appGuid: string
    const appVersion: string
    const instanceHeartbeats: seq<InstanceHeartbeat>
    const crashCounts: map<int, CrashCount>
    var desired: DesiredAppState
    var table: Option<map<int, seq<InstanceHeartbeat>>>

    ghost predicate Valid()
      reads this
    {
      table.Some? ==> IsIndexTable(table.value, instanceHeartbeats)
    }

    function Snapshot(): (s: AppSnapshot)
      reads this`desired
    {
      AppSnapshot(appGuid, appVersion, desired, instanceHeartbeats, crashCounts)
    }

    constructor (snapshot: AppSnapshot)
      ensures Valid() && Snapshot() == snapshot && table == None
    {
      appGuid := snapshot.appGuid;
      appVersion := snapshot.appVersion;
      instanceHeartbeats := snapshot.instanceHeartbeats;
      crashCounts := snapshot.crashCounts;
      desired := snapshot.desired;
      table := None;
    }

    method SetDesired(d: DesiredAppState)
      requires Valid()
      modifies this`desired
      ensures Valid() && Snapshot() == old(Snapshot()).(desired := d)
    {
      desired := d;
    }

    method VerifyIndexTableIsReady()
      requires Valid()
      modifies this`table
      ensures Valid() && table.Some?
      ensures old(table).Some? ==> table == old(table)
    {
      if table.None? {
        var t := BuildIndexTable(instanceHeartbeats);
        table := Some(t);
      }
    }

    method InstanceHeartbeatsAtIndex(index: int) returns (r: seq<InstanceHeartbeat>)
      requires Valid()
      modifies this`table
      ensures Valid() && r == AtIndex(instanceHeartbeats, index)
    {
      VerifyIndexTableIsReady();
      if index !in table.value {
        return [];
      }
      return table.value[index];
    }

    method StartingOrRunningInstancesAtIndex(index: int) returns (r: seq<InstanceHeartbeat>)
      requires Valid()
      modifies this`table
      ensures Valid() && r == Snapshot().StartingOrRunningAt(index)
    {
      var hs := InstanceHeartbeatsAtIndex(index);
      r := [];
      for k := 0 to |hs|
        invariant r == StartingOrRunning(hs[..k])
      {
        assert hs[..k + 1][..k] == hs[..k];
        if hs[k].IsStartingOrRunning() {
          r := r + [hs[k]];
        }
      }
      assert hs[..|hs|] == hs;
    }

    method HasStartingOrRunningInstanceAtIndex(index: int) returns (r: bool)
      requires Valid()
      modifies this`table
      ensures Valid() && r == Snapshot().HasStartingOrRunningAt(index)
    {
      var hs := InstanceHeartbeatsAtIndex(index);
      for k := 0 to |hs|
        invariant forall j :: 0 <= j < k ==> !hs[j].IsStartingOrRunning()
      {
        if hs[k].IsStartingOrRunning() {
          assert hs[k] in hs;
          return true;
        }
      }
      return false;
    }

    method HasRunningInstanceAtIndex(index: int) returns (r: bool)
      requires Valid()
      modifies this`table
      ensures Valid() && r == Snapshot().HasRunningAt(index)
    {
      var hs := InstanceHeartbeatsAtIndex(index);
      for k := 0 to |hs|
        invariant forall j :: 0 <= j < k ==> !hs[j].IsRunning()
      {
        if hs[k].IsRunning() {
          assert hs[k] in hs;
          return true;
        }
      }
      return false;
    }

    method HasStartingInstanceAtIndex(index: int) returns (r: bool)
      requires Valid()
      modifies this`table
      ensures Valid() && r == Snapshot().HasStartingAt(index)
    {
      var hs := InstanceHeartbeatsAtIndex(index);
      for k := 0 to |hs|
        invariant forall j :: 0 <= j < k ==> !hs[j].IsStarting()
      {
        if hs[k].IsStarting() {
          assert hs[k] in hs;
          return true;
        }
      }
      return false;
    }

    method HasCrashedInstanceAtIndex(index: int) returns (r: bool)
      requires Valid()
      modifies this`table
      ensures Valid() && r == Snapshot().HasCrashedAt(index)
    {
      var hs := InstanceHeartbeatsAtIndex(index);
      for k := 0 to |hs|
        invariant forall j :: 0 <= j < k ==> !hs[j].IsCrashed()
      {
        if hs[k].IsCrashed() {
          assert hs[k] in hs;
          return true;
        }
      }
      return false;
    }

    // This query scans all heartbeats and does not touch the table.
    method EvacuatingInstancesAtIndex(index: int) returns (r: seq<InstanceHeartbeat>)
      ensures forall h :: h in r <==> h in instanceHeartbeats && h.instanceIndex == index && h.IsEvacuating()
      ensures r == EvacuatingOf(AtIndex(instanceHeartbeats, index))
    {
      r := [];
      for k := 0 to |instanceHeartbeats|
        invariant r == EvacuatingOf(AtIndex(instanceHeartbeats[..k], index))
      {
        var h := instanceHeartbeats[k];
        assert instanceHeartbeats[..k + 1][..k] == instanceHeartbeats[..k];
        ghost var before := AtIndex(instanceHeartbeats[..k], index);
        assert (before + [h])[..|before|] == before;
        if h.IsEvacuating() && h.instanceIndex == index {
          r := r + [h];
        }
      }
      assert instanceHeartbeats[..|instanceHeartbeats|] == instanceHeartbeats;
    }

    method HasEvacuatingInstanceAtIndex(index: int) returns (r: bool)
      ensures r == Snapshot().HasEvacuatingAt(index)
    {
      var hs := EvacuatingInstancesAtIndex(index);
      r := |hs| > 0;
      if r {
        assert hs[0] in hs;
      }
    }

    method HasStartingOrRunningInstances() returns (r: bool)
      ensures r == Snapshot().HasStartingOrRunning()
    {
      for k := 0 to |instanceHeartbeats|
        invariant forall j :: 0 <= j < k ==> !instanceHeartbeats[j].IsStartingOrRunning()
      {
        if instanceHeartbeats[k].IsStartingOrRunning() {
          assert instanceHeartbeats[k] in instanceHeartbeats;
          return true;
        }
      }
      return false;
    }

    method NumberOfDesiredIndicesWithAStartingOrRunningInstance() returns (count: nat)
      requires Valid()
      modifies this`table
      ensures Valid() && count == Snapshot().CoveredIndices(desired.numberOfInstances)
    {
      count := 0;
      var index := 0;
      while Snapshot().IsIndexDesired(index)
        invariant Valid() && 0 <= index
        invariant desired.numberOfInstances >= 0 ==> index <= desired.numberOfInstances
        invariant desired.numberOfInstances < 0 ==> index == 0
        invariant count == Snapshot().CoveredIndices(index)
        decreases desired.numberOfInstances - index
      {
        var has := HasStartingOrRunningInstanceAtIndex(index);
        if has {
          count := count + 1;
        }
        index := index + 1;
      }
    }

    method NumberOfDesiredIndicesReporting() returns (count: nat)
      requires Valid()
      modifies this`table
      ensures Valid() && count == Snapshot().ReportingIndices(desired.numberOfInstances)
    {
      count := 0;
      var index := 0;
      while Snapshot().IsIndexDesired(index)
        invariant Valid() && 0 <= index
        invariant desired.numberOfInstances >= 0 ==> index <= desired.numberOfInstances
        invariant desired.numberOfInstances < 0 ==> index == 0
        invariant count == Snapshot().ReportingIndices(index)
        decreases desired.numberOfInstances - index
      {
        var hs := InstanceHeartbeatsAtIndex(index);
        if |hs| > 0 {
          count := count + 1;
        }
        index := index + 1;
      }
    }

    method NumberOfStartingOrRunningInstances() returns (count: nat)
      ensures count == |StartingOrRunning(instanceHeartbeats)|
    {
      hide StartingOrRunning;
      count := 0;
      NoneOfNothing();
      for i := 0 to |instanceHeartbeats|
        invariant count == |StartingOrRunning(instanceHeartbeats[..i])|
      {
        NextStartingOrRunning(instanceHeartbeats, i);
        if instanceHeartbeats[i].IsStartingOrRunning() {
          count := count + 1;
        }
      }
      assert instanceHeartbeats[..|instanceHeartbeats|] == instanceHeartbeats;
    }

    method NumberOfCrashedInstances() returns (count: nat)
      ensures count == |CrashedOf(instanceHeartbeats)|
    {
      hide CrashedOf;
      count := 0;
      NoneOfNothing();
      for i := 0 to |instanceHeartbeats|
        invariant count == |CrashedOf(instanceHeartbeats[..i])|
      {
        NextCrashed(instanceHeartbeats, i);
        if instanceHeartbeats[i].IsCrashed() {
          count := count + 1;
        }
      }
      assert instanceHeartbeats[..|instanceHeartbeats|] == instanceHeartbeats;
    }

    lemma NoneOfNothing()
      ensures |StartingOrRunning([])| == 0 && |CrashedOf([])| == 0
    {
    }

    // The one query that goes through the indices of the table.
    method NumberOfCrashedIndices() returns (count: nat)
      requires Valid()
      modifies this`table
      ensures Valid() && count == |Snapshot().CrashedIndices()|
    {
      hide AtIndex, IsIndexTable, AppSnapshot.CrashedIndices, AppSnapshot.HasCrashedAt,
           AppSnapshot.HasStartingOrRunningAt;
      VerifyIndexTableIsReady();
      ghost var crashed := Snapshot().CrashedIndices();
      ghost var visited: set<int> := {};
      var unvisited := table.value.Keys;
      TableCoversCrashed(table.value);
      count := 0;
      assert crashed * visited == {};
      while unvisited != {}
        invariant Valid() && visited !! unvisited && crashed <= visited + unvisited
        invariant count == |crashed * visited|
        decreases unvisited
      {
        var index := PickAny(unvisited);
        var hasCrashed := HasCrashedInstanceAtIndex(index);
        var hasOther := HasStartingOrRunningInstanceAtIndex(index);
        CrashedIndexMeans(index);
        OneMoreVisited(crashed, visited, index);
        if hasCrashed && !hasOther {
          count := count + 1;
        }
        visited := visited + {index};
        unvisited := unvisited - {index};
      }
      assert crashed * visited == crashed;
    }

    lemma OneMoreVisited(s: set<int>, visited: set<int>, index: int)
      requires index !in visited
      ensures |s * (visited + {index})| == |s * visited| + (if index in s then 1 else 0)
    {
      assert s * (visited + {index}) == (s * visited) + (if index in s then {index} else {});
    }

    lemma TableCoversCrashed(table: map<int, seq<InstanceHeartbeat>>)
      requires IsIndexTable(table, instanceHeartbeats)
      ensures Snapshot().CrashedIndices() <= table.Keys
    {
      forall i | i in Snapshot().CrashedIndices() ensures i in table {
        var h :| h in instanceHeartbeats && h.instanceIndex == i && h.IsCrashed();
        assert h in AtIndex(instanceHeartbeats, i);
      }
    }

    lemma CrashedIndexMeans(index: int)
      ensures index in Snapshot().CrashedIndices() <==>
              Snapshot().HasCrashedAt(index) && !Snapshot().HasStartingOrRunningAt(index)
    {
      if Snapshot().HasCrashedAt(index) && !Snapshot().HasStartingOrRunningAt(index) {
        var h :| h in instanceHeartbeats && h.instanceIndex == index && h.IsCrashed();
        assert h.instanceIndex in Snapshot().CrashedIndices();
      }
    }
  }

  // ---------- counts ----------

  lemma NextStartingOrRunning(hs: seq<InstanceHeartbeat>, i: nat)
    requires i < |hs|
    ensures |StartingOrRunning(hs[..i + 1])| ==
              |StartingOrRunning(hs[..i])| + (if hs[i].IsStartingOrRunning() then 1 else 0)
  {
    assert hs[..i + 1][..i] == hs[..i];
  }

  lemma NextCrashed(hs: seq<InstanceHeartbeat>, i: nat)
    requires i < |hs|
    ensures |CrashedOf(hs[..i + 1])| == |CrashedOf(hs[..i])| + (if hs[i].IsCrashed() then 1 else 0)
  {
    assert hs[..i + 1][..i] == hs[..i];
  }

  /** An index that counts as crashed has a crashed instance of its own. */
  lemma CrashedIndicesAtMost(a: AppSnapshot)
    ensures |a.CrashedIndices()| <= |CrashedOf(a.instanceHeartbeats)|
  {
    var crashed := CrashedOf(a.instanceHeartbeats);
    forall i | i in a.CrashedIndices() ensures i in IndicesOf(crashed) {
      var h :| h in a.instanceHeartbeats && h.instanceIndex == i && h.IsCrashed();
      assert h in crashed;
    }
    SubsetIsSmaller(a.CrashedIndices(), IndicesOf(crashed));
    FewIndices(crashed);
  }

  function IndicesOf(hs: seq<InstanceHeartbeat>): set<int> { set h | h in hs :: h.instanceIndex }

  lemma {:induction false} FewIndices(hs: seq<InstanceHeartbeat>)
    ensures |IndicesOf(hs)| <= |hs|
  {
    if hs != [] {
      var init, last := hs[..|hs| - 1], hs[|hs| - 1];
      assert hs == init + [last];
      FewIndices(init);
      assert IndicesOf(hs) == IndicesOf(init) + {last.instanceIndex};
    }
  }

  lemma {:induction false} SubsetIsSmaller(a: set<int>, b: set<int>)
    requires a <= b
    ensures |a| <= |b|
  {
    if a != {} {
      SubsetIsSmaller(a - {Pick(a)}, b - {Pick(a)});
    }
  }

  // ---------- the buckets partition the heartbeats ----------

  ghost function BucketTotal(hs: seq<InstanceHeartbeat>, indices: set<int>): nat {
    if indices == {} then 0
    else |AtIndex(hs, Pick(indices))| + BucketTotal(hs, indices - {Pick(indices)})
  }

  lemma {:induction false} BucketTotalAppend(hs: seq<InstanceHeartbeat>, h: InstanceHeartbeat, indices: set<int>)
    ensures BucketTotal(hs + [h], indices) ==
            BucketTotal(hs, indices) + (if h.instanceIndex in indices then 1 else 0)
    decreases indices
  {
    assert (hs + [h])[..|hs|] == hs;
    if indices != {} {
      BucketTotalAppend(hs, h, indices - {Pick(indices)});
    }
  }

  lemma {:induction false} BucketTotalOfNothing(indices: set<int>)
    ensures BucketTotal([], indices) == 0
    decreases indices
  {
    if indices != {} {
      BucketTotalOfNothing(indices - {Pick(indices)});
    }
  }

  /** Summed over any set of indices that covers every heartbeat, the buckets account for
      each heartbeat exactly once. */
  lemma {:induction false} BucketsAccountForAll(hs: seq<InstanceHeartbeat>, indices: set<int>)
    requires forall h :: h in hs ==> h.instanceIndex in indices
    ensures BucketTotal(hs, indices) == |hs|
  {
    if hs == [] {
      BucketTotalOfNothing(indices);
    } else {
      var init, last := hs[..|hs| - 1], hs[|hs| - 1];
      assert hs == init + [last];
      BucketsAccountForAll(init, indices);
      BucketTotalAppend(init, last, indices);
    }
  }
}
