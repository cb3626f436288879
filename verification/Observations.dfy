/** What is seen of an app, in terms of the states its heartbeats carry and nothing else. The laws of the
    analyzer and of the sender are stated in these terms. */
module Observations {
  import opened Collections
  import opened Models

  // Some instance at the index is reported in one of the states.
  ghost predicate Seen(a: AppSnapshot, index: int, states: set<InstanceState>) {
    exists h :: h in a.instanceHeartbeats && h.instanceIndex == index && h.state in states
  }

  ghost predicate SeenAnywhere(a: AppSnapshot, states: set<InstanceState>) {
    exists h :: h in a.instanceHeartbeats && h.state in states
  }

  // The p-th heartbeat is of an instance at the index that is starting or running.
  ghost predicate UpAt(a: AppSnapshot, index: int, p: int) {
    && 0 <= p < |a.instanceHeartbeats|
    && a.instanceHeartbeats[p].instanceIndex == index
    && a.instanceHeartbeats[p].state in {Starting, Running}
  }

  // Two heartbeats are.
  ghost predicate Crowded(a: AppSnapshot, index: int) {
    exists p, q :: p < q && UpAt(a, index, p) && UpAt(a, index, q)
  }

  // The desired indices at which nothing is starting or running.
  ghost function VacantIndices(a: AppSnapshot): set<int> {
    set i | 0 <= i < a.desired.numberOfInstances && !Seen(a, i, {Starting, Running})
  }

  // The positions before p of heartbeats of the index that are starting or running.
  ghost function UpBefore(a: AppSnapshot, index: int, p: int): set<int> {
    set q | 0 <= q < p && UpAt(a, index, q)
  }

  // How often the index is on record as having crashed.
  ghost function CrashesOf(a: AppSnapshot, index: int): int {
    if index in a.crashCounts then a.crashCounts[index].crashCount else 0
  }

  // ---------- what the queries see ----------

  lemma QueriesSee(a: AppSnapshot, index: int)
    ensures a.HasStartingOrRunningAt(index) <==> Seen(a, index, {Starting, Running})
    ensures a.HasStartingAt(index) <==> Seen(a, index, {Starting})
    ensures a.HasRunningAt(index) <==> Seen(a, index, {Running})
    ensures a.HasCrashedAt(index) <==> Seen(a, index, {Crashed})
    ensures a.HasEvacuatingAt(index) <==> Seen(a, index, {Evacuating})
    ensures a.HasStartingOrRunning() <==> SeenAnywhere(a, {Starting, Running})
  {
    assert forall h: InstanceHeartbeat :: h.state in {Starting, Running} <==> h.IsStartingOrRunning();
  }

  // Those of the first n heartbeats that are of instances at the index starting or running.
  function UpAmong(a: AppSnapshot, index: int, n: nat): seq<InstanceHeartbeat>
    requires n <= |a.instanceHeartbeats|
  {
    StartingOrRunning(AtIndex(a.instanceHeartbeats[..n], index))
  }

  lemma NextUpAmong(a: AppSnapshot, index: int, n: nat)
    requires n < |a.instanceHeartbeats|
    ensures UpAmong(a, index, n + 1) ==
            UpAmong(a, index, n) + (if UpAt(a, index, n) then [a.instanceHeartbeats[n]] else [])
  {
    var before := AtIndex(a.instanceHeartbeats[..n], index);
    assert a.instanceHeartbeats[..n + 1][..n] == a.instanceHeartbeats[..n];
    assert (before + [a.instanceHeartbeats[n]])[..|before|] == before;
  }

  // The heartbeat stands in the list at the place given by the number of those before it.
  ghost predicate StandsAt(a: AppSnapshot, index: int, up: seq<InstanceHeartbeat>, p: int) {
    |UpBefore(a, index, p)| < |up| && 0 <= p < |a.instanceHeartbeats| &&
    up[|UpBefore(a, index, p)|] == a.instanceHeartbeats[p]
  }

  ghost predicate AllStand(a: AppSnapshot, index: int, up: seq<InstanceHeartbeat>, n: nat) {
    && |up| == |UpBefore(a, index, n)|
    && forall p :: UpAt(a, index, p) && p < n ==> StandsAt(a, index, up, p)
  }

  lemma OneMoreStands(a: AppSnapshot, index: int, up: seq<InstanceHeartbeat>, n: nat)
    requires AllStand(a, index, up, n) && n < |a.instanceHeartbeats|
    ensures AllStand(a, index, up + (if UpAt(a, index, n) then [a.instanceHeartbeats[n]] else []), n + 1)
  {
    OneMoreUp(a, index, n);
    hide UpBefore;
  }

  /** The instances of an index that start or run are listed in the order of their heartbeats. */
  lemma {:induction false} ListedInOrder(a: AppSnapshot, index: int, n: nat)
    requires n <= |a.instanceHeartbeats|
    ensures AllStand(a, index, UpAmong(a, index, n), n)
  {
    if n == 0 {
      assert UpBefore(a, index, 0) == {};
    } else {
      hide UpAmong, AllStand;
      ListedInOrder(a, index, n - 1);
      NextUpAmong(a, index, n - 1);
      OneMoreStands(a, index, UpAmong(a, index, n - 1), n - 1);
    }
  }

  lemma OneMoreUp(a: AppSnapshot, index: int, p: nat)
    ensures UpBefore(a, index, p + 1) == UpBefore(a, index, p) + (if UpAt(a, index, p) then {p} else {})
    ensures |UpBefore(a, index, p + 1)| == |UpBefore(a, index, p)| + (if UpAt(a, index, p) then 1 else 0)
  {
    assert p !in UpBefore(a, index, p);
    assert UpBefore(a, index, p + 1) == UpBefore(a, index, p) + (if UpAt(a, index, p) then {p} else {});
  }

  lemma CrowdedIff(a: AppSnapshot, index: int)
    ensures |a.StartingOrRunningAt(index)| > 1 <==> Crowded(a, index)
  {
    var n := |a.instanceHeartbeats|;
    var up := UpBefore(a, index, n);
    AllUp(a, index);
    ListedInOrder(a, index, n);
    assert forall p :: p in up <==> UpAt(a, index, p);
    hide UpAmong, UpBefore, UpAt, AppSnapshot.StartingOrRunningAt;
    TwoElements(up);
  }

  lemma AllUp(a: AppSnapshot, index: int)
    ensures UpAmong(a, index, |a.instanceHeartbeats|) == a.StartingOrRunningAt(index)
  {
    assert a.instanceHeartbeats[..|a.instanceHeartbeats|] == a.instanceHeartbeats;
  }

  lemma TwoElements(s: set<int>)
    ensures |s| > 1 <==> exists p, q :: p < q && p in s && q in s
  {
    if |s| > 1 {
      var p := Pick(s);
      assert |s - {p}| > 0;
      var q := Pick(s - {p});
      assert if p < q then p in s && q in s else q < p;
    }
    if p, q :| p < q && p in s && q in s {
      assert |s - {p, q}| == |s| - 2;
    }
  }

  // The desired indices below n are vacant or covered.
  lemma {:induction false} VacantOrCovered(a: AppSnapshot, n: nat)
    ensures |set i | 0 <= i < n && !Seen(a, i, {Starting, Running})| + a.CoveredIndices(n) == n
  {
    var vacant := set i | 0 <= i < n && !Seen(a, i, {Starting, Running});
    if n == 0 {
      assert vacant == {};
    } else {
      VacantOrCovered(a, n - 1);
      QueriesSee(a, n - 1);
      var before := set i | 0 <= i < n - 1 && !Seen(a, i, {Starting, Running});
      assert vacant == before + (if Seen(a, n - 1, {Starting, Running}) then {} else {n - 1});
    }
  }
}
