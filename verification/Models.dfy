/** The values exchanged by the components: heartbeats, desired state, crash counts and
    the pending start and stop messages, with the queries the components make of them. */
module Models {

  datatype Option<+T> = None | Some(value: T)

  // ---------- actual state ----------

  // An instance state is an arbitrary string in a heartbeat; four strings have a meaning.
  datatype InstanceState = Starting | Running | Crashed | Evacuating | OtherState(name: string)

  // Everything about an instance that never changes during its life.
  datatype Identity = Identity(appGuid: string, appVersion: string, instanceIndex: int, deaGuid: string)

  // State timestamps are counted in tenths of a second, the precision that is stored.
  datatype InstanceHeartbeat = InstanceHeartbeat(
    appGuid: string,
    appVersion: string,
    instanceGuid: string,
    instanceIndex: int,
    state: InstanceState,
    stateTimestamp: int,
    deaGuid: string)
  {
    predicate IsStarting() { state.Starting? }

    predicate IsRunning() { state.Running? }

    predicate IsCrashed() { state.Crashed? }

    predicate IsEvacuating() { state.Evacuating? }

    predicate IsStartingOrRunning() { IsStarting() || IsRunning() }

    function FixedPart(): Identity {
      Identity(appGuid, appVersion, instanceIndex, deaGuid)
    }
  }

  // The zero value a lookup returns when it finds nothing.
  const NO_INSTANCE := InstanceHeartbeat("", "", "", 0, OtherState(""), 0, "")

  datatype Heartbeat = Heartbeat(deaGuid: string, instanceHeartbeats: seq<InstanceHeartbeat>)

  ghost predicate DistinctGuids(hs: seq<InstanceHeartbeat>) {
    forall i, j :: 0 <= i < j < |hs| ==> hs[i].instanceGuid != hs[j].instanceGuid
  }

  // ---------- desired state ----------

  datatype AppState = Started | Stopped | OtherAppState(name: string)

  datatype PackageState = Staged | Pending | Failed | OtherPackageState(name: string)

  datatype AppKey = AppKey(appGuid: string, appVersion: string)

  datatype DesiredAppState = DesiredAppState(
    appGuid: string,
    appVersion: string,
    numberOfInstances: int,
    state: AppState,
    packageState: PackageState)
  {
    function StoreKey(): AppKey { AppKey(appGuid, appVersion) }
  }

  const NOT_DESIRED := DesiredAppState("", "", 0, OtherAppState(""), OtherPackageState(""))

  datatype CrashCount = CrashCount(
    appGuid: string,
    appVersion: string,
    instanceIndex: int,
    crashCount: int,
    createdAt: int)

  // ---------- one app as a snapshot of its desired and actual state ----------

  function AtIndex(hs: seq<InstanceHeartbeat>, index: int): (r: seq<InstanceHeartbeat>)
    ensures forall h :: h in r <==> h in hs && h.instanceIndex == index
  {
    if hs == [] then []
    else
      var init, last := hs[..|hs| - 1], hs[|hs| - 1];
      assert hs == init + [last];
      if last.instanceIndex == index then AtIndex(init, index) + [last] else AtIndex(init, index)
  }

  function StartingOrRunning(hs: seq<InstanceHeartbeat>): (r: seq<InstanceHeartbeat>)
    ensures forall h :: h in r <==> h in hs && h.IsStartingOrRunning()
  {
    if hs == [] then []
    else
      var init, last := hs[..|hs| - 1], hs[|hs| - 1];
      assert hs == init + [last];
      if last.IsStartingOrRunning() then StartingOrRunning(init) + [last] else StartingOrRunning(init)
  }

  function EvacuatingOf(hs: seq<InstanceHeartbeat>): (r: seq<InstanceHeartbeat>)
    ensures forall h :: h in r <==> h in hs && h.IsEvacuating()
  {
    if hs == [] then []
    else
      var init, last := hs[..|hs| - 1], hs[|hs| - 1];
      assert hs == init + [last];
      if last.IsEvacuating() then EvacuatingOf(init) + [last] else EvacuatingOf(init)
  }

  function CrashedOf(hs: seq<InstanceHeartbeat>): (r: seq<InstanceHeartbeat>)
    ensures forall h :: h in r <==> h in hs && h.IsCrashed()
  {
    if hs == [] then []
    else
      var init, last := hs[..|hs| - 1], hs[|hs| - 1];
      assert hs == init + [last];
      if last.IsCrashed() then CrashedOf(init) + [last] else CrashedOf(init)
  }

  // The first heartbeat with the given guid, or the zero value.
  function InstanceWithGuid(hs: seq<InstanceHeartbeat>, guid: string): (r: InstanceHeartbeat)
    ensures (exists h :: h in hs && h.instanceGuid == guid) ==> r in hs && r.instanceGuid == guid
    ensures !(exists h :: h in hs && h.instanceGuid == guid) ==> r == NO_INSTANCE
  {
    if hs == [] then NO_INSTANCE
    else if hs[0].instanceGuid == guid then hs[0]
    else InstanceWithGuid(hs[1..], guid)
  }

  datatype AppSnapshot = AppSnapshot(
    appGuid: string,
    appVersion: string,
    desired: DesiredAppState,
    instanceHeartbeats: seq<InstanceHeartbeat>,
    crashCounts: map<int, CrashCount>)
  {
    function Key(): AppKey { AppKey(appGuid, appVersion) }

    predicate IsStaged() { desired.packageState.Staged? }

    predicate IsDesired() { desired.appGuid != "" }

    predicate IsIndexDesired(index: int) { index < desired.numberOfInstances }

    function StartingOrRunningAt(index: int): seq<InstanceHeartbeat> {
      StartingOrRunning(AtIndex(instanceHeartbeats, index))
    }

    predicate HasStartingOrRunningAt(index: int) {
      exists h :: h in instanceHeartbeats && h.instanceIndex == index && h.IsStartingOrRunning()
    }

    predicate HasRunningAt(index: int) {
      exists h :: h in instanceHeartbeats && h.instanceIndex == index && h.IsRunning()
    }

    predicate HasStartingAt(index: int) {
      exists h :: h in instanceHeartbeats && h.instanceIndex == index && h.IsStarting()
    }

    predicate HasCrashedAt(index: int) {
      exists h :: h in instanceHeartbeats && h.instanceIndex == index && h.IsCrashed()
    }

    predicate HasEvacuatingAt(index: int) {
      exists h :: h in instanceHeartbeats && h.instanceIndex == index && h.IsEvacuating()
    }

    predicate HasStartingOrRunning() {
      exists h :: h in instanceHeartbeats && h.IsStartingOrRunning()
    }

    // How many of the indices 0..n-1 have a starting or running instance.
    function CoveredIndices(n: int): nat
      decreases n
    {
      if n <= 0 then 0 else CoveredIndices(n - 1) + (if HasStartingOrRunningAt(n - 1) then 1 else 0)
    }

    // How many of the indices 0..n-1 have any heartbeat at all.
    function ReportingIndices(n: int): nat
      decreases n
    {
      if n <= 0 then 0 else ReportingIndices(n - 1) + (if AtIndex(instanceHeartbeats, n - 1) != [] then 1 else 0)
    }

    // The indices at which something has crashed and nothing is starting or running.
    function CrashedIndices(): set<int> {
      set h | h in instanceHeartbeats && HasCrashedAt(h.instanceIndex) && !HasStartingOrRunningAt(h.instanceIndex) ::
        h.instanceIndex
    }

    function CrashCountAt(index: int, now: int): CrashCount {
      if index in crashCounts then crashCounts[index]
      else CrashCount(appGuid, appVersion, index, 0, now)
    }
  }

  // ---------- pending messages ----------

  datatype StartReason = MissingStart | CrashedStart | EvacuatingStart

  datatype StopReason = ExtraStop | DuplicateStop | EvacuationCompleteStop

  datatype StartKey = StartKey(appGuid: string, appVersion: string, index: int)

  datatype PendingStart = PendingStart(
    sendOn: int,
    sentOn: int,
    keepAlive: int,
    appGuid: string,
    appVersion: string,
    indexToStart: int,
    priority: real,
    skipVerification: bool,
    startReason: StartReason)
  {
    function StoreKey(): StartKey { StartKey(appGuid, appVersion, indexToStart) }

    predicate HasBeenSent() { sentOn != 0 }

    predicate IsTimeToSend(now: int) { !HasBeenSent() && sendOn <= now }

    predicate IsExpired(now: int) { HasBeenSent() && sentOn + keepAlive <= now }
  }

  datatype PendingStop = PendingStop(
    sendOn: int,
    sentOn: int,
    keepAlive: int,
    appGuid: string,
    appVersion: string,
    instanceGuid: string,
    stopReason: StopReason)
  {
    function StoreKey(): string { instanceGuid }

    predicate HasBeenSent() { sentOn != 0 }

    predicate IsTimeToSend(now: int) { !HasBeenSent() && sendOn <= now }

    predicate IsExpired(now: int) { HasBeenSent() && sentOn + keepAlive <= now }
  }

  function NewPendingStart(now: int, delay: int, keepAlive: int, appGuid: string, appVersion: string,
                           index: int, priority: real, reason: StartReason): PendingStart {
    PendingStart(now + delay, 0, keepAlive, appGuid, appVersion, index, priority, false, reason)
  }

  function NewPendingStop(now: int, delay: int, keepAlive: int, appGuid: string, appVersion: string,
                          instanceGuid: string, reason: StopReason): PendingStop {
    PendingStop(now + delay, 0, keepAlive, appGuid, appVersion, instanceGuid, reason)
  }

  // ---------- facts about the filters ----------

  lemma {:induction false} DistinctAtIndex(hs: seq<InstanceHeartbeat>, index: int)
    requires DistinctGuids(hs)
    ensures DistinctGuids(AtIndex(hs, index))
  {
    if hs != [] {
      var init, last := hs[..|hs| - 1], hs[|hs| - 1];
      DistinctAtIndex(init, index);
      forall h | h in AtIndex(init, index) ensures h.instanceGuid != last.instanceGuid {
        var i :| 0 <= i < |init| && init[i] == h;
      }
    }
  }

  lemma {:induction false} DistinctStartingOrRunning(hs: seq<InstanceHeartbeat>)
    requires DistinctGuids(hs)
    ensures DistinctGuids(StartingOrRunning(hs))
  {
    if hs != [] {
      var init, last := hs[..|hs| - 1], hs[|hs| - 1];
      DistinctStartingOrRunning(init);
      forall h | h in StartingOrRunning(init) ensures h.instanceGuid != last.instanceGuid {
        var i :| 0 <= i < |init| && init[i] == h;
      }
    }
  }

  // With distinct guids, looking an instance up by its guid finds that instance.
  lemma LookupFindsInstance(hs: seq<InstanceHeartbeat>, h: InstanceHeartbeat)
    requires DistinctGuids(hs) && h in hs
    ensures InstanceWithGuid(hs, h.instanceGuid) == h
  {
    var r := InstanceWithGuid(hs, h.instanceGuid);
    var i :| 0 <= i < |hs| && hs[i] == h;
    var j :| 0 <= j < |hs| && hs[j] == r;
    assert i == j;
  }

  function GuidsOf(hs: seq<InstanceHeartbeat>): set<string> {
    set h | h in hs :: h.instanceGuid
  }

  lemma {:induction false} DistinctGuidsCount(hs: seq<InstanceHeartbeat>)
    requires DistinctGuids(hs)
    ensures |GuidsOf(hs)| == |hs|
  {
    if hs != [] {
      var init, last := hs[..|hs| - 1], hs[|hs| - 1];
      DistinctGuidsCount(init);
      assert hs == init + [last];
      assert GuidsOf(hs) == GuidsOf(init) + {last.instanceGuid};
    }
  }
}
