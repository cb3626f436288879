# HM9000 reconciliation, in Dafny

HM9000 watches the instances of cloud applications and brings what runs in line with what is desired.
DEA heartbeats are merged into a stored actual state; an analyzer compares that state with the desired
state, page by page as the cloud controller delivers it, and queues start and stop messages with delays;
a sender checks the queued messages again, throttles them, posts them and retires them. This project
models that loop and proves what it keeps, decides and guarantees over whole runs.

`dafny verify dfyconfig.toml` checks everything.

## How the model is laid out

| files | source | what they hold |
|---|---|---|
| `Models`, `App`, `Observations` | `models/` | instances, desired state, messages; the app object with its lazily built index table; what heartbeats say, in terms of their states |
| `CrashDelay`, `AppAnalysis`, `AppAnalyzer`, `AnalysisLaws` | `analyzer/` | the backoff law; what an analysis must yield; the analyzer object that yields it; the same read off heartbeats and counts |
| `PendingStore`, `Analyzer` | `store/`, `analyzer/` | the queues as keyed maps; a whole round over batches and removals |
| `SendDecisions`, `Sender`, `SendLaws` | `sender/` | the decisions about one message and a list of them; the sender object; what is posted and what is left, read off heartbeats and the clock |
| `ControlLoop`, `TurnLaws`, `TurnRuns`, `MessageLives`, `CrashTurns`, `Coherence`, `RateLimit`, `DuplicateRuns`, `DuplicateTiming`, `DuplicateExample`, `BackoffRuns` | `hm/`, analyzer and sender together | one turn of the loop, and theorems about runs of turns |
| `Overlap`, `OverlapScenario` | `analyzer/`, `hm/` | what comes of an app that is on two pages of a fetch |
| `HeartbeatSpec`, `HeartbeatLaws`, `HeartbeatMerge`, `HeartbeatStore`, `HeartbeatTheorems` | `store/actual_state.go` | the two-level cache, what a call must do to cache and store, the same read off the reports, the object that does it, sequences of calls |
| `Freshness`, `Syncer`, `SyncerScenarios` | `store/freshness.go`, `actualstatelisteners/` | the freshness key as a function of its history; the listener's mailbox loop, and two courses of events on it |
| `Fetcher`, `Pipeline` | `desiredstatefetcher/`, `hm/` | filtering a page; fetcher, analyzer and main process as interleaved steps |
| `Codec`, `Compact`, `Metrics` | `models/`, `store/`, `analyzer/` | stored text forms, compaction, counters |
| `Adapter`, `Arithmetic`, `Collections` | | the key-value store and small helpers |

Objects with mutable fields are classes, loops are loops, and each is tied to a function or predicate
over values about which the theorems are then stated. The modules named `Laws` say what those predicates mean
without using them: in terms of the states in heartbeats, the numbers in messages and the readings of the clock. The key-value store is a map. What is not up to the
program is given to it: at what instants its requests are served, which of them fail, and what the cloud
controller answers to its n-th request are parameters or constants that every contract refers to, so a method
may neither act when the source would not nor refrain when the source would act. Two things are left open: how
far a failed write got, and the order in which a Go map is visited.

## What the theorems assume

- An instance guid determines the app, version, index and DEA it belongs to. The heartbeat store carries
  this as a ghost function `who`; the cache is only as good as this. Guids are distinct within a heartbeat.
- Cache and store agree up to the times of unchanged states, because an unchanged state is not written
  again. The cache is changed before the store is written, so agreement after a call is a claim about calls
  that succeed; the next reload repairs what a failed one left behind, and that is proved from any contents.
- An app may come on several pages of a fetch. What is queued is still exactly what the snapshots analyzed call
  for, the last page decides what is left as desired, and nothing queued before is overwritten. What the
  theorems need beyond that differs: the rate limit, that no start is called for by two pages
  (`ControlLoop.CalledOnce`); that all new messages pass the sender's check, that no two pages contradict each
  other; the runs over duplicates and crash counts, that no app comes on two pages (`DisjointBatches`).
- Instance indices and desired counts are not negative, time is a monotone clock in whole seconds
  (nanoseconds in `Freshness` and `Syncer`), the starting and maximum backoff delays are positive.
- A sender's fields are never reset. Statements about exact fates are for a sender that has not been used,
  as the control loop makes one each time; the message limit and the store's new contents are stated for
  any sender, over the object's whole life.
- In the runs over duplicates the index stays desired, posts are accepted, a stopped instance is gone by the
  next round and none appears. Each instance belongs to one app for good, the stops stored to begin with name
  the right one, and so do those that turns which came to nothing add; that it stays so is proved.
- In the runs over crash counts no count expires and no turn that came to nothing has raised one, as a turn can
  whose counts were saved and whose starts were not.

## Where the code does less than it promises

- `ComputeCrashDelay` follows min(max, start * 2^(crashes - n)) except in one family of settings: no
  threshold, a first crash, and a starting delay above the maximum but below twice the maximum. There it
  returns the starting delay. `CrashDelay.BackoffLaw` is an if-and-only-if.
- Of several instances at one index, one is meant to survive the staggered stops. It does exactly if some round
  falls between the times of the last two stops (`DuplicateTiming.SurvivesIffSeenInTime`). Rounds at most a
  grace period apart guarantee that (`DuplicateRuns.DuplicatesConverge`); the shipped settings, a round every 60
  seconds and a grace period of 30 (`config/config.go:102`, `config/config.go:113`), do not: with rounds
  on the minute, an odd number of duplicates is stopped to the last one (`DuplicateTiming.EverySecondPeriod`),
  three running instances of one desired for instance (`DuplicateExample.ThreeAreLost`).
- Pending start keys join three fields with `-`, so different apps can share a key (`Codec.StartKeysCanCollide`).
  They do exactly when one app's guid continues the other's with a dash and the beginning of the other's version
  (`Codec.StartKeysCollideIff`), which guids of a fixed length never do.
- A new start is queued under one key but handed to the sender once for every page that calls for it
  (`Overlap.TimesHandedOn`), so an app on two pages has an instance started twice at the same moment, whatever
  its keep-alive; `OverlapScenario.RestartIsSentTwice` plays this out. The sender is handed the stored
  queue, each start once, exactly if no start is called for by two pages (`Overlap.ListedOnceIff`).
- A start is posted before the mark that it was sent is stored. If storing the mark fails, and only then, the
  start stays queued as it was and is due again in the next turn (`TurnRuns.TurnsAreRateLimited`,
  `RateLimit.UnmarkedIsStillDue`).
- Compaction spares the current schema root exactly when its version is not negative.
- The listener keeps one sender for its whole life (`hm/start_listening_for_actual.go:35`), and the count of
  starts sent is never reset (`sender/sender.go:33`, `sender/sender.go:201`). The limit meant for one round is
  therefore a limit for the process. A turn that finds instances newly evacuating starts none elsewhere exactly
  if the actual state cannot be seen to be fresh or the limit has been used up
  (`Syncers.ActualStateSyncer.StartElsewhere`); `SyncerScenarios.LimitIsForGood` plays this out on a listener with
  a limit of one. For the same reason each call of that sender saves again what earlier ones saved (`Senders.Sender.Send`).
- When a sync fails and its deletion of the freshness key takes effect, the key is gone by the time the same turn
  asks for evacuating instances to be started elsewhere, so those starts are held at the gate
  (`Syncers.RevokedKeyHoldsStarts`). The instances are already cached as evacuating and are not returned
  again, so the listener never starts them; `SyncerScenarios.HeldForGood` plays this out.

## Model

| member | source | states |
|---|---|---|
| `Models.InstanceWithGuid` | models/app.go:106-114 | gives an instance with that guid if there is one, otherwise the zero instance |
| `Models.LookupFindsInstance` | models/app.go:106-114 | when guids are distinct, looking up an instance's guid gives that instance and no other |
| `Apps.BuildIndexTable` | models/app.go:157-165 | for every index the table holds exactly the heartbeats of that index, in their original order |
| `Apps.App.VerifyIndexTableIsReady` | models/app.go:288-295 | a table once built is kept, one not yet built is built right |
| `Apps.App.SetDesired` | analyzer/analyzer.go:84 | assigning the desired state leaves a table built earlier correct |
| `Apps.App.InstanceHeartbeatsAtIndex` | models/app.go:278-286 | answers from the lazy table what filtering all heartbeats would, whatever was asked before |
| `Apps.App.StartingOrRunningInstancesAtIndex` | models/app.go:146-155 | answers from the table with the starting and running instances at the index, in order |
| `Apps.App.HasStartingOrRunningInstanceAtIndex` | models/app.go:199-207 | true exactly when some heartbeat of the index is starting or running |
| `Apps.App.HasRunningInstanceAtIndex` | models/app.go:179-187 | true exactly when some heartbeat of the index is running |
| `Apps.App.HasStartingInstanceAtIndex` | models/app.go:189-197 | true exactly when some heartbeat of the index is starting |
| `Apps.App.HasCrashedInstanceAtIndex` | models/app.go:213-221 | true exactly when some heartbeat of the index has crashed |
| `Apps.App.EvacuatingInstancesAtIndex` | models/app.go:167-177 | the evacuating instances of the index, all of them and in order |
| `Apps.App.HasStartingOrRunningInstances` | models/app.go:127-134 | true exactly when some heartbeat at all is starting or running |
| `Apps.App.NumberOfDesiredIndicesWithAStartingOrRunningInstance` | models/app.go:136-144 | counts the desired indices that have a starting or running instance |
| `Apps.App.NumberOfDesiredIndicesReporting` | models/app.go:237-245 | counts the desired indices for which anything is reported |
| `Apps.App.NumberOfStartingOrRunningInstances` | models/app.go:247-255 | counts the starting and running instances |
| `Apps.App.NumberOfCrashedInstances` | models/app.go:257-265 | counts the crashed instances |
| `Apps.App.NumberOfCrashedIndices` | models/app.go:267-276 | going through the buckets of the table in any order, counts each index once at which something has crashed and nothing starts or runs |
| `Apps.CrashedIndicesAtMost` | models/app.go:257-276 | there are never more crashed indices than crashed instances |
| `Apps.BucketsAccountForAll` | models/app.go:288-295 | over any indices covering all heartbeats the bucket sizes sum to the number of heartbeats: none lost, none counted twice |
| `Observations.ListedInOrder` | models/app.go:146-155 | the starting and running instances of an index are listed in the order of their heartbeats, each at the place given by the number of those before it |
| `Observations.CrowdedIff` | models/app.go:146-155 | the list has more than one entry exactly if two different heartbeats of the index are starting or running |
| `Observations.VacantOrCovered` | models/app.go:136-144 | the indices below n with a starting or running instance and those with none make up n |
| `CrashDelay.FloorLog2` | analyzer/crash_delay.go:12-17 | the exponent k with q*2^k <= p < q*2^(k+1), the exact meaning of rounding the base-2 logarithm of p/q down |
| `CrashDelay.BackoffLaw` | analyzer/crash_delay.go:7-19 | the delay is zero below the threshold and min(max, start*2^(crashes-n)) from it on, except in exactly one family of inputs |
| `CrashDelay.BackoffLawFails` | analyzer/crash_delay.go:7-19 | the smallest input outside the law, with both values |
| `CrashDelay.BackoffMonotoneAndBounded` | analyzer/crash_delay.go:7-19 | more crashes never mean a shorter delay, no delay exceeds the maximum, and no product computed on the way does |
| `AppAnalysis.SomeStartWhenUncovered` | analyzer/app_analyzer.go:78-87 | skipping crashed indices of an app with nothing running never stalls it: an uncovered desired index always leads to some start |
| `AppAnalysis.SilentIffConverged` | analyzer/app_analyzer.go:46-185 | with nothing queued, a staged app gets neither start nor stop exactly when each desired index has one starting or running instance, nothing runs or evacuates beyond, and evacuating instances only wait for a starting one |
| `AppAnalysis.StartPriorities` | analyzer/app_analyzer.go:208-212 | missing and crashed starts have a priority above 0 and at most 1, evacuation starts have 2 |
| `AppAnalysis.StartsGuardStops` | analyzer/app_analyzer.go:52-55 | in a round that queues any start for an app, every stop it queues is for an evacuating instance |
| `AppAnalysis.UndesiredAppIsStopped` | analyzer/analyzer.go:107-114 | an app not desired gets no start and no crash count, and a stop for each starting, running or evacuating instance without one, so dropping its starts loses nothing |
| `AppAnalysis.AnalysisIsUnique` | analyzer/app_analyzer.go:145-185 | with distinct guids, starts, stops and crash counts are determined by the snapshot and the queues: iteration order over indices has no influence |
| `AppAnalysis.JustificationIsUnique` | analyzer/app_analyzer.go:108-143 | one instance is never owed two different stops by overlapping generators |
| `AnalysisLaws.StartsAreThose` | analyzer/app_analyzer.go:60-106 | in any analysis an index gets a new start exactly if it has none queued and is missing, down or left, in terms of heartbeat states; a missing one after a grace period and not kept, a crashed one after its backoff, an evacuated one at once with priority 2 |
| `AnalysisLaws.PriorityIsShare` | analyzer/app_analyzer.go:208-212 | priority times desired instances is the size of the set of desired indices with nothing starting or running |
| `AnalysisLaws.StopsAreThose` | analyzer/app_analyzer.go:108-185 | an instance gets a new stop exactly if it has none queued and is an evacuee with nothing left to wait for or, in an analysis that starts nothing, surplus or one of several |
| `AnalysisLaws.StopIsFor` | analyzer/app_analyzer.go:108-185 | each stop's reason and time: at once for evacuees and surplus instances, and for the one of several with k before it 4+k grace periods later |
| `AnalysisLaws.UnstableEvacueeIsStopped` | analyzer/app_analyzer.go:176-178 | an evacuee of a desired index with nothing starting or running is stopped, at once, exactly if crashes of the index are on record |
| `AnalysisLaws.CountsAreThose` | analyzer/app_analyzer.go:78-106 | a crash is counted exactly for the indices down whose restart is not queued, one more than on record |
| `AppAnalyzers.AppAnalyzer.AnalyzeApp` | analyzer/app_analyzer.go:46-58 | yields exactly the starts needed and not queued, one per index, exactly the stops needed and not queued, each with its justification, and one increment per crash restart appended |
| `AppAnalyzers.AppAnalyzer.ComputePriority` | analyzer/app_analyzer.go:208-212 | the share of desired indices that have nothing starting or running |
| `AppAnalyzers.AppAnalyzer.AppendStartIfNotDuplicate` | analyzer/app_analyzer.go:187-196 | appends, and says so, exactly when the key is not queued |
| `AppAnalyzers.AppAnalyzer.AppendStopIfNotDuplicate` | analyzer/app_analyzer.go:198-206 | appends exactly when no stop for the instance is queued |
| `AppAnalyzers.AppAnalyzer.GenerateStartsForMissing` | analyzer/app_analyzer.go:60-76 | starts for exactly the desired indices at which nothing starts, runs, has crashed or evacuates |
| `AppAnalyzers.AppAnalyzer.GenerateStartsForCrashed` | analyzer/app_analyzer.go:78-106 | adds a delayed restart for exactly the crashed indices not skipped, and increments a count exactly where it added one |
| `AppAnalyzers.AppAnalyzer.GenerateForEvacuating` | analyzer/app_analyzer.go:145-185 | whatever order the indices come in, the evacuation starts override earlier ones and the stops are exactly those owed to evacuating instances |
| `AppAnalyzers.AppAnalyzer.GenerateStopsForExtra` | analyzer/app_analyzer.go:108-119 | adds a stop for exactly the starting or running instances beyond the desired range |
| `AppAnalyzers.AppAnalyzer.GenerateStopsForDuplicates` | analyzer/app_analyzer.go:121-143 | adds a stop for every instance at an index that has several, the i-th delayed by i+4 grace periods |
| `AppAnalyzers.StagesGiveExactStarts` | analyzer/app_analyzer.go:46-51 | the three generators one after another amount to the exact set of starts, evacuating over crashed, crashed and missing exclusive |
| `PendingStores.PendingStore.SavePendingStarts` | store/store.go:102-123 | saved messages replace those of the same key and touch no other; a failed save leaves each node old or new |
| `PendingStores.PendingStore.SavePendingStops` | store/store.go:102-123 | the same for stops |
| `PendingStores.PendingStore.SaveCrashCounts` | store/crash_count.go:17-36 | the same for crash counts |
| `PendingStores.PendingStore.DeletePendingStarts` | store/store.go:150-168 | removes the messages' keys and no other, and reports success exactly when all of them existed |
| `PendingStores.PendingStore.DeletePendingStops` | store/store.go:150-168 | the same for stops |
| `Analyzers.Analyzer.AnalyzeDesired` | analyzer/analyzer.go:76-98 | a desired app is found among the running ones or made from nothing, is no longer up for removal, and its messages are added to exactly those called for so far |
| `Analyzers.Analyzer.AnalyzeRemoved` | analyzer/analyzer.go:107-114 | a running app nobody desires contributes its stops and no start |
| `Analyzers.Analyzer.AnalyzeBatches` | analyzer/analyzer.go:75-99 | whatever the batches, the apps left for removal are exactly the running ones in no batch, each app ends up desired as the last batch naming it says, the messages are exactly those the analyzed snapshots call for, and each start comes as often as batches call for it |
| `Analyzers.Analyzer.ComputeMessages` | analyzer/analyzer.go:75-114 | after a successful fetch the new messages are exactly those called for by the desired and the removed apps, each start as often as batches call for it, handed on behind the stored ones; if no app came in two batches each message comes once and the lists handed on are the stored queues |
| `Analyzers.Analyzer.Analyze` | analyzer/analyzer.go:30-135 | gives up for the first of seven reasons that arises and for no other; nothing is written unless the key passes, apps and queues can be read and the fetch succeeded; no queued message is ever overwritten; what the writes before a failing one stored is stored; on success the queues are the old ones and exactly the new messages |
| `Analyzers.Analyzer.SaveAll` | analyzer/analyzer.go:116-132 | counts, starts and stops are written in that order, each exactly if those before it got through, and a failed write stops it |
| `Overlap.TimesHandedOn` | analyzer/analyzer.go:76-98 | the sender is handed each start once if it was stored before, and once more for every batch that calls for it |
| `Overlap.ListedOnceIff` | analyzer/analyzer.go:57-98 | the starts handed on are the stored queue, each once, if and only if no start is called for by two batches |
| `Overlap.DisjointCallOnce` | analyzer/analyzer.go:76-98 | batches with no app in common call for no start twice |
| `OverlapScenario.RestartIsSentTwice` | hm/manage_desired_state.go:153-190 | a turn of the program over two equal pages posts the restart of one crashed instance twice, both accepted |
| `Coherence.NeededStartPasses` | sender/sender.go:280-318 | a start the analyzer needs passes the sender's check of the same snapshot exactly when the app is desired |
| `Coherence.OwedStopPasses` | sender/sender.go:320-364 | a stop the analyzer owes, for any reason, passes the sender's check, flagged as duplicate exactly when the index is still desired |
| `Coherence.RoundIsCoherent` | analyzer/analyzer.go:75-135 | as long as no two pages contradict each other, every start and stop newly queued in a round would pass the sender's verification against that round's apps |
| `Coherence.StartPassesIff` | sender/sender.go:280-318 | whatever the pages, a newly queued start passes exactly if its index is desired by what the last page naming its app says |
| `SendDecisions.ThrottleIsExact` | sender/sender.go:163-186 | if all posts are accepted the number sent is exactly the smaller of the limit and the number due and verified |
| `SendDecisions.PostsNeedAllowance` | sender/sender.go:163-167 | nothing is posted once the limit is used up, and something is whenever it is not and something is due |
| `SendDecisions.PostedIffAllowed` | sender/sender.go:163-186 | a due message gets its turn exactly if fewer of those before it were accepted than the limit allows |
| `SendDecisions.StartWritesGiveFates` | sender/sender.go:82-92 | the keys saved and deleted are disjoint, so every stored start is either untouched, marked sent now, or deleted |
| `SendDecisions.StopWritesGiveFates` | sender/sender.go:94-104 | the same for stops |
| `SendDecisions.PartOfStartFates` | sender/sender.go:82-92 | if a write fails, a stored start has met its fate or stays as it was: none still wanted is lost and none unsent is marked as sent |
| `SendDecisions.PartOfStopFates` | sender/sender.go:94-104 | the same for stops |
| `Senders.SortStartMessagesByPriority` | models/pending_messages.go:113-134 | the result is the same messages, earliest first and at equal times most urgent first |
| `Senders.Sender.SendStartMessageHttp` | sender/sender.go:163-212 | unverified: deleted; verified but throttled: left alone; posted: counted, and saved or deleted by its keep-alive, exactly if the controller accepts |
| `Senders.Sender.SendStopMessageHttp` | sender/sender.go:214-258 | unverified: deleted; posted: saved or deleted by its keep-alive, exactly if the controller accepts |
| `Senders.Sender.SendStartMessages` | sender/sender.go:113-123 | posts are made for a prefix of the due and verified messages in priority order, stopping early only at the limit |
| `Senders.Sender.SendStopMessages` | sender/sender.go:125-133 | posts are made for all due and verified stops, in the order given |
| `Senders.Sender.Send` | sender/sender.go:63-111 | held at the gate exactly if the state cannot be seen to be fresh, and then nothing moves; over the sender's life no more starts succeed than the limit; succeeds exactly if everything asked for got through; a new sender given the stored queues leaves every message with exactly one fate, or where a write failed with that fate or none |
| `Senders.Sender.Act` | sender/sender.go:73-111 | what a run does once past the gate, for any sender and any failures |
| `Senders.Sender.WriteQueues` | sender/sender.go:82-104 | each queue has its saves and deletions exactly as far as its own two requests got through, whatever became of the other's: every message is as it was, as it was saved, or gone because it was to be deleted |
| `SendLaws.PostedStartsAreWanted` | sender/sender.go:280-318 | every start posted is due and unsent, and of a desired app, an index in its range and with no starting or running heartbeat, unless exempt from verification; the body names that index |
| `SendLaws.WantedStartsArePosted` | sender/sender.go:113-186 | every such start is posted, unless the limit is reached and nothing was posted that is due later or less urgent |
| `SendLaws.StartsGoneAre` | sender/sender.go:82-123 | a start is gone once the writes got through exactly if it was due and not wanted, sent its keep-alive ago or longer, or just accepted with no keep-alive; accepted ones are left with the time |
| `SendLaws.PostedStopsAreWanted` | sender/sender.go:320-364 | exactly the stops that are due are posted whose app desires nothing, or not the index, or whose instance evacuates or is one of several; in the last two cases as a duplicate |
| `SendLaws.StopsGoneAre` | sender/sender.go:94-133 | the same of what is left of the stops |
| `ControlLoop.AnalyzeAndSend` | hm/manage_desired_state.go:153-190 | a turn gets past the gate exactly if all it needs from outside is there, and then meets all that is assumed of turns below, also when writes of the sender fail; a failed fetch changes and posts nothing; a turn refused or held at the gate posts nothing and only adds unsent messages |
| `TurnLaws.AppsAreAsGiven` | analyzer/analyzer.go:75-114 | a turn knows the apps reported or on a page, with the heartbeats and crash counts reported, desired as the last page says or not at all |
| `TurnLaws.CalledStartsAreQueued` | analyzer/analyzer.go:75-132 | after the analysis a start is queued for every index of an app on a page that is missing, down or left, unsent unless it was queued before |
| `TurnLaws.CalledStopsAreQueued` | analyzer/analyzer.go:75-132 | and a stop for every instance that is to go |
| `TurnLaws.PostsAreWanted` | hm/manage_desired_state.go:94-124 | a turn posts only starts that were stored or called for, are due, and are wanted by the apps it knows |
| `TurnLaws.TurnRetiresStarts` | hm/manage_desired_state.go:94-124 | in a turn whose writes got through a start is left exactly if neither refused, expired, nor accepted and not to be kept |
| `TurnLaws.TurnRetiresStops` | hm/manage_desired_state.go:94-124 | the same of stops |
| `ControlLoop.StartsFormRound` | hm/manage_desired_state.go:94-124 | every turn past the gate in which no start is called for twice is a round of the runs that are rate limited, and one whose writes got through has stored every mark |
| `ControlLoop.StartsAreQueue` | hm/manage_desired_state.go:94-124 | in a turn the sender works on the stored queue of starts, each once, if and only if no start was called for by two pages |
| `ControlLoop.StopsFormRound` | hm/manage_desired_state.go:94-124 | every turn past the gate whose posts were accepted, whatever writes fail, is for each app that shares no instance a round of the runs in which duplicates die out |
| `ControlLoop.DuplicatesStartRun` | analyzer/app_analyzer.go:121-143 | a turn that finds several instances at an index, no stop queued for them and no start due, begins such a run |
| `TurnRuns.TurnsFormStartRun` | hm/manage_desired_state.go:30-63 | turns one after another, with failed writes, and with refused and gated turns in between, are a run in the sense of the rate limit |
| `TurnRuns.TurnsAreRateLimited` | analyzer/app_analyzer.go:187-196 | however the turns of the program follow each other and whichever writes fail, two accepted starts of one index are a keep-alive apart unless storing the mark of the first failed, and then that start is still queued and due |
| `MessageLives.SentStartComesAnew` | sender/sender.go:113-123 | a start that was sent blocks its index for its keep-alive and no longer: it is stored as sent until then, gone after the first turn past it whose writes get through, and queued anew by the next if the index is still missing, down or left |
| `MessageLives.AcceptedStopIsMarked` | sender/sender.go:94-104 | an accepted stop with a keep-alive is stored as sent once the writes got through |
| `MessageLives.SentStopStays` | models/pending_messages.go:83-93 | a stop stored as sent stays so until its keep-alive has run out, and none is posted for the instance, whatever writes fail |
| `MessageLives.StopsAreRateLimited` | analyzer/app_analyzer.go:198-206 | two posts of a stop for one instance are the first one's keep-alive apart if its mark was stored |
| `MessageLives.SentStopComesAnew` | sender/sender.go:125-133 | the first turn past its keep-alive whose writes get through leaves no stop for the instance, and the next queues a new one if it is still to go |
| `TurnRuns.TurnsFormStopRun` | hm/manage_desired_state.go:30-63 | turns of the program are, for an app, a run in which duplicates are stopped |
| `TurnRuns.TurnKeepsOwned` | analyzer/app_analyzer.go:198-206 | if every stored stop names the app its instance belongs to, a turn leaves it so |
| `TurnRuns.QueueIsOwned` | hm/manage_desired_state.go:30-63 | so it is of the queue that any turn of the run finds |
| `TurnRuns.TurnsEndDuplicates` | analyzer/app_analyzer.go:121-143 | in turns at most a grace period apart, whichever writes of the sender fail, of n duplicates found each turn stops at most one, one always survives, and after n+2 grace periods exactly one is left |
| `CrashTurns.CountsOfTurn` | store/crash_count.go:17-36 | the counts stored after a turn are those read before it, with that of each index raised whose restart the turn queued |
| `CrashTurns.TurnsFormCrashRun` | hm/manage_desired_state.go:30-63 | turns of the program, each reading back the counts the one before saved, are for each app and index a run of analyses as assumed by the backoff theorems |
| `CrashTurns.TurnsBackOff` | analyzer/app_analyzer.go:78-106 | in the turns of the program the k-th restart queued for an index is delayed by what the law says for k crashes |
| `RateLimit.SentMessageStays` | models/pending_messages.go:83-93 | once its mark is stored a sent message stays stored, marked with its sending time, until its keep-alive has run out, through any number of rounds and whatever writes fail |
| `RateLimit.ExpiredIsGone` | models/pending_messages.go:91-93 | a round whose writes got through leaves no start that was sent its keep-alive ago or longer |
| `RateLimit.SentMessageGoes` | sender/sender.go:113-123 | the first round past its keep-alive, if its writes get through, leaves nothing under the key of a sent start, and no later such round leaves that message |
| `RateLimit.SentIsMarked` | sender/sender.go:82-92 | if the writes of a round get through, every accepted start with a keep-alive is stored as sent |
| `RateLimit.UnmarkedIsStillDue` | sender/sender.go:82-92 | if not, an accepted start whose mark is missing stays queued as it was and is due in every later round |
| `RateLimit.OnePostPerKey` | sender/sender.go:113-123 | one round never posts two starts of the same key |
| `RateLimit.RestartsAreRateLimited` | analyzer/app_analyzer.go:187-196 | in every run, two accepted starts for the same app, version and index are of different rounds, and at least the first one's keep-alive apart if its mark was stored |
| `DuplicateRuns.RoundShrinks` | sender/sender.go:344-363 | a round stops at most one of the instances at an index and leaves at least one, and the rest still have their stops to come |
| `DuplicateRuns.DuplicatesConverge` | analyzer/app_analyzer.go:121-143 | with rounds at most a grace period apart, at most one instance is stopped per round, one always survives, and n+2 grace periods after n duplicates were found exactly one is left |
| `DuplicateRuns.SurvivorsAreTheUndue` | sender/sender.go:125-133 | which instances survive a round, with no assumption on how far apart rounds are: those whose stop is not yet due |
| `DuplicateTiming.RoundAdvances` | sender/sender.go:125-133 | a round with several instances left, however late, stops exactly the overdue ones and leaves exactly those whose stops lie ahead |
| `DuplicateTiming.RunOnTimetable` | analyzer/app_analyzer.go:129-132 | as long as no round came after the second to last stop, the live instances are exactly those with stops after the round before, and they are several |
| `DuplicateTiming.SurvivesIffSeenInTime` | sender/sender.go:356-363 | for rounds at any distance, an instance is left in the end if and only if some round fell between the times of the last two stops |
| `DuplicateTiming.EverySecondPeriod` | config/config.go:102-113 | with a round every two grace periods, as shipped, something is left if and only if the number of duplicates was even |
| `DuplicateExample.RunExists` | hm/manage_desired_state.go:94-124 | the runs spoken of exist, for any app, any queue of its stops and any times of rounds within the gap, with no failed write and nothing queued between rounds |
| `DuplicateExample.StopsExist` | analyzer/app_analyzer.go:108-185 | for every app there is a set of stops that is exactly what is owed |
| `DuplicateExample.OddNumberIsLost` | analyzer/app_analyzer.go:121-143 | for every app with an odd number of at least three instances at a desired index there is a run, with a round every two grace periods and in its queue exactly the stops the analyzer owes, that leaves the index with none |
| `DuplicateExample.ThreeAreLost` | config/config.go:102-113 | with a grace period of 30 and a round every 60 seconds, three running instances of one desired, given the analyzer's stops for 120, 150 and 180 seconds later, are all stopped |
| `BackoffRuns.IncrementAt` | analyzer/app_analyzer.go:89-101 | a stored count is incremented for exactly the indices whose restart was appended, by one |
| `BackoffRuns.CountStep` | analyzer/app_analyzer.go:89-101 | a round raises the stored count by one if it queues a restart of the index, and leaves it alone if the index is up, missing or queued already |
| `BackoffRuns.CountIsRestarts` | analyzer/app_analyzer.go:98-101 | over a run the stored count of an index, in whatever states it is seen, has grown by the number of its restarts queued |
| `BackoffRuns.KthRestartDelay` | analyzer/app_analyzer.go:78-106 | the k-th restart queued for an index that crashes again and again, being up in between or not, is delayed by what the law says for k crashes, or made at once if an instance evacuates there |
| `HeartbeatSpec.IndexIsUnique` | store/actual_state.go:24-32 | the per-DEA index is determined by the cache it indexes |
| `HeartbeatSpec.SavesAndDeletesAreDisjoint` | store/actual_state.go:85-96 | one call never saves and deletes the same key, so the order of the two writes cannot matter |
| `HeartbeatSpec.WritesKeepMirror` | store/actual_state.go:110-128 | saving and deleting keep a store that mirrored the cache in step with the new cache |
| `HeartbeatSpec.WritesReplaceReports` | store/actual_state.go:42-128 | in the store each reporting DEA's nodes become its last report and every other DEA's nodes stay, up to the times of unchanged states |
| `HeartbeatLaws.LatestIsLast` | store/actual_state.go:58-61 | the report that counts for a DEA is the last of the batch that it made, and exactly the reporting DEAs have one |
| `HeartbeatLaws.EvacuationsMean` | store/actual_state.go:73-83 | an instance is returned exactly if its DEA's last report has it evacuating and it was known neither as evacuating nor as crashed |
| `HeartbeatLaws.CacheMeans` | store/actual_state.go:63-103 | of a DEA heard from the cache holds exactly what it last reported, unchanged states as they were, and of the others what it held |
| `HeartbeatLaws.StoreMeans` | store/actual_state.go:42-128 | so does the store, where an unchanged state keeps the time it was first reported with |
| `HeartbeatMerge.MergeStep` | store/actual_state.go:63-108 | whichever DEA comes next, cache, saves, deletions and evacuations stay what the reports merged so far require |
| `HeartbeatStores.IndexAfterMerge` | store/actual_state.go:63-107 | after a DEA's report the index is again the exact inverse of the cache, with no empty DEA |
| `HeartbeatStores.HeartbeatStore.GetDeaCache` | store/actual_state.go:234-258 | the set of present DEAs is read anew once a heartbeat period has passed, else kept; fails exactly if it is to be read and cannot be |
| `HeartbeatStores.HeartbeatStore.HeartbeatsForNodes` | store/actual_state.go:212-232 | splits the stored nodes into those of present DEAs, each returned once, and the keys of the others |
| `HeartbeatStores.HeartbeatStore.GetInstanceHeartbeats` | store/actual_state.go:144-179 | returns all nodes of present DEAs and deletes exactly the rest; a failure deletes only such nodes |
| `HeartbeatStores.HeartbeatStore.LoadCache` | store/actual_state.go:13-40 | a due reload that succeeds makes cache and store agree whatever the cache held; one that fails leaves the cache alone |
| `HeartbeatStores.HeartbeatStore.FillCaches` | store/actual_state.go:22-32 | both levels are rebuilt to agree with each other |
| `HeartbeatStores.HeartbeatStore.TakeIn` | store/actual_state.go:73-88 | unchanged instances are not rewritten; all others are cached, indexed and queued for saving; newly evacuating ones are returned |
| `HeartbeatStores.HeartbeatStore.DropUnreported` | store/actual_state.go:90-103 | what the DEA no longer reports leaves the index and the cache and is queued for deletion, nothing else |
| `HeartbeatStores.HeartbeatStore.MergeReport` | store/actual_state.go:63-107 | merges one DEA's report and keeps the index exact |
| `HeartbeatStores.HeartbeatStore.MergeAll` | store/actual_state.go:63-108 | in any order of DEAs, each entry of a reporting DEA is as reported and every other as it was, and the saves, deletions and evacuations follow from that |
| `HeartbeatStores.HeartbeatStore.WriteReports` | store/actual_state.go:110-128 | saves, then deletes; the error is the first request that fails, and each node is then as it was, as reported, or gone because reported no more |
| `HeartbeatStores.HeartbeatStore.SyncHeartbeats` | store/actual_state.go:13-142 | reloads exactly when the refresh interval is over, rereads presence when its time is over, keeps the nodes of present DEAs; from agreement, or after a reload, the call succeeds unless a request fails, replaces the reporting DEAs' nodes, keeps cache and store in agreement, and returns exactly the instances reported as evacuating that were known neither so nor as crashed; where a write fails the index stays exact and each node is as it was, as reported, or gone because reported no more |
| `HeartbeatStores.HeartbeatStore.LatestReports` | store/actual_state.go:58-61 | the last report of each DEA in the batch counts |
| `HeartbeatTheorems.OneByOneReplaces` | store/actual_state.go:42-142 | syncing reports one at a time has the effect of replacing by the last report of each DEA |
| `HeartbeatTheorems.BatchingIsCoalescing` | store/actual_state.go:58-108 | one call with a batch and one call per report in order of arrival leave the same nodes, up to the times of unchanged states |
| `HeartbeatTheorems.BatchedCachesAgree` | store/actual_state.go:63-108 | and so do both levels of the caches that go with the nodes |
| `HeartbeatTheorems.CacheAfterIsUnique` | store/actual_state.go:63 | the resulting cache does not depend on the order in which DEAs are visited |
| `HeartbeatTheorems.OneStartPerEvacuation` | store/actual_state.go:73-88 | between two calls that return the same instance for evacuation, some call saw it otherwise or a reload lost it, also if writes failed in between |
| `Freshness.FreshIffUnbroken` | store/freshness.go:15-55 | the state is judged fresh exactly when bumps have followed each other without a gap of a whole time to live, a deletion or a failed read, for at least that long |
| `Freshness.FailuresOnlyDelay` | store/freshness.go:19-36 | a failing read can only delay freshness, never cause it |
| `Freshness.RevokedIsBroken` | store/freshness.go:15-17 | after a recorded deletion no chain of bumps is left |
| `Freshness.FreshnessStore.BumpActualFreshness` | store/freshness.go:19-36 | adds exactly one bump to the history if the write takes effect, reported or not, and none if it is lost |
| `Freshness.FreshnessStore.RevokeActualFreshness` | store/freshness.go:15-17 | adds exactly one deletion to the history if it takes effect, and none if it is lost |
| `Freshness.FreshnessStore.IsActualStateFresh` | store/freshness.go:38-55 | no verdict exactly if the read fails; else fresh exactly if an unbroken chain of bumps lies behind |
| `Freshness.FreshnessStore.VerifyFreshness` | store/freshness.go:57-68 | lets a caller through exactly if the key can be read and an unbroken chain of bumps lies behind |
| `Syncers.FreshMeansSyncing` | actualstatelisteners/actual_state_syncer.go:104-116 | when the state is fresh, every bump of the unbroken chain ended a sync that succeeded within a heartbeat period |
| `Syncers.EvacuationStartsAreDue` | actualstatelisteners/actual_state_syncer.go:128-143 | every start asked for an evacuating instance, made at its own reading of the clock, is due by the time the sender reads it, unsent and exempt from verification |
| `Syncers.EvacuationsPosted` | actualstatelisteners/actual_state_syncer.go:128-151 | all of them are considered, and each is posted exactly if fewer before it were accepted than is left of the limit; if all are accepted, the smaller of what is left and their number |
| `Syncers.PostsAreForEvacuees` | actualstatelisteners/actual_state_syncer.go:128-143 | each post is for the app, version and index of one of them, at once, with priority 2, a grace period's keep-alive and no verification, and the body names that index |
| `Syncers.RevokedKeyHoldsStarts` | actualstatelisteners/actual_state_syncer.go:107-151 | after a failed sync whose deletion of the key took effect the gate is closed, however long the state had been fresh |
| `SyncerScenarios.LimitIsForGood` | actualstatelisteners/actual_state_syncer.go:145-151 | a listener with a limit of one, the state fresh at both instants and every post accepted, is asked to start a and later b elsewhere; the start of index 3 for a is the only one it ever posts |
| `SyncerScenarios.HeldForGood` | actualstatelisteners/actual_state_syncer.go:107-151 | a listener of a fresh state gets the first report of a evacuating in a sync that fails: the start of a is asked for then and never again, a stays cached, and no start is posted though every post would be accepted |
| `Syncers.ActualStateSyncer.Heartbeat` | actualstatelisteners/actual_state_syncer.go:75-86 | a received report goes to the end of the mailbox |
| `Syncers.ActualStateSyncer.SyncOnce` | actualstatelisteners/actual_state_syncer.go:88-172 | each report received is handed to the store exactly once and in order; the key is deleted exactly after a failure and bumped exactly after a timely success; a successful batch leaves cache and store in agreement, also after a reload; starts are asked for exactly the newly evacuating instances |
| `Syncers.ActualStateSyncer.StartElsewhere` | actualstatelisteners/actual_state_syncer.go:128-151 | no start is posted exactly if the state cannot be seen to be fresh or the limit of all turns together is used up; else those of the evacuating instances are, for their own indices, as far as what is left of it |
| `Syncers.ActualStateSyncer.Settle` | actualstatelisteners/actual_state_syncer.go:107-116 | a deletion is attempted exactly after a failure and a bump exactly after a success within the period, and the history gains what takes effect |
| `Fetchers.FilterPage` | desiredstatefetcher/desired_state_fetcher.go:123-129 | every app in the batch is started, and staged or pending, and every such app of the page has its key there |
| `Fetchers.BatchesNameTheWanted` | desiredstatefetcher/desired_state_fetcher.go:123-129 | the batches of all pages name exactly the apps that some page has as started and as staged or pending |
| `Pipeline.StepKeepsInv` | hm/manage_desired_state.go:72-125 | every step of fetcher, analyzer and main process keeps the protocol's invariant |
| `Pipeline.NeverStuck` | desiredstatefetcher/desired_state_fetcher.go:131-135 | in every reachable state short of the end some process can move; in particular the fetcher cannot block on an analyzer that has left |
| `Pipeline.StepDecreases` | hm/manage_desired_state.go:72-125 | every step decreases a natural-number measure |
| `Pipeline.EveryRunEnds` | hm/manage_desired_state.go:72-125 | every interleaving has at most 4n+32 steps for n pages and can only end with all three processes at rest |
| `Pipeline.CheckedAnalyzerHasEverything` | analyzer/analyzer.go:101-105 | once past the success check the analyzer has every batch of a fetch that went well, and names exactly the wanted apps; otherwise nothing is ever saved or sent |
| `Pipeline.NoWantedAppIsRemoved` | analyzer/analyzer.go:107-114 | in such a round no app that a page has as started and as staged or pending is treated as one to remove, and each running app that no page has so is |
| `Codec.AtoiOfItoa` | store/store.go:86-88 | a printed integer reads back as itself exactly when it fits the machine's int |
| `Codec.ReadBackCSV` | models/instance_heartbeat.go:32-68 | a written node value reads back as it was: index, state, time and DEA |
| `Codec.TextsAreThese` | models/instance_heartbeat.go:32-68 | the value written is the index, STARTING, RUNNING, CRASHED or EVACUATING, the time with one decimal, and the DEA, between commas |
| `Codec.ReadBackKey` | store/actual_state.go:212-232 | splitting a node's path gives back app, version and instance |
| `Codec.KeyIsThis` | store/actual_state.go:260-262 | the path is the schema root, /apps/actual/, guid and version with a comma between them, a slash and the instance guid |
| `Codec.NodeKeysAreInjective` | store/actual_state.go:260-262 | different instances never share a path |
| `Codec.NodeRoundTrip` | store/actual_state.go:272-277 | the node built for a heartbeat, read back by key and value, is that heartbeat |
| `Codec.StartKeysCollideIff` | models/pending_messages.go:136-138 | for all apps and indices, two keys are equal exactly if they are of the same index of the same app or of two whose guids and versions overlap across the dash |
| `Codec.StartKeysAreInjective` | models/pending_messages.go:136-138 | with guids and versions of fixed length, different app, version and index give different pending-start keys |
| `Codec.StartKeysCanCollide` | models/pending_messages.go:136-138 | without that they can share one |
| `Compact.OldAndUnversionedKeys` | store/compact.go:26-55 | deletes exactly the top-level keys that are neither locks nor version roots of at least the current version, and never one that begins with /hm/locks |
| `Compact.SparedAre` | store/compact.go:26-55 | spared is exactly what begins with /hm/locks or is /hm/v and the digits of a number not below the version |
| `Compact.CurrentRootIsSpared` | store/compact.go:39-48 | the root the store itself prints is spared exactly when the version is not negative |
| `Compact.OlderRootsGo` | store/compact.go:46-48 | a printed version root is spared exactly when it is not older than the current one |
| `Compact.Compactor.DeleteEmptyDirectoriesUnder` | store/compact.go:68-92 | answers true exactly for a directory with no file at or below it, and logs the deletions of such directories |
| `Compact.DeletedAreHollow` | store/compact.go:68-92 | the keys deleted are those of directories with no file below them, all of them and no others |
| `Compact.FilesAreKept` | store/compact.go:68-92 | pruning loses no file, and a directory goes exactly when it has none |
| `Compact.PruningIsIdempotent` | store/compact.go:68-92 | a second pass deletes nothing |
| `Compact.DeletionsPrune` | store/compact.go:68-92 | the tree without the nodes whose keys were deleted is the pruned tree |
| `Compact.AfterThePass` | store/compact.go:68-92 | after the pass nothing is left exactly if there was no file; else every file is, and another pass deletes nothing |
| `Compact.DeletedBottomUp` | store/compact.go:78-86 | every directory is deleted after all its children, so it is empty by then |
| `Metrics.CountApp` | analyzer/app_metrics.go:37-60 | one app adds its contribution to each of the ten counters |
| `Metrics.CountInstances` | analyzer/app_metrics.go:58-60 | every app, desired or not, adds its running and crashed instances and its crashed indices |
| `Metrics.CountApps` | analyzer/app_metrics.go:21-71 | every counter is the sum over all apps in whatever order, and -1 after a failed analysis |
| `Metrics.AppsCounted` | analyzer/app_metrics.go:37-56 | the five counters of apps are the sizes of sets of apps: undesired ones with a starting or running heartbeat, desired ones, those pending staging, those with a heartbeat for every desired index, and those without |
| `Metrics.InstancesCounted` | analyzer/app_metrics.go:43-60 | the five others count per app heartbeats that start or run, crashed ones, indices where all have crashed, desired instances, and desired indices with no heartbeat |
| `Metrics.CountersAddUp` | analyzer/app_metrics.go:37-60 | fully reporting and deficient apps make up the desired ones, missing indices are the desired instances less the reporting indices and never negative, and no more indices count as crashed than instances have crashed |

## Left out

- Posts, HTTP and NATS, TLS, consul locks, the command line and signals: what the controller answers to its n-th request is given.
- `sendStartMessage` over NATS (`sender/sender.go:135-161`): nothing calls it.
- JSON, base64, logging, message ids and guid generation: not needed by any property here.
- The etcd adapter: a map whose requests fail as given; its concurrency limits and directory nodes are not part of this model.
- Evacuator and API handlers: a start they inject without verification would be outside the rate-limited runs.
- Other writers of the store: an outside deletion breaks cache agreement until the next reload; only the reload is modelled.
- Sharing of app objects: `Analyze` and `Send` work on snapshot values and an app object is made for each analysis, so aliasing of `*App` between the apps map and the sender is not captured.
- `GetApps` grouping, `GetInstanceHeartbeatsForApp`, the usage tracker and the shredder's schedule.
- Malformed stored values: `GetInstanceHeartbeats` gives up silently on one (`store/actual_state.go:162-164`); stored values are taken to be written by this code.
- Other spellings `ParseFloat` and `Atoi` accept (exponents, a leading plus): the printer never produces them.
- Float rounding: state times are integer tenths, priorities are reals, the priority of an app with no desired instances is 0 instead of NaN and is never used.
- The stability of the standard sort: sorting is an insertion sort that promises some ordered permutation, which is all the source relies on.
- Receives by the main process from closed channels are not counted as steps; they change nothing.
- Expiry of crash counts in the store: the backoff run takes them as retained.
- Analyzers.Analyzer.Analyze: reads the clock once per call, where the code reads it again for each app.
- The queues of the model are keyed by app, version and index themselves; what the printed keys lose is stated in `Codec.StartKeysCollideIff`.
- CrashTurns.TurnsBackOff: says nothing of counts raised by turns that could not save their starts.
