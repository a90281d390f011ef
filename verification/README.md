# Discovery: a verified model

A Dafny model of a service registry with replication. Servers hold instances under
application, environment, zone and hostname; clients register, send heartbeats and wait
for changes by long polls; servers pass changes on to each other; a client library keeps
a view of the applications it watches and chooses instances by weight.

Source that changes things step by step is modelled by objects and methods with loops,
each proved against a function on values; the theorems are about those functions and
about every run of them.

| file | contents |
|---|---|
| `Wrappers.dfy`, `Sequences.dfy` | optional values; sequences that name each element once |
| `Keys.dfy`, `Instances.dfy`, `GuardModel.dfy` | keys of the two dictionaries, instances, one application's zones, the heartbeat guard, as values |
| `RegistryModel.dfy` | the registry's state, its operations as functions, atomic steps and runs |
| `SetEffect.dfy` | what a Set does to each host, without its loop, and when it changes nothing |
| `Structure.dfy`, `AppIds.dfy`, `Polling.dfy`, `Waiters.dfy`, `Answers.dfy`, `Channels.dfy`, `Views.dfy`, `Versions.dfy`, `Eviction.dfy`, `GuardAccounting.dfy`, `Passes.dfy`, `Bootstrap.dfy` | what every run of the registry keeps, and what its answers show |
| `Guard.dfy`, `AppObjects.dfy`, `Registry.dfy` | the objects, in place, proved against those functions |
| `Traversal.dfy`, `PollAnswers.dfy`, `RegistrySteps.dfy` | what the loops and the parts of those methods compute |
| `Flood.dfy`, `FloodLists.dfy`, `Nodes.dfy`, `Discovery.dfy`, `Repair.dfy`, `ZoneRepair.dfy` | replication between servers, and how drifted copies come together |
| `Proportion.dfy`, `RepeatedCalls.dfy`, `Scheduling.dfy` | weighted zone selection, once and call after call |
| `ClientModel.dfy`, `Wakeup.dfy`, `Client.dfy`, `Delivery.dfy` | the client's watch and notify protocol, and what becomes of an answer |

Conventions. A registry call is one atomic step; `now`, random draws and the order of a
map iteration are arguments of the step or ghost results of the method, so a statement
over all steps covers every choice. `pick` is the zone that a wildcard lookup meets
first. Timestamps and counters are unbounded integers; weights are 64-bit words with
wrap-around. The eviction ratio 0.85 is the integer division 17n/20.

Where the code departs from its own documentation, the model follows the code:

- `evict` takes a lock and then calls functions that take it again
  (registry/registery.go:322-328, 137); locks are not part of the model and a pass is one step.
- A fetch for all zones stores every zone under one key (model/instance.go:317) and keeps
  one of them; the tests expect one entry per zone (discovery/register_test.go:205).
  `Structure.WildcardFetchKeepsOneZone` says exactly what is lost and
  `Structure.WildcardFetchLosesAHost` gives a run.
- `Set` does not raise the version (registry/registery.go:190-200) although doc/register.md:16-20
  says it should: `Versions.SetSoundIff` has the exact condition on the arguments under which
  that does no harm, `Versions.SetHidesDeparture` a run where it does.
- The dictionary keys are joined with a dash and can collide: `Polling.ParkedUpToDateIffKeysAgree`.
- Two application ids can share an entry, whose App then carries the id of the first, so that the
  groups of `FetchAll` mix them: `AppIds.OwnAppidsIffAgree`.
- Instances registered under the empty zone share the wildcard's name:
  `Structure.StructuredIffWildcardFree`.
- The version restarts when an application's last instance leaves:
  `Versions.RebirthVersion`, `Versions.RebirthHidesChange`.
- `Node.call` reads the peer's response code and drops it (registry/node.go:83-91) although
  registry/node_test.go:125-174 expects it back: `Repair.AsCommittedNothingIsRepaired` for the
  code as it is, `Repair.HeartbeatRepairsRegistriesIff` for the answer coming through.
- `Node.call` sends no status (registry/node.go:55-76), and the register handler returns before
  it registers when the status is 0 (http/discovery.go:24-27). The status that arrives is a
  parameter here. With status 0 no heartbeat repairs anything
  (`Repair.UnsentStatusRepairsNothing`), and a registration that a node forwards is refused, so
  it stays where the client sent it (`FloodLists.UnsentStatusStaysAtOrigin`);
  `Flood.RegisterReachesAllOnce` and the other results on spreading are for forwarded
  registrations that carry a status of 1 or 2.
- `Polls` reports the error of its last fetch only, and the request handler drops the data
  whenever there is one (http/discovery.go:125-129): `PollAnswers.NewsWithErrorIff`,
  `PollAnswers.NewsDropped`. The references of a poll that parks under such an error are never
  given back: `Answers.ParkedBatchIsAnsweredAtOnce`.
- A waiter that a broadcast served gives up a reference all the same (http/discovery.go:139-141),
  which may be that of a later poll of the same host: `Answers.ServedTakesLaterReference`.
- The minute tick closes the heartbeat window before it evicts (registry/registery.go:310-312),
  so once heartbeats stop, protection is on and only the one-hour limit removes anything:
  `Passes.TickRemovesIff`, `Passes.PassesRemoveAllSilent`.
- A broadcast takes every waiter off the list, also those it has nothing to tell
  (registry/registery.go:266-274): `Answers.LeftUnansweredIff`, `Answers.PassLeavesUnansweredIff`,
  `Answers.LastLeavesUnanswered`.
- `UseScheduler` writes the scaled weights back, and the next call scales them again
  (naming/naming.go:119-129), so after few calls they leave 64 bits and the proportion is gone:
  `RepeatedCalls.ThreeCallsBreakProportion`. `RepeatedCalls.AllFitIff` and
  `RepeatedCalls.PositiveAllFitIff` say for how many calls everything fits, from the weights
  before the first; for those `SchedulingObject.CallsMeetProportion` and
  `SchedulingObject.CallsMeetRatios` hold.

## Model

| member | source | states |
|---|---|---|
| `Keys.AppsKeyInjective` | registry/registery.go:94-96 | for environments without a dash, application keys are injective |
| `Keys.PollKeyInjective` | registry/registery.go:98-100 | the same for the keys of parked polls |
| `Keys.DashFreeKeysAgree` | registry/registery.go:94-100 | names with dash-free environments collide under one key exactly when under the other |
| `Keys.DashedEnvCollides` | registry/registery.go:94-100 | a dash in an environment makes two applications share an entry but not a poll key |
| `GuardObject.Guard.SetExp` | registry/guard.go:19-24 | expectation is twice the count, threshold 17/20 of it |
| `GuardObject.Guard.IncrExp` | registry/guard.go:26-31 | one more instance raises the expectation by two and recomputes the threshold |
| `GuardObject.Guard.DecrExp` | registry/guard.go:33-40 | one instance less, suppressed when the expectation is not positive |
| `GuardObject.Guard.UpdateFac` | registry/guard.go:42-44 | closes the heartbeat window |
| `GuardObject.Guard.IncrFac` | registry/guard.go:46-48 | counts one heartbeat |
| `GuardObject.Guard.Ok` | registry/guard.go:50-56 | protection is on exactly when the closed window is below the threshold |
| `AppObjects.App.constructor` | model/instance.go:115-121 | a new zone is empty with version 0 |
| `AppObjects.App.UpdateLatest` | model/instance.go:169-174 | the zone's timestamp never falls and is at least the time given |
| `AppObjects.App.NewInstance` | model/instance.go:137-154 | the newer of two copies by LatestTimestamp stays, a newcomer takes over the UpTimestamp |
| `AppObjects.App.Renew` | model/instance.go:156-167 | a heartbeat changes RenewTimestamp only, and answers whether the host is there |
| `AppObjects.App.Cancel` | model/instance.go:176-190 | removes one host, returns it stamped and how many remain |
| `AppObjects.App.Instances` | model/instance.go:124-134 | a copy of each instance once, in some order |
| `AppObjects.App.Set` | model/instance.go:199-233 | changes hosts one by one and stops at the first unknown host or undecodable metadata, keeping what was done |
| `AppObjects.Apps.constructor` | model/instance.go:241-245 | a new application has no zone and version 0 |
| `AppObjects.Apps.NewApp` | model/instance.go:247-261 | finds or creates a zone; either way the version strictly rises |
| `AppObjects.Apps.App` | model/instance.go:263-278 | the zone asked for, or each zone once for the wildcard |
| `AppObjects.Apps.UpdateLatest` | model/instance.go:280-287 | the version strictly rises and is at least the time given |
| `AppObjects.Apps.Del` | model/instance.go:289-293 | removes exactly that zone |
| `AppObjects.Apps.InstanceInfo` | model/instance.go:295-326 | not modified, nothing found, or the status-filtered copy of one zone with the version |
| `AppObjects.Apps.CopyVisible` | model/instance.go:305-318 | the copy holds exactly the instances that pass the status filter |
| `AppObjects.RegisterInstance` | registry/registery.go:103-104 | finding or creating the zone and storing the instance there, what is stored, and whether the path was free |
| `AppObjects.CancelInstance` | registry/registery.go:138-146 | cancelling raises the version and drops the requested zone when it runs empty |
| `AppObjects.RenewInstance` | registry/registery.go:117-119 | one entry after a heartbeat to the App that the lookup met |
| `AppObjects.SetInstances` | registry/registery.go:195-197 | one entry after a Set on the App that the lookup met |
| `RegistryObject.Registry.constructor` | registry/registery.go:75-86 | a new registry holds only the scheduler settings it loaded |
| `RegistryObject.Registry.FirstApp` | registry/registery.go:64-73 | the zone that a lookup meets first |
| `RegistryObject.Registry.Register` | registry/registery.go:102-110 | stores, counts a new path in the guard, answers and clears the polls parked under the key |
| `RegistryObject.Registry.Renew` | registry/registery.go:112-122 | renews one instance and counts a heartbeat, or changes nothing |
| `RegistryObject.Registry.Cancel` | registry/registery.go:124-130 | cancels, offers the waiters the new view, and lowers the expectation exactly when something was removed |
| `RegistryObject.Registry.CancelAt` | registry/registery.go:132-154 | removes the instance, the empty zone and the empty application; then clears the waiters of the key, each offered the view after the removal, or nobody if nothing was removed |
| `RegistryObject.Registry.Set` | registry/registery.go:190-200 | applies the change to the first matching zone, does not raise the version, and on success broadcasts the changed view |
| `RegistryObject.Registry.Fetch` | registry/registery.go:169-188 | nothing found, not modified, or the view together with the scheduler's settings; what they hold is said in `Views` |
| `RegistryObject.Registry.Broadcast` | registry/registery.go:257-283 | offers each waiter of the key as many sends as its count and removes the key |
| `RegistryObject.Registry.Polls` | registry/registery.go:202-255 | answers at once on a new channel, or parks one reference per listed application and returns the channel of the first |
| `RegistryObject.Registry.Ask` | registry/registery.go:210-235 | which applications have news, which are missing, and the error of the last fetch |
| `RegistryObject.Registry.Park` | registry/registery.go:236-254 | parked references after the loop; a host already parked keeps its older connection |
| `RegistryObject.Registry.DelConns` | registry/registery.go:359-379 | takes one reference per listed application where the host is parked |
| `RegistryObject.Registry.ResetExp` | registry/registery.go:285-303 | the expectation becomes twice the number of live instances |
| `RegistryObject.Registry.UpdateFac` | registry/registery.go:311 | closes the heartbeat window and changes nothing else |
| `RegistryObject.Registry.Tick` | registry/registery.go:305-317 | the minute tick: the window is closed, and the pass after it works under the guard that results |
| `RegistryObject.Registry.Reload` | registry/scheduler.go:53-62 | new settings raise the version of an existing application and wake its polls |
| `RegistryObject.Registry.FetchAll` | registry/registery.go:157-166 | every stored instance once, each in the group of its App's application id |
| `RegistryObject.Registry.Expirees` | registry/registery.go:319-340 | collects exactly the expired instances, each once, and the number of all |
| `RegistryObject.Registry.Evict` | registry/registery.go:319-357 | one pass cancels a selection of distinct expired paths of the allowed size, drawn by the in-place swaps |
| `RegistryObject.Registry.CancelRandom` | registry/registery.go:350-356 | the in-place shuffle: for the numbers drawn, the copies end in the drawn order and its first ones are cancelled in turn |
| `RegistrySteps.DrawnShuffled` | registry/registery.go:350-354 | whatever is drawn, the shuffled copies are still those of the expired instances, each once |
| `PollAnswers.NewsWithErrorIff` | registry/registery.go:215-235 | a poll has news and reports an error exactly when some listed application has news and the last one has none |
| `PollAnswers.NewsDropped` | http/discovery.go:125-129 | a reachable registry and a poll whose answer holds news of the first application under the error "not modified" |
| `Structure.RegisterHolder` | registry/registery.go:102-110 | a registration changes one path and merges there |
| `Structure.CancelHolder` | registry/registery.go:132-154 | a cancel empties one path, returns what was there with the time of the cancel, and touches no other |
| `Structure.SetLocs` | registry/registery.go:190-200 | Set neither adds nor removes an instance |
| `Structure.EvictRemoves` | registry/registery.go:341-357 | every victim's cancel succeeds and nothing else is removed or changed |
| `Structure.RunStructured` | registry/registery.go:52-110 | over every run each instance sits at the path of its own fields, no zone and no application is empty, and versions are at least 1 |
| `Structure.StructuredIffWildcardFree` | model/instance.go:263-278 | that structure holds over all runs exactly when zone names do not mix the empty name with others |
| `Structure.WildcardZoneBreaks` | registry/registery.go:132-154 | a run in which evicting one host deletes another, live one |
| `Structure.NothingFoundIffNoneLive` | registry/registery.go:169-188 | a fetch from timestamp 0 finds nothing exactly when no matching instance is live |
| `Structure.StructuredVersion` | model/instance.go:247-261 | every stored application has a version of at least 1 |
| `Structure.WildcardFetchKeepsOneZone` | model/instance.go:306-318 | a fetch for all zones returns one zone's view, complete only if there is one zone |
| `Structure.WildcardFetchLosesAHost` | model/instance.go:306-318 | a run with one host in each of two named zones, where a fetch for all zones shows one of them |
| `Views.NamedZoneAnswer` | model/instance.go:295-326 | which of the three answers a fetch in a named zone gets, and that a view has that one key with exactly the stored instances whose status shares a bit with the mask |
| `Views.WildcardAnswer` | model/instance.go:295-326 | the same for all zones: found as soon as there is a zone, and it shows one of them |
| `Views.AnswerCarriesVersion` | model/instance.go:298-305 | an answer carries the entry's version, which is above the one asked from, and asking again from it gives "not modified" |
| `Views.AnswerCarriesSettings` | registry/registery.go:182-186 | over every run an answer carries the settings that were loaded last under the key, if any |
| `Views.ReloadIsNews` | registry/scheduler.go:53-61 | a reload strictly raises the version of an existing entry and changes no instance, so who was up to date finds the new settings |
| `Views.PolledViews` | registry/registery.go:207-228 | a poll has an answer exactly for the listed applications with news, each with the entry's version, its settings and exactly the instances that are up |
| `Views.MissedAre` | registry/registery.go:210-213 | the applications reported missing are those with nothing in the zone asked for |
| `Views.ErrorIsOfLast` | registry/registery.go:207-219 | the error reported is decided by the last application of the list alone |
| `Views.OfferedViews` | registry/registery.go:257-283 | what a broadcast offers a waiter is such a view of the zone it asked for |
| `Polling.RunKeeps` | registry/registery.go:202-283 | the inductive invariant of parked polls holds in every state of every run |
| `Polling.ParkedUpToDateIffKeysAgree` | registry/registery.go:94-100 | no parked poll is ever out of date, in all runs over a set of names, exactly when the two key functions agree on those names |
| `Polling.CollisionLeavesStale` | registry/registery.go:257-283 | names that collide under one key only give a run that leaves a waiter unanswered |
| `Waiters.PollsCount` | registry/registery.go:236-254 | parking adds one reference per time an application is listed |
| `Waiters.DelCounts` | registry/registery.go:359-379 | removal takes one reference per listing and stops at zero |
| `Waiters.BroadcastCount` | registry/registery.go:257-283 | a broadcast clears every count of its key and no other |
| `Waiters.EveryVictimBroadcasts` | registry/registery.go:350-356 | where the structure holds, a pass broadcasts to the applications of all its victims |
| `Waiters.CountsAreWaiters` | registry/registery.go:202-283 | over every run each stored count is the number of waiters since the last broadcast, and is at least 1 |
| `Channels.PolledChannelIsStored` | registry/registery.go:236-254 | a poll that parks is given the channel its connection is stored with, the host's older one or a new one, and what every connection is afterwards |
| `Channels.MismatchCountsAsZero` | registry/registery.go:204-206 | a poll whose timestamps do not match its applications is answered as if it had none |
| `Channels.RunApart` | registry/registery.go:236-254 | over every run a channel about to be handed out is held by no connection, and no two hosts hold the same |
| `Channels.PolledChannelIsOwn` | registry/registery.go:224-254 | in every run a poll answered at once gets a channel nobody holds; one that parks shares its channel with no other host |
| `Channels.GivenOutOnce` | registry/registery.go:224-241 | over every run a channel that a poll was given, to be answered on or to park on, is never handed out as a new one again |
| `Channels.NextBroadcastReaches` | registry/registery.go:257-283 | over every run: unless its host gives up, the next broadcast of its first application offers a parked poll the view on exactly the channel it was given, as often as requests wait, exactly when something lives in the zone it asked for; for environments without a dash |
| `Channels.NextPassReaches` | registry/registery.go:350-356 | and the same when that broadcast is the one of a victim of an eviction pass |
| `Answers.UnansweredIffNoneLives` | registry/registery.go:257-283 | a broadcast leaves a waiter unanswered exactly when no instance of its application is stored in the zone it asked for |
| `Answers.LeftUnansweredIff` | registry/registery.go:257-283 | the same over every run, for the broadcasts of register, cancel, set and reload |
| `Answers.PassLeavesUnansweredIff` | registry/registery.go:350-356 | and for the broadcast of each victim of each pass: its key's waiters go, left unanswered exactly when nothing lives where they asked after that cancel |
| `Answers.LastLeavesUnanswered` | registry/registery.go:257-283 | register, park, cancel: the waiter is gone without an offer, and a registration after that finds nobody |
| `Answers.ParkedBatchIsAnsweredAtOnce` | http/discovery.go:125-129 | a poll that parks always has an error to report; the handler for several applications answers with any error at once, so the references it parked stay while nobody waits |
| `Answers.ServedTakesLaterReference` | http/discovery.go:131-142 | a run in which the request that was served takes away the reference of the host's next poll, and news for that one is offered to nobody |
| `Versions.RegisterRaises` | registry/registery.go:88-110 | registering raises one version to the instance's timestamp, or by one if that is behind, and leaves the others |
| `Versions.CancelRaises` | registry/registery.go:132-154 | a successful cancel raises the version to its time, or by one if that is behind, or forgets the application; a failed one changes nothing |
| `Versions.EvictRaises` | registry/registery.go:350-356 | a pass raises the version of every application it takes from, to at least the time of the pass |
| `Versions.RunProgress` | model/instance.go:247-287 | while an application lives and no Set writes anything new into it, its version only rises, and equal versions mean equal content up to heartbeats |
| `Versions.NotModifiedHidesNothing` | registry/registery.go:169-188 | "not modified" is answered exactly when the version is unchanged, and then every status-filtered view is the same up to heartbeats |
| `SetEffect.SetHosts` | model/instance.go:199-233 | every field of every host after a Set, from the arguments and the stored values alone, and when it succeeds |
| `SetEffect.SetSucceedsIff` | model/instance.go:199-233 | a Set succeeds exactly when it names a host, knows them all, can decode all metadata, and the last status cut to 32 bits is 1 or 2 |
| `SetEffect.SetChangesNothingIff` | model/instance.go:199-233 | a Set changes nothing exactly when each host that its loop comes to holds already what is written: last status, set times, metadata |
| `SetEffect.AlreadySetEntryByEntry` | model/instance.go:199-233 | for distinct hosts that condition is one per entry, with the two set times left out where decoding fails |
| `SetEffect.TakenBack` | model/instance.go:199-233 | with a host listed twice the condition per entry is not exact |
| `Versions.SetSoundIff` | registry/registery.go:190-200 | after a Set a poller with the old version is told nothing changed, and the version stays sound exactly when the Set writes nothing new |
| `Versions.SetHidesDeparture` | doc/register.md:16-20 | an instance set to waiting leaves the view while pollers hear "not modified" |
| `Versions.RebirthVersion` | registry/registery.go:147-152 | which versions a reborn application hides behind |
| `Versions.RebirthHidesChange` | registry/registery.go:147-152 | a departure and a new arrival hidden by an older timestamp |
| `Eviction.EvictAlwaysEnabled` | registry/registery.go:341-349 | a draw of the required size always exists |
| `Eviction.EvictRemovesExactly` | registry/registery.go:319-357 | a pass removes min(expired, size - 17*size/20) instances, all expired, for any random choices, and changes no survivor |
| `Eviction.EvictMakesProgress` | registry/registery.go:341-349 | a pass removes something exactly when something has expired |
| `Passes.ExpiredByProtection` | registry/registery.go:319-340 | a pass may take exactly those silent for more than 3600 seconds under protection, and for more than 90 seconds without |
| `Passes.PassRemovesIff` | registry/registery.go:319-357 | a pass removes something exactly when some stored instance was silent for more than 3600 seconds, or for more than 90 with the closed window at the threshold; only such go, and as many as there are up to size - 17*size/20 |
| `Passes.PassInRunRemovesIff` | registry/registery.go:319-357 | the same in every run from the start, with the guard replaced by history: heartbeats of the closed window against 17/20 of twice the live and evicted instances |
| `Passes.TickRemovesIff` | registry/registery.go:305-340 | a tick removes something exactly when somebody has been silent for more than 3600 or 90 seconds, as the window that it closes decides |
| `Passes.PassesRemoveAllSilent` | registry/registery.go:305-357 | in any run without registrations and heartbeats, windows closing and all else allowed, as many passes as there are instances leave nobody who had been silent for 3600 seconds |
| `Passes.UnprotectedPassesRemoveAllExpired` | registry/registery.go:305-357 | and as many passes that ran unprotected leave nobody who had been silent for 90 seconds |
| `Passes.RecentGoesOnlyUnprotected` | registry/registery.go:319-340 | an instance silent for at most an hour goes only while the last closed window has the threshold of heartbeats, and after more than 90 seconds |
| `GuardAccounting.CancelExpectation` | registry/registery.go:124-130 | a cancel lowers the expectation by two exactly when it removes, so the positivity test never suppresses it |
| `GuardAccounting.GuardAccounts` | registry/guard.go:19-48 | over every run the expectation is twice (live + evicted since the last reset), the threshold is 17/20 of it, and the closed window counts the successful heartbeats |
| `GuardAccounting.ProtectedEvictSparesRecent` | registry/registery.go:319-340 | with too few heartbeats in the closed window only instances silent for over an hour are evicted |
| `GuardAccounting.TwoHeartbeatsEachLiftProtection` | registry/guard.go:50-56 | two heartbeats per live instance in the window and no eviction since the reset switch protection off |
| `Bootstrap.Winner` | model/instance.go:137-154 | what remains at a path is the last of the largest timestamps, with the first arrival's UpTimestamp |
| `Bootstrap.MergeKeepsNewest` | discovery/syncUp.go:45-48 | the same for every path after registering any list into any registry |
| `Bootstrap.MergeOrderIndependentIff` | discovery/syncUp.go:45-48 | all orders of a list give the same holders up to UpTimestamp exactly when, at each path, the copies with the largest timestamp agree |
| `Bootstrap.SnapshotRoundTrip` | registry/registery.go:157-166 | a snapshot registered into an empty registry, in any order, rebuilds it with the right expectation; once more changes no instance |
| `Traversal.GroupedIsSnapshot` | registry/registery.go:157-166 | the grouped answer, read in any group order, is such a snapshot |
| `AppIds.OwnAppidsIffAgree` | registry/registery.go:88-110 | in every state of every run each App carries the application id of its instances, exactly when names that share an entry share the id |
| `AppIds.GroupedByAppid` | registry/registery.go:157-166 | then each stored instance is in the group of its own application id and in no other |
| `Traversal.DrawnChoice` | registry/registery.go:341-356 | a prefix of the shuffled copies is a legal selection |
| `NodesObject.Nodes.constructor` | registry/nodes.go:20-45 | own-zone peers replicate, foreign peers relay, lists as configured |
| `NodesObject.Nodes.Replicate` | registry/nodes.go:47-93 | for Replicate and ReplicateSet, the requests one change causes: each own-zone peer but itself, and one drawn peer per foreign zone unless it crossed already |
| `NodesObject.Nodes.MarkUp` | registry/nodes.go:156-162 | the entry with the node's own address becomes up and nothing else changes |
| `Flood.FloodConserves` | registry/nodes.go:47-66 | applied plus still reachable is constant for each node in every delivery order and relay choice |
| `Flood.FloodReachesEachOnce` | discovery/register.go:14-51 | no node applies a change twice; a run has at most one delivery per node meant, and exactly one each when it has ended and all forward |
| `Flood.UnfinishedMeansUnreached` | registry/nodes.go:47-66 | with complete lists each request under way is for a node that has not applied the change, so the number of deliveries left is bounded by the nodes |
| `Flood.RegisterReachesAllOnce` | doc/discovery.md:107-116 | a registration ends exactly after one application on every node of every zone |
| `Flood.RenewReachesAllIffOwnZone` | discovery/register.go:21-51 | heartbeats and cancels reach all nodes exactly when sent to the instance's own zone or there is no other |
| `Flood.FloodRoutes` | registry/node.go:55-67 | at most two hops, only relays cross zones, nothing returns to the origin's zone, and renew and cancel cross only from the instance's zone |
| `Flood.SomethingCanBeDelivered` | registry/nodes.go:47-66 | a request under way can always be delivered |
| `FloodLists.EveryRunEnds` | registry/nodes.go:47-66 | with any sound lists, missing and repeated zone-mates included, every run of any change ends within a number of deliveries given by the lengths of the lists |
| `FloodLists.EndedRunExists` | registry/nodes.go:47-66 | from every node any change has a run that ends, for any sound lists |
| `FloodLists.ZoneMateCount` | registry/nodes.go:52-56 | a zone-mate of the origin applies a registration as often as the origin's list names it |
| `FloodLists.RegisterExactIff` | registry/nodes.go:47-66 | registrations are applied once everywhere, in every ended run from every node, exactly when each own list names each other node of its zone once |
| `FloodLists.OneMountIsEnough` | doc/discovery.md:107-116 | two zones of three nodes that mount one node of each other have such lists |
| `FloodLists.UnsentStatusStaysAtOrigin` | http/discovery.go:24-27 | when forwarded registrations carry no status, every run applies a registration at its origin and nowhere else |
| `DiscoveryObject.Discovery.Register` | discovery/register.go:14-19 | registers, and forwards by the from_zone flag unless it is a replica's copy |
| `DiscoveryObject.Discovery.Renew` | discovery/register.go:21-38 | renews, forwards by the instance's zone, and for a replica's copy compares DirtyTimestamps |
| `DiscoveryObject.Discovery.Cancel` | discovery/register.go:40-51 | cancels and forwards only when something was removed |
| `DiscoveryObject.Discovery.Set` | discovery/register.go:92-100 | forwards even when the change failed here |
| `DiscoveryObject.Discovery.SyncUp` | discovery/syncUp.go:25-52 | registers all answers one after the other; a single answer ends the protected mode; what that leaves is said in `DiscoveryObject.SyncedUp` |
| `DiscoveryObject.SyncedUp` | discovery/syncUp.go:45-48 | after the bootstrap a path is filled exactly when it was before or an answer holds an instance for it; it holds one of those, up to UpTimestamp, and none of them has a larger timestamp |
| `Repair.Node.Renew` | registry/node.go:152-170 | the follow-up registration and the peer's status for each call result |
| `Repair.OneRoundRepairsIff` | registry/node.go:152-170 | with the peer's answer through, exactly when one heartbeat leaves both copies with the larger DirtyTimestamp, for a peer that is sent a copy and for a relay, given the status and clock that the following registration meets |
| `Repair.TakenOver` | http/discovery.go:19-41 | every field of both copies after an accepted registration that a heartbeat causes, where the clock is not behind the copy met: the other side's copy under the status sent and the receiver's clock, a DirtyTimestamp that was sent and the UpTimestamp that was held kept |
| `Repair.HeartbeatRepairsRegistriesIff` | discovery/register.go:21-38 | the same for two whole registries, and no other path of either changes |
| `Repair.RelayNeverRepairs` | discovery/register.go:28-31 | a relay in another zone never compares, so the origin never repairs a divergent copy there; the relay's own zone-mates may |
| `Repair.AsCommittedNothingIsRepaired` | registry/node.go:83-91 | with the response code dropped, neither copy changes |
| `Repair.UnsentStatusRepairsNothing` | http/discovery.go:24-27 | with the code through but no status sent, neither copy changes either |
| `Repair.RepairedStaysRepaired` | registry/node.go:152-170 | a second heartbeat after a repair changes nothing |
| `ZoneRepair.HeartbeatTells` | registry/nodes.go:47-56 | one heartbeat to a whole zone, the registrations arriving in any order: older and missing copies take the origin's DirtyTimestamp, the origin that of one of the newer copies |
| `ZoneRepair.ZoneConverges` | registry/node.go:152-170 | one heartbeat more than there are newer copies brings the whole zone to the largest DirtyTimestamp for good |
| `ZoneRepair.TwoSufficeIff` | registry/node.go:152-170 | two heartbeats do exactly when the first brought the largest DirtyTimestamp to the origin |
| `ZoneRepair.TwoAreNotEnough` | registry/node.go:152-170 | three copies at 3, 5 and 7 that two heartbeats do not bring together |
| `Proportion.FixIsExact` | naming/naming.go:115-118 | a zone's total divides schedule weight times the product of all totals without remainder |
| `Proportion.ZoneTotal` | naming/naming.go:119-129 | the rescaled weights of a zone add up to schedule weight times the common product |
| `Proportion.NothingOverflows` | naming/naming.go:91-129 | when the new totals fit 64 bits, no partial sum, partial product, factor or weight overflows |
| `Proportion.WrapIsWord` | naming/naming.go:111-124 | a wrapped result is the signed 64-bit word of its residue class |
| `Proportion.PositiveSchedulesFit` | naming/naming.go:111-118 | for positive schedule weights it is enough to bound the new totals |
| `Proportion.OneCall` | naming/naming.go:111-129 | in unbounded integers, after one call each total is its schedule weight times one positive number common to all zones |
| `Proportion.CallFitsIff` | naming/naming.go:91-129 | every intermediate of a call stays within 64 bits exactly when the product of the totals and the new totals do |
| `Proportion.StoredIsRescaled` | naming/naming.go:91-129 | a call that stays within 64 bits stores exactly the rescaled weights |
| `RepeatedCalls.CallsStayProportional` | naming/naming.go:76-131 | in unbounded integers, after any number of calls, walking the zones in any orders, totals are in exact proportion to the schedule, whatever its weights |
| `RepeatedCalls.CallsKeepRatios` | naming/naming.go:119-129 | in unbounded integers, a zone with positive schedule weight keeps its inner ratios through any number of calls |
| `RepeatedCalls.GrowthStep` | naming/naming.go:111-129 | a call raises the product of the totals to the power of the number of zones with positive schedule weight, times a constant, whatever the walking orders |
| `RepeatedCalls.AllFitIff` | naming/naming.go:91-129 | every intermediate of every one of n calls stays within 64 bits exactly when those of the first and the last do, by products known before the first; for any schedule weights |
| `RepeatedCalls.PositiveAllFitIff` | naming/naming.go:91-129 | for positive schedule weights over k zones: exactly when each schedule weight times P_n is below 2^63, where P_1 is the product of the totals before the first call and P_(n+1) the product of the schedule weights times P_n^k |
| `RepeatedCalls.StoredStayProportional` | naming/naming.go:76-131 | after as many calls the stored 64-bit weights have totals in exact proportion to the schedule, whatever its weights |
| `RepeatedCalls.StoredKeepRatios` | naming/naming.go:119-129 | and the inner ratios of each zone with positive schedule weight |
| `RepeatedCalls.ThreeCallsBreakProportion` | naming/naming.go:119-129 | 80 to 20 over two zones with one default instance each: the third call stores weights out of proportion, in any walking orders |
| `Proportion.RatiosAfterCall` | naming/naming.go:119-129 | in unbounded integers, one call keeps inner ratios; a schedule weight below 1 leaves weights that are read as the default next time |
| `SchedulingObject.Backend.Rescale` | naming/naming.go:119-129 | reads the weight, scales it by its zone's factor if there is one, writes it back |
| `SchedulingObject.TotalWeight` | naming/naming.go:91-97 | the wrapped sum of the effective weights |
| `SchedulingObject.Multiply` | naming/naming.go:111-114 | the wrapped product of the totals, however the loop wraps in between |
| `SchedulingObject.Calibrate` | naming/naming.go:115-118 | the factor of each zone's last visit, or a runtime error exactly when totals are missing or zero |
| `SchedulingObject.Apply` | naming/naming.go:119-129 | each instance is rescaled once per occurrence; the first without metadata is a runtime error |
| `SchedulingObject.InstancesInfo.Select` | naming/naming.go:82-104 | walks the matching rows in any order of their destinations, noting totals and picking instances of those present |
| `SchedulingObject.InstancesInfo.Fallback` | naming/naming.go:105-110 | the zone's own list, or all lists |
| `SchedulingObject.InstancesInfo.UseScheduler` | naming/naming.go:76-131 | the stops are exactly the destinations of the rows for the zone; without such a row the answer is the fallback and no weight changes; with one row, present zones and metadata, the 64-bit weights stored are those of that row, wrap-around included, and that case again for the next call; the two runtime errors |
| `SchedulingObject.RowsDecide` | naming/naming.go:82-104 | from the table alone: every stop is a destination of a row for the zone with that row's weight; no row, no stop; one row, its destinations once each |
| `SchedulingObject.PickedAre` | naming/naming.go:87-98 | what is picked are exactly the instances of the stops that are present |
| `SchedulingObject.PickedPerVisit` | naming/naming.go:119-129 | an instance is rescaled once for each visit of its zone |
| `SchedulingObject.LastStopDecides` | naming/naming.go:115-118 | a zone visited in several rows is scaled by the factor of its last stop |
| `SchedulingObject.VisitStores` | naming/naming.go:119-129 | what each visit stores: the weight read, or 10 without a positive one, times the factor of the zone's last stop, in 64-bit words |
| `SchedulingObject.TotalIsSum` | naming/naming.go:88-95 | the totals count a weight that is not positive as 10 |
| `SchedulingObject.FallbackIsAll` | naming/naming.go:105-110 | the answer for a zone without instances holds every instance of every zone, each once |
| `SchedulingObject.RatiosMet` | naming/naming.go:111-131 | one matching row, present non-empty zones, instances filed under their own zone with metadata, products that fit: the call succeeds with the exact rescaling |
| `SchedulingObject.ChainStores` | naming/naming.go:76-131 | calls one after the other leave the weights that repeated storing computes, until one dies |
| `SchedulingObject.CallsMeetProportion` | naming/naming.go:76-131 | calls that are foreseen to fit all succeed and leave totals in exact proportion to the schedule |
| `SchedulingObject.CallsMeetRatios` | naming/naming.go:119-129 | and keep the ratios inside each zone with positive schedule weight |
| `SchedulingObject.DivisibleIffAllPresent` | naming/naming.go:87-118 | the runtime error before any rescaling occurs exactly when some destination is absent or empty |
| `ClientObject.Discovery.constructor` | naming/client.go:103-113 | the client object as it is first made, before it builds a resolver for its own application |
| `ClientObject.Discovery.Build` | naming/client.go:188-219 | adds the resolver, sends an event exactly when the application was known, and cancels the polls under way when it was not; a run of the atomic steps |
| `ClientObject.Discovery.NewContext` | naming/client.go:474-479 | a fresh context for the polls after they were cancelled |
| `ClientObject.Discovery.Fetch` | naming/client.go:239-248 | the stored view, if there is one |
| `ClientObject.Discovery.Close` | naming/client.go:251-259 | takes the resolver off the list, once |
| `ClientObject.Discovery.Watch` | naming/grpc/resolver.go:98-122 | one event is consumed, then the stored view is fetched |
| `ClientObject.Discovery.Polls` | naming/client.go:545-607 | asks from 0 when the host changed and else from the stored timestamps; hands the whole answer on exactly when every timestamp in it is non-zero, else nothing |
| `ClientObject.Discovery.Broadcast` | naming/client.go:609-637 | stores every non-empty view of a watched application, leaves the others, and fills the event channels of exactly their resolvers |
| `ClientObject.CountAndPrune` | naming/client.go:611-617 | removes exactly the empty zones, and counts zero exactly when none is left |
| `Delivery.PollThenBroadcast` | naming/client.go:545-637 | a poll and its broadcast: with non-zero timestamps every watched application that the answer has instances for ends with exactly those zones, the answered timestamp and its resolvers told; every other one keeps what it had |
| `Delivery.AnswerIsDelivered` | naming/client.go:609-637 | the same whatever builders, watchers and closes do in between |
| `Delivery.NextPollAsksFrom` | naming/client.go:545-571 | until the next store and while the host stays, polls ask from the timestamp stored; a poll of another host asks for everything from 0 |
| `Delivery.BuiltIsOpen` | naming/client.go:188-219 | a resolver is open once built, owed an event exactly when its application was known, and no other is affected |
| `Delivery.OpenUntilClosed` | naming/client.go:188-259 | it stays open, whatever else happens, until it is closed |
| `Delivery.ClosedIsGone` | naming/client.go:251-259 | closing takes off that resolver and no other |
| `Wakeup.RunKeeps` | naming/client.go:188-259 | in every interleaving a resolver that lags behind the stored view has an event, is between event and fetch, or its sender is still on its way; stored views are never empty |
| `Wakeup.AskedOnlyOfItsOrigin` | naming/client.go:545-571 | a poll sends a host only timestamps of views that came from that host |
| `Wakeup.NoAppLeftOut` | naming/client.go:188-207 | a poll under way asks for every watched application or can be given up at once |
| `Wakeup.ViewsStay` | naming/client.go:609-637 | a stored view is never lost nor replaced by an empty one, and the number of stores only grows; the view's own timestamp may fall when the host changes |
| `Wakeup.RunsEnd` | naming/client.go:609-637 | without new resolvers and polls every interleaving ends within a bound known at the start |
| `Wakeup.SettledIsUpToDate` | naming/grpc/resolver.go:98-122 | at rest every open resolver with a live watcher has fetched the stored view |
| `Wakeup.EveryoneCatchesUp` | naming/client.go:188-259 | from any reachable state the protocol comes to rest within the bound, with everyone up to date |
| `Wakeup.TargetsNonEmpty` | naming/grpc/resolver.go:110-119 | a fetched view always holds instances to make addresses from |

## Left out

- RegistryObject.Registry: an App's instances are values, so a caller's pointer to a registered instance staying shared with the store is not captured.
- AppObjects.App.Set: metadata decoding is an arbitrary function that returns what it left behind and whether it succeeded; JSON itself is not modelled.
- RegistryObject.Registry.Polls: one atomic step, while in the code other calls can come between its fetches and its parking.
- RegistryObject.Registry.Broadcast: states how many sends each waiter is offered; the 500 ms send timeout and the capacity of the poll channel are not modelled.
- RegistryObject.Registry.Evict: one time of day per pass and no locks.
- Repair.OneRoundRepairsIff: takes the answer of the peer as coming through; the status that arrives and the register handler's own stamping are the parameter `wire`.
- ZoneRepair.ZoneConverges: takes the registrations that follow a heartbeat as accepted; their clocks and statuses are parameters.
- Flood.RegisterReachesAllOnce: without lost requests, with lists that name real nodes of their zones, and with forwarded requests that the handlers take.
- Flood.UnfinishedMeansUnreached: for complete lists only; `FloodLists.EveryRunEnds` bounds the runs for the others.
- RepeatedCalls.CallsStayProportional: says nothing of 64-bit words; `RepeatedCalls.StoredStayProportional` does, for calls that fit. Beyond those the stored totals may be in proportion by accident.
- RepeatedCalls.CallsKeepRatios: likewise; `RepeatedCalls.StoredKeepRatios`.
- SchedulingObject.InstancesInfo.UseScheduler: parsing and formatting of weights is a round trip between text and integer; text that is not a number reads as 0, and text beyond 64 bits is not considered.
- Waiters.CountsAreWaiters: counts the references of the history; requests that were answered and kept a reference, or lost it to another of their host, are the two departures above.
- Wakeup.TargetsNonEmpty: newAddress drops instances outside the wanted clusters or without a usable address, so there may be no address at all.
- ClientObject.Discovery: a method is one run of the steps without interruption; interleavings are covered by `Wakeup` on the same steps.
- Registration of every waiter for every one of its applications: false when one host polls overlapping lists, because the older connection keeps its channel (registry/registery.go:236-249).
- All-or-nothing Set, and stored statuses being only 1 or 2: the code keeps neither (model/instance.go:211-220).
- Fetchs, Nodes and AllNodes, and the calls of discovery/register.go that only pass on to the registry.
- HTTP handlers, routing, form binding, URL building and the HTTP client, with the checks they make on requests other than the status of a registration.
- The loops of serverproc, selfproc, nodesproc and the registering client: timers, retries and node switching around the calls modelled here.
- Mutexes, goroutines, tickers, configuration, logging, signals, gRPC registration, and the address list built by newAddress.
- shuffle, tryAppendSeedNodes and pickNode: easy beside the above.
- Overflow of timestamps and version counters.
