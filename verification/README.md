# v2node: users, limits, traffic, sniffing

v2node runs proxy inbounds for a panel. Each node polls the panel for its user list, keeps several indexes of those
users, limits their speed and the number of their devices, reports their traffic and their online addresses, sniffs the
first bytes of connections, and reloads itself when its configuration changes. This project models those parts in Dafny
and proves what they keep.

Each component is a set of functions on plain values (what an operation does to the contents of its maps), and, where the
program mutates objects, a class whose methods are proved to do exactly that. The lemmas then speak about the functions:
about one operation, about several indexes at once, or about every run.

| file | what it holds |
|---|---|
| `panel.dfy`, `user_list.dfy` | panel records, user keys, the difference of two user lists |
| `limiter.dfy`, `limiter_facts.dfy`, `limiter_invariants.dfy` | the limiter with its shared rate buckets; what its operations do field by field; what they keep |
| `core_users.dfy` | the uid index, inbounds, counters and links shared by all nodes |
| `node_sync.dfy`, `node_facts.dfy`, `controller.dfy` | one node over time: polls, connections and reports in any order; its controller |
| `bucket_runs.dfy`, `device_runs.dfy` | rate buckets and tracked devices over whole runs |
| `panel_polls.dfy` | a node beside its panel, and lists it could not take |
| `traffic.dfy`, `traffic_posts.dfy`, `online_report.dfy` | counters, one reporting pass, the maps that are posted |
| `traffic_race.dfy` | the reporter racing with connections, deletions and failing posts |
| `cached_reader.dfy`, `sniffer.dfy` | peeking at a stream, candidate elimination, the sniffing loop |
| `reload.dfy`, `routes.dfy` | the reload signal; rules and outbounds of all nodes |
| `range_list.dfy`, `manager.dfy` | range expressions and bulk deletion in the manager script |

The central results:

- **A node that polls is a node that restarts.** After any sequence of polls, connections and reports, the limit table,
  the uid tables and the inbound's users are what starting the node now on the last list would build
  (`NodeSync.PollingEqualsRestart`). One accepted poll keeps this exactly when no kept user changed its Id, which the
  difference never compares (`PollLimiterSync`, `PollCoreSync`); repeated uuids in a list do no harm to it. The limiter
  stays in step even when calls into the core fail (`LimiterAlwaysInSyncIff`).
- **Buckets run at the right rate.** In every reachable state each bucket belongs to a known user and has that user's
  rate, exactly as long as no accepted list names a kept user that has a bucket twice with different rates
  (`BucketsExactIff`); one poll that does is shown. A connection's bucket stays the user's own exactly as long as every
  accepted list keeps it (`BucketLivesIff`).
- **Devices.** The two load-or-store branches with their rollbacks are one decision on sets. A report opens the listed
  addresses to every known user; after it a user that stays at its limit is refused from one of them exactly when it was
  dropped or some event took the address away (`ListedIsRefusedIff`), most simply another user using up the one entry.
  Runs in which that happens to a listed user are shown for a shared address and for a shared uid; nobody can take it
  from the user the report visited last for it, if Ids are distinct (`LastVisitorIsNotRefused`). A user at its limit
  gains no address; reported addresses never grow while all users are at their limits.
- **A list is delivered once.** A new list of the panel that the node fails to take at its first delivery does not come
  again by polling while the panel keeps it; only a restart brings it (`AgreesWithPanelIff`).
- **Traffic.** Under every interleaving of counting, connecting, deleting users, the reporter's separate loads and
  zero-stores, and posts that succeed or fail, bytes added are reported, on their way, still drainable, left behind with a
  deleted user, or lost in one of four other ways (`TrafficIsAccountedFor`). Nothing is missing exactly when no step of
  the run meets the guard of such a loss (`NothingMissingIff`); what a zero-store loses is exactly what came in since its
  own load. A pass of a node in step with its list that nothing interrupts posts the bytes of each drained storage under
  its user's uid, and nothing else (`PassIsPosted`).
- **Sniffing.** What read calls return replays the stream exactly when no call drops bytes; the shrinking candidate list
  answers like the full one exactly when dropped candidates stay dropped; the loop makes at most two cache calls, and
  each of its answers is told by the bytes, the candidates and the clock alone (`FirstRound`, `SecondRound`).

Assumptions: each limiter operation is one atomic step, and so is one poll of the user list, so "throughout a run" means
between events, not in the middle of a poll; at most one reporting task runs per node at a time; the panel's ETag tells
its lists apart; the panel's answers, clocks, failures of the inbound's user manager, iteration orders of maps and the
verdicts of protocol sniffers are inputs. Where a statement needs distinct uuids or distinct Ids in the lists it says so
in its `requires`, and a lemma with a concrete input shows what happens otherwise.

Where the code and its comments differ, the model follows the code. The sniffing loop comments on a protocol that needs
more data and may read until the deadline (core/app/dispatcher/default.go:484-485); `Sniff` drops such a candidate and
never returns that error, so the case is never taken. In the manager script a wrong range expression does not stop
`delete_node`, since the status of a process substitution is not looked at: the list of positions is merely empty, and
nothing is deleted.

## Model

| member | source | states |
|---|---|---|
| Panel.CollisionFreeIff | common/format/user.go:7-9 | user keys of different (tag, uuid) pairs differ exactly when no uuid of the set ends in a bar followed by another uuid of the set |
| UserList.CompareUserList | node/user.go:77-99 | for any two lists: one record for each uuid that disappeared, in some order, and the added and modified records in order |
| UserList.DiffPartition | node/user.go:77-99 | without repeated uuids the parts are exactly new-minus-old, changed limits, each record once |
| UserList.DiffAppliesIff | node/user.go:77-99 | applying the three parts to the old table yields the new one exactly when no Id changed alone |
| UserList.IdChangeIsMissed | node/user.go:87 | an Id that changes while the limits stay is in none of the three parts |
| UserList.KeyDiff | node/user.go:77-99 | what the difference says of every key of one node's indexes, for lists with repeats too |
| UserList.RepeatsAt | node/user.go:83-92 | a known uuid is added again exactly when the list repeats it, and modified exactly when its first record changes a limit, by that record |
| UserList.ModifiedOnce | node/user.go:86-91 | for any lists no uuid is modified twice |
| UserList.LastRecordCounts | node/user.go:78-81 | of the records of one uuid the table holds the last |
| LimiterSpec.DetermineSpeedLimit | limiter/dynamic.go:4-22 | one of its arguments; zero only if both are; not above either limit that is set |
| Limiter.Limiter.AddLimiter | limiter/limiter.go:41-69 | the loop builds the limit and uid tables of the list, the last record of a uuid counting |
| Limiter.Limiter.UpdateUser | limiter/limiter.go:87-130 | the whole new state; a bucket whose user is not deleted and keeps a positive limit stays the same object |
| Limiter.Limiter.SetRate | common/rate/writer.go:21-35 | the rate of an existing bucket changes in place, seen by whoever holds it; other buckets keep identity and rate |
| Limiter.Limiter.CheckLimit | limiter/limiter.go:143-217 | new state, refusal, and the user's bucket for an admitted limited connection; existing buckets keep their identity |
| Limiter.Limiter.CheckDevice | limiter/limiter.go:171-202 | both load-or-store branches with their rollbacks make the one decision on sets |
| Limiter.Limiter.GetOnlineDevice | limiter/limiter.go:219-237 | every tracked pair listed once, the current generation emptied, the previous one replaced |
| LimiterFacts.RefusedExactlyAtLimit | limiter/limiter.go:143-203 | a known user's new address that the last report does not name is refused exactly when the user has a device limit and the panel counts at least as many devices; a mapped address is its plain form |
| LimiterFacts.StrangersAreRefused | limiter/limiter.go:152-169 | an unknown user is refused without a trace |
| LimiterFacts.UdpIsNotTracked | limiter/limiter.go:170 | UDP connections are refused or tracked for their address on hysteria2 and tuic nodes only |
| LimiterFacts.AdmittedIsTracked | limiter/limiter.go:171-203 | an admitted address is filed under user and uid, the report's entry goes exactly if it stands for that uid, and nothing else changes |
| LimiterFacts.ConnectionsTouchNoCounts | limiter/limiter.go:143-217 | no connection changes uids, device counts or another user's record |
| LimiterFacts.BucketIsGranted | limiter/limiter.go:205-216 | a bucket is granted exactly when a limit is set, a new one at 125000 bytes per second for each Mbps of the least limit set; other buckets stay |
| LimiterFacts.RateInBytes | limiter/limiter.go:102 | a rate is 125000 times the least of node and user limit that is set |
| LimiterFacts.ExpiryResets | limiter/limiter.go:156-163 | a dynamic limit that has expired is dropped, with the whole record when the user has no limit of its own |
| LimiterFacts.CountsAfterUpdate | limiter/limiter.go:88-94 | an update removes the device counts of exactly the deleted Ids |
| LimiterFacts.RatesAfterUpdate | limiter/limiter.go:88-129 | deleted users lose their bucket, modified ones have one exactly for a positive rate and at that rate, all others keep theirs |
| LimiterFacts.ReportTouchesOnlyDevices | limiter/limiter.go:219-237 | a report changes nothing but the two address maps |
| LimiterInvariants.RatesAgree | limiter/limiter.go:102-114 | the rate set by a modification is the one a connection would set |
| LimiterInvariants.DeviceDecides | limiter/limiter.go:174-202 | refused only a new address not of the last report at the limit, and then nothing changes; otherwise exactly one pair is tracked and a matching old entry consumed |
| LimiterInvariants.CheckLimitDecides | limiter/limiter.go:143-217 | when a connection is refused, and all tracked pairs and held addresses afterwards |
| LimiterInvariants.CheckKeepsGood | limiter/limiter.go:143-217 | a connection keeps the bucket and ownership invariants and touches neither limits, uids nor device counts |
| LimiterInvariants.ReportIsExact | limiter/limiter.go:219-237 | listed addresses are the tracked ones, and the next generation holds exactly the listed addresses under a uid that had them |
| LimiterInvariants.UpdateKeepsGood | limiter/limiter.go:87-130 | an update of staying and new users keeps the invariants |
| LimiterInvariants.DeletedUserIsForgotten | limiter/limiter.go:88-94 | a deleted user that is not brought back has no limits, addresses, bucket, uid or device count left |
| CoreUsers.V2Core.DelUsers | core/user.go:45-73 | inbound, uid index, counters and links lose exactly the users before the first failure |
| CoreUsers.V2Core.AddUsers | core/user.go:109-154 | the uid index takes the whole list, the inbound the users before the first failure |
| CoreUsers.RemovedUsersLeaveNoTrace | core/user.go:53-70 | a successful removal erases exactly the listed users from inbound, uid index, counters and links |
| CoreUsers.RemovalReaches | core/user.go:45-73 | a removal, failing or not, takes exactly the users before the failure out of inbound, uid index, counters and links |
| CoreUsers.AdditionReaches | core/user.go:109-154 | an addition files every listed user under its last Id even if it fails, and the inbound gets the users before the failure |
| CoreUsers.NodesAreIsolated | core/user.go:53-70 | when no uuid involved ends in a bar and another one, any additions and removals on one node, failing or not, leave the users, inbound and counters of every other node alone |
| CoreUsers.IsolatedIff | common/format/user.go:7-9 | operations on one node can never touch a user of another one exactly when no uuid of the set ends in a bar and another uuid of it |
| CoreUsers.BarBreaksIsolation | core/user.go:112-114 | for every uuid that ends in a bar and another uuid some node's addition writes another node's entry |
| NodeSync.UpdateInSyncIff | limiter/limiter.go:87-130 | an update made from the difference leaves the tables of a fresh start exactly when Ids are stable |
| NodeSync.PollLimiterSync | node/task.go:109-144 | after any poll the limiter agrees with the accepted list unless the poll was accepted and a kept user changed its Id |
| NodeSync.PollCoreSync | node/task.go:113-139 | after an accepted poll uid index and inbound agree with the new list exactly when Ids are stable |
| NodeSync.LimiterAlwaysInSyncIff | node/task.go:51-147 | core failures included, a run keeps the limiter in agreement with the list last accepted, at every moment, exactly when no accepted list renumbers a kept user |
| NodeSync.AlwaysInSyncIff | node/task.go:51-147 | a run without failures keeps limiter, uid index and inbound in agreement with the last list that was not empty, at every moment, exactly when no list renumbers a kept user |
| NodeSync.StartInSync | node/controller.go:68-86 | a fresh start agrees with its list |
| NodeSync.PollingEqualsRestart | node/controller.go:41-94 | the state after a run equals the state of starting now on the last list |
| NodeSync.ChangedIdGoesStale | node/user.go:87 | an accepted poll of a freshly started node that changes only one Id takes it out of step |
| NodeFacts.InStepExactly | node/controller.go:68-86 | being in step means that the last record of each uuid gives Id and limits in all four tables, and nobody else is in them |
| NodeFacts.AcceptedExactly | node/task.go:109-139 | a list is taken exactly when it is not empty and no core call fails |
| NodeFacts.CountsAfterPoll | node/task.go:105-107 | after a poll the device counts are those just given, or the old ones, less the Ids an accepted list drops |
| NodeFacts.StartsEmpty | node/controller.go:69 | a node starts with the counts given, no addresses and no buckets |
| NodeFacts.RejectedPollKeepsLimiter | node/task.go:116-138 | a poll that is not accepted changes only device counts in the limiter |
| NodeFacts.DroppedUserIsGone | node/task.go:113-143 | a dropped user leaves all eight indexes of core and limiter; the others keep counters and links |
| NodeController.Controller.Start | node/controller.go:54-94 | the core after a start that succeeds or fails at any step, and a controller with limiter and list built from the users exactly when all steps succeed |
| NodeController.Controller.NodeInfoMonitor | node/task.go:104-146 | one poll makes exactly the modelled step, for every list, count map and failure; a bucket present before and after is the same object |
| NodeController.StartsExactly | node/controller.go:54-89 | when a start succeeds, and what the core keeps of one that fails |
| NodeController.StartedInSync | node/controller.go:68-86 | a start that succeeds leaves limiter, uid index and inbound in agreement with its list |
| BucketRuns.PollExactIff | node/task.go:113-144 | an accepted poll leaves every bucket at its user's rate exactly when it keeps no user with a bucket whose first and last record differ in rate |
| BucketRuns.BucketsExactIff | limiter/limiter.go:87-216 | core failures and changed Ids included, all buckets belong to known users and run at their rates throughout a run exactly when no accepted list makes a bucket stale |
| BucketRuns.BucketsAlwaysExact | limiter/limiter.go:87-216 | while no list repeats a uuid, in every state a started node can reach each bucket has exactly its known user's rate, and an admitted limited connection gets such a bucket |
| BucketRuns.RepeatedUuidGoesStale | limiter/limiter.go:115-129 | an accepted poll of a freshly started node whose list repeats a uuid leaves the bucket at the first record's rate |
| BucketRuns.BucketLivesIff | limiter/limiter.go:88-113 | for any lists and failures, a user keeps its bucket throughout a run exactly when every accepted list names it and gives it a positive rate where it changes its limits |
| BucketRuns.BucketLivesWhileLimited | common/rate/writer.go:21-35 | while no list repeats a uuid or carries a negative limit, a user keeps its bucket, at its current rate, exactly as long as it stays known and limited |
| DeviceRuns.OwnedThroughoutIff | limiter/limiter.go:87-237 | addresses are tracked for known users only, never an empty set, and under the user's uid, throughout a run exactly when no accepted list repeats a connected user under another Id |
| DeviceRuns.RunKeepsGood | limiter/limiter.go:87-237 | while no list repeats a uuid, a run keeps the bucket rates, non-empty tracked sets and their ownership by the user's uid |
| DeviceRuns.OneKeeper | limiter/limiter.go:222-231 | of the users listed with one address exactly one is visited last |
| DeviceRuns.ReportHoldsIff | limiter/limiter.go:219-234 | after a report a user with a uid of its own holds exactly the addresses whose last visit was for it |
| DeviceRuns.SoleVisitorKeeps | limiter/limiter.go:222-231 | an address only one user is tracked at is kept whatever the order of the visits |
| DeviceRuns.CheckHoldIff | limiter/limiter.go:176-202 | one connection takes a held address away exactly when another user under the same uid connects from it and neither is tracked there |
| DeviceRuns.RefusedIff | limiter/limiter.go:174-201 | at its limit a user is refused from exactly the addresses it is not connected from and that are no key of the last report's map |
| DeviceRuns.ReportOpens | limiter/limiter.go:219-234 | a report opens exactly the listed addresses, each to every known user |
| DeviceRuns.OpenThroughoutIff | limiter/limiter.go:88-94 | between reports an address stays open to a user exactly when nobody else uses up its entry while the user is not connected from it and no accepted list drops the user |
| DeviceRuns.StickyDevice | limiter/limiter.go:176-237 | from a report on, a listed address stays open to a known user exactly under that condition, and while it does the user is not refused from it |
| DeviceRuns.ListedIsRefusedIff | limiter/limiter.go:174-237 | a user that stays at its limit since a report is refused from a listed address exactly when the accepted list does not name it or some event since has taken the address away |
| DeviceRuns.HoldsThroughoutIff | limiter/limiter.go:88-94 | between reports the last report's entry stands for a user, or it is connected, throughout exactly when no connection under its uid uses it up and no accepted list drops or renumbers it |
| DeviceRuns.LastVisitorIsNotRefused | limiter/limiter.go:176-237 | with distinct Ids and uuids in the lists, a listed user visited last for its address is never refused from it while listed, whatever others do |
| DeviceRuns.SharedAddressIsRefused | limiter/limiter.go:180-187 | a run in which a user at its limit is refused from the very address it was reported at, since another user listed there used it up |
| DeviceRuns.SharedUidIsRefused | limiter/limiter.go:180-187 | the same for two users with one uid, where the refused user held the address |
| DeviceRuns.AtLimitFreeze | limiter/limiter.go:184-201 | at its limit a user's addresses stay within its starting ones and those of the last report |
| DeviceRuns.ReportedAddressesNeverGrow | limiter/limiter.go:219-237 | with all users at their limits a report names no address the report before did not |
| PanelPolls.DeliveredIsFinal | api/v2board/user.go:40-54 | while the panel keeps a delivered list polling never changes the node's list; a restart brings the panel's |
| PanelPolls.AgreesWithPanelIff | api/v2board/user.go:91 | a node comes to agree with a new list exactly when it takes the first delivery of it or is restarted, however often it polls |
| Traffic.TrafficCounter.GetCounter | common/counter/traffic.go:21-30 | the same storage on every call, empty on the first, other storages untouched |
| Traffic.TrafficCounter.Rx | common/counter/traffic.go:66-69 | adds to the download half of the user's storage, made on first use, and to nothing else |
| Traffic.TrafficCounter.Tx | common/counter/traffic.go:71-74 | adds to the upload half of the user's storage, made on first use, and to nothing else |
| Traffic.TrafficCounter.GetUserTrafficSlice | core/user.go:75-107 | every storage visited once; those over the threshold zeroed, handed over or dropped; the rest untouched |
| Traffic.PassConserves | core/user.go:81-100 | bytes held before a pass are handed over, still held, or dropped for unknown users |
| Traffic.PassLeavesLittle | core/user.go:84-98 | after a pass every remaining storage is empty or at or below the threshold |
| Traffic.PassDrainsExactly | core/user.go:84-98 | per storage: emptied or gone above the threshold, untouched otherwise |
| Traffic.SliceIsExact | core/user.go:93-97 | one entry for each known user's storage above the threshold, in order: uid, uploads, downloads |
| TrafficPosts.PassPostsAllIff | core/user.go:84-97 | the posted map of a pass hands every uid all its bytes exactly when no two drained known users of the pass share a uid |
| TrafficPosts.SyncedPassHasNoClash | core/user.go:89-94 | while the uid index agrees with a list without repeated Ids no pass of the node meets such a pair, whatever other nodes serve |
| TrafficPosts.PassIsPosted | node/user.go:18-20 | a pass of a node in step posts exactly the bytes of each drained storage under its user's uid |
| TrafficPosts.BuildPushMap | api/v2board/user.go:131-134 | the posted map keeps the last entry of each uid |
| TrafficPosts.PushLosesNothingIff | api/v2board/user.go:131-134 | the posted map hands each uid all its bytes exactly when no uid occurs twice |
| TrafficRace.RunKeepsInv | core/user.go:81-99 | distinct names lead to distinct storages, the reporter's storage is the named one and holds at least what was loaded, after every interleaving |
| TrafficRace.TrafficIsAccountedFor | core/user.go:45-107 | added = reported + on its way + drainable + left behind + overwritten + unknown + failed posts + shadowed entries, per storage and direction, at every moment |
| TrafficRace.NeverOverReported | core/user.go:81-99 | reported plus on its way plus drainable never exceeds added |
| TrafficRace.NothingMissingIff | core/user.go:61-99 | between reports all added bytes are reported or drainable exactly when no step of the run met the guard of a loss |
| TrafficRace.StrandedIsNeverReported | core/user.go:61-65 | once a storage has lost its name its bytes only grow and are never reported |
| TrafficRace.OverwriteLosesWhatCameSince | core/user.go:84-88 | a zero-store loses exactly the bytes added between its own load and itself |
| TrafficRace.AtomicDrainConserves | core/user.go:84-92 | if nothing is added between a load and its zero-store no byte is overwritten, and the other accounts balance |
| TrafficRace.DeliveredIsPosted | api/v2board/user.go:130-145 | the entries counted as reported are what the posted map holds under their uids |
| TrafficRace.LoadsDecide | core/user.go:84-86 | two loads in a row decide to drain exactly a storage that holds more than the threshold |
| TrafficRace.StoresDrain | core/user.go:87-97 | the zero-stores empty it and hand its bytes over, or drop its name when the user is unknown |
| TrafficRace.QuietPassIsOnePass | core/user.go:81-104 | a pass that nothing interrupts drains exactly what the uninterrupted pass drains, in any order of visits, with the same entries |
| TrafficRace.PostEnds | node/user.go:18-32 | a post ends the reporter's turn; only a successful one adds to what is reported |
| TrafficRace.DeletedUserLosesBytes | core/user.go:61-65 | a run in which a deleted user's bytes are neither reported nor drainable |
| TrafficRace.BytesCanBeLost | core/user.go:84-88 | a run in which a byte is lost although its user stays and every post succeeds |
| OnlineReport.BuildOnlineReport | node/user.go:41-58 | the posted map holds all listed addresses of exactly the uids without a small traffic entry, with repeats and in order |
| OnlineReport.LeftOutExactly | node/user.go:42-48 | left out are exactly the uids with an entry below the device minimum in kilobytes |
| OnlineReport.ReportedOncePerAddress | node/user.go:49-58 | a user with a uid of its own is listed with exactly its tracked addresses, each once |
| CachedReaders.CachedReader.Cache | core/app/dispatcher/default.go:42-57 | bytes read are kept, the payload is the front of everything kept, an error leaves the cache alone |
| CachedReaders.CachedReader.Read | core/app/dispatcher/default.go:59-88 | kept bytes first, then the connection |
| CachedReaders.CachedReader.Interrupt | core/app/dispatcher/default.go:90-99 | kept bytes are thrown away, and the pipe's rest unless a counting reader hides it |
| CachedReaders.CounterReader.Read | core/app/dispatcher/countreader.go:17-37 | counts what it passes on; bytes that come with an error are not passed on |
| CachedReaders.TransparentIff | core/app/dispatcher/default.go:42-99 | any sequence of calls keeps delivered + kept + unread equal to the stream exactly when no call drops bytes |
| CachedReaders.CleanErrorsAreTransparent | core/app/dispatcher/default.go:42-88 | without interrupts, and with errors that carry no bytes, every sequence of calls replays the stream |
| CachedReaders.CounterIsExact | core/app/dispatcher/countreader.go:17-37 | the counter rises by exactly the bytes delivered plus those kept |
| CachedReaders.AnswersReplayIff | core/app/dispatcher/default.go:42-99 | what read calls return, then kept and unread bytes, are the stream exactly when no call drops bytes |
| CachedReaders.CounterCountsAnswers | core/app/dispatcher/countreader.go:17-37 | the counter rises by the bytes read calls return plus those newly kept |
| CachedReaders.ReadsAnswer | core/app/dispatcher/default.go:59-88 | a read returns what is kept, else the connection's next bytes and error |
| CachedReaders.PayloadIsFront | core/app/dispatcher/default.go:51-54 | the payload is the longest front of everything kept that the buffer holds |
| Sniffing.Sniffer.Sniff | core/app/dispatcher/sniffer.go:58-82 | first hit, else no clue with the list cut to the undecided, else unknown; never a request for more data |
| Sniffing.Sniffer.SniffMetadata | core/app/dispatcher/sniffer.go:84-109 | first metadata hit, else the list cut to content candidates and undecided metadata ones |
| Sniffing.EliminationSound | core/app/dispatcher/sniffer.go:58-82 | over any rounds on growing payloads the shrinking list answers as all candidates would |
| Sniffing.EliminationNeedsPersistence | core/app/dispatcher/sniffer.go:66-79 | a candidate that comes back after being dropped makes some list answer wrongly |
| Sniffing.MetadataRoundIsHarmless | core/app/dispatcher/sniffer.go:84-109 | the metadata round never changes what content sniffing answers |
| Sniffing.SniffContent | core/app/dispatcher/default.go:463-497 | at most two cache calls, only cache calls, and the answer of the two-round reference |
| Sniffing.RoundDecides | core/app/dispatcher/sniffer.go:58-82 | a round answers with the first eligible candidate's own result, no clue, or unknown, told by the candidates alone |
| Sniffing.FirstRound | core/app/dispatcher/default.go:466-495 | when the loop ends in its first round: canceled, failed read, match, nothing possible, or out of time, each exactly when |
| Sniffing.SecondRound | core/app/dispatcher/default.go:466-495 | the same for the second round, on all bytes kept and the candidates without a clue in the first |
| Sniffing.MetadataDecides | core/app/dispatcher/sniffer.go:84-101 | a metadata match is the first one in the list |
| Sniffing.NoMetadataHit | core/app/dispatcher/sniffer.go:84-109 | when there is none, and who stays in the list |
| Sniffing.SniffConnection | core/app/dispatcher/default.go:451-505 | metadata and content results combined: composite, either alone, or neither |
| Sniffing.ShrinkingMatchesAll | core/app/dispatcher/default.go:463-497 | for persistent candidates the loop's answer is that of running all candidates each round |
| ReloadSignal.QuietMeansLoaded | cmd/server.go:91-138 | from the start of the program on no task lacks its channel, and when the main loop waits on an empty channel every signaled change has been loaded |
| ReloadSignal.SignalOutlivesRun | node/task.go:64-76 | a signal, sent or dropped, that no take follows is still in the channel |
| ReloadSignal.RunKeepsSignals | cmd/server.go:141-205 | saving and attaching the channel across reloads makes every generation of cores and tasks send where the main loop listens |
| ReloadSignal.AttachingMatters | common/task/task.go:68-79 | were the channel not attached, the first task to time out would bring the program down |
| ReloadSignal.SignalIsTaken | cmd/server.go:131 | any signal to a waiting loop can be taken and leads into a reload that has yet to read |
| ReloadSignal.ReloadFinishes | cmd/server.go:152-205 | a reload under way can finish: the loop waits with the present configuration and the new generation has the channel |
| Routes.GetCustomConfig | core/custom.go:45-240 | DNS rule, then each node's rules in order; of the built-in and described outbounds the first of each tag; an error when the final builds fail |
| Routes.OnlyOwnRoutesMatter | core/custom.go:81-230 | under first match, traffic of an inbound goes where the rules of its own nodes alone send it |
| Routes.NodesAreIndependent | core/custom.go:69-230 | with distinct tags the combined list and the list of the node alone choose the same outbound tag, DNS first |
| Routes.SameOutboundIff | core/custom.go:164-171 | a node's traffic reaches the very outbound it would reach alone exactly when no other node's description has taken the chosen tag over |
| Routes.FirstRouteDecides | core/custom.go:69-230 | action by action: DNS first, then the first route of the node that applies, to "block" or to the outbound it describes |
| Routes.DescribedExactly | core/custom.go:145-225 | the described outbounds are those of decodable routing actions that can be built |
| Routes.JoinKeepsAll | core/custom.go:126 | the ports of a port route become one list with commas between them |
| RangeList.ParseRangeList | script/v2node-manager.sh:173-207 | from the characters of the expression: the numbers of all parts in order; nothing for a wrong part or no number |
| RangeList.NumbersAreNamed | script/v2node-manager.sh:178-205 | one wrong part spoils the expression; otherwise the numbers are exactly those some part names |
| RangeList.RenderedIsReadBack | script/v2node-manager.sh:178-197 | numbers and ascending ranges written with commas are read back as they were |
| RangeList.SplitIsExact | script/v2node-manager.sh:178 | the fields joined by commas are the expression and contain no comma |
| RangeList.BlanksMakeNoDifference | script/v2node-manager.sh:180 | blanks around and inside a part are ignored |
| RangeList.MalformedExactly | script/v2node-manager.sh:183-200 | a part is wrong exactly when it is neither empty, nor digits, nor digits around a dash |
| RangeList.WrongFieldFails | script/v2node-manager.sh:197-200 | one wrong field fails the whole expression |
| Manager.ResolveNodeIndices | script/v2node-manager.sh:335-378 | exactly the positions the numbers name, ordinal before id, each once, highest first |
| Manager.DeleteNode | script/v2node-manager.sh:380-416 | the list without exactly the positions selected in the original list, in order |
| Manager.ExpressionSelects | script/v2node-manager.sh:345-364 | an expression selects exactly the positions its numbers and ranges name, as ordinals or as first nodes with an id |
| Manager.KeepIsExact | script/v2node-manager.sh:407-410 | each node that stays moves up by the number of deleted ones before it, and nothing else is in the new list |
| Manager.DescendingDeletionIsFaithful | script/v2node-manager.sh:407-410 | deleting one by one in descending order removes exactly the original positions |
| Manager.AscendingDeletionIsNot | script/v2node-manager.sh:407-410 | in ascending order it does not |

## Left out

- BucketRuns.BucketsAlwaysExact: runs contain no UpdateDynamicSpeedLimit (limiter/limiter.go:132-141), which nothing calls; the expiry branch of CheckLimit is modelled, but existing buckets are not refreshed by it.
- NodeSync.AlwaysInSyncIff: says nothing of the core after a failed removal or addition, which the code does not repair; the limiter's part holds for failures too.
- DeviceRuns.LastVisitorIsNotRefused: needs distinct Ids in the lists; SharedUidIsRefused shows why, and ListedIsRefusedIff needs none.
- BucketRuns.BucketLivesWhileLimited: for lists without repeated uuids or negative speed limits; BucketLivesIff is the statement for all lists.
- CoreUsers.V2Core.DelUsers: closing a user's links is only the removal of its link manager; that closing returns is not claimed (core/app/dispatcher/linkmanager.go:41-48 holds the lock that each closed writer asks for).
- CoreUsers.V2Core.AddUsers: account contents per protocol are not modelled; an unsupported node type is a failure at the first user.
- Traffic.TrafficCounter.GetUserTrafficSlice: a pass without counting meanwhile; counting during a pass is the subject of TrafficRace.
- TrafficRace.TrafficIsAccountedFor: one reporting task at a time per node; first creation of a node's counter is not raced; a post that fails counts as not received.
- Sniffing.SniffContent: verdicts are functions of the bytes alone; the individual protocol sniffers are inputs.
- RangeList.ParseRangeList: one line of input; numbers with leading zeros are read as decimals, where the shell's arithmetic reads octal and compares node ids as text; shell integers wrap around at 64 bits.
- Int widths: limits, rates and byte counts are unbounded integers; overflow of 64-bit products and counters is not modelled.
- ReloadSignal.RunKeepsSignals: a reload that fails ends the program and is not modelled.
- OverLimit of the limit record is always written false and never read.
- The global limiter table, HTTP requests and decoding, the token bucket's timing, pipes, inbound and outbound construction, DNS server entries, certificates, logging and installation scripts.
