# PasarGuard reconciliation and accounting model

A Dafny model of the stateful cores of PasarGuard: the WireGuard backend of the node, its traffic
accounting, and the panel jobs that book usage and deliver webhooks. `dafny verify dfyconfig.toml`
checks everything.

## What is modelled

**WireGuard reconciliation.** A user list is normalised and turned into desired peers, compared with an
in-memory two-way index, sent to the kernel as a batch of peer configs and then committed to the
index. `Claims` and `DesiredPeers` cover the collection, `SyncDiff` the comparison, `PeerStore` the
index, `KernelDevice` the kernel with cryptokey routing (section 2 of the WireGuard whitepaper: a prefix
routes to one peer, and assigning it moves it). `WireGuard` is the backend object with its mutable fields;
each of its methods is proved against a function of `Reconcile` on the state of store, kernel and
statistics together. (`SyncUsers` and `UpdateUsers` only take the lock around `SyncUsersFull` and
`SyncUsersPartialReconcile`.) Go's map iteration is `Prelude.AnyOrder`, an arbitrary order, so every result holds
for all orders. `Outcomes` and `Membership` say in terms of users, keys and state fields when a request is
accepted, what it leaves and which users become peers. `Backend` closes the operations into a transition
system with traffic, samples, reads, failing kernel calls and restarts, and proves what holds in every state
of every run.

**Traffic accounting.** `StatsTracker` models the per-peer tracker on its real fields and shows that an
entry means a counter last seen and the bytes still owed; conservation is proved over any interleaving.
`Backend` bounds what is ever reported by the true bytes, and `StaleSample` shows the one way in which
the bound fails. `LostPrefix` holds the counterexamples on routing. `InterfaceCounters` is the interface-level variant.

**Panel ledgers and smaller cores.** `UsageLedgers` relates the parallel computation to the sequential
one, the three ledgers to each other and the SQL dialects to each other. `WebhookQueue`, `ChunkedUsers`
and `SingBoxUsers` model the webhook job, chunked user lists and the sing-box user maps.

## What the proofs found

- A partial update may take a prefix from a user outside the request, because only clashes inside the
  request are checked. Agreement between store and kernel survives exactly when this does not happen
  (`PartialFromAgreement`). Afterwards a full synchronisation with an unchanged user list does not repair
  the routes, since it finds the store unchanged (`StolenPrefixStaysLost`).
- In that state a partial update that covers the whole store is not equivalent to a full synchronisation:
  only the full one sends the lost prefix again (`CoveringPathsDiffer`). The two also part when a
  request only renames peers while the kernel is unavailable (`RenameNeedsNoKernel`). These are all the
  differences (`CoveringPartialIsFullIff`).
- The statistics loop holds no lock between reading the device and updating the tracker. When the removal of
  a user and a resetting read come in between, the tracker has forgotten the user and reports its whole
  counter again (`StaleSampleCountsAgain`, `OverReportingRun`). Nothing else over-reports (`NeverOverReported`).
- An IPv4-mapped IPv6 prefix is refused on an IPv6 network that contains it (`MappedPeerRefused`).
- In the webhook job a malformed queue item puts back the notification before it, even a delivered or
  dropped one; as the first item it ends the run (`DrainExactIffValid`, `DeliveredAndPutBack`). The limit on
  attempts then fails without bound (`PostedWithoutBound`), and it holds exactly otherwise (`TrackedThroughoutIff`).
- For an email that occurs twice, replacing the sing-box users is not the same as updating empty maps
  (`SyncIsUpdateOfEmptyIff`).

## Assumptions

- A public key is its canonical text, so the raw string and the text of the parsed key coincide. A prefix is
  its canonical form, with IPv4-mapped addresses taken as IPv4.
- Key and CIDR parsing are partial functions of the configuration: which texts parse is arbitrary.
- A kernel call either fully succeeds or leaves the device as it was; its answer is a parameter.
- A tick of the statistics loop is three steps (counters, emails, tracker), as the loop does not hold the lock of
  the user operations; every other operation may come between them. A reconciliation is one step, and
  cleanups come between ticks, since the same loop performs them.
- Counters are unbounded and not negative. Usage coefficients are exact reals. Database writes succeed.
- `recurrent` is positive in the results on attempts, as its validation demands (panel-main/app/models/settings.py:99).

## Model

| member | source | states |
|---|---|---|
| `Cidr.PeerIPAllowedOnInterface` | node-main/backend/wireguard/user_common.go:190-211 | the loop answers true exactly when there are no interface networks or one of them accepts the prefix by the address-length, containment and mask-length tests |
| `Cidr.AcceptedIffWithin` | node-main/backend/wireguard/user_common.go:198-207 | for all valid prefixes the three tests hold exactly when the whole address range of the peer prefix lies inside the network (section 3.1 of RFC 4632) and the prefix is not an IPv4-mapped one measured against an unmapped IPv6 network |
| `Cidr.AllowedIffCovered` | node-main/backend/wireguard/user_common.go:190-211 | acceptance over a list of networks: none given, or the range lies inside one of the same family that the IPv4 mapping does not hide |
| `Cidr.MappedPeerRefused` | node-main/backend/wireguard/user_common.go:198-203 | concrete input: `::ffff:10.0.0.2/128` lies inside `::/0` and is refused |
| `Claims.DesiredOf` | node-main/backend/wireguard/user_common.go:258-271 | the peer map contains, for every surviving user, its key with its own peer, and nothing else |
| `Claims.DesiredIsWellFormed` | node-main/backend/wireguard/user_common.go:213-280 | compatible users give one key per email, a prefix list that is never empty, and no prefix shared by two peers |
| `Claims.VisitCases` | node-main/backend/wireguard/user_common.go:250-271 | case by case, what visiting one more user must answer: a rejection is always justified by a clash, otherwise the recorded prefixes and the peer map stay exactly those of the users visited |
| `Claims.ClashGrows` | node-main/backend/wireguard/user_common.go:250-265 | a clash found among the users visited so far is a clash of the whole request |
| `Claims.ClashIff` | node-main/backend/wireguard/user_common.go:250-269 | a request clashes exactly when two of its users share a recorded prefix or both survive with the same key |
| `DesiredPeers.NormalizeUsers` | node-main/backend/wireguard/user_common.go:309-331 | the result lists the last usable occurrence of every email, each email once, in no promised order |
| `Membership.KeptUsers` | node-main/backend/wireguard/user_common.go:309-323 | on the user fields: an email is kept exactly when some user with it has a key and prefix texts, and the user kept is the last such one |
| `DesiredPeers.ScanPeerIps` | node-main/backend/wireguard/user_common.go:238-256 | a prefix of another user is reported exactly when one of the prefixes read before the first unparsable text is already taken; otherwise the prefixes are those inside the interface networks, all marked with the email |
| `DesiredPeers.VisitUser` | node-main/backend/wireguard/user_common.go:217-277 | one round of the loop keeps the invariant relating the visited users to the recorded prefixes and the peer map, or stops at a real clash |
| `DesiredPeers.CollectInOrder` | node-main/backend/wireguard/user_common.go:214-279 | the outer loop rejects exactly when the claims of its users clash, and otherwise returns the peers they amount to |
| `DesiredPeers.AllListed` | node-main/backend/wireguard/user_common.go:217-217 | reading a request of distinct emails from the front gives the claims of its map, so the order does not matter |
| `DesiredPeers.CollectDesiredPeers` | node-main/backend/wireguard/user_common.go:213-280 | for every order of the request: an error exactly when two users share a recorded prefix or two survivors share a key, otherwise the peer map determined by the users alone |
| `Membership.MemberIff` | node-main/backend/wireguard/user_common.go:217-277 | on the user fields: a user becomes a peer under key k if and only if the interface is among its inbounds, k is its key and parses, every text parses and one of them lies in the networks |
| `Membership.MemberPrefixes` | node-main/backend/wireguard/user_common.go:237-261 | the prefixes of a peer are the canonical forms of exactly its texts inside the networks, in their order |
| `Membership.CollideIff` | node-main/backend/wireguard/user_common.go:217-269 | two users exclude each other if and only if both belong to the interface with keys that parse and share a prefix read before a text that does not parse, or both become peers with the same key |
| `Membership.OutsidersDoNotCount` | node-main/backend/wireguard/user_common.go:218-220 | a user of other interfaces gets no peer and excludes nobody |
| `KernelDevice.BatchSettles` | node-main/backend/wireguard/user_common.go:67-115 | confluence: configs with distinct keys and no prefix claimed twice, in whatever order, leave the device that is read off the batch as a map, including prefix swaps and a removed peer's prefix being reused |
| `KernelDevice.OrderIrrelevant` | node-main/backend/wireguard/user_common.go:68-115 | every permutation of the kernel configs of a diff leaves the same peers, routes and counters |
| `KernelDevice.BuildInitialWGConfig` | node-main/backend/wireguard/manager.go:113-125 | on a fresh interface the initial configuration has the effect of applying all peers, whether or not the replace flag is set |
| `KernelDevice.Manager.ConfigureDevice` | node-main/backend/wireguard/manager.go:168-170 | a kernel call takes full effect or none; with the replace flag every old peer and counter is dropped first |
| `KernelDevice.Manager.InitializeWithPeers` | node-main/backend/wireguard/manager.go:128-194 | the device left behind by success and by each failure: untouched when the addresses or the leftover interface fail, empty when the new interface or its configuration fails, still configured when the clean-up of a late failure fails, and exactly the given peers on success |
| `KernelDevice.Manager.ApplyPeers` | node-main/backend/wireguard/manager.go:197-210 | no call for an empty batch, otherwise the batch on top of the current device |
| `KernelDevice.Manager.ApplyPeersReplaceAll` | node-main/backend/wireguard/manager.go:213-225 | the batch on an emptied device |
| `KernelDevice.Manager.Close` | node-main/backend/wireguard/manager.go:253-278 | the client is gone; the interface too, unless it cannot be deleted |
| `PeerStores.BijectiveDetermined` | node-main/backend/wireguard/peer_store.go:8-14 | a consistent pair of maps holds one key per email, and the email map is determined by the peer map |
| `PeerStores.ChangesBijective` | node-main/backend/wireguard/peer_store.go:42-76 | arbitrary removal and upsert lists keep emails and keys in bijection |
| `PeerStores.UpsertAllPeers` | node-main/backend/wireguard/peer_store.go:50-73 | upserts with distinct keys and emails put exactly these peers in place and displace exactly the peers that have one of their emails |
| `PeerStores.PeerStore.Init` | node-main/backend/wireguard/peer_store.go:25-38 | any list is inserted entry by entry into what the store holds |
| `PeerStores.InsertedLast` | node-main/backend/wireguard/peer_store.go:32-37 | whatever the list, the last entry of a key is its peer and the last entry of an email gives its key |
| `PeerStores.LoadedBijectiveIff` | node-main/backend/wireguard/peer_store.go:25-38 | a list loaded into the empty store gives a bijection if and only if its entries are the last of their key exactly when they are the last of their email |
| `PeerStores.LoadedDistinct` | node-main/backend/wireguard/peer_store.go:25-38 | a list with distinct keys and emails gives exactly its peers and their email map |
| `PeerStores.PeerStore.ApplyChanges` | node-main/backend/wireguard/peer_store.go:42-76 | for arbitrary lists: the new contents are the removals and then the upserts, and the returned keys are those that were really removed by the first list |
| `PeerStores.PeerStore.ReplaceAll` | node-main/backend/wireguard/peer_store.go:80-108 | any list replaces the contents as if inserted entry by entry into the empty store, and the returned keys are those that disappeared |
| `PeerStores.PeerStore.GetByEmail` | node-main/backend/wireguard/peer_store.go:111-119 | the peer found through the email map |
| `PeerStores.PeerStore.GetAll` | node-main/backend/wireguard/peer_store.go:130-139 | every stored peer once |
| `PeerStores.PeerStore.GetEmailMap` | node-main/backend/wireguard/peer_store.go:143-152 | key to email of every stored peer |
| `SyncDiffs.BuildSyncDiff` | node-main/backend/wireguard/user_common.go:51-137 | the configs are, by key, the replacements, additions and removals between stored and desired peers; the upserts are the changed, new and renamed peers; changed holds exactly when removals or upserts exist |
| `SyncDiffs.CompareExisting` | node-main/backend/wireguard/user_common.go:68-99 | removals, replacements and upserts of the stored peers, whatever the map order |
| `SyncDiffs.CompareTarget` | node-main/backend/wireguard/user_common.go:101-111 | additions of the peers not stored |
| `SyncDiffs.ComparePeer` | node-main/backend/wireguard/user_common.go:75-98 | for a peer that stays: an update config exactly when the prefixes differ and the new ones are not empty, an upsert exactly when prefixes or email differ and no quarantine applies |
| `SyncDiffs.IpnetsEqual` | node-main/backend/wireguard/user_common.go:75-85 | element-wise comparison decides equality of the prefix lists |
| `SyncDiffs.BuildRemoveConfigsForPeers` | node-main/backend/wireguard/user_common.go:282-303 | one removal for every key that parses, and those keys |
| `SyncDiffs.PlanParts` | node-main/backend/wireguard/user_common.go:64-115 | the concatenated configs have distinct keys and form the plan |
| `SyncDiffs.BuildTargetPeerConfigs` | node-main/backend/wireguard/user_common.go:144-164 | a full snapshot of the peers with prefixes, and the keys it contains |
| `SyncDiffs.FilterUpsertsByAppliedKeys` | node-main/backend/wireguard/user_common.go:169-180 | the length shortcut and the filter agree when the applied keys are among those of the upserts |
| `SyncDiffs.BuildPeerConfigsForRestart` | node-main/backend/wireguard/wireguard.go:301-317 | an error exactly when a peer has no prefixes, otherwise one add config per peer |
| `StatsTracker.UpdateEntry` | node-main/pkg/stats/tracker.go:74-114 | on the entry fields: when either counter fell or a deleted peer with pending bytes comes back, current minus base stays in both directions, otherwise each grows by the sample minus the old current; email, endpoint and activity; the invariant base <= current with its pending-delta rule is inductive, so the negative clamps change nothing |
| `StatsTracker.Tracker.ApplySample` | node-main/pkg/stats/tracker.go:63-114 | one sample changes the entry of its peer alone, and a peer seen for the first time owes its whole counter |
| `StatsTracker.Tracker.UpdateStatsBatch` | node-main/pkg/stats/tracker.go:49-61 | the samples of a batch in order |
| `StatsTracker.Tracker.ReadOne` | node-main/pkg/stats/tracker.go:125-148 | one line per direction with exactly the owed bytes; with reset the peer owes nothing or, if deleted, is forgotten |
| `StatsTracker.Tracker.GetStats` | node-main/pkg/stats/tracker.go:117-153 | a resetting read books the owed bytes of every requested peer once even when a key is requested twice; a plain read changes nothing and repeats a peer as often as requested |
| `StatsTracker.Tracker.GetUsersStats` | node-main/pkg/stats/tracker.go:156-187 | the same for all peers |
| `StatsTracker.Tracker.RemoveStats` | node-main/pkg/stats/tracker.go:261-277 | the peer is marked and keeps what it owes |
| `StatsTracker.Tracker.CleanupDeletedEntries` | node-main/pkg/stats/tracker.go:287-296 | only deleted peers that owe nothing are forgotten |
| `StatsTracker.BuildDeltaStats` | node-main/pkg/stats/interface_counters.go:51-75 | the report lines book exactly the positive part of both values under the given link, and zero lines are left out |
| `StatsTracker.Conservation` | node-main/pkg/stats/tracker.go:63-296 | for every sequence of samples, resetting reads, removals and cleanups, per peer and direction: booked plus owed equals the counted growth |
| `StatsTracker.ExactWhenUndisturbed` | node-main/pkg/stats/tracker.go:63-187 | without removal or rollback of a peer, booked plus owed equals its last sampled counter |
| `Reconcile.PartialEffect` | node-main/backend/wireguard/user_partial_sync.go:22-72 | on success the touched users have exactly their desired peers in the store, and every other user keeps store entry, counter, statistics and all routes the request does not claim |
| `Reconcile.PartialKeepsGood` | node-main/backend/wireguard/user_partial_sync.go:22-72 | every outcome keeps the bijection, usable peers, equal peer sets of store and kernel, and routes only to holders |
| `Reconcile.PartialAgreesIff` | node-main/backend/wireguard/user_partial_sync.go:36-66 | from every state satisfying the invariant, success ends in agreement if and only if the backend runs or nothing is stored in the end, no desired prefix belongs to a stored peer of a user outside the request, and the kernel still routes every prefix that the request does not send |
| `Reconcile.PartialFromAgreement` | node-main/backend/wireguard/user_partial_sync.go:36-66 | in particular, from agreement, if and only if no desired prefix belongs to a stored peer of a user outside the request |
| `Reconcile.PartialIdempotent` | node-main/backend/wireguard/user_partial_sync.go:22-72 | an identical second request has an empty diff, needs no kernel call and changes nothing |
| `Reconcile.FullKeepsGood` | node-main/backend/wireguard/user_full_sync.go:9-55 | every outcome keeps the invariant |
| `Reconcile.FullAgreesIff` | node-main/backend/wireguard/user_full_sync.go:23-49 | success ends in agreement if and only if store and kernel agreed before or the store differed from the desired peers |
| `Reconcile.CoveringPartialIsFullIff` | node-main/backend/wireguard/user_partial_sync.go:29-66 | when every stored user occurs in the request, partial and full synchronisation give the same answer, store, statistics, kernel peers and routes, key swaps and cycles included, if and only if: the request is rejected, or nothing is to change, or a working kernel routes every prefix that stays with its peer, or the kernel is unavailable and the request does more than rename peers |
| `Reconcile.CoveringPartialIsFull` | node-main/backend/wireguard/user_partial_sync.go:29-66 | in particular in a running backend with a working kernel that agrees with its store |
| `Reconcile.SnapshotAgrees` | node-main/backend/wireguard/user_full_sync.go:27-40 | a full snapshot on an empty device routes exactly the prefixes of its peers, with fresh counters |
| `Reconcile.RestartKeepsGood` | node-main/backend/wireguard/wireguard.go:239-288 | a restart keeps the invariant, never meets a peer without prefixes, and starts every counter at zero |
| `Reconcile.RestartAgreesIff` | node-main/backend/wireguard/wireguard.go:239-288 | a restart restores agreement if and only if no two stored peers hold the same prefix |
| `Reconcile.RestartConfigsEffect` | node-main/backend/wireguard/wireguard.go:301-317 | whatever the order of the peers, the kernel ends up with all of them, fresh counters and routes only to holders |
| `Reconcile.StartupAgrees` | node-main/backend/wireguard/wireguard.go:120-205 | startup with compatible users establishes the invariant and agreement |
| `Outcomes.PartialOutcome` | node-main/backend/wireguard/user_partial_sync.go:29-64 | for every state and request: refused exactly when two users collide; otherwise KeyOwned exactly when a desired key is stored for a user outside the request, NotStarted or KernelFailed exactly when a peer is new, changed or gone and the kernel is not available, and accepted in all other cases; a failure changes nothing |
| `Outcomes.PartialState` | node-main/backend/wireguard/user_partial_sync.go:47-69 | after success, field by field: stored peers, kernel peers and counters, the route of every prefix, and the marked statistics |
| `Outcomes.KeysSwapped` | node-main/backend/wireguard/user_partial_sync.go:36-45 | concrete input: two users exchange keys while a third is outside the request; accepted, with every prefix routed to its user |
| `Outcomes.FullOutcome` | node-main/backend/wireguard/user_full_sync.go:12-42 | refused exactly when two users collide; otherwise accepted exactly when the store holds the desired peers or the running kernel accepts, with the error telling which is missing |
| `Outcomes.FullState` | node-main/backend/wireguard/user_full_sync.go:23-54 | after success, field by field: nothing if nothing was to change, otherwise exactly the desired peers with fresh counters and their routes, and the statistics of the others marked |
| `Outcomes.RestartOutcome` | node-main/backend/wireguard/wireguard.go:239-288 | a restart succeeds exactly in a running backend whose kernel accepts; NotStarted exactly when it does not run, KernelFailed exactly when the kernel refuses |
| `Outcomes.RestartState` | node-main/backend/wireguard/wireguard.go:265-288 | store and statistics untouched, every stored peer with a fresh counter, every prefix routed to the peer sent last among its holders |
| `Outcomes.UpdateAndRestartOutcome` | node-main/backend/wireguard/user.go:41-50 | succeeds exactly if the update and the restart do; when only the restart fails, the update remains |
| `Outcomes.StartupState` | node-main/backend/wireguard/wireguard.go:120-205 | startup leaves exactly the desired peers in store and kernel, their routes, fresh counters and no statistics |
| `Backend.EveryStateGood` | node-main/backend/wireguard/user.go:12-50 | the invariant of store and kernel holds in every state of every run of the operations, kernel calls failing or succeeding, with traffic, interrupted ticks, reads and cleanups in between |
| `Backend.EveryStateAccounted` | node-main/pkg/stats/tracker.go:63-296 | the byte accounting of a peer, including what a tick under way may still book, holds in every run as long as no tick applies a counter of the peer that it read before the peer was forgotten |
| `Backend.KernelFollowsStore` | node-main/backend/wireguard/user.go:12-50 | in every state of every run, without conditions on the requests: the store is a bijection, a running kernel has exactly its peers, routes go only to holders, and a restart never fails for a peer without prefixes |
| `Backend.StoreAndKernelAgree` | node-main/backend/wireguard/user.go:12-50 | in every run whose partial requests take no prefix from users outside them, a running kernel routes exactly the prefixes of the store and no two peers share one |
| `Backend.NeverOverReported` | node-main/pkg/stats/tracker.go:63-187 | in such a run, per direction, reported plus owed bytes never exceed the bytes really transferred, through counter restarts, removals, re-adds and reconciliations that come between the parts of a tick |
| `Backend.ApplyBoundedIff` | node-main/pkg/stats/tracker.go:63-71 | the exact condition for one application of samples: a peer forgotten under way stays within its bytes if and only if its counter fits on top of what is booked already; every other peer always does |
| `Backend.ExactWhileCounterRunsOn` | node-main/pkg/stats/tracker.go:63-187 | in every run in which the kernel counter of a peer does not fall or leave, reported plus owed bytes are exactly the counter applied last, and the counter is the bytes really transferred |
| `StaleSample.StaleSampleCountsAgain` | node-main/backend/wireguard/jobs.go:53-95 | why the condition is needed: from every reachable state with an idle loop, when the removal of a peer and a resetting read come between the parts of a tick, the whole kernel counter of the peer is reported once more |
| `StaleSample.OverReportingRun` | node-main/backend/wireguard/jobs.go:53-95 | a concrete run from startup after which a user is reported twice the bytes it transferred |
| `Backend.ReconciliationRestarts` | node-main/backend/wireguard/user_partial_sync.go:61-69 | reconciliations only continue or restart counters, and mark statistics deleted only for keys the kernel no longer has |
| `Backend.NextKeepsGood` | node-main/backend/wireguard/user.go:12-50 | every single step keeps the invariant of store and kernel |
| `Backend.NextKeepsAccounted` | node-main/pkg/stats/tracker.go:63-296 | every single step keeps the byte accounting, except the application of a counter of a peer forgotten under way |
| `Backend.MovesKeepAgree` | node-main/backend/wireguard/user.go:12-50 | every single step keeps agreement while the backend runs |
| `Backend.BatchObservesEach` | node-main/backend/wireguard/jobs.go:64-95 | a tick has at most one sample per peer, so applying the batch in order equals observing each peer once |
| `Backend.SamplesListed` | node-main/backend/wireguard/jobs.go:61-93 | the samples of a tick are one for each kernel peer with a handshake that the store knows, with its own counter, endpoint and stored email |
| `LostPrefix.StolenPrefixStaysLost` | node-main/backend/wireguard/user_partial_sync.go:36-66 | concrete run showing the condition is needed: a prefix is taken from a user outside the request, the taker leaves, and a full synchronisation with the unchanged user list succeeds without restoring the route |
| `LostPrefix.PathsDivide` | node-main/backend/wireguard/user_partial_sync.go:36-66 | a covering request that keeps the prefixes of a peer, one of them lost, and changes something else succeeds on both paths, and only the full one routes the prefix again |
| `LostPrefix.CoveringPathsDiffer` | node-main/backend/wireguard/user_partial_sync.go:36-66 | concrete input: such a request in the state that the run above reaches |
| `LostPrefix.RenameNeedsNoKernel` | node-main/backend/wireguard/user_partial_sync.go:53-66 | a covering request that only renames peers succeeds on the partial path and fails on the full one when the kernel refuses or the backend is stopped |
| `LostPrefix.RenameExample` | node-main/backend/wireguard/user_common.go:75-98 | concrete input: the own entry of the stored user is unusable and another user comes with its key and prefixes |
| `WireGuards.CollectRequest` | node-main/backend/wireguard/user_partial_sync.go:22-34 | the touched emails and the peers of a request, or its rejection, are determined by the users |
| `WireGuards.StoreCommit` | node-main/backend/wireguard/user_partial_sync.go:66-66 | the removals and upserts of the diff turn the store into the untouched peers and the desired ones |
| `WireGuards.ChangedIff` | node-main/backend/wireguard/user_full_sync.go:18-25 | an unchanged diff means that the store already holds exactly the desired peers |
| `WireGuards.WireGuard.New` | node-main/backend/wireguard/wireguard.go:120-205 | startup succeeds exactly for a usable private key, compatible users, an available manager and an interface that can be set up, and then has the startup state |
| `WireGuards.WireGuard.BuildExistingPeersSubsetForTouched` | node-main/backend/wireguard/user_partial_sync.go:12-20 | the lookup by email equals the filter over all stored peers |
| `WireGuards.WireGuard.CheckOwners` | node-main/backend/wireguard/user_partial_sync.go:36-45 | true exactly when no desired key belongs to a user outside the request |
| `WireGuards.WireGuard.SyncUsersPartialReconcile` | node-main/backend/wireguard/user_partial_sync.go:22-72 | state and answer are those of the partial reconciliation, in every branch |
| `WireGuards.WireGuard.BuildExistingPeersByKeySnapshot` | node-main/backend/wireguard/user_full_sync.go:57-65 | all stored peers by key |
| `WireGuards.WireGuard.SyncUsersFull` | node-main/backend/wireguard/user_full_sync.go:9-55 | state and answer are those of the full synchronisation, in every branch |
| `WireGuards.WireGuard.RestartLocked` | node-main/backend/wireguard/wireguard.go:239-288 | state and answer are those of the restart, or the private-key error |
| `WireGuards.WireGuard.SyncUser` | node-main/backend/wireguard/user.go:12-21 | a missing user is an error without effect; otherwise a partial reconciliation with this user alone |
| `WireGuards.WireGuard.UpdateUsersAndRestart` | node-main/backend/wireguard/user.go:41-50 | partial reconciliation and then a restart, which is left out when the first part fails |
| `WireGuards.WireGuard.Shutdown` | node-main/backend/wireguard/wireguard.go:291-354 | the manager is gone, store and statistics stay; the interface stays behind only if it cannot be deleted |
| `WireGuards.WireGuard.UpdateConnectedPeers` | node-main/backend/wireguard/jobs.go:39-96 | an uninterrupted tick: one observation for every kernel peer with a handshake that the store knows, none for others |
| `WireGuards.WireGuard.ApplySamples` | node-main/backend/wireguard/jobs.go:95-95 | the last part of a tick observes each sample once, on whatever state it meets |
| `WireGuards.WireGuard.CollectSamples` | node-main/backend/wireguard/jobs.go:61-93 | the samples made of counters read earlier and the emails of the store now |
| `WireGuards.WireGuard.HandleUserStats` | node-main/backend/wireguard/stats.go:28-38 | the report books exactly the owed bytes of the one peer of the email, under its email |
| `InterfaceCounters.Reference` | node-main/pkg/stats/interface_counters.go:29-38 | the baseline a reading is measured against never exceeds it, and is the stored one unless a counter fell below it |
| `InterfaceCounters.InterfaceCountersTracker.Delta` | node-main/pkg/stats/interface_counters.go:25-49 | never negative, measured against that baseline, which a reset moves to the reading |
| `InterfaceCounters.NeverMoreThanGrowth` | node-main/pkg/stats/interface_counters.go:25-49 | over any sequence of readings, resetting deltas and the final delta together never exceed what the counter grew |
| `InterfaceCounters.Telescopes` | node-main/pkg/stats/interface_counters.go:25-49 | when no counter falls they add up to the last counter less the first, whatever plain readings interleave |
| `UsageLedgers.ProcessNodeChunk` | panel-main/app/jobs/record_usages.py:64-75 | the tally of the charges of one node |
| `UsageLedgers.MergeUsageDicts` | panel-main/app/jobs/record_usages.py:78-87 | every user of some dictionary, with the sum over all dictionaries |
| `UsageLedgers.MergeInGroups` | panel-main/app/jobs/record_usages.py:584-592 | merging in groups and then merging the groups gives the same sums |
| `UsageLedgers.ProcessUsageSync` | panel-main/app/jobs/record_usages.py:545-553 | the sequential fold over all measurements |
| `UsageLedgers.CalculateUsersUsage` | panel-main/app/jobs/record_usages.py:536-599 | small input, missing pool and parallel computation all give the sequential fold |
| `UsageLedgers.BumpAllAt` | panel-main/app/jobs/record_usages.py:70-75 | order-free meaning of accumulation: per key the start value plus the sum of its entries |
| `UsageLedgers.BookedWithinTruncation` | panel-main/app/jobs/record_usages.py:71-74 | n non-negative measurements with a non-negative coefficient are booked in (coefficient * total - n, coefficient * total] |
| `UsageLedgers.ChargeCutsOff` | panel-main/app/jobs/record_usages.py:73-73 | a charge is the product cut off toward zero, for every sign of value and coefficient |
| `UsageLedgers.CalculateAdminUsage` | panel-main/app/jobs/record_usages.py:512-533 | on the admin map itself: every admin other than 0 is charged the values of the users that map to it, and occurs exactly when there is one |
| `UsageLedgers.AdminCharge` | panel-main/app/jobs/record_usages.py:527-531 | the entries charged to an admin add up to the entries of the users that map to it |
| `UsageLedgers.AdminChargedForItsUsers` | panel-main/app/jobs/record_usages.py:527-533 | every admin is charged the sum of the charges of its users |
| `UsageLedgers.DialectsAgree` | panel-main/app/jobs/record_usages.py:96-167 | insert-or-ignore of zero rows followed by adding all values leaves the table that sequential insert-or-add leaves, for any table and repeated keys |
| `UsageLedgers.RecordUserStatsBatched` | panel-main/app/jobs/record_usages.py:333-372 | the row table after the batch, in every dialect |
| `UsageLedgers.UserIsSumOfRows` | panel-main/app/jobs/record_usages.py:349-363 | a user's increment is the sum of what its per-node rows gain |
| `UsageLedgers.LedgersAgree` | panel-main/app/jobs/record_usages.py:638-688 | the user, admin and row ledgers book the same measurements, unknown users staying out of the row ledger; every admin gets the charges of the users that map to it |
| `WebhookQueue.SendNotifications` | panel-main/app/jobs/send_notifications.py:51-119 | the queue left behind, untouched when disabled, and the posted batches: exactly the ready notifications in order, each once, in batches of 50 of which only the last may be smaller |
| `WebhookQueue.SendBatches` | panel-main/app/jobs/send_notifications.py:93-119 | the batch loop covers every ready notification once and puts the refused ones with tries left back |
| `WebhookQueue.PostBatch` | panel-main/app/jobs/send_notifications.py:95-111 | a refused batch costs each of its notifications one try |
| `WebhookQueue.DrainLists` | panel-main/app/jobs/send_notifications.py:69-91 | every notification is ready, put back or dropped, exactly as its tries and send time say, and put back once more for each malformed item directly behind it |
| `WebhookQueue.ExactlyOneFate` | panel-main/app/jobs/send_notifications.py:69-119 | for every queue that does not begin with a malformed item, on the fields of the notification: posted at most once, exactly if tries remain and its time has come; a refused batch costs a try and delays it by `timeout` after the clock of that batch; put back exactly if it waits or keeps tries after a refusal, plus once for each malformed item directly behind it |
| `WebhookQueue.BatchPosition` | panel-main/app/jobs/send_notifications.py:94-96 | a notification is in the batch of its position divided by 50 |
| `WebhookQueue.EchoesCount` | panel-main/app/jobs/send_notifications.py:90-91 | the malformed items counted for a notification are those between it and the next one |
| `WebhookQueue.DrainExactIffValid` | panel-main/app/jobs/send_notifications.py:79-91 | the drain passes every live notification on exactly once if and only if the queue holds no malformed item |
| `WebhookQueue.DeliveredAndPutBack` | panel-main/app/jobs/send_notifications.py:90-91 | concrete input: a delivered notification followed by a malformed item is put back unchanged |
| `WebhookQueue.RunTrackedIff` | panel-main/app/jobs/send_notifications.py:51-119 | one run keeps attempts and tries in step, queued notifications distinct and with tries left, if and only if the job is disabled, ends on a malformed first item or meets valid items only |
| `WebhookQueue.TrackedThroughoutIff` | panel-main/app/jobs/send_notifications.py:51-119 | over any sequence of new notifications, malformed items and runs: they stay in step throughout if and only if every run is of that kind |
| `WebhookQueue.PostedAtMostRecurrent` | panel-main/app/jobs/send_notifications.py:82-111 | as long as the runs are of that kind, no notification is posted more than `recurrent` times, and a queued one has been posted as often as it has tries |
| `WebhookQueue.PostedWithoutBound` | panel-main/app/jobs/send_notifications.py:90-91 | a history for every number m, in which all posts succeed and a malformed item precedes each run: one notification is posted m times, whatever `recurrent` is |
| `ChunkedUsers.ReceiveChunks` | node-main/controller/rpc/user.go:45-73 | the chunks up to and including the first flagged one, users of a repeated index in order of arrival, and the index of the flagged one |
| `ChunkedUsers.BuildUsersFromChunks` | node-main/controller/users_chunk.go:10-29 | an error exactly for a missing flag, a missing index (the first one) or no users; otherwise the users of all indices in order; at most one step more than there are chunks, however large the last index |
| `ChunkedUsers.RoundTrip` | node-main/controller/users_chunk.go:10-29 | a list split into chunks and delivered in any order with the flagged chunk last is rebuilt exactly |
| `ChunkedUsers.CollectedOneMore` | node-main/controller/rpc/user.go:64-64 | one more chunk appends its users under its index |
| `ChunkedUsers.PayloadConcat` | node-main/controller/rpc/user.go:64-64 | a repeated index collects everything sent under it, in order of arrival |
| `SingBoxUsers.Inbound.Replace` | node-main/backend/singbox/config.go:185-203 | one inbound holds, for every email, the entry of its last occurrence that has one here |
| `SingBoxUsers.Inbound.Update` | node-main/backend/singbox/config.go:208-226 | the last occurrence of every email decides, other emails keep their entry |
| `SingBoxUsers.SyncedEntry` | node-main/backend/singbox/config.go:189-199 | after a replacement an email has the entry built for its last user that lists this tag and can be built |
| `SingBoxUsers.UpdatedEntry` | node-main/backend/singbox/config.go:212-224 | after an update the last user with the email decides: its entry, or none when it does not list this tag or cannot be built; other emails keep theirs |
| `SingBoxUsers.Config.SyncUsers` | node-main/backend/singbox/config.go:185-204 | all inbounds replaced, excluded ones untouched |
| `SingBoxUsers.Config.UpdateUsers` | node-main/backend/singbox/config.go:207-227 | all inbounds updated, excluded ones untouched |
| `SingBoxUsers.UpdateTwice` | node-main/backend/singbox/config.go:207-227 | two updates are one update with the concatenated list |
| `SingBoxUsers.SyncIsUpdateOfEmptyIff` | node-main/backend/singbox/config.go:184-227 | replacing equals updating empty maps if and only if no email whose last occurrence has no entry has an earlier one that does |
| `SingBoxUsers.SyncIsUpdateOfEmpty` | node-main/backend/singbox/config.go:184-227 | in particular for lists in which every email occurs once |
| `SingBoxUsers.WithdrawnExample` | node-main/backend/singbox/config.go:184-227 | concrete list on which the two operations differ |
| `SingBoxUsers.EntriesStayFiled` | node-main/backend/singbox/config.go:184-227 | entries stay filed under the email they are named after |
| `SingBoxUsers.Inbound.Render` | node-main/backend/singbox/config.go:331-357 | the rendered list holds the entry of every user once; a classic Shadowsocks inbound takes the password of one of its users and keeps the previous one when it has none |

## Left out

- netlink, nftables, host routing, subprocess control, gRPC and REST plumbing, tickers and logging: input and output.
- The preshared key, the keepalive interval, the listen port and nil peers in store lists: they do not touch the maps.
- Sorting of keys before a kernel call: any order is allowed instead, so the proofs do not depend on it.
- GetStatsEntries, AnyActiveSince, EndpointActivity and GetByKey: plain lookups. ClearAllStats drops what is owed by intent.
- Entries of the tracker are values in its map, not shared pointers; their fields are updated by replacing the value.
- 64-bit width of byte counters; only the chunk index has its width, where the loop wraps around.
- ChunkedUsers.BuildUsersFromChunks: does not cover a complete set of all 2^64 chunks, on which the loop in the source does not end.
- ChunkedUsers.ReceiveChunks: a receive error other than the end of the stream, which aborts the call, and the choice between update and restart by list length.
- buildUserEntry of sing-box: an arbitrary partial function of inbound and user whose entries carry the user's email.
- collectUserEmails, ApplyAPI and the other parts of the sing-box configuration: field copying.
- UsageLedgers.CalculateUsersUsage: the thread pool is a list of independent results in task order; timeouts and retries are not modelled.
- Floating-point rounding in value times coefficient.
- WebhookQueue.SendNotifications: items that other producers enqueue while the job runs are not modelled, nor is the payload.
- An empty item of the webhook queue, which ends the draining early and leaves the items behind it queued.
- Node statistics (record_node_stats_batched): the same upsert with one row per node.
- Panel CRUD, subscription, host configuration, dashboard and command line: outside this model.
