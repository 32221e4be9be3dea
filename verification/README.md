# Verification of OCCA's presence and routing protocol

OCCA is a chat system. A user holds a connection to one of many event servers; a gateway finds out which server
that is and forwards events to it. This project models that part of the system in Dafny and proves what it promises:

- **Cluster membership.** Event servers write themselves into etcd under a lease; the gateway caches the namespace
  from a snapshot and the watch events after it (`Etcd`, `Lease`, `Manager`, `Registry`, `Membership`,
  `MembershipTheorems`).
- **Presence.** Event servers rewrite a Redis entry per connected user; clients send heartbeats to the gateway
  (`Memstore`, `HeartTable`, `Hearts`, `HeartTiming`, `Presence`, `FailedHearts`, `HeartLoop`,
  `ActiveUsers`, `ClientHeartbeat`).
- **Connections and shutdown** of one event server (`EventServer`, `ConnectionServer`).
- **Routing.** The gateway joins the presence store with its registry (`Routing`).
- **Identifiers and slices** used by all of them (`Ids`, `Slices`).

Each protocol is a step machine: a state value, a set of actions with their guards, and a theorem about every state
of every run, so every interleaving of the atomic steps is covered. `Presence` and `EventServer` are joined: each
server of the presence machine is an `EventServer` state. `Routing` joins `Presence` and `Membership`. The objects
of the program (`LeasedClient`, `ClusterManager`, `ServerRegistry`, `HeartBeater`, `Server`, `RedisClient`, `Tracker`,
`Client`) are classes whose methods keep the loops of the source. Their contracts state what a call leaves in the fields
and in the stores; `WatchLoopRefinesDeliveries`, `HeartIsLoop`, `RunIsLoop`, `RefreshRefinesSteps` and `ServeSteps` tie
the watch loop, the heartbeat loops of server and client, the refreshes and ServeConnection to the steps of the
machines. Time is an integer number of nanoseconds.

etcd and Redis are modelled by their contracts. etcd: every accepted put and every end of a lease that deletes keys
takes a new revision and is logged; a put under a dead lease is rejected; a put moves its key to the new lease; a
watch reads the log in order from a start revision; any request may fail before or after etcd has handled it. Redis:
an entry is live strictly before its expiry; KEYS returns every live match once, MGET one value per key. Marshalled
JSON is a datatype whose decoder inverts it; a missing field keeps the value of the receiver, other bytes do not
decode. Network replies, clock readings, random draws and the order in which a map is ranged over are parameters of
methods and choices of actions.

## Where the code departs from its intent

- A lost lease is not always signalled. `leaseLostCh` is documented as the way to learn of the loss
  (src/pkg/etcd/lease.go:43-44), but it is closed only after a successful Revoke, and Revoke fails on a lease that has
  already expired; the answer to a Revoke that etcd has handled can also be lost. `LostLeaseUnsignalled` gives a run, and
  `SignalledExactly` the condition: the loss is signalled if and only if the process's own Revoke found the lease alive
  and its answer was not lost. `ExpiredLeaseIsNeverSignalled` shows that the other losses stay silent in all later
  states, and that LeaveCluster can then not return nil.
- A second connection of the same user overwrites the table entry. `OverwrittenReachable` gives a run to a call that waits
  overwritten; `OverwrittenNeverWakes` shows that it then waits forever, also across a shutdown; `ShutdownWakesTheTable`
  states exactly which calls a shutdown wakes.
- A heart whose write failed ends but stays in the table. `DarkReachable` gives a run to a connected user whose call waits
  and who cannot be resolved; `DeadHeartBlocksRelaunch` shows that no call can then launch a new heart;
  `ResolvableExactly` and `StaysResolvableExactly` state exactly when a user with a heart stays resolvable.
- Presence of a connected user is continuous for every jitter exactly when writes commit within 9 seconds of their
  ticks (`HeartTiming.LatencyBoundIsExact`), and for a client exactly when an iteration takes less than 10 seconds
  (`ClientHeartbeat.LatencyBoundIsExact`). At most one write follows a stop exactly when the writes return, and not only
  commit, less than 10 seconds after their ticks (`HeartTiming.DecayBoundIsExact`).
- The cache of the gateway follows etcd only if every value is stored under the key made from its own ID
  (`AgreementNeedsWellKeyed`); the machine's writers do so.
- Two collections share flat keys exactly when one name followed by a separator begins the other (`CollideExactly`,
  `InjectiveExactly`); separator-free names never do. The listing pattern matches exactly one collection if and only if
  neither prefix nor name holds a glob metacharacter (`PatternIsExact`).

## Model

| member | source | states |
|---|---|---|
| `Etcd.WatchFromStable` | src/pkg/eventserver/membership/registry.go:72-73 | the place in the event log at which a watch begins is fixed by its start revision and not moved by later events |
| `Etcd.KillRemovesAttached` | src/pkg/etcd/lease.go:99-101 | revoking or expiring a lease deletes exactly the keys whose last put named it |
| `Etcd.KillKeepsInv` | src/pkg/etcd/lease.go:99-101 | after a lease ends, the key space is still what its event log replays to |
| `Lease.StepIsSafe` | src/pkg/etcd/lease.go:45-116 | no step of Start, the keep-alive goroutine or Close calls Revoke twice, closes the channel twice, turns leaseOK back on, or closes the channel except after an answered Revoke |
| `Lease.LeasedClient.StartLease` | src/pkg/etcd/lease.go:45-66 | Start's three outcomes: no lease, a lease that is not kept alive, or a lease with leaseOK set |
| `Lease.LeasedClient.KeepAlive` | src/pkg/etcd/lease.go:72-87 | nothing but responses leaves the state alone; the first other input, a closed close channel or a closed response channel, calls Revoke once, clears leaseOK and ends the loop, and the channel is closed exactly when Revoke succeeded |
| `Lease.KeepAliveEndsOnce` | src/pkg/etcd/lease.go:72-105 | the same of the loop as a function of its inputs, whatever the input that ends it |
| `Lease.LeasedClient.InvalidateLease` | src/pkg/etcd/lease.go:89-105 | fails without effect on an invalid lease; else clears leaseOK and closes the channel exactly when Revoke succeeded |
| `Lease.LeasedClient.AwaitLost` | src/pkg/etcd/lease.go:110-115 | Close returns nil only after the channel was closed, an error only after a timeout |
| `MembershipTheorems.LeaseSignalling` | src/pkg/etcd/lease.go:45-116 | in every run with one Start and one Close: at most one Revoke, at most one close of leaseLostCh and only with the lease dead at etcd, leaseOK never true again |
| `MembershipTheorems.ExpiredLeaseIsNeverSignalled` | src/pkg/etcd/lease.go:89-105 | a lease that died before its Revoke reached etcd is never signalled in any later state, and leaving never returns nil |
| `MembershipTheorems.SignalledExactly` | src/pkg/etcd/lease.go:82-104 | once the goroutine has ended, the loss has been signalled if and only if the process's own Revoke found the lease alive and no answer to it was lost |
| `MembershipTheorems.SignalledOnlyByOwnRevoke` | src/pkg/etcd/lease.go:99-102 | the channel is only ever closed after a Revoke that killed a live lease |
| `MembershipTheorems.LostLeaseUnsignalled` | src/pkg/etcd/lease.go:43-44 | a reachable state in which the lease is gone, the goroutine has ended and nobody was told |
| `Manager.ClusterManager.JoinCluster` | src/pkg/eventserver/membership/manager.go:59-71 | joining succeeds exactly when the lease is granted and kept alive, the info has an ID and its put is answered; what it leaves in the lease and in etcd for every other outcome, lost answers included |
| `Manager.ClusterManager.RefreshInfo` | src/pkg/eventserver/membership/manager.go:96-117 | succeeds exactly when there is info with an ID, etcd accepts the put and answers it; the info is then under the key of its ID with the lease, and an error before the put changes nothing |
| `Manager.ClusterManager.RefreshInfoLoop` | src/pkg/eventserver/membership/manager.go:73-94 | failed refreshes are skipped; the loop ends at the first lost lease or close |
| `Manager.ClusterManager.LeaveCluster` | src/pkg/eventserver/membership/manager.go:119-123 | closes the manager's and the lease client's close channels before it waits |
| `Manager.RefreshRefinesSteps` | src/pkg/eventserver/membership/manager.go:96-117 | a refresh is the machine's send of a put followed by its arrival at etcd or its loss, and succeeds exactly when etcd accepts and answers |
| `Manager.LoopStoresLast` | src/pkg/eventserver/membership/manager.go:73-94 | after the loop the key of a server holds what the last turn that reached etcd has put, over all turns before the first other input |
| `Manager.LoopLeavesOthers` | src/pkg/eventserver/membership/manager.go:73-94 | a key that no turn puts stays as it was |
| `Manager.DeadLeaseWritesNothing` | src/pkg/eventserver/membership/manager.go:73-117 | a refresh loop whose lease is dead never changes etcd, whatever it is told to write |
| `MembershipTheorems.NoResurrection` | src/pkg/eventserver/membership/manager.go:73-123 | after LeaveCluster has returned nil the process's key is absent in every later state, unless another process has the same ID |
| `MembershipTheorems.LateRefreshRejected` | src/pkg/eventserver/membership/manager.go:88-123 | a refresh still in flight when LeaveCluster returned nil is rejected by etcd |
| `MembershipTheorems.EndedLoopIsSilent` | src/pkg/eventserver/membership/manager.go:73-94 | after a failed join or the end of the refresh loop nothing new is sent to etcd |
| `MembershipTheorems.LeftReachable` | src/pkg/eventserver/membership/manager.go:59-123 | a run in which a process joins, refreshes, leaves with nil, and has a refresh in flight |
| `MembershipTheorems.WatchedMemberReachable` | src/pkg/eventserver/membership/registry.go:52-77 | a run in which a gateway that watches knows a joined server |
| `MembershipTheorems.ExactMembership` | src/pkg/eventserver/membership/manager.go:59-117 | with distinct IDs the namespace holds exactly the servers whose last accepted refresh is under a live lease, each with that refresh's info |
| `Registry.ServerRegistry.Start` | src/pkg/eventserver/membership/registry.go:52-77 | succeeds exactly when the Get does and every value decodes, and opens the watch one revision later; a failed load leaves the servers before the first undecodable value |
| `Registry.LoadCompletes` | src/pkg/eventserver/membership/registry.go:61-68 | the load is complete exactly when every value decodes, and the cache then holds all that was loaded |
| `Registry.LoadStopsAt` | src/pkg/eventserver/membership/registry.go:61-68 | a load that ends early has stored exactly the servers before the first value that does not decode |
| `Registry.ServerRegistry.Resolve` | src/pkg/eventserver/membership/registry.go:79-89 | answers the cached info, or an error when there is none |
| `Registry.ServerRegistry.SelectServerForConnection` | src/pkg/eventserver/membership/registry.go:91-111 | fails only on an empty registry, else returns the drawn server of the cache |
| `Registry.ServerRegistry.WatchForUpdates` | src/pkg/eventserver/membership/registry.go:114-168 | applies every event of every response before the first close, cancellation or error, in order, and nothing after it |
| `MembershipTheorems.WatchLoopRefinesDeliveries` | src/pkg/eventserver/membership/registry.go:114-168 | when the responses carry the log from cut to cut, the whole loop does what the machine's single deliveries do up to the last cut |
| `MembershipTheorems.WatchLoopAgrees` | src/pkg/eventserver/membership/registry.go:114-168 | after the loop the cache is the projection of the namespace at the last cut |
| `Registry.ServerRegistry.ApplyResponse` | src/pkg/eventserver/membership/registry.go:131-165 | applies the events of a response in order: puts by the ID in the value, deletes by the key suffix |
| `Registry.WellKeyedStepAgrees` | src/pkg/eventserver/membership/registry.go:131-165 | applying a well-keyed event keeps the cache the projection of the namespace |
| `Registry.AgreementNeedsWellKeyed` | src/pkg/eventserver/membership/registry.go:133-163 | an event keeps every agreeing cache in agreement exactly when its key is the namespace followed by the ID in its value |
| `Registry.SnapshotAgrees` | src/pkg/eventserver/membership/registry.go:56-68 | a snapshot of a well-keyed namespace always loads, and the cache is then its projection, in whatever order the keys come |
| `MembershipTheorems.WatchFromExact` | src/pkg/eventserver/membership/registry.go:72-73 | a watch begins right after the last event below its start revision: no gap and no overlap |
| `MembershipTheorems.CacheAgreement` | src/pkg/eventserver/membership/registry.go:52-77 | in every reachable state the cache is the projection of the namespace after an event prefix that covers the snapshot; when all events are applied it is the current store |
| `MembershipTheorems.AppliedPrefixGrows` | src/pkg/eventserver/membership/registry.go:114-168 | the applied prefix only grows; a watch that has ended freezes the cache at its last prefix |
| `MembershipTheorems.ResponseRefinesDeliveries` | src/pkg/eventserver/membership/registry.go:131-165 | the loop over a response does what the single deliveries of the machine do |
| `HeartTable.TableOverRuns` | src/pkg/eventserver/rtconn/heartbeat.go:57-128 | over every sequence of Launch, Stop and Close each stop channel is open exactly while it is its user's entry, and is closed at most once |
| `HeartTable.OneOpenHeart` | src/pkg/eventserver/rtconn/heartbeat.go:57-77 | a user never has two open stop channels |
| `Hearts.AddJitter` | src/pkg/eventserver/rtconn/heartbeat.go:130-132 | the jittered period is at least the duration and less than a tenth above it |
| `Hearts.HeartBeater.LaunchForUser` | src/pkg/eventserver/rtconn/heartbeat.go:57-77 | fails exactly when the user has a heart, else enters a new open channel for the user and changes no other entry |
| `Hearts.HeartBeater.StopForUser` | src/pkg/eventserver/rtconn/heartbeat.go:98-115 | fails exactly when the user has no heart, else closes its channel and removes it |
| `Hearts.HeartBeater.Close` | src/pkg/eventserver/rtconn/heartbeat.go:117-128 | the range that deletes as it goes closes every heart once, ends with an empty map and no error |
| `Hearts.HeartBeater.HeartBeat` | src/pkg/eventserver/rtconn/heartbeat.go:79-96 | the user's entry is the one of the last write before the first failed Set or seen stop, with a 20 second TTL; no other item changes |
| `Hearts.EntryAfterTurns` | src/pkg/eventserver/rtconn/heartbeat.go:79-96 | the same of the loop as a function of its turns |
| `HeartLoop.HeartIsLoop` | src/pkg/eventserver/rtconn/heartbeat.go:79-96 | in every run of the machine the steps of a heart are turns that this loop takes, it has ended exactly when the goroutine has, and with no other writer the store holds the entry that the loop leaves |
| `Hearts.ConnectionInfo.Unmarshall` | src/pkg/eventserver/rtconn/server_resolver.go:58-60 | fills the receiver in place; an absent field and an error leave it alone |
| `Hearts.Resolve` | src/pkg/eventserver/rtconn/server_resolver.go:34-48 | answers the server of the user's live entry, or the error of the lookup or of the decoding |
| `HeartTiming.MoveKeepsTimed` | src/pkg/eventserver/rtconn/heartbeat.go:79-96 | with commits less than 10 seconds after their ticks, every step keeps the heart's ticker undropped and its last write no older than a period before its tick |
| `HeartTiming.LatencyBoundIsExact` | src/pkg/eventserver/rtconn/heartbeat.go:19-24 | no run of a heart ever lets its entry expire, whatever the jitter, exactly when the latency bound is at most 9 seconds |
| `HeartTiming.MoveKeepsStopped` | src/pkg/eventserver/rtconn/heartbeat.go:90-94 | after the stop at most one more write commits, and by when |
| `HeartTiming.DecayBoundIsExact` | src/pkg/eventserver/rtconn/heartbeat.go:90-94 | no run of a heart that meets a deadline writes twice after its stop, exactly when the deadline is on the return of the writes and under 10 seconds |
| `HeartTiming.SlowReturnWritesTwice` | src/pkg/eventserver/rtconn/heartbeat.go:90-94 | if a write may return only at the next tick, the select can take the tick and write a second time after the stop |
| `Presence.PresenceContinuity` | src/pkg/eventserver/rtconn/heartbeat.go:79-96 | in every run of many servers, from a heart's first commit until it ends no tick is dropped and its user's entry is live and resolvable |
| `Presence.PresenceDecay` | src/pkg/eventserver/rtconn/heartbeat.go:79-115 | with writes returning less than 10 seconds after their ticks, at most one more commit after the stop, by stop plus latency; 20 seconds later the entry is gone if nobody else wrote for the user |
| `Presence.CommitsAreCounted` | src/pkg/eventserver/rtconn/heartbeat.go:84-88 | the commit counter used by the decay bound counts the heart's commits in the history |
| `Presence.RoutingSoundness` | src/pkg/eventserver/rtconn/server_resolver.go:34-48 | the resolver answers s exactly when the user's last committed heartbeat is by s and under 20 seconds old, and the user is a key of that server's connection table |
| `FailedHearts.DeadHeartBlocksRelaunch` | src/pkg/eventserver/rtconn/heartbeat.go:57-96 | in every state after a failed write and before a stop: the heart is still the table entry, no call of its user can launch a new one, and with no other writer the user is out of reach from 20 seconds after the last write on |
| `FailedHearts.EndedExactlyByFailure` | src/pkg/eventserver/rtconn/heartbeat.go:79-96 | a heart that was not stopped has ended exactly when a write of it failed |
| `FailedHearts.ResolvableExactly` | src/pkg/eventserver/rtconn/heartbeat.go:79-96 | with commits in time and no other writer, the user of an unstopped heart is resolvable exactly when no write has failed or the last commit is under 20 seconds old |
| `FailedHearts.StaysResolvableExactly` | src/pkg/eventserver/rtconn/heartbeat.go:79-96 | the same over a stretch of a run: resolvable in all its states exactly when no write failed, or the entry has not yet expired at its end |
| `FailedHearts.DarkReachable` | src/pkg/eventserver/rtconn/heartbeat.go:85-88 | a run to a state in which a user is connected and waiting, the heart has ended, and the user cannot be resolved |
| `FailedHearts.StoppedReachable` | src/pkg/eventserver/rtconn/heartbeat.go:98-128 | by StopForUser as by Close: a run in which a heart that has written is stopped, ends, leaves the table and its entry decays |
| `EventServer.ConnsStep` | src/eventserver/services/event_server.go:56-75 | every step keeps each table entry a call of that user, and every user with a heart in the table |
| `EventServer.DeliveryFollowsTable` | src/eventserver/services/event_server.go:77-88 | every SendEvent went to the connection most recently registered for its recipient before its lookup, and failed exactly when there was none |
| `EventServer.ShutdownNeverBlocks` | src/eventserver/services/event_server.go:94-103 | in every interleaving, also after an early return of the collector, each shutdown goroutine has its next step enabled |
| `EventServer.ShutdownMovesAreCounted` | src/eventserver/services/event_server.go:94-115 | in every interleaving the goroutines make exactly three moves per connection of the locked table, and have all terminated exactly when these are made |
| `EventServer.CollectorCanFinish` | src/eventserver/services/event_server.go:105-117 | once the goroutines are done the collector is not stuck |
| `EventServer.CollectorResult` | src/eventserver/services/event_server.go:105-117 | the shutdown returns the context's error exactly when the collector ended before it had a message of every connection; after nil every goroutine has sent |
| `EventServer.ShutdownCompletes` | src/eventserver/services/event_server.go:90-118 | a run in which a waiter is woken and the shutdown returns nil |
| `EventServer.ShutdownWakesTheTable` | src/eventserver/services/event_server.go:90-118 | when the goroutines are done, a call's waitCh has been closed exactly once if it was in the table at lock time and never otherwise, and it can return exactly in the first case |
| `EventServer.ShutdownWakesEveryone` | src/eventserver/services/event_server.go:56-118 | if no user connected twice, every call registered at lock time is woken exactly once |
| `EventServer.OverwrittenNeverWakes` | src/eventserver/services/event_server.go:62-72 | a call whose entry was overwritten by a second connection of its user has its channel closed in no later state, and once waiting waits forever |
| `EventServer.OverwrittenReachable` | src/eventserver/services/event_server.go:62-69 | a run in which a waiting call is overwritten by a second connection of its user |
| `ConnectionServer.Server.Enter` | src/eventserver/services/event_server.go:57-65 | the connection replaces the user's entry, with a new open channel, and no other entry changes |
| `ConnectionServer.Server.ServeConnection` | src/eventserver/services/event_server.go:56-69 | the entry stays when the launch fails, which it does exactly when the user already has a heart; the call does what the machine's registration and launch do |
| `ConnectionServer.ServeSteps` | src/eventserver/services/event_server.go:56-69 | the machine's registration followed by a launch: the launch succeeds exactly when the user has no heart, and what the table and the hearts then are |
| `ConnectionServer.Server.SendEvent` | src/eventserver/services/event_server.go:77-88 | hands the event to the table's connection, or fails when there is none, as the machine's send records it |
| `ConnectionServer.Server.RunClosers` | src/eventserver/services/event_server.go:95-103 | in whatever order they run, the goroutines close every channel of the table, none twice |
| `ConnectionServer.Server.Collect` | src/eventserver/services/event_server.go:105-117 | succeeds exactly when one message per connection arrives before the context ends |
| `Memstore.CollectionKeyInjective` | src/pkg/memstore/redis.go:22-27 | for separator-free collections, collection and key are recovered from the flat key, also for keys that contain separators |
| `Memstore.CollideExactly` | src/pkg/memstore/redis.go:93-95 | two collections share a flat key if and only if one name followed by a separator begins the other |
| `Memstore.InjectiveExactly` | src/pkg/memstore/redis.go:93-95 | the encoding is injective on a set of collections if and only if no name followed by a separator begins another |
| `Memstore.SeparatorCollides` | src/pkg/memstore/redis.go:93-95 | an example of two items with one key |
| `Memstore.StoreRefinesCollections` | src/pkg/memstore/redis.go:29-40 | a write to one collection item is read back there and changes no other item of any collection |
| `Memstore.LiteralPrefixGlob` | src/pkg/memstore/redis.go:56-57 | a metacharacter-free text followed by a star matches exactly the keys that start with it |
| `Memstore.PatternIsExact` | src/pkg/memstore/redis.go:56-63 | the listing pattern matches exactly the keys of its collection if and only if prefix and name hold no metacharacter |
| `Memstore.ShortMatch` | src/pkg/memstore/redis.go:56-57 | a pattern that ends in a star and matches anything matches a text shorter than itself |
| `Memstore.PatternIsCollection` | src/pkg/memstore/redis.go:56-63 | without metacharacters the listing pattern matches exactly the keys of the collection |
| `Memstore.MetaPatternLeaks` | src/pkg/memstore/redis.go:56-63 | an example of a listing that matches a key of another prefix |
| `Memstore.ListCollection` | src/pkg/memstore/redis.go:65-87 | returns one value per key still live at MGET, in key order |
| `Memstore.SurvivorsExact` | src/pkg/memstore/redis.go:76-86 | the keys kept are exactly the live ones, each once and in the order of the reply |
| `Memstore.ListingUnderConcurrency` | src/pkg/memstore/redis.go:56-87 | with other writers and expiry between the two calls, an item is listed exactly when it was live at KEYS and is live at MGET |
| `Memstore.RedisClient.GetCollectionItem` | src/pkg/memstore/redis.go:29-36 | answers the live entry of the item, or an error |
| `Memstore.RedisClient.SetCollectionItemWithTTL` | src/pkg/memstore/redis.go:38-40 | stores the value under the item's flat key with its expiry |
| `Slices.FilterMap` | src/pkg/slices/slices.go:23-32 | the result is the transforms of exactly the accepted inputs, in input order |
| `Slices.MapE` | src/pkg/slices/slices.go:11-21 | fails exactly when a transform fails, with the first failure; else keeps length and order |
| `ActiveUsers.Tracker.HeartBeat` | src/gateway/services/active_users.go:55-75 | writes the user's entry with a 30 second TTL |
| `ActiveUsers.ListActiveUsers` | src/gateway/services/active_users.go:77-90 | decodes the listing in key order, or fails because an entry does not decode |
| `ActiveUsers.EntryOfLastBeat` | src/gateway/services/active_users.go:55-75 | after any history of writes, the entry of a user is the one of the last heartbeat |
| `ActiveUsers.KeysAreIDs` | src/gateway/services/active_users.go:55-75 | after any history of writes, every key of the collection is the text form of an ID |
| `ActiveUsers.ActiveUsersMatchHistory` | src/gateway/services/active_users.go:77-90 | the listing never fails and is exactly the users whose last heartbeat is under 30 seconds old, each once and as recorded by it |
| `ClientHeartbeat.UnixTruncates` | src/gateway/client/client.go:187-189 | whole seconds are never ahead of the time and less than a second behind |
| `ClientHeartbeat.SkipsExactly` | src/gateway/client/client.go:158-161 | the test skips exactly until a full interval after the stored second |
| `ClientHeartbeat.SecondTickSends` | src/gateway/client/client.go:158-161 | two ticks after the last mark the test in whole seconds does not skip |
| `ClientHeartbeat.SkipsAtMostOneTick` | src/gateway/client/client.go:142-166 | no tick is lost, and a skipped tick is always followed by one that sends |
| `ClientHeartbeat.ClientContinuity` | src/gateway/client/client.go:142-166 | from the first write on, the last write is always under 30 seconds old and the user's entry live |
| `ClientHeartbeat.ContinuouslyListed` | src/gateway/services/active_users.go:16-19 | every listing taken in such a state succeeds and shows the user |
| `ClientHeartbeat.LatencyBoundIsExact` | src/gateway/client/client.go:158-161 | no run lets the entry expire exactly when every iteration takes less than 10 seconds |
| `ClientHeartbeat.TurnRefinesSteps` | src/gateway/client/client.go:158-166 | a skipped, an answered and a failed turn of the client's loop move lastRequestAt as the machine's steps do |
| `ClientHeartbeat.RunIsLoop` | src/gateway/client/client.go:142-166 | in every run of the machine lastRequestAt is what the loop over the turns so far makes of its first value |
| `ClientHeartbeat.Client.MaybeHeartbeat` | src/gateway/client/client.go:158-166 | sends exactly from a full interval after the stored second on, and stores the second of the answer only after a 200 |
| `ClientHeartbeat.Client.HeartbeatLoop` | src/gateway/client/client.go:142-156 | the turns up to the first stop decide lastRequestAt |
| `ClientHeartbeat.Client.MarkAsActive` | src/gateway/client/client.go:187-189 | stores the last whole second that is not ahead of the time |
| `ClientHeartbeat.Client.Close` | src/gateway/client/client.go:191-197 | closes the stop channel on the first call and does nothing on later ones |
| `Routing.ForwardPicksConsistentTarget` | src/gateway/services/event_relay.go:33-49 | Forward chooses an address exactly when the recipient's last heartbeat is live and the last applied event on its server's key is a put with that address; the recipient was then connected to that server |
| `Routing.ForwardReachesMembers` | src/gateway/services/event_relay.go:33-49 | with the watch caught up and distinct IDs, Forward reaches an address exactly when the recipient's last heartbeat is live and its server has a refresh with that address accepted last under a live lease |
| `Routing.LookupByEvent` | src/pkg/eventserver/client/client.go:35-42 | the client pool's lookup is decided by the last applied event on the server's key |
| `Routing.ForwardReachable` | src/gateway/services/event_relay.go:33-49 | a run to a world in which an event for a connected user is forwarded to the address of its server |
| `Routing.NoForwardAfterDelete` | src/pkg/eventserver/membership/registry.go:150-163 | once a server's delete is the last applied event on its key, no Forward yields a client for it, even with its heartbeat entry live |
| `Routing.NoForwardAfterLeaving` | src/pkg/eventserver/membership/manager.go:119-123 | a server that left cleanly gets nothing once the watch has caught up |
| `Ids.TextForm` | src/pkg/id/id.go:15-28 | the text and JSON forms character by character, as section 3 of RFC 4122 orders the digits |
| `Ids.ParseExactly` | src/pkg/id/id.go:30-38 | what parses to an ID, exactly: in either case its text, the urn form, the text between any two characters, or its bare digits |
| `Ids.RoundTrip` | src/pkg/id/id.go:15-38 | parsing the text form or the 38-character JSON form of an ID gives the ID back |
| `Ids.JSONInjective` | src/pkg/id/id.go:19-28 | distinct IDs have distinct JSON forms |
| `Ids.PrintUndoesParse` | src/pkg/id/id.go:19-38 | printing an accepted 38-character value gives it back exactly when it is quoted and its digits are lower case |
| `Ids.MarshalJSON` | src/pkg/id/id.go:19-28 | the filled buffer is the text form between two quotes |
| `Ids.Target.UnmarshalJSON` | src/pkg/id/id.go:30-38 | assigns the receiver on success only |

## Left out

- HTTP and gRPC transport, routing tables, middleware, metrics, logging, configuration and the console client: no protocol state.
- JWT, password hashing, PEM files and the SQL user store: thin wrappers over libraries.
- The send of `Forward`: it posts to a path the event server does not route (src/pkg/eventserver/client/client.go:70, src/eventserver/http/routes.go:43), so routing stops at the chosen address.
- `ListCollectionKeys`: unused, and it strips only the length of the collection name from each key (src/pkg/memstore/redis.go:48-51).
- Termination of `eventserver.Start`: its helper goroutines also receive from the channel that ends it (src/eventserver/server.go:115-157).
- The stop of the client's loop: `Close` sets the stop channel to nil while the loop reads it again at each turn, so the loop need not see the close; only the effect of `Close` on the fields is modelled.
- A second Start, Close or InitiateShutdown on one object would close a closed channel; the machines allow one of each.
- Liveness of the watch: after a cancelled or failed watch the cache stays at its last prefix; there are no retries to model.
- Scheduling delays are not separate steps: timers fire at their instant, and every delay of a goroutine counts towards its write's latency.
- Transport errors of Redis reads are not told apart from a missing entry; both are the error of the lookup.
- HeartTiming: does not model a failed Set that Redis nevertheless applied after the goroutine had ended, because the client reports the write as failed.
- ConnectionServer.Server.RunClosers: runs the goroutines one after another; their interleavings are in the EventServer machine, to whose steps this loop is not tied.
