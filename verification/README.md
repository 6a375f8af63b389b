# SpectraGQL: verified models of the write path

SpectraGQL is a gateway in front of GraphQL services. Most of it is networking, but its promises rest
on a few hand-written state machines. This project models those machines in Dafny and proves what the
rest of the gateway relies on. `dafny verify dfyconfig.toml` checks the whole project.

Clock readings, broker and upstream results, guest results, failed compare-and-swaps and the
scheduling of threads are inputs, so every theorem holds for all of them. Code that changes state is a
class or a loop, proved equal to a specification function; the laws are then proved about the function,
and over all runs of a machine built from it.

| files | what they model |
|---|---|
| `Clock`, `Timestamps` | the packed hybrid logical clock, its compare-and-swap loops, and the compact string |
| `ClockThreads`, `ClockNodes` | threads interleaving on one clock; nodes exchanging timestamps |
| `Lru`, `Idempotency`, `IdempotencyRefinement`, `IdempotencyBoundary` | the sharded record cache, its refinement of one map with expiry, and exactly when that holds |
| `IdempotencyLocks`, `IdempotencyCounter`, `IdempotencyExclusion` | the same engine one lock section or atomic step at a time: counter, deadlock freedom, at-most-once, replay provenance |
| `IdempotencyReplay`, `IdempotencyAlone` | what a client is told about a key, in seconds; the two accounts of the engine agree |
| `IdempotencyCapacity`, `IdempotencyRuns` | how far interleaving can overrun the capacity; runs that reach the limits of the theorems |
| `Lifecycle`, `GatewayExclusion` | one request's use of its key from check to logging; exclusion through the whole gateway |
| `Hub`, `HubSteps`, `Actor` | the two subscription indexes, their half-steps under two locks, and the connection actor |
| `Breaker` | the circuit breaker around WASM guests and its callers |
| `Pipelines`, `Chunks` | interceptor pipelines, and the response stream that feeds them |
| `Tokens`, `Sanitizer` | key splitting and matching, and the redaction of JSON trees |
| `TokenCache`, `Der` | the claims cache in front of the JWT verifier; the RSA key encoder |

## What the proofs found

- Compact timestamps are called sortable (src/core/clock.rs:25). They are so exactly while physical times
  stay below 10^13 ms; `Timestamps.FourteenDigitsSortBelow` is the first failure.
- The timestamps of a run follow happens-before if and only if every message was within the tolerated
  drift of its receiver's reading or already passed by its receiver's clock (`ClockNodes.CausalityIff`);
  `ClockNodes.DriftPremiseIsNeeded` is a message from an hour ahead.
- A granted key is settled exactly when the body decoded, or was too large and the client received the
  413 answer (`Lifecycle.ProxyContext.Handle`, `Lifecycle.LeftToItsTtlIff`); on every other path it stays
  held until its TTL, as for any request with a fresh key that is not a POST
  (`Lifecycle.BodylessRequestKeepsItsKey`).
- A key that expires while it is held is granted again, and then has two holders
  (`IdempotencyRuns.ExpiryMakesTwoHolders`).
- `complete` overcounts exactly when its key is no longer cached and the shard is full
  (`Idempotency.CompleteCoherentIff`); three calls reach it (`IdempotencyRuns.OvercountIsReached`).
- One call after another never exceeds max(1, capacity) records, but interleaved calls can: by at most
  one for each of the 32 shards but one, and one for each completion whose record is gone
  (`IdempotencyCapacity.RecordsAreBounded`). At capacity one, 32 records are reached
  (`IdempotencyRuns.BoundIsReached`).
- Sharding, recency order and the counter are invisible on a set of keys if and only if the keys are
  fewer than the capacity, or no more than max(1, capacity) and one to a shard
  (`IdempotencyBoundary.RefinesIff`).
- `register` alone keeps the hub's indexes inverse exactly when the id is not held under another topic
  (`Hub.RegisterAgreesIff`); the actor's check supplies that, even between the half-steps of others.
- Camel case splits back into its words exactly when every middle word has two letters
  (`Tokens.CamelRoundTripIff`).
- The sanitizer does not enter a non-string value under `query`, nor anything deeper than 64
  (`Sanitizer.QueryMembersAreNotEntered`, `Sanitizer.DeepPlacesAreUntouched`).
- An accepted token expired at most 120 whole seconds ago, plus what the wall clock has gained on the
  monotonic one. Counted in milliseconds, with both clocks in step, the two minutes hold for everything
  served out of a verification if and only if its caller began at most 60 s after `exp`, because the
  verifier drops the fraction of its second (`TokenCache.TwoMinutesHoldIff`).
- The DER encoder is inverted by a standard decoder exactly when neither number is empty and the
  content is shorter than 65536 bytes; its integers are minimal exactly when the input has no spare
  leading zero, which the encoder does not strip (`Der.PublicKeyRoundTripIff`). Longer keys can share
  one encoding (`Der.LongKeysCollide`).

## Model

| member | source | states |
|---|---|---|
| Timestamps.CompactOrder | src/core/clock.rs:25-28 | compact strings of timestamps with at most 13 and 6 digits compare as strings exactly as the timestamps compare |
| Timestamps.CompactForm | src/core/clock.rs:25-28 | thirteen digits, a dash and six digits that read back as the two numbers |
| Timestamps.FourteenDigitsSortBelow | src/core/clock.rs:25-28 | a later timestamp of fourteen digits sorts before an earlier one of thirteen |
| Timestamps.CompactSortsExactlyBelowTenTo13 | src/core/clock.rs:25-28 | "sortable" holds for all clock timestamps below a limit if and only if the limit is at most 10^13 |
| Timestamps.PaddedIsFixedWidth | src/core/clock.rs:27 | zero padding gives exactly the asked width and the same value, while the value fits |
| Clock.PackingIsLosslessIff | src/core/clock.rs:91 | unpacking a packed timestamp gives it back if and only if it fits 48 and 16 bits |
| Clock.UnpackedRepacks | src/core/clock.rs:78-91 | every 64-bit word survives unpacking and packing |
| Clock.HlcClock.constructor | src/core/clock.rs:57-63 | the clock starts at the packed physical reading |
| Clock.HlcClock.Now | src/core/clock.rs:73-102 | after any sequence of failed swaps the result is the branch-free Lamport step on the word last seen, no earlier than the reading, and the reading itself where that is ahead of the clock; its packing is stored |
| Clock.HlcClock.Merged | src/core/clock.rs:109-156 | the branches of one attempt compute one more than everything seen, the remote part capped at the drift and at 16 bits |
| Clock.HlcClock.Update | src/core/clock.rs:106-169 | after any sequence of failed swaps the result is that attempt on the word last seen, no earlier than the reading, and its packing is stored |
| Clock.LocalIsLeast | src/core/clock.rs:81-89 | a local event gets the least timestamp with a 16-bit counter that is after the clock and not before the reading |
| Clock.ReceiveIsLeast | src/core/clock.rs:110-156 | a receive gets the least timestamp that is besides after the remote one, its physical part capped at 60 000 ms ahead and its counter at 65 535 |
| Clock.LocalAdvances | src/core/clock.rs:73-101 | below 2^48 a local timestamp is later than the clock, fits the word, and is what was stored |
| Clock.ReceiveAdvances | src/core/clock.rs:106-168 | a receive is later than the clock; it is later than the remote timestamp if and only if that was not capped or was already passed |
| Clock.StepBound | src/core/clock.rs:110-158 | one operation moves the word at most to the drift limit past the readings, or by one |
| ClockThreads.DriftBound | src/core/clock.rs:53-168 | in every interleaving, however large the remote values, the word is at most (M + 60001)*2^16 + n after n successful operations with readings up to M |
| ClockThreads.CommitsChain | src/core/clock.rs:75-99 | in every interleaving each operation works on exactly what the one before it stored, and its timestamp is no earlier than its reading |
| ClockThreads.CommitsIncrease | src/core/clock.rs:73-167 | while that bound fits 64 bits, timestamps strictly increase in the order of successful swaps, spurious failures and backward readings included, and what is returned is what was stored |
| ClockThreads.CompactStringsIncrease | src/core/clock.rs:25-167 | their compact strings sort in the same strict order below 10^13 ms |
| ClockNodes.NetworkBound | src/core/clock.rs:110-158 | no node's word passes the drift bound, so no run with such readings makes a clock wrap |
| ClockNodes.StampsCoverReadings | src/core/clock.rs:73-168 | no timestamp is earlier than the physical reading of its event |
| ClockNodes.EventAdvances | src/core/clock.rs:73-168 | an event passes its node's word and, within the drift, the message it received |
| ClockNodes.WordCoversStamps | src/core/clock.rs:91-158 | a node's word is never below a timestamp it issued |
| ClockNodes.SameNodeIsLater | src/core/clock.rs:91-158 | on one node later events carry later timestamps, whatever was received |
| ClockNodes.ReceiveIsLaterIff | src/core/clock.rs:106-168 | a receive is later than its message if and only if that was within the drift or already passed |
| ClockNodes.CausalityIff | src/core/clock.rs:7-11 | over any number of nodes, happens-before implies the strict order of timestamps if and only if every receive overtakes its message |
| ClockNodes.Causality | src/core/clock.rs:7-11 | in particular while no message is beyond the drift |
| ClockNodes.DriftPremiseIsNeeded | src/core/clock.rs:110-121 | a concrete run outside the drift in which a message received gets a smaller timestamp than its sending |
| Lru.PromotedContents | src/idempotency/mod.rs:141 | `get` changes the recency order only |
| Lru.PutContents | src/idempotency/mod.rs:186-192 | `put` replaces, adds, or on a full cache drops exactly the oldest entry; size and distinctness are kept |
| Lru.PopOldestContents | src/idempotency/mod.rs:170 | `pop_lru` takes exactly the oldest entry |
| Lru.WithoutContents | src/idempotency/mod.rs:342 | `pop` takes exactly the named entry |
| Lru.CacheIsInOrderOfUse | src/idempotency/mod.rs:139-192 | after any history of calls the cache stands in the order in which its keys were last used, and eviction takes the least recent |
| Idempotency.Victim | src/idempotency/mod.rs:169-184 | an entry to evict is found in the own shard if that has one, else in the first shard that has one |
| Idempotency.MadeRoomKeeps | src/idempotency/mod.rs:169-184 | making room takes one record and one count exactly when at capacity, and leaves room in the own shard |
| Idempotency.InsertedKeeps | src/idempotency/mod.rs:186-194 | an insertion is found again and keeps the count exact unless it dropped an uncounted record |
| Idempotency.RemovedKeeps | src/idempotency/mod.rs:337-345 | a removal forgets that key only and keeps the count as exact as it was |
| Idempotency.CheckKeeps | src/idempotency/mod.rs:133-197 | a check keeps the count exact and the number of records within max(1, capacity) |
| Idempotency.AnsweredChangesNoRecord | src/idempotency/mod.rs:141-165 | a request told Conflict or Replay changes no record |
| Idempotency.AnswerInNumbers | src/idempotency/mod.rs:141-165 | a record is alive for max(1, TTL) seconds from the second it was made in; in progress it is a conflict with the holder's timestamp, completed it is replayed as stored |
| Idempotency.CompleteCoherentIff | src/idempotency/mod.rs:299-314 | `complete` keeps the count exact if and only if its key is cached or its shard has room |
| Idempotency.IdempotencyEngine.constructor | src/idempotency/mod.rs:104-114 | 32 empty shards and a zero count |
| Idempotency.IdempotencyEngine.MakeRoom | src/idempotency/mod.rs:167-184 | the eviction loop pops from the shard that the specification names |
| Idempotency.IdempotencyEngine.CheckOrInsert | src/idempotency/mod.rs:133-197 | outcome by the age of the record found; new shards and count as specified |
| Idempotency.IdempotencyEngine.Complete | src/idempotency/mod.rs:298-314 | stores the completed record without any capacity check |
| Idempotency.IdempotencyEngine.Remove | src/idempotency/mod.rs:337-345 | drops the record and its count, if there is one |
| Idempotency.IdempotencyEngine.ActiveRecordCount | src/idempotency/mod.rs:379-383 | equals the number of records exactly when the count is coherent |
| IdempotencyRefinement.TotalCountsKeys | src/idempotency/mod.rs:77-81 | one shard per key, so the sizes add up to the number of distinct keys |
| IdempotencyRefinement.StepAgrees | src/idempotency/mod.rs:133-345 | one operation on the engine and on one plain map give the same outcome and stay in agreement |
| IdempotencyRefinement.RefinesPlainMap | src/idempotency/mod.rs:77-345 | every operation sequence on fewer keys than the capacity has the outcomes of one map with expiry, for any clock readings |
| IdempotencyRefinement.CapacityHolds | src/idempotency/mod.rs:167-194 | over every sequence of calls whose completions find their key cached, the records never exceed max(1, capacity) and are counted exactly |
| IdempotencyBoundary.StepAloneAgrees | src/idempotency/mod.rs:133-345 | with one key to a shard even a full engine agrees with the plain map: it evicts the expired key itself |
| IdempotencyBoundary.TooManyKeys | src/idempotency/mod.rs:167-184 | with more keys than max(1, capacity) some sequence of calls has a live key granted twice |
| IdempotencyBoundary.FullWithNeighbours | src/idempotency/mod.rs:167-184 | with as many keys as the capacity and two in one shard some sequence of calls has a live key granted twice |
| IdempotencyBoundary.RefinesIff | src/idempotency/mod.rs:77-345 | all call sequences on a set of keys have the plain map's outcomes if and only if the keys are fewer than the capacity, or at most max(1, capacity) and one to a shard |
| IdempotencyLocks.StepStructured | src/idempotency/mod.rs:133-345 | every atomic step respects lock ownership, placement and capacity of shards |
| IdempotencyLocks.AlwaysStructured | src/idempotency/mod.rs:133-345 | in every interleaving a shard belongs to its lock's holder and no insertion is under way over a live record |
| IdempotencyCounter.StepExact | src/idempotency/mod.rs:169-193 | each step changes the counter by as much as it changes what is counted |
| IdempotencyCounter.AlwaysExact | src/idempotency/mod.rs:135-345 | in every interleaving whose completions fit, the counter is the sum of what is counted for each shard |
| IdempotencyCounter.CounterCoherence | src/idempotency/mod.rs:135-194 | the counter is the sum of what it counts and never negative, and no check's `put` meets a full shard |
| IdempotencyCounter.CounterIsOffByDebtors | src/idempotency/mod.rs:170-193 | at every moment the counter is off the number of records by at most one for each call between its change of a shard and of the counter |
| IdempotencyCounter.QuiescentCountIsExact | src/idempotency/mod.rs:379-383 | when every call has returned, `active_record_count` is the exact number of records |
| IdempotencyCounter.HoldersProgress | src/idempotency/mod.rs:139-184 | a lock holder is never blocked and each of its steps brings it closer to releasing: no deadlock |
| IdempotencyExclusion.StepExplained | src/idempotency/mod.rs:133-345 | what a step logs about a key is what happened to its record |
| IdempotencyExclusion.AtMostOnce | src/idempotency/mod.rs:132-197 | in every interleaving a key is granted at most 1 + removals + evictions + expired takeovers times |
| IdempotencyExclusion.AtMostOneHolder | src/idempotency/mod.rs:132-345 | with no expiry or eviction, and settled by its holder only, a key has at most one holder at any time |
| IdempotencyExclusion.ReplaysComeFromCompletions | src/idempotency/mod.rs:154-161 | every Replay carries the record that an earlier `complete` on that key stored |
| IdempotencyReplay.CompletedIsReplayedIff | src/idempotency/mod.rs:154-196 | in every run a completed key that stays cached is replayed with its timestamp and response if and only if asked for less than max(1, TTL) seconds after its completion, and else granted |
| IdempotencyReplay.GrantedIsRefusedIff | src/idempotency/mod.rs:143-196 | in every run a granted key that stays cached and unsettled is a conflict with the holder's timestamp if and only if asked for in that time |
| IdempotencyReplay.RecordFollowsLog | src/idempotency/mod.rs:133-345 | in every interleaving the record of a key is what its latest grant, completion, removal or loss left |
| IdempotencyReplay.InterleavedAnswers | src/idempotency/mod.rs:139-165 | in every interleaving a check that gets its lock is replayed, refused or let on by the age of that record |
| IdempotencyAlone.CallAloneIsOneStep | src/idempotency/mod.rs:133-345 | a call that runs through its lock sections undisturbed leaves exactly the shards and counter of the whole operation |
| IdempotencyCapacity.WeightWithinCount | src/idempotency/mod.rs:169-193 | at every moment records, empty shards and insertions past the capacity check exceed the counter by at most one for each shard |
| IdempotencyCapacity.StepWeight | src/idempotency/mod.rs:133-345 | no step adds to that weight but a capacity check that finds room and a completion that finds no record |
| IdempotencyCapacity.RecordsAreBounded | src/idempotency/mod.rs:135-194 | in every interleaving whose completions fit there are at most max(1, capacity) + 31 records, and one more for each completion that found no record of its key |
| IdempotencyRuns.OvercountIsReached | src/idempotency/mod.rs:299-314 | at capacity one, two keys in one shard: after two checks and a completion one record is counted as two |
| IdempotencyRuns.ExpiryMakesTwoHolders | src/idempotency/mod.rs:141-165 | a run without evictions or settlements in which a key expires and is held by two threads |
| IdempotencyRuns.BoundIsReached | src/idempotency/mod.rs:169-194 | at capacity one, 32 interleaved checks of keys in different shards leave 32 records |
| Lifecycle.DecodedTopicIsNoPlaceholder | src/gateway/composite_service.rs:953-967 | the topic of a decoded request is never the placeholder that suppresses logging |
| Lifecycle.TopicParts | src/gateway/composite_service.rs:942-967 | the application's prefix takes the place of the kind; a `mutation.` prefix gives way to the kind of a query or subscription |
| Lifecycle.ProxyContext.constructor | src/gateway/filters/telemetry.rs:55-56 | a context starts without key and events, with the placeholder topic |
| Lifecycle.ProxyContext.CheckKey | src/gateway/filters/idempotency.rs:23-91 | one check, mapped to new key, conflict, replay or a failed answer |
| Lifecycle.ProxyContext.TakeAndRemoveKey | src/gateway/composite_service.rs:918-920 | the taken key is removed once and no longer held |
| Lifecycle.ProxyContext.HandleModeBEdge | src/gateway/filters/strategy.rs:57-153 | executed once; an acquired key is completed on success and removed on failure, whatever becomes of the receipt |
| Lifecycle.ProxyContext.GuardDecoded | src/gateway/composite_service.rs:1028-1188 | the request is stopped exactly when an interceptor rejects it or the engine answers Conflict or Replay; a rejection releases the key; the key acquired is exactly the one granted |
| Lifecycle.ProxyContext.FilterDecoded | src/gateway/composite_service.rs:936-1280 | the key acquired, the topic, the policy in force and the audits of a decoded request, and exactly which of them are executed |
| Lifecycle.ProxyContext.RouteDecoded | src/gateway/composite_service.rs:1190-1280 | a disabled route stops the request, Mode B executes it at the edge, Mode A takes the route's policy and goes upstream |
| Lifecycle.ProxyContext.RequestFilter | src/gateway/composite_service.rs:852-1283 | exactly which key is acquired and exactly which requests go on, under the guarding key, still held; told Conflict or Replay a request acquires nothing, settles nothing and answers |
| Lifecycle.ProxyContext.DispatchLogging | src/gateway/filters/telemetry.rs:15-208 | unless skipped, a held key is completed on success and else removed, and exactly the terminal event that the outcome and the policy call for goes out |
| Lifecycle.ProxyContext.Proxy | src/gateway/composite_service.rs:852-1283 | where a request stands when its logging phase begins |
| Lifecycle.ProxyContext.Handle | src/gateway/composite_service.rs:852-1283 | the granted key is acquired, and settled exactly once if the body decoded or the 413 answer was received, otherwise never; the operation is executed exactly once, by the broker or upstream, or, when stopped, not at all, and only while the key is held; the key is completed exactly on a successful execution; exactly which audits and which terminal event go out; a request told Conflict or Replay acquires, settles and executes nothing |
| Lifecycle.PlainMutation | src/gateway/filters/telemetry.rs:121-203 | a plain mutation: its fingerprint is completed on a status below 400 or from 600 and else removed; success on the topic, failure on the topic with `.failed`, each where the policy lets it out |
| Lifecycle.LeftToItsTtlIff | src/gateway/filters/telemetry.rs:34-66 | a key is acquired and never settled exactly when it was granted and neither the body decoded nor the 413 answer was received |
| Lifecycle.BodylessRequestKeepsItsKey | src/gateway/filters/telemetry.rs:34-66 | a request that is not a POST and brings a fresh key goes upstream under it and never settles it |
| GatewayExclusion.BooksFollowCalls | src/gateway/filters/telemetry.rs:70-205 | a request's bookkeeping is orderly exactly when it settles only keys it holds |
| GatewayExclusion.OrderlyRequestsLeaveUndisturbed | src/gateway/composite_service.rs:853-883 | orderly requests supply the premise of exclusion |
| GatewayExclusion.GatewayExcludes | src/gateway/composite_service.rs:853-1260 | when every request follows its lifecycle, a key that neither expires nor is evicted has at most one holder, and is granted at most 1 + removals times |
| GatewayExclusion.ExecutorsHadAcquired | src/gateway/composite_service.rs:853-1260 | whoever has executed an operation had acquired the key that guards it |
| GatewayExclusion.ExecutionsAreBounded | src/gateway/composite_service.rs:853-1260 | at any moment, with no expiry or eviction, the operations guarded by a key have been executed at most 1 + removals times |
| Hub.AddToTopicSpec | src/subscriptions/hub.rs:53-60 | the topic half of `register` adds exactly one registration |
| Hub.RegisteredAsGiven | src/subscriptions/hub.rs:44-60 | the registration is stored whole and last in its topic, and all others, whole, stay |
| Hub.UnregisteredOnly | src/subscriptions/hub.rs:87-95 | only that subscription's registrations go, and an emptied topic |
| Hub.RetainAppends | src/subscriptions/hub.rs:58-90 | `retain` keeps the others in order |
| Hub.AddToConnectionSpec | src/subscriptions/hub.rs:63-68 | the connection half records the id under exactly the new topic |
| Hub.RemoveFromTopicSpec | src/subscriptions/hub.rs:87-95 | the topic half of `deregister` removes exactly that registration and leaves no empty list |
| Hub.RemoveFromConnectionSpec | src/subscriptions/hub.rs:76-84 | the connection half removes exactly that id and finds the topic it was held under |
| Hub.RegisterAgreesIff | src/subscriptions/hub.rs:36-69 | `register` keeps the indexes inverse if and only if the id is not held under another topic |
| Hub.DeregisterSpec | src/subscriptions/hub.rs:72-96 | `deregister` removes that subscription from both indexes and nothing else |
| Hub.CloseSpec | src/subscriptions/hub.rs:99-112 | closing removes all of the connection's subscriptions from both indexes and nothing else |
| Hub.BroadcastSpec | src/subscriptions/hub.rs:134-186 | a broadcast drops exactly the topic's subscriptions whose receiver is gone |
| Hub.SentCountIs | src/subscriptions/hub.rs:163-185 | what a broadcast returns is the number of subscribers that were sent the event |
| Hub.SubscriptionHub.Register | src/subscriptions/hub.rs:36-69 | new state of both maps |
| Hub.SubscriptionHub.Deregister | src/subscriptions/hub.rs:72-96 | new state of both maps |
| Hub.SubscriptionHub.DeregisterConnection | src/subscriptions/hub.rs:99-112 | the loop over the removed list leaves the specified state |
| Hub.SubscriptionHub.HasSubscription | src/subscriptions/hub.rs:121-128 | true exactly when the id is held under some topic |
| Hub.SubscriptionHub.Broadcast | src/subscriptions/hub.rs:134-186 | counts the deliveries and deregisters the dead in order |
| HubSteps.MovesAreGood | src/subscriptions/hub.rs:53-112 | each half-step balances the entries it touches and leaves all others alone |
| HubSteps.StepKeepsInvariant | src/subscriptions/hub.rs:36-112 | any step of any operation keeps locks, indexes and what is owed in balance |
| HubSteps.AlwaysInvariant | src/subscriptions/hub.rs:36-183 | the balance holds in every interleaving in which a subscribe has its (connection, id) to itself; removals may overlap |
| HubSteps.HeldIsRegisteredOnce | src/subscriptions/hub.rs:36-112 | at every moment a held subscription has exactly one registration under its topic |
| HubSteps.SurplusIsInFlight | src/subscriptions/hub.rs:53-112 | registrations that no connection holds are exactly those owed by operations in flight |
| HubSteps.QuiescentIndexesAgree | src/subscriptions/hub.rs:22-28 | with nothing in flight the indexes are inverse relations |
| HubSteps.RegisterMeetsNoHeldId | src/subscriptions/engine.rs:255-270 | after the check the id stays free until registered, whatever others do |
| HubSteps.SomeOperationCanStep | src/subscriptions/hub.rs:99-112 | the two locks cannot deadlock |
| HubSteps.StepsDescend | src/subscriptions/hub.rs:36-112 | every step ends its operation or brings it closer to its end |
| HubSteps.SubscribeAlone | src/subscriptions/hub.rs:36-69 | a checked subscribe that runs through its half-steps undisturbed is `register` |
| HubSteps.DeregisterAlone | src/subscriptions/hub.rs:72-96 | likewise a removal is `deregister` |
| HubSteps.CloseAlone | src/subscriptions/hub.rs:99-112 | likewise a closing is `deregister_connection` |
| Actor.ConnectionActor.Run | src/subscriptions/engine.rs:141-296 | the loop sends what the event function says and leaves the hub cleaned of the connection |
| Actor.ConnectionActor.Receive | src/subscriptions/engine.rs:204-289 | one client message: frames sent, hub changed, loop left or continued |
| Actor.UseKeepsMine | src/subscriptions/hub.rs:36-186 | what other connections do keeps the indexes inverse and this connection's entries untouched |
| Actor.ActorFollowsProtocol | src/subscriptions/engine.rs:152-291 | on a shared hub, frames, cut-off and held subscriptions follow from the client's own messages alone, and the indexes always agree |
| Actor.InitializedIff | src/subscriptions/engine.rs:229-235 | a running connection is initialised if and only if `connection_init` was received |
| Actor.ActiveIff | src/subscriptions/engine.rs:245-287 | on an open connection an id is active under a topic exactly when it was subscribed to, with that topic, and not completed since |
| Actor.OpenIsAnswered | src/subscriptions/engine.rs:155-286 | everything an open connection has been sent, in order, as an answer to its events |
| Actor.StaysOpenIff | src/subscriptions/engine.rs:155-291 | exactly which event ends a connection |
| Actor.InvalidJsonIsRefused | src/subscriptions/engine.rs:215-226 | a message that is not JSON ends the run with 4400 |
| Actor.RegisteredWhole | src/subscriptions/engine.rs:264-270 | what is registered is the connection, the client's id, the derived topic and root field |
| Actor.SubscribeBeforeInitIsRefused | src/subscriptions/engine.rs:246-253 | a subscribe before `connection_init` ends the run with 4401 and holds nothing |
| Actor.DuplicateIsRefusedIff | src/subscriptions/engine.rs:255-262 | a subscribe ends the run, with 4409, if and only if its id is still active |
| Actor.RegisteredOnlyAfterInitAndOnce | src/subscriptions/engine.rs:245-271 | a new entry comes only from a subscribe after `connection_init`, under an id held under no topic |
| Actor.OthersAreUntouched | src/subscriptions/engine.rs:228-294 | nothing the actor does concerns another connection's entries |
| Actor.ExitLeavesNothing | src/subscriptions/engine.rs:293-295 | after the loop neither index mentions the connection, and the others are as they were |
| Breaker.WasmCircuitBreaker.CanExecute | src/interceptors/evaluators/wasm.rs:76-95 | permission and new state at the given reading |
| Breaker.WasmCircuitBreaker.RecordSuccess | src/interceptors/evaluators/wasm.rs:97-101 | zero failures, closed |
| Breaker.WasmCircuitBreaker.RecordFailure | src/interceptors/evaluators/wasm.rs:103-112 | 32-bit count; opens when half open or at the threshold |
| Breaker.RegisteredPlugin.Intercept | src/interceptors/evaluators/wasm.rs:295-417 | an open-failing plugin never rejects by itself; a closed-failing one never lets an unanswered request by (503, 504, 500) |
| Breaker.ClosedIffRunIsShort | src/interceptors/evaluators/wasm.rs:76-112 | in every interleaving of the methods: closed if and only if fewer than max(1, threshold) failures since the last success, counter wrap included |
| Breaker.HalfOpenIffProbing | src/interceptors/evaluators/wasm.rs:80-111 | in every interleaving a tripped breaker is half open if and only if someone asked after the cool-off since the latest trip |
| Breaker.LatestTripIsLatestFailure | src/interceptors/evaluators/wasm.rs:103-112 | while the counter does not wrap, the latest trip of a tripped breaker is its latest failure |
| Breaker.DeniedIff | src/interceptors/evaluators/wasm.rs:76-95 | in every interleaving a caller is turned away exactly when max(1, threshold) failures followed the last success and neither it nor anyone since the latest failure asked at or after the latest trip plus the cool-off, which is not zero |
| Breaker.RunsAfterCooloff | src/interceptors/evaluators/wasm.rs:80-91 | whoever asks when the cool-off is over runs |
| Breaker.BreakerFollowsHistory | src/interceptors/evaluators/wasm.rs:313-354 | one caller at a time, the breaker is the length and time of the trailing run of failures |
| Breaker.FailingGuestIsLimited | src/interceptors/evaluators/wasm.rs:313-354 | k failing calls without success over a span T satisfy (k - max(1, threshold)) * cooloff <= T |
| Pipelines.CombineIsAssociative | src/interceptors/response.rs:133-172 | verdicts combine associatively, `Pass` is the unit, results are canonical |
| Pipelines.ExtendComposes | src/interceptors/response.rs:129-172 | an extended pipeline runs the second part on the last body set in the first, or the original, and the parts the first leaves, unless that rejects |
| Pipelines.ResultSummarizesStages | src/interceptors/response.rs:139-171 | rejection first, else last headers and last body set, else last audit, else pass |
| Pipelines.StagesRunInOrder | src/interceptors/response.rs:143-160 | stage i is shown the last body set by the verdicts before it, or the original, and the parts that stage i-1 left; no stage runs after a rejection |
| Pipelines.ResultKind | src/interceptors/response.rs:139-171 | which kind of verdict results, by what the verdicts given contain |
| Pipelines.ScanRunsInOrder | src/interceptors/request.rs:265-280 | request stages share the context and the same body, and none runs after a rejection or a transformation |
| Pipelines.ResponseInterceptorPipeline.Extend | src/interceptors/response.rs:129-131 | appends in place |
| Pipelines.ResponseInterceptorPipeline.InterceptResponse | src/interceptors/response.rs:133-172 | the accumulating loop computes the fold of the stages, and is such a run of them in order |
| Pipelines.CombineRequestIsAssociative | src/interceptors/request.rs:259-280 | likewise for request verdicts, where a transformation also ends the scan |
| Pipelines.ExtendScans | src/interceptors/request.rs:255-280 | an extended request pipeline is the first part, then the second unless the scan ended |
| Pipelines.RequestInterceptorPipeline.Extend | src/interceptors/request.rs:255-257 | appends in place |
| Pipelines.RequestInterceptorPipeline.InterceptRequest | src/interceptors/request.rs:259-280 | the loop computes the scan of the stages, and is such a run of them in order |
| Pipelines.InterceptorManager.GetRequestPipeline | src/interceptors/manager.rs:341-349 | global interceptors, then the route's |
| Pipelines.InterceptorManager.GetResponsePipeline | src/interceptors/manager.rs:353-361 | global interceptors, then the route's |
| Pipelines.InterceptorManager.HasResponseInterceptors | src/interceptors/manager.rs:365-375 | true if and only if the composed pipeline is not empty |
| Pipelines.GlobalShutsOutRoute | src/interceptors/manager.rs:339-361 | after a global rejection, or a global request transformation, no route interceptor has a say |
| Chunks.ResponseContext.ResponseFilter | src/gateway/composite_service.rs:1304-1339 | clears the buffer, notes the response and whether it is intercepted |
| Chunks.ResponseContext.ResponseBodyFilter | src/gateway/composite_service.rs:1341-1472 | one chunk on the fast or the intercepted path |
| Chunks.FastPathStreams | src/gateway/composite_service.rs:1353-1390 | every chunk is forwarded as it came, and the first min(limit, total) bytes are recorded |
| Chunks.CaptureInNumbers | src/gateway/composite_service.rs:1353-1387 | the limit in numbers: the error limit for captured errors, nothing under two policies, else 65 536 bytes; what is recorded is that prefix |
| Chunks.InterceptedConcludes | src/gateway/composite_service.rs:1392-1469 | nothing goes out before the end; what does then depends on the whole body alone |
| Chunks.ConclusionInWords | src/gateway/composite_service.rs:1424-1468 | what is noted of a rejection, an audit and every other verdict |
| Chunks.ChunkingDoesNotMatter | src/gateway/composite_service.rs:1341-1472 | two chunkings of one body leave the same record and send the same bytes |
| Chunks.BodySurvivesUnless | src/gateway/composite_service.rs:1425-1458 | the client is sent the body itself unless the pipeline rejects it or sets another |
| Tokens.SplitKeyTokens | src/interceptors/sanitizer.rs:30-58 | the scanning loop returns the key's words |
| Tokens.WordsSpellKey | src/interceptors/sanitizer.rs:30-58 | words are non-empty, without separators and capitals, and concatenate to the lower-cased key without separators |
| Tokens.WordsAreStarts | src/interceptors/sanitizer.rs:35-53 | as many words as characters that follow a separator or nothing, or are capitals after no capital |
| Tokens.SeparatedRoundTrip | src/interceptors/sanitizer.rs:36-41 | snake, kebab and the other separated spellings split into their words |
| Tokens.CamelFeeds | src/interceptors/sanitizer.rs:42-48 | what a camel spelling splits into: one-letter words after the first merge with their successor |
| Tokens.CamelRoundTripIff | src/interceptors/sanitizer.rs:42-52 | a camel spelling splits into its words if and only if every middle word has two letters |
| Tokens.SensitiveIffWordsSpellIt | src/interceptors/sanitizer.rs:74-110 | a key without '.' and ' ' is sensitive if and only if 1 to 4 neighbouring words, or all, spell a sensitive word |
| Tokens.NeighboursAreCaught | src/interceptors/sanitizer.rs:95-106 | any key with up to 4 neighbouring words that together are a sensitive word is sensitive |
| Tokens.DocumentedKeysAreCaught | src/interceptors/sanitizer.rs:84-95 | the keys that the source names as examples are sensitive |
| Tokens.SensitiveKeys | src/interceptors/sanitizer.rs:61-72 | the defaults and the custom words, in lower case |
| Tokens.SpellingDoesNotMatter | src/interceptors/sanitizer.rs:74-110 | snake, kebab and camel spellings of the same words are sensitive alike |
| Tokens.IsSensitiveKey | src/interceptors/sanitizer.rs:74-110 | the three searching loops decide exactly that |
| Sanitizer.SanitizeValueDepth | src/interceptors/sanitizer.rs:117-154 | the recursive rewriting computes the specified tree |
| Sanitizer.SanitizeValue | src/interceptors/sanitizer.rs:112-115 | the entry point sanitizes from depth zero |
| Sanitizer.UnchangedIffClean | src/interceptors/sanitizer.rs:117-154 | a tree is left as it is if and only if nothing down to the depth limit is left to redact |
| Sanitizer.SanitizedIsClean | src/interceptors/sanitizer.rs:112-154 | after sanitizing nothing down to the depth limit is left to redact |
| Sanitizer.SanitizingIsIdempotent | src/interceptors/sanitizer.rs:112-154 | sanitizing twice is sanitizing once, given an idempotent query scrubber |
| Sanitizer.PlacesSurvive | src/interceptors/sanitizer.rs:138-146 | every place not under a sensitive or `query` key survives with its kind, keys and length |
| Sanitizer.SensitiveMembersAreRedacted | src/interceptors/sanitizer.rs:124-132 | every sensitive member at such a place, at depth up to 64, becomes `[REDACTED]`, or `Bearer [REDACTED]` if it was a bearer token |
| Sanitizer.BearerStringsAreRedacted | src/interceptors/sanitizer.rs:147-151 | a string at such a place keeps its text unless it is a bearer token |
| Sanitizer.BearerIff | src/interceptors/sanitizer.rs:127-148 | a bearer token begins with `bearer` and a blank in whatever case |
| Sanitizer.QueryIff | src/interceptors/sanitizer.rs:133 | the `query` key, in whatever case |
| Sanitizer.QueryMembersAreNotEntered | src/interceptors/sanitizer.rs:133-136 | a string under `query` is scrubbed, any other value there is left alone with all below it |
| Sanitizer.DeepPlacesAreUntouched | src/interceptors/sanitizer.rs:118-121 | past 64 steps nothing is touched |
| TokenCache.SaturationIsHarmless | src/interceptors/auth.rs:213-230 | the saturating time checks are those of unbounded integers |
| TokenCache.RbacRequestInterceptor.ResolveClaimsFromToken | src/interceptors/auth.rs:431-465 | answer and new cache of one lookup, within the capacity; in numbers, a hit until its expiry, else granted if and only if the provider knows the token and `exp` and `nbf` are within 60 s of the wall clock, and then cached for 60 000 ms |
| TokenCache.CallIsOneCaller | src/interceptors/auth.rs:431-465 | one call is one caller's lookup, verification and store: the same answer and the same cache |
| TokenCache.CacheIsTransparent | src/interceptors/auth.rs:431-465 | with time and keys standing still every answer of any run of lookups is the verifier's, and the cache keeps within its capacity |
| TokenCache.AlwaysBacked | src/interceptors/auth.rs:434-462 | in every interleaving of callers the cache keeps within its capacity, and each entry lasts 60 s from the lookup of the caller whose verification it is traced to |
| TokenCache.AcceptedClaimsWereVerified | src/interceptors/auth.rs:431-465 | every acceptance at t returns the claims of a verification of that token at t0 with t0 <= t < t0 + 60 s on the monotonic clock, keys changing at will |
| TokenCache.AcceptedTokensAreRecent | src/interceptors/auth.rs:213-224 | an accepted token's `exp` lies at most 120 whole seconds back, plus what the wall clock has gained on the monotonic one |
| TokenCache.TwoMinutesHoldIff | src/interceptors/auth.rs:214-460 | over all continuations of all runs, everything served out of a verification is within two minutes of `exp`, in milliseconds, if and only if its caller's lookup was at most 60 s after `exp` |
| TokenCache.TwoMinutesCanBeExceeded | src/interceptors/auth.rs:214-460 | a concrete run that serves a token later than that |
| Der.EncodeDerLength | src/interceptors/auth.rs:687-698 | appends the length octets |
| Der.EncodeDerInteger | src/interceptors/auth.rs:674-685 | tag, length and content of a non-negative integer |
| Der.RsaComponentsToDer | src/interceptors/auth.rs:673-709 | the sequence of both integers |
| Der.LengthRoundTripIff | src/interceptors/auth.rs:687-698 | a shortest-form decoder reads the length back if and only if it is below 65536 |
| Der.IntegerRoundTrip | src/interceptors/auth.rs:674-685 | a two's complement decoder reads the same non-negative value back, or refuses the empty integer |
| Der.PublicKeyRoundTripIff | src/interceptors/auth.rs:672-709 | decoding the key gives both numbers and consumes everything if and only if both are non-empty and the content fits; with minimal integers, if and only if besides neither has a spare zero |
| Der.EncodingIsInjective | src/interceptors/auth.rs:672-709 | a key whose content is below 65536 bytes shares its encoding with no other pair of numbers |
| Der.SmallKey | src/interceptors/auth.rs:672-709 | a small key, octet by octet |
| Der.LongKeysCollide | src/interceptors/auth.rs:693-697 | beyond that, a family of different keys with one encoding |

## Left out

- Redis backend of the engine: it fails open on errors and promises no exclusion.
- Broker, upstream, JWKS, webhook and file I/O, and the Pingora session: their results are inputs of the models.
- WASM guests, CEL rules, the GraphQL parser, signatures and hashes: arbitrary functions or given answers.
- The two regular expressions of the query scrubber: a function, assumed idempotent where idempotence is claimed.
- Non-ASCII case folding: keys, tokens and bearer prefixes are ASCII.
- Health, favicon, admin and WebSocket branches before the key check, and Pingora's upstream retries.
- The text of the base topic, previews, traffic records, receipts and error bodies, and header copying in `complete`.
- `derive_subscription_topic`: its result is part of the subscribe message.
- The sender channels of registrations: whether a delivery succeeds, finds the buffer full or the receiver gone is an input.
- Readers' locks of the hub other than the duplicate check: they change nothing and exclude nobody but writers.
- Weak memory orderings: atomics are sequentially consistent, and each breaker method is one step.
- Overflow of the record counter beyond the machine word, and config reload during a request.
- `from_config`, the admin endpoints, the dashboard and the other interceptors: lookups and plain decisions.
- Sanitizer.SanitizeValueDepth: returns the new tree instead of overwriting the old one; Rust's exclusive borrow leaves no alias that could tell them apart.
- Der.EncodeDerLength: takes and returns the vector that the original extends through a mutable reference.
- IdempotencyCounter.CounterCoherence: assumes that every completion found its key cached or room in its shard, without which it fails (IdempotencyRuns.OvercountIsReached).
- IdempotencyExclusion.AtMostOneHolder: assumes no expiry or eviction of the key, without which it fails (IdempotencyRuns.ExpiryMakesTwoHolders).
- Breaker.LatestTripIsLatestFailure: assumes fewer than 2^32 consecutive failures; the counter wraps as in a release build.
- TokenCache.TwoMinutesHoldIff: is stated for two clocks in step; what a drifting wall clock adds is part of TokenCache.AcceptedTokensAreRecent.
- TokenCache.AcceptedClaimsWereVerified: takes a caller's reading of the clock as the moment of its lookup.
