# helper-websocket-server, modelled in Dafny

This project models the core of a socket.io subscription server. Clients
subscribe to *local targets*: flat records of field names to scalar values.
The server resolves each local target against the socket's *context* and the
subscription's metadata into a *global target*. It keeps one *group* per
global key, whose members are the sockets subscribed to it. Each change to
the groups is recorded in a *transaction*, which then fires the
registered observers in three phases. Built on this, a value cache pushes a
value to every member socket of a group, but only when the value changed
(modulo its hash). It also reconciles a whole scope of cached values
against a replacement list.

Files:

- `targets.dfy` (module `Targets`):
  - values, targets and keys;
  - `_.defaults`;
  - small sequence helpers.
- `directory.dfy` (module `Directory`):
  - the subscription directory as values: the group table plus every socket's custom data;
  - the transaction record;
  - every directory operation as a function from the old directory to the new one;
  - the invariant each operation keeps.
- `directory_properties.dfy` (module `DirectoryProperties`): what those operations promise, proved as lemmas.
- `observers.dfy` (module `Observers`):
  - `_trigger`;
  - the three phases of `_completeTransaction`, as the sequence of observer calls made.
- `base_server.dfy` (module `Base`): class `WebSocketBaseServer`.
  - Its fields are the server's maps.
  - Its methods are proved to change those maps exactly as the `Directory` functions say.
  - They append to two journals: the observer calls made, and the `update` messages emitted.
- `cache.dfy` (module `Cache`):
  - the value cache as values;
  - `update`'s change test;
  - the scope filter;
  - the diff `updateScope` builds;
  - the reconciliation theorem.
- `tracking.dfy` (module `Tracking`):
  - the membership bookkeeping invariant `Tracked`: every group a socket belongs to is held by one of that socket's local records;
  - which operations keep it;
  - that disconnect then leaves the socket in no group;
  - the re-subscribe that breaks it, and the corrected subscribe that keeps it (see "## Findings").
- `server.dfy` (module `Server`): class `WebSocketServer` with the `_values` cache as a field, in front of a `WebSocketBaseServer`.

Modelling choices:

- **Targets and values.**
  - A target is a `map<string, Value>`, and `Value` is null, a boolean, an integer or a string.
  - A field absent from the map is JavaScript's `undefined`.
  - `_.isNullOrUndefined` is "absent or null".
- **Keys.** `makeKey` (src/utils.ts:4-7) is a stable serialisation. On canonical maps it is the identity, so a key is the target itself and keys are injective.
- **Subscription records.**
  - A `SocketSubscriptionInfo` is a value.
  - The source shares one record object between `localIdDict` and `globalIdDict` and updates it in place. The model writes the updated record back under its local key.
  - The shared object is observable only through `localIdDict`, so the two agree. `globalIdDict` entries are read only for their local target, which never changes.
- **Iteration order.** Iterating over a JavaScript object (`_.values(localIdDict)`, `_.keys(currentItems)`) visits the keys in insertion order. The model takes that order as an `order` parameter that lists every key exactly once.
  - `notifyAll` visits the members of a group in an order the model leaves open.
  - Its contract is that the messages sent enumerate the recipient set exactly once.
- **Observers.**
  - Observers are opaque handler ids kept in registration order.
  - Which calls fail (throw, or return a rejected promise) is the `fails` parameter.
  - The meta fetcher is a parameter returning "threw", a falsy value, or a meta.
- **Hashing.** The hash used by `update` is an arbitrary function `hash` fixed when the server is built.
- **Async as sequential.** Asynchronous chains (`Promise.resolve().then`, `MyPromise.serial`) are modelled as sequential steps and loops. Each request handler runs to completion before the next one starts.

Quirks of the source that the model reproduces and proves:

- The deleted target is never recorded, so delete-phase observers receive none (`Observers.DeletePhaseHasNoTarget`).
- A context update replaces the context; a falsy one becomes `{}` (`DirectoryProperties.SetContextReplaces`).
- `_handleSocket` hands the *global* target to `notifySocket`, which looks it up among the *local* keys (`DirectoryProperties.AttachPushNeedsLocalKey`).
- Group membership is one slot per socket (`DirectoryProperties.JoinSharedSlot`, `DirectoryProperties.LeaveSharedSlot`).
- Re-subscribing replaces the record and fires the socket handlers again without creating anything (`DirectoryProperties.ResubscribeCreatesNothing`).
- An item that overrides a scope field lands outside that scope (`Cache.CompletedMatchesIff`).

## Model

| member | source | states |
|---|---|---|
| `Targets.Defaults` | src/base-server.ts:492-495 | the keys are the union; the target's own fields win and the extras fill only the missing ones |
| `Targets.MakeKey` | src/utils.ts:4-7 | `makeKey` on canonical maps; it has no contract of its own, its injectivity is `Targets.MakeKeyInjective` |
| `Targets.MakeKeyInjective` | src/utils.ts:4-7 | two targets get the same key iff they are equal |
| `Directory.ApplyContext` | src/base-server.ts:496-508 | fails iff some context field is absent or null in the context; otherwise every context field is copied over and all other fields are kept |
| `Directory.MakeGlobalTarget` | src/base-server.ts:489-510 | null iff some context field is absent or null; otherwise the keys are local ∪ extras ∪ context fields; context fields take the context value, then local fields keep theirs, then the extras fill the rest |
| `Directory.FetchSubscriptionMeta` | src/base-server.ts:512-522 | fails only when the fetcher throws; a fetched meta is returned as it is; the empty meta exactly when no fetcher is set, the fetcher returns a falsy value, or it returns the empty meta |
| `Directory.NewTransaction` | src/base-server.ts:419-427 | a transaction for the given socket and meta that has created nothing, deleted nothing, holds no global key and no deleted target |
| `Directory.Create` | src/base-server.ts:369-396 | `_processCreateGlobalSubscription` as a function; its effect is stated by `DirectoryProperties.CreateEffect` and `Directory.CreatePreservesValid` |
| `Directory.Delete` | src/base-server.ts:398-417 | `_processDeleteGlobalSubscription` as a function; its effect is stated by `DirectoryProperties.DeleteEffect`, `Directory.DeleteFrame` and `Directory.DeletePreservesValid` |
| `Directory.WriteBack` | src/base-server.ts:291 | storing the record under its local key; stated by `Directory.WriteBackPreservesValid` |
| `Directory.Resolve` | src/base-server.ts:323-367 | `_handleGlobalSubscription` as a function; stated by `Directory.ResolvePreservesValid`, `DirectoryProperties.ResolveNoOp`, `DirectoryProperties.ResolveUnresolvable` and `DirectoryProperties.ResolveRecord` |
| `Directory.Subscribe` | src/base-server.ts:272-297 | `_handleSubscribe` after the fetch; stated by the `DirectoryProperties.Subscribe*` lemmas |
| `Directory.Unsubscribe` | src/base-server.ts:299-321 | `_handleUnsubscribe`; stated by `DirectoryProperties.UnsubscribeUnknown` and `DirectoryProperties.UnsubscribeKnown` |
| `Directory.SetContext` | src/base-server.ts:468-472 | the context assignment of `_setupContext`; stated by `DirectoryProperties.SetContextReplaces` |
| `Directory.FreshInfo` | src/base-server.ts:284-290 | the record `_handleSubscribe` stores is well formed, sits under its local key, holds no global key or target, and carries the meta with its context fields and target extras |
| `Directory.ResolveStored` | src/base-server.ts:476-481 | re-resolving one stored record keeps the invariant, the socket set, the socket's local keys and its context; any transaction belongs to the socket and records no deleted target; what the record becomes is `DirectoryProperties.ResolveRecord` |
| `Directory.ResolveAll` | src/base-server.ts:474-482 | the `_setupContext` loop keeps the invariant, the sockets, the local keys and the context, and collects at most one transaction per record, each for this socket with no deleted target; that every record ends resolved against the context is `DirectoryProperties.ResolveAllResolves` |
| `Directory.DeleteAll` | src/base-server.ts:550-560 | the `_removeAllSubscriptions` loop yields exactly one transaction per record that held a global key, in visiting order, carrying that record's meta; each is delete-only, and the invariant is kept |
| `Directory.HeldKeys` | src/base-server.ts:552-554 | lists exactly the visited keys whose record holds a global key, and no more entries than were visited; that it keeps visiting order is `DirectoryProperties.HeldKeysAppend` |
| `Directory.RemoveAllSubscriptions` | src/base-server.ts:537-568 | cleanup keeps the directory invariant and the set of sockets |
| `Directory.Disconnect` | src/base-server.ts:524-535 | disconnect keeps the directory invariant and removes exactly the disconnected socket |
| `Directory.Recipients` | src/base-server.ts:182-187 | no group for the key, no recipient |
| `Directory.NotifySocketEmits` | src/base-server.ts:158-176 | at most one message; one iff the socket has custom data and the target is one of its local keys, and then it carries that subscription's own local target |
| `Directory.CreatePreservesValid` | src/base-server.ts:369-396 | a create keeps the invariant (groups under their own key, non-empty, records well formed) and leaves every socket's local records and context unchanged |
| `Directory.DeletePreservesValid` | src/base-server.ts:405-412 | a delete keeps the invariant: a group emptied by the delete is dropped, so no empty group is left |
| `Directory.DeleteFrame` | src/base-server.ts:398-417 | a delete changes no socket's local records or context, touches only `wasDeleted` of the transaction, and clears the record's global key and target |
| `Directory.WriteBackPreservesValid` | src/base-server.ts:291 | storing a well-formed record keeps the invariant and adds exactly its local key |
| `Directory.MovePreservesValid` | src/base-server.ts:349-363 | moving a record to a new global key (delete then create) keeps the invariant, the local keys and the context |
| `Directory.ResolvePreservesValid` | src/base-server.ts:323-367 | `_handleGlobalSubscription` keeps the invariant, the local keys and the context; its transaction records no deleted target |
| `DirectoryProperties.ResolveNoOp` | src/base-server.ts:329-354 | no transaction iff the target is unresolvable and none was held, or it resolves to the key already held; then nothing changes |
| `DirectoryProperties.ResolveUnresolvable` | src/base-server.ts:330-337 | an unresolvable record that held a target yields a delete-only transaction and is left without a global key or index entry |
| `DirectoryProperties.CreateEffect` | src/base-server.ts:369-396 | the socket joins group `g`; `globalIdDict[g]` is the record; the transaction carries `g`; created iff `g` had no group; other groups untouched |
| `DirectoryProperties.DeleteEffect` | src/base-server.ts:398-417 | the socket leaves `g`; the group is dropped and `wasDeleted` set iff the socket was its last member; the index entry is removed; the record is cleared; nothing else moves, and no deleted target is recorded |
| `DirectoryProperties.SubscribeKeepsGroupsNonEmpty` | src/base-server.ts:272-297 | after a subscribe every group still has a member and the invariant holds |
| `DirectoryProperties.SubscribeParked` | src/base-server.ts:284-293 | an unresolvable subscribe parks the fresh record under its local key (replacing any old one); groups unchanged, no transaction |
| `DirectoryProperties.SubscribeJoinsTx` | src/base-server.ts:293-296 | a resolvable subscribe yields a transaction carrying the global key and target, deleting nothing, created iff the group was absent |
| `DirectoryProperties.SubscribeJoinsGroup` | src/base-server.ts:385-395 | a resolvable subscribe adds the socket to the group and changes no other group |
| `DirectoryProperties.SubscribeJoinsRecord` | src/base-server.ts:284-291 | the stored record is the fresh one carrying the global key; sockets and context unchanged |
| `DirectoryProperties.ResubscribeCreatesNothing` | src/base-server.ts:284-296 | subscribing the same target twice changes no group the second time and creates or deletes none, yet yields a transaction for the same key again |
| `DirectoryProperties.SubscribeAsMember` | src/base-server.ts:385-395 | subscribing a socket to a group it already belongs to leaves the group table unchanged and creates nothing |
| `DirectoryProperties.UnsubscribeUnknown` | src/base-server.ts:310-311 | unsubscribing an unknown local target changes nothing |
| `DirectoryProperties.UnsubscribeKnown` | src/base-server.ts:299-321 | the record is removed; a transaction iff it held a global key; that transaction is delete-only: `wasDeleted` iff the socket was the group's last member |
| `DirectoryProperties.SetContextReplaces` | src/base-server.ts:468-472 | the context becomes the given object, or empty when falsy; groups and records unchanged |
| `DirectoryProperties.DeleteAllCount` | src/base-server.ts:552-560 | cleanup makes exactly as many transactions as the records holding a global key |
| `DirectoryProperties.HeldKeysAppend` | src/base-server.ts:550-554 | the records holding a global key are collected in visiting order: visiting `a` then `b` lists those of `a`, then those of `b` |
| `DirectoryProperties.HeldKeysSingleton` | src/base-server.ts:552-554 | visiting one key lists it iff its record holds a global key |
| `DirectoryProperties.ResolveRecord` | src/base-server.ts:323-367 | re-resolving a stored record leaves it describing the same request and holding exactly the key and target `_makeGlobalTarget` gives for the socket's context (none when that gives none); the context, the local keys and every other record are unchanged |
| `DirectoryProperties.ResolveClearsRecord` | src/base-server.ts:330-337 | an unresolvable record that held a target is cleared, and nothing else of the socket changes |
| `DirectoryProperties.ResolveMovesRecord` | src/base-server.ts:339-365 | a record that resolves to a new key ends holding that key and target, and nothing else of the socket changes |
| `DirectoryProperties.ResolveAllResolves` | src/base-server.ts:474-482 | after the `_setupContext` loop every visited record is resolved against the socket's context, every other record is unchanged, and every record describes the same request as before |
| `DirectoryProperties.SetupContextResolves` | src/base-server.ts:458-482 | after a context update, every record of the socket is resolved against the new context (`{}` when falsy) and describes the same request as before; the local keys are kept |
| `DirectoryProperties.RemoveAllEffect` | src/base-server.ts:537-568 | after cleanup both indexes are empty, the invariant holds, and there is one delete-only transaction per record that held a global key; what it does to the group table is `Tracking.RemoveAllMembers` |
| `DirectoryProperties.DisconnectIdempotent` | src/base-server.ts:524-535 | after a disconnect the socket has no custom data, so disconnecting it again yields no transaction and changes nothing |
| `DirectoryProperties.RecipientsOnePerSocket` | src/base-server.ts:178-202 | every recipient is a member socket of the key's group, and exactly the members with custom data and an index entry for the key get a message, each at most once, each carrying its own local target |
| `DirectoryProperties.NotifySocketNeedsLocalKey` | src/base-server.ts:168-173 | a target that is not one of the socket's local keys reaches nobody |
| `DirectoryProperties.AttachPushNeedsLocalKey` | src/server.ts:131 | after a resolving subscribe the push with the global target reaches the socket iff that target is the local target or another local key of the socket |
| `DirectoryProperties.LeaveSharedSlot` | src/base-server.ts:405-411 | with two subscriptions sharing the socket's only membership of `g`, unsubscribing one drops the group while the other still holds `g` |
| `DirectoryProperties.JoinSharedSlot` | src/base-server.ts:385-395 | two local targets of one socket resolving to the same new key: the first creates the group, the second does not, and the socket is the group's only member |
| `DirectoryProperties.SubscribeCreatesAlone` | src/base-server.ts:385-395 | subscribing to a key with no group creates it with the socket as its only member, and the record holds the key |
| `DirectoryProperties.SubscribeJoinsOwnGroup` | src/base-server.ts:385-395 | subscribing under a second local key to the socket's own group creates nothing, keeps the socket the only member, and both records hold the key |
| `Tracking.DeleteMembers` | src/base-server.ts:398-417 | a delete takes its socket out of exactly the deleted group; no other socket's memberships change |
| `Tracking.CreateMembers` | src/base-server.ts:369-396 | a create puts its socket in exactly the created or joined group; no other socket's memberships change |
| `Tracking.ResolveMembers` | src/base-server.ts:323-367 | after `_handleGlobalSubscription` the socket is only in groups it was in that the record did not hold, or in the group the record now holds; every other socket is unchanged |
| `Tracking.ResolveClearsMembers` | src/base-server.ts:330-337 | the unresolvable case of `ResolveMembers` |
| `Tracking.ResolveMovesMembers` | src/base-server.ts:339-365 | the moving case of `ResolveMembers` |
| `Tracking.ResolveKeepsTracked` | src/base-server.ts:323-367 | re-resolving a stored record keeps every socket tracked |
| `Tracking.WriteBackKeepsTracked` | src/base-server.ts:291 | storing a record keeps every socket tracked when the record it replaces held no key or the new one holds that same key |
| `Tracking.SubscribeKeepsTracked` | src/base-server.ts:272-297 | a subscribe whose replaced record, if any, held no key keeps every socket tracked |
| `Tracking.UnsubscribeKeepsTracked` | src/base-server.ts:299-321 | an unsubscribe keeps every socket tracked |
| `Tracking.SetContextKeepsTracked` | src/base-server.ts:468-472 | replacing the context keeps every socket tracked |
| `Tracking.ResolveAllKeepsTracked` | src/base-server.ts:474-482 | the `_setupContext` loop keeps every socket tracked |
| `Tracking.SetupContextKeepsTracked` | src/base-server.ts:458-482 | a whole context update keeps every socket tracked |
| `Tracking.ConnectKeepsTracked` | src/base-server.ts:219-229 | adding a new socket with empty indexes keeps every socket tracked |
| `Tracking.DeleteAllFrame` | src/base-server.ts:550-560 | the cleanup loop changes no other socket's memberships or records |
| `Tracking.DeleteAllReleases` | src/base-server.ts:550-560 | after the cleanup loop the socket is in a group iff it was before and no visited record held it |
| `Tracking.RemoveAllMembers` | src/base-server.ts:537-568 | after cleanup the socket is in exactly the groups it was in that none of its records held; no other socket's memberships or records change |
| `Tracking.RemoveAllReleases` | src/base-server.ts:537-568 | cleanup of a tracked socket leaves it in no group and keeps every socket tracked |
| `Tracking.DisconnectReleases` | src/base-server.ts:524-535 | disconnecting a tracked socket leaves no group membership pointing at it, and keeps every socket tracked |
| `Tracking.TrackedGroupHeld` | src/base-server.ts:369-417 | when every socket is tracked, every group has a member socket one of whose records holds the group's key |
| `Tracking.DisconnectLeavesUnheld` | src/base-server.ts:524-568 | a group the socket is in that none of its records holds survives disconnect with the socket, now without custom data, still a member |
| `Tracking.SubscribeHeldGroups` | src/base-server.ts:272-297 | a subscribe puts the socket in the group of the key it resolves to and changes no other membership of the socket |
| `Tracking.SubscribeHeldRecords` | src/base-server.ts:284-291 | after a subscribe only the subscribed record changes which key it holds, and it holds the resolved key |
| `Tracking.ResubscribeLeaksGroup` | src/base-server.ts:284-296 | re-subscribing a local target under a meta that resolves it to another key leaves the socket in the first key's group with no record holding it, so the socket is no longer tracked |
| `Tracking.ResubscribeInput` | src/base-server.ts:489-510 | subscribing `{id: 1}` without meta and then with target extras `{p: 2}` resolves to two different keys in any context |
| `Tracking.SubscribeReleasing` | src/base-server.ts:272-297 | corrected `_handleSubscribe`: the replaced record's key and target are carried to the new record; keeps the directory invariant and the set of sockets |
| `Tracking.SubscribeReleasingKeepsTracked` | src/base-server.ts:272-297 | the corrected subscribe keeps every socket tracked, unconditionally |
| `Tracking.SubscribeReleasingAgrees` | src/base-server.ts:272-297 | the corrected subscribe equals the source's whenever the replaced record, if any, held no key |
| `Observers.Fired` | src/base-server.ts:578-591 | calls in registration order with the phase's arguments; every call but the last succeeded; it stops early only at a failure; a non-empty list makes at least one call |
| `Observers.DeletePhase` | src/base-server.ts:433-438 | makes some call iff a group was deleted and a handler is registered; at most one per handler, in order, each with `present` false, the deleted target and the meta |
| `Observers.CreatePhase` | src/base-server.ts:441-445 | makes some call iff a group was created and a handler is registered; at most one per handler, in order, each with `present` true, the global target and the meta |
| `Observers.SocketPhase` | src/base-server.ts:448-453 | makes some call iff the transaction holds a global key and a handler is registered; at most one per handler, in order, each with the transaction's socket arguments |
| `Observers.Completion` | src/base-server.ts:429-455 | some call is made iff some phase's flag holds and that phase has a handler; at most 2·(subscription handlers) + (socket handlers) calls in all (the per-phase bound of one call per handler is the ensures of `DeletePhase`, `CreatePhase` and `SocketPhase`) |
| `Observers.CompletionAll` | src/base-server.ts:484-486 | the calls of completing several transactions in turn; its structure is `Observers.CompletionAllAppend` |
| `Observers.CompletionAllAppend` | src/base-server.ts:484-486 | completing `a` then `b` makes the calls of `a`, then those of `b`: each transaction's calls form one contiguous run, in list order |
| `Observers.PhasesOfParts` | src/base-server.ts:433-453 | delete-phase calls carry `present` false, create-phase calls `present` true, socket-phase calls the socket arguments |
| `Observers.CompletionOrdered` | src/base-server.ts:429-455 | every delete-phase call precedes every create-phase call, which precedes every socket-phase call |
| `Observers.CompletionPhasesRun` | src/base-server.ts:433-452 | a phase makes calls iff its flag holds (deleted / created / global key set) and a handler is registered |
| `Observers.DeletePhaseHasNoTarget` | src/base-server.ts:436 | delete-phase observers receive no target |
| `Base.WebSocketBaseServer.constructor` | src/base-server.ts:28-31 | empty group table, no sockets, no fetcher, no observers |
| `Base.WebSocketBaseServer.SetupSubscriptionMetaFetcher` | src/base-server.ts:73-76 | the fetcher is the given one |
| `Base.WebSocketBaseServer.HandleSubscription` | src/base-server.ts:204-207 | the handler is appended to the subscription observers |
| `Base.WebSocketBaseServer.HandleSocket` | src/base-server.ts:209-212 | the handler is appended to the socket observers |
| `Base.WebSocketBaseServer.Connect` | src/base-server.ts:219-229 | the socket starts with an empty context and empty indexes; the invariant is kept |
| `Base.WebSocketBaseServer.NotifySocket` | src/base-server.ts:158-176 | emits exactly `NotifySocketEmits` of the current directory |
| `Base.WebSocketBaseServer.NotifyAll` | src/base-server.ts:178-202 | keeps earlier messages and appends an enumeration, without repeats, of exactly the recipient set |
| `Base.WebSocketBaseServer.ExtractAllTargets` | src/base-server.ts:214-217 | one target per group, each group's own target; under the invariant a target is listed iff its key is a group |
| `Base.TargetsCover` | src/base-server.ts:216 | a target is listed iff its key is a group key, when every group sits under its target's key |
| `Base.WebSocketBaseServer.ProcessCreate` | src/base-server.ts:369-396 | the new directory and transaction are `Create` of the old |
| `Base.WebSocketBaseServer.ProcessDelete` | src/base-server.ts:398-417 | the new directory, transaction and record are `Delete` of the old |
| `Base.WebSocketBaseServer.Store` | src/base-server.ts:291 | the new directory is `WriteBack` of the old |
| `Base.WebSocketBaseServer.HandleGlobalSubscription` | src/base-server.ts:323-367 | the new directory and the returned transaction are `Resolve` of the old |
| `Base.WebSocketBaseServer.Trigger` | src/base-server.ts:578-591 | the calls made are exactly `Fired` |
| `Base.WebSocketBaseServer.CompleteTransaction` | src/base-server.ts:429-455 | the observer journal grows by exactly `Completion` of the transaction |
| `Base.WebSocketBaseServer.CompleteAll` | src/base-server.ts:484-486 | the transactions are completed one after another, in list order |
| `Base.WebSocketBaseServer.HandleSubscribe` | src/base-server.ts:272-297 | fails, changing nothing, iff the socket has data and the fetcher throws; otherwise the directory becomes `Subscribe` and its transaction is completed; the invariant is kept |
| `Base.WebSocketBaseServer.HandleUnsubscribe` | src/base-server.ts:299-321 | the directory becomes `Unsubscribe` and its transaction is completed; the invariant is kept |
| `Base.WebSocketBaseServer.SetupContext` | src/base-server.ts:458-487 | with no socket data nothing changes; otherwise the context is set, every record is re-resolved in visiting order, and the collected transactions are completed in order |
| `Base.WebSocketBaseServer.ResolveEach` | src/base-server.ts:474-482 | the loop of `_setupContext`: the directory and collected transactions are exactly `ResolveAll` of the old directory |
| `Base.WebSocketBaseServer.RemoveAllSubscriptions` | src/base-server.ts:537-568 | the directory becomes `RemoveAllSubscriptions` and its transactions are completed in order; the invariant is kept |
| `Base.WebSocketBaseServer.DeleteEach` | src/base-server.ts:550-558 | the loop of `_removeAllSubscriptions`: the directory and collected transactions are exactly `DeleteAll` of the old directory |
| `Base.WebSocketBaseServer.HandleDisconnect` | src/base-server.ts:524-535 | cleanup, then the socket's custom data is dropped; the invariant is kept |
| `Cache.Changed` | src/server.ts:47-64 | the `isChanged` test; its meaning is `Cache.UpdateRetracts`, `Cache.UpdateStores` and `Cache.ChangedIffCacheChanges` |
| `Cache.Updated` | src/server.ts:45-72 | the cache after `update`; stated by `Cache.UpdateRetracts`, `Cache.UpdateStores`, `Cache.UpdateIdempotent`, `Cache.UpdatePreservesValid` and `Cache.UpdateLocal` |
| `Cache.ApplyAll` | src/server.ts:116-119 | the updates of a diff in order; stated by `Cache.ApplyAllPreservesValid`, `Cache.ApplyAllUntouched` and `Cache.ApplyAllOnce` |
| `Cache.UpdateRetracts` | src/server.ts:49-54 | a null update removes the entry, is a change iff the entry existed, and touches no other key |
| `Cache.UpdateStores` | src/server.ts:55-72 | a value update is a change iff there is no entry or the hash differs; on change the entry becomes the new triple, otherwise the cache is untouched |
| `Cache.ChangedIffCacheChanges` | src/server.ts:47-77 | `isChanged` holds iff the cache actually changed |
| `Cache.UpdateIdempotent` | src/server.ts:41-78 | repeating an update reports no change and leaves the cache as it is |
| `Cache.UpdatePreservesValid` | src/server.ts:66-70 | entries stay under their own key, with a non-null value and that value's hash |
| `Cache.UpdateLocal` | src/server.ts:45-72 | the entry under a key after an update depends only on that key's entry before |
| `Cache.ApplyAllPreservesValid` | src/server.ts:116-119 | a sequence of updates keeps the cache invariant |
| `Cache.ApplyAllUntouched` | src/server.ts:116-119 | a key no update names keeps its entry |
| `Cache.ApplyAllOnce` | src/server.ts:116-119 | a key exactly one update names ends as that update alone leaves it |
| `Cache.ScopeItems` | src/server.ts:134-146 | exactly the cache entries whose target matches the scope, unchanged |
| `Cache.MatchesScope` | src/server.ts:148-157 | `_matchesScope`; stated by `Cache.EmptyScopeSelectsAll`, `Cache.MissingFieldNeverMatches` and `Cache.CompletedMatchesIff` |
| `Cache.EmptyScopeSelectsAll` | src/server.ts:148-157 | the empty scope selects the whole cache |
| `Cache.MissingFieldNeverMatches` | src/server.ts:152 | a scope field the target lacks, null included, prevents a match |
| `Cache.Complete` | src/server.ts:85-86 | the completed target has the item's fields, plus the scope's fields it lacks |
| `Cache.CompletedMatchesIff` | src/server.ts:148-157 | a completed item matches its scope iff its own fields agree with the scope where they overlap |
| `Cache.ItemsDict` | src/server.ts:82-92 | the key list enumerates the dictionary's keys once each; every entry sits under its completed key; every item's completed key is present; the order of first insertion is `Cache.ItemsDictFirstOrder` |
| `Cache.ItemsDictLastWins` | src/server.ts:88-91 | an item no later item shares a key with is the one stored |
| `Cache.FirstAt` | src/server.ts:82-92 | the position of the first item completing to a key: that item has the key and no earlier one does; the item count when no item has it |
| `Cache.ItemsDictFirstMembers` | src/server.ts:82-92 | a key is in the dictionary iff some item completes to it |
| `Cache.ItemsDictFirstOrder` | src/server.ts:82-92 | the key list is in the order in which the keys first occur among the items |
| `Cache.RetractedKeys` | src/server.ts:98-100 | the visited keys that are not new keys |
| `Cache.Retractions` | src/server.ts:98-106 | the null updates of the second loop; stated by `Cache.RetractionsAreNullUpdates` |
| `Cache.RetractionsAreNullUpdates` | src/server.ts:98-106 | one null update per retracted key, in order, carrying the cached target |
| `Cache.RetractedKeysNoDuplicates` | src/server.ts:98-100 | retracted keys are distinct |
| `Cache.Additions` | src/server.ts:108-114 | one update per new key, in key order, carrying that key's item |
| `Cache.ScopeDiff` | src/server.ts:96-114 | the `diff` of `updateScope`; stated by `Cache.DiffLayout`, the `Cache.Outcome*` lemmas and `Cache.ScopeAfterUpdate` |
| `Cache.ConcatLayout` | src/server.ts:96-114 | retractions followed by additions name every key at most once, with the nulls first and the new items after |
| `Cache.DiffLayout` | src/server.ts:96-114 | the diff is the retractions (null, keys outside the new items) followed by the new items, and names no key twice |
| `Cache.OutcomeAt` | src/server.ts:116-119 | for a key named once: null leaves it absent; a value leaves it holding that value's hash, and the value itself on a change |
| `Cache.OutcomeAbsent` | src/server.ts:116-119 | a key no update of the diff names keeps its entry or its absence |
| `Cache.OutcomeNew` | src/server.ts:108-119 | each new key holds its value modulo hash, or is absent if the value is null |
| `Cache.OutcomeRetracted` | src/server.ts:98-119 | each matching key that is not new is absent afterwards |
| `Cache.OutcomeOther` | src/server.ts:80-120 | every key outside the scope and outside the new items keeps its entry |
| `Cache.ScopeAfterUpdate` | src/server.ts:80-120 | afterwards the scope selects exactly the new non-null items whose completed target lies in the scope |
| `Server.WebSocketServer.constructor` | src/server.ts:18-24 | empty cache; fresh base server whose only socket observer is this server's handler |
| `Server.WebSocketServer.Update` | src/server.ts:41-78 | the cache becomes `Updated`; `changed` is `Changed`; the broadcast is sent iff changed, and then to exactly the recipient set |
| `Server.WebSocketServer.UpdateScope` | src/server.ts:80-120 | the cache becomes the diff applied in order, retractions first; earlier messages are kept |
| `Server.WebSocketServer.CollectItems` | src/server.ts:82-92 | the loop builds exactly `ItemsDict` |
| `Server.WebSocketServer.MakeDiff` | src/server.ts:96-114 | the loops build exactly the retractions followed by the additions |
| `Server.WebSocketServer.ApplyDiff` | src/server.ts:116-119 | the cache becomes the diff applied in order |
| `Server.WebSocketServer.HandleSocket` | src/server.ts:122-132 | notifies with the cached value under the global key, or null when there is none, passing the global target to `notifySocket` |

## Left out

- socket.io and Express plumbing (`run`, `use`, `useExpressCallback`, `useP`, `_initAuth`, request and response shims, middleware errors), and the `locals` bag of the socket data: these are transport and HTTP shimming. `Connect` models only the custom-data set-up of `_initMiddleware`.
- `_handleConnection`, which wires the socket.io events: it only routes events to the handlers modelled here.
- Logging, and `_runPromise`'s error swallowing. A failing fetcher is the `ok` result of `HandleSubscribe`.
- Asynchrony: every handler runs to completion before the next starts, so interleavings of concurrent handlers are not modelled.
- `_trigger`'s `checkProceed`: it tests that `tx.socket` is set, which every transaction satisfies.
- The socket-phase call to `WebSocketServer._handleSocket` is recorded in the observer journal as a call to its handler id. Its push is modelled by `Server.WebSocketServer.HandleSocket` on its own; the two are not composed.
- `HashUtils.calculateObjectHashStr` is not part of this model; it is the arbitrary `hash` function.
- `makeKey` is the identity on canonical maps; the serialisation itself (lodash `stableStringify`) is not modelled.
- Values are scalars; nested objects and arrays as target fields or cached values are not modelled.
- A truthy context that is not an object (a number or a string) is not modelled; a context is a target or nothing.
- JavaScript object iteration order is a parameter; the insertion-order bookkeeping of the cache and of `localIdDict` is not modelled. The keys of `newItemsDict` are the exception: their order of first insertion is modelled and proved.
- Numbers are modelled as unbounded integers: NaN, -0, infinities and fractions are not represented. Values are only compared and hashed, never computed with.
- Base.WebSocketBaseServer.NotifyAll: the order in which group members are visited is left open; only the set of messages is stated.
- Server.WebSocketServer.UpdateScope: the messages the updates broadcast are stated only as extending the journal; each one is characterised by `Update`.
- The meta fetcher sees only the target and the socket id. The source hands it the whole socket, so it could read the context and the `locals` bag; here it is one fixed function of those two arguments, changed only by setting a new fetcher.
- The class `WebSocketBaseServer` follows the source's subscribe as written (`Directory.Subscribe`), leak included. The corrected subscribe of "## Findings" is `Tracking.SubscribeReleasing`, and `Tracking.SubscribeReleasingAgrees` shows the two coincide except on a re-subscribe whose replaced record held a key.
- Aliasing of the subscription record between the two indexes: the model writes the updated record back instead, which is equivalent for every read the source makes.

## Findings

| source | as written | input that shows it | evidently intended | confidence | as-written member | corrected member |
|---|---|---|---|---|---|---|
| src/base-server.ts:284-296, 349, 552-563 | a re-subscribe of a local target overwrites its record with one that holds no global key, so `_handleGlobalSubscription` never releases the group the old record held; disconnect cleanup walks only the records and then drops the socket's data, so the socket stays a member of that group forever | on a connected socket, subscribe `{id: 1}` with no meta, then again with target extras `{p: 2}`, then disconnect: the group `{id: 1}` still lists the socket | the replaced record's group is released (or kept when the key is the same), so every group a socket is in is held by one of its records and disconnect leaves it in none | not executed | `Tracking.ResubscribeLeaksGroup` with `Tracking.ResubscribeInput` and `Tracking.DisconnectLeavesUnheld` | `Tracking.SubscribeReleasing` with `Tracking.SubscribeReleasingKeepsTracked` and `Tracking.DisconnectReleases` |
