# AndroidCachedModel: the command-driven cache, in Dafny

This project models the core of AndroidCachedModel's `CommandsDescription`.
It is an in-memory cache whose entries are kept up to date by named *commands*.
Each call of `invalidate(name, parameter)` is logged with a stamp taken from
the `mVersion` counter. Entries that listeners hold ("hot" entries) are
recomputed at once. Entries kept only in the bounded Guava store ("cold"
entries) replay the pending log entries when they are read. The model also
covers the small value types the engine uses:

- `Command.UpdateResult`, the outcome of a command;
- `CacheKey` and `CommandName`;
- the example application's `ResponseComments`;
- the example application's `ExampleDescription`, with its `COMMENT_ADDED`
  command, which prepends a new comment to a post's comment page.

Files:

- `wrappers.dfy`: `Option` (Guava `Optional`, nullable references) and
  `Result`. A failed `Result` carries the exception that
  `checkNotNull`, `checkArgument` or `checkState` would throw.
- `command.dfy`: `UpdateResult`, its private constructor's invariant and
  the three factories.
- `strings.dfy`: Java's `String.hashCode`. Strings are encoded in UTF-16
  and the hash wraps around at 32 bits. Key and name hashes delegate to it.
- `keys.dfy`: `CacheKey` and `CommandName`, their `equals` over erased
  Java objects, `hashCode` and `toString`.
- `replay.dfy`: log entries and `CacheElement`, the `matchingCacheElement`
  filter (`getCommandsToExecute`), and the fold inside `recalculate`.
- `engine.dfy`: the engine state and every engine operation.
  - The state is an immutable record: registry, log, cold store, holder
    table, counter.
  - A `CacheElement` object lives in an explicit heap under an identity.
    This makes the sharing of one element between the cold store and a
    holder visible.
  - Operations are functions that return the new state and the listener
    callbacks they made, as a trace of `Changed`/`Invalidated` events.
- `engine_proofs.dfy`: properties that follow `invalidate`'s loop over
  all holders, the invariant every operation keeps, and how operations
  relate to each other.
- `comments.dfy`: `Comment`, `ResponseComment` and `ResponseComments`, with
  `newWithAppended` and `newWithaddedComment`.
- `example.dfy`: `ExampleDescription` (module `Example`), and end-to-end
  scenarios from `CommentsExecutorManagerTest` (module `ExampleScenarios`).

Conventions:

- `HashMap` iteration order is not fixed by Java. `invalidate` and
  `clearAll` therefore take an `order` argument, which must list each holder
  key once (`Engine.Enumerates`).
- The invariant `Engine.Valid` holds in every state reachable through the
  operations:
  - every logged name is registered;
  - log versions ascend below the counter;
  - every holder has a listener;
  - an element is reached from one key only;
  - every present hot element has absorbed the whole log.

Two behaviours of the code are reproduced, not corrected:

- **Register does not catch up the listener.** On a cold entry, `register`
  recomputes the element before it creates the holder, so no callback is
  made, even when the recompute replays pending entries.
- **A cold update is lost for good.** `recalculate` on a cold element
  advances the element's version but writes an `UPDATED` value nowhere.
  That update can never be replayed again. `EngineProofs.ColdUpdateLostForever`
  and `ExampleScenarios.CommentAddedLostWhenCold` exhibit this.

## Model

| member | source | states |
|---|---|---|
| Command.MakeResult | cachedmodel/src/main/java/com/appunite/cache/Command.java:42-50 | the constructor succeeds exactly when a payload comes with `UPDATED` and with no other type; otherwise it throws `IllegalArgumentException`; a result keeps the type and payload it was given |
| Command.ConstructorRejectsInconsistent | cachedmodel/src/main/java/com/appunite/cache/Command.java:42-50 | `UPDATED` without a payload, and `UPDATE_NOT_REQUIRED` or `INVALIDATE` with one, are refused |
| Command.IsInvalidate | cachedmodel/src/main/java/com/appunite/cache/Command.java:52-54 | definition, no contract: the type is `INVALIDATE`; what each factory gives is stated by the Command.ForUpdate, Command.ForUpdateNotRequired and Command.ForInvalidate rows |
| Command.IsUpdate | cachedmodel/src/main/java/com/appunite/cache/Command.java:56-58 | definition, no contract: the type is `UPDATED`; the Command.GetParam row states that exactly these results carry a payload |
| Command.GetParam | cachedmodel/src/main/java/com/appunite/cache/Command.java:60-65 | `getParam` succeeds exactly on an `UPDATED` result and returns its payload; on any other it throws `IllegalStateException` |
| Command.ForUpdate | cachedmodel/src/main/java/com/appunite/cache/Command.java:67-70 | `forUpdate(p)` is an update, not an invalidation, and `getParam` returns p |
| Command.ForUpdateNotRequired | cachedmodel/src/main/java/com/appunite/cache/Command.java:72-74 | neither an update nor an invalidation, and `getParam` fails |
| Command.ForInvalidate | cachedmodel/src/main/java/com/appunite/cache/Command.java:76-78 | an invalidation, not an update, and `getParam` fails |
| Command.OutcomeIsOneOfFactories | cachedmodel/src/main/java/com/appunite/cache/Command.java:52-58 | `isUpdate` and `isInvalidate` are never both true, and every valid result equals the output of exactly one factory |
| Keys.CacheKeyOf | cachedmodel/src/main/java/com/appunite/cache/CacheKey.java:30-37 | `of(s)` throws `NullPointerException` exactly when s is null; otherwise the key holds s |
| Keys.KeyEquals | cachedmodel/src/main/java/com/appunite/cache/CacheKey.java:39-48 | definition, no contract: the same object, else a key with the same string; its properties are in the Keys.KeyEqualsIffSameId, Keys.KeyEqualsOnlyKeys, Keys.KeyEqualsIsEquivalence and Keys.KeyEqualsIsIdentity rows |
| Keys.KeyEqualsIffSameId | cachedmodel/src/main/java/com/appunite/cache/CacheKey.java:39-48 | two keys, of any type arguments, are equal exactly when their strings are |
| Keys.KeyEqualsOnlyKeys | cachedmodel/src/main/java/com/appunite/cache/CacheKey.java:40-42 | a key never equals null or an object that is not a key |
| Keys.KeyEqualsIsEquivalence | cachedmodel/src/main/java/com/appunite/cache/CacheKey.java:39-48 | key equality is reflexive, symmetric and transitive across type arguments |
| Keys.KeyEqualsIsIdentity | cachedmodel/src/main/java/com/appunite/cache/CacheKey.java:39-48 | at one type, Java equality of keys is value equality, so a map keyed by keys behaves like the `HashMap` |
| Keys.KeyHashCode | cachedmodel/src/main/java/com/appunite/cache/CacheKey.java:50-53 | definition, no contract: `String.hashCode` of the key's string; the Keys.KeyHashConsistent row states its agreement with equals |
| Keys.KeyHashConsistent | cachedmodel/src/main/java/com/appunite/cache/CacheKey.java:50-53 | equal keys have equal hash codes |
| Keys.KeyTypeArgumentIgnored | cachedmodel/src/main/java/com/appunite/cache/CacheKey.java:34-46 | `of(s)` at two different types gives equal keys |
| Keys.KeyToString | cachedmodel/src/main/java/com/appunite/cache/CacheKey.java:55-58 | definition, no contract: `"Key: "` followed by the string; the Keys.KeyToStringInjective row states that it determines the key |
| Keys.KeyToStringInjective | cachedmodel/src/main/java/com/appunite/cache/CacheKey.java:55-58 | keys that print the same have the same string |
| Keys.CommandNameOf | cachedmodel/src/main/java/com/appunite/cache/CommandName.java:35-37 | `of(s)` throws `NullPointerException` exactly when s is null; otherwise the name holds s |
| Keys.NameEquals | cachedmodel/src/main/java/com/appunite/cache/CommandName.java:39-48 | definition, no contract: the same object, else a name with the same string; its properties are in the Keys.NameEqualsIffSameName, Keys.NameNotEqualToKey and Keys.NameEqualsIsIdentity rows |
| Keys.NameEqualsIffSameName | cachedmodel/src/main/java/com/appunite/cache/CommandName.java:39-48 | two names, of any type arguments, are equal exactly when their strings are |
| Keys.NameNotEqualToKey | cachedmodel/src/main/java/com/appunite/cache/CommandName.java:40-42 | a command name never equals a cache key, even one with the same string |
| Keys.NameEqualsIsIdentity | cachedmodel/src/main/java/com/appunite/cache/CommandName.java:39-48 | at one pair of type arguments, name equality is value equality, which the engine's `contains` and registry look-ups rely on |
| Keys.NameHashCode | cachedmodel/src/main/java/com/appunite/cache/CommandName.java:50-53 | definition, no contract: `String.hashCode` of the name's string; the Keys.NameHashConsistent row states its agreement with equals |
| Keys.NameHashConsistent | cachedmodel/src/main/java/com/appunite/cache/CommandName.java:50-53 | equal names have equal hash codes |
| Keys.NameTypeArgumentsIgnored | cachedmodel/src/main/java/com/appunite/cache/CommandName.java:35-46 | `of(s)` at different type arguments gives equal names |
| Replay.Matches | cachedmodel/src/main/java/com/appunite/cache/CommandsDescription.java:87-102 | definition, no contract: the entry's version is at least the element's and its name is one the element listens to; the Replay.Pending and Replay.PendingEmptyIffCaughtUp rows state what it selects |
| Replay.Pending | cachedmodel/src/main/java/com/appunite/cache/CommandsDescription.java:333-340 | the entries to run are log entries that match the element (version at or above its own, name among its commands), and every matching log entry is among them; this is the evidently intended sort, which leaves the log alone (see Findings) |
| Replay.StampAsWritten | cachedmodel/src/main/java/com/appunite/cache/CommandsDescription.java:47-52 | the sort as written keeps names, parameters and order; with fewer than two matching entries the log is unchanged; otherwise every matching entry takes the first matching entry's version and the others stay |
| Replay.StampHidesEntry | cachedmodel/src/main/java/com/appunite/cache/CommandsDescription.java:333-340 | with `first` logged at 2 and `second` at 4, an element at 3 listening to `second` is owed the entry at 4; after a read of an element at 1 listening to both, both entries carry version 2 and that element has nothing to run |
| Replay.StampKeepsInvalidatedElement | cachedmodel/src/main/java/com/appunite/cache/CommandsDescription.java:298-316 | when `second` returns `INVALIDATE` for B, B's replay with the intended sort drops it; after A's read has stamped the log, B's replay keeps it with its old value |
| Replay.PendingAscending | cachedmodel/src/main/java/com/appunite/cache/CommandsDescription.java:333-340 | from an ascending log, the entries to run come in ascending version order |
| Replay.PendingAppend | cachedmodel/src/main/java/com/appunite/cache/CommandsDescription.java:335-337 | the entries to run from an appended log are those of the old log followed by those of the new part |
| Replay.PendingEmptyIffCaughtUp | cachedmodel/src/main/java/com/appunite/cache/CommandsDescription.java:87-102 | nothing is left to run exactly when no log entry matches the element |
| Replay.AboveLogIsCaughtUp | cachedmodel/src/main/java/com/appunite/cache/CommandsDescription.java:88-94 | an element whose version is above every logged version has nothing to run |
| Replay.Apply | cachedmodel/src/main/java/com/appunite/cache/CommandsDescription.java:248-255 | definition, no contract: the registered command applied to the entry's parameter and the running value; the Replay.Fold and EngineProofs.FoldOne rows state how its outcome is used |
| Replay.Fold | cachedmodel/src/main/java/com/appunite/cache/CommandsDescription.java:296-317 | a replay that reports no change kept the starting value, and a change once reported stays reported |
| Replay.FoldAppend | cachedmodel/src/main/java/com/appunite/cache/CommandsDescription.java:299-316 | replaying a + b is replaying a and going on with b; after an `INVALIDATE` the remaining entries are skipped |
| Replay.FoldAllNotRequired | cachedmodel/src/main/java/com/appunite/cache/CommandsDescription.java:313-317 | when no command updates or invalidates, the value is kept and no change is reported |
| Engine.Init | cachedmodel/src/main/java/com/appunite/cache/CommandsDescription.java:183-196 | a new engine has an empty log, no cold entries and no holders, the counter is 1, and the invariant holds |
| Engine.ChangedAll | cachedmodel/src/main/java/com/appunite/cache/CommandsDescription.java:160-165 | `onChanged` calls every listener once, in list order, with the value |
| Engine.InvalidatedAll | cachedmodel/src/main/java/com/appunite/cache/CommandsDescription.java:167-172 | `onInvalidated` calls every listener once, in list order |
| Engine.Registered2 | cachedmodel/src/main/java/com/appunite/cache/CommandsDescription.java:236-239 | entries picked from a log of registered names are registered, so `getCommand` never fails during a replay |
| Engine.Recalculate | cachedmodel/src/main/java/com/appunite/cache/CommandsDescription.java:291-329 | on `INVALIDATE`: the holder's element becomes absent, the key leaves the cold store, every listener is told `onInvalidated` once, the result is absent and the counter does not move. Otherwise: the element is stamped with the counter, which then advances, and has then absorbed the whole log. With an update and a holder, the element takes the new value and every listener gets `onChanged` with it once. In every other case (no update, or no holder) the value stays and nobody is called. Other keys are untouched |
| Engine.DropKey | cachedmodel/src/main/java/com/appunite/cache/CommandsDescription.java:301-312 | the `INVALIDATE` branch empties the holder and drops the key from the cold store, leaving counter, heap and other keys alone |
| Engine.Absorb | cachedmodel/src/main/java/com/appunite/cache/CommandsDescription.java:318-325 | the element is stamped with the current counter and takes the value; the counter advances; the element has absorbed the log |
| Engine.AddCommand | cachedmodel/src/main/java/com/appunite/cache/CommandsDescription.java:198-201 | the name maps to the command, replacing any earlier one, and nothing else changes |
| EngineProofs.AddCommandPreservesValid | cachedmodel/src/main/java/com/appunite/cache/CommandsDescription.java:198-206 | adding a command keeps the invariant and makes `invalidate` accept that name |
| Engine.Invalidate | cachedmodel/src/main/java/com/appunite/cache/CommandsDescription.java:203-208 | refused with `IllegalStateException` exactly when the name was never added; otherwise exactly one entry stamped with the counter is appended, the counter advances, and the state stays well formed |
| Engine.Logged | cachedmodel/src/main/java/com/appunite/cache/CommandsDescription.java:208 | appending the entry stamped with the counter and advancing the counter keeps the state well formed: the log stays ascending below the counter and names only registered commands |
| Engine.Selected | cachedmodel/src/main/java/com/appunite/cache/CommandsDescription.java:210-215 | definition, no contract: the holder has an element and that element listens to the command; the EngineProofs.RecomputeHotEffect and EngineProofs.InvalidateTouchesOnlySubscribed rows state that exactly these holders are recomputed |
| Engine.RecomputeHot | cachedmodel/src/main/java/com/appunite/cache/CommandsDescription.java:210-222 | the loop keeps the state well formed, keeps the log, registry, holder keys and listener lists, and never lowers the counter |
| EngineProofs.RecomputeHotEffect | cachedmodel/src/main/java/com/appunite/cache/CommandsDescription.java:210-222 | the loop recomputes every holder in the order whose present element listens to the name, and leaves every other key untouched |
| EngineProofs.RecomputeHotEventsJustified | cachedmodel/src/main/java/com/appunite/cache/CommandsDescription.java:210-222 | every callback the loop makes is the one that the recompute of a selected holder owes one of its listeners |
| EngineProofs.RecalculateEventsOwed | cachedmodel/src/main/java/com/appunite/cache/CommandsDescription.java:291-329 | the recompute of a selected holder makes exactly the callbacks it owes: each listener once, in list order, `onInvalidated` when the element is dropped and `onChanged` with the new value when it changed, and none otherwise |
| EngineProofs.HotTraceFrame | cachedmodel/src/main/java/com/appunite/cache/CommandsDescription.java:210-222 | two states that agree on every visited key owe the same callbacks, so recomputing one holder does not change what the later holders owe |
| EngineProofs.RecomputeHotTrace | cachedmodel/src/main/java/com/appunite/cache/CommandsDescription.java:210-222 | over distinct keys, the loop's callbacks are exactly the owed ones, holder after holder in key order, each listener once in list order |
| EngineProofs.RecomputeHotEventsComplete | cachedmodel/src/main/java/com/appunite/cache/CommandsDescription.java:210-222 | every listener of a selected holder whose recompute drops or changes the element gets the callback it is owed |
| EngineProofs.ReplayAfterLog | cachedmodel/src/main/java/com/appunite/cache/CommandsDescription.java:208-219 | right after the log append, a caught-up element that listens to the name has just the new entry to run, and one that does not has nothing |
| EngineProofs.FoldOne | cachedmodel/src/main/java/com/appunite/cache/CommandsDescription.java:299-316 | replaying a single entry applies its command once: `INVALIDATE` drops, `UPDATED` sets the value and reports a change, otherwise nothing changes |
| EngineProofs.InvalidateTouchesOnlySubscribed | cachedmodel/src/main/java/com/appunite/cache/CommandsDescription.java:210-222 | every key that is not a selected holder is untouched: keys without a holder, holders with an absent element, and holders whose element does not listen to the name |
| EngineProofs.InvalidateRecomputesSubscribed | cachedmodel/src/main/java/com/appunite/cache/CommandsDescription.java:210-222 | each selected holder is recomputed from the new entry alone. On `INVALIDATE` it is emptied and its key leaves the cold store. Otherwise it keeps the same element, which takes the command's value and has absorbed the log |
| EngineProofs.InvalidatePreservesValid | cachedmodel/src/main/java/com/appunite/cache/CommandsDescription.java:203-223 | `invalidate` keeps the invariant: every present hot element has absorbed the whole log afterwards |
| EngineProofs.InvalidateNotifiesOnlyOwed | cachedmodel/src/main/java/com/appunite/cache/CommandsDescription.java:203-223 | every callback goes to a listener of a selected holder whose element the new entry dropped (`onInvalidated`) or changed (`onChanged` with the new value) |
| EngineProofs.InvalidateNotifiesAllOwed | cachedmodel/src/main/java/com/appunite/cache/CommandsDescription.java:203-223 | every listener of every selected holder whose element the new entry dropped or changed gets the callback it is owed |
| EngineProofs.HotTraceAfterLog | cachedmodel/src/main/java/com/appunite/cache/CommandsDescription.java:203-222 | right after the log append, what the holders owe is decided by the new entry alone, applied once to each selected holder's current value |
| EngineProofs.InvalidateTraceIsOwed | cachedmodel/src/main/java/com/appunite/cache/CommandsDescription.java:203-223 | the callbacks of `invalidate` are exactly the owed ones: holder after holder in iteration order; for each selected holder whose element the new entry drops or changes, each listener once, in list order; nothing else |
| EngineProofs.InvalidateQuietWithoutChange | cachedmodel/src/main/java/com/appunite/cache/CommandsDescription.java:313-326 | when the new entry neither drops nor changes any selected element, `invalidate` calls nobody |
| EngineProofs.CaughtUpReplaysNothing | cachedmodel/src/main/java/com/appunite/cache/CommandsDescription.java:294-317 | an element that has absorbed the log is kept as it is, with no change reported |
| Engine.GetElementIfPresent | cachedmodel/src/main/java/com/appunite/cache/CommandsDescription.java:269-281 | the holder's element is used if there is a holder, else the cold store's. An absent element is returned without a recompute. A present one is recomputed: it is returned, caught up, exactly when the replay keeps it, and nothing is returned when the replay drops it. Without a holder nobody is called, and other keys are untouched |
| Engine.GetCacheIfPresent | cachedmodel/src/main/java/com/appunite/cache/CommandsDescription.java:342-347 | a key with no holder and no cold entry, or with an emptied holder, yields nothing; holders and listeners stay; other keys are untouched |
| EngineProofs.GetCachePreservesValid | cachedmodel/src/main/java/com/appunite/cache/CommandsDescription.java:342-347 | reading keeps the invariant |
| EngineProofs.HotReadIsCurrent | cachedmodel/src/main/java/com/appunite/cache/CommandsDescription.java:270-281 | reading a hot key returns its element's value and calls nobody; the counter still advances |
| EngineProofs.ColdReadIgnoresUpdates | cachedmodel/src/main/java/com/appunite/cache/CommandsDescription.java:318-328 | reading a cold key calls nobody. `INVALIDATE` drops the key. Otherwise the read returns the stored value even when a command updated it, and the element counts the entries as absorbed |
| EngineProofs.ColdUpdateLostForever | cachedmodel/src/main/java/com/appunite/cache/CommandsDescription.java:257-281 | after a cold read, a second read returns the old value again, and a holder registered afterwards is seeded with the same stale element |
| Engine.Register | cachedmodel/src/main/java/com/appunite/cache/CommandsDescription.java:225-232 | the listener is appended to an existing holder and nothing else changes. A new holder has just that listener, and an absent element when the key has no cold entry. Registry, log and other keys are untouched |
| EngineProofs.RegisterPreservesValid | cachedmodel/src/main/java/com/appunite/cache/CommandsDescription.java:257-267 | `register` keeps the invariant: a new holder is seeded with an element that has just absorbed the log |
| EngineProofs.RegisterSharesColdElement | cachedmodel/src/main/java/com/appunite/cache/CommandsDescription.java:258-267 | a new holder takes the very element object of the cold store when it survives its replay; when the replay invalidates, the holder starts empty and the key leaves the cold store |
| Engine.FirstIndex | cachedmodel/src/main/java/com/appunite/cache/CommandsDescription.java:375 | the position of the first occurrence, with no occurrence before it |
| Engine.RemoveFirst | cachedmodel/src/main/java/com/appunite/cache/CommandsDescription.java:375 | `List.remove` takes out the first occurrence of the listener and keeps the others in their order: one element shorter, same multiset minus that listener |
| EngineProofs.RemoveFirstAppended | cachedmodel/src/main/java/com/appunite/cache/CommandsDescription.java:375 | removing a listener that was appended to a list without it gives the list back |
| Engine.Unregister | cachedmodel/src/main/java/com/appunite/cache/CommandsDescription.java:367-379 | refused with "Already unregistered" when the key has no holder, and with "Not registered" when the listener is not in its list. Otherwise one occurrence is removed, the holder goes exactly when that was its last listener, and only the holder table changes |
| Engine.SetListeners | cachedmodel/src/main/java/com/appunite/cache/CommandsDescription.java:375-378 | the holder takes the new listener list and is removed exactly when the list is empty |
| EngineProofs.UnregisterPreservesValid | cachedmodel/src/main/java/com/appunite/cache/CommandsDescription.java:367-379 | a successful `unregister` keeps the invariant |
| EngineProofs.RegisterThenUnregister | cachedmodel/src/main/java/com/appunite/cache/CommandsDescription.java:367-379 | registering a new listener on an existing holder and unregistering it gives back exactly the same state |
| EngineProofs.RegisterThenUnregisterFresh | cachedmodel/src/main/java/com/appunite/cache/CommandsDescription.java:367-379 | registering the first listener of a key and unregistering it succeeds and gives back the holder table; only the cold element's replay remains |
| Engine.PutCache | cachedmodel/src/main/java/com/appunite/cache/CommandsDescription.java:351-365 | a new element stamped with the current counter is stored cold under the key and the counter advances. An existing holder takes that same element and every listener gets `onChanged` with the object. Without a holder nobody is called. Other keys are untouched |
| Engine.StoreFresh | cachedmodel/src/main/java/com/appunite/cache/CommandsDescription.java:358-359 | the new element gets a fresh identity that only this key reaches |
| Engine.Adopt | cachedmodel/src/main/java/com/appunite/cache/CommandsDescription.java:360-363 | the key's holder takes the element and keeps its listeners. The cold store, heap, log and counter are unchanged, other keys are untouched, and the state stays well formed |
| EngineProofs.PutCachePreservesValid | cachedmodel/src/main/java/com/appunite/cache/CommandsDescription.java:351-365 | `putCache` keeps the invariant, and no entry logged before the put applies to the new element |
| EngineProofs.PutThenGet | cachedmodel/src/main/java/com/appunite/cache/CommandsDescription.java:343-365 | a read right after `putCache` returns the object that was put and calls nobody |
| Engine.InvalidateHolders | cachedmodel/src/main/java/com/appunite/cache/CommandsDescription.java:383-386 | the callbacks are exactly one `onInvalidated` per listener entry, holder after holder in `keys` order and each list in its own order; so each goes to a listener of a holder in `keys`, and every such listener gets one |
| Engine.Cleared | cachedmodel/src/main/java/com/appunite/cache/CommandsDescription.java:382-384 | the cold store is empty and every holder's element is absent; holders, listeners, log, counter and elements stay, and the state stays well formed |
| Engine.ClearAll | cachedmodel/src/main/java/com/appunite/cache/CommandsDescription.java:381-387 | the state is `Cleared`, and the callbacks are exactly one `onInvalidated` per listener of each holder, holder after holder in iteration order: only to listeners of holders, and every listener reached |
| EngineProofs.ClearAllEmptiesEveryKey | cachedmodel/src/main/java/com/appunite/cache/CommandsDescription.java:381-387 | after `clearAll` the invariant holds and no key yields a value |
| Engine.Evict | cachedmodel/src/main/java/com/appunite/cache/CommandsDescription.java:188-191 | the store dropping one key by its own policy removes only that cold entry |
| EngineProofs.EvictKeepsHotReads | cachedmodel/src/main/java/com/appunite/cache/CommandsDescription.java:188-191 | eviction keeps the invariant; a key with a holder reads exactly as before, and a key without one yields nothing |
| Comments.NewWithAppended | example-api/src/main/java/com/example/api/model/ResponseComments.java:48-58 | refused with `IllegalStateException` exactly when the post guids differ. Otherwise the old comments are followed by the new ones, the old guid is kept and the appended page's next token is taken |
| Comments.AppendAssociative | example-api/src/main/java/com/example/api/model/ResponseComments.java:53-57 | loading two further pages one at a time is loading their join |
| Comments.AppendEmptyPage | example-api/src/main/java/com/example/api/model/ResponseComments.java:48-58 | appending an empty page of the same post with the same token changes nothing |
| Comments.NewWithAddedComment | example-api/src/main/java/com/example/api/model/ResponseComments.java:60-68 | the new comment comes first, followed by the unchanged old list; guid and next token are kept |
| Comments.AddedCommentCommutesWithAppend | example-api/src/main/java/com/example/api/model/ResponseComments.java:48-68 | adding a comment and then loading more gives the same page as loading more and then adding it |
| Comments.AddedCommentIsNew | example-api/src/main/java/com/example/api/model/ResponseComments.java:60-68 | the new page differs from the input, whose comments are its tail |
| Example.ForPostComments | example-api/src/main/java/com/example/api/internal/ExampleDescription.java:40-42 | the key is "posts/", then the guid, then "/comments" |
| Example.ForPostCommentsInjective | example-api/src/main/java/com/example/api/internal/ExampleDescription.java:40-42 | two posts share a key, by value or by Java equality, exactly when they are the same post |
| Example.ApplyCommentAdded | example-api/src/main/java/com/example/api/internal/ExampleDescription.java:51-56 | never invalidates; it updates exactly when the comment's post is the page's post, and the update is the page with the comment in front |
| Example.CommentAddedReplay | example-api/src/main/java/com/example/api/internal/ExampleDescription.java:51-56 | one replay on a matching page reports a change to one more comment, with the new one first and guid and token kept; a comment on another post changes nothing |
| Example.NewDescription | example-api/src/main/java/com/example/api/internal/ExampleDescription.java:46-58 | the constructor's engine holds `COMMENT_ADDED` only, with empty log and stores, counter 1, and the invariant |
| Example.Invalidate | example-api/src/main/java/com/example/api/internal/ExampleDescription.java:60-62 | accepted exactly for `COMMENT_ADDED`, otherwise refused with `IllegalStateException`; the log gains the entry and the invariant holds |
| Example.Register | example-api/src/main/java/com/example/api/internal/ExampleDescription.java:64-67 | the key gets a holder whose last listener is the new one, and the invariant holds |
| Example.Unregister | example-api/src/main/java/com/example/api/internal/ExampleDescription.java:69-71 | succeeds exactly when the key has a holder with that listener, and keeps the invariant |
| Example.PutCache | example-api/src/main/java/com/example/api/internal/ExampleDescription.java:73-76 | keeps the invariant, and a read afterwards gives back the object |
| Example.GetCacheIfPresent | example-api/src/main/java/com/example/api/internal/ExampleDescription.java:78-80 | keeps the invariant, and a key stored nowhere yields nothing |
| Example.ClearAll | example-api/src/main/java/com/example/api/internal/ExampleDescription.java:82-84 | keeps the invariant and empties the cold store |
| ExampleScenarios.LoadedPageReachesListener | example-api/src/test/java/com/example/api/CommentsExecutorManagerTest.java:99-105 | a listener registered on a post's key before its page is loaded is told the page once, and the page sits in the holder as a caught-up element |
| ExampleScenarios.FirstRegister | cachedmodel/src/main/java/com/appunite/cache/CommandsDescription.java:258-267 | the first `register` on a new engine makes a single holder with that listener and logs nothing |
| ExampleScenarios.PutOnSoleHolder | cachedmodel/src/main/java/com/appunite/cache/CommandsDescription.java:351-365 | `putCache` under the only holder's key stores the page stamped with the counter and tells its one listener |
| ExampleScenarios.SingleHolderInvalidate | cachedmodel/src/main/java/com/appunite/cache/CommandsDescription.java:210-222 | with a single selected holder, `invalidate` is that holder's recompute right after the log append |
| ExampleScenarios.HotPageInvalidate | example-api/src/main/java/com/example/api/internal/ExampleDescription.java:51-56 | on a hot page with one listener, a comment on its post is put in front and the listener is told that page, which a read returns; a comment on another post calls nobody and the read returns the page |
| ExampleScenarios.CommentAddedReachesListener | example-api/src/test/java/com/example/api/CommentsExecutorManagerTest.java:98-123 | after load, a comment on the same post reaches the listener once, as the page with the comment put in front, and a read then returns that page |
| ExampleScenarios.OtherPostCommentIsQuiet | example-api/src/test/java/com/example/api/CommentsExecutorManagerTest.java:125-143 | a comment on another post calls nobody, and the listener's page is unchanged |
| ExampleScenarios.CommentAddedLostWhenCold | cachedmodel/src/main/java/com/appunite/cache/CommandsDescription.java:318-328 | a comment added while nobody holds the page is lost: reads return the page without it, and so does a holder registered later |

## Left out

- Guava `Cache` size and expiry policy (`maximumSize(20)`, `expireAfterWrite`): time-based and foreign. The store is a map, and its own removals are the explicit `Engine.Evict` step.
- The comparator's overwrite of log versions (see Findings) is modelled on its own by `Replay.StampAsWritten`, not inside the engine. The engine uses the intended sort, so its cold reads can apply entries the code as written would skip.
- Listener re-entrancy: callbacks are an output trace, and nothing calls back into the engine while `invalidate`, `putCache` or `clearAll` run. The callbacks iterate over a copy of the listener list, and the trace takes that copy too.
- `HashMap` iteration order is a parameter (`order`), constrained to list every holder once.
- Generics over several value types, and the erased casts that join them: one engine instance has one value type and one parameter type. `Keys` models erased equality across type arguments separately.
- Overflow of the `int` counter `mVersion`: the counter is unbounded. Wrap-around would take 2^31 operations.
- Null values: keys, names, listeners, objects, command lists and post guids are non-null. Java would turn a null post guid into the key `posts/null/comments`, and `COMMENT_ADDED` compares guids null-safely, so a comment with a null guid would leave every page alone. `CacheKeyOf` and `CommandNameOf` model the null checks of `of`. A `COMMENT_ADDED` parameter is non-null because its command dereferences it.
- The package-private `CommandName` constructor, which skips the null check: no caller in the library uses it.
- `toString` of `CommandName`, `CommandToExecute`, `CacheElement` and `CacheHolder`: debugging output only. `CacheKey.toString` is modelled.
- Executors, schedulers, the Android UI, `ListenerCallbackAdapter`, and the executor managers around the example engine: threads, timing, randomness and UI. The test scenarios are restated as `ExampleScenarios` lemmas, with the fetch replaced by a `putCache`.
- ResponseComment.java is not part of this model. Its two fields, the post guid and the comment, are taken from how the example API builds and reads it.
- Comment.java is modelled only as a datatype of an id and an optional body.
- Accessors of `ResponseComments` are the datatype's fields.
- EngineProofs.RecomputeHotEventsComplete: states that every owed callback is made, not how often or in what order; the exact trace is `EngineProofs.RecomputeHotTrace`, which needs distinct keys, as a `HashMap` iteration gives.
- EngineProofs.InvalidateNotifiesAllOwed: states that every owed callback is made, not how often or in what order; the exact trace, each owed callback once and in order, is `EngineProofs.InvalidateTraceIsOwed`.
- Engine.GetCacheIfPresent: its own contract states only framing and the empty cases. What a read returns is stated by `EngineProofs.HotReadIsCurrent`, `EngineProofs.ColdReadIgnoresUpdates` and `EngineProofs.PutThenGet`.

## Findings

| source | as written | input that shows it | evidently intended | confidence | as-written member | corrected member |
|---|---|---|---|---|---|---|
| cachedmodel/src/main/java/com/appunite/cache/CommandsDescription.java:47-52 | `SORT_VERSION_ASC` returns `o1.version = o2.version`, an assignment. Sorting two or more matching entries keeps their order but gives all of them the first one's version. The entries are the log's own objects | cold element A at version 1 listening to `first` and `second`, cold element B at version 3 listening to `second`, `first` logged at 2 and `second` at 4: `second` returns `INVALIDATE` for B. A read of A turns the `second` entry's version into 2, so B's read finds nothing to run. B is then kept, and returned or adopted by `register`, where it should have been dropped. With an update-only command the loss is not visible, because a cold read does not store the updated value | compare the versions without changing them, for example `Integer.compare(o1.version, o2.version)` | not executed; medium, it relies on TimSort's run scan inside `Arrays.sort` | Replay.StampAsWritten, Replay.StampHidesEntry, Replay.StampKeepsInvalidatedElement | Replay.Pending, Replay.PendingAscending |
