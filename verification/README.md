# OdbDesign verification model

A Dafny 4.11 model of the parts of the OdbDesign server whose correctness is hard to
see by reading: the concurrent design cache, the UTF-8 sanitizer, the symbol listing of
`GetLayerSymbols`, the netlist builder, the entity tags and base64. The files form one
project: `dafny verify dfyconfig.toml` checks all of them together.

## How the model is organised

**The design cache, fine steps.** `SingleFlight` is a state machine whose threads have
program counters: one step is one locked region of `GetOrLoadSingleFlight` (or one
unlocked call such as a parse), any number of calls interleave, and a label `Interfere`
stands for eviction, invalidation, injection and `Clear()` by changing the shared maps
arbitrarily. `SingleFlightResults` proves what every run guarantees, `SingleFlightParses`
how often a design is parsed, and `SingleFlightHistory` reads off the run what each call
saw and proves that its insertion, its abandonment and its answer follow from that.
`BackgroundSlots` is the background-load semaphore with its condition variable, wake-ups
included. `LockScripts` says which mutexes every program point, worker phase and client
operation takes, and proves the documented order of all of them; `LockGuards` proves that
whatever a step writes or learns is guarded by the mutex documented for that table;
`Deadlock` runs everything together, one lock operation at a time, and `Waiting` proves
that the wait-for relation is well-founded, so that every chain of waiting threads ends at
one that can step. `LruLedger` is the 64-bit byte accounting and the eviction loop;
`ResponseStore` is the payload store with its generations.

**The design cache, operation steps.** `CacheModel` puts all shared fields in one value
and makes a load two steps (register, complete) and a response commit a third one; a load
may also leave through the loader-exit guard at any stage. `CacheViews` describes what an
operation does to one name, and on top of it `CacheSoundness` (payloads describe the
cached design, accounts are exact), `CacheBills` (what each entry is charged with and when
it was served, and the budget), `CacheEffects` (what each operation leaves behind),
`CacheRuns` (no stale resurrection), `CacheFreshness` (how old a cached design can be) and
`CacheStates` (load states, and what exceptions leave behind) reason over whole runs.
`DesignCache` is the mutable object; each operation is proved to be an enabled step of the
model and to keep the cache sound.

**The rest.** `Utf8Codec` and `Utf8Sanitizer`; `SymbolSlots`; `NetlistSpec` (what the
product model must be), `NetlistLaw` (the same from the file's records alone) and
`ProductModel` (the classes that build it); `ETag`; `Base64`.

Parsing, protobuf serialization, the clock, file sizes and hash-map enumeration order are
parameters: a parse returns a value, null or an exception, a serializer is any function,
and an enumeration order is any sequence with the right elements.

## Where the code and its comments differ

- `DesignCache.h:222-224` says "exactly one parse per design name". A call that missed
  the cache, then found no load in flight because the loader had already left, parses
  again (`SingleFlightParses.LateArriverParsesAgain`). What holds is one load at a time
  and agreement of all results; `ParsesAgainIff` says exactly which calls can still parse
  a cached key.
- The comments at `DesignCache.h:621-649` explain that a load overlapping an invalidation
  is abandoned so that old contents are not resurrected. That is true of the load itself.
  But a design load that registers *after* the invalidation may join an archive load that
  registered *before* it: the archive load is abandoned, yet hands its old archive to the
  joiner, and the design built from it is inserted under the new generation
  (`CacheFreshness.StaleDesignIsReachable`). `FreshIffNoOldArchive` gives the exact
  condition, load by load.
- `DesignCache.h:505-514` describes the loader-exit guard as the safety net for an
  exception outside the parse. It fails the promise and frees the in-flight entry, but
  leaves the load state and the caches as they are. `FindArchivePath` can throw while a
  charge is being estimated, and then the name stays Loading with no load in flight and
  its object stays cached outside the byte budget
  (`CacheStates.GuardExitLeavesTheNameStuck`); `LoadingMeansInFlightUnlessStranded` and
  `CachedIsChargedUnlessSkipped` say exactly when.
- `ETag.h:10-15` promises that a replacement changes the tag. With 2^128 pairs of time and
  size and 2^64 digests it cannot for all of them (`ETag.TagsCollide`); the other lemmas of
  `ETag` state for which changes it does.
- `OdbDesignServiceImpl.cpp:515-518` says that symbol indices above 10,000,000 are
  ignored. Only references are filtered; an index that a symbol declares is not
  (`SymbolSlots.DeclaredIndicesAreNotLimited`).
- `bin2ascii.h` accepts `=` anywhere in base64 text, as a zero digit
  (`Base64.PaddingAloneIsAccepted`).

## Model

| member | source | states |
|---|---|---|
| `SingleFlight.InvAlways` | OdbDesignLib/App/DesignCache.h:436-535 | In every reachable state the in-flight map, the promises and the program counters of all calls agree with each other |
| `SingleFlight.ApplyKeepsInv` | OdbDesignLib/App/DesignCache.h:436-707 | Every step of every call, and arbitrary interference with the shared maps, keeps that invariant, loses no call and touches no satisfied promise; which branch a load takes is stated by `SingleFlightHistory` |
| `SingleFlight.FulfilKeepsInv` | OdbDesignLib/App/DesignCache.h:561-707 | A promise that is about to be set is still pending, on every exit path |
| `SingleFlightResults.OneLoaderPerFlight` | OdbDesignLib/App/DesignCache.h:462-535 | A key is in flight exactly when one call lies between registering and erasing it, and the map names that call |
| `SingleFlightResults.ExtendsAlways` | OdbDesignLib/App/DesignCache.h:436-707 | Along every run calls keep their key and satisfied promises never change |
| `SingleFlightResults.PromiseSetAtMostOnce` | OdbDesignLib/App/DesignCache.h:505-535 | No run sets a promise twice, whether by value, null, parse exception or the exit guard |
| `SingleFlightResults.NoDeadFuture` | OdbDesignLib/App/DesignCache.h:485-503 | A joiner waits on a satisfied promise or on a live loader of its own key that still owns the in-flight entry |
| `SingleFlightResults.JoinersGetTheLoadersOutcome` | OdbDesignLib/App/DesignCache.h:485-503 | A joiner returns its loader's own outcome and a loader that left satisfied its promise with what it returned |
| `SingleFlightResults.AgreeAlways` | OdbDesignLib/App/DesignCache.h:621-696 | While nothing disturbs a key, every call that has committed to an object has committed to the cached one |
| `SingleFlightResults.ResultsAgree` | OdbDesignLib/App/DesignCache.h:651-696 | In every interleaving that leaves the key alone all non-null results for it are the same object, even after repeated parses |
| `SingleFlightResults.CallsAreShort` | OdbDesignLib/App/DesignCache.h:428-707 | No call loops or retries: each takes at most sixteen steps, and each step brings it nearer to its return |
| `SingleFlightHistory.RemembersAlways` | OdbDesignLib/App/DesignCache.h:455-696 | In every reachable state what a call is about to do agrees with what it saw along the run: the generation and epoch at registration, the end of its parse, the generation and epoch at the check, and what the cache held after its insertion |
| `SingleFlightHistory.CacheWritesAreCurrent` | OdbDesignLib/App/DesignCache.h:621-664 | If a step of a call changes the cache, the generation it captured equals the one it compared and the epoch at which it registered the one at which it decided; it writes what its own parse found, under its own key, which was not cached |
| `SingleFlightHistory.DecisionFollowsTheLog` | OdbDesignLib/App/DesignCache.h:621-649 | At the check a loader goes on to insert what it parsed if both pairs agree, and otherwise settles with it unpublished |
| `SingleFlightHistory.DecidedForGood` | OdbDesignLib/App/DesignCache.h:621-649 | What a call has seen at its check does not change in the rest of the run |
| `SingleFlightHistory.OvertakenLoadsAreAbandoned` | OdbDesignLib/App/DesignCache.h:621-649 | If the generation or the epoch moved between registration and check, no step of that call in the whole run changes the cache, and it returns what its own parse found unless an exception interrupted it |
| `SingleFlightHistory.LoadersAnswerAsTheyParsed` | OdbDesignLib/App/DesignCache.h:561-619 | A loader returns the exception its parse threw, null if it found nothing, or the object: the cached one after its insertion, else its own; an exception outside the parse is returned as such |
| `SingleFlightParses.LateArriverParsesAgain` | OdbDesignLib/App/DesignCache.h:222-224 | A run without interference in which the same archive is parsed twice |
| `SingleFlightParses.ParsesAgainIff` | OdbDesignLib/App/DesignCache.h:436-483 | In any reachable state with the key cached, a call for it can still parse it, in some continuation that leaves the key alone, if and only if it stands between its cache miss and its parse |
| `SingleFlightParses.OutOfTheRaceForGood` | OdbDesignLib/App/DesignCache.h:436-503 | A call for a cached key at any other point never gets there, in any continuation that leaves the key alone |
| `SingleFlightParses.LoaderCanLeave` | OdbDesignLib/App/DesignCache.h:505-707 | The loader of a key in flight can always be run to its end, nested archive call included, while every other call for the key stays where it is; then the key is not in flight |
| `SingleFlightParses.LateCallReturnsTheCachedObject` | OdbDesignLib/App/DesignCache.h:436-459 | A call that starts once the key is cached and undisturbed returns the cached object or throws |
| `BackgroundSlots.InvAlways` | OdbDesignLib/App/DesignCache.cpp:432-536 | In every reachable state of the semaphore the counters, the pending-name set, the waiters and the drain agree |
| `BackgroundSlots.CountersAreExact` | OdbDesignLib/App/DesignCache.cpp:519-536 | Active and outstanding counters equal the slot holders and unfinished workers, and each acquisition respects the cap then in force |
| `BackgroundSlots.OneLiveLoadPerName` | OdbDesignLib/App/DesignCache.cpp:432-478 | A name has at most one live background load |
| `BackgroundSlots.NoLostWakeup` | OdbDesignLib/App/DesignCache.cpp:411-419 | A sleeping waiter beside a free slot implies a notification still to be issued or a worker awake and about to check |
| `BackgroundSlots.DrainIsWoken` | OdbDesignLib/App/DesignCache.cpp:29-42 | The destructor never sleeps with nothing outstanding unless the last departure is about to notify it |
| `BackgroundSlots.NoGapBeforePreSerialization` | OdbDesignLib/App/DesignCache.cpp:1153-1216 | From scheduling a pre-serialization inside a load until that worker leaves, outstanding never reaches zero and the drain does not finish |
| `BackgroundSlots.CapIsTheLastSet` | OdbDesignLib/App/DesignCache.cpp:411-419 | The cap in force is the one set last, or two |
| `BackgroundSlots.SlotsAreGivenByTheCap` | OdbDesignLib/App/DesignCache.cpp:519-526 | A worker that looks for a slot gets one exactly if the cap is zero or fewer than the cap are held, and otherwise sleeps |
| `BackgroundSlots.DrainEndsIffIdle` | OdbDesignLib/App/DesignCache.cpp:29-42 | The destructor gets past its drain exactly if no worker is left when it looks |
| `Deadlock.InvAlways` | OdbDesignLib/App/DesignCache.h:206-215 | In every reachable state no mutex has two holders, and each thread inside a step has exactly the rest of the code's own lock script of that step before it, or, after an exception, the releases |
| `Deadlock.LockOrderIsKept` | OdbDesignLib/App/DesignCache.h:206-215 | In every reachable state whoever holds several mutexes took them in the documented order, and nobody who waits for a future, a nested call or a slot holds any |
| `Waiting.WaitingIsWellFounded` | OdbDesignLib/App/DesignCache.h:206-215 | In every reachable state each wait (for a mutex, a future, a nested call, a slot or the last worker) leads to an unfinished thread of lower rank: destructor, slot waiter, slot holder, design joiner, design loader, archive joiner, archive loader, then mutexes by lock order |
| `Waiting.NobodyStallsAlone` | OdbDesignLib/App/DesignCache.h:485-503 | In every reachable state an unfinished call, worker, client operation or destructor can take its own next step or waits for somebody |
| `Waiting.NoCircularWait` | OdbDesignLib/App/DesignCache.h:206-215 | No thread waits for itself through others, and no chain of waiting threads has more than ten members |
| `Waiting.NoDeadlock` | OdbDesignLib/App/DesignCache.h:485-503 | From every unfinished thread in every reachable state the chain of those it waits for reaches one that can take its own next step |
| `Waiting.ReadyEnters` | OdbDesignLib/App/DesignCache.h:436-707 | A thread that waits for nothing can enter its step, whatever path the step takes |
| `Waiting.WantsLower` | OdbDesignLib/App/DesignCache.h:206-215 | The holder of a wanted mutex can itself only want one higher in the lock order |
| `Waiting.CallWaitsLower` | OdbDesignLib/App/DesignCache.cpp:583-608 | Joiners wait for loaders of their key and design loads for archive calls, all unfinished |
| `Waiting.WorkerWaitsLower` | OdbDesignLib/App/DesignCache.cpp:480-536 | A slot holder waits for the unfinished call it runs, a slot waiter for holders, lookers and notifiers |
| `Waiting.SleeperWaits` | OdbDesignLib/App/DesignCache.cpp:411-419 | A sleeping slot waiter always has a holder, a looker or a notifier to wait for |
| `Waiting.SleepingDestructorWaits` | OdbDesignLib/App/DesignCache.cpp:29-42 | A sleeping destructor always has a worker to wait for that has not gone |
| `LockScripts.CallScriptIsLegal` | OdbDesignLib/App/DesignCache.h:436-707 | The mutexes taken at every program point of a load obey the documented order, for any number of examined entries and victims |
| `LockScripts.WorkerScriptIsLegal` | OdbDesignLib/App/DesignCache.cpp:480-536 | So do those of every phase of a background worker, its payload commit included |
| `LockScripts.ClientScriptIsLegal` | OdbDesignLib/App/DesignCache.cpp:73-131 | So do those of AddFileArchive, InvalidateDesign, Clear, setCacheMaxBytes, re-estimation, lazy serialization, kicks and cap changes |
| `LockScripts.DrainScriptIsLegal` | OdbDesignLib/App/DesignCache.cpp:29-42 | So does the destructor's test of its predicate |
| `LockScripts.ChargeKeeps` | OdbDesignLib/App/DesignCache.cpp:666-754 | Charging and evicting, nested store and state locks included, is in order |
| `LockScripts.CommitKeeps` | OdbDesignLib/App/DesignCache.cpp:1099-1151 | A payload commit is in order wherever it gives up |
| `LockScripts.AdjustKeeps` | OdbDesignLib/App/DesignCache.cpp:1224-1238 | Adjusting a payload charge is in order |
| `LockScripts.ResyncKeeps` | OdbDesignLib/App/DesignCache.cpp:804-826 | Re-estimating a charge is in order |
| `LockScripts.BudgetKeeps` | OdbDesignLib/App/DesignCache.cpp:393-403 | Setting the budget and evicting down to it is in order |
| `LockGuards.LoadWritesAreGuarded` | OdbDesignLib/App/DesignCache.h:202-239 | A step of a load that changes the caches takes the cache mutex, one that changes the in-flight map takes the load-state mutex |
| `LockGuards.LoadReadsAreGuarded` | OdbDesignLib/App/DesignCache.h:202-239 | If another content of the caches, the generations, the epoch or the in-flight map would lead a step of a load elsewhere, the step takes the mutex that protects that table |
| `LockGuards.WorkerWritesAreGuarded` | OdbDesignLib/App/DesignCache.h:241-259 | A worker step that changes the counters takes the background mutex, one that changes the pending names takes the load-state mutex, and none changes the cap |
| `LockGuards.CountersAreReadUnderTheirMutex` | OdbDesignLib/App/DesignCache.h:248-259 | Only a look for a slot and the look of the destructor depend on the counters and the cap, and both take the background mutex |
| `LockGuards.ClientWritesAreGuarded` | OdbDesignLib/App/DesignCache.cpp:411-449 | A new cap is set under the background mutex, and a name marked as pending under the load-state mutex |
| `ResponseStore.Responses.TryGetDesignBytes` | OdbDesignLib/App/DesignCache.cpp:906-916 | Yields the stored bytes exactly when an entry with non-empty bytes exists |
| `ResponseStore.Responses.TryGetJsonPayload` | OdbDesignLib/App/DesignCache.cpp:918-935 | Yields the requested JSON exactly when it is stored and non-empty |
| `ResponseStore.Responses.TotalStoredBytes` | OdbDesignLib/App/DesignCache.cpp:950-959 | The loop's result is the sum over all names, in whatever order they are visited |
| `ResponseStore.Responses.TryStore` | OdbDesignLib/App/DesignCache.cpp:968-1004 | Stored exactly when the generation is current, an existing payload wins, and the reported bytes are those held afterwards |
| `ResponseStore.Responses.Invalidate` | OdbDesignLib/App/DesignCache.cpp:1006-1020 | Drops the payload, raises the generation and reports the bytes dropped |
| `ResponseStore.Responses.Clear` | OdbDesignLib/App/DesignCache.cpp:1022-1029 | Forgets payloads and generations but not the serialization counter |
| `ResponseStore.GenerationsOnlyRise` | OdbDesignLib/App/DesignCache.cpp:961-1020 | In Clear-free runs generations never fall, and stay put exactly when the name is not invalidated |
| `ResponseStore.StoreSucceedsIffNotInvalidated` | OdbDesignLib/App/DesignCache.cpp:968-1004 | A store under a generation captured earlier succeeds exactly when no invalidation of the name came between |
| `ResponseStore.HeldOrSuperseded` | OdbDesignLib/App/DesignCache.cpp:968-1020 | A stored payload is held until its generation is over |
| `ResponseStore.OneSerializationPerGeneration` | OdbDesignLib/App/DesignCache.h:318-360 | The serialization counter rises at most once per name and generation, however many committers race |
| `ResponseStore.CounterCountsNewPayloads` | OdbDesignLib/App/DesignCache.cpp:968-1004 | The counter rises by one exactly when a payload is kept for a name that had none, which then is the payload offered; an existing one makes the store a no-op; an invalidation drops that name alone |
| `ResponseStore.ClearForgetsInvalidations` | OdbDesignLib/App/DesignCache.cpp:1022-1029 | Across a Clear the generation alone does not detect an invalidation, so the epoch is needed too |
| `LruLedger.LruCache.TouchLru` | OdbDesignLib/App/DesignCache.cpp:652-664 | Moves only the served time of an existing entry |
| `LruLedger.LruCache.InsertLru` | OdbDesignLib/App/DesignCache.cpp:666-699 | Charges a new entry or re-estimates an existing one, keeping its payload charge |
| `LruLedger.LruCache.FindVictim` | OdbDesignLib/App/DesignCache.cpp:704-740 | Finds the least recently served evictable entry, or proves there is none |
| `LruLedger.LruCache.EraseEntry` | OdbDesignLib/App/DesignCache.cpp:742-750 | Removes an entry with its full contribution |
| `LruLedger.LruCache.EvictOverBudgetLocked` | OdbDesignLib/App/DesignCache.cpp:704-754 | The loop terminates and performs one complete pass: oldest evictable first, only while over budget, until within budget or nothing is evictable |
| `LruLedger.LruCache.ResyncLruEstimate` | OdbDesignLib/App/DesignCache.cpp:804-826 | Replaces the estimate and moves the total by the difference |
| `LruLedger.LruCache.ChargeSerialized` | OdbDesignLib/App/DesignCache.cpp:1123-1149 | Sets the payload charge and moves the total by the difference |
| `LruLedger.LruCache.AdjustLruSerializedBytes` | OdbDesignLib/App/DesignCache.cpp:1224-1238 | Brings the payload charge to what the store holds |
| `LruLedger.LruCache.Clear` | OdbDesignLib/App/DesignCache.cpp:337-367 | Empties the ledger and keeps the budget |
| `LruLedger.BytesAreConserved` | OdbDesignLib/App/DesignCache.cpp:666-699 | After every critical section of any interleaving the total equals, modulo 2^64, the sum of all entries, even when the byte counts read outside the lock are out of date |
| `LruLedger.SectionBalanced` | OdbDesignLib/App/DesignCache.cpp:1123-1149 | Each single critical section keeps that equation, wrap-around and signed differences included |
| `LruLedger.PassRemoves` | OdbDesignLib/App/DesignCache.cpp:704-754 | A pass removes exactly its victims, all evictable, changes no other entry and keeps the balance |
| `LruLedger.PassExists` | OdbDesignLib/App/DesignCache.cpp:704-754 | Every ledger has a complete eviction pass, whatever its budget |
| `LruLedger.PassIsLeastRecentFirst` | OdbDesignLib/App/DesignCache.cpp:704-754 | Victims are distinct, leave in served order, and none was served later than an evictable survivor |
| `LruLedger.PassIsExact` | OdbDesignLib/App/DesignCache.cpp:742-754 | With exact accounts no subtraction wraps, every removal happens over budget, and the end is within budget or without evictable entries |
| `CacheViews.StepSeenAt` | OdbDesignLib/App/DesignCache.cpp:756-777 | What each operation does to one name: the victims of its pass lose everything, the others follow the operation's own effect on that name |
| `CacheSoundness.SoundAlways` | OdbDesignLib/App/DesignCache.cpp:1099-1151 | In every reachable state stored payloads are built from the cached design and charged, cached archives are as new as the last invalidation, payload charges are what the store holds, and the ledger balances |
| `CacheSoundness.SoundStep` | OdbDesignLib/App/DesignCache.cpp:73-131 | Each operation, exits through the guard and interrupted injections included, keeps that invariant |
| `CacheSoundness.WarmEqualsCold` | OdbDesignServer/Services/OdbDesignServiceImpl.cpp:138-175 | A warm GetDesign reply equals the cold path's pruned message of the design cached at that moment |
| `CacheSoundness.AccountsAreExact` | OdbDesignLib/App/DesignCache.cpp:1218-1238 | When operations do not overlap the total is exact in the integers as long as it fits 64 bits, and each payload charge is the number of bytes the store holds |
| `CacheBills.EntriesAreBilled` | OdbDesignLib/App/DesignCache.cpp:652-699 | In every reachable state a name has an LRU entry exactly if it was charged since it was last evicted or cleared; the entry then holds, as a 64-bit word, the size of the last charge or re-estimate, and the time of the last charge or touch |
| `CacheBills.TotalIsTheSize` | OdbDesignLib/App/DesignCache.cpp:666-699 | The cached total is the sum, over the charged names, of the size each was last charged with and the bytes stored for it, in the integers as long as that fits 64 bits |
| `CacheBills.BudgetIsKept` | OdbDesignLib/App/DesignCache.cpp:393-403 | The budget is the one set last, and after every operation that charges, commits or sets it the total is within it, or only the name just served and names being loaded are left, or entries stamped with the largest time |
| `CacheRuns.StampStep` | OdbDesignLib/App/DesignCache.cpp:73-131 | A name's epoch and generation move exactly when an operation replaces, invalidates, evicts or clears it |
| `CacheRuns.StampsTell` | OdbDesignLib/App/DesignCache.h:621-623 | Over a run an unchanged epoch and generation mean no invalidation, and conversely |
| `CacheRuns.MarkKept` | OdbDesignLib/App/DesignCache.h:462-483 | A load in flight keeps the epoch and generation it captured |
| `CacheRuns.LoadPublishesIffNotInvalidated` | OdbDesignLib/App/DesignCache.h:621-664 | A load publishes exactly when its name was not invalidated, evicted or cleared since it registered; otherwise only its in-flight entry goes |
| `CacheRuns.CommitPublishesIffNotInvalidated` | OdbDesignLib/App/DesignCache.cpp:1099-1151 | A waiting commit stores its payload exactly when there is one, its name has an LRU entry, and the name was not invalidated, evicted or cleared since the commit was captured |
| `CacheEffects.StatesAreRecorded` | OdbDesignLib/App/DesignCache.cpp:839-881 | Which state each operation leaves each name in: Loading when announced, then Loaded, Failed or none; Loaded when injected; Unloaded when evicted, invalidated or cleared; and no other change |
| `CacheEffects.InvalidatedNamesAreGone` | OdbDesignLib/App/DesignCache.cpp:111-131 | After an invalidation, an eviction or a Clear nothing of the name is cached or stored; after an injection, only the injected archive |
| `CacheEffects.ClearLeavesNothing` | OdbDesignLib/App/DesignCache.cpp:337-367 | A Clear empties every table but the budget, the loads and the commits under way, and starts the next epoch |
| `CacheEffects.DesignLoadsGetTheirArchive` | OdbDesignLib/App/DesignCache.cpp:583-608 | A design load is built from the cached archive, or from the one its archive load ended with: the cached one if that load is current, else its own |
| `CacheEffects.CachedObjectsStay` | OdbDesignLib/App/DesignCache.h:651-664 | A cached archive, design or payload is never replaced unless its name is invalidated, evicted, injected or cleared |
| `CacheFreshness.OldArchiveMakesStaleDesign` | OdbDesignLib/App/DesignCache.h:485-503 | Whenever an archive load older than the last invalidation is running and no design is cached, a new design load can join it and cache a stale design, whatever the byte budget |
| `CacheFreshness.StaleDesignIsReachable` | OdbDesignLib/App/DesignCache.h:621-649 | A five-step run from the empty cache that ends with a stale cached design |
| `CacheFreshness.LoadWithoutOldArchiveIsFresh` | OdbDesignLib/App/DesignCache.cpp:583-608 | A design load that registers with no such archive load beside it only ever inserts a fresh design, whatever other loads do |
| `CacheFreshness.FreshIffNoOldArchive` | OdbDesignLib/App/DesignCache.cpp:583-608 | At any reachable state, everything a design load registering now may insert is fresh if and only if no archive load older than the last invalidation is running, or a design is cached already |
| `CacheStates.LoadingMeansInFlightUnlessStranded` | OdbDesignLib/App/DesignCache.h:505-559 | A name recorded Loading has an announced load in flight whose epoch and generation are current, exactly unless its last such load left through the exit guard, or an injection was interrupted, and nothing has freed the name since |
| `CacheStates.CachedIsChargedUnlessSkipped` | OdbDesignLib/App/DesignCache.h:651-667 | A cached name has an LRU entry, exactly unless an exception came between the insertion and the charge of an uncharged name and it has been neither charged nor dropped since |
| `CacheStates.GuardExitLeavesTheNameStuck` | OdbDesignLib/App/DesignCache.cpp:556-580 | A two-step run after which the name stays Loading with no load in flight and its archive is cached outside the byte budget |
| `CacheStates.MissingNamesLeaveNoState` | OdbDesignLib/App/DesignCache.h:598-619 | A name that is never injected and never found is never cached or charged, and has a state entry without an announced load exactly if a load left through the exit guard and neither Clear nor another announcement came since |
| `CacheStates.TransitionsFormAWalk` | OdbDesignLib/App/DesignCache.cpp:839-881 | In Clear-free runs each name's recorded transitions form a connected walk from Unloaded to its current state |
| `DesignCache.Caches.TransitionLoadState` | OdbDesignLib/App/DesignCache.cpp:839-857 | Performs and records a state change, and nothing when the state is already there |
| `DesignCache.Caches.EraseLoadState` | OdbDesignLib/App/DesignCache.cpp:862-881 | Removes a state entry and records the return to Unloaded |
| `DesignCache.Caches.InvalidateResponsePayloads` | OdbDesignLib/App/DesignCache.cpp:1218-1238 | Drops and uncharges a name's payloads |
| `DesignCache.Caches.EvictCacheEntries` | OdbDesignLib/App/DesignCache.cpp:756-777 | Cleans up every victim in turn |
| `DesignCache.Caches.InsertLruAndEvict` | OdbDesignLib/App/DesignCache.cpp:666-699 | Charges a name with the size of its archive, the overhead of 4096 bytes and the bytes stored for it, runs a full eviction pass that protects it, and cleans up the victims |
| `DesignCache.Caches.EstimateDesignBytes` | OdbDesignLib/App/DesignCache.cpp:779-802 | The estimate is the size of the file on disk, or of the injected archive, plus 4096 and the bytes stored for the name, as a 64-bit word |
| `DesignCache.Caches.AddFileArchive` | OdbDesignLib/App/DesignCache.cpp:73-109 | Performs an injection and, with save, a served hit and a re-estimation as two further operations, each keeping the cache sound |
| `DesignCache.Caches.Inject` | OdbDesignLib/App/DesignCache.cpp:73-99 | Performs the model operation, enabled, and keeps the cache sound: replaces the archive, drops design and payloads, charges, evicts and records Loaded |
| `DesignCache.Caches.InterruptedInjection` | OdbDesignLib/App/DesignCache.cpp:556-580 | Performs the model operation, enabled, and keeps the cache sound: the archive is in place when the size estimate throws, uncharged and unrecorded |
| `DesignCache.Caches.TouchLru` | OdbDesignLib/App/DesignCache.cpp:652-664 | Performs the model operation, enabled, and keeps the cache sound: moves the served time |
| `DesignCache.Caches.ResyncLruEstimate` | OdbDesignLib/App/DesignCache.cpp:804-826 | Performs the model operation, enabled, and keeps the cache sound: re-estimates the charge |
| `DesignCache.Caches.InvalidateDesign` | OdbDesignLib/App/DesignCache.cpp:111-131 | Performs the model operation, enabled, and keeps the cache sound: drops archive, design and payloads and records Unloaded |
| `DesignCache.Caches.Clear` | OdbDesignLib/App/DesignCache.cpp:337-367 | Performs the model operation, enabled, and keeps the cache sound: empties every table and starts a new epoch |
| `DesignCache.Caches.SetCacheMaxBytes` | OdbDesignLib/App/DesignCache.cpp:393-403 | Performs the model operation, enabled, and keeps the cache sound: sets the budget and evicts down to it |
| `DesignCache.Caches.BeginLoad` | OdbDesignLib/App/DesignCache.h:462-559 | Performs the model operation, enabled, and keeps the cache sound: captures epoch and generation, registers, announces Loading |
| `DesignCache.Caches.FinishDesign` | OdbDesignLib/App/DesignCache.h:621-707 | Performs the model operation, enabled, and keeps the cache sound: abandons a stale design load; otherwise inserts, charges, schedules the commit and records Loaded |
| `DesignCache.Caches.FinishArchive` | OdbDesignLib/App/DesignCache.h:621-707 | Performs the model operation, enabled, and keeps the cache sound: the same for an archive load, whose object also reaches the design load that joined it |
| `DesignCache.Caches.FinishNotFound` | OdbDesignLib/App/DesignCache.h:598-619 | Performs the model operation, enabled, and keeps the cache sound: a load that found nothing erases the state it announced |
| `DesignCache.Caches.FailLoad` | OdbDesignLib/App/DesignCache.h:561-596 | Performs the model operation, enabled, and keeps the cache sound: a load that threw records Failed unless the cache was cleared meanwhile |
| `DesignCache.Caches.ExitThroughGuard` | OdbDesignLib/App/DesignCache.h:505-535 | Performs the model operation, enabled, and keeps the cache sound: an exception outside the parse leaves everything done up to its stage and erases the in-flight entry |
| `DesignCache.Caches.FetchArchive` | OdbDesignLib/App/DesignCache.cpp:583-608 | Performs the model operation, enabled, and keeps the cache sound: a design load takes the cached archive |
| `DesignCache.Caches.CaptureCommit` | OdbDesignLib/App/DesignCache.cpp:1247-1262 | Performs the model operation, enabled, and keeps the cache sound: a lazy serialization captures design, generation and epoch |
| `DesignCache.Caches.CommitResponsePayloads` | OdbDesignLib/App/DesignCache.cpp:1099-1151 | Performs the model operation, enabled, and keeps the cache sound: stores and charges a payload only after the identity, LRU, epoch and generation checks, then evicts other names |
| `Utf8Codec.EncodeOfScan` | OdbDesignLib/Text/Utf8Sanitizer.cpp:149-214 | Whatever the scanner accepts is the encoding of the Unicode scalar value it read |
| `Utf8Codec.ScanOfEncode` | OdbDesignLib/Text/Utf8Sanitizer.cpp:111-139 | The scanner reads back every encoded scalar value, whatever follows it |
| `Utf8Codec.ScanStopsAtAscii` | OdbDesignLib/Text/Utf8Sanitizer.cpp:149-214 | No multi-byte sequence reaches across an ASCII byte |
| `Utf8Codec.ScanIsTheGrammar` | OdbDesignLib/Text/Utf8Sanitizer.cpp:149-214 | The scanner accepts n bytes exactly if they match the grammar of section 4 of RFC 3629 |
| `Utf8Codec.EncodingKeepsTheOrder` | OdbDesignLib/Text/Utf8Sanitizer.cpp:111-139 | Encodings are ordered byte by byte as their code points are, as section 1 of RFC 3629 says, and none is a prefix of another |
| `Utf8Sanitizer.IsValidUtf8` | OdbDesignLib/Text/Utf8Sanitizer.cpp:332-347 | The loop accepts exactly the concatenations of encoded scalar values (section 3 of RFC 3629) |
| `Utf8Sanitizer.SpellingIsUnique` | OdbDesignLib/Text/Utf8Sanitizer.cpp:332-347 | A byte string spells at most one sequence of scalar values |
| `Utf8Sanitizer.Cp1252` | OdbDesignLib/Text/Utf8Sanitizer.cpp:36-102 | Every byte maps to a scalar value below U+10000, ASCII exactly to ASCII; `TableInvertsTheEncoder` says to which |
| `Utf8Sanitizer.TableInvertsTheEncoder` | OdbDesignLib/Text/Utf8Sanitizer.cpp:36-102 | Bytes below 0x80 and from 0xA0 up map to themselves, exactly 0x81, 0x8D, 0x8F, 0x90 and 0x9D to U+FFFD, and on the other 251 the table is the inverse, both ways, of a Windows-1252 encoder written as a table of characters |
| `Utf8Sanitizer.EncodeUtf8Codepoint` | OdbDesignLib/Text/Utf8Sanitizer.cpp:111-139 | Writes the encoding into the buffer, returns its length and leaves the rest of the buffer alone |
| `Utf8Sanitizer.RepairKeepsCharacters` | OdbDesignLib/Text/Utf8Sanitizer.cpp:375-383 | Text that starts with a character keeps it and repairs the rest |
| `Utf8Sanitizer.RepairTranscodesBadBytes` | OdbDesignLib/Text/Utf8Sanitizer.cpp:384-390 | Text that starts with no character has its first byte alone read as Windows-1252 |
| `Utf8Sanitizer.RepairWritesTheReading` | OdbDesignLib/Text/Utf8Sanitizer.cpp:354-393 | The repair of any text is the encoding of its reading, defined without scanner and table: characters as long as one starts, and a byte with which none starts as the character that Windows-1252 writes as that byte, or U+FFFD if there is none |
| `Utf8Sanitizer.ReadingIsUnique` | OdbDesignLib/Text/Utf8Sanitizer.cpp:354-393 | No text has two such readings |
| `Utf8Sanitizer.RepairOfValidPrefix` | OdbDesignLib/Text/Utf8Sanitizer.cpp:354-393 | For valid a and any b, repairing a+b gives a followed by the repair of b |
| `Utf8Sanitizer.RepairSplitsAtAscii` | OdbDesignLib/Text/Utf8Sanitizer.cpp:354-393 | Damage never crosses an ASCII byte: both sides are repaired as if they stood alone |
| `Utf8Sanitizer.RepairLaws` | OdbDesignLib/Text/Utf8Sanitizer.cpp:354-401 | The repair is always valid, equals the input exactly when that is valid, is idempotent, and takes n to 3n bytes |
| `Utf8Sanitizer.RepairLoop` | OdbDesignLib/Text/Utf8Sanitizer.cpp:362-392 | The loop computes the repair, also of text that needs none |
| `Utf8Sanitizer.ToUtf8` | OdbDesignLib/Text/Utf8Sanitizer.cpp:354-393 | The fast path returns what the repair path would have: the encoding of the reading of the text, from which every stray byte with a character can be read back |
| `Utf8Sanitizer.Text.SanitizeToUtf8` | OdbDesignLib/Text/Utf8Sanitizer.cpp:395-401 | The string in place becomes its repair |
| `SymbolSlots.CheckPadsAndReferences` | OdbDesignServer/Services/OdbDesignServiceImpl.cpp:519-541 | Rejects exactly if some pad with an aperture symbol number has another symbol number; else yields the largest number below 10,000,000 that any feature refers to, or -1 |
| `SymbolSlots.PlaceDeclared` | OdbDesignServer/Services/OdbDesignServiceImpl.cpp:543-568 | After the first pass slot j holds the first symbol that declares j and the list is as long as the largest index requires |
| `SymbolSlots.FindGaps` | OdbDesignServer/Services/OdbDesignServiceImpl.cpp:572-579 | Collects the empty slots in increasing order |
| `SymbolSlots.FillGaps` | OdbDesignServer/Services/OdbDesignServiceImpl.cpp:570-595 | Using the precomputed gaps in turn equals searching the first empty slot, else appending, anew for each symbol |
| `SymbolSlots.OrderSymbols` | OdbDesignServer/Services/OdbDesignServiceImpl.cpp:519-602 | The reply is a contract violation exactly when a pad violates it, else the listing of the simple definition for the largest reference |
| `SymbolSlots.PutUsesTheFirstGap` | OdbDesignServer/Services/OdbDesignServiceImpl.cpp:570-595 | One search-and-place consumes exactly the first gap, or appends when there is none |
| `SymbolSlots.ClaimIsTheFirst` | OdbDesignServer/Services/OdbDesignServiceImpl.cpp:552-568 | A slot goes to a symbol if and only if it declares it and no earlier symbol does |
| `SymbolSlots.DeclaredSlotsAreHonoured` | OdbDesignServer/Services/OdbDesignServiceImpl.cpp:548-568 | In the final listing an indexed symbol stands exactly at its index, and exactly when no earlier symbol declares it |
| `SymbolSlots.UnindexedKeepTheirOrder` | OdbDesignServer/Services/OdbDesignServiceImpl.cpp:580-595 | In slot order the un-indexed symbols of the listing are those of the input, each once and in input order |
| `SymbolSlots.UnindexedOfIsTheList` | OdbDesignServer/Services/OdbDesignServiceImpl.cpp:580-595 | The un-indexed symbols are all those with a negative index, in increasing input position |
| `SymbolSlots.LowestGapsAreUsed` | OdbDesignServer/Services/OdbDesignServiceImpl.cpp:570-595 | In the listing an empty slot has no un-indexed symbol behind it |
| `SymbolSlots.MaxIndexIsAttained` | OdbDesignServer/Services/OdbDesignServiceImpl.cpp:552-558 | The highest index is one that a symbol declares, or -1 |
| `SymbolSlots.ListingLength` | OdbDesignServer/Services/OdbDesignServiceImpl.cpp:543-602 | The length is the maximum of the highest index plus one and the number of distinct indices plus un-indexed symbols |
| `SymbolSlots.DeclaredIndicesAreNotLimited` | OdbDesignServer/Services/OdbDesignServiceImpl.cpp:515-568 | A declared index above the limit is honoured: the list reaches past it |
| `SymbolSlots.PaddingChangesNothing` | OdbDesignServer/Services/OdbDesignServiceImpl.cpp:597-602 | The final padding never changes the list |
| `NetlistSpec.ByNameIsTheLast` | OdbDesignLib/ProductModel/Design.cpp:302-343 | A by-name index contains exactly the listed names and leads to the last entry of each |
| `NetlistSpec.FirstSeenNames` | OdbDesignLib/ProductModel/Design.cpp:394-410 | The parts list has every part name once |
| `NetlistSpec.FirstSeenInOrder` | OdbDesignLib/ProductModel/Design.cpp:394-410 | The parts stand in the order in which their names are first seen |
| `NetlistSpec.ConnectionsAreConserved` | OdbDesignLib/ProductModel/Design.cpp:433-480 | All nets together hold exactly one connection per toeprint whose net number is not -1 |
| `NetlistSpec.ToeprintFindsItsComponent` | OdbDesignLib/ProductModel/Design.cpp:458-480 | A toeprint resolves exactly when net and pin are in range, and then to the component recorded last under its name and that package's numbered pin; `NetlistLaw` says which toeprint of the file each is |
| `NetlistLaw.PlacesMatch` | OdbDesignLib/ProductModel/Design.cpp:436-453 | The i-th toeprint handled is the one at the i-th place of the records, with that record's reference designator and that toeprint's own pin and net numbers |
| `NetlistLaw.PlacesIncrease` | OdbDesignLib/ProductModel/Design.cpp:436-453 | The places go up: by record, then by toeprint within the record |
| `NetlistLaw.PlacesAreAll` | OdbDesignLib/ProductModel/Design.cpp:436-453 | Every toeprint of every record has a place |
| `NetlistLaw.NetsListTheirToeprints` | OdbDesignLib/ProductModel/Design.cpp:433-480 | From the file records alone: on a file model that builds, a net's connections are exactly the toeprints with its number, in record then toeprint order, top file before bottom, each joined to the last component named like its record and to that package's pin of its pin number |
| `NetlistLaw.BuildableIff` | OdbDesignLib/ProductModel/Design.cpp:433-480 | All toeprints can be placed if and only if each has net number 0xFFFFFFFF or a net, a last component of its record's name and a pin of its number that exist |
| `NetlistLaw.ComponentsFollowTheirRecords` | OdbDesignLib/ProductModel/Design.cpp:282-317 | One component per record, top file before bottom, with the record's names, package, index and the file's side, pointing at the part of its part name |
| `NetlistLaw.PartsFollowTheRecords` | OdbDesignLib/ProductModel/Design.cpp:374-410 | The parts are the records' part names, each once, in the order of the first record that names it |
| `NetlistLaw.NetNamesLead` | OdbDesignLib/ProductModel/Design.cpp:324-343 | A net name leads to the last net record of that name, and any other name nowhere |
| `NetlistLaw.PackageNamesLead` | OdbDesignLib/ProductModel/Design.cpp:345-372 | So does a package name |
| `NetlistLaw.ComponentNamesLead` | OdbDesignLib/ProductModel/Design.cpp:302-317 | So does a reference designator, over both files |
| `ProductModel.Package.AddPin` | OdbDesignLib/ProductModel/Package.cpp:69-75 | Appends a pin with the next index and points its name at it |
| `ProductModel.Package.GetPin` | OdbDesignLib/ProductModel/Package.cpp:87-94 | The pin of that index, exactly when it exists |
| `ProductModel.Net.AddPinConnection` | OdbDesignLib/ProductModel/Net.cpp:39-43 | Appends the connection |
| `ProductModel.BuildPackage` | OdbDesignLib/ProductModel/Design.cpp:355-366 | A package gets one pin per record, numbered in order, with its name index |
| `ProductModel.Design.BuildNets` | OdbDesignLib/ProductModel/Design.cpp:324-343 | One distinct, unconnected net per record, and the index of last names |
| `ProductModel.Design.BuildPackages` | OdbDesignLib/ProductModel/Design.cpp:345-372 | One package per record and the index of last names |
| `ProductModel.Design.BuildParts` | OdbDesignLib/ProductModel/Design.cpp:394-410 | Extends the first-seen list of part names and keeps its index in step |
| `ProductModel.Design.BuildAllParts` | OdbDesignLib/ProductModel/Design.cpp:374-392 | The parts are the first-seen names of the top then bottom records |
| `ProductModel.Design.BuildComponents` | OdbDesignLib/ProductModel/Design.cpp:302-317 | Appends one component per record and keeps the index of last reference designators |
| `ProductModel.Design.BuildAllComponents` | OdbDesignLib/ProductModel/Design.cpp:282-300 | The components are those of the top then bottom records |
| `ProductModel.Design.BuildPartsAndComponents` | OdbDesignLib/ProductModel/Design.cpp:129-134 | Parts, then components that refer to them |
| `ProductModel.Design.CreatePinConnection` | OdbDesignLib/ProductModel/Design.cpp:458-480 | Succeeds exactly when net, component and pin resolve, then adds that one connection to that one net; an unknown reference designator leaves a null entry |
| `ProductModel.Design.PlaceToeprint` | OdbDesignLib/ProductModel/Design.cpp:439-452 | A toeprint without a net is skipped, any other is connected or fails the build |
| `ProductModel.Design.BuildPlacementsOfRecord` | OdbDesignLib/ProductModel/Design.cpp:436-453 | Connects a record's toeprints in order and fails exactly when one of them cannot be connected; that these are the record's own pin and net numbers is `NetlistLaw.PlacesMatch` |
| `ProductModel.Design.BuildPlacementsFromComponentsFile` | OdbDesignLib/ProductModel/Design.cpp:433-456 | Afterwards each net holds, in order, its toeprints so far; fails exactly when one cannot be connected |
| `ProductModel.Design.BuildPlacements` | OdbDesignLib/ProductModel/Design.cpp:412-431 | The same over the top then bottom file |
| `ProductModel.Design.Build` | OdbDesignLib/ProductModel/Design.cpp:119-147 | Succeeds exactly on buildable file models; then every net lists exactly the toeprints of its number, in file order and each joined to its own pin, components and parts follow the records, and every index is as specified; never leaves a null entry |
| `ETag.Fnv1a64` | Utils/ETag.h:37-45 | The loop computes the FNV-1a fold modulo 2^64 |
| `ETag.Render` | Utils/ETag.h:61-70 | The shifting loop writes the quoted 16-digit hexadecimal form |
| `ETag.MakeEtag` | Utils/ETag.h:53-71 | The tag is the rendered digest of the name, the two's complement of the tick count, the size, the path and the generation; `StreamReadsBack` and `TagShowsTheDigest` pin its two halves |
| `ETag.Unsigned` | Utils/ETag.h:53-56 | The tick count enters as the 64-bit word congruent to it modulo 2^64 |
| `ETag.StreamReadsBack` | Utils/ETag.h:53-59 | From the digested bytes the name, time, size, path and generation can be read back at their places, the numbers as eight bytes each, least significant first |
| `ETag.TagShowsTheDigest` | Utils/ETag.h:61-70 | The tag is eighteen characters, quotes around sixteen lower-case hexadecimal digits that spell the digest |
| `ETag.PublishedDigests` | Utils/ETag.h:33-45 | The digests of the empty text and of the letter a are the published FNV-1a values |
| `ETag.XorIsBitwise` | Utils/ETag.h:37-45 | The mixing operation is exclusive or, bit by bit |
| `ETag.TimesPrimeIsInjective` | Utils/ETag.h:33-42 | Multiplication by the FNV prime is injective modulo 2^64 |
| `ETag.FnvIsInjective` | Utils/ETag.h:37-45 | For fixed bytes different starting hashes never meet |
| `ETag.DigestSeesAWindow` | Utils/ETag.h:37-45 | Equally long streams that differ only inside a window of four bytes never share a digest |
| `ETag.TagIsInjective` | Utils/ETag.h:61-70 | Different digests never share a tag |
| `ETag.TagSeesAWindow` | Utils/ETag.h:53-71 | Streams that differ only inside four adjacent bytes, in particular in one byte, have different tags |
| `ETag.GenerationRotatesTheTag` | Utils/ETag.h:50-59 | Any two generations with equal upper 32 bits give different tags |
| `ETag.SizeRotatesTheTag` | Utils/ETag.h:53-57 | Any two archive sizes with equal upper 32 bits give different tags |
| `ETag.MtimeRotatesTheTag` | Utils/ETag.h:53-56 | Any two modification times with equal upper 32 bits give different tags |
| `ETag.TicksRotateTheTag` | Utils/ETag.h:53-56 | Any two different tick counts with equal floor quotients by 2^32, negative ones included, give different tags |
| `ETag.NameRotatesTheTag` | Utils/ETag.h:53-71 | So do two equally long names that differ inside four adjacent bytes |
| `ETag.PathRotatesTheTag` | Utils/ETag.h:53-71 | And two such paths |
| `ETag.TagsCollide` | Utils/ETag.h:53-71 | For every name, path and generation two different pairs of modification time and size share a tag |
| `Base64.B64Encode` | Utils/bin2ascii.h:60-85 | The loop computes the group-wise encoding of section 4 of RFC 4648 and fits the reserved capacity |
| `Base64.PushGroup` | Utils/bin2ascii.h:67-81 | One turn of the encoder pushes the letters of one group |
| `Base64.B64Decode` | Utils/bin2ascii.h:87-130 | The loop computes the quartet-wise decoding with both error cases |
| `Base64.PushQuartet` | Utils/bin2ascii.h:116-127 | One turn of the decoder pushes the bytes of one quartet |
| `Base64.EncodingFits` | Utils/bin2ascii.h:60-85 | The length is four per started group of three, at most the reserve |
| `Base64.PaddingClosesTheLastGroup` | Utils/bin2ascii.h:67-84 | Padding appended at the very end equals padding the last group |
| `Base64.LettersAreTheAlphabet` | Utils/bin2ascii.h:63-63 | The encoder's table is the alphabet of table 1 of RFC 4648 |
| `Base64.ValueIsThePlace` | Utils/bin2ascii.h:90-108 | In the decoder's table a letter has the value of its place in that alphabet, the padding sign zero, and anything else is invalid |
| `Base64.EncodingSpellsTheBytes` | Utils/bin2ascii.h:67-84 | The four characters of a group, as digits in base 64, and its three bytes, as digits in base 256, are the same number, missing bytes being zero; exactly the characters without a byte are padding |
| `Base64.QuartetDecodes` | Utils/bin2ascii.h:116-127 | A padding sign reads as the letter A and its byte is left out; the three bytes of an unpadded quartet are its four values as one number |
| `Base64.RoundTrip` | Utils/bin2ascii.h:60-130 | Decoding the encoding of any byte string gives it back |
| `Base64.DecodeSucceedsIff` | Utils/bin2ascii.h:109-124 | Decoding fails exactly on a length that is no multiple of four or a character outside the table |
| `Base64.ReencodesIffCanonical` | Utils/bin2ascii.h:60-130 | Re-encoding what a text decodes to gives the text back if and only if it is canonical |
| `Base64.PaddingAloneIsAccepted` | Utils/bin2ascii.h:87-130 | Four padding signs decode to one zero byte although no encoding looks like that |

## Left out

- Observers that call back into the cache, and allocation failure after a promise is fulfilled or inside the clean-up of evicted names: assumed not to happen.
- An exception before the announcement of a load is recorded: it leaves the tables as they were, so the model has no step for it.
- Interleavings between the abandon check and the inserts (DesignCache.h:636-644) and a half-finished Clear(), for the staleness and load-state results: an operation step is atomic there, and the code accepts that window.
- The fine-step machine has one label for eviction, invalidation, injection and Clear(): it over-approximates them and does not model their own locked regions.
- Waiting.NoDeadlock: treats the shared cache mutex as exclusive, lets the effects of client operations on the shared maps happen at any time, and speaks of an enabled step, not of fairness.
- LockGuards.LoadWritesAreGuarded: ties an effect to a mutex that its step takes, not to the time between taking and releasing it.
- BackgroundSlots.DrainIsWoken: does not claim that a condition variable without fairness wakes a particular waiter.
- Response generations, epochs and the serialization counter are unbounded integers; their 64-bit wrap-around is not modelled. Byte counts are 64-bit words.
- LruLedger.LruCache.InsertLru: the signed 64-bit differences are taken as two's complement with wrap-around.
- DesignCache.Caches.AddFileArchive: does not model the file that save=true writes, only its size.
- SingleFlightResults.ResultsAgree: says nothing of a key that is evicted, invalidated, injected or cleared during the run.
- CacheSoundness.WarmEqualsCold: does not cover include_normalized_lists requests, which are always served cold.
- The JSON payloads of the response store are always empty in the code as it stands and in the cache model.
- SymbolSlots.OrderSymbols: does not model the unit-type checks before the ordering, the protobuf conversion after it, or 32-bit overflow of a declared index near the largest int.
- ProductModel.Design.Build: requires package references in range, because the code reads past the package list otherwise; pointers to packages, parts and components are positions in their lists.
- ETag.GenerationRotatesTheTag: says nothing of generations that differ above their low 32 bits.
- ETag.MakeEtag: integer fields lie in memory least significant byte first, as on the platforms the server is built for.
- The null-pointer guard of IsValidUtf8 and out-of-memory exceptions.
- Archive lookup on disk, If-None-Match evaluation, archive extraction and saving.
- Crow and gRPC plumbing, authentication, protobuf and JSON conversions of every entity.
- bin2hex, hex2bin and URL encoding, whose results depend on the signedness of char.
- Configuration clamping, command-line parsing, enum maps, stop watches and the work queue: settled by reading one branch.
