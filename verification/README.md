# Layman's protocols, verified

Layman publishes geospatial layers and maps. Most of it drives GeoServer, PostGIS and Micka, but several parts are
protocols of their own, kept in Redis hashes, database rows and files. This project models those parts in Dafny and
proves what they promise for every input, every interleaving and every run.

| File | What it holds |
|---|---|
| `Chains.dfy` | The publication lock, the task chain with its record and reverse map, and the run-after queue, as functions from one state of the hashes to the next |
| `ChainInvariants.dfy` | The invariant of that protocol and its proof for each request and task event |
| `ChainTheorems.dfy` | No lost feature change, and rest after finitely many events |
| `ChainEffects.dfy` | What each handler and task event does, and that every accepted change is served, said by the steps of a run |
| `ChainFailures.dfy` | Exactly which handlers break the invariant: the synchronous PATCH, and every handler that raises |
| `ChainStore.dfy` | The same protocol as methods that rewrite the hashes in place |
| `Wrappers.dfy` | Missing values and failed calls |
| `Names.dfy` | User, workspace and role names; the comma-joined list of names and its decoding |
| `AccessRights.dfy`, `AccessTheorems.dfy` | The rights axioms, the stored rows, the lists read back, the SQL filter and the Python rule, and that they agree |
| `AccessAcceptance.dfy` | Exactly which requests for access rights are accepted |
| `RightsStore.dfy` | The inserts and deletes of rights rows in place |
| `GeoServerRoles.dfy` | The translation of an access list to GeoServer roles |
| `UserDeletion.dfy` | What the deletion of a user does to publications of public workspaces |
| `MemRedisCache.dfy` | The two-level cache with its WATCH retries |
| `CacheRuns.dfy` | What a `get` of the cache stores and returns, said by the steps of a run |
| `UuidRegistry.dfy` | The three Redis structures that register uuids |
| `Decimals.dfy`, `Chunks.dfy`, `ChunkFiles.dfy` | Numerals, the upload of files by chunks, and what becomes of the chunks sent for one file |
| `StartUp.dfy` | The barrier between starting processes |
| `Migrations.dfy` | The migration runner |
| `Usernames.dfy` | Slugs and the search for a free user name |
| `BoundingBoxes.dfy` | Bounding boxes over real numbers |

Where the program changes Redis, rows or files step by step, a class holds them as fields and each method is proved to
reach the state that a specification function gives; the theorems are about those functions. `dafny verify
dfyconfig.toml` checks the whole project.

## What the model assumes

- Locks and chains: one whole request handler is one step and one `task_postrun` is one step; steps of all publications
  interleave freely. The program reads a hash and writes it back without a transaction, so this atomicity is an
  assumption. An abort is complete when it returns. The states of Celery tasks are kept beside the chain record, and
  Celery never issues a task id twice. A POST starts at least one task. The chain of a feature change has six tasks for a
  layer and one for a map, one per source module that defines `patch_after_feature_change`. Only maps use layers. A
  ledger per publication counts accepted, running, settled and dropped feature changes; it is there for the statements
  alone.
- Access rights: a list is used through membership only, so it is a set, and an empty set means that the right is not
  mentioned. Registered user names match the workspace pattern. Users without a name have no roles. Callers of
  `insert_publication` always fill in both lists.
- Cache, uuid registry and start-up barrier: a Redis key has a version that every change moves, and an EXEC succeeds
  exactly when the versions of the watched keys have not moved. Expiry is a step that may come at any time. A deletion of
  a uuid is called with the registered triple, once at a time per publication.
- Chunks: the targets of one upload are distinct names in one directory and all have the same request parameter.
- Migrations are known by release and position; which of them raise is an input of each run.

## What the proofs found

The code is modelled as it is. Where a promise fails, a lemma gives an input on which it fails; where the promise is about
more than one input, another says exactly when it holds.

- The synchronous PATCH of a user deletion (`src/layman/util.py:556-569`) never runs the queue. If it breaks off a
  feature-change chain, and only then, the queued step is left without a lock or chain that would run it
  (`ChainFailures.SyncPatchStrandsQueue`, `ChainFailures.ChangeThenSyncPatch`).
- A handler that raises releases its lock once or twice (`src/layman/common/redis.py:62-70` and the handlers that catch
  exceptions themselves). That keeps the invariant exactly when the handler has not started a chain, has not broken off a
  feature-change chain for a PATCH, and is not a DELETE that raises before its abort while another chain runs
  (`ChainFailures.ExceptionPathKeeps`, `ChainFailures.FailuresHappen`).
- The list of reserved roles (`src/layman/common/prime_db_schema/publications.py:379-400`) holds ADMIN_GROUP, not
  GROUP_ADMIN, so an access list may name GROUP_ADMIN; GeoServer then admits users that Layman does not
  (`GeoServerRoles.GeoServerAgrees`, with an input in `GeoServerRoles.GroupAdminIsAdmitted`).
- A cache `get` does not reset its value on a retry (`src/layman/cache/mem_redis.py:17-61`). It gives what Redis holds
  exactly when memory hits, or no earlier round left a value, or a string was created in the last round, or the string kept
  from an earlier round is the one in Redis (`MemRedisCache.GetIsCurrent`, `CacheRuns.GetIsCurrent`). Two runs in which it returns and remembers
  another string are `MemRedisCache.StaleAfterRetry` and `MemRedisCache.StaleAfterDelete`. Memory still pairs a hash with
  its own decoding.
- A chunk that is sent again after its file was assembled, while another file of the upload is still awaited, is appended
  once more (`Chunks.ResentChunkIsDoubled`). In any run a target is just its first assembly exactly when every chunk that was
  appended later was empty (`Chunks.TargetIsFirstAssembly`); with a single file nothing can come later
  (`Chunks.SingleFileIsSafe`).
- The deletion of a user looks at publications the user may read directly. A user listed only among the writers, next to
  EVERYONE as reader, stays listed (`UserDeletion.WriterOnlyStays`, `UserDeletion.FateIsClean`).
- The deletion of a user makes its planned patches in order up to the first that raises, and that one raises exactly when
  its publication is locked by PATCH, POST or DELETE or a name that would stay in its lists no longer exists
  (`UserDeletion.DeletionIsDecidedFirst`). So it raises with part of its work done exactly when the first planned patch
  does not raise and a later one does (`UserDeletion.StopsInTheMiddle`, with an input in `UserDeletion.SecondIsLocked`).
- If the process that initialises dies, the key stays 'processing' and no process but the documentation utility ever
  passes the barrier again. In general 'done' can still be stored exactly when the key is not 'processing' without a process
  that initialises (`StartUp.DoneIsReachable`, `StartUp.AbandonmentHappens`).
- The prefix branch of `to_safe_name` is never taken (`Usernames.SafeNameNeedsNoPrefix`).

## Model

| member | source | states |
|---|---|---|
| ChainTheorems.EveryRunIsCoherent | src/layman/celery.py:28-122 | after any requests and task events, a publication has an unfinished chain iff it is locked by PATCH, POST or feature_change iff the reverse map has an entry for it, namely the last task of that chain; the queue has no duplicates and is empty without a lock |
| ChainInvariants.RunKeeps | src/layman/common/redis.py:107-133 | the invariant holds along every run, from every state that satisfies it |
| ChainInvariants.PostKeeps | src/layman/common/redis.py:10-13 | a POST that takes the lock and starts its chain keeps the invariant |
| ChainInvariants.PatchKeeps | src/layman/common/redis.py:56-61 | a PATCH whose handler returns keeps it, with or without tasks, with or without the chain record being deleted first, and over a feature-change chain too |
| ChainInvariants.DeleteKeeps | src/layman/common/redis.py:56-61 | a DELETE whose handler returns keeps it although it may break off any chain |
| ChainInvariants.PatchLocks | src/layman/common/redis.py:122-133 | taking the PATCH lock over a feature-change chain leaves no running chain and exactly one queued step; otherwise the queue is empty |
| ChainInvariants.AcceptChangeKeeps | src/layman/util.py:596-608 | an accepted feature change starts a chain or waits in the queue, and disturbs nobody whose handler is at work |
| ChainInvariants.OnlyLastTaskIsKnown | src/layman/celery.py:35-44 | a task that ends owns an entry of the reverse map iff it is the last of its chain, so the two branches of the postrun are told apart correctly |
| ChainInvariants.TaskEndKeeps | src/layman/celery.py:28-53 | the end of any task keeps the invariant: last or not, failed or not, with all maps that a layer reaches |
| ChainTheorems.NoChangeIsLost | src/layman/util.py:596-608 | in every reachable state all accepted changes are queued, covered by a feature-change chain started no earlier, or were given up by a DELETE or by the failure of a task before the last |
| ChainTheorems.ChainEndReachesMaps | src/layman/publication_relation/util.py:1-9 | the end of a layer's chain counts as one accepted change per listed map, and changes nothing of the ledger of anyone else |
| ChainTheorems.ChainEndSettles | src/layman/celery.py:37-43 | the end of a feature-change chain settles exactly the changes it started with and drops none |
| ChainTheorems.EarlierTaskDrops | src/layman/celery.py:44-49 | only the failure of a task before the last gives changes up, and only those of its own publication |
| ChainTheorems.QueuedStepStarts | src/layman/celery.py:334-340 | a queued step runs when the chain ends: a full feature-change chain covering every change accepted so far |
| ChainTheorems.PatchOverFeatureChange | src/layman/common/redis.py:131-133 | PATCH is accepted over a feature-change chain, runs its own chain and leaves the change queued once |
| ChainTheorems.DeleteLeavesNothing | src/layman/celery.py:319-331 | DELETE is never refused and leaves no lock, record, reverse entry or queued step |
| ChainTheorems.EventRunsEnd | src/layman/celery.py:35-49 | without new requests a run of task events is no longer than the weighted work, in pending tasks and queued steps, of the publications that have any, a layer outweighing the maps it reaches |
| ChainTheorems.BusyOnes | src/layman/celery.py:14-17 | the publications that have work are found in the hashes of the state, so that the bound depends on the state and on how many maps use a layer |
| ChainTheorems.AtRest | src/layman/celery.py:334-340 | when no task event is left, no lock is held, the queue is empty and every accepted change is settled or was given up |
| ChainEffects.EveryChangeIsServed | src/layman/util.py:596-608 | in every run, said without the ledger: at any later time an accepted change is queued, or a feature-change chain started no earlier is running, or such a chain has come to its end, or a DELETE or the failure of a task before the last has come since |
| ChainEffects.AtRestAllIsServed | src/layman/celery.py:334-340 | when no task event of the publication is left, each accepted change was followed by the end of such a chain, or was given up |
| ChainEffects.LockTable | src/layman/common/redis.py:107-133 | which lock is granted over which, with which error otherwise |
| ChainEffects.PostOnUnlocked | src/layman/layer/rest_layers.py:223-251 | a POST of an unlocked publication leaves the POST lock, exactly the chain of its tasks, the entry of the last one and an empty queue, and touches nobody else |
| ChainEffects.PatchOnUnlocked | src/layman/common/redis.py:56-61 | so does a PATCH, with the PATCH lock; without tasks no lock and no new chain remain |
| ChainEffects.PatchWithoutTasks | src/layman/common/redis.py:131-133 | a PATCH without tasks over a feature-change chain starts that change anew |
| ChainEffects.ChangeOnUnlocked | src/layman/util.py:596-608 | a change of an unlocked publication takes the lock and starts a chain of six tasks, of a map one |
| ChainEffects.ChangeOnLocked | src/layman/util.py:596-603 | a change of a locked publication is queued once and changes nothing else |
| ChainEffects.CascadeReaches | src/layman/publication_relation/util.py:1-9 | each map that a cascade reaches is served |
| ChainEffects.AbortEnds | src/layman/celery.py:239-290 | an abort turns exactly the pending tasks into aborted ones, finishes the record, releases the lock and clears the queue |
| ChainEffects.LastTaskLeaves | src/layman/celery.py:37-43 | the last task leaves its own outcome in the record and, with nothing queued, the publication unlocked |
| ChainFailures.SyncPatchStrandsQueue | src/layman/util.py:556-562 | the synchronous PATCH keeps the invariant iff it did not break off a feature-change chain |
| ChainFailures.PostFailure | src/layman/layer/rest_layers.py:223-258 | the exception path of a POST keeps the invariant iff no chain has been started |
| ChainFailures.PatchFailure | src/layman/common/redis.py:56-70 | the exception path of a PATCH keeps it iff no chain has been started and no feature-change chain was broken off |
| ChainFailures.SyncPatchFailure | src/layman/util.py:556-569 | that of the synchronous PATCH keeps it iff no feature-change chain was broken off |
| ChainFailures.DeleteFailure | src/layman/common/redis.py:56-70 | that of a DELETE, decorated or not, keeps it iff the chain has been aborted or the publication was not locked |
| ChainFailures.ExceptionPathKeeps | src/layman/common/redis.py:62-70 | for every handler, at every point where it may raise, and every lock it may have met: the exception path keeps the invariant iff the failure is harmless in the sense above |
| ChainFailures.FailuresHappen | src/layman/common/redis.py:62-70 | harmful failures of POST, PATCH and DELETE within reach of the empty state |
| ChainFailures.ChangeThenSyncPatch | src/layman/util.py:556-562 | one feature change followed by a synchronous PATCH leaves a queued step without a lock |
| ChainStore.Redis.PushStep | src/layman/celery.py:60-68 | the step is in the queue once, after what was there |
| ChainStore.Redis.PopStep | src/layman/celery.py:71-82 | takes the first step and leaves the rest, or changes nothing |
| ChainStore.Redis.FinishRecord | src/layman/celery.py:101-105 | marks the record finished with the given state |
| ChainStore.Redis.FinishPublicationChain | src/layman/celery.py:108-122 | the four updates give the specified state: entry gone, record finished, lock released unless it is a DELETE |
| ChainStore.Redis.SetChainInfo | src/layman/celery.py:213-236 | records the chain and the entry of its last task, or nothing without tasks |
| ChainStore.Redis.AbortPublicationChain | src/layman/celery.py:239-290 | the loop over the tasks gives the aborted chain of the specification |
| ChainStore.Redis.DeletePublication | src/layman/celery.py:319-331 | drops the record and the entry of its last task |
| ChainStore.Redis.TakeLock | src/layman/common/redis.py:107-133 | accepts or refuses as specified, and changes nothing when it refuses |
| ChainStore.Redis.PatchAfterChange | src/layman/util.py:596-608 | lock and chain, or the step queued |
| ChainStore.Redis.UpdateRelatedPublications | src/layman/publication_relation/util.py:1-9 | the loop over the maps is the cascade of the specification, for layers only |
| ChainStore.Redis.RunNext | src/layman/celery.py:334-340 | pops a step and runs it |
| ChainStore.Redis.TaskPostrun | src/layman/celery.py:28-53 | the postrun as a sequence of hash updates reaches the state of the specification |
| ChainStore.Redis.Patched | src/layman/common/redis.py:56-61 | the decorator around a PATCH that returns reaches the state of the specification |
| ChainStore.Redis.Deleted | src/layman/common/redis.py:56-61 | the decorator around a DELETE that returns reaches the state of the specification |
| ChainStore.Redis.Recover | src/layman/common/redis.py:62-69 | the exception path as a sequence of hash updates reaches the state of the specification |
| ChainStore.Redis.Failed | src/layman/common/redis.py:56-70 | a handler that raises after some of its work reaches the state of the specification |
| Names.WorkspaceNameIsUser | src/layman/authz/__init__.py:173-180 | a name of the workspace pattern is recognised as a user |
| Names.RoleNameIsNoUser | src/layman/authz/__init__.py:173-180 | a name of the role pattern is not |
| Names.UpperIsInjective | src/geoserver/util.py:860-861 | two workspace names with the same upper case are equal |
| Names.UpperMeans | src/geoserver/util.py:860-861 | upper-casing moves small letters to capital ones and leaves all else |
| Names.ReadBack | src/layman/common/prime_db_schema/publications.py:171-188 | splitting the comma-joined string gives owner, stored names and EVERYONE back, each once and in order |
| AccessTheorems.DeltasAreExact | src/layman/common/prime_db_schema/publications.py:575-618 | adding and removing the differences leaves exactly the wanted rows of the right, once each, and the other right's rows as they were |
| AccessTheorems.UpdateIsExact | src/layman/common/prime_db_schema/publications.py:542-620 | the whole table after an accepted update, row by row |
| AccessTheorems.InsertRoundTrip | src/layman/common/prime_db_schema/publications.py:494-540 | what is read back after an insert is the requested set and the owner |
| AccessTheorems.UpdateRoundTrip | src/layman/common/prime_db_schema/publications.py:542-620 | the same after an update for a mentioned right; a right that is not mentioned reads as before |
| AccessTheorems.InsertIsSound | src/layman/common/prime_db_schema/publications.py:403-453 | a new publication has whoever writes among the readers, and a user or EVERYONE as writer |
| AccessTheorems.UpdateIsSound | src/layman/common/prime_db_schema/publications.py:403-453 | so has an updated one, also when only one right is mentioned or a user is being deleted |
| AccessTheorems.UpdatesAreSound | src/layman/common/prime_db_schema/publications.py:542-620 | so after any sequence of accepted and refused updates |
| AccessAcceptance.InsertIsAccepted | src/layman/common/prime_db_schema/publications.py:370-453 | a new publication is accepted iff every name is a registered user or an existing, ordinary role, the owner, somebody and the actor may write, and all writers may read |
| AccessAcceptance.UpdateIsAccepted | src/layman/common/prime_db_schema/publications.py:370-453 | an update is accepted iff the same holds of what it mentions, the stored list standing in for one that it does not mention; the actor is not asked during a user deletion |
| AccessAcceptance.RefusalsMean | src/layman/common/prime_db_schema/publications.py:370-453 | what each refusal says about the request |
| AccessAcceptance.OwnerIsKept | src/layman/common/prime_db_schema/publications.py:423-427 | a request that would take the writing right from the owner is refused |
| AccessTheorems.WhoWritesReads | src/layman/authz/__init__.py:75-80 | at any time every user, with or without a name, who may write may read |
| AccessTheorems.SqlAgreesWithRule | src/layman/common/prime_db_schema/publications.py:68-97 | the WHERE clause selects a publication iff the decoded list admits the user |
| AccessTheorems.DecodedList | src/layman/common/prime_db_schema/publications.py:171-188 | in whatever order SQL aggregates, the decoded list has the names of the publication, none twice |
| RightsStore.PublicationRecord.InsertRights | src/layman/common/prime_db_schema/rights.py:10-37 | the loop adds exactly one row per user and role |
| RightsStore.PublicationRecord.RemoveRights | src/layman/common/prime_db_schema/rights.py:47-73 | the loop removes every row of the users and roles, and no other |
| RightsStore.PublicationRecord.Update | src/layman/common/prime_db_schema/publications.py:542-620 | check, flags and row changes in sequence give the update of the specification, or a refusal and no change |
| GeoServerRoles.Translate | src/layman/common/geoserver/__init__.py:6-16 | the loop collects the roles of all names |
| GeoServerRoles.GeoServerAgrees | src/layman/common/geoserver/__init__.py:6-16 | GeoServer admits a named user iff Layman does, or the list names GROUP_ADMIN and the user has that role |
| GeoServerRoles.AnonymousAgrees | src/layman/common/geoserver/__init__.py:6-16 | GeoServer lets visitors without a login in iff Layman does, by EVERYONE |
| GeoServerRoles.GroupAdminIsAccepted | src/layman/common/prime_db_schema/publications.py:379-400 | GROUP_ADMIN passes the checks of a role iff the role service knows it and it is not Layman's own role |
| GeoServerRoles.GroupAdminIsAdmitted | src/layman/common/geoserver/__init__.py:6-16 | a list that passes the checks, and a user whom GeoServer then admits and Layman refuses |
| UserDeletion.Plan | src/layman/user/util.py:120-165 | the first loop sorts the publications by their fate, in the order in which it meets them, and changes nothing |
| UserDeletion.LockRefusesPatch | src/layman/common/redis.py:107-133 | a PATCH is refused iff the lock is PATCH, POST or DELETE, and a DELETE never |
| UserDeletion.FateMeans | src/layman/user/util.py:110-165 | name by name: deleted is what lies in a public workspace, without EVERYONE, with the user as only user among readers and among writers; stuck is what else names her as reader and would be left to roles only; the rest that names her as reader is patched |
| UserDeletion.PlannedAre | src/layman/user/util.py:139-165 | the planned patches are those of the shared publications that others may write, in the order of the program |
| UserDeletion.PatchAll | src/layman/user/util.py:172-205 | the patches are made in order up to the first that raises; exactly the publications before it are patched |
| UserDeletion.DeleteUserPublicPublications | src/layman/user/util.py:120-210 | stuck iff some publication can be neither patched nor deleted; otherwise the planned patches up to the first that raises, and the planned deletions iff none raises |
| UserDeletion.PatchIsAccepted | src/layman/user/util.py:167-205 | a planned patch passes the rights axioms iff the names that stay in the lists still exist |
| UserDeletion.PatchRemovesUser | src/layman/user/util.py:146-165 | a publication that has been patched names the user in neither list, every other name as before, and is sound |
| UserDeletion.FateIsClean | src/layman/user/util.py:133-165 | a kept publication of a public workspace names the user iff the user was a writer but no direct reader |
| UserDeletion.DeletionIsDecidedFirst | src/layman/user/util.py:120-210 | error 58 comes iff some shared publication would be left to roles only, lists exactly those, and nothing is changed; otherwise the first planned publications have lost the user, up to the first that is locked or names someone who no longer exists, and all others are untouched; if there is none, a publication is gone iff it was hers alone, and each other one ends as it should |
| UserDeletion.StopsInTheMiddle | src/layman/user/util.py:172-210 | the deletion raises iff some planned patch raises, and it raises with something changed iff the first planned patch does not raise and a later one does |
| UserDeletion.SecondIsLocked | src/layman/user/util.py:172-205 | two publications of which the second is being posted: the first is patched, then the deletion raises |
| UserDeletion.WriterOnlyStays | src/layman/user/util.py:133-137 | a user listed only as writer, next to EVERYONE as reader, stays listed |
| MemRedisCache.MemoryIsPaired | src/layman/cache/mem_redis.py:8-77 | with any processes, retries, deletes and expiries each memory entry pairs a hash with the decoding of a string of that hash |
| MemRedisCache.MemoryHitIsCurrent | src/layman/cache/mem_redis.py:27-32 | in every run, with a hash injective on the strings of that run, a memory hit that commits is the decoding of what Redis holds at that moment |
| MemRedisCache.GetIsCurrent | src/layman/cache/mem_redis.py:17-64 | in every run, with a hash injective on the strings of that run, a `get` that commits gives what Redis then holds, or the string it created, or nothing, iff memory hits, or no earlier round left a value, or a string was created, or the kept string is the one in Redis |
| MemRedisCache.StaleAfterRetry | src/layman/cache/mem_redis.py:41-70 | a run in which a lost race makes the `get` return and remember its own string although Redis holds a different one |
| MemRedisCache.StaleAfterDelete | src/layman/cache/mem_redis.py:27-70 | a run in which the `get` returns and remembers a deleted string although Redis holds nothing |
| CacheRuns.ChangeLeavesNothing | src/layman/cache/mem_redis.py:41-64 | in any run, if in some round of the `get` that found no key currently_changing answered yes, before the string was created or after it, the EXEC stores nothing in Redis and leaves no memory entry |
| CacheRuns.CreatedIsStoredTwice | src/layman/cache/mem_redis.py:49-70 | and if it never answered yes, a string created in the last round is in Redis and in memory after the EXEC |
| CacheRuns.FoundStoresNothing | src/layman/cache/mem_redis.py:27-40 | a `get` whose last round found a key, or created nothing, leaves Redis alone |
| CacheRuns.ValueOfRun | src/layman/cache/mem_redis.py:17-61 | the value is that of the last round with one of its own, from memory or created, else the first string found in Redis |
| CacheRuns.ValueIsRemembered | src/layman/cache/mem_redis.py:63-70 | an undisturbed `get` leaves its value in memory, or leaves memory alone if the value came from there |
| CacheRuns.LateExecStoresNothing | src/layman/cache/mem_redis.py:58-61 | an EXEC that comes too late stores nothing and starts another round |
| CacheRuns.GetIsCurrent | src/layman/cache/mem_redis.py:17-64 | the same condition as MemRedisCache.GetIsCurrent, with the rounds of the run in place of the record |
| MemRedisCache.FromRedis | src/layman/cache/mem_redis.py:27-40 | the branch of a present key changes the locals as the specified round does |
| MemRedisCache.FromCreated | src/layman/cache/mem_redis.py:41-56 | so does the branch of a missing key |
| MemRedisCache.TryRound | src/layman/cache/mem_redis.py:25-58 | so does the whole round |
| MemRedisCache.Cache.Get | src/layman/cache/mem_redis.py:8-72 | the retry loop gives the state of the specified rounds; said by the rounds: disturbed ones leave Redis as found and memory empty, undisturbed ones leave the value in memory and a string created in the last round in both |
| UuidRegistry.EveryCommitIsFresh | src/layman/uuid.py:34-73 | in every run, when the transaction of a registration commits, uuid, metadata and name are still free, whatever came after the checks |
| UuidRegistry.UndisturbedAttempt | src/layman/uuid.py:34-73 | without disturbance a registration succeeds iff uuid, metadata and name are free, and changes nothing otherwise |
| UuidRegistry.UndisturbedDelete | src/layman/uuid.py:78-86 | without disturbance a delete removes the triple from the three structures and nothing else |
| UuidRegistry.EveryRunIsLinked | src/layman/uuid.py:34-86 | under any interleaving the uuid set stays within the metadata keys and each metadata triple points back to its uuid; with no delete under way the three structures are in bijection |
| UuidRegistry.LengthsAddUp | src/layman/uuid.py:133-136 | the sum of the lengths of the name hashes is the number of names |
| UuidRegistry.CountsAgree | src/layman/uuid.py:116-149 | with no delete under way the set size, the metadata keys and the summed hash lengths agree, and uuids and metadata keys are the same |
| UuidRegistry.UncheckedRegistration | src/layman/uuid.py:41-73 | with duplicates ignored the bijection survives iff neither uuid nor name belongs to another |
| UuidRegistry.Redis.Register | src/layman/uuid.py:27-75 | succeeds iff everything is free or duplicates are ignored, names the first check that failed, and changes nothing then |
| UuidRegistry.Redis.Delete | src/layman/uuid.py:78-84 | undoes a registration exactly |
| UuidRegistry.Redis.Import | src/layman/uuid.py:16-27 | the import leaves what was registered and what was imported, in bijection |
| Decimals.ThreeDigitsAreInjective | src/layman/layer/filesystem/input_chunk.py:244-245 | different numbers are formatted differently |
| Decimals.ThreeDigitsMean | src/layman/layer/filesystem/input_chunk.py:244-245 | a number that is not negative is written with its digits, filled up with zeros to three |
| Chunks.ChunkNamesDiffer | src/layman/layer/filesystem/input_chunk.py:244-245 | chunks of different files or numbers never share a name |
| Chunks.UnfinishedChunkIsNoChunk | src/layman/layer/filesystem/input_chunk.py:115-119 | the intermediate name of a chunk is never the name of a chunk |
| Chunks.TargetMeans | src/layman/layer/filesystem/input_chunk.py:95-110 | a chunk is taken for an entry iff the upload is open and it is the first with exactly that input file and parameter; error 20 iff the upload is closed, error 21 iff no entry has both |
| ChunkFiles.FileChunksAreOnce | src/layman/layer/filesystem/input_chunk.py:89-241 | for each file, by the requests for it alone: a chunk sent for it lies in the directory as last sent iff it is not in the target, and the target is the concatenation of chunks 1 to n sent for it, n being the total last announced; a closed upload has the target |
| ChunkFiles.CompleteFileIsAssembled | src/layman/layer/filesystem/input_chunk.py:195-225 | once all chunks 1 to n of a file have been sent, the next poll gives its target |
| ChunkFiles.PollCloses | src/layman/layer/filesystem/input_chunk.py:227-238 | a poll closes and clears the upload iff every file has its target |
| Chunks.EveryChunkIsOnce | src/layman/layer/filesystem/input_chunk.py:89-241 | the same of each target by the record of the run |
| Chunks.ChunkHasItsPlace | src/layman/layer/filesystem/input_chunk.py:215-220 | each chunk stands at its own place in the concatenation |
| Chunks.AssemblyIsExact | src/layman/layer/filesystem/input_chunk.py:212-222 | an assembly gives the concatenation iff the target was missing or empty |
| Chunks.TargetIsFirstAssembly | src/layman/layer/filesystem/input_chunk.py:89-241 | in any run, also with chunks sent again, a target begins with its first assembly and is just that iff every chunk appended later was empty |
| Chunks.PieceIsLastSent | src/layman/layer/filesystem/input_chunk.py:206-220 | in any run, what a complete file is about to be assembled from are the chunks 1 to n as last sent |
| Chunks.LegalAssembliesAreSingle | src/layman/layer/filesystem/input_chunk.py:186-241 | without chunks sent again after an assembly, each target is assembled once |
| Chunks.ResentChunkIsDoubled | src/layman/layer/filesystem/input_chunk.py:212-222 | a chunk sent again after assembly is in the target twice |
| Chunks.SingleFileIsSafe | src/layman/layer/filesystem/input_chunk.py:227-238 | with one file no chunk can be accepted after assembly |
| Chunks.Upload.SaveChunk | src/layman/layer/filesystem/input_chunk.py:89-121 | stores chunk and total under the target of the first entry with that input file and parameter, or gives error 20 or 21 and changes nothing |
| Chunks.Upload.Assemble | src/layman/layer/filesystem/input_chunk.py:212-222 | the loop that appends and unlinks gives the assembled state |
| Chunks.Upload.Poll | src/layman/layer/filesystem/input_chunk.py:186-241 | the loop over the files, the counts it returns and the clearing of a complete upload |
| StartUp.AtMostOneInitialises | src/layman/__init__.py:77-86 | at most one process ever enters the initialisation, and none when the key was already there |
| StartUp.NonePassesEarly | src/layman/__init__.py:77-151 | no process but the utility is past the barrier before 'done' is stored |
| StartUp.OnlyCapableInitialise | src/layman/__init__.py:84-86 | only a Flask, pytest or upgrade process ever enters the initialisation, and only when it finds no key |
| StartUp.UtilityPasses | src/layman/__init__.py:139-140 | the utility never waits |
| StartUp.CapableInitialises | src/layman/__init__.py:80-137 | with the key missing, an undisturbed Flask, pytest or upgrade process initialises and stores 'done' |
| StartUp.DoneLetsThrough | src/layman/__init__.py:148-151 | once 'done' is stored every process passes within five commands |
| StartUp.AbandonedStays | src/layman/__init__.py:84-137 | after the death of the initialising process nobody but the utility ever passes |
| StartUp.DoneIsReachable | src/layman/__init__.py:77-151 | from any reachable state 'done' can still be stored iff the key is not 'processing' without a process that initialises |
| StartUp.AbandonmentHappens | src/layman/__init__.py:84-86 | a run in which the initialising process dies |
| StartUp.Barrier.Enter | src/layman/__init__.py:77-146 | the module code takes the steps of the protocol and sets the flag accordingly |
| StartUp.Barrier.Wait | src/layman/__init__.py:148-151 | the polling loop ends with the first 'done' it sees |
| Migrations.PendingIsExact | src/layman/upgrade/__init__.py:121-125 | pending are exactly the migrations above the stored version, in strictly increasing order |
| Migrations.MaxIsGreatest | src/layman/upgrade/__init__.py:93-95 | the maximum is the greatest version of any migration |
| Migrations.LessIsLexicographic | src/layman/upgrade/__init__.py:94-125 | versions are compared by the first component in which they differ |
| Migrations.NoneRepeatsNoneSkipped | src/layman/upgrade/__init__.py:117-135 | over any number of broken and restarted runs the completed migrations are those above the first version up to the stored one, each once and in order |
| Migrations.RunEndsAtMax | src/layman/upgrade/__init__.py:126-134 | a run ends well iff the stored version is not above the maximum and no pending migration raises; it has run all that was pending and stored the maximum |
| Migrations.Database.Migrate | src/layman/upgrade/__init__.py:117-135 | the loop reaches the state and ending of the specification |
| Usernames.SlugIsOnePass | src/layman/util.py:131-136 | filtering, collapsing and stripping by regular expressions equals one pass that keeps letters and digits in lower case, with an underscore exactly where separators lie between two of them |
| Usernames.SeparatorsAre | src/layman/util.py:135 | which ASCII characters separate words |
| Usernames.SlugIsSlug | src/layman/util.py:131-136 | a slug is lower-case words of letters and digits joined by single underscores |
| Usernames.SlugifyIsIdempotent | src/layman/util.py:131-136 | slugify changes no slug |
| Usernames.FixedPointsAreSlugs | src/layman/util.py:131-136 | it leaves exactly the slugs alone, and workspace names are the slugs that begin with a letter |
| Usernames.SafeNameNeedsNoPrefix | src/layman/util.py:139-145 | the prefix branch of to_safe_name is never taken |
| Usernames.SafeNamesAreNames | src/layman/util.py:148-157 | there is always a suggestion and each is a workspace name |
| Usernames.SuggestionsInOrder | src/layman/util.py:148-157 | each slug that begins with a letter is suggested at its place in the order of the names, after them each other slug with the prefix at its place, and nothing else |
| Usernames.ToSafeNames | src/layman/util.py:148-157 | the loop over the two lists gives the names of the specification |
| Usernames.CandidateIsName | src/layman/user/util.py:60-61 | a suggestion with a numeric suffix is still a workspace name |
| Usernames.CandidateIsNumbered | src/layman/user/util.py:58-61 | the first round tries the suggestion itself, round n the suggestion with the numeral n |
| Usernames.SkippedIsTaken | src/layman/user/util.py:62-69 | a candidate is passed over only if it is a workspace or the GeoServer user; errors 2 and 35 never come |
| Usernames.RoundsAreBounded | src/layman/user/util.py:57-79 | rounds that all pass over one suggestion are at most as many as the taken names |
| Usernames.Reserve | src/layman/user/util.py:49-79 | within the number of workspaces plus two rounds the search takes the first free candidate, or raises error 56 when that one is too long |
| BoundingBoxes.ValidCoordinates | src/layman/common/bbox.py:8-15 | the valid coordinates are those of ordered boxes and of the empty box |
| BoundingBoxes.GetIntersection | src/layman/common/bbox.py:29-48 | the slot assignments give the intersection |
| BoundingBoxes.IntersectionIsGreatest | src/layman/common/bbox.py:18-48 | a box lies in both iff it lies in the intersection, which is empty iff no box does |
| BoundingBoxes.IntersectionIsAssociative | src/layman/common/bbox.py:29-48 | the intersection of several boxes depends neither on order nor on grouping |
| BoundingBoxes.ContainsIsTransitive | src/layman/common/bbox.py:18-21 | containment within a precision adds up along a chain |
| BoundingBoxes.PrecisionGrows | src/layman/common/bbox.py:18-21 | containment within a precision is containment in the box grown by it |
| BoundingBoxes.CropIsIntersection | src/layman/common/prime_db_schema/publications.py:648-655 | the crop is a valid box inside the bounds, equal to the intersection iff the two meet, and without area otherwise |
| BoundingBoxes.TransformStaysInBounds | src/layman/common/bbox.py:81-113 | the projection sees only a box within the world bounds and the result lies in the bounds of the CRS |
| BoundingBoxes.GetBBoxFromFiles | src/layman/layer/filesystem/gdal.py:449-457 | the fold gives the least box that encloses all files |
| BoundingBoxes.OrderDoesNotMatter | src/layman/layer/filesystem/gdal.py:449-457 | that box depends only on which files there are |
| BoundingBoxes.WithAreaFits | src/layman/common/bbox.py:59-70 | a padded box has area, contains the box and keeps its centre; only sides without length grow, and a box with area is unchanged |
| BoundingBoxes.ScoreBounds | src/layman/common/bbox.py:127-133 | the score is symmetric, between 0 and 1, and 1 only for equal boxes |
| BoundingBoxes.SimilarIsSymmetric | src/layman/common/bbox.py:116-133 | the comparison is symmetric, errors included, and with the limit 1 it is equality |
| BoundingBoxes.SimilarityMeans | src/layman/common/bbox.py:116-133 | boxes with area are similar iff they meet and the square of the common area reaches the limit times the product of both areas |
| BoundingBoxes.SimilarityFails | src/layman/common/bbox.py:116-122 | which boxes and paddings make the comparison raise, and what |

## Left out

- GeoServer, QGIS, Micka and OAuth2 calls, GDAL processes and thumbnails: foreign calls whose meaning cannot be seen.
- Flask blueprints, request parsing, URLs and error texts.
- Locks and chains: a handler that is interrupted in the middle, an abort that runs into its timeout, and the
  `run_next_chain` that the last task's postrun may fire during an abort.
- Locks and chains: a readiness check that itself raises on an exception path, and a celery call that raises in the
  middle of starting or aborting a chain.
- ChainStore.Redis.SetChainInfo: leaves the task ids by name (`by_name`) out of the record.
- ChainStore.Redis.AbortPublicationChain: leaves out the wait for the running task and its timeout.
- ChainStore.Redis.TaskPostrun: leaves out the set of running task names and `set_wfs_wms_status_after_fail`.
- ChainStore.Redis.FinishRecord: leaves a missing chain record as it is, where the program would raise; the invariant rules
  the case out for every task that owns a reverse entry.
- The reasons for which a role is refused are one error in the model.
- Names: a trailing newline that `$` would accept.
- UserDeletion.DeleteUserPublicPublications: a publication whose lock changes while the deletion runs; the locks are those
  met at the start.
- UuidRegistry.Redis.Register: is one committed attempt; the retries are steps of UuidRegistry.Run, and a generated uuid is
  an input.
- MemRedisCache.Cache.Get: the concrete time-to-live values, a string that decodes to None, and the KeyError when the key
  vanishes between `exists` and `hgetall`.
- The publications, task and map checks of `check_redis_consistency` that compare with the database.
- Migrations: a process that dies between a migration and the write of its version, which would run that migration again.
- Usernames.Reserve: assumes that `ensure_whole_user` and the reservation itself do not fail.
- Usernames: the non-adjusted reservation, and input that is not ASCII.
- StartUp: the initialisation work itself, and a Redis key that is deleted while processes start.
- Chunks: interleavings inside one request.
- BoundingBoxes: rounding, CRS tables and ST_Transform, which is any function from boxes to boxes.
