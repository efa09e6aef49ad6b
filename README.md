# spring-cache: the user service's cache policy in Dafny

This project models the core of a small Spring Boot CRUD service for users,
`UserServiceImpl`, together with the expiring "users" cache that the
`cacheManager` bean builds for it. Each service method is annotated with
`@Cacheable`, `@CachePut` or `@CacheEvict`, or with nothing. Each annotation
decides whether the method reads the cache, skips its body, overwrites an
entry or evicts one. The model states these effects as explicit cache calls
and proves what each method does to three pieces of state:

- the **cache** `users`: a map from key to (user, time of the write);
- the **store**: a map from id to user, plus the counter that fresh ids come from;
- a **logical clock**: a `nat` that the caller passes to every method reading or writing the cache.

Files:

- `users.dfy`: the `User` record (`id`, `name`, `email`), the cache `Key`
  (`IdKey(id) | NameKey(name)`), the failures, and `Option`/`Result`.
- `expiring_cache.dfy`: module `ExpiringCache`. It has the pure view of the
  entries (`Lookup`, `Written`, `Removed`) and the class `Cache`. That class
  holds one map of entries and a TTL; `Get` checks expiry at read time, and
  `Put` and `Evict` update the map in place. The class `CacheManager` builds
  one fresh `Cache` per name.
- `repository.dfy`: module `Repository`. The `JpaRepository` store becomes the
  class `UserRepository`, with rows, an identity counter and `Save`,
  `FindById`, `FindAll` and `DeleteById`. Each one is proved against a pure
  function on `Store`.
- `cache_policy.dfy`: module `CachePolicy`. The three annotations are
  functions (`Cacheable`, `CachePut`, `CacheEvict`) that wrap the effect of a
  method body. Each of the eight service methods is written as its body wrapped
  by its annotation, as a function on the whole state (`World`). This file also
  holds the invariant, the traces of calls (`Step`, `Run`) and the lemmas for
  each property.
- `user_service.dfy`: module `Service`. The class `UserServiceImpl` holds a
  `UserRepository` and the "users" `Cache`. Its eight methods call
  `Cache.Get`/`Put`/`Evict` and the repository step by step. Each method proves
  that its new state and its result equal the `CachePolicy` function of its old
  state.

Facts that hold by construction:

- Cache values are of type `User`, never an optional type, because the cache
  is built with null values disallowed.
- A `Long` key and a `String` key can never be equal, because `Key` is a sum
  type.
- Writing one named cache leaves the other named caches unchanged
  (`CacheManager.PutInto`). The manager registers every cache under its own
  name, so two names never share a cache object.

## Model

| member | source | states |
|---|---|---|
| `ExpiringCache.Cache.constructor` | src/main/java/com/github/camelya58/SpringCacheApplication.java:33-39 | each named cache starts as a new, empty map with the configured TTL |
| `ExpiringCache.Cache.Get` | src/main/java/com/github/camelya58/SpringCacheApplication.java:36-38 | a read returns the value only while fewer than TTL ticks have passed since the entry's write; absent and expired keys are both a miss; the entries do not change |
| `ExpiringCache.Cache.Put` | src/main/java/com/github/camelya58/SpringCacheApplication.java:34-38 | a put replaces the entry at the key and restamps it with the time of the write; nothing else changes |
| `ExpiringCache.Cache.Evict` | src/main/java/com/github/camelya58/SpringCacheApplication.java:34-38 | an evict removes exactly the entry at the key |
| `ExpiringCache.PutThenGet` | src/main/java/com/github/camelya58/SpringCacheApplication.java:34-38 | a read of k fewer than TTL ticks after put(k, v) returns v |
| `ExpiringCache.ExpiredIsMiss` | src/main/java/com/github/camelya58/SpringCacheApplication.java:37 | once TTL ticks have passed since the write, the key is a miss; reads change nothing, so they do not postpone expiry |
| `ExpiringCache.PutReplaces` | src/main/java/com/github/camelya58/SpringCacheApplication.java:36-38 | a put on an existing key replaces the value and resets the write time; every other key keeps its entry |
| `ExpiringCache.EvictMisses` | src/main/java/com/github/camelya58/SpringCacheApplication.java:34-39 | after an evict the key misses at every time; evicting an absent key is a no-op; every other key reads as before |
| `ExpiringCache.CacheManager.constructor` | src/main/java/com/github/camelya58/SpringCacheApplication.java:29-31 | the manager starts with no caches and one TTL for all of them |
| `ExpiringCache.CacheManager.GetCache` | src/main/java/com/github/camelya58/SpringCacheApplication.java:31-35 | a name already in use returns its cache; a new name gets a freshly built empty cache, registered under that name only |
| `ExpiringCache.CacheManager.PutInto` | src/main/java/com/github/camelya58/SpringCacheApplication.java:32-35 | a write through one named cache leaves the entries of every other named cache unchanged |
| `Repository.SaveStores` | src/main/java/com/github/camelya58/model/User.java:23-25 | save keeps every row under its own positive id; it either overwrites the row of a known id or adds exactly one row under an id no row had; it keeps name and email |
| `Repository.RowsFrom` | src/main/java/com/github/camelya58/service/UserServiceImpl.java:76-79 | the rows with ids in a range: each one is a stored row, every stored row in the range is present, and ids strictly ascend |
| `Repository.UserRepository.constructor` | src/main/java/com/github/camelya58/repository/UserRepository.java:14 | the store starts empty and well formed |
| `Repository.UserRepository.Save` | src/main/java/com/github/camelya58/model/User.java:23-25 | save gives a user with id 0, or with an id that has no row, the next generated id; it overwrites the row of a known id; it returns the stored user |
| `Repository.UserRepository.FindById` | src/main/java/com/github/camelya58/service/UserServiceImpl.java:39 | findById returns the row under the id exactly when there is one, as the pure `Find` on the store says |
| `Repository.UserRepository.FindAll` | src/main/java/com/github/camelya58/service/UserServiceImpl.java:78 | findAll returns every stored user exactly once, in ascending id order |
| `Repository.UserRepository.DeleteById` | src/main/java/com/github/camelya58/service/UserServiceImpl.java:66 | deleteById removes the row of a stored id; an absent id fails and changes nothing |
| `CachePolicy.StepKeepsValid` | src/main/java/com/github/camelya58/service/UserServiceImpl.java:30-79 | every service call keeps the invariant: a user is cached only under its own id or its own name, and the store stays well formed |
| `CachePolicy.RunKeepsValid` | src/main/java/com/github/camelya58/service/UserServiceImpl.java:30-79 | any sequence of service calls keeps that invariant |
| `CachePolicy.ReadsKeepStore` | src/main/java/com/github/camelya58/service/UserServiceImpl.java:36-41 | any sequence of get and getAll calls, hits or misses, leaves the store unchanged |
| `CachePolicy.StepKeepsIdEntriesCurrent` | src/main/java/com/github/camelya58/service/UserServiceImpl.java:30-79 | every call other than delete, and other than a save of an already-saved user, keeps each id-keyed entry equal to the store's row under that id |
| `CachePolicy.RunKeepsIdEntriesCurrent` | src/main/java/com/github/camelya58/service/UserServiceImpl.java:30-79 | any sequence of such calls keeps every id-keyed entry equal to the store's row |
| `CachePolicy.GetAgreesWithStore` | src/main/java/com/github/camelya58/service/UserServiceImpl.java:35-41 | while the id-keyed entries are current, get(id) returns what findById would: the row, or NotFound |
| `CachePolicy.CacheTransparentForGet` | src/main/java/com/github/camelya58/service/UserServiceImpl.java:35-41 | from an empty cache and store, after any calls without delete and without saves of already-saved users, get(id) returns exactly what the store holds |
| `CachePolicy.OverwriteLeavesStaleIdEntry` | src/main/java/com/github/camelya58/service/UserServiceImpl.java:30-33 | create(User) on a stored id overwrites the row, but a live IdKey entry keeps answering get with the old user |
| `CachePolicy.RefreshLeavesStaleIdEntry` | src/main/java/com/github/camelya58/service/UserServiceImpl.java:56-61 | createAndRefreshCache on a stored id refreshes only the name-keyed entry; the IdKey entry keeps answering get with the old user |
| `CachePolicy.CreateBypassesCache` | src/main/java/com/github/camelya58/service/UserServiceImpl.java:30-33 | create(User) saves to the store and leaves the cache exactly unchanged |
| `CachePolicy.GetAllReadsStore` | src/main/java/com/github/camelya58/service/UserServiceImpl.java:76-79 | getAll returns exactly the stored users, each once, and changes neither cache nor store |
| `CachePolicy.GetHit` | src/main/java/com/github/camelya58/service/UserServiceImpl.java:35-41 | on a live hit at IdKey(id), get returns the cached user, changes nothing, and gives the same answer whatever the store holds |
| `CachePolicy.GetMissLoads` | src/main/java/com/github/camelya58/service/UserServiceImpl.java:35-41 | on a miss with the id stored, get returns the row and caches it at IdKey(id) stamped now; nothing else changes |
| `CachePolicy.GetNotFound` | src/main/java/com/github/camelya58/service/UserServiceImpl.java:39-40 | on a miss with no such id, get fails with NotFound and changes neither cache nor store |
| `CachePolicy.GetTwiceWithinTtl` | src/main/java/com/github/camelya58/service/UserServiceImpl.java:35-41 | two gets fewer than TTL ticks apart make at most one store lookup when the first returns a user; when the first missed, or its hit is still live, the second gives the same answer and changes nothing |
| `CachePolicy.GetFailureNotCached` | src/main/java/com/github/camelya58/service/UserServiceImpl.java:35-41 | a failed get caches nothing, so a later miss goes to the store again with the same outcome |
| `CachePolicy.HitDoesNotRefresh` | src/main/java/com/github/camelya58/SpringCacheApplication.java:37 | a hit does not restart the entry's lifetime: the entry still expires TTL ticks after its write |
| `CachePolicy.CreateFromFieldsHit` | src/main/java/com/github/camelya58/service/UserServiceImpl.java:42-47 | on a live hit at NameKey(name), create(name, email) returns the cached user, ignores the email and changes nothing |
| `CachePolicy.CreateFromFieldsMiss` | src/main/java/com/github/camelya58/service/UserServiceImpl.java:42-47 | on a miss it saves exactly one new User(name, email) under a fresh id and caches that user at NameKey(name) stamped now |
| `CachePolicy.SameNameCreateSavesOnce` | src/main/java/com/github/camelya58/service/UserServiceImpl.java:42-47 | create(name, e1) and then create(name, e2) fewer than TTL ticks later save one row; the second call returns the first row with e1 |
| `CachePolicy.CreateOrReturnCachedHit` | src/main/java/com/github/camelya58/service/UserServiceImpl.java:49-54 | a live entry under the user's name, whichever method wrote it, is returned and the save is skipped; nothing changes, whatever else the user carries |
| `CachePolicy.CreateOrReturnCachedMiss` | src/main/java/com/github/camelya58/service/UserServiceImpl.java:49-54 | on a miss the user is saved, and the saved user is cached under its name stamped now and returned |
| `CachePolicy.SameNameSkipsSave` | src/main/java/com/github/camelya58/service/UserServiceImpl.java:49-54 | two createOrReturnCached calls with users that share a name, fewer than TTL ticks apart, save only the first; the second returns the first saved user |
| `CachePolicy.RefreshOverwrites` | src/main/java/com/github/camelya58/service/UserServiceImpl.java:56-61 | createAndRefreshCache always saves; NameKey(u.name) then holds exactly the saved user stamped now, whatever was there before; every other key is unchanged; a read within TTL sees the saved user |
| `CachePolicy.RefreshTwiceKeepsLatest` | src/main/java/com/github/camelya58/service/UserServiceImpl.java:56-61 | two refreshes of one name: the store has both saves and the name reads the second saved user |
| `CachePolicy.DeleteKeepsCache` | src/main/java/com/github/camelya58/service/UserServiceImpl.java:63-67 | delete removes the id from the store, fails on an absent id, and never touches the cache |
| `CachePolicy.DeleteLeavesStaleIdEntry` | src/main/java/com/github/camelya58/service/UserServiceImpl.java:63-67 | after delete(id), a live IdKey(id) entry still answers get(id) with the deleted user |
| `CachePolicy.DeleteAndEvictRemovesIdKey` | src/main/java/com/github/camelya58/service/UserServiceImpl.java:69-74 | deleteAndEvict removes the row and exactly the IdKey(id) entry; when the delete fails, nothing is evicted |
| `CachePolicy.EvictedGetIsNotFound` | src/main/java/com/github/camelya58/service/UserServiceImpl.java:69-74 | after a successful deleteAndEvict(id), get(id) misses the cache and fails with NotFound |
| `CachePolicy.NameEntrySurvivesEvict` | src/main/java/com/github/camelya58/service/UserServiceImpl.java:69-74 | deleteAndEvict leaves name-keyed entries in place, so a read by name still returns the deleted user |
| `CachePolicy.FailedEvictKeepsIdEntry` | src/main/java/com/github/camelya58/service/UserServiceImpl.java:69-74 | if the row is already gone, deleteAndEvict throws before evicting, so a stale IdKey(id) entry keeps answering get(id) |
| `Service.UserServiceImpl.constructor` | src/main/java/com/github/camelya58/service/UserServiceImpl.java:24-28 | the service works on the given repository and the "users" cache, and starts in the invariant |
| `Service.UserServiceImpl.Create` | src/main/java/com/github/camelya58/service/UserServiceImpl.java:30-33 | the new state and result are those of CachePolicy.Create; the cache entries do not change |
| `Service.UserServiceImpl.Get` | src/main/java/com/github/camelya58/service/UserServiceImpl.java:35-41 | the new state and result are those of CachePolicy.Get; findById is called once on a miss and never on a hit |
| `Service.UserServiceImpl.CreateFromFields` | src/main/java/com/github/camelya58/service/UserServiceImpl.java:42-47 | the new state and result are those of CachePolicy.CreateFromFields; the invariant is kept |
| `Service.UserServiceImpl.CreateOrReturnCached` | src/main/java/com/github/camelya58/service/UserServiceImpl.java:49-54 | the new state and result are those of CachePolicy.CreateOrReturnCached; the invariant is kept |
| `Service.UserServiceImpl.CreateAndRefreshCache` | src/main/java/com/github/camelya58/service/UserServiceImpl.java:56-61 | the new state and result are those of CachePolicy.CreateAndRefreshCache; the invariant is kept |
| `Service.UserServiceImpl.Delete` | src/main/java/com/github/camelya58/service/UserServiceImpl.java:63-67 | the new state and result are those of CachePolicy.Delete; the cache entries do not change |
| `Service.UserServiceImpl.DeleteAndEvict` | src/main/java/com/github/camelya58/service/UserServiceImpl.java:69-74 | the new state and result are those of CachePolicy.DeleteAndEvict; the invariant is kept |
| `Service.UserServiceImpl.GetAll` | src/main/java/com/github/camelya58/service/UserServiceImpl.java:76-79 | getAll returns every stored user exactly once, in ascending id order, and changes nothing |
| `Service.GetTwice` | src/main/java/com/github/camelya58/service/UserServiceImpl.java:35-41 | on one service object, two gets fewer than TTL ticks apart, the first a miss, return the same answer; when that answer is a user, the two make one findById call in total |

## Left out

- Concurrency: the model is sequential. It does not cover the thread safety of the concurrent map, or the race in which two concurrent createOrReturnCached calls with the same name both miss and both save.
- Wall-clock time and the literal `1, TimeUnit.SECONDS`: time is a logical `nat` clock that the caller passes in, and the TTL is a parameter of the cache.
- Guava's internals (segments, cleanup of expired entries, sweep timing): expired entries stay in the map and are only filtered at read time, which is all that correctness needs.
- Spring's interception and proxy machinery, `@EnableCaching`, `main`, bean wiring and `log.info`: only the effect of each annotation is modelled, as explicit cache calls inside each method.
- The JPA schema annotations and the real database: the repository is a map plus an identity counter, and ids start at 1.
- Repository.UserRepository.Save: a user whose id is non-zero but has no row gets a fresh id. This follows JPA's merge of an unknown entity. Database errors on save are not modelled.
- Repository.UserRepository.DeleteById: deleting an absent id is an error. This is the Spring Data JPA 2.x behaviour of `deleteById`; later versions ignore the call. As a result, `deleteAndEvict` on an absent id evicts nothing.
- Repository.UserRepository.FindAll: returns rows in ascending id order. The database's order is unspecified.
- A `null` id argument (`Long`) is not modelled; ids are plain integers.
- Service.UserServiceImpl.CreateAndRefreshCache: a user with a `null` name, or a `null` user, is not modelled, because names are plain strings. In Java the key `#user.name` is then null, and Spring's cache aspect throws on a null key. For `@CachePut` the key is computed after `save` returns, so the row is stored, nothing is cached and the caller gets an exception. The model always returns the saved user and writes `NameKey`.
- Service.UserServiceImpl.CreateFromFields: a `null` name is not modelled. In Java the key `#name` is null, and the `@Cacheable` aspect throws before the body runs, so nothing is saved.
- Service.UserServiceImpl.CreateOrReturnCached: a `null` user or a user with a `null` name is not modelled. In Java the key expression `#user.name` fails, or evaluates to null, before the body runs, so nothing is saved; `create(null)` likewise fails in `save`.
- The logical clock is a parameter, and nothing forces it to move forward between calls. A read stamped earlier than the write it follows counts as a hit. The lemmas about a read after a write require the read's time to be no earlier than the write's.
- Java object identity: `save` may update and return the same `User` instance that the caller passed in. The model treats users as values.
- `UserService.java` and `UserRepository.java` only declare interfaces, and `AbstractTest.java` holds no test. None of them is modelled.
