// The cache policy of the user service as functions on the whole state: the
// "users" cache and the store. Each annotation of `UserServiceImpl` becomes a
// function that wraps what the method body does (`Cacheable`, `CachePut`,
// `CacheEvict`); each service method is its body wrapped by its annotation.

module CachePolicy {
  import opened Wrappers
  import opened Users
  import opened ExpiringCache
  import opened Repository

  /** The state the service methods read and change. */
  datatype World = World(users: Entries, store: Store)

  /** The state after a call, and what the call returned or threw. */
  datatype Reply<T> = Reply(world: World, out: T)

  type Outcome = Result<User, Failure>

  /** What a cached user has in common with the key it is cached under. */
  predicate Carries(k: Key, u: User)
  {
    match k
    case IdKey(i) => u.id == i
    case NameKey(n) => u.name == n
  }

  /**
   * The invariant every call keeps: the store is well formed, and every cache
   * entry holds a user with the id or the name of its key. Entries may be stale
   * (the store may since hold another version, or nothing, under that id).
   */
  ghost predicate Valid(w: World)
  {
    StoreValid(w.store) &&
    forall k :: k in w.users ==> Carries(k, w.users[k].value)
  }

  /** Whether a read of `k` at `now` is answered from the cache. */
  predicate Hit(w: World, k: Key, now: nat, ttl: nat)
  {
    Lookup(w.users, k, now, ttl).Some?
  }

  // ---------------------------------------------------------------------------
  // The annotations, applied to what the method body does when it runs on the
  // state before the call.

  /** `@CachePut(key = k)`: the body always runs; a result it returns overwrites the entry at `k`, a failure leaves the cache alone. */
  function CachePut(k: Key, now: nat, body: Reply<Outcome>): Reply<Outcome>
  {
    if body.out.Ok? then Reply(body.world.(users := Written(body.world.users, k, body.out.value, now)), body.out)
    else body
  }

  /** `@Cacheable(key = k)`: a live entry is returned and the body does not run; on a miss the body runs and its result is cached as by `@CachePut`. */
  function Cacheable(w: World, k: Key, now: nat, ttl: nat, body: Reply<Outcome>): Reply<Outcome>
  {
    match Lookup(w.users, k, now, ttl)
    case Some(u) => Reply(w, Ok(u))
    case None => CachePut(k, now, body)
  }

  /** `@CacheEvict(key = k)`: the body runs; when it completes normally the entry at `k` is removed, when it throws the cache is left alone. */
  function CacheEvict(k: Key, body: Reply<Result<(), Failure>>): Reply<Result<(), Failure>>
  {
    if body.out.Ok? then Reply(body.world.(users := Removed(body.world.users, k)), body.out)
    else body
  }

  // ---------------------------------------------------------------------------
  // Method bodies.

  /** `repository.save(u)`. */
  function SaveBody(w: World, u: User): Reply<Outcome>
  {
    Reply(w.(store := AfterSave(w.store, u)), Ok(Saved(w.store, u)))
  }

  /** `repository.findById(id).orElseThrow(...)`. */
  function FindBody(w: World, id: int): Reply<Outcome>
  {
    match Find(w.store, id)
    case Some(u) => Reply(w, Ok(u))
    case None => Reply(w, Err(NotFound(id)))
  }

  /** `repository.deleteById(id)`. */
  function DeleteBody(w: World, id: int): Reply<Result<(), Failure>>
  {
    if id in w.store.rows then Reply(w.(store := AfterDelete(w.store, id)), Ok(()))
    else Reply(w, Err(NoRowToDelete(id)))
  }

  // ---------------------------------------------------------------------------
  // The eight service methods.

  /** `create(User)`: no annotation. */
  function Create(w: World, u: User): Reply<Outcome>
  {
    SaveBody(w, u)
  }

  /** `get(Long id)`: `@Cacheable("users")`, keyed by the id. */
  function Get(w: World, id: int, now: nat, ttl: nat): Reply<Outcome>
  {
    Cacheable(w, IdKey(id), now, ttl, FindBody(w, id))
  }

  /** `create(String name, String email)`: `@Cacheable(key = "#name")`. */
  function CreateFromFields(w: World, name: string, email: string, now: nat, ttl: nat): Reply<Outcome>
  {
    Cacheable(w, NameKey(name), now, ttl, SaveBody(w, NewUser(name, email)))
  }

  /** `createOrReturnCached(User)`: `@Cacheable(key = "#user.name")`. */
  function CreateOrReturnCached(w: World, u: User, now: nat, ttl: nat): Reply<Outcome>
  {
    Cacheable(w, NameKey(u.name), now, ttl, SaveBody(w, u))
  }

  /** `createAndRefreshCache(User)`: `@CachePut(key = "#user.name")`. */
  function CreateAndRefreshCache(w: World, u: User, now: nat): Reply<Outcome>
  {
    CachePut(NameKey(u.name), now, SaveBody(w, u))
  }

  /** `delete(Long id)`: no annotation. */
  function Delete(w: World, id: int): Reply<Result<(), Failure>>
  {
    DeleteBody(w, id)
  }

  /** `deleteAndEvict(Long id)`: `@CacheEvict("users")`, keyed by the id. */
  function DeleteAndEvict(w: World, id: int): Reply<Result<(), Failure>>
  {
    CacheEvict(IdKey(id), DeleteBody(w, id))
  }

  /** `getAll()`: no annotation. */
  function GetAll(w: World): Reply<seq<User>>
    requires StoreValid(w.store)
  {
    Reply(w, AllRows(w.store))
  }

  /** How many times `get(id)` at `now` calls `findById`. */
  function Lookups(w: World, id: int, now: nat, ttl: nat): nat
  {
    if Hit(w, IdKey(id), now, ttl) then 0 else 1
  }

  // ---------------------------------------------------------------------------
  // Calls in sequence.

  datatype Call =
    | CallCreate(user: User)
    | CallGet(id: int)
    | CallCreateFromFields(name: string, email: string)
    | CallCreateOrReturnCached(user: User)
    | CallCreateAndRefreshCache(user: User)
    | CallDelete(id: int)
    | CallDeleteAndEvict(id: int)
    | CallGetAll

  /** A call and the logical time at which it is made. */
  datatype Timed = Timed(call: Call, at: nat)

  /** The state after one call. */
  function Step(w: World, c: Timed, ttl: nat): World
  {
    match c.call
    case CallCreate(u) => Create(w, u).world
    case CallGet(id) => Get(w, id, c.at, ttl).world
    case CallCreateFromFields(name, email) => CreateFromFields(w, name, email, c.at, ttl).world
    case CallCreateOrReturnCached(u) => CreateOrReturnCached(w, u, c.at, ttl).world
    case CallCreateAndRefreshCache(u) => CreateAndRefreshCache(w, u, c.at).world
    case CallDelete(id) => Delete(w, id).world
    case CallDeleteAndEvict(id) => DeleteAndEvict(w, id).world
    case CallGetAll => w  // `getAll` reads the store and changes nothing
  }

  /** The state after a sequence of calls. */
  function Run(w: World, calls: seq<Timed>, ttl: nat): World
    decreases |calls|
  {
    if calls == [] then w else Run(Step(w, calls[0], ttl), calls[1..], ttl)
  }

  /** Calls that only read the store. */
  predicate ReadsOnly(c: Call)
  {
    c.CallGet? || c.CallGetAll?
  }

  // ---------------------------------------------------------------------------
  // The invariant.

  /** Every call keeps the invariant: a user is only ever cached under its own id or its own name. */
  lemma StepKeepsValid(w: World, c: Timed, ttl: nat)
    requires Valid(w)
    ensures Valid(Step(w, c, ttl))
  {
    match c.call
    case CallCreate(u) => SaveStores(w.store, u);
    case CallCreateFromFields(name, email) => SaveStores(w.store, NewUser(name, email));
    case CallCreateOrReturnCached(u) => SaveStores(w.store, u);
    case CallCreateAndRefreshCache(u) => SaveStores(w.store, u);
    case _ =>
  }

  /** Any sequence of calls keeps the invariant. */
  lemma {:induction false} RunKeepsValid(w: World, calls: seq<Timed>, ttl: nat)
    requires Valid(w)
    ensures Valid(Run(w, calls, ttl))
    decreases |calls|
  {
    if calls != [] {
      StepKeepsValid(w, calls[0], ttl);
      RunKeepsValid(Step(w, calls[0], ttl), calls[1..], ttl);
    }
  }

  /** The cache never writes to the store: a sequence of reads, hits or misses, leaves the store as it was. */
  lemma {:induction false} ReadsKeepStore(w: World, calls: seq<Timed>, ttl: nat)
    requires forall j :: 0 <= j < |calls| ==> ReadsOnly(calls[j].call)
    ensures Run(w, calls, ttl).store == w.store
    decreases |calls|
  {
    if calls != [] {
      ReadsKeepStore(Step(w, calls[0], ttl), calls[1..], ttl);
    }
  }

  // ---------------------------------------------------------------------------
  // When the id-keyed entries stay current.

  /** Every entry under an id holds exactly the row the store has under that id, expired or not. */
  ghost predicate IdEntriesCurrent(w: World)
  {
    forall i :: IdKey(i) in w.users ==> i in w.store.rows && w.store.rows[i] == w.users[IdKey(i)].value
  }

  /**
   * Calls that cannot make an id-keyed entry stale: everything but `delete`,
   * and saves only of users not yet saved (so a save never overwrites a row).
   */
  predicate KeepsIdEntriesCurrent(c: Call)
  {
    match c
    case CallDelete(_) => false
    case CallCreate(u) => u.id == Unsaved
    case CallCreateOrReturnCached(u) => u.id == Unsaved
    case CallCreateAndRefreshCache(u) => u.id == Unsaved
    case _ => true
  }

  lemma StepKeepsIdEntriesCurrent(w: World, c: Timed, ttl: nat)
    requires Valid(w) && IdEntriesCurrent(w) && KeepsIdEntriesCurrent(c.call)
    ensures IdEntriesCurrent(Step(w, c, ttl))
  {
    match c.call
    case CallCreate(u) => SaveStores(w.store, u);
    case CallCreateFromFields(name, email) => SaveStores(w.store, NewUser(name, email));
    case CallCreateOrReturnCached(u) => SaveStores(w.store, u);
    case CallCreateAndRefreshCache(u) => SaveStores(w.store, u);
    case _ =>
  }

  /** A sequence of such calls keeps every id-keyed entry current. */
  lemma {:induction false} RunKeepsIdEntriesCurrent(w: World, calls: seq<Timed>, ttl: nat)
    requires Valid(w) && IdEntriesCurrent(w)
    requires forall j :: 0 <= j < |calls| ==> KeepsIdEntriesCurrent(calls[j].call)
    ensures Valid(Run(w, calls, ttl)) && IdEntriesCurrent(Run(w, calls, ttl))
    decreases |calls|
  {
    if calls != [] {
      StepKeepsValid(w, calls[0], ttl);
      StepKeepsIdEntriesCurrent(w, calls[0], ttl);
      RunKeepsIdEntriesCurrent(Step(w, calls[0], ttl), calls[1..], ttl);
    }
  }

  /** While the id-keyed entries are current, `get(id)` answers exactly what the store would, hit or miss. */
  lemma GetAgreesWithStore(w: World, id: int, now: nat, ttl: nat)
    requires IdEntriesCurrent(w)
    ensures Get(w, id, now, ttl).out == FindBody(w, id).out
  {
  }

  /**
   * From an empty cache and store, after any sequence of calls without `delete`
   * and without saves of already-saved users, `get(id)` returns what the store
   * holds: the cache never changes the answer.
   */
  lemma CacheTransparentForGet(calls: seq<Timed>, id: int, now: nat, ttl: nat)
    requires forall j :: 0 <= j < |calls| ==> KeepsIdEntriesCurrent(calls[j].call)
    ensures var w := Run(World(map[], Store(map[], 1)), calls, ttl);
      Get(w, id, now, ttl).out == (if id in w.store.rows then Ok(w.store.rows[id]) else Err(NotFound(id)))
  {
    RunKeepsIdEntriesCurrent(World(map[], Store(map[], 1)), calls, ttl);
    GetAgreesWithStore(Run(World(map[], Store(map[], 1)), calls, ttl), id, now, ttl);
  }

  /** `create(User)` of a user with a stored id overwrites the row but not the entry under the id, which goes on answering `get`. */
  lemma OverwriteLeavesStaleIdEntry(w: World, u: User, now: nat, ttl: nat)
    requires Hit(w, IdKey(u.id), now, ttl) && u.id != Unsaved && u.id in w.store.rows
    ensures Create(w, u).world.store.rows[u.id] == u
    ensures Get(Create(w, u).world, u.id, now, ttl).out == Ok(w.users[IdKey(u.id)].value)
  {
  }

  /** `createAndRefreshCache` of a user with a stored id refreshes the name-keyed entry only; the entry under the id keeps the old row. */
  lemma RefreshLeavesStaleIdEntry(w: World, u: User, now: nat, ttl: nat)
    requires Hit(w, IdKey(u.id), now, ttl) && u.id != Unsaved && u.id in w.store.rows
    ensures CreateAndRefreshCache(w, u, now).world.store.rows[u.id] == u
    ensures Get(CreateAndRefreshCache(w, u, now).world, u.id, now, ttl).out == Ok(w.users[IdKey(u.id)].value)
  {
  }

  // ---------------------------------------------------------------------------
  // Methods without an annotation.

  /** `create(User)` saves and leaves the cache exactly as it was. */
  lemma CreateBypassesCache(w: World, u: User)
    requires Valid(w)
    ensures Create(w, u).world.users == w.users
    ensures Create(w, u).world.store == AfterSave(w.store, u)
    ensures Create(w, u).out == Ok(Saved(w.store, u)) && Saved(w.store, u).name == u.name
  {
  }

  /** `getAll()` returns every stored user exactly once and changes neither the cache nor the store. */
  lemma GetAllReadsStore(w: World)
    requires Valid(w)
    ensures GetAll(w).world == w
    ensures forall i :: i in w.store.rows ==> w.store.rows[i] in GetAll(w).out
    ensures forall u :: u in GetAll(w).out ==> u.id in w.store.rows && w.store.rows[u.id] == u
    ensures forall j, j' :: 0 <= j < j' < |GetAll(w).out| ==> GetAll(w).out[j].id != GetAll(w).out[j'].id
  {
  }

  // ---------------------------------------------------------------------------
  // get(id): read-through under the id.

  /** A live hit returns the cached user, changes nothing, and does not depend on the store at all. */
  lemma GetHit(w: World, id: int, now: nat, ttl: nat)
    requires Hit(w, IdKey(id), now, ttl)
    ensures Get(w, id, now, ttl) == Reply(w, Ok(w.users[IdKey(id)].value))
    ensures forall s :: Get(w.(store := s), id, now, ttl).out == Get(w, id, now, ttl).out
  {
  }

  /** A miss on a stored id loads the row, caches it under the id stamped `now`, and returns it. */
  lemma GetMissLoads(w: World, id: int, now: nat, ttl: nat)
    requires !Hit(w, IdKey(id), now, ttl) && id in w.store.rows
    ensures Get(w, id, now, ttl).out == Ok(w.store.rows[id])
    ensures Get(w, id, now, ttl).world == w.(users := w.users[IdKey(id) := Entry(w.store.rows[id], now)])
  {
  }

  /** A miss on an absent id fails with NotFound and caches nothing. */
  lemma GetNotFound(w: World, id: int, now: nat, ttl: nat)
    requires !Hit(w, IdKey(id), now, ttl) && id !in w.store.rows
    ensures Get(w, id, now, ttl) == Reply(w, Err(NotFound(id)))
  {
  }

  /**
   * Two `get(id)` calls less than `ttl` apart: when the first returns a user,
   * the two make at most one store lookup; when the first went to the store, or
   * the entry it hit is still live, the second returns the same answer and
   * changes nothing.
   */
  lemma GetTwiceWithinTtl(w: World, id: int, t1: nat, t2: nat, ttl: nat)
    requires t1 <= t2 && t2 - t1 < ttl
    ensures Get(w, id, t1, ttl).out.Ok? ==>
              Lookups(w, id, t1, ttl) + Lookups(Get(w, id, t1, ttl).world, id, t2, ttl) <= 1
    ensures !Hit(w, IdKey(id), t1, ttl) || Hit(w, IdKey(id), t2, ttl) ==>
              Get(Get(w, id, t1, ttl).world, id, t2, ttl) == Get(w, id, t1, ttl)
  {
  }

  /** A failing `get(id)` caches nothing, so a second one goes to the store again. */
  lemma GetFailureNotCached(w: World, id: int, t1: nat, t2: nat, ttl: nat)
    requires Get(w, id, t1, ttl).out.Err?
    ensures Get(w, id, t1, ttl).world == w
    ensures Lookups(w, id, t1, ttl) == 1
    ensures Lookups(w, id, t2, ttl) == 1 ==> Get(w, id, t2, ttl) == Get(w, id, t1, ttl)
  {
  }

  /** A hit does not restart the entry's lifetime: the entry still expires `ttl` ticks after its write. */
  lemma HitDoesNotRefresh(w: World, id: int, t1: nat, t2: nat, ttl: nat)
    requires Hit(w, IdKey(id), t1, ttl)
    requires t2 - w.users[IdKey(id)].writtenAt >= ttl
    ensures !Hit(Get(w, id, t1, ttl).world, IdKey(id), t2, ttl)
  {
  }

  // ---------------------------------------------------------------------------
  // create(name, email) and createOrReturnCached(user): read-through under the name.

  /** A live hit under the name returns the cached user whatever the email, and changes nothing. */
  lemma CreateFromFieldsHit(w: World, name: string, email: string, now: nat, ttl: nat)
    requires Hit(w, NameKey(name), now, ttl)
    ensures CreateFromFields(w, name, email, now, ttl) == Reply(w, Ok(w.users[NameKey(name)].value))
    ensures forall e :: CreateFromFields(w, name, e, now, ttl) == CreateFromFields(w, name, email, now, ttl)
  {
  }

  /** A miss saves exactly one new `User(name, email)` under a fresh id and caches it under the name. */
  lemma CreateFromFieldsMiss(w: World, name: string, email: string, now: nat, ttl: nat)
    requires Valid(w) && !Hit(w, NameKey(name), now, ttl)
    ensures var r := CreateFromFields(w, name, email, now, ttl);
      && w.store.nextId !in w.store.rows
      && r.out == Ok(User(w.store.nextId, name, email))
      && r.world.store.rows == w.store.rows[w.store.nextId := User(w.store.nextId, name, email)]
      && r.world.users == Written(w.users, NameKey(name), User(w.store.nextId, name, email), now)
  {
  }

  /**
   * The name collision, as the source behaves: `create(name, e1)` then
   * `create(name, e2)` less than `ttl` later saves one row only, and the
   * second call returns the first row with the first email.
   */
  lemma SameNameCreateSavesOnce(w: World, name: string, e1: string, e2: string, t1: nat, t2: nat, ttl: nat)
    requires Valid(w) && !Hit(w, NameKey(name), t1, ttl) && t1 <= t2 && t2 - t1 < ttl
    ensures var r1 := CreateFromFields(w, name, e1, t1, ttl);
      var r2 := CreateFromFields(r1.world, name, e2, t2, ttl);
      && r2 == Reply(r1.world, r1.out)
      && r2.world.store == AfterSave(w.store, NewUser(name, e1))
      && r2.out == Ok(User(w.store.nextId, name, e1))
  {
  }

  /**
   * A live entry under the user's name, whoever wrote it (`create(name, email)`,
   * `createAndRefreshCache` or an earlier `createOrReturnCached`), is returned
   * and the save is skipped: nothing changes, whatever else the user carries.
   */
  lemma CreateOrReturnCachedHit(w: World, u: User, now: nat, ttl: nat)
    requires Hit(w, NameKey(u.name), now, ttl)
    ensures CreateOrReturnCached(w, u, now, ttl) == Reply(w, Ok(w.users[NameKey(u.name)].value))
    ensures forall u': User :: u'.name == u.name ==> CreateOrReturnCached(w, u', now, ttl) == CreateOrReturnCached(w, u, now, ttl)
  {
  }

  /** A miss saves the user, caches the saved user under its name stamped `now`, and returns it. */
  lemma CreateOrReturnCachedMiss(w: World, u: User, now: nat, ttl: nat)
    requires Valid(w) && !Hit(w, NameKey(u.name), now, ttl)
    ensures var r := CreateOrReturnCached(w, u, now, ttl);
      && r.out == Ok(Saved(w.store, u))
      && Saved(w.store, u).name == u.name && Saved(w.store, u).email == u.email
      && r.world.store == AfterSave(w.store, u)
      && r.world.users == Written(w.users, NameKey(u.name), Saved(w.store, u), now)
  {
    SaveStores(w.store, u);
  }

  /**
   * The same collision for `createOrReturnCached`: two users with one name,
   * less than `ttl` apart, give one save; the second call returns the first
   * saved user and the second user is never stored.
   */
  lemma SameNameSkipsSave(w: World, u1: User, u2: User, t1: nat, t2: nat, ttl: nat)
    requires u1.name == u2.name && !Hit(w, NameKey(u1.name), t1, ttl) && t1 <= t2 && t2 - t1 < ttl
    ensures var r1 := CreateOrReturnCached(w, u1, t1, ttl);
      var r2 := CreateOrReturnCached(r1.world, u2, t2, ttl);
      && r1.world.store == AfterSave(w.store, u1)
      && r2 == Reply(r1.world, Ok(Saved(w.store, u1)))
  {
  }

  // ---------------------------------------------------------------------------
  // createAndRefreshCache(user): write-through under the name.

  /**
   * The user is always saved, and afterwards the entry under its name holds
   * exactly the saved user stamped `now`, whatever was cached there before;
   * every other key is unchanged. A read under the name within `ttl` sees it.
   */
  lemma RefreshOverwrites(w: World, u: User, now: nat, t: nat, ttl: nat)
    requires now <= t && t - now < ttl
    ensures var r := CreateAndRefreshCache(w, u, now);
      && r.out == Ok(Saved(w.store, u))
      && r.world.store == AfterSave(w.store, u)
      && r.world.users[NameKey(u.name)] == Entry(Saved(w.store, u), now)
      && (forall k :: k != NameKey(u.name) ==> (k in r.world.users <==> k in w.users))
      && (forall k :: k != NameKey(u.name) && k in w.users ==> r.world.users[k] == w.users[k])
      && Lookup(r.world.users, NameKey(u.name), t, ttl) == Some(Saved(w.store, u))
  {
  }

  /** Two refreshes of one name within the same TTL window: the cache ends holding the second saved user. */
  lemma RefreshTwiceKeepsLatest(w: World, u1: User, u2: User, t1: nat, t2: nat, ttl: nat)
    requires u1.name == u2.name && 0 < ttl
    ensures var r1 := CreateAndRefreshCache(w, u1, t1);
      var r2 := CreateAndRefreshCache(r1.world, u2, t2);
      && r2.world.store == AfterSave(AfterSave(w.store, u1), u2)
      && Lookup(r2.world.users, NameKey(u2.name), t2, ttl) == Some(Saved(AfterSave(w.store, u1), u2))
  {
  }

  // ---------------------------------------------------------------------------
  // delete(id) and deleteAndEvict(id).

  /** `delete(id)` removes the row of a stored id and fails on an absent one; the cache is untouched either way. */
  lemma DeleteKeepsCache(w: World, id: int)
    ensures Delete(w, id).world.users == w.users
    ensures Delete(w, id).out.Ok? <==> id in w.store.rows
    ensures Delete(w, id).world.store.rows == w.store.rows - {id}
  {
  }

  /** The staleness hazard of `delete`: a live entry under the id still answers `get(id)` with the deleted user. */
  lemma DeleteLeavesStaleIdEntry(w: World, id: int, now: nat, ttl: nat)
    requires Hit(w, IdKey(id), now, ttl) && id in w.store.rows
    ensures id !in Delete(w, id).world.store.rows
    ensures Get(Delete(w, id).world, id, now, ttl).out == Ok(w.users[IdKey(id)].value)
  {
  }

  /** `deleteAndEvict(id)` of a stored id removes the row and exactly the entry under the id; a failed delete evicts nothing. */
  lemma DeleteAndEvictRemovesIdKey(w: World, id: int)
    ensures var r := DeleteAndEvict(w, id);
      && (r.out.Ok? <==> id in w.store.rows)
      && r.world.store.rows == w.store.rows - {id}
      && r.world.users == if r.out.Ok? then Removed(w.users, IdKey(id)) else w.users
  {
  }

  /** After a successful `deleteAndEvict(id)`, `get(id)` misses the cache and fails with NotFound. */
  lemma EvictedGetIsNotFound(w: World, id: int, now: nat, ttl: nat)
    requires id in w.store.rows
    ensures var after := DeleteAndEvict(w, id).world;
      Get(after, id, now, ttl) == Reply(after, Err(NotFound(id)))
  {
  }

  /**
   * The staleness hazard of `deleteAndEvict`: an entry under a name survives
   * the eviction, so a name-keyed read keeps returning the deleted user.
   */
  lemma NameEntrySurvivesEvict(w: World, id: int, name: string, now: nat, ttl: nat)
    requires Hit(w, NameKey(name), now, ttl)
    ensures var after := DeleteAndEvict(w, id).world;
      && NameKey(name) in after.users && after.users[NameKey(name)] == w.users[NameKey(name)]
      && CreateFromFields(after, name, "", now, ttl).out == Ok(w.users[NameKey(name)].value)
  {
  }

  /**
   * A `deleteAndEvict(id)` whose row is already gone throws before the eviction,
   * so an entry left by an earlier `delete(id)` keeps answering `get(id)`.
   */
  lemma FailedEvictKeepsIdEntry(w: World, id: int, now: nat, ttl: nat)
    requires Hit(w, IdKey(id), now, ttl) && id !in w.store.rows
    ensures DeleteAndEvict(w, id) == Reply(w, Err(NoRowToDelete(id)))
    ensures Get(w, id, now, ttl).out == Ok(w.users[IdKey(id)].value)
  {
  }
}
