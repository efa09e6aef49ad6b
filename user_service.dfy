// `UserServiceImpl`: each method runs its body against the repository and
// applies its annotation to the "users" cache as explicit cache calls. The
// logical time of the call is a parameter; the TTL is the cache's.

module Service {
  import opened Wrappers
  import opened Users
  import opened ExpiringCache
  import opened Repository
  import CachePolicy

  class UserServiceImpl {
    const repository: UserRepository
    const users: Cache
    /** How many times the service has called `findById`. */
    ghost var storeLookups: nat

    function Current(): CachePolicy.World
      reads this, repository, users
    {
      CachePolicy.World(users.entries, repository.State())
    }

    ghost predicate Valid()
      reads this, repository, users
    {
      CachePolicy.Valid(Current())
    }

    /** The service over a repository and the cache the manager built under "users". */
    constructor (repository: UserRepository, users: Cache)
      requires CachePolicy.Valid(CachePolicy.World(users.entries, repository.State()))
      requires users.name == "users"
      ensures Valid() && this.repository == repository && this.users == users && storeLookups == 0
    {
      this.repository := repository;
      this.users := users;
      storeLookups := 0;
    }

    /** `create(User)`: saves; the cache is not touched. */
    method Create(user: User) returns (saved: User)
      requires Valid()
      modifies repository
      ensures Valid()
      ensures CachePolicy.Reply(Current(), Ok(saved)) == CachePolicy.Create(old(Current()), user)
      ensures users.entries == old(users.entries)
    {
      CachePolicy.StepKeepsValid(Current(), CachePolicy.Timed(CachePolicy.CallCreate(user), 0), users.ttl);
      saved := repository.Save(user);
    }

    /** `get(id)`: a live entry under the id answers; otherwise the row is loaded, cached under the id and returned. */
    method Get(id: int, now: nat) returns (r: Result<User, Failure>)
      requires Valid()
      modifies users, this`storeLookups
      ensures Valid()
      ensures CachePolicy.Reply(Current(), r) == CachePolicy.Get(old(Current()), id, now, users.ttl)
      ensures storeLookups == old(storeLookups) + CachePolicy.Lookups(old(Current()), id, now, users.ttl)
    {
      CachePolicy.StepKeepsValid(Current(), CachePolicy.Timed(CachePolicy.CallGet(id), now), users.ttl);
      var cached := users.Get(IdKey(id), now);
      if cached.Some? {
        return Ok(cached.value);
      }
      storeLookups := storeLookups + 1;
      var found := repository.FindById(id);
      if found.None? {
        return Err(NotFound(id));
      }
      users.Put(IdKey(id), found.value, now);
      r := Ok(found.value);
    }

    /** `create(name, email)`: a live entry under the name answers; otherwise a new user is saved and cached under the name. */
    method CreateFromFields(name: string, email: string, now: nat) returns (r: User)
      requires Valid()
      modifies users, repository
      ensures Valid()
      ensures CachePolicy.Reply(Current(), Ok(r)) == CachePolicy.CreateFromFields(old(Current()), name, email, now, users.ttl)
    {
      CachePolicy.StepKeepsValid(Current(), CachePolicy.Timed(CachePolicy.CallCreateFromFields(name, email), now), users.ttl);
      var cached := users.Get(NameKey(name), now);
      if cached.Some? {
        return cached.value;
      }
      r := repository.Save(NewUser(name, email));
      users.Put(NameKey(name), r, now);
    }

    /** `createOrReturnCached(user)`: a live entry under the user's name answers; otherwise the user is saved and cached under its name. */
    method CreateOrReturnCached(user: User, now: nat) returns (r: User)
      requires Valid()
      modifies users, repository
      ensures Valid()
      ensures CachePolicy.Reply(Current(), Ok(r)) == CachePolicy.CreateOrReturnCached(old(Current()), user, now, users.ttl)
    {
      CachePolicy.StepKeepsValid(Current(), CachePolicy.Timed(CachePolicy.CallCreateOrReturnCached(user), now), users.ttl);
      var cached := users.Get(NameKey(user.name), now);
      if cached.Some? {
        return cached.value;
      }
      r := repository.Save(user);
      users.Put(NameKey(user.name), r, now);
    }

    /** `createAndRefreshCache(user)`: always saves, then overwrites the entry under the user's name. */
    method CreateAndRefreshCache(user: User, now: nat) returns (r: User)
      requires Valid()
      modifies users, repository
      ensures Valid()
      ensures CachePolicy.Reply(Current(), Ok(r)) == CachePolicy.CreateAndRefreshCache(old(Current()), user, now)
    {
      CachePolicy.StepKeepsValid(Current(), CachePolicy.Timed(CachePolicy.CallCreateAndRefreshCache(user), now), users.ttl);
      r := repository.Save(user);
      users.Put(NameKey(user.name), r, now);
    }

    /** `delete(id)`: deletes the row; the cache is not touched. */
    method Delete(id: int) returns (r: Result<(), Failure>)
      requires Valid()
      modifies repository
      ensures Valid()
      ensures CachePolicy.Reply(Current(), r) == CachePolicy.Delete(old(Current()), id)
      ensures users.entries == old(users.entries)
    {
      CachePolicy.StepKeepsValid(Current(), CachePolicy.Timed(CachePolicy.CallDelete(id), 0), users.ttl);
      r := repository.DeleteById(id);
    }

    /** `deleteAndEvict(id)`: deletes the row and, when that succeeds, evicts the entry under the id. */
    method DeleteAndEvict(id: int) returns (r: Result<(), Failure>)
      requires Valid()
      modifies repository, users
      ensures Valid()
      ensures CachePolicy.Reply(Current(), r) == CachePolicy.DeleteAndEvict(old(Current()), id)
    {
      CachePolicy.StepKeepsValid(Current(), CachePolicy.Timed(CachePolicy.CallDeleteAndEvict(id), 0), users.ttl);
      r := repository.DeleteById(id);
      if r.Ok? {
        users.Evict(IdKey(id));
      }
    }

    /** `getAll()`: every stored user exactly once, in ascending id order, read from the store; nothing changes. */
    method GetAll() returns (all: seq<User>)
      requires Valid()
      ensures CachePolicy.Reply(Current(), all) == CachePolicy.GetAll(Current())
      ensures forall i :: i in repository.rows ==> repository.rows[i] in all
      ensures forall u :: u in all ==> u.id in repository.rows && repository.rows[u.id] == u
      ensures forall j, j' :: 0 <= j < j' < |all| ==> all[j].id < all[j'].id
    {
      all := repository.FindAll();
    }
  }

  /**
   * Two `get(id)` calls on one service less than the TTL apart, the first
   * going to the store: the same answer twice and one store lookup in all.
   */
  method GetTwice(s: UserServiceImpl, id: int, t1: nat, t2: nat) returns (r1: Result<User, Failure>, r2: Result<User, Failure>)
    requires s.Valid() && !CachePolicy.Hit(s.Current(), IdKey(id), t1, s.users.ttl)
    requires t1 <= t2 && t2 - t1 < s.users.ttl
    modifies s.users, s`storeLookups
    ensures r1 == r2
    ensures r1.Ok? ==> s.storeLookups == old(s.storeLookups) + 1
  {
    ghost var before := s.Current();
    CachePolicy.GetTwiceWithinTtl(before, id, t1, t2, s.users.ttl);
    r1 := s.Get(id, t1);
    r2 := s.Get(id, t2);
  }
}
