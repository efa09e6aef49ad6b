// The store behind the service, standing in for `UserRepository extends
// JpaRepository<User, Long>`: rows keyed by id and the counter an identity
// column draws fresh ids from.

module Repository {
  import opened Wrappers
  import opened Users

  datatype Store = Store(rows: map<int, User>, nextId: int)

  /** Every row sits under its own id, and every id is positive and below the counter. */
  ghost predicate StoreValid(s: Store)
  {
    1 <= s.nextId &&
    forall i :: i in s.rows ==> s.rows[i].id == i && 1 <= i < s.nextId
  }

  /**
   * Whether `save(u)` inserts a new row: a user whose id is still the default
   * is new; a user carrying an id with no row is merged as a copy that also
   * gets a generated id. Otherwise the existing row is overwritten.
   */
  predicate GetsFreshId(s: Store, u: User)
  {
    u.id == Unsaved || u.id !in s.rows
  }

  /** The user `save(u)` returns. */
  function Saved(s: Store, u: User): User
  {
    if GetsFreshId(s, u) then u.(id := s.nextId) else u
  }

  /** The store after `save(u)`. */
  function AfterSave(s: Store, u: User): Store
  {
    if GetsFreshId(s, u) then Store(s.rows[s.nextId := u.(id := s.nextId)], s.nextId + 1)
    else Store(s.rows[u.id := u], s.nextId)
  }

  /** `findById(id)`. */
  function Find(s: Store, id: int): Option<User>
  {
    if id in s.rows then Some(s.rows[id]) else None
  }

  /**
   * `save` keeps the store well formed, returns the user it stored with name and
   * email untouched, and either overwrites the row of a known id or adds exactly
   * one row under an id no row had.
   */
  lemma SaveStores(s: Store, u: User)
    requires StoreValid(s)
    ensures StoreValid(AfterSave(s, u))
    ensures Saved(s, u).name == u.name && Saved(s, u).email == u.email
    ensures AfterSave(s, u).rows == s.rows[Saved(s, u).id := Saved(s, u)]
    ensures GetsFreshId(s, u) ==> Saved(s, u).id !in s.rows && AfterSave(s, u).rows.Keys == s.rows.Keys + {Saved(s, u).id}
    ensures !GetsFreshId(s, u) ==> Saved(s, u) == u && AfterSave(s, u).rows.Keys == s.rows.Keys
  {
  }

  /** The rows with ids in `[lo, hi)`, in ascending id order. */
  function RowsFrom(rows: map<int, User>, lo: int, hi: int): (all: seq<User>)
    requires forall i :: i in rows ==> rows[i].id == i
    ensures forall j :: 0 <= j < |all| ==> lo <= all[j].id < hi && all[j].id in rows && rows[all[j].id] == all[j]
    ensures forall i :: lo <= i < hi && i in rows ==> rows[i] in all
    ensures forall j, j' :: 0 <= j < j' < |all| ==> all[j].id < all[j'].id
    decreases hi - lo
  {
    if hi <= lo then []
    else (if lo in rows then [rows[lo]] else []) + RowsFrom(rows, lo + 1, hi)
  }

  /** `findAll()`: every row, in ascending id order. */
  function AllRows(s: Store): seq<User>
    requires StoreValid(s)
  {
    RowsFrom(s.rows, 1, s.nextId)
  }

  /** The store after `deleteById(id)` succeeded. */
  function AfterDelete(s: Store, id: int): Store
  {
    s.(rows := s.rows - {id})
  }

  class UserRepository {
    var rows: map<int, User>
    var nextId: int

    function State(): Store
      reads this
    {
      Store(rows, nextId)
    }

    ghost predicate Valid()
      reads this
    {
      StoreValid(State())
    }

    /** An empty table whose identity column starts at 1. */
    constructor ()
      ensures Valid() && rows == map[]
    {
      rows := map[];
      nextId := 1;
    }

    /** `save(u)`: insert or overwrite, returning the stored user. */
    method Save(u: User) returns (saved: User)
      requires Valid()
      modifies this
      ensures Valid()
      ensures saved == Saved(old(State()), u) && State() == AfterSave(old(State()), u)
    {
      SaveStores(State(), u);
      if u.id != Unsaved && u.id in rows {
        saved := u;
        rows := rows[u.id := u];
      } else {
        saved := u.(id := nextId);
        rows := rows[nextId := saved];
        nextId := nextId + 1;
      }
    }

    /** `findById(id)`: the row under `id`, if there is one. */
    method FindById(id: int) returns (r: Option<User>)
      requires Valid()
      ensures r == Find(State(), id)
      ensures r.Some? <==> id in rows
      ensures r.Some? ==> r.value == rows[id] && r.value.id == id
    {
      if id in rows {
        r := Some(rows[id]);
      } else {
        r := None;
      }
    }

    /** `findAll()`: every stored user exactly once, in ascending id order. */
    method FindAll() returns (all: seq<User>)
      requires Valid()
      ensures all == AllRows(State())
      ensures forall i :: i in rows ==> rows[i] in all
      ensures forall u :: u in all ==> u.id in rows && rows[u.id] == u
      ensures forall j, j' :: 0 <= j < j' < |all| ==> all[j].id < all[j'].id
    {
      all := RowsFrom(rows, 1, nextId);
    }

    /** `deleteById(id)`: removes the row; an absent id is an error and changes nothing. */
    method DeleteById(id: int) returns (r: Result<(), Failure>)
      requires Valid()
      modifies this
      ensures Valid()
      ensures r == if id in old(rows) then Ok(()) else Err(NoRowToDelete(id))
      ensures State() == if id in old(rows) then AfterDelete(old(State()), id) else old(State())
    {
      if id !in rows {
        return Err(NoRowToDelete(id));
      }
      rows := rows - {id};
      r := Ok(());
    }
  }
}
