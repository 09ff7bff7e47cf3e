/**
 * UserAdapter: the user store. The table is a map from id to row, together with the
 * unique index on `username` that the column's uniqueness constraint implies, and the
 * next identity value.
 */
module UserRepository {
  import opened Wrappers
  import opened Exceptions
  import opened UserEntity

  datatype UserTable = UserTable(rows: map<int, UserRow>, byUsername: map<string, int>, nextId: int)

  /** The store's own consistency: ids agree with keys and the username index is exact. */
  ghost predicate TableValid(t: UserTable) {
    && (forall k | k in t.rows :: t.rows[k].id == k && k < t.nextId)
    && (forall n | n in t.byUsername :: t.byUsername[n] in t.rows && t.rows[t.byUsername[n]].username == n)
    && (forall k | k in t.rows :: t.rows[k].username in t.byUsername && t.byUsername[t.rows[k].username] == k)
  }

  /** No two stored users share a username. */
  ghost predicate UniqueUsernames(t: UserTable) {
    forall j, k | j in t.rows && k in t.rows && t.rows[j].username == t.rows[k].username :: j == k
  }

  lemma ValidHasUniqueUsernames(t: UserTable)
    requires TableValid(t)
    ensures UniqueUsernames(t)
  {
  }

  /** An empty store whose identity sequence starts at 1. */
  function EmptyTable(): (t: UserTable)
    ensures TableValid(t) && t.rows == map[]
  {
    UserTable(map[], map[], 1)
  }

  /** findById: the stored row, or UserNotFoundException. */
  function FindById(t: UserTable, id: int): (r: Result<UserRow, Failure>)
    requires TableValid(t)
    ensures r.Ok? <==> id in t.rows
    ensures r.Ok? ==> r.value == t.rows[id] && r.value.id == id
    ensures r.Failure? ==> r.error == UserNotFound()
  {
    if id in t.rows then Ok(t.rows[id]) else Failure(UserNotFound())
  }

  /** findByUsername: the stored row with that username, or UserNotFoundException; never null. */
  function FindByUsername(t: UserTable, username: string): (r: Result<UserRow, Failure>)
    requires TableValid(t)
    ensures r.Ok? <==> exists k :: k in t.rows && t.rows[k].username == username
    ensures r.Ok? ==> r.value.username == username && r.value.id in t.rows && t.rows[r.value.id] == r.value
    ensures r.Failure? ==> r.error == UserNotFound()
  {
    if username in t.byUsername then
      var k := t.byUsername[username];
      assert k in t.rows && t.rows[k].username == username;
      Ok(t.rows[k])
    else Failure(UserNotFound())
  }

  /** existsByUsername: true exactly when findByUsername would return a user. */
  function ExistsByUsername(t: UserTable, username: string): (b: bool)
    requires TableValid(t)
    ensures b <==> FindByUsername(t, username).Ok?
    ensures b <==> exists k :: k in t.rows && t.rows[k].username == username
  {
    FindByUsername(t, username).Ok?
  }

  /**
   * Saving an object that has no id inserts it under the next identity value; the
   * unique constraint on `username` rejects a name already in use.
   */
  function Inserted(t: UserTable, row: UserRow): (r: Result<UserTable, Failure>)
    requires TableValid(t)
    ensures r.Failure? <==> ExistsByUsername(t, row.username)
    ensures r.Failure? ==> r.error == DataIntegrityViolation
    ensures r.Ok? ==> TableValid(r.value)
    ensures r.Ok? ==> t.nextId !in t.rows && r.value.rows == t.rows[t.nextId := row.(id := t.nextId)]
  {
    if row.username in t.byUsername then Failure(DataIntegrityViolation)
    else
      var key := t.nextId;
      Ok(UserTable(t.rows[key := row.(id := key)], t.byUsername[row.username := key], key + 1))
  }

  /** Saving an object that already has an id overwrites that row and nothing else. */
  function Updated(t: UserTable, row: UserRow): (r: UserTable)
    requires TableValid(t)
    requires row.id in t.rows && t.rows[row.id].username == row.username
    ensures TableValid(r)
    ensures r.rows.Keys == t.rows.Keys
    ensures r.rows[row.id] == row
    ensures forall k | k in t.rows && k != row.id :: r.rows[k] == t.rows[k]
  {
    t.(rows := t.rows[row.id := row])
  }

  /** A row presented for update matches the stored row of the same id in what cannot change. */
  ghost predicate Persisted(t: UserTable, user: User)
    reads user
  {
    user.id.Some? ==> user.id.value in t.rows && t.rows[user.id.value].username == user.username
  }

  class UserAdapter {
    var table: UserTable

    ghost predicate Valid()
      reads this
    {
      TableValid(table)
    }

    constructor ()
      ensures Valid() && table == EmptyTable()
    {
      table := EmptyTable();
    }

    /**
     * save: inserts a new object (and gives it its id) or updates a stored one. The
     * only operation that changes the store.
     */
    method Save(user: User) returns (thrown: Option<Failure>)
      requires Valid() && Persisted(table, user)
      modifies this, user`id
      ensures Valid()
      ensures old(user.id).Some? ==>
        thrown.None? && user.id == old(user.id) && table == Updated(old(table), user.Row())
      ensures old(user.id).None? ==>
        var ins := Inserted(old(table), user.RowAt(old(table).nextId));
        if ins.Ok? then thrown.None? && table == ins.value && user.id == Some(old(table).nextId)
        else thrown == Some(ins.error) && table == old(table) && user.id.None?
    {
      if user.id.Some? {
        table := Updated(table, user.Row());
        thrown := None;
      } else {
        var key := table.nextId;
        var ins := Inserted(table, user.RowAt(key));
        if ins.Ok? {
          table := ins.value;
          user.id := Some(key);
          thrown := None;
        } else {
          thrown := Some(ins.error);
        }
      }
    }
  }
}
