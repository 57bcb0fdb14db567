/**
 * The users table behind the auth handlers, reached through three queries.
 * Rows are kept in id order, so "the first row with this email" is well defined
 * even though no uniqueness of emails is enforced here.
 */
module UserModel {
  import opened Wrappers

  /** A stored user; `password` holds the bcrypt hash, and `role` a column the token reads if present. */
  datatype UserRow = UserRow(id: int, username: string, email: string, password: string, role: Option<string>)

  /** A user as `SELECT id, username, email` returns it: no password. */
  datatype PublicUser = PublicUser(id: int, username: string, email: string)

  function Public(u: UserRow): PublicUser
  {
    PublicUser(u.id, u.username, u.email)
  }

  /** `SELECT * FROM users WHERE email = ?`, first row. */
  function FindUserByEmail(users: seq<UserRow>, email: string): (r: Option<UserRow>)
    ensures r.Some? ==> r.value in users && r.value.email == email
    ensures r.None? <==> forall i :: 0 <= i < |users| ==> users[i].email != email
    ensures r.Some? ==> exists i :: 0 <= i < |users| && users[i] == r.value &&
                                   forall j :: 0 <= j < i ==> users[j].email != email
  {
    if users == [] then None
    else if users[0].email == email then Some(users[0])
    else
      var r := FindUserByEmail(users[1..], email);
      if r.Some? then
        var i :| 0 <= i < |users[1..]| && users[1..][i] == r.value &&
                 forall j :: 0 <= j < i ==> users[1..][j].email != email;
        assert users[i + 1] == r.value;
        r
      else r
  }

  /**
   * `SELECT id, username, email FROM users`: every user in order, without passwords.
   * The `store_id` argument is bound to no placeholder, so it filters nothing.
   */
  function GetAllUsers(users: seq<UserRow>, storeId: int): (r: seq<PublicUser>)
    ensures |r| == |users|
    ensures forall i :: 0 <= i < |r| ==> r[i] == Public(users[i])
  {
    if users == [] then [] else [Public(users[0])] + GetAllUsers(users[1..], storeId)
  }

  /** The listing is the same whatever store id is asked for. */
  lemma GetAllUsersIgnoresStore(users: seq<UserRow>, a: int, b: int)
    ensures GetAllUsers(users, a) == GetAllUsers(users, b)
  {
  }

  class UserTable {
    var users: seq<UserRow>
    var nextId: int

    /** Ids are positive, strictly increasing in row order, and below the next one to be assigned. */
    ghost predicate Valid()
      reads this
    {
      && nextId >= 1
      && (forall i :: 0 <= i < |users| ==> 1 <= users[i].id < nextId)
      && (forall i, j :: 0 <= i < j < |users| ==> users[i].id < users[j].id)
    }

    constructor ()
      ensures Valid() && users == [] && nextId == 1
    {
      users := [];
      nextId := 1;
    }

    /** `INSERT INTO users (username, email, password)`: appends exactly one row holding the given hash. */
    method CreateUser(username: string, email: string, hashedPassword: string) returns (insertId: int)
      requires Valid()
      modifies this
      ensures Valid()
      ensures insertId == old(nextId)
      ensures users == old(users) + [UserRow(insertId, username, email, hashedPassword, None)]
      ensures forall i :: 0 <= i < |old(users)| ==> old(users)[i].id != insertId
    {
      insertId := nextId;
      users := users + [UserRow(insertId, username, email, hashedPassword, None)];
      nextId := nextId + 1;
    }
  }
}
