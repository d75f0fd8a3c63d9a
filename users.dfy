/** The user table and the two user endpoints: registration stores the password's
    hash, and lookup by id answers 404 when no row has that id. */
module Users {
  import opened Wrappers
  import opened Uuids
  import opened Http
  import opened Models
  import Schemas

  /** `query.filter(cond).first()`: the index of the first row, in insertion order, that
      satisfies `cond`. */
  function FirstMatch(rows: seq<User>, cond: User -> bool): (r: Option<nat>)
    ensures r.Some? ==> r.value < |rows| && cond(rows[r.value])
    ensures r.Some? ==> forall j :: 0 <= j < r.value ==> !cond(rows[j])
    ensures r.None? <==> forall j :: 0 <= j < |rows| ==> !cond(rows[j])
  {
    if rows == [] then None
    else if cond(rows[0]) then Some(0)
    else
      match FirstMatch(rows[1..], cond)
      case Some(i) => Some(i + 1)
      case None => None
  }

  /** A row appended after rows none of which satisfies `cond` is the first match. */
  lemma {:induction false} FirstMatchAppended(rows: seq<User>, u: User, cond: User -> bool)
    requires forall j :: 0 <= j < |rows| ==> !cond(rows[j])
    requires cond(u)
    ensures FirstMatch(rows + [u], cond) == Some(|rows|)
  {
    var all := rows + [u];
    assert all[|rows|] == u;
  }

  class UserStore {
    /** The rows of "users" in insertion order. */
    var rows: seq<User>

    constructor ()
      ensures rows == []
    {
      rows := [];
    }

    /** `create_user`: replaces the payload's password by its hash, then inserts one row
        with the generated id `newId` and the database's current time `now`, and returns
        it. Hashing is the parameter `hashPassword`. */
    method CreateUser(user: Schemas.UserCreate, hashPassword: string -> string, newId: Uuid, now: int)
      returns (newUser: User)
      modifies this
      ensures newUser == User(newId, user.email, hashPassword(user.password), now)
      ensures rows == old(rows) + [newUser]
    {
      var payload := user;
      payload := payload.(password := hashPassword(payload.password));
      newUser := User(newId, payload.email, payload.password, now);
      rows := rows + [newUser];
    }

    /** `get_user(id)` with the path text `id`: PostgreSQL refuses to compare a text that
        does not spell a UUID with the uuid column (a 500 for the client); otherwise the
        first row with that id, or 404 naming the path text as given. */
    function GetUser(id: string): (r: Result<User, Exception>)
      reads this
      ensures Parse(id).None? ==> r == Err(DatabaseError("invalid input syntax for type uuid: \"" + id + "\""))
      ensures r.Ok? <==> Parse(id).Some? && exists i :: 0 <= i < |rows| && rows[i].id == Parse(id).value
      ensures r.Ok? ==> r.value in rows && Parse(id) == Some(r.value.id)
      ensures Parse(id).Some? && r.Err? ==>
                r.error == HTTPException(HTTP_404_NOT_FOUND, "User with id: " + id + " was not found", map[])
    {
      match Parse(id)
      case None => Err(DatabaseError("invalid input syntax for type uuid: \"" + id + "\""))
      case Some(key) =>
        match FirstMatch(rows, (u: User) => u.id == key)
        case Some(i) => Ok(rows[i])
        case None => Err(HTTPException(HTTP_404_NOT_FOUND, "User with id: " + id + " was not found", map[]))
    }
  }

  /** A user registered with an id no earlier row has is what looking up `str` of that id
      finds. */
  lemma RegisteredUserFound(store: UserStore, before: seq<User>, newUser: User)
    requires store.rows == before + [newUser]
    requires forall j :: 0 <= j < |before| ==> before[j].id != newUser.id
    ensures store.GetUser(Format(newUser.id)) == Ok(newUser)
  {
    ParseFormat(newUser.id);
    FirstMatchAppended(before, newUser, (u: User) => u.id == newUser.id);
  }
}
