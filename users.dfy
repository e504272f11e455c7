/** User accounts: usernames are unique, and a password is stored only as its hash. */
module Users {
  import opened Types
  import opened Db
  import opened Query

  /** `UserCreate`. */
  datatype UserCreate = UserCreate(username: string, displayName: string, discordId: Option<string>, role: Role,
                                   teamId: Option<int>, password: string)

  /** `UserUpdate`: the username cannot be changed; a nullable column may be set to None. */
  datatype UserUpdate = UserUpdate(displayName: Field<string>, discordId: Field<Option<string>>, role: Field<Role>,
                                   teamId: Field<Option<int>>, password: Field<string>)

  /** No two users share a username (the column's `unique=True`). */
  predicate UsernamesUnique(users: map<int, User>) {
    forall a, b :: a in users && b in users && users[a].username == users[b].username ==> a == b
  }

  predicate UsernameTaken(users: map<int, User>, username: string) {
    exists k :: k in users && users[k].username == username
  }

  /** The new row: the password goes through `hash`; the team tag is left unset. */
  function NewUser(data: UserCreate, hash: string -> string): User {
    User(data.username, hash(data.password), data.displayName, data.discordId, data.role, None, data.teamId)
  }

  /** The row `update_user` writes: each field the request sets, a password as its hash. */
  function ApplyUserUpdate(u: User, data: UserUpdate, hash: string -> string): User {
    User(u.username,
         if data.password.SetTo? then hash(data.password.value) else u.passwordHash,
         Patch(data.displayName, u.displayName), Patch(data.discordId, u.discordId), Patch(data.role, u.role),
         u.teamTag, Patch(data.teamId, u.teamId))
  }

  /** An update never changes the username; a sent password is stored only as its hash,
      and an update without a password keeps the stored hash. */
  lemma UpdateKeepsIdentity(u: User, data: UserUpdate, hash: string -> string)
    ensures ApplyUserUpdate(u, data, hash).username == u.username
    ensures data.password.SetTo? ==> ApplyUserUpdate(u, data, hash).passwordHash == hash(data.password.value)
    ensures data.password.Unset? ==> ApplyUserUpdate(u, data, hash).passwordHash == u.passwordHash
    ensures data == UserUpdate(Unset, Unset, Unset, Unset, Unset) ==> ApplyUserUpdate(u, data, hash) == u
  {
  }

  lemma InsertKeepsUnique(users: map<int, User>, id: int, u: User)
    requires id !in users && UsernamesUnique(users) && !UsernameTaken(users, u.username)
    ensures UsernamesUnique(users[id := u])
  {
  }

  /** A row replaced by one with the same username keeps usernames unique. */
  lemma SameUsernameKeepsUnique(users: map<int, User>, id: int, u: User)
    requires id in users && UsernamesUnique(users) && u.username == users[id].username
    ensures UsernamesUnique(users[id := u])
  {
    var after := users[id := u];
    forall a, b | a in after && b in after && after[a].username == after[b].username ensures a == b {
      assert after[a].username == users[a].username && after[b].username == users[b].username;
    }
  }

  function OfUsername(username: string): User -> bool {
    (u: User) => u.username == username
  }

  /** `create_user` (admin only): 400 for a username already in use, leaving the users as
      they were; otherwise the new row, with the password's hash, under a fresh id.
      Usernames stay unique. */
  method CreateUser(db: Store, caller: User, data: UserCreate, hash: string -> string) returns (r: Result<int>)
    requires caller.role == Admin && db.Valid()
    modifies db`users, db`nextId
    ensures db.Valid()
    ensures UsernameTaken(old(db.users), data.username) ==> r == BadRequest && db.users == old(db.users)
    ensures !UsernameTaken(old(db.users), data.username) ==>
      r.Ok? && r.value !in old(db.users) && db.users == old(db.users)[r.value := NewUser(data, hash)]
      && db.users[r.value].passwordHash == hash(data.password)
    ensures UsernamesUnique(old(db.users)) ==> UsernamesUnique(db.users)
  {
    var same := SelectKeys(db.users, OfUsername(data.username));
    if same != [] {
      InSetMultiset(same, Where(db.users, OfUsername(data.username)), same[0]);
      return BadRequest;
    }
    forall k | k in db.users ensures db.users[k].username != data.username {
      InSetMultiset(same, Where(db.users, OfUsername(data.username)), k);
    }
    var id := db.NewId();
    if UsernamesUnique(db.users) {
      InsertKeepsUnique(db.users, id, NewUser(data, hash));
    }
    db.users := db.users[id := NewUser(data, hash)];
    return Ok(id);
  }

  /** `update_user` (admin only): 404 for a missing id; otherwise only that user changes,
      in the fields the request sets. Usernames stay unique. */
  method UpdateUser(db: Store, caller: User, id: int, data: UserUpdate, hash: string -> string) returns (r: Result<User>)
    requires caller.role == Admin
    modifies db`users
    ensures id !in old(db.users) ==> r == NotFound && db.users == old(db.users)
    ensures id in old(db.users) ==>
      db.users == old(db.users)[id := ApplyUserUpdate(old(db.users)[id], data, hash)] && r == Ok(db.users[id])
    ensures UsernamesUnique(old(db.users)) ==> UsernamesUnique(db.users)
  {
    if id !in db.users {
      return NotFound;
    }
    var updated := ApplyUserUpdate(db.users[id], data, hash);
    if UsernamesUnique(db.users) {
      SameUsernameKeepsUnique(db.users, id, updated);
    }
    db.users := db.users[id := updated];
    return Ok(updated);
  }

  /** `delete_user` (admin only): 404 for a missing id; otherwise that user alone is
      removed. */
  method DeleteUser(db: Store, caller: User, id: int) returns (r: Result<()>)
    requires caller.role == Admin
    modifies db`users
    ensures id !in old(db.users) ==> r == NotFound && db.users == old(db.users)
    ensures id in old(db.users) ==> r == Ok(()) && db.users == old(db.users) - {id}
    ensures UsernamesUnique(old(db.users)) ==> UsernamesUnique(db.users)
  {
    if id !in db.users {
      return NotFound;
    }
    db.users := db.users - {id};
    return Ok(());
  }
}
