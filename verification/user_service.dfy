/** UserService: registration with its validation rules, role and partial
    profile updates, and the user queries. The password encoder is a
    parameter: whatever function the application configures. */
module UserService {
  import opened Common
  import opened Tables
  import opened Entities
  import opened Store

  type UserEntity = (Id, UserRow)

  /** The shortest password registration accepts. */
  const MinPasswordLength: nat := 6

  /** The validation of `registerUser`, first failing check first. */
  function RegistrationError(user: Option<UserRow>): (r: Option<Invalid>)
    ensures user.None? <==> r == Some(NullUser)
    ensures r == Some(BlankUsername) <==> user.Some? && NullOrBlank(user.value.username)
    ensures r == Some(BlankEmail) <==>
      user.Some? && !NullOrBlank(user.value.username) && NullOrBlank(user.value.email)
    ensures r == Some(BlankPassword) <==>
      user.Some? && !NullOrBlank(user.value.username) && !NullOrBlank(user.value.email)
      && NullOrBlank(user.value.password)
    ensures r == Some(ShortPassword) <==>
      user.Some? && !NullOrBlank(user.value.username) && !NullOrBlank(user.value.email)
      && !NullOrBlank(user.value.password) && |user.value.password.value| < MinPasswordLength
    ensures r.None? <==>
      user.Some? && !NullOrBlank(user.value.username) && !NullOrBlank(user.value.email)
      && !NullOrBlank(user.value.password) && |user.value.password.value| >= MinPasswordLength
  {
    if user.None? then Some(NullUser)
    else if NullOrBlank(user.value.username) then Some(BlankUsername)
    else if NullOrBlank(user.value.email) then Some(BlankEmail)
    else if NullOrBlank(user.value.password) then Some(BlankPassword)
    else if |user.value.password.value| < MinPasswordLength then Some(ShortPassword)
    else None
  }

  /** The length rule counts the raw password, blanks included: a password
      of six chars is accepted as soon as one of them is not whitespace. */
  lemma PaddedPasswordAccepted(u: UserRow, raw: string)
    requires !NullOrBlank(u.username) && !NullOrBlank(u.email)
    requires |raw| >= MinPasswordLength && !IsTrimmable(raw[0])
    ensures RegistrationError(Some(u.(password := Some(raw)))).None?
  {
    BlankIffAllTrimmable(raw);
  }

  /** `registerUser`: rejects an invalid user; otherwise saves it with the
      encoder's output in place of the raw password. */
  method RegisterUser(db: Database, user: Option<UserRow>, encode: string -> string) returns (r: Result<UserEntity>)
    requires db.Valid()
    modifies db`users
    ensures db.Valid()
    ensures RegistrationError(user).Some? ==>
      r == Err(IllegalArgument(RegistrationError(user).value)) && db.users == old(db.users)
    ensures RegistrationError(user).None? ==>
      && r == Ok((old(db.users.nextId), user.value.(password := Some(encode(user.value.password.value)))))
      && db.users == old(db.users).Insert(r.value.1)
  {
    var invalid := RegistrationError(user);
    if invalid.Some? {
      return Err(IllegalArgument(invalid.value));
    }
    var row := user.value.(password := Some(encode(user.value.password.value)));
    var id := db.users.nextId;
    UsersChanged(db.products, db.users, db.orders, db.payments, db.carts, db.paymentLog, db.users.Insert(row));
    db.CommitUsers(db.users.Insert(row));
    r := Ok((id, row));
  }

  /** `getUserById` */
  function GetUserById(users: Table<UserRow>, id: Id): (r: Option<UserRow>)
    ensures r.Some? <==> id in users.rows
    ensures r.Some? ==> r.value == users.rows[id]
  {
    users.Get(id)
  }

  /** `getAllUsers` */
  function GetAllUsers(users: Table<UserRow>): (r: seq<UserEntity>)
    requires users.Valid()
    ensures |r| == |users.rows| && Distinct(r)
    ensures forall e :: e in r <==> e.0 in users.rows && users.rows[e.0] == e.1
  {
    SizeIsIdCount(users);
    users.All()
  }

  /** `updateUserRole`: fails for an unknown user; otherwise only the role
      changes (a null role included). */
  method UpdateUserRole(db: Database, userId: Id, newRole: Option<Role>) returns (r: Result<UserEntity>)
    requires db.Valid()
    modifies db`users
    ensures db.Valid()
    ensures userId !in old(db.users.rows) ==> r == Err(UserNotFound(userId)) && db.users == old(db.users)
    ensures userId in old(db.users.rows) ==>
      && r == Ok((userId, old(db.users.rows[userId]).(role := newRole)))
      && db.users == old(db.users).Put(userId, r.value.1)
  {
    var found := db.users.Get(userId);
    if found.None? {
      return Err(UserNotFound(userId));
    }
    var user := found.value.(role := newRole);
    UsersChanged(db.products, db.users, db.orders, db.payments, db.carts, db.paymentLog, db.users.Put(userId, user));
    db.CommitUsers(db.users.Put(userId, user));
    r := Ok((userId, user));
  }

  /** `getUsersByRole`: exactly the users holding `role`, in store order. */
  function GetUsersByRole(users: Table<UserRow>, role: Option<Role>): (r: seq<UserEntity>)
    requires users.Valid()
    ensures Distinct(r) && Subsequence(r, users.All())
    ensures forall e :: e in r <==> e.0 in users.rows && users.rows[e.0] == e.1 && e.1.role == role
  {
    Where(users, (e: UserEntity) => e.1.role == role)
  }

  /** The stored user after `updateUser`: username, email and role are
      replaced by non-null values; the password, encoded, only by a non-null
      non-blank one. */
  function Merged(user: UserRow, details: UserRow, encode: string -> string): (r: UserRow)
    ensures r.username == if details.username.Some? then details.username else user.username
    ensures r.email == if details.email.Some? then details.email else user.email
    ensures r.role == if details.role.Some? then details.role else user.role
    ensures r.password == if NullOrBlank(details.password) then user.password
                          else Some(encode(details.password.value))
  {
    UserRow(
      if details.username.Some? then details.username else user.username,
      if details.email.Some? then details.email else user.email,
      if !NullOrBlank(details.password) then Some(encode(details.password.value)) else user.password,
      if details.role.Some? then details.role else user.role)
  }

  /** Details with every field null change nothing. */
  lemma EmptyDetailsKeepUser(user: UserRow, encode: string -> string)
    ensures Merged(user, UserRow(None, None, None, None), encode) == user
  {
  }

  /** Unlike registration, an update stores a blank username or email as
      given. */
  lemma UpdateKeepsBlankNames(user: UserRow, blank: string, encode: string -> string)
    requires IsBlank(blank)
    ensures var m := Merged(user, UserRow(Some(blank), Some(blank), None, None), encode);
      NullOrBlank(m.username) && NullOrBlank(m.email)
      && RegistrationError(Some(m)) == Some(BlankUsername)
  {
  }

  /** `updateUser`: fails for an unknown user; otherwise the merged user is
      saved. */
  method UpdateUser(db: Database, userId: Id, details: UserRow, encode: string -> string) returns (r: Result<UserEntity>)
    requires db.Valid()
    modifies db`users
    ensures db.Valid()
    ensures userId !in old(db.users.rows) ==> r == Err(UserNotFound(userId)) && db.users == old(db.users)
    ensures userId in old(db.users.rows) ==>
      && r == Ok((userId, Merged(old(db.users.rows[userId]), details, encode)))
      && db.users == old(db.users).Put(userId, r.value.1)
  {
    var found := db.users.Get(userId);
    if found.None? {
      return Err(UserNotFound(userId));
    }
    var user := found.value;
    if details.username.Some? {
      user := user.(username := details.username);
    }
    if details.email.Some? {
      user := user.(email := details.email);
    }
    if details.password.Some? && !IsBlank(details.password.value) {
      user := user.(password := Some(encode(details.password.value)));
    }
    if details.role.Some? {
      user := user.(role := details.role);
    }
    UsersChanged(db.products, db.users, db.orders, db.payments, db.carts, db.paymentLog, db.users.Put(userId, user));
    db.CommitUsers(db.users.Put(userId, user));
    r := Ok((userId, user));
  }
}
