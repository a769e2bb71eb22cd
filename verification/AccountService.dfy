/** The account operations on the users table, as transactions run them (auth/auth.go). */
module AccountService {

  import opened Wrappers
  import opened Accounts
  import opened AccountRecords

  class Auth {
    var users: map<Name, Row>
    var nextId: nat

    ghost function Table(): Db
      reads this
    {
      Db(users, nextId)
    }

    /** An insert: the row gets the next id, never used before. */
    method Insert(name: Name, hash: nat, role: Role) returns (user: User)
      requires name !in users && DbInv(Table())
      modifies this
      ensures Table() == Inserted(old(Table()), name, hash, role) && user == NewUser(old(Table()), name, role)
      ensures DbInv(Table()) && forall n :: n in old(users) ==> old(users)[n].id != user.id
    {
      InsertedMoves(Table(), name, hash, role);
      user := User(nextId, name, role, 1);
      users := users[name := Row(nextId, hash, role, 1)];
      nextId := nextId + 1;
    }

    method CreateUserAccount(name: Name, password: Password, hash: nat, role: Role) returns (r: Result<User, Error>)
      requires DbInv(Table())
      modifies this
      ensures (Table(), r) == CreateUser(old(Table()), name, password, hash, role) && DbInv(Table())
      ensures r.Ok? <==> name != "" && 12 <= password.bytes <= 72 && password.runes >= 12 && !role.Other? && name !in old(users)
      ensures r.Ok? ==> r.value == User(old(nextId), name, role, 1) && nextId == old(nextId) + 1
                        && users == old(users)[name := Row(old(nextId), hash, role, 1)]
      ensures r.Err? ==> Table() == old(Table())
      ensures forall claims :: Current(old(Table()), claims) ==> Current(Table(), claims) && (r.Ok? ==> claims.id != r.value.id)
    {
      if name == "" || password.bytes == 0 {
        return Err(Missing);
      }
      if !Strong(password) {
        return Err(WeakPassword);
      }
      if !ValidRole(role) {
        return Err(InvalidRole);
      }
      if name in users {
        return Err(UserExists);
      }
      var user := Insert(name, hash, role);
      r := Ok(user);
    }

    method SetUp(name: Name, password: Password, hash: nat) returns (r: Result<User, Error>)
      requires DbInv(Table())
      modifies this
      ensures (Table(), r) == CreateFirstAdmin(old(Table()), name, password, hash) && DbInv(Table())
      ensures r.Ok? <==> name != "" && 12 <= password.bytes <= 72 && password.runes >= 12 && old(users) == map[]
      ensures r.Ok? ==> users == map[name := Row(old(nextId), hash, Admin, 1)] && nextId == old(nextId) + 1
                        && r.value == User(old(nextId), name, Admin, 1) && Admins(Table()) == {name}
      ensures r.Err? ==> Table() == old(Table())
    {
      if name == "" || password.bytes == 0 {
        return Err(Missing);
      }
      if !Strong(password) {
        return Err(WeakPassword);
      }
      var count := |users|;
      if count != 0 {
        return Err(SetupComplete);
      }
      var user := Insert(name, hash, Admin);
      r := Ok(user);
    }

    /** An update of one row that also raises its version; the number of rows changed. */
    method Update(name: Name, hash: Option<nat>, role: Option<Role>) returns (changed: nat)
      requires DbInv(Table())
      modifies this`users
      ensures changed == if name in old(users) then 1 else 0
      ensures changed == 0 ==> Table() == old(Table())
      ensures changed == 1 ==> var row := old(users)[name];
                Table() == Revised(old(Table()), name, Row(row.id, if hash.Some? then hash.value else row.hash,
                                                           if role.Some? then role.value else row.role, row.version))
      ensures DbInv(Table())
    {
      if name !in users {
        return 0;
      }
      var row := users[name];
      var newHash := if hash.Some? then hash.value else row.hash;
      var newRole := if role.Some? then role.value else row.role;
      RevisedMoves(Table(), name, Row(row.id, newHash, newRole, row.version));
      users := users[name := Row(row.id, newHash, newRole, row.version + 1)];
      changed := 1;
    }

    /** Of the tokens good before, exactly those of the account end. */
    method ChangeUserPassword(name: Name, password: Password, hash: nat) returns (error: Option<Error>)
      requires DbInv(Table())
      modifies this`users
      ensures (Table(), error) == SetPassword(old(Table()), name, password, hash) && DbInv(Table())
      ensures error.None? <==> 12 <= password.bytes <= 72 && password.runes >= 12 && name in old(users)
      ensures error.None? ==> var row := old(users)[name];
                users == old(users)[name := Row(row.id, hash, row.role, row.version + 1)]
      ensures error.Some? ==> users == old(users)
      ensures forall claims :: Current(old(Table()), claims) ==> (Current(Table(), claims) <==> error.Some? || claims.name != name)
    {
      if password.bytes == 0 {
        return Some(Missing);
      }
      if !Strong(password) {
        return Some(WeakPassword);
      }
      var changed := Update(name, Some(hash), None);
      error := if changed == 0 then Some(UserNotFound) else None;
    }

    /** guardLastAdmin, counting administrators one row at a time. */
    method GuardLastAdmin(name: Name) returns (refused: bool)
      ensures refused == IsLastAdmin(Table(), name) && (refused <==> OnlyAdmin(Table(), name))
    {
      OnlyAdminByCount(Table(), name);
      if name !in users || !users[name].role.Admin? {
        return false;
      }
      var pending, adminCount := users.Keys, 0;
      ghost var counted: set<Name> := {};
      while pending != {}
        invariant pending <= users.Keys && adminCount == |counted|
        invariant forall n :: n in counted <==> n in users && n !in pending && users[n].role.Admin?
        decreases pending
      {
        var n :| n in pending;
        pending := pending - {n};
        if users[n].role.Admin? {
          counted := counted + {n};
          adminCount := adminCount + 1;
        }
      }
      assert counted == Admins(Table());
      refused := adminCount <= 1;
    }

    method ChangeUserRole(name: Name, role: Role) returns (error: Option<Error>)
      requires DbInv(Table())
      modifies this`users
      ensures (Table(), error) == SetRole(old(Table()), name, role) && DbInv(Table())
      ensures error.None? <==> name in old(users) && !role.Other? && (old(OnlyAdmin(Table(), name)) ==> role.Admin?)
      ensures error.None? ==> var row := old(users)[name];
                users == old(users)[name := Row(row.id, row.hash, role, row.version + 1)]
      ensures error.Some? ==> users == old(users)
      ensures forall claims :: Current(old(Table()), claims) ==> (Current(Table(), claims) <==> error.Some? || claims.name != name)
      ensures old(Admins(Table())) != {} ==> Admins(Table()) != {}
    {
      if Admins(Table()) != {} {
        RoleKeepsAdmins(Table(), name, role);
      }
      OnlyAdminByCount(Table(), name);
      if !ValidRole(role) {
        return Some(InvalidRole);
      }
      if !role.Admin? {
        var refused := GuardLastAdmin(name);
        if refused {
          return Some(LastAdmin);
        }
      }
      var changed := Update(name, None, Some(role));
      error := if changed == 0 then Some(UserNotFound) else None;
    }

    method DeleteAccount(name: Name) returns (error: Option<Error>)
      requires DbInv(Table())
      modifies this`users
      ensures (Table(), error) == DeleteUser(old(Table()), name) && DbInv(Table())
      ensures error.None? <==> name in old(users) && !old(OnlyAdmin(Table(), name))
      ensures users == if error.None? then old(users) - {name} else old(users)
      ensures forall claims :: Current(old(Table()), claims) ==> (Current(Table(), claims) <==> error.Some? || claims.name != name)
      ensures old(Admins(Table())) != {} ==> Admins(Table()) != {}
    {
      if Admins(Table()) != {} {
        AdminsStep(Table(), Delete(name));
      }
      var refused := GuardLastAdmin(name);
      if refused {
        return Some(LastAdmin);
      }
      if name !in users {
        return Some(UserNotFound);
      }
      users := users - {name};
      error := None;
    }

    /** The guarded update consumes the version; the token is signed before commit. */
    method Refresh(claims: Claims, expires: int) returns (r: Result<Claims, Error>)
      requires DbInv(Table())
      modifies this`users
      ensures (Table(), r) == RefreshToken(old(Table()), claims, expires) && DbInv(Table())
      ensures r.Ok? <==> !claims.role.Other? && claims.name in old(users)
                         && var row := old(users)[claims.name];
                            row.id == claims.id && row.role == claims.role && row.version == claims.version
      ensures r.Ok? ==> Current(Table(), r.value) && r.value == Claims(claims.id, claims.name, claims.role, claims.version + 1, expires)
      ensures r.Ok? ==> var row := old(users)[claims.name];
                users == old(users)[claims.name := Row(row.id, row.hash, row.role, row.version + 1)]
      ensures r.Err? ==> users == old(users)
      ensures forall other :: Current(old(Table()), other) ==> (Current(Table(), other) <==> r.Err? || other.name != claims.name)
    {
      if !ValidRole(claims.role) || claims.name !in users {
        return Err(InvalidCreds);
      }
      var row := users[claims.name];
      if row.id != claims.id || row.role != claims.role || row.version != claims.version {
        return Err(InvalidCreds);
      }
      var changed := Update(claims.name, None, None);
      r := Ok(Claims(claims.id, claims.name, claims.role, claims.version + 1, expires));
    }

    /** Signing in; `opens` is the comparison of a stored hash with a password. */
    method LogIn(name: Name, password: Password, opens: Comparison) returns (r: Result<User, Error>)
      ensures r == Authenticate(Table(), name, password, opens)
    {
      if name !in users {
        return Err(InvalidCreds);
      }
      var row := users[name];
      if !opens(row.hash, password) || !ValidRole(row.role) {
        return Err(InvalidCreds);
      }
      r := Ok(User(row.id, name, row.role, row.version));
    }

    /** The row is looked up by id, then compared. */
    method Verify(claims: Claims, now: int) returns (r: Result<Claims, Error>)
      requires DbInv(Table())
      ensures r == VerifyToken(Table(), claims, now)
    {
      if now >= claims.expires || !ValidRole(claims.role) {
        return Err(InvalidCreds);
      }
      var pending := users.Keys;
      while pending != {}
        invariant pending <= users.Keys
        invariant forall n :: n in users && n !in pending ==> users[n].id != claims.id
        decreases pending
      {
        var n :| n in pending;
        if users[n].id == claims.id {
          var row := users[n];
          if !ValidRole(row.role) || n != claims.name || row.role != claims.role || row.version != claims.version {
            return Err(InvalidCreds);
          }
          return Ok(claims);
        }
        pending := pending - {n};
      }
      r := Err(InvalidCreds);
    }
  }
}
