/** Accounts and the tokens issued for them (auth/auth.go). */
module Accounts {

  import opened Wrappers

  /** Any role string outside the closed vocabulary is Other. */
  datatype Role = Editor | Admin | Other

  /** A user name, already trimmed. */
  type Name = string

  /** A password by its length in bytes and in runes; text stands for its content. */
  datatype Password = Password(text: nat, bytes: nat, runes: nat)

  datatype Row = Row(id: nat, hash: nat, role: Role, version: int)

  /** The users table by its unique name; nextId is the AUTOINCREMENT counter. */
  datatype Db = Db(users: map<Name, Row>, nextId: nat)

  datatype User = User(id: nat, name: Name, role: Role, version: int)

  datatype Claims = Claims(id: nat, name: Name, role: Role, version: int, expires: int)

  datatype Error = Missing | WeakPassword | InvalidRole | UserExists | SetupComplete | UserNotFound | LastAdmin | InvalidCreds

  predicate Strong(password: Password) {
    12 <= password.bytes <= 72 && password.runes >= 12
  }

  predicate ValidRole(role: Role) {
    role.Editor? || role.Admin?
  }

  /** The names of the administrators. */
  function Admins(db: Db): set<Name> {
    set n | n in db.users && db.users[n].role.Admin?
  }

  // ---- operations, each one transaction ----

  function CredentialError(name: Name, password: Password): Option<Error> {
    if name == "" || password.bytes == 0 then Some(Missing)
    else if !Strong(password) then Some(WeakPassword) else None
  }

  function Inserted(db: Db, name: Name, hash: nat, role: Role): Db {
    Db(db.users[name := Row(db.nextId, hash, role, 1)], db.nextId + 1)
  }

  function NewUser(db: Db, name: Name, role: Role): User {
    User(db.nextId, name, role, 1)
  }

  function CreateUser(db: Db, name: Name, password: Password, hash: nat, role: Role): (Db, Result<User, Error>) {
    if CredentialError(name, password).Some? then (db, Err(CredentialError(name, password).value))
    else if !ValidRole(role) then (db, Err(InvalidRole))
    else if name in db.users then (db, Err(UserExists))
    else (Inserted(db, name, hash, role), Ok(NewUser(db, name, role)))
  }

  function CreateFirstAdmin(db: Db, name: Name, password: Password, hash: nat): (Db, Result<User, Error>) {
    if CredentialError(name, password).Some? then (db, Err(CredentialError(name, password).value))
    else if |db.users| != 0 then (db, Err(SetupComplete))
    else (Inserted(db, name, hash, Admin), Ok(NewUser(db, name, Admin)))
  }

  /** One row rewritten, its version raised. */
  function Revised(db: Db, name: Name, row: Row): Db
    requires name in db.users
  {
    db.(users := db.users[name := row.(version := db.users[name].version + 1)])
  }

  function SetPassword(db: Db, name: Name, password: Password, hash: nat): (Db, Option<Error>) {
    if password.bytes == 0 then (db, Some(Missing))
    else if !Strong(password) then (db, Some(WeakPassword))
    else if name !in db.users then (db, Some(UserNotFound))
    else (Revised(db, name, db.users[name].(hash := hash)), None)
  }

  /** guardLastAdmin. */
  predicate IsLastAdmin(db: Db, name: Name) {
    name in db.users && db.users[name].role.Admin? && |Admins(db)| <= 1
  }

  function SetRole(db: Db, name: Name, role: Role): (Db, Option<Error>) {
    if !ValidRole(role) then (db, Some(InvalidRole))
    else if !role.Admin? && IsLastAdmin(db, name) then (db, Some(LastAdmin))
    else if name !in db.users then (db, Some(UserNotFound))
    else (Revised(db, name, db.users[name].(role := role)), None)
  }

  function DeleteUser(db: Db, name: Name): (Db, Option<Error>) {
    if IsLastAdmin(db, name) then (db, Some(LastAdmin))
    else if name !in db.users then (db, Some(UserNotFound))
    else (db.(users := db.users - {name}), None)
  }

  /** The row a token names carries exactly what the token carries. */
  predicate Current(db: Db, claims: Claims) {
    && claims.name in db.users
    && var row := db.users[claims.name];
       row.id == claims.id && row.role == claims.role && row.version == claims.version && ValidRole(row.role)
  }

  /** VerifyToken on a token with a good signature. */
  function VerifyToken(db: Db, claims: Claims, now: int): Result<Claims, Error> {
    if now >= claims.expires || !ValidRole(claims.role) || !Current(db, claims) then Err(InvalidCreds) else Ok(claims)
  }

  function IssueToken(user: User, expires: int): Result<Claims, Error> {
    if !ValidRole(user.role) then Err(InvalidRole) else Ok(Claims(user.id, user.name, user.role, user.version, expires))
  }

  function RefreshToken(db: Db, claims: Claims, expires: int): (Db, Result<Claims, Error>) {
    if !ValidRole(claims.role) || !Current(db, claims) then (db, Err(InvalidCreds))
    else (Revised(db, claims.name, db.users[claims.name]), Ok(claims.(version := claims.version + 1, expires := expires)))
  }

  // ---- runs ----

  /** Beside the database: every user value read so far, every token issued, and
      the claims of each successful refresh. */
  datatype State = State(db: Db, seen: set<User>, tokens: set<Claims>, refreshed: seq<Claims>)

  datatype Event =
    | Create(name: Name, password: Password, hash: nat, role: Role)
    | Setup(name: Name, password: Password, hash: nat)
    | ChangePassword(name: Name, password: Password, hash: nat)
    | ChangeRole(name: Name, role: Role)
    | Delete(name: Name)
    | Read(name: Name)
    | Issue(user: User, expires: int)
    | Refresh(claims: Claims, expires: int)

  function UserOf(name: Name, row: Row): User {
    User(row.id, name, row.role, row.version)
  }

  function NextDb(db: Db, e: Event): Db {
    match e
    case Create(name, password, hash, role) => CreateUser(db, name, password, hash, role).0
    case Setup(name, password, hash) => CreateFirstAdmin(db, name, password, hash).0
    case ChangePassword(name, password, hash) => SetPassword(db, name, password, hash).0
    case ChangeRole(name, role) => SetRole(db, name, role).0
    case Delete(name) => DeleteUser(db, name).0
    case Refresh(claims, expires) => RefreshToken(db, claims, expires).0
    case _ => db
  }

  /** Users come from rows read, or from creating them. */
  function SeenBy(db: Db, e: Event): set<User> {
    match e
    case Create(name, password, hash, role) =>
      var r := CreateUser(db, name, password, hash, role).1; if r.Ok? then {r.value} else {}
    case Setup(name, password, hash) =>
      var r := CreateFirstAdmin(db, name, password, hash).1; if r.Ok? then {r.value} else {}
    case Read(name) => if name in db.users then {UserOf(name, db.users[name])} else {}
    case _ => {}
  }

  /** Tokens are issued for users read before, or refreshed from issued tokens. */
  function TokensBy(s: State, e: Event): set<Claims> {
    match e
    case Issue(user, expires) =>
      var r := IssueToken(user, expires); if user in s.seen && r.Ok? then {r.value} else {}
    case Refresh(claims, expires) =>
      var r := RefreshToken(s.db, claims, expires).1; if claims in s.tokens && r.Ok? then {r.value} else {}
    case _ => {}
  }

  predicate Refreshes(s: State, e: Event) {
    e.Refresh? && e.claims in s.tokens && RefreshToken(s.db, e.claims, e.expires).1.Ok?
  }

  function Next(s: State, e: Event): State {
    if e.Refresh? && e.claims !in s.tokens then s
    else State(NextDb(s.db, e), s.seen + SeenBy(s.db, e), s.tokens + TokensBy(s, e),
               if Refreshes(s, e) then s.refreshed + [e.claims] else s.refreshed)
  }

  function Run(s: State, events: seq<Event>): State {
    if events == [] then s else Next(Run(s, events[..|events| - 1]), events[|events| - 1])
  }

  // ---- invariant ----

  predicate DbInv(db: Db) {
    && (forall n :: n in db.users ==> db.users[n].id < db.nextId)
    && (forall m, n :: m in db.users && n in db.users && db.users[m].id == db.users[n].id ==> m == n)
  }

  /** What a user value or a token says of an account is at most the present:
      the row it names is as it says, has a higher version, or is gone for good. */
  predicate NotAhead(db: Db, id: nat, name: Name, role: Role, version: int) {
    && id < db.nextId
    && (forall n :: n in db.users && db.users[n].id == id ==>
          n == name && version <= db.users[n].version && (version == db.users[n].version ==> role == db.users[n].role))
  }

  predicate Inv(s: State) {
    && DbInv(s.db)
    && (forall u :: u in s.seen ==> NotAhead(s.db, u.id, u.name, u.role, u.version))
    && (forall c :: c in s.tokens ==> NotAhead(s.db, c.id, c.name, c.role, c.version))
  }

  /** Nothing outside the database yet. */
  predicate Init(s: State) {
    DbInv(s.db) && s.seen == {} && s.tokens == {} && s.refreshed == []
  }

  // ---- what one transaction does to one account ----

  /** The row with this id is untouched, rewritten with a higher version, or gone. */
  predicate Moves(before: Db, after: Db) {
    && before.nextId <= after.nextId
    && (forall n :: n in after.users && after.users[n].id < before.nextId ==>
          && n in before.users && before.users[n].id == after.users[n].id
          && (after.users[n] == before.users[n] || after.users[n].version > before.users[n].version))
  }

  lemma InsertedMoves(db: Db, name: Name, hash: nat, role: Role)
    requires DbInv(db) && name !in db.users
    ensures Moves(db, Inserted(db, name, hash, role)) && DbInv(Inserted(db, name, hash, role))
  {}

  lemma RevisedMoves(db: Db, name: Name, row: Row)
    requires DbInv(db) && name in db.users && row.id == db.users[name].id
    ensures Moves(db, Revised(db, name, row)) && DbInv(Revised(db, name, row))
  {}

  predicate Keeps(before: Db, after: Db) {
    Moves(before, after) && DbInv(after)
  }

  lemma CreateMoves(db: Db, name: Name, password: Password, hash: nat, role: Role)
    requires DbInv(db)
    ensures Keeps(db, CreateUser(db, name, password, hash, role).0)
  {
    if name !in db.users {
      InsertedMoves(db, name, hash, role);
    }
  }

  lemma SetupMoves(db: Db, name: Name, password: Password, hash: nat)
    requires DbInv(db)
    ensures Keeps(db, CreateFirstAdmin(db, name, password, hash).0)
  {
    if name !in db.users {
      InsertedMoves(db, name, hash, Admin);
    }
  }

  lemma ChangePasswordMoves(db: Db, name: Name, password: Password, hash: nat)
    requires DbInv(db)
    ensures Keeps(db, SetPassword(db, name, password, hash).0)
  {
    if name in db.users {
      RevisedMoves(db, name, db.users[name].(hash := hash));
    }
  }

  lemma ChangeRoleMoves(db: Db, name: Name, role: Role)
    requires DbInv(db)
    ensures Keeps(db, SetRole(db, name, role).0)
  {
    if name in db.users {
      RevisedMoves(db, name, db.users[name].(role := role));
    }
  }

  lemma DeleteMoves(db: Db, name: Name)
    requires DbInv(db)
    ensures Keeps(db, DeleteUser(db, name).0)
  {}

  lemma RefreshMoves(db: Db, claims: Claims, expires: int)
    requires DbInv(db)
    ensures Keeps(db, RefreshToken(db, claims, expires).0)
  {
    if claims.name in db.users {
      RevisedMoves(db, claims.name, db.users[claims.name]);
    }
  }

  /** Every transaction leaves each account as it was, raises its version, or
      ends it; ids are never used again. */
  lemma EventMoves(db: Db, e: Event)
    requires DbInv(db)
    ensures Keeps(db, NextDb(db, e))
  {
    match e
    case Create(name, password, hash, role) => CreateMoves(db, name, password, hash, role);
    case Setup(name, password, hash) => SetupMoves(db, name, password, hash);
    case ChangePassword(name, password, hash) => ChangePasswordMoves(db, name, password, hash);
    case ChangeRole(name, role) => ChangeRoleMoves(db, name, role);
    case Delete(name) => DeleteMoves(db, name);
    case Refresh(claims, expires) => RefreshMoves(db, claims, expires);
    case _ =>
  }

  lemma MovesKeepNotAhead(before: Db, after: Db, id: nat, name: Name, role: Role, version: int)
    requires Moves(before, after) && NotAhead(before, id, name, role, version)
    ensures NotAhead(after, id, name, role, version)
  {}

  lemma ReadIsNotAhead(db: Db, name: Name)
    requires DbInv(db) && name in db.users
    ensures var row := db.users[name]; NotAhead(db, row.id, name, row.role, row.version)
  {}

  lemma InsertedIsNotAhead(db: Db, name: Name, hash: nat, role: Role)
    requires DbInv(db)
    ensures NotAhead(Inserted(db, name, hash, role), db.nextId, name, role, 1)
  {}

  lemma RefreshedIsNotAhead(db: Db, claims: Claims)
    requires DbInv(db) && Current(db, claims)
    ensures NotAhead(Revised(db, claims.name, db.users[claims.name]), claims.id, claims.name, claims.role, claims.version + 1)
  {}

  lemma SeenIsNotAhead(db: Db, e: Event, u: User)
    requires DbInv(db) && u in SeenBy(db, e)
    ensures NotAhead(NextDb(db, e), u.id, u.name, u.role, u.version)
  {
    match e
    case Create(name, password, hash, role) => InsertedIsNotAhead(db, name, hash, role);
    case Setup(name, password, hash) => InsertedIsNotAhead(db, name, hash, Admin);
    case Read(name) => ReadIsNotAhead(db, name);
    case _ =>
  }

  lemma TokenIsNotAhead(s: State, e: Event, c: Claims)
    requires Inv(s) && c in TokensBy(s, e)
    ensures NotAhead(NextDb(s.db, e), c.id, c.name, c.role, c.version)
  {
    match e
    case Issue(user, expires) => assert NotAhead(s.db, user.id, user.name, user.role, user.version);
    case Refresh(claims, expires) => RefreshedIsNotAhead(s.db, claims);
    case _ =>
  }

  lemma NextKeepsInv(s: State, e: Event)
    requires Inv(s)
    ensures Inv(Next(s, e))
  {
    var next := Next(s, e);
    EventMoves(s.db, e);
    if next != s {
      forall u | u in next.seen ensures NotAhead(next.db, u.id, u.name, u.role, u.version) {
        if u in s.seen {
          MovesKeepNotAhead(s.db, next.db, u.id, u.name, u.role, u.version);
        } else {
          SeenIsNotAhead(s.db, e, u);
        }
      }
      forall c | c in next.tokens ensures NotAhead(next.db, c.id, c.name, c.role, c.version) {
        if c in s.tokens {
          MovesKeepNotAhead(s.db, next.db, c.id, c.name, c.role, c.version);
        } else {
          TokenIsNotAhead(s, e, c);
        }
      }
    }
  }

  /** Over every run nothing said of an account runs ahead of its row; tokens
      stay issued and ids only grow. */
  lemma {:induction false} RunKeepsInv(s: State, events: seq<Event>)
    requires Inv(s)
    ensures Inv(Run(s, events)) && s.tokens <= Run(s, events).tokens && s.db.nextId <= Run(s, events).db.nextId
  {
    if events != [] {
      TokensStay(Run(s, events[..|events| - 1]), events[|events| - 1]);
      RunKeepsInv(s, events[..|events| - 1]);
      NextKeepsInv(Run(s, events[..|events| - 1]), events[|events| - 1]);
    }
  }

  // ---- main results ----

  /** A token that is good after a transaction was good before it. */
  lemma CurrentWasCurrent(before: Db, after: Db, claims: Claims)
    requires Moves(before, after) && NotAhead(before, claims.id, claims.name, claims.role, claims.version)
    requires Current(after, claims)
    ensures Current(before, claims)
  {}

  lemma TokensStay(s: State, e: Event)
    ensures s.tokens <= Next(s, e).tokens && s.db.nextId <= Next(s, e).db.nextId
  {}

  lemma {:induction false} DeadStaysDead(s: State, claims: Claims, later: seq<Event>)
    requires Inv(s) && claims in s.tokens && !Current(s.db, claims)
    ensures !Current(Run(s, later).db, claims) && claims in Run(s, later).tokens
  {
    if later != [] {
      var before, e := later[..|later| - 1], later[|later| - 1];
      DeadStaysDead(s, claims, before);
      RunKeepsInv(s, before);
      EventMoves(Run(s, before).db, e);
      TokensStay(Run(s, before), e);
      if Next(Run(s, before), e).db == NextDb(Run(s, before).db, e) {
        if Current(NextDb(Run(s, before).db, e), claims) {
          CurrentWasCurrent(Run(s, before).db, NextDb(Run(s, before).db, e), claims);
        }
      }
    }
  }

  /** A token that is refused while unexpired is refused for ever: whatever
      passwords, roles, deletions, recreated names and refreshes come later, and
      whatever the clock then says. That includes a token issued from an outdated
      user value, refused from the moment it is issued. */
  lemma RefusedTokenStaysRefused(s: State, events: seq<Event>, later: seq<Event>, claims: Claims, now: int, afterwards: int)
    requires Init(s) && claims in Run(s, events).tokens && now < claims.expires
    requires VerifyToken(Run(s, events).db, claims, now).Err?
    ensures VerifyToken(Run(Run(s, events), later).db, claims, afterwards).Err?
  {
    RunKeepsInv(s, events);
    DeadStaysDead(Run(s, events), claims, later);
  }

  /** Rows with this id are past this version. */
  predicate Past(db: Db, id: nat, version: int) {
    id < db.nextId && forall n :: n in db.users && db.users[n].id == id ==> db.users[n].version > version
  }

  predicate RefreshesInv(s: State) {
    && (forall i :: 0 <= i < |s.refreshed| ==> Past(s.db, s.refreshed[i].id, s.refreshed[i].version))
    && (forall i, j :: 0 <= i < j < |s.refreshed| ==>
          s.refreshed[i].id != s.refreshed[j].id || s.refreshed[i].version != s.refreshed[j].version)
  }

  lemma PastStays(before: Db, after: Db, id: nat, version: int)
    requires Moves(before, after) && Past(before, id, version)
    ensures Past(after, id, version)
  {}

  lemma RefreshedIsPast(db: Db, claims: Claims, expires: int)
    requires DbInv(db) && RefreshToken(db, claims, expires).1.Ok?
    ensures Past(RefreshToken(db, claims, expires).0, claims.id, claims.version)
  {}

  lemma NextKeepsRefreshes(s: State, e: Event)
    requires Inv(s) && RefreshesInv(s)
    ensures RefreshesInv(Next(s, e))
  {
    var next := Next(s, e);
    EventMoves(s.db, e);
    if next != s {
      forall i | 0 <= i < |s.refreshed| ensures Past(next.db, s.refreshed[i].id, s.refreshed[i].version) {
        PastStays(s.db, next.db, s.refreshed[i].id, s.refreshed[i].version);
      }
      if Refreshes(s, e) {
        RefreshedIsPast(s.db, e.claims, e.expires);
        forall i | 0 <= i < |s.refreshed|
          ensures s.refreshed[i].id != e.claims.id || s.refreshed[i].version != e.claims.version
        {
          assert Past(s.db, s.refreshed[i].id, s.refreshed[i].version);
        }
      }
    }
  }

  /** At most one refresh succeeds for an account and version. */
  lemma {:induction false} OneRefreshPerVersion(s: State, events: seq<Event>)
    requires Init(s)
    ensures RefreshesInv(Run(s, events))
  {
    if events != [] {
      var before := events[..|events| - 1];
      OneRefreshPerVersion(s, before);
      RunKeepsInv(s, before);
      NextKeepsRefreshes(Run(s, before), events[|events| - 1]);
    }
  }

  /** A refresh makes its successor good and every earlier token of the account bad. */
  lemma RefreshReplacesTheToken(db: Db, claims: Claims, expires: int, earlier: Claims)
    requires DbInv(db) && RefreshToken(db, claims, expires).1.Ok?
    requires NotAhead(db, earlier.id, earlier.name, earlier.role, earlier.version) && earlier.id == claims.id
    ensures var (after, r) := RefreshToken(db, claims, expires);
            Current(after, r.value) && !Current(after, earlier)
  {
    assert db.users[claims.name].id == claims.id;
  }

  // ---- administrators ----

  lemma InsertedKeepsAdmins(db: Db, name: Name, hash: nat, role: Role)
    requires name !in db.users
    ensures Admins(db) <= Admins(Inserted(db, name, hash, role))
  {}

  lemma RevisedKeepsAdmins(db: Db, name: Name, row: Row)
    requires name in db.users && row.role == db.users[name].role
    ensures Admins(db) == Admins(Revised(db, name, row))
  {}

  /** A demoted or deleted account that is not the last administrator leaves another. */
  lemma AnotherAdmin(db: Db, name: Name, after: Db)
    requires Admins(db) != {} && !IsLastAdmin(db, name) && name in db.users
    requires after.users.Keys >= db.users.Keys - {name}
    requires forall n :: n in db.users && n != name ==> after.users[n] == db.users[n]
    ensures Admins(after) != {}
  {
    var others := Admins(db) - {name};
    if others == {} {
      assert Admins(db) <= {name};
      SmallSet(Admins(db), name);
    } else {
      var n :| n in others;
      assert n in Admins(after);
    }
  }

  lemma SmallSet(names: set<Name>, name: Name)
    requires names <= {name} && names != {}
    ensures |names| == 1 && name in names
  {
    var n :| n in names;
    assert names == {n};
  }

  lemma AdminsStep(db: Db, e: Event)
    requires Admins(db) != {}
    ensures Admins(NextDb(db, e)) != {}
  {
    match e
    case Create(name, password, hash, role) => if name !in db.users { InsertedKeepsAdmins(db, name, hash, role); }
    case Setup(name, password, hash) => if name !in db.users { InsertedKeepsAdmins(db, name, hash, Admin); }
    case ChangePassword(name, password, hash) => if name in db.users { RevisedKeepsAdmins(db, name, db.users[name].(hash := hash)); }
    case ChangeRole(name, role) => RoleKeepsAdmins(db, name, role);
    case Delete(name) =>
      if name in db.users && !IsLastAdmin(db, name) {
        AnotherAdmin(db, name, db.(users := db.users - {name}));
      }
    case Refresh(claims, expires) => if claims.name in db.users { RevisedKeepsAdmins(db, claims.name, db.users[claims.name]); }
    case _ =>
  }

  lemma RoleKeepsAdmins(db: Db, name: Name, role: Role)
    requires Admins(db) != {}
    ensures Admins(SetRole(db, name, role).0) != {}
  {
    if name in db.users {
      var after := Revised(db, name, db.users[name].(role := role));
      if role.Admin? {
        assert name in Admins(after);
      } else if !IsLastAdmin(db, name) {
        AnotherAdmin(db, name, after);
      }
    }
  }

  /** Once there is an administrator there always is one, so the first-admin
      setup never succeeds again. */
  lemma {:induction false} AnAdminRemains(s: State, events: seq<Event>, name: Name, password: Password, hash: nat)
    requires Admins(s.db) != {}
    ensures Admins(Run(s, events).db) != {}
    ensures CreateFirstAdmin(Run(s, events).db, name, password, hash).1.Err?
  {
    if events != [] {
      var before := Run(s, events[..|events| - 1]);
      AnAdminRemains(s, events[..|events| - 1], name, password, hash);
      AdminsStep(before.db, events[|events| - 1]);
    }
    var n :| n in Admins(Run(s, events).db);
    assert n in Run(s, events).db.users;
  }

  /** Setup succeeds exactly on an empty table with acceptable credentials, and
      leaves one administrator. */
  lemma SetupSucceedsExactlyOnce(db: Db, name: Name, password: Password, hash: nat)
    ensures var (after, r) := CreateFirstAdmin(db, name, password, hash);
            && (r.Ok? <==> db.users == map[] && name != "" && Strong(password))
            && (r.Ok? ==> Admins(after) == {name} && Current(after, Claims(r.value.id, name, Admin, 1, 0)))
            && (r.Err? ==> after == db)
  {}
}
