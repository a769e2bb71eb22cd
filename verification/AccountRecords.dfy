/** When each account operation succeeds, field by field what it writes, and
    what a row says of the operations behind it (auth/auth.go). The conditions
    speak of the table before the operation and of nothing else. */
module AccountRecords {

  import opened Wrappers
  import opened Accounts

  /** Both tables say the same of every other account. */
  predicate SameElsewhere(before: Db, after: Db, name: Name) {
    after.users - {name} == before.users - {name}
  }

  /** No account but this one is an administrator, and it is. */
  predicate OnlyAdmin(db: Db, name: Name) {
    name in db.users && db.users[name].role.Admin? && forall n :: n in db.users && n != name ==> !db.users[n].role.Admin?
  }

  /** The event finds the table as it must. */
  predicate Succeeds(db: Db, e: Event) {
    match e
    case Create(name, p, _, role) => name != "" && 12 <= p.bytes <= 72 && p.runes >= 12 && !role.Other? && name !in db.users
    case Setup(name, p, _) => name != "" && 12 <= p.bytes <= 72 && p.runes >= 12 && db.users == map[]
    case ChangePassword(name, p, _) => 12 <= p.bytes <= 72 && p.runes >= 12 && name in db.users
    case ChangeRole(name, role) => name in db.users && !role.Other? && (OnlyAdmin(db, name) ==> role.Admin?)
    case Delete(name) => name in db.users && !OnlyAdmin(db, name)
    case Refresh(c, _) =>
      && c.name in db.users && !c.role.Other?
      && db.users[c.name].id == c.id && db.users[c.name].role == c.role && db.users[c.name].version == c.version
    case _ => true
  }

  /** The operation reports success. */
  predicate Answered(db: Db, e: Event) {
    match e
    case Create(name, p, hash, role) => CreateUser(db, name, p, hash, role).1.Ok?
    case Setup(name, p, hash) => CreateFirstAdmin(db, name, p, hash).1.Ok?
    case ChangePassword(name, p, hash) => SetPassword(db, name, p, hash).1.None?
    case ChangeRole(name, role) => SetRole(db, name, role).1.None?
    case Delete(name) => DeleteUser(db, name).1.None?
    case Refresh(c, expires) => RefreshToken(db, c, expires).1.Ok?
    case _ => true
  }

  lemma OnlyAdminByCount(db: Db, name: Name)
    ensures IsLastAdmin(db, name) <==> OnlyAdmin(db, name)
  {
    if name in Admins(db) {
      if |Admins(db)| <= 1 {
        assert Admins(db) - {name} == {} by {
          assert |Admins(db) - {name}| == 0;
        }
        forall n | n in db.users && n != name ensures !db.users[n].role.Admin? {
          assert n !in Admins(db) - {name};
        }
      }
      if OnlyAdmin(db, name) {
        assert Admins(db) == {name};
      }
    }
  }

  /** An operation reports success if and only if the table allows it, and
      otherwise leaves the table alone. */
  lemma AnsweredExactly(db: Db, e: Event)
    ensures Answered(db, e) <==> Succeeds(db, e)
    ensures !Succeeds(db, e) ==> NextDb(db, e) == db
  {
    match e
    case ChangeRole(name, _) => OnlyAdminByCount(db, name);
    case Delete(name) => OnlyAdminByCount(db, name);
    case Setup(_, _, _) => assert |db.users| == 0 <==> db.users == map[];
    case _ =>
  }

  /** The account an event is about. */
  function Subject(e: Event): Name {
    match e
    case Create(name, _, _, _) => name
    case Setup(name, _, _) => name
    case ChangePassword(name, _, _) => name
    case ChangeRole(name, _) => name
    case Delete(name) => name
    case Read(name) => name
    case Issue(user, _) => user.name
    case Refresh(c, _) => c.name
  }

  predicate Wrote(after: Db, name: Name, row: Row) {
    name in after.users && after.users[name] == row
  }

  /** Field by field, what a successful operation leaves of its account. */
  lemma WritesExactly(db: Db, e: Event)
    requires Succeeds(db, e)
    ensures var after, name := NextDb(db, e), Subject(e);
            && SameElsewhere(db, after, name)
            && after.nextId == db.nextId + (if e.Create? || e.Setup? then 1 else 0)
            && (e.Create? ==> Wrote(after, name, Row(db.nextId, e.hash, e.role, 1)))
            && (e.Setup? ==> Wrote(after, name, Row(db.nextId, e.hash, Admin, 1)))
            && (e.Delete? ==> name !in after.users)
            && (e.Read? || e.Issue? ==> after == db)
            && (e.ChangePassword? || e.ChangeRole? || e.Refresh? ==>
                  var row := db.users[name];
                  Wrote(after, name, Row(row.id, if e.ChangePassword? then e.hash else row.hash,
                                         if e.ChangeRole? then e.role else row.role, row.version + 1)))
  {
    AnsweredExactly(db, e);
  }

  /** What a successful operation answers is the row it left. */
  lemma AnswersTheRow(db: Db, e: Event)
    requires Succeeds(db, e)
    ensures var after := NextDb(db, e);
            && (e.Create? ==> CreateUser(db, e.name, e.password, e.hash, e.role).1 == Ok(User(db.nextId, e.name, e.role, 1)))
            && (e.Setup? ==> CreateFirstAdmin(db, e.name, e.password, e.hash).1 == Ok(User(db.nextId, e.name, Admin, 1)))
            && (e.Refresh? ==> var r := RefreshToken(db, e.claims, e.expires).1;
                  r == Ok(Claims(e.claims.id, e.claims.name, e.claims.role, after.users[e.claims.name].version, e.expires)))
  {
    AnsweredExactly(db, e);
  }

  /** A token is accepted if and only if it is unexpired and its row says the
      same of id, role and version; tokens are issued for valid roles alone. */
  lemma VerifiesExactly(db: Db, claims: Claims, now: int, user: User, expires: int)
    ensures VerifyToken(db, claims, now).Ok? <==>
              && now < claims.expires && (claims.role.Admin? || claims.role.Editor?) && claims.name in db.users
              && db.users[claims.name].id == claims.id && db.users[claims.name].role == claims.role
              && db.users[claims.name].version == claims.version
    ensures VerifyToken(db, claims, now).Ok? ==> VerifyToken(db, claims, now).value == claims
    ensures IssueToken(user, expires).Ok? <==> !user.role.Other?
    ensures IssueToken(user, expires).Ok? ==> IssueToken(user, expires).value == Claims(user.id, user.name, user.role, user.version, expires)
  {}

  // ---- over runs ----

  /** The k-th event succeeded, in the state the run had by then. */
  predicate Done(s: State, events: seq<Event>, k: nat)
    requires k < |events|
  {
    Succeeds(Run(s, events[..k]).db, events[k])
  }

  /** It stored a hash for the account. */
  predicate StoresHash(s: State, events: seq<Event>, k: nat, name: Name) {
    k < |events| && (events[k].Create? || events[k].Setup? || events[k].ChangePassword?) && events[k].name == name && Done(s, events, k)
  }

  predicate StoresRole(s: State, events: seq<Event>, k: nat, name: Name) {
    k < |events| && (events[k].Create? || events[k].Setup? || events[k].ChangeRole?) && events[k].name == name && Done(s, events, k)
  }

  predicate Deletes(s: State, events: seq<Event>, k: nat, name: Name) {
    k < |events| && events[k].Delete? && events[k].name == name && Done(s, events, k)
  }

  /** The k-th event stored the account's hash, and none after it did or deleted the account. */
  predicate LastHash(s: State, events: seq<Event>, k: nat, name: Name) {
    StoresHash(s, events, k, name) && forall m :: k < m < |events| ==> !StoresHash(s, events, m, name) && !Deletes(s, events, m, name)
  }

  predicate LastRole(s: State, events: seq<Event>, k: nat, name: Name) {
    StoresRole(s, events, k, name) && forall m :: k < m < |events| ==> !StoresRole(s, events, m, name) && !Deletes(s, events, m, name)
  }

  function RoleGiven(e: Event): Role
    requires e.Create? || e.Setup? || e.ChangeRole?
  {
    if e.Setup? then Admin else e.role
  }

  /** One step, seen from one account. */
  lemma StepOnAccount(s: State, e: Event, name: Name)
    ensures var before, after := s.db.users, Next(s, e).db.users;
            && (Succeeds(s.db, e) && Subject(e) == name && (e.Create? || e.Setup? || e.ChangePassword?) ==>
                  name in after && after[name].hash == e.hash)
            && (Succeeds(s.db, e) && Subject(e) == name && (e.Create? || e.Setup? || e.ChangeRole?) ==>
                  name in after && after[name].role == RoleGiven(e))
            && (Succeeds(s.db, e) && Subject(e) == name && e.Delete? ==> name !in after)
            && (!(Succeeds(s.db, e) && Subject(e) == name && (e.Create? || e.Setup? || e.ChangePassword? || e.Delete?)) ==>
                  (name in after <==> name in before) && (name in before ==> after[name].hash == before[name].hash))
            && (!(Succeeds(s.db, e) && Subject(e) == name && (e.Create? || e.Setup? || e.ChangeRole? || e.Delete?)) ==>
                  (name in after <==> name in before) && (name in before ==> after[name].role == before[name].role))
  {
    AnsweredExactly(s.db, e);
    var after := NextDb(s.db, e);
    if Succeeds(s.db, e) {
      WritesExactly(s.db, e);
      if Subject(e) != name {
        assert name in after.users <==> name in after.users - {Subject(e)};
        assert name in s.db.users <==> name in s.db.users - {Subject(e)};
        assert name in after.users ==> after.users[name] == (after.users - {Subject(e)})[name];
        assert name in s.db.users ==> s.db.users[name] == (s.db.users - {Subject(e)})[name];
      }
    }
  }

  lemma Earlier(s: State, events: seq<Event>, k: nat, name: Name)
    requires k < |events| - 1
    ensures var init := events[..|events| - 1];
            && (StoresHash(s, init, k, name) <==> StoresHash(s, events, k, name))
            && (StoresRole(s, init, k, name) <==> StoresRole(s, events, k, name))
            && (Deletes(s, init, k, name) <==> Deletes(s, events, k, name))
  {
    assert events[..|events| - 1][..k] == events[..k];
  }

  /** An account's stored hash is the one given by its last successful creation
      or password change. */
  lemma {:induction false} HashIsTheLastGiven(s: State, events: seq<Event>, k: nat, name: Name)
    requires LastHash(s, events, k, name)
    ensures name in Run(s, events).db.users && Run(s, events).db.users[name].hash == events[k].hash
  {
    var n := |events| - 1;
    var init := events[..n];
    StepOnAccount(Run(s, init), events[n], name);
    if k < n {
      forall m | k <= m < n ensures m > k ==> !StoresHash(s, init, m, name) && !Deletes(s, init, m, name) {
        Earlier(s, events, m, name);
      }
      Earlier(s, events, k, name);
      HashIsTheLastGiven(s, init, k, name);
      assert !StoresHash(s, events, n, name) && !Deletes(s, events, n, name);
    }
  }

  /** And its role is the one given by its last successful creation or role change. */
  lemma {:induction false} RoleIsTheLastGiven(s: State, events: seq<Event>, k: nat, name: Name)
    requires LastRole(s, events, k, name)
    ensures name in Run(s, events).db.users && Run(s, events).db.users[name].role == RoleGiven(events[k])
  {
    var n := |events| - 1;
    var init := events[..n];
    StepOnAccount(Run(s, init), events[n], name);
    if k < n {
      forall m | k <= m < n ensures m > k ==> !StoresRole(s, init, m, name) && !Deletes(s, init, m, name) {
        Earlier(s, events, m, name);
      }
      Earlier(s, events, k, name);
      RoleIsTheLastGiven(s, init, k, name);
      assert !StoresRole(s, events, n, name) && !Deletes(s, events, n, name);
    }
  }

  /** Every account of the table has such an event, or was there from the start
      with the hash it has. */
  lemma {:induction false} EveryHashWasGiven(s: State, events: seq<Event>, name: Name)
    requires name in Run(s, events).db.users
    ensures || (exists k :: LastHash(s, events, k, name))
            || (name in s.db.users && Run(s, events).db.users[name].hash == s.db.users[name].hash)
  {
    if events != [] {
      var n := |events| - 1;
      var init := events[..n];
      StepOnAccount(Run(s, init), events[n], name);
      if StoresHash(s, events, n, name) {
        assert LastHash(s, events, n, name);
      } else {
        assert !Deletes(s, events, n, name);
        EveryHashWasGiven(s, init, name);
        if k: nat :| LastHash(s, init, k, name) {
          StaysLast(s, events, k, name);
        }
      }
    }
  }

  lemma StaysLast(s: State, events: seq<Event>, k: nat, name: Name)
    requires events != [] && LastHash(s, events[..|events| - 1], k, name)
    requires !StoresHash(s, events, |events| - 1, name) && !Deletes(s, events, |events| - 1, name)
    ensures LastHash(s, events, k, name)
  {
    forall m | k <= m < |events| - 1 ensures m > k ==> !StoresHash(s, events, m, name) && !Deletes(s, events, m, name) {
      Earlier(s, events, m, name);
    }
    Earlier(s, events, k, name);
  }

  // ---- signing in ----

  /** bcrypt's comparison of a stored hash with a password, as a parameter. */
  type Comparison = (nat, Password) -> bool

  function Authenticate(db: Db, name: Name, password: Password, opens: Comparison): Result<User, Error> {
    if name !in db.users then Err(InvalidCreds)
    else if !opens(db.users[name].hash, password) then Err(InvalidCreds)
    else if !ValidRole(db.users[name].role) then Err(InvalidCreds)
    else Ok(UserOf(name, db.users[name]))
  }

  predicate ValidRoles(db: Db) {
    forall n :: n in db.users ==> ValidRole(db.users[n].role)
  }

  lemma {:induction false} RolesStayValid(s: State, events: seq<Event>)
    requires ValidRoles(s.db)
    ensures ValidRoles(Run(s, events).db)
  {
    if events != [] {
      var init, last := events[..|events| - 1], events[|events| - 1];
      RolesStayValid(s, init);
      AnsweredExactly(Run(s, init).db, last);
      forall n | n in Run(s, events).db.users ensures ValidRole(Run(s, events).db.users[n].role) {
        StepOnAccount(Run(s, init), last, n);
      }
    }
  }

  /** Over every run the password of an account's last successful creation or
      password change opens the account, and no other does, in particular none
      given before it. */
  lemma LastPasswordOpens(s: State, events: seq<Event>, k: nat, name: Name, password: Password, opens: Comparison)
    requires ValidRoles(s.db) && LastHash(s, events, k, name)
    requires forall p: Password :: opens(events[k].hash, p) <==> p == events[k].password
    ensures var r := Authenticate(Run(s, events).db, name, password, opens);
            && (r.Ok? <==> password == events[k].password)
            && (r.Ok? ==> Run(s, events).db.users[name] == Row(r.value.id, events[k].hash, r.value.role, r.value.version) && r.value.name == name)
  {
    HashIsTheLastGiven(s, events, k, name);
    RolesStayValid(s, events);
  }

  /** A deleted account is not opened by any password. */
  lemma DeletedOpensNothing(s: State, events: seq<Event>, name: Name, password: Password, opens: Comparison)
    requires events != [] && Deletes(s, events, |events| - 1, name)
    ensures Authenticate(Run(s, events).db, name, password, opens) == Err(InvalidCreds)
  {
    StepOnAccount(Run(s, events[..|events| - 1]), events[|events| - 1], name);
  }
}
