/** The settings table and the cache that must agree with it (config/config.go). */
module SettingsTable {

  import opened Wrappers
  import opened Settings

  // ---- reading rows ----

  /** Encrypted rows are skipped when there is no master key. */
  predicate Skipped(env: Env, row: Row) {
    row.encrypted && !env.hasKey
  }

  function PlainText(env: Env, row: Row): Option<string> {
    if row.encrypted then env.decrypt(row.value) else Some(row.value)
  }

  predicate Readable(env: Env, row: Row) {
    !Skipped(env, row) && PlainText(env, row).Some?
  }

  function ValueOf(env: Env, key: Key, row: Row): string
    requires Readable(env, row)
  {
    Canonical(key, PlainText(env, row).value)
  }

  predicate RowOk(env: Env, key: Key, row: Row) {
    Skipped(env, row) || (PlainText(env, row).Some? && Valid(env, key, Canonical(key, PlainText(env, row).value)))
  }

  predicate TableOk(env: Env, table: Table) {
    forall k :: k in table ==> RowOk(env, k, table[k])
  }

  /** The decoded table. */
  function CacheOf(env: Env, table: Table): Cache {
    map k | k in table && Readable(env, table[k]) :: ValueOf(env, k, table[k])
  }

  function CanonicalRow(key: Key, row: Row): Row {
    if row.encrypted then row else Row(Canonical(key, row.value), false)
  }

  /** The table with every plaintext row in its canonical spelling. */
  function Canonized(table: Table): Table {
    map k | k in table :: CanonicalRow(k, table[k])
  }

  datatype State = State(table: Table, cache: Cache)

  /** Opening a table: None when a row cannot be decrypted or is not valid. */
  function Reload(env: Env, table: Table): Option<State> {
    if TableOk(env, table) then Some(State(Canonized(table), CacheOf(env, table))) else None
  }

  // ---- writing rows ----

  /** A submitted value can be stored: valid as given and as trimmed, for a known
      setting, and encrypted when it is a secret. */
  predicate Storable(env: Env, key: Key, value: string) {
    && Valid(env, key, value) && !key.UnknownKey? && Valid(env, key, Trim(value)) && (key.SecretKey? ==> env.hasKey)
  }

  function StoredRow(env: Env, key: Key, value: string, nonce: nat): Row {
    if key.SecretKey? then Row(env.encrypt(nonce, Trim(value)), true) else Row(Trim(value), false)
  }

  /** A patch: the submitted values, and the nonce each would be encrypted with. */
  datatype Patch = Patch(values: map<Key, string>, nonces: Key -> nat)

  function Rows(env: Env, patch: Patch, keys: set<Key>): Table
    requires keys <= patch.values.Keys
  {
    map k | k in keys :: StoredRow(env, k, patch.values[k], patch.nonces(k))
  }

  function Values(patch: Patch, keys: set<Key>): Cache
    requires keys <= patch.values.Keys
  {
    map k | k in keys :: Trim(patch.values[k])
  }

  predicate PatchOk(env: Env, patch: Patch, keys: set<Key>)
    requires keys <= patch.values.Keys
  {
    forall k :: k in keys ==> Storable(env, k, patch.values[k])
  }

  function Written(env: Env, s: State, patch: Patch, keys: set<Key>): State
    requires keys <= patch.values.Keys
  {
    State(s.table + Rows(env, patch, keys), s.cache + Values(patch, keys))
  }

  function SetMany(env: Env, s: State, patch: Patch): State {
    if PatchOk(env, patch, patch.values.Keys) then Written(env, s, patch, patch.values.Keys) else s
  }

  /** A blank value seeds nothing. */
  function Seeds(patch: Patch): set<Key> {
    set k | k in patch.values && Trim(patch.values[k]) != ""
  }

  function Absent(s: State, patch: Patch): set<Key> {
    set k | k in Seeds(patch) && k !in s.table
  }

  function SetManyIfAbsent(env: Env, s: State, patch: Patch): State {
    if PatchOk(env, patch, Seeds(patch)) then Written(env, s, patch, Absent(s, patch)) else s
  }

  // ---- the invariant ----

  /** The cache is the decoded table, every row is valid, every plaintext row canonical. */
  predicate Inv(env: Env, s: State) {
    && TableOk(env, s.table) && s.cache == CacheOf(env, s.table)
    && forall k :: k in s.table && !s.table[k].encrypted ==> Canonical(k, s.table[k].value) == s.table[k].value
  }

  /** What one stored row reads back as. */
  lemma StoredRowReads(env: Env, key: Key, value: string, nonce: nat)
    requires Lawful(env) && Storable(env, key, value)
    ensures var row := StoredRow(env, key, value, nonce);
            && RowOk(env, key, row) && Readable(env, row) && ValueOf(env, key, row) == Trim(value)
            && (!row.encrypted ==> Canonical(key, row.value) == row.value && Valid(env, key, row.value))
  {
    CanonicalKeepsMeaning(env, key, Trim(value));
  }

  predicate RowReads(env: Env, key: Key, row: Row, value: string) {
    && RowOk(env, key, row) && Readable(env, row) && ValueOf(env, key, row) == value
    && (!row.encrypted ==> Canonical(key, row.value) == row.value)
  }

  /** Rows that read back as these values extend table and cache alike. */
  lemma CacheOfMore(env: Env, table: Table, rows: Table, values: Cache)
    requires rows.Keys == values.Keys && forall k :: k in rows ==> Readable(env, rows[k]) && ValueOf(env, k, rows[k]) == values[k]
    ensures CacheOf(env, table + rows) == CacheOf(env, table) + values
  {}

  lemma RowsRead(env: Env, patch: Patch, keys: set<Key>)
    requires Lawful(env) && keys <= patch.values.Keys && PatchOk(env, patch, keys)
    ensures forall k :: k in keys ==> RowReads(env, k, Rows(env, patch, keys)[k], Values(patch, keys)[k])
  {
    forall k | k in keys ensures RowReads(env, k, Rows(env, patch, keys)[k], Values(patch, keys)[k]) {
      StoredRowReads(env, k, patch.values[k], patch.nonces(k));
    }
  }

  lemma WrittenKeepsInv(env: Env, s: State, patch: Patch, keys: set<Key>)
    requires Lawful(env) && Inv(env, s) && keys <= patch.values.Keys && PatchOk(env, patch, keys)
    ensures Inv(env, Written(env, s, patch, keys))
  {
    var rows, values := Rows(env, patch, keys), Values(patch, keys);
    RowsRead(env, patch, keys);
    MoreKeepsInv(env, s, rows, values);
  }

  lemma MoreKeepsInv(env: Env, s: State, rows: Table, values: Cache)
    requires Inv(env, s) && rows.Keys == values.Keys && forall k :: k in rows ==> RowReads(env, k, rows[k], values[k])
    ensures Inv(env, State(s.table + rows, s.cache + values))
  {
    CacheOfMore(env, s.table, rows, values);
  }

  lemma AbsentIsOk(env: Env, s: State, patch: Patch)
    requires PatchOk(env, patch, Seeds(patch))
    ensures PatchOk(env, patch, Absent(s, patch))
  {}

  // ---- main results ----

  datatype Event = Write(patch: Patch) | Seed(patch: Patch)

  function Next(env: Env, s: State, e: Event): State {
    match e
    case Write(patch) => SetMany(env, s, patch)
    case Seed(patch) => SetManyIfAbsent(env, s, patch)
  }

  function Run(env: Env, s: State, events: seq<Event>): State {
    if events == [] then s else Next(env, Run(env, s, events[..|events| - 1]), events[|events| - 1])
  }

  /** Opening any acceptable table gives a cache equal to the table it leaves. */
  lemma ReloadEstablishes(env: Env, table: Table)
    requires Reload(env, table).Some?
    ensures Inv(env, Reload(env, table).value)
    ensures CacheOf(env, Canonized(table)) == CacheOf(env, table)
  {
    var after := Reload(env, table).value;
    forall k | k in table
      ensures RowOk(env, k, after.table[k])
      ensures Readable(env, after.table[k]) <==> Readable(env, table[k])
      ensures Readable(env, table[k]) ==> ValueOf(env, k, after.table[k]) == ValueOf(env, k, table[k])
      ensures !after.table[k].encrypted ==> Canonical(k, after.table[k].value) == after.table[k].value
    {
      assert RowOk(env, k, table[k]);
      CanonicalKeepsMeaning(env, k, table[k].value);
    }
  }

  /** Through any writes and seeds the cache equals the decoded table, and every
      stored value is valid and already canonical. */
  lemma {:induction false} CacheIsTheTable(env: Env, s: State, events: seq<Event>)
    requires Lawful(env) && Inv(env, s)
    ensures Inv(env, Run(env, s, events))
  {
    if events != [] {
      var before, e := Run(env, s, events[..|events| - 1]), events[|events| - 1];
      CacheIsTheTable(env, s, events[..|events| - 1]);
      match e
      case Write(patch) =>
        if PatchOk(env, patch, patch.values.Keys) {
          WrittenKeepsInv(env, before, patch, patch.values.Keys);
        }
      case Seed(patch) =>
        if PatchOk(env, patch, Seeds(patch)) {
          AbsentIsOk(env, before, patch);
          WrittenKeepsInv(env, before, patch, Absent(before, patch));
        }
    }
  }

  /** Reopening the table succeeds, rewrites nothing and gives the same cache. */
  lemma ReopenIsTheSame(env: Env, s: State, events: seq<Event>)
    requires Lawful(env) && Inv(env, s)
    ensures Reload(env, Run(env, s, events).table) == Some(Run(env, s, events))
  {
    CacheIsTheTable(env, s, events);
    var now := Run(env, s, events);
    forall k | k in now.table ensures CanonicalRow(k, now.table[k]) == now.table[k] {}
    assert Canonized(now.table) == now.table;
  }

  /** A write is all or nothing: every value trimmed and readable back, the other
      settings as before; or nothing changes, exactly when some value cannot be stored. */
  lemma WriteIsAllOrNothing(env: Env, s: State, patch: Patch, key: Key)
    requires Lawful(env) && Inv(env, s)
    ensures var after := SetMany(env, s, patch);
            if PatchOk(env, patch, patch.values.Keys) then
              if key in patch.values then key in after.cache && after.cache[key] == Trim(patch.values[key]) && key in after.table
              else (key in after.table <==> key in s.table) && (key in s.table ==> after.table[key] == s.table[key])
            else after == s
  {}

  /** A seed never touches a setting that has a row. */
  lemma SeedLeavesWhatIsThere(env: Env, s: State, patch: Patch, key: Key)
    requires key in s.table
    ensures var after := SetManyIfAbsent(env, s, patch);
            && key in after.table && after.table[key] == s.table[key]
            && (key in after.cache <==> key in s.cache) && (key in s.cache ==> after.cache[key] == s.cache[key])
  {}

  /** A seed fills exactly the settings that have no row and are given more than
      blanks, with the trimmed value; every other setting stays as it is. One
      value that cannot be stored, blank ones aside, refuses the whole seed. */
  lemma SeedFillsExactly(env: Env, s: State, patch: Patch, key: Key)
    requires Lawful(env)
    ensures var after := SetManyIfAbsent(env, s, patch);
            if exists k :: k in patch.values && Trim(patch.values[k]) != "" && !Storable(env, k, patch.values[k]) then after == s
            else if key in patch.values && Trim(patch.values[key]) != "" && key !in s.table then
              && key in after.table && RowReads(env, key, after.table[key], Trim(patch.values[key]))
              && key in after.cache && after.cache[key] == Trim(patch.values[key])
            else
              && (key in after.table <==> key in s.table) && (key in s.table ==> after.table[key] == s.table[key])
              && (key in after.cache <==> key in s.cache) && (key in s.cache ==> after.cache[key] == s.cache[key])
  {
    if PatchOk(env, patch, Seeds(patch)) {
      AbsentIsOk(env, s, patch);
      RowsRead(env, patch, Absent(s, patch));
    } else {
      var k :| k in Seeds(patch) && !Storable(env, k, patch.values[k]);
      assert k in patch.values && Trim(patch.values[k]) != "";
    }
  }

  /** Rows under secret keys are encrypted, and no others are. */
  predicate Sealed(table: Table) {
    forall k :: k in table ==> (table[k].encrypted <==> k.SecretKey?)
  }

  /** No run of writes and seeds stores a secret in plain text, or encrypts
      anything else; nor does opening the table again. */
  lemma {:induction false} SecretsStaySealed(env: Env, s: State, events: seq<Event>)
    requires Sealed(s.table)
    ensures Sealed(Run(env, s, events).table) && Sealed(Canonized(Run(env, s, events).table))
  {
    if events != [] {
      SecretsStaySealed(env, s, events[..|events| - 1]);
    }
  }
}
