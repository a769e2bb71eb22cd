/** The settings object: table, cache and the loops over a patch (config/config.go). */
module SettingsStore {

  import opened Wrappers
  import opened Settings
  import opened SettingsTable

  datatype Error = InvalidValue | UnknownSetting | NoMasterKey

  /** Some key; the order of a map's keys is not fixed. */
  method Pick(keys: set<Key>) returns (key: Key)
    requires keys != {}
    ensures key in keys
  {
    key :| key in keys;
  }

  class Config {
    const env: Env
    var table: Table
    var cache: Cache

    constructor (env: Env, table: Table)
      ensures this.env == env && this.table == table && cache == map[]
    {
      this.env, this.table, cache := env, table, map[];
    }

    ghost function Store(): State
      reads this
    {
      State(table, cache)
    }

    /** UPDATE of the plaintext rows whose spelling has changed. */
    method PersistCanonical(canonical: map<Key, string>)
      modifies this`table
      ensures table == map k | k in old(table) ::
                if k in canonical && !old(table)[k].encrypted then Row(canonical[k], false) else old(table)[k]
    {
      var pending := canonical.Keys;
      while pending != {}
        invariant pending <= canonical.Keys && table.Keys == old(table).Keys
        invariant forall k :: k in table ==>
          table[k] == if k in canonical && k !in pending && !old(table)[k].encrypted then Row(canonical[k], false) else old(table)[k]
        decreases pending
      {
        var key := Pick(pending);
        if key in table && !table[key].encrypted {
          table := table[key := Row(canonical[key], false)];
        }
        pending := pending - {key};
      }
    }

    /** The loop over the rows; None when one cannot be decrypted or is not valid. */
    method ReadRows() returns (r: Option<(Cache, map<Key, string>)>)
      ensures r.Some? <==> TableOk(env, table)
      ensures r.Some? ==> r.value.0 == CacheOf(env, table)
      ensures r.Some? ==> forall k :: k in table && !table[k].encrypted ==>
                (if k in r.value.1 then r.value.1[k] else table[k].value) == Canonical(k, table[k].value)
    {
      var read: Cache := map[];
      var canonical: map<Key, string> := map[];
      var pending := table.Keys;
      while pending != {}
        invariant pending <= table.Keys
        invariant forall k :: k in table && k !in pending ==> RowOk(env, k, table[k])
        invariant forall k :: k in read <==> k in table && k !in pending && Readable(env, table[k])
        invariant forall k :: k in read ==> read[k] == ValueOf(env, k, table[k])
        invariant canonical.Keys <= table.Keys - pending
        invariant forall k :: k in table && k !in pending && !table[k].encrypted ==>
          (if k in canonical then canonical[k] else table[k].value) == Canonical(k, table[k].value)
        decreases pending
      {
        var key := Pick(pending);
        pending := pending - {key};
        var row := table[key];
        if !Skipped(env, row) {
          var plain := PlainText(env, row);
          if plain.None? {
            return None;
          }
          var value := Canonical(key, plain.value);
          if value != plain.value {
            canonical := canonical[key := value];
          }
          if !Valid(env, key, value) {
            return None;
          }
          read := read[key := value];
        }
      }
      assert read == CacheOf(env, table);
      r := Some((read, canonical));
    }

    method LoadAll() returns (ok: bool)
      modifies this
      ensures ok <==> Reload(env, old(table)).Some?
      ensures ok ==> Store() == Reload(env, old(table)).value && Inv(env, Store())
      ensures !ok ==> Store() == old(Store())
    {
      var rows := ReadRows();
      if rows.None? {
        return false;
      }
      PersistCanonical(rows.value.1);
      assert table == Canonized(old(table));
      ReloadEstablishes(env, old(table));
      cache := rows.value.0;
      ok := true;
    }

    /** encodeSetting, after the value as given has been validated. */
    method Encode(key: Key, value: string, nonce: nat) returns (r: Result<Row, Error>)
      ensures r.Ok? <==> !key.UnknownKey? && Valid(env, key, Trim(value)) && (key.SecretKey? ==> env.hasKey)
      ensures r.Ok? ==> r.value == StoredRow(env, key, value, nonce)
    {
      var trimmed := Trim(value);
      if key.UnknownKey? {
        return Err(UnknownSetting);
      }
      if !Valid(env, key, trimmed) {
        return Err(InvalidValue);
      }
      if key.SecretKey? {
        if !env.hasKey {
          return Err(NoMasterKey);
        }
        return Ok(Row(env.encrypt(nonce, trimmed), true));
      }
      r := Ok(Row(trimmed, false));
    }

    /** One submitted value: validated as given, then encoded. */
    method EncodeOne(key: Key, value: string, nonce: nat) returns (r: Result<Row, Error>)
      ensures r.Ok? <==> Storable(env, key, value)
      ensures r.Ok? ==> r.value == StoredRow(env, key, value, nonce)
    {
      if !Valid(env, key, value) {
        return Err(InvalidValue);
      }
      r := Encode(key, value, nonce);
    }

    /** One turn of that loop. */
    method EncodeNext(patch: Patch, ghost done: set<Key>, key: Key, encoded: Table) returns (r: Result<Table, Error>)
      requires done + {key} <= patch.values.Keys && PatchOk(env, patch, done) && encoded == Rows(env, patch, done)
      ensures r.Ok? <==> PatchOk(env, patch, done + {key})
      ensures r.Ok? ==> r.value == Rows(env, patch, done + {key})
    {
      var row := EncodeOne(key, patch.values[key], patch.nonces(key));
      RowsMore(env, patch, done, key);
      if row.Err? {
        return Err(row.error);
      }
      r := Ok(encoded[key := row.value]);
    }

    /** The loop over the chosen values of a patch. */
    method EncodeAll(patch: Patch, keys: set<Key>) returns (r: Result<Table, Error>)
      requires keys <= patch.values.Keys
      ensures r.Ok? <==> PatchOk(env, patch, keys)
      ensures r.Ok? ==> r.value == Rows(env, patch, keys)
    {
      var encoded: Table := map[];
      var pending := keys;
      ghost var done: set<Key> := {};
      while pending != {}
        invariant done + pending == keys && done !! pending
        invariant PatchOk(env, patch, done) && encoded == Rows(env, patch, done)
        decreases pending
      {
        var key := Pick(pending);
        var next := EncodeNext(patch, done, key, encoded);
        if next.Err? {
          FewerAreOk(env, patch, keys, done + {key});
          return next;
        }
        encoded := next.value;
        pending, done := pending - {key}, done + {key};
      }
      assert done == keys;
      r := Ok(encoded);
    }

    /** SetMany: the rows in one transaction, then the cache. */
    method WriteMany(patch: Patch) returns (r: Result<nat, Error>)
      requires Lawful(env) && Inv(env, Store())
      modifies this
      ensures Store() == SetMany(env, old(Store()), patch) && Inv(env, Store())
      ensures r.Ok? <==> PatchOk(env, patch, patch.values.Keys)
      ensures r.Ok? ==> r.value == |patch.values|
    {
      var encoded := EncodeAll(patch, patch.values.Keys);
      if encoded.Err? {
        return Err(encoded.error);
      }
      WrittenKeepsInv(env, Store(), patch, patch.values.Keys);
      table := table + encoded.value;
      cache := cache + Values(patch, patch.values.Keys);
      assert |patch.values| == |patch.values.Keys|;
      r := Ok(|patch.values.Keys|);
    }

    /** INSERT OR IGNORE of each row; the keys that were new. */
    method InsertAbsent(rows: Table) returns (inserted: set<Key>)
      modifies this`table
      ensures inserted == set k | k in rows && k !in old(table)
      ensures table == old(table) + map k | k in inserted :: rows[k]
    {
      inserted := {};
      var pending := rows.Keys;
      while pending != {}
        invariant pending <= rows.Keys
        invariant forall k :: k in inserted <==> k in rows && k !in pending && k !in old(table)
        invariant table.Keys == old(table).Keys + inserted
        invariant forall k :: k in table ==> table[k] == if k in old(table) then old(table)[k] else rows[k]
        decreases pending
      {
        var key := Pick(pending);
        pending := pending - {key};
        if key !in table {
          table := table[key := rows[key]];
          inserted := inserted + {key};
        }
      }
    }

    /** SetManyIfAbsent: only what was inserted reaches the cache. */
    method SeedMany(patch: Patch) returns (r: Result<nat, Error>)
      requires Lawful(env) && Inv(env, Store())
      modifies this
      ensures Store() == SetManyIfAbsent(env, old(Store()), patch) && Inv(env, Store())
      ensures r.Ok? <==> PatchOk(env, patch, Seeds(patch))
      ensures r.Ok? ==> r.value == |Absent(old(Store()), patch)|
    {
      var encoded := EncodeAll(patch, Seeds(patch));
      if encoded.Err? {
        return Err(encoded.error);
      }
      SeedKeepsInv(env, Store(), patch);
      InsertedRows(env, Store(), patch, encoded.value);
      var inserted := InsertAbsent(encoded.value);
      cache := cache + Values(patch, inserted);
      r := Ok(|inserted|);
    }
  }

  lemma FewerAreOk(env: Env, patch: Patch, keys: set<Key>, fewer: set<Key>)
    requires fewer <= keys <= patch.values.Keys
    ensures PatchOk(env, patch, keys) ==> PatchOk(env, patch, fewer)
  {}

  lemma RowsMore(env: Env, patch: Patch, done: set<Key>, key: Key)
    requires done + {key} <= patch.values.Keys
    ensures Rows(env, patch, done + {key}) == Rows(env, patch, done)[key := StoredRow(env, key, patch.values[key], patch.nonces(key))]
    ensures PatchOk(env, patch, done + {key}) <==> PatchOk(env, patch, done) && Storable(env, key, patch.values[key])
  {}

  lemma SeedKeepsInv(env: Env, s: State, patch: Patch)
    requires Lawful(env) && Inv(env, s)
    ensures Inv(env, SetManyIfAbsent(env, s, patch))
  {
    if PatchOk(env, patch, Seeds(patch)) {
      AbsentIsOk(env, s, patch);
      WrittenKeepsInv(env, s, patch, Absent(s, patch));
    }
  }

  /** The rows that were new, and their values, are what a seed writes. */
  lemma InsertedRows(env: Env, s: State, patch: Patch, rows: Table)
    requires rows == Rows(env, patch, Seeds(patch))
    ensures var inserted := set k | k in rows && k !in s.table;
            inserted == Absent(s, patch) && (map k | k in inserted :: rows[k]) == Rows(env, patch, Absent(s, patch))
  {}
}
