/** What the attempt limiter computes, on a plain map (api/auth_limiter.go). */
module AttemptTable {

  import Sets

  /** A SHA-256 digest, as a number. */
  type Key = nat

  datatype Entry = Entry(expires: int, count: nat)

  type Table = map<Key, Entry>

  datatype Config = Config(limit: int, window: int, maxEntries: nat)

  function Prune(table: Table, now: int): Table {
    map k | k in table && table[k].expires > now :: table[k]
  }

  predicate Exhausted(table: Table, limit: int, keys: seq<Key>) {
    exists i :: 0 <= i < |keys| && keys[i] in table && table[keys[i]].count >= limit
  }

  function Missing(table: Table, keys: seq<Key>): nat {
    if keys == [] then 0
    else Missing(table, keys[..|keys| - 1]) + if keys[|keys| - 1] in table then 0 else 1
  }

  function Bump(table: Table, key: Key): Table
    requires key in table
  {
    table[key := Entry(table[key].expires, table[key].count + 1)]
  }

  /** One more attempt for each key that has a window. */
  function BumpExisting(table: Table, keys: seq<Key>): Table {
    if keys == [] then table
    else
      var t := BumpExisting(table, keys[..|keys| - 1]);
      var key := keys[|keys| - 1];
      if key in t then Bump(t, key) else t
  }

  /** One more attempt for each key, opening a window where there is none. */
  function BumpAll(table: Table, keys: seq<Key>, expires: int): Table {
    if keys == [] then table
    else
      var t := BumpAll(table, keys[..|keys| - 1], expires);
      var key := keys[|keys| - 1];
      Bump(if key in t then t else t[key := Entry(expires, 0)], key)
  }

  predicate Full(live: Table, config: Config, keys: seq<Key>) {
    |live| + Missing(live, keys) > config.maxEntries
  }

  predicate Permits(live: Table, config: Config, keys: seq<Key>) {
    !Exhausted(live, config.limit, keys) && !Full(live, config, keys)
  }

  function Counted(live: Table, config: Config, now: int, keys: seq<Key>): Table {
    if Exhausted(live, config.limit, keys) then live
    else if Full(live, config, keys) then BumpExisting(live, keys)
    else BumpAll(live, keys, now + config.window)
  }

  /** Drop what has expired, then count. */
  function Attempt(table: Table, config: Config, now: int, keys: seq<Key>): (Table, bool) {
    var live := Prune(table, now);
    (Counted(live, config, now, keys), Permits(live, config, keys))
  }

  // ---- runs, under any clock ----

  datatype Call = Call(now: int, keys: seq<Key>)

  function After(config: Config, calls: seq<Call>): Table {
    if calls == [] then map[]
    else Attempt(After(config, calls[..|calls| - 1]), config, calls[|calls| - 1].now, calls[|calls| - 1].keys).0
  }

  predicate Allowed(config: Config, calls: seq<Call>, i: nat)
    requires i < |calls|
  {
    Attempt(After(config, calls[..i]), config, calls[i].now, calls[i].keys).1
  }

  /** How many of the calls lo..hi that name this key were allowed. */
  function AllowedFor(config: Config, calls: seq<Call>, key: Key, lo: nat, hi: nat): nat
    requires lo <= hi <= |calls|
    decreases hi
  {
    if lo == hi then 0
    else AllowedFor(config, calls, key, lo, hi - 1) + if key in calls[hi - 1].keys && Allowed(config, calls, hi - 1) then 1 else 0
  }

  // ---- size ----

  lemma PruneShrinks(table: Table, now: int)
    ensures |Prune(table, now)| <= |table|
  {
    assert Prune(table, now).Keys <= table.Keys;
    Sets.SubsetSize(Prune(table, now).Keys, table.Keys);
  }

  lemma {:induction false} BumpExistingKeys(table: Table, keys: seq<Key>)
    ensures BumpExisting(table, keys).Keys == table.Keys
  {
    if keys != [] {
      BumpExistingKeys(table, keys[..|keys| - 1]);
    }
  }

  lemma {:induction false} BumpAllSize(table: Table, keys: seq<Key>, expires: int)
    ensures |BumpAll(table, keys, expires)| <= |table| + Missing(table, keys)
    ensures table.Keys <= BumpAll(table, keys, expires).Keys
  {
    if keys != [] {
      var t := BumpAll(table, keys[..|keys| - 1], expires);
      var key := keys[|keys| - 1];
      BumpAllSize(table, keys[..|keys| - 1], expires);
      if key in t {
        assert BumpAll(table, keys, expires).Keys == t.Keys;
      } else {
        assert BumpAll(table, keys, expires).Keys == t.Keys + {key};
      }
    }
  }

  /** No run ever holds more windows than the limit. */
  lemma {:induction false} SizeIsBounded(config: Config, calls: seq<Call>)
    ensures |After(config, calls)| <= config.maxEntries
  {
    if calls != [] {
      var before, call := After(config, calls[..|calls| - 1]), calls[|calls| - 1];
      SizeIsBounded(config, calls[..|calls| - 1]);
      PruneShrinks(before, call.now);
      var live := Prune(before, call.now);
      BumpExistingKeys(live, call.keys);
      assert |BumpExisting(live, call.keys)| == |live| by {
        assert |BumpExisting(live, call.keys).Keys| == |live.Keys|;
      }
      BumpAllSize(live, call.keys, call.now + config.window);
    }
  }

  // ---- counting ----

  lemma {:induction false} BumpExistingEntry(table: Table, keys: seq<Key>, key: Key)
    requires key in table
    ensures var t := BumpExisting(table, keys);
            key in t && t[key].expires == table[key].expires && t[key].count >= table[key].count
  {
    if keys != [] {
      BumpExistingEntry(table, keys[..|keys| - 1], key);
    }
  }

  lemma {:induction false} BumpAllEntry(table: Table, keys: seq<Key>, expires: int, key: Key)
    requires key in table || key in keys
    ensures var t := BumpAll(table, keys, expires);
            && key in t
            && t[key].expires == (if key in table then table[key].expires else expires)
            && t[key].count >= (if key in table then table[key].count else 0) + (if key in keys then 1 else 0)
  {
    var n := |keys| - 1;
    if keys != [] {
      assert keys == keys[..n] + [keys[n]];
      if key in table || key in keys[..n] {
        BumpAllEntry(table, keys[..n], expires, key);
      } else {
        assert keys[n] == key;
        BumpAllMissing(table, keys[..n], expires, key);
      }
    }
  }

  lemma {:induction false} BumpAllMissing(table: Table, keys: seq<Key>, expires: int, key: Key)
    requires key !in table && key !in keys
    ensures key !in BumpAll(table, keys, expires)
  {
    if keys != [] {
      BumpAllMissing(table, keys[..|keys| - 1], expires, key);
    }
  }

  /** One attempt for a key that has a live window. */
  lemma LiveAttempt(table: Table, config: Config, now: int, keys: seq<Key>, key: Key)
    requires key in table && now < table[key].expires
    ensures var (t, ok) := Attempt(table, config, now, keys);
            && key in t && t[key].expires == table[key].expires && t[key].count >= table[key].count
            && (ok && key in keys ==> table[key].count < config.limit && t[key].count > table[key].count)
  {
    var live := Prune(table, now);
    BumpExistingEntry(live, keys, key);
    BumpAllEntry(live, keys, now + config.window, key);
  }

  /** An allowed attempt for a key without a live window opens one. */
  lemma OpeningAttempt(table: Table, config: Config, now: int, keys: seq<Key>, key: Key)
    requires key in keys && Attempt(table, config, now, keys).1 && key !in Prune(table, now)
    ensures var t := Attempt(table, config, now, keys).0;
            key in t && t[key].expires == now + config.window && t[key].count >= 1
  {
    BumpAllEntry(Prune(table, now), keys, now + config.window, key);
  }

  /** Call i opened a window for the key. */
  predicate Opens(config: Config, calls: seq<Call>, i: nat, key: Key)
    requires i < |calls|
  {
    key in calls[i].keys && Allowed(config, calls, i) && key !in Prune(After(config, calls[..i]), calls[i].now)
  }

  /** Call i opened the key's window, and no call up to j saw its end. */
  predicate InWindow(config: Config, calls: seq<Call>, key: Key, i: nat, j: nat) {
    i < j <= |calls| && Opens(config, calls, i, key) && forall m :: i < m < j ==> calls[m].now < calls[i].now + config.window
  }

  lemma {:induction false} WindowCounts(config: Config, calls: seq<Call>, key: Key, i: nat, j: nat)
    requires InWindow(config, calls, key, i, j)
    ensures var t := After(config, calls[..j]);
            && key in t && t[key].expires == calls[i].now + config.window
            && AllowedFor(config, calls, key, i, j) <= t[key].count
            && (AllowedFor(config, calls, key, i, j) <= config.limit || AllowedFor(config, calls, key, i, j) == 1)
    decreases j
  {
    assert calls[..j][..j - 1] == calls[..j - 1] && calls[..j][j - 1] == calls[j - 1];
    var before := After(config, calls[..j - 1]);
    if j == i + 1 {
      OpeningAttempt(before, config, calls[i].now, calls[i].keys, key);
      assert AllowedFor(config, calls, key, i, i) == 0;
    } else {
      WindowCounts(config, calls, key, i, j - 1);
      LiveAttempt(before, config, calls[j - 1].now, calls[j - 1].keys, key);
    }
  }

  /** From the call that opens a window until the clock first reads its end, a
      key is allowed at most limit times, or once when the limit is below one. */
  lemma AtMostLimitPerWindow(config: Config, calls: seq<Call>, key: Key, i: nat, j: nat)
    requires InWindow(config, calls, key, i, j)
    ensures AllowedFor(config, calls, key, i, j) <= if config.limit >= 1 then config.limit else 1
  {
    WindowCounts(config, calls, key, i, j);
  }

  predicate WithinLimit(config: Config, calls: seq<Call>, key: Key, i: nat, j: nat) {
    InWindow(config, calls, key, i, j) ==> AllowedFor(config, calls, key, i, j) <= config.limit
  }

  /** The limit itself is kept by every run exactly when it is at least one: a
      first attempt is never refused for its count. */
  lemma LimitIsKeptExactlyFromOne(config: Config)
    requires config.maxEntries >= 2
    ensures (forall calls: seq<Call>, key: Key, i: nat, j: nat :: WithinLimit(config, calls, key, i, j)) <==> config.limit >= 1
  {
    if config.limit >= 1 {
      forall calls: seq<Call>, key: Key, i: nat, j: nat ensures WithinLimit(config, calls, key, i, j) {
        if InWindow(config, calls, key, i, j) {
          AtMostLimitPerWindow(config, calls, key, i, j);
        }
      }
    } else {
      FirstAttempt(config);
      assert !WithinLimit(config, [Call(0, [1, 2])], 1, 0, 1);
    }
  }

  lemma FirstAttempt(config: Config)
    requires config.maxEntries >= 2
    ensures var calls := [Call(0, [1, 2])];
            Opens(config, calls, 0, 1) && AllowedFor(config, calls, 1, 0, 1) == 1
  {
    var calls := [Call(0, [1, 2])];
    var live := Prune(map[], 0);
    assert calls[..0] == [] && live == map[];
    assert Missing(live, [1, 2]) == 2 by {
      assert [1, 2][..1] == [1] && [1][..0] == [];
      assert Missing(live, [1]) == 1;
    }
    assert AllowedFor(config, calls, 1, 0, 0) == 0;
  }
}
