/** The attempt limiter told by its history: what was asked, when, and what was
    answered (api/auth_limiter.go). Nothing here looks at the table but the
    lemmas that tie it to the history. */
module AttemptHistory {

  import Sets
  import opened AttemptTable

  /** One call and its answer. */
  datatype Served = Served(now: int, keys: seq<Key>, allowed: bool)

  type History = seq<Served>

  /** How often a call names the key. */
  function Times(keys: seq<Key>, key: Key): nat {
    multiset(keys)[key]
  }

  // ---- windows ----

  /** No call after the i-th and before the j-th saw the end of a window that call i opened. */
  predicate Unended(config: Config, h: History, i: nat, j: nat)
    requires i < j <= |h|
  {
    forall m :: i < m < j ==> h[m].now < h[i].now + config.window
  }

  /** An allowed call opens a window for each key it names that has none. */
  predicate Opened(config: Config, h: History, i: nat, key: Key)
    requires i < |h|
    decreases i
  {
    h[i].allowed && key in h[i].keys && !exists i' :: 0 <= i' < i && Opened(config, h, i', key) && Unended(config, h, i', i + 1)
  }

  /** Call i opened a window for the key that is still there after call j - 1. */
  predicate Kept(config: Config, h: History, i: nat, j: nat, key: Key)
    requires i < j <= |h|
  {
    Opened(config, h, i, key) && Unended(config, h, i, j)
  }

  /** And at the time of call j. */
  predicate Holds(config: Config, h: History, i: nat, j: nat, key: Key)
    requires i < j < |h|
  {
    Opened(config, h, i, key) && Unended(config, h, i, j + 1)
  }

  /** The key has a window when call j comes. */
  predicate Live(config: Config, h: History, j: nat, key: Key)
    requires j < |h|
  {
    exists i :: 0 <= i < j && Holds(config, h, i, j, key)
  }

  // ---- counts ----

  /** How often the key was named in the calls from i to before j that counted:
      those allowed, and those refused though no key was spent, for want of room. */
  function Tally(config: Config, h: History, i: nat, j: nat, key: Key): nat
    requires i <= j <= |h|
    decreases j
  {
    if i == j then 0
    else
      var m := j - 1;
      var spent := exists k, i' :: 0 <= k < |h[m].keys| && 0 <= i' < m && Holds(config, h, i', m, h[m].keys[k])
                                   && Tally(config, h, i', m, h[m].keys[k]) >= config.limit;
      Tally(config, h, i, m, key) + if h[m].allowed || !spent then Times(h[m].keys, key) else 0
  }

  /** The key has used up its live window. */
  predicate Spent(config: Config, h: History, j: nat, key: Key)
    requires j < |h|
  {
    exists i :: 0 <= i < j && Holds(config, h, i, j, key) && Tally(config, h, i, j, key) >= config.limit
  }

  predicate AnySpent(config: Config, h: History, j: nat)
    requires j < |h|
  {
    exists k :: 0 <= k < |h[j].keys| && Spent(config, h, j, h[j].keys[k])
  }

  predicate Counts(config: Config, h: History, m: nat)
    requires m < |h|
  {
    h[m].allowed || !AnySpent(config, h, m)
  }

  lemma TallyStep(config: Config, h: History, i: nat, m: nat, key: Key)
    requires i <= m < |h|
    ensures Tally(config, h, i, m + 1, key) == Tally(config, h, i, m, key) + if Counts(config, h, m) then Times(h[m].keys, key) else 0
  {
    if AnySpent(config, h, m) {
      var k :| 0 <= k < |h[m].keys| && Spent(config, h, m, h[m].keys[k]);
    }
  }

  // ---- room ----

  /** The keys that have a window when call j comes. */
  ghost function LiveKeys(config: Config, h: History, j: nat): set<Key>
    requires j < |h|
  {
    set m, key | 0 <= m < j && key in h[m].keys && Live(config, h, j, key) :: key
  }

  /** How many of the names are not among these keys. */
  ghost function NotAmong(keys: seq<Key>, live: set<Key>): nat {
    if keys == [] then 0
    else NotAmong(keys[..|keys| - 1], live) + if keys[|keys| - 1] in live then 0 else 1
  }

  ghost predicate HasRoom(config: Config, h: History, j: nat)
    requires j < |h|
  {
    |LiveKeys(config, h, j)| + NotAmong(h[j].keys, LiveKeys(config, h, j)) <= config.maxEntries
  }

  /** What decides about call j; its own answer plays no part. */
  ghost predicate Permitted(config: Config, h: History, j: nat)
    requires j < |h|
  {
    !AnySpent(config, h, j) && HasRoom(config, h, j)
  }

  // ---- histories of the limiter ----

  function Calls(h: History): seq<Call> {
    seq(|h|, i requires 0 <= i < |h| => Call(h[i].now, h[i].keys))
  }

  /** Every answer is the limiter's. */
  predicate Honest(config: Config, h: History) {
    forall j :: 0 <= j < |h| ==> Answered(config, h, j)
  }

  predicate Answered(config: Config, h: History, j: nat)
    requires j < |h|
  {
    h[j].allowed == Attempt(After(config, Calls(h)[..j]), config, h[j].now, h[j].keys).1
  }

  /** The table holds exactly the windows kept so far, each with its end and its tally. */
  ghost predicate TableTells(config: Config, h: History, n: nat, t: Table)
    requires n <= |h|
  {
    forall key :: Tells(config, h, n, t, key)
  }

  ghost predicate Tells(config: Config, h: History, n: nat, t: Table, key: Key)
    requires n <= |h|
  {
    && (key in t <==> exists i :: 0 <= i < n && Kept(config, h, i, n, key))
    && (forall i :: 0 <= i < n && Kept(config, h, i, n, key) ==> EntryIs(t, key, h[i].now + config.window, Tally(config, h, i, n, key)))
  }

  predicate EntryIs(t: Table, key: Key, expires: int, count: nat) {
    key in t && t[key] == Entry(expires, count)
  }

  /** A key has one window at a time. */
  lemma OneWindow(config: Config, h: History, i: nat, i': nat, n: nat, key: Key)
    requires i < n <= |h| && i' < n && Kept(config, h, i, n, key) && Kept(config, h, i', n, key)
    ensures i == i'
  {}

  // ---- counting on the table ----

  lemma TimesSnoc(keys: seq<Key>, key: Key)
    requires keys != []
    ensures var n := |keys| - 1; Times(keys, key) == Times(keys[..n], key) + if keys[n] == key then 1 else 0
  {
    var n := |keys| - 1;
    assert keys == keys[..n] + [keys[n]];
  }

  lemma NamedTimes(keys: seq<Key>, key: Key)
    ensures key in keys <==> Times(keys, key) > 0
  {
    assert key in keys <==> key in multiset(keys);
  }

  lemma {:induction false} BumpExistingExactly(table: Table, keys: seq<Key>, key: Key)
    requires key in table
    ensures EntryIs(BumpExisting(table, keys), key, table[key].expires, table[key].count + Times(keys, key))
  {
    if keys != [] {
      BumpExistingExactly(table, keys[..|keys| - 1], key);
      TimesSnoc(keys, key);
    }
  }

  /** Counting a call leaves each key its window, or opens one, and adds the
      number of times the call names it. */
  lemma {:induction false} BumpAllExactly(table: Table, keys: seq<Key>, expires: int, key: Key)
    ensures var t := BumpAll(table, keys, expires);
            && (key in t <==> key in table || key in keys)
            && (key in table ==> EntryIs(t, key, table[key].expires, table[key].count + Times(keys, key)))
            && (key !in table && key in keys ==> EntryIs(t, key, expires, Times(keys, key)))
  {
    if keys != [] {
      var n := |keys| - 1;
      assert keys == keys[..n] + [keys[n]];
      BumpAllExactly(table, keys[..n], expires, key);
      TimesSnoc(keys, key);
      NamedTimes(keys[..n], key);
    }
  }

  // ---- one call ----

  lemma LiveIsPruned(config: Config, h: History, n: nat, t: Table, key: Key)
    requires n < |h| && TableTells(config, h, n, t)
    ensures var live := Prune(t, h[n].now);
            && (key in live <==> Live(config, h, n, key))
            && (forall i :: 0 <= i < n && Holds(config, h, i, n, key) ==> EntryIs(live, key, h[i].now + config.window, Tally(config, h, i, n, key)))
            && (key in live && live[key].count >= config.limit <==> Spent(config, h, n, key))
  {
    assert Tells(config, h, n, t, key);
    forall i | 0 <= i < n
      ensures Kept(config, h, i, n, key) && h[n].now < h[i].now + config.window <==> Holds(config, h, i, n, key)
    {
      KeptLater(config, h, i, n, key);
    }
    if key in t {
      var i :| 0 <= i < n && Kept(config, h, i, n, key);
      assert EntryIs(t, key, h[i].now + config.window, Tally(config, h, i, n, key));
      forall i' | 0 <= i' < n && Kept(config, h, i', n, key) ensures i' == i {
        OneWindow(config, h, i, i', n, key);
      }
    }
  }

  lemma {:induction false} NotAmongIsMissing(keys: seq<Key>, live: Table)
    ensures NotAmong(keys, live.Keys) == Missing(live, keys)
  {
    if keys != [] {
      NotAmongIsMissing(keys[..|keys| - 1], live);
    }
  }

  lemma LiveKeysAreKeys(config: Config, h: History, n: nat, t: Table)
    requires n < |h| && TableTells(config, h, n, t)
    ensures LiveKeys(config, h, n) == Prune(t, h[n].now).Keys
  {
    var live := Prune(t, h[n].now);
    forall key ensures key in live <==> key in LiveKeys(config, h, n) {
      LiveIsPruned(config, h, n, t, key);
      if Live(config, h, n, key) {
        var i :| 0 <= i < n && Holds(config, h, i, n, key);
        assert key in h[i].keys;
      }
    }
  }

  /** The table decides as the history does. */
  lemma PermitsExactly(config: Config, h: History, n: nat, t: Table)
    requires n < |h| && TableTells(config, h, n, t)
    ensures var live := Prune(t, h[n].now);
            && (Exhausted(live, config.limit, h[n].keys) <==> AnySpent(config, h, n))
            && (Full(live, config, h[n].keys) <==> !HasRoom(config, h, n))
            && (Permits(live, config, h[n].keys) <==> Permitted(config, h, n))
  {
    var live := Prune(t, h[n].now);
    forall k | 0 <= k < |h[n].keys|
      ensures Spent(config, h, n, h[n].keys[k]) <==> h[n].keys[k] in live && live[h[n].keys[k]].count >= config.limit
    {
      LiveIsPruned(config, h, n, t, h[n].keys[k]);
    }
    LiveKeysAreKeys(config, h, n, t);
    NotAmongIsMissing(h[n].keys, live);
    assert |live| == |live.Keys|;
  }

  /** One key's entry after one call. */
  lemma CountedEntry(config: Config, h: History, n: nat, t: Table, key: Key)
    requires n < |h| && TableTells(config, h, n, t) && (h[n].allowed <==> Permitted(config, h, n))
    ensures var live, t' := Prune(t, h[n].now), Counted(Prune(t, h[n].now), config, h[n].now, h[n].keys);
            && (key in t' <==> key in live || (h[n].allowed && key in h[n].keys))
            && (key in live ==> EntryIs(t', key, live[key].expires, live[key].count + if Counts(config, h, n) then Times(h[n].keys, key) else 0))
            && (key !in live && h[n].allowed && key in h[n].keys ==> EntryIs(t', key, h[n].now + config.window, Times(h[n].keys, key)))
  {
    var live := Prune(t, h[n].now);
    PermitsExactly(config, h, n, t);
    if Exhausted(live, config.limit, h[n].keys) {
    } else if Full(live, config, h[n].keys) {
      BumpExistingKeys(live, h[n].keys);
      if key in live {
        BumpExistingExactly(live, h[n].keys, key);
      }
    } else {
      BumpAllExactly(live, h[n].keys, h[n].now + config.window, key);
    }
  }

  lemma KeptLater(config: Config, h: History, i: nat, n: nat, key: Key)
    requires i < n < |h|
    ensures Kept(config, h, i, n + 1, key) <==> Holds(config, h, i, n, key)
    ensures Kept(config, h, i, n, key) && h[n].now < h[i].now + config.window <==> Holds(config, h, i, n, key)
  {}

  lemma KeptAtOnce(config: Config, h: History, n: nat, key: Key)
    requires n < |h|
    ensures Kept(config, h, n, n + 1, key) <==> Opened(config, h, n, key)
    ensures Tally(config, h, n, n + 1, key) == if Counts(config, h, n) then Times(h[n].keys, key) else 0
  {
    TallyStep(config, h, n, n, key);
  }

  /** A window kept so far is kept through the call exactly when it is live. */
  lemma TellsLive(config: Config, h: History, n: nat, live: Table, t': Table, key: Key)
    requires n < |h| && Live(config, h, n, key) && key in live
    requires forall i :: 0 <= i < n && Holds(config, h, i, n, key) ==> EntryIs(live, key, h[i].now + config.window, Tally(config, h, i, n, key))
    requires EntryIs(t', key, live[key].expires, live[key].count + if Counts(config, h, n) then Times(h[n].keys, key) else 0)
    ensures Tells(config, h, n + 1, t', key)
  {
    forall i | 0 <= i < n + 1 && Kept(config, h, i, n + 1, key)
      ensures EntryIs(t', key, h[i].now + config.window, Tally(config, h, i, n + 1, key))
    {
      KeptAtOnce(config, h, n, key);
      assert i < n;
      KeptLater(config, h, i, n, key);
      TallyStep(config, h, i, n, key);
    }
    var i :| 0 <= i < n && Holds(config, h, i, n, key);
    KeptLater(config, h, i, n, key);
  }

  /** A key without a live window gets one from the call, or none. */
  lemma TellsNew(config: Config, h: History, n: nat, t': Table, key: Key)
    requires n < |h| && !Live(config, h, n, key)
    requires key in t' <==> h[n].allowed && key in h[n].keys
    requires h[n].allowed && key in h[n].keys ==> EntryIs(t', key, h[n].now + config.window, Times(h[n].keys, key))
    ensures Tells(config, h, n + 1, t', key)
  {
    var n1 := n + 1;
    KeptAtOnce(config, h, n, key);
    forall i | 0 <= i < n ensures !Kept(config, h, i, n1, key) {
      KeptLater(config, h, i, n, key);
    }
    forall i | 0 <= i < n ensures !(Opened(config, h, i, key) && Unended(config, h, i, n1)) {
      assert !Kept(config, h, i, n1, key);
    }
  }

  lemma TellsOn(config: Config, h: History, n: nat, t: Table)
    requires n < |h| && TableTells(config, h, n, t) && (h[n].allowed <==> Permitted(config, h, n))
    ensures TableTells(config, h, n + 1, Counted(Prune(t, h[n].now), config, h[n].now, h[n].keys))
  {
    var live, t', n1 := Prune(t, h[n].now), Counted(Prune(t, h[n].now), config, h[n].now, h[n].keys), n + 1;
    forall key ensures Tells(config, h, n1, t', key) {
      LiveIsPruned(config, h, n, t, key);
      CountedEntry(config, h, n, t, key);
      if Live(config, h, n, key) {
        TellsLive(config, h, n, live, t', key);
      } else {
        TellsNew(config, h, n, t', key);
      }
    }
  }

  // ---- main results ----

  /** The limiter's table and answer, one call further. */
  lemma OneCall(config: Config, h: History, n: nat)
    requires n < |h| && Honest(config, h)
    ensures var t := After(config, Calls(h)[..n]);
            && After(config, Calls(h)[..n + 1]) == Counted(Prune(t, h[n].now), config, h[n].now, h[n].keys)
            && h[n].allowed == Permits(Prune(t, h[n].now), config, h[n].keys)
  {
    var calls := Calls(h)[..n + 1];
    assert calls[..n] == Calls(h)[..n] && calls[n] == Call(h[n].now, h[n].keys);
    assert Answered(config, h, n);
  }

  lemma TellsNothing(config: Config, h: History)
    ensures TableTells(config, h, 0, After(config, Calls(h)[..0]))
  {
    assert Calls(h)[..0] == [];
  }

  lemma TellsOneCall(config: Config, h: History, n: nat)
    requires n < |h| && Honest(config, h) && TableTells(config, h, n, After(config, Calls(h)[..n]))
    ensures TableTells(config, h, n + 1, After(config, Calls(h)[..n + 1]))
  {
    OneCall(config, h, n);
    PermitsExactly(config, h, n, After(config, Calls(h)[..n]));
    TellsOn(config, h, n, After(config, Calls(h)[..n]));
  }

  /** At every moment of every run, under any clock, the table is what the
      history says: a key has an entry exactly when a window of it is kept, and
      then with that window's end and the number of times it was named in calls
      that counted since the window opened. */
  lemma {:induction false} TableIsTheHistory(config: Config, h: History, n: nat)
    requires n <= |h| && Honest(config, h)
    ensures TableTells(config, h, n, After(config, Calls(h)[..n]))
  {
    if n == 0 {
      TellsNothing(config, h);
    } else {
      TableIsTheHistory(config, h, n - 1);
      TellsOneCall(config, h, n - 1);
    }
  }

  /** A call is allowed if and only if none of its keys has been named limit
      times in its live window and the table has room for those without one. */
  lemma AllowedExactly(config: Config, h: History, j: nat)
    requires j < |h| && Honest(config, h)
    ensures h[j].allowed <==> Permitted(config, h, j)
  {
    TableIsTheHistory(config, h, j);
    OneCall(config, h, j);
    PermitsExactly(config, h, j, After(config, Calls(h)[..j]));
  }

  /** How many of the calls from i to before j name the key, and how many of those were allowed. */
  function Named(h: History, i: nat, j: nat, key: Key): nat
    requires i <= j <= |h|
  {
    if i == j then 0 else Named(h, i, j - 1, key) + if key in h[j - 1].keys then 1 else 0
  }

  function Admitted(h: History, i: nat, j: nat, key: Key): nat
    requires i <= j <= |h|
  {
    if i == j then 0 else Admitted(h, i, j - 1, key) + if key in h[j - 1].keys && h[j - 1].allowed then 1 else 0
  }

  /** Nothing but this key could stand in call m's way, and it is named once. */
  ghost predicate OnlyThisKey(config: Config, h: History, m: nat, key: Key)
    requires m < |h|
  {
    && Times(h[m].keys, key) == 1 && HasRoom(config, h, m)
    && forall k :: 0 <= k < |h[m].keys| && h[m].keys[k] != key ==> !Spent(config, h, m, h[m].keys[k])
  }

  function Least(a: int, b: int): int {
    if a < b then a else b
  }

  lemma SpentInItsWindow(config: Config, h: History, i: nat, j: nat, key: Key)
    requires i < j < |h| && Holds(config, h, i, j, key)
    ensures Spent(config, h, j, key) <==> Tally(config, h, i, j, key) >= config.limit
  {
    forall i' | 0 <= i' < j && Holds(config, h, i', j, key) ensures i' == i {
      OneWindow(config, h, i, i', j, key);
    }
  }

  /** In one window exactly the first limit calls that name the key are allowed
      (one, when the limit is below one), as long as each names it once, has room
      and names no other spent key. */
  lemma {:induction false} ExactlyLimitPerWindow(config: Config, h: History, i: nat, j: nat, key: Key)
    requires i < j <= |h| && Honest(config, h) && Kept(config, h, i, j, key)
    requires forall m :: i <= m < j && key in h[m].keys ==> OnlyThisKey(config, h, m, key)
    ensures Admitted(h, i, j, key) == Least(Named(h, i, j, key), if config.limit >= 1 then config.limit else 1)
    ensures Tally(config, h, i, j, key) == Admitted(h, i, j, key)
    decreases j
  {
    var n := j - 1;
    if i == n {
      FirstInWindow(config, h, i, key);
    } else {
      KeptLater(config, h, i, n, key);
      NamedIsPositive(config, h, i, n, key);
      ExactlyLimitPerWindow(config, h, i, n, key);
      OneMoreInWindow(config, h, i, n, key);
    }
  }

  lemma FirstInWindow(config: Config, h: History, i: nat, key: Key)
    requires i < |h| && Opened(config, h, i, key) && Times(h[i].keys, key) == 1
    ensures Named(h, i, i + 1, key) == Admitted(h, i, i + 1, key) == Tally(config, h, i, i + 1, key) == 1
  {
    assert Named(h, i, i, key) == 0 && Admitted(h, i, i, key) == 0;
    KeptAtOnce(config, h, i, key);
  }

  /** The next call of a window. */
  lemma OneMoreInWindow(config: Config, h: History, i: nat, n: nat, key: Key)
    requires i < n < |h| && Honest(config, h) && Holds(config, h, i, n, key) && (key in h[n].keys ==> OnlyThisKey(config, h, n, key))
    ensures key in h[n].keys ==> (h[n].allowed <==> Tally(config, h, i, n, key) < config.limit)
    ensures Tally(config, h, i, n + 1, key) == Tally(config, h, i, n, key) + if key in h[n].keys && h[n].allowed then 1 else 0
  {
    AllowedExactly(config, h, n);
    NamedTimes(h[n].keys, key);
    TallyStep(config, h, i, n, key);
    if key in h[n].keys {
      SpentInItsWindow(config, h, i, n, key);
      var k :| 0 <= k < |h[n].keys| && h[n].keys[k] == key;
      assert Spent(config, h, n, h[n].keys[k]) <==> Spent(config, h, n, key);
      assert AnySpent(config, h, n) <==> Spent(config, h, n, key);
    }
  }

  lemma {:induction false} NamedIsPositive(config: Config, h: History, i: nat, n: nat, key: Key)
    requires i < n <= |h| && key in h[i].keys
    ensures Named(h, i, n, key) >= 1
    decreases n
  {
    if n == i + 1 {
      assert Named(h, i, i, key) == 0;
    } else {
      NamedIsPositive(config, h, i, n - 1, key);
    }
  }

  lemma AfterOneMore(config: Config, calls: seq<Call>, call: Call)
    ensures After(config, calls + [call]) == Attempt(After(config, calls), config, call.now, call.keys).0
  {
    assert (calls + [call])[..|calls|] == calls;
  }

  lemma CallsOneMore(h: History, s: Served)
    ensures Calls(h + [s]) == Calls(h) + [Call(s.now, s.keys)]
    ensures forall j :: 0 <= j <= |h| ==> Calls(h + [s])[..j] == Calls(h)[..j]
  {}

  lemma StillAnswered(config: Config, h: History, s: Served, j: nat)
    requires j < |h| && Answered(config, h, j)
    ensures Answered(config, h + [s], j)
  {
    CallsOneMore(h, s);
  }

  /** A history goes on being the limiter's with the limiter's next answer. */
  lemma RecordOne(config: Config, h: History, s: Served)
    requires Honest(config, h) && s.allowed == Attempt(After(config, Calls(h)), config, s.now, s.keys).1
    ensures Honest(config, h + [s])
    ensures After(config, Calls(h + [s])) == Attempt(After(config, Calls(h)), config, s.now, s.keys).0
  {
    CallsOneMore(h, s);
    AfterOneMore(config, Calls(h), Call(s.now, s.keys));
    assert Calls(h + [s])[..|h|] == Calls(h);
    forall j | 0 <= j < |h + [s]| ensures Answered(config, h + [s], j) {
      if j < |h| {
        StillAnswered(config, h, s, j);
      }
    }
  }

  /** What a table holds and what the history says. */
  ghost predicate Records(config: Config, h: History, t: Table) {
    t == After(config, Calls(h)) && Honest(config, h)
  }

  /** One more call, as the history decides it. */
  lemma ServeOne(config: Config, h: History, t: Table, s: Served)
    requires Records(config, h, t) && s.allowed == Attempt(t, config, s.now, s.keys).1
    ensures Records(config, h + [s], Attempt(t, config, s.now, s.keys).0)
    ensures s.allowed <==> Permitted(config, h + [s], |h|)
  {
    RecordOne(config, h, s);
    AllowedExactly(config, h + [s], |h|);
  }
}
