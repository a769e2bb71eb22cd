/** The attempt limiter as the code keeps it: a map of windows and a binary
    heap of the same windows by expiry (api/auth_limiter.go). */
module AttemptLimiter {

  import opened AttemptTable
  import opened AttemptHistory

  class Window {
    const key: Key
    const expires: int
    var count: nat

    constructor (key: Key, expires: int)
      ensures this.key == key && this.expires == expires && count == 0
    {
      this.key, this.expires, count := key, expires, 0;
    }
  }

  // ---- heap order ----

  predicate IsParent(i: int, j: int) {
    0 <= i < j && (j == 2 * i + 1 || j == 2 * i + 2)
  }

  predicate Ordered(h: seq<Window>) {
    forall i, j :: 0 <= i < j < |h| && IsParent(i, j) ==> h[i].expires <= h[j].expires
  }

  /** Ordered but for one element that may be smaller than its parent. */
  predicate OrderedAbove(h: seq<Window>, hole: int) {
    && (forall i, j :: 0 <= i < j < |h| && IsParent(i, j) && j != hole ==> h[i].expires <= h[j].expires)
    && (forall i, j :: 0 <= i < j < |h| && IsParent(i, hole) && IsParent(hole, j) ==> h[i].expires <= h[j].expires)
  }

  /** The first n are ordered but for one element that may be larger than its children. */
  predicate OrderedBelow(h: seq<Window>, n: nat, hole: int)
    requires n <= |h|
  {
    && (forall i, j :: 0 <= i < j < n && IsParent(i, j) && i != hole ==> h[i].expires <= h[j].expires)
    && (forall i, j :: 0 <= i < j < n && IsParent(i, hole) && IsParent(hole, j) ==> h[i].expires <= h[j].expires)
  }

  lemma {:induction false} RootIsLeast(h: seq<Window>, j: nat)
    requires Ordered(h) && j < |h|
    ensures h[0].expires <= h[j].expires
    decreases j
  {
    if j > 0 {
      RootIsLeast(h, (j - 1) / 2);
      assert IsParent((j - 1) / 2, j);
    }
  }

  function Swap(h: seq<Window>, i: nat, j: nat): (r: seq<Window>)
    requires i < |h| && j < |h|
    ensures |r| == |h| && r[i] == h[j] && r[j] == h[i] && forall k :: 0 <= k < |h| && k != i && k != j ==> r[k] == h[k]
    ensures multiset(r) == multiset(h)
  {
    h[i := h[j]][j := h[i]]
  }

  lemma SwapUp(h: seq<Window>, i: nat, j: nat)
    requires j < |h| && IsParent(i, j) && OrderedAbove(h, j) && h[j].expires < h[i].expires
    ensures OrderedAbove(Swap(h, i, j), i)
  {}

  lemma SwapDown(h: seq<Window>, n: nat, i: nat, j: nat)
    requires j < n <= |h| && IsParent(i, j) && OrderedBelow(h, n, i) && h[j].expires < h[i].expires
    requires forall k :: 0 <= k < n && IsParent(i, k) ==> h[j].expires <= h[k].expires
    ensures OrderedBelow(Swap(h, i, j), n, j)
  {}

  /** container/heap's up. */
  method SiftUp(h0: seq<Window>, at: nat) returns (h: seq<Window>)
    requires at < |h0| && OrderedAbove(h0, at)
    ensures Ordered(h) && multiset(h) == multiset(h0)
  {
    h := h0;
    var j := at;
    while true
      invariant 0 <= j < |h| == |h0| && multiset(h) == multiset(h0) && OrderedAbove(h, j)
      decreases j
    {
      var i := if j == 0 then 0 else (j - 1) / 2;
      if i == j || h[j].expires >= h[i].expires {
        break;
      }
      SwapUp(h, i, j);
      h := Swap(h, i, j);
      j := i;
    }
  }

  /** The child that expires first. */
  method LesserChild(h: seq<Window>, n: nat, i: nat) returns (j: nat)
    requires 2 * i + 1 < n <= |h|
    ensures j < n && IsParent(i, j)
    ensures forall k :: 0 <= k < n && IsParent(i, k) ==> h[j].expires <= h[k].expires
  {
    j := 2 * i + 1;
    if j + 1 < n && h[j + 1].expires < h[j].expires {
      j := j + 1;
    }
  }

  lemma OrderedAtLast(h: seq<Window>, n: nat, i: nat)
    requires n <= |h| && OrderedBelow(h, n, i)
    requires forall k :: 0 <= k < n && IsParent(i, k) ==> h[i].expires <= h[k].expires
    ensures Ordered(h[..n])
  {}

  /** container/heap's down over the first n elements. */
  method SiftDown(h0: seq<Window>, n: nat) returns (h: seq<Window>)
    requires n <= |h0| && OrderedBelow(h0, n, 0)
    ensures |h| == |h0| && Ordered(h[..n]) && h[n..] == h0[n..] && multiset(h) == multiset(h0)
  {
    h := h0;
    var i := 0;
    while 2 * i + 1 < n
      invariant 0 <= i && |h| == |h0| && h[n..] == h0[n..] && multiset(h) == multiset(h0)
      invariant OrderedBelow(h, n, i)
      decreases n - i
    {
      var j := LesserChild(h, n, i);
      if h[j].expires >= h[i].expires {
        break;
      }
      SwapDown(h, n, i, j);
      ghost var tail := h[n..];
      h := Swap(h, i, j);
      assert h[n..] == tail;
      i := j;
    }
    OrderedAtLast(h, n, i);
  }

  /** heap.Pop: the least element, and a heap of the others. */
  method PopLeast(h0: seq<Window>) returns (least: Window, h: seq<Window>)
    requires h0 != [] && Ordered(h0)
    ensures least == h0[0] && Ordered(h) && multiset(h) + multiset{least} == multiset(h0)
  {
    var n := |h0| - 1;
    var swapped := Swap(h0, 0, n);
    assert OrderedBelow(swapped, n, 0);
    h := SiftDown(swapped, n);
    least := h[n];
    assert least == h[n..][0] == swapped[n..][0];
    assert h == h[..n] + [least];
    h := h[..n];
  }

  // ---- the limiter ----

  class Limiter {
    const config: Config
    var attempts: map<Key, Window>
    var expirations: seq<Window>
    // what has been asked and answered, which no decision reads
    ghost var served: History

    /** Map and heap hold the same windows, each once, under its own key. */
    ghost predicate Valid()
      reads this
    {
      && config.maxEntries >= 2
      && (forall k :: k in attempts ==> attempts[k].key == k)
      && Ordered(expirations)
      && multiset(expirations) == multiset(attempts.Values)
    }

    ghost function Contents(): Table
      reads this, attempts.Values
    {
      map k | k in attempts :: Entry(attempts[k].expires, attempts[k].count)
    }

    /** The windows are those of the calls served, and the answers were the limiter's. */
    ghost predicate Recorded()
      reads this, attempts.Values
    {
      Records(config, served, Contents())
    }

    constructor (limit: int, window: int, maxEntries: int)
      ensures Valid() && Recorded() && Contents() == map[] && served == []
      ensures config == Config(limit, window, if maxEntries < 2 then 2 else maxEntries)
    {
      config := Config(limit, window, if maxEntries < 2 then 2 else maxEntries);
      attempts := map[];
      expirations := [];
      served := [];
    }

    lemma HeapHolds(w: Window)
      requires Valid()
      ensures w in expirations <==> w.key in attempts && attempts[w.key] == w
    {
      assert w in expirations <==> w in multiset(expirations);
      assert w in multiset(attempts.Values) <==> w in attempts.Values;
    }

    /** The window that expires first leaves the heap and the map. */
    method DropFirst()
      requires Valid() && expirations != []
      modifies this`attempts, this`expirations
      ensures Valid() && |expirations| == |old(expirations)| - 1
      ensures var first := old(expirations)[0];
              first.key in old(attempts) && old(attempts)[first.key] == first && attempts == old(attempts) - {first.key}
    {
      HeapHolds(expirations[0]);
      ghost var heap, table := expirations, attempts;
      var attempt;
      attempt, expirations := PopLeast(expirations);
      if attempt.key in attempts && attempts[attempt.key] == attempt {
        attempts := attempts - {attempt.key};
      }
      RemovedValues(table, attempt);
      Cancel(multiset(expirations), multiset(attempts.Values), attempt);
      SizeAfter(expirations, heap, attempt);
    }

    method PruneExpired(now: int)
      requires Valid()
      modifies this`attempts, this`expirations
      ensures Valid() && Contents() == Prune(old(Contents()), now)
      ensures attempts.Keys <= old(attempts.Keys) && (forall k :: k in attempts ==> attempts[k] == old(attempts)[k])
      ensures attempts.Values <= old(attempts.Values)
    {
      while |expirations| > 0 && expirations[0].expires <= now
        invariant Valid()
        invariant attempts.Keys <= old(attempts.Keys)
        invariant forall k :: k in attempts ==> attempts[k] == old(attempts)[k]
        invariant forall k :: k in old(attempts) && k !in attempts ==> old(attempts)[k].expires <= now
        decreases |expirations|
      {
        DropFirst();
      }
      forall k | k in attempts ensures attempts[k].expires > now {
        HeapHolds(attempts[k]);
        var j :| 0 <= j < |expirations| && expirations[j] == attempts[k];
        RootIsLeast(expirations, j);
      }
    }

    method Increment(key: Key)
      requires Valid() && key in attempts
      modifies {attempts[key]}
      ensures Valid() && Contents() == Bump(old(Contents()), key)
    {
      attempts[key].count := attempts[key].count + 1;
      assert forall k: Key :: k in attempts ==> attempts[k].key == k;
    }

    /** A window goes into the map and onto the heap. */
    method Insert(attempt: Window)
      requires Valid() && attempt.key !in attempts
      modifies this`attempts, this`expirations
      ensures Valid() && attempts == old(attempts)[attempt.key := attempt]
    {
      AddedValues(attempts, attempt.key, attempt);
      attempts := attempts[attempt.key := attempt];
      var pushed := expirations + [attempt];
      assert OrderedAbove(pushed, |expirations|);
      expirations := SiftUp(pushed, |expirations|);
    }

    method Open(key: Key, expires: int)
      requires Valid() && key !in attempts
      modifies this`attempts, this`expirations
      ensures Valid() && Contents() == old(Contents())[key := Entry(expires, 0)]
      ensures fresh(attempts.Values - old(attempts.Values)) && key in attempts
    {
      var attempt := new Window(key, expires);
      AddedValues(attempts, key, attempt);
      Insert(attempt);
    }

    method AnyExhausted(keys: seq<Key>) returns (exhausted: bool)
      requires Valid()
      ensures exhausted == Exhausted(Contents(), config.limit, keys)
    {
      for i := 0 to |keys|
        invariant forall j :: 0 <= j < i ==> !(keys[j] in attempts && attempts[keys[j]].count >= config.limit)
      {
        if keys[i] in attempts && attempts[keys[i]].count >= config.limit {
          assert keys[i] in Contents();
          return true;
        }
      }
      exhausted := false;
    }

    method CountMissing(keys: seq<Key>) returns (missing: nat)
      requires Valid()
      ensures missing == Missing(Contents(), keys)
    {
      missing := 0;
      for i := 0 to |keys|
        invariant missing == Missing(Contents(), keys[..i])
      {
        assert keys[..i + 1][..i] == keys[..i];
        if keys[i] !in attempts {
          missing := missing + 1;
        }
      }
      assert keys[..|keys|] == keys;
    }

    method CountExisting(keys: seq<Key>)
      requires Valid()
      modifies attempts.Values
      ensures Valid() && Contents() == BumpExisting(old(Contents()), keys)
    {
      for i := 0 to |keys|
        invariant Valid() && Contents() == BumpExisting(old(Contents()), keys[..i])
      {
        assert keys[..i + 1][..i] == keys[..i];
        if keys[i] in attempts {
          Increment(keys[i]);
        }
      }
      assert keys[..|keys|] == keys;
    }

    method CountAll(keys: seq<Key>, expires: int)
      requires Valid()
      modifies this`attempts, this`expirations, attempts.Values
      ensures Valid() && Contents() == BumpAll(old(Contents()), keys, expires)
    {
      for i := 0 to |keys|
        invariant Valid() && fresh(attempts.Values - old(attempts.Values))
        invariant Contents() == BumpAll(old(Contents()), keys[..i], expires)
      {
        assert keys[..i + 1][..i] == keys[..i];
        if keys[i] !in attempts {
          Open(keys[i], expires);
        }
        Increment(keys[i]);
      }
      assert keys[..|keys|] == keys;
    }

    /** The decision, once expired windows are gone. */
    method Decide(now: int, keys: seq<Key>) returns (allowed: bool)
      requires Valid()
      modifies this`attempts, this`expirations, attempts.Values
      ensures Valid() && Contents() == Counted(old(Contents()), config, now, keys)
      ensures allowed == Permits(old(Contents()), config, keys)
    {
      ghost var live := Contents();
      var exhausted := AnyExhausted(keys);
      var missing := CountMissing(keys);
      SameSize(attempts, live);
      Outcomes(live, config, now, keys, exhausted, missing);
      if exhausted {
        return false;
      }
      if |attempts| + missing > config.maxEntries {
        CountExisting(keys);
        return false;
      }
      CountAll(keys, now + config.window);
      allowed := true;
    }

    /** allow, for the keys of one request: yes if and only if none of them was
        named limit times in its live window and there is room for the others. */
    method Allow(now: int, keys: seq<Key>) returns (allowed: bool)
      requires Valid() && Recorded()
      modifies this`attempts, this`expirations, this`served, attempts.Values
      ensures Valid() && Recorded() && served == old(served) + [Served(now, keys, allowed)]
      ensures allowed <==> Permitted(config, served, |old(served)|)
      ensures Contents() == Attempt(old(Contents()), config, now, keys).0
      ensures allowed == Attempt(old(Contents()), config, now, keys).1
    {
      ghost var table := Contents();
      PruneExpired(now);
      allowed := Decide(now, keys);
      ServeOne(config, served, table, Served(now, keys, allowed));
      served := served + [Served(now, keys, allowed)];
    }
  }

  /** The three outcomes of a request on the live windows. */
  lemma Outcomes(live: Table, config: Config, now: int, keys: seq<Key>, exhausted: bool, missing: nat)
    requires exhausted == Exhausted(live, config.limit, keys) && missing == Missing(live, keys)
    ensures exhausted ==> Counted(live, config, now, keys) == live && !Permits(live, config, keys)
    ensures !exhausted && |live| + missing > config.maxEntries ==>
              Counted(live, config, now, keys) == BumpExisting(live, keys) && !Permits(live, config, keys)
    ensures !exhausted && |live| + missing <= config.maxEntries ==>
              Counted(live, config, now, keys) == BumpAll(live, keys, now + config.window) && Permits(live, config, keys)
  {}

  lemma AddedValues(table: map<Key, Window>, key: Key, w: Window)
    requires key !in table && key == w.key && forall k :: k in table ==> table[k].key == k
    ensures table[key := w].Values == table.Values + {w}
    ensures multiset(table[key := w].Values) == multiset(table.Values) + multiset{w}
  {
    var more := table[key := w];
    assert w !in table.Values;
    forall v ensures v in more.Values <==> v in table.Values || v == w {
      if v in table.Values {
        var k :| k in table && table[k] == v;
        assert k in more && more[k] == v;
      }
      if v == w {
        assert key in more && more[key] == w;
      }
    }
    assert more.Values == table.Values + {w};
  }

  lemma SameSize(attempts: map<Key, Window>, table: Table)
    requires attempts.Keys == table.Keys
    ensures |attempts| == |table|
  {
    assert |attempts.Keys| == |table.Keys|;
  }

  lemma Cancel(a: multiset<Window>, b: multiset<Window>, w: Window)
    requires a + multiset{w} == b + multiset{w}
    ensures a == b
  {
    forall x ensures a[x] == b[x] {
      assert (a + multiset{w})[x] == (b + multiset{w})[x];
    }
  }

  lemma SizeAfter(h: seq<Window>, before: seq<Window>, w: Window)
    requires multiset(h) + multiset{w} == multiset(before)
    ensures |h| == |before| - 1
  {
    assert |multiset(h) + multiset{w}| == |multiset(before)|;
  }

  lemma RemovedValues(table: map<Key, Window>, w: Window)
    requires forall k :: k in table ==> table[k].key == k
    requires w.key in table && table[w.key] == w
    ensures multiset((table - {w.key}).Values) + multiset{w} == multiset(table.Values)
  {
    var rest := table - {w.key};
    forall v ensures v in rest.Values <==> v in table.Values && v != w {
      if v in table.Values && v != w {
        assert v.key in table && v.key in rest;
      }
    }
    assert table.Values == rest.Values + {w} && w !in rest.Values;
  }
}
