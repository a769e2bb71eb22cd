/** Repeated percent decoding of retired workspace paths (static.go). */
module PercentPath {

  type Byte = x: int | 0 <= x < 256
  type Path = seq<Byte>

  const PERCENT: Byte := 37
  const SLASH: Byte := 47
  const BACKSLASH: Byte := 92
  const MAX_PASSES: nat := 16

  /** "/workspace". */
  const WORKSPACE: Path := [47, 119, 111, 114, 107, 115, 112, 97, 99, 101]

  // ---- one pass ----

  predicate IsHex(value: Byte) {
    48 <= value <= 57 || 97 <= value <= 102 || 65 <= value <= 70
  }

  function HexNibble(value: Byte): (n: nat)
    requires IsHex(value)
    ensures n < 16
  {
    if value <= 57 then value - 48 else if value >= 97 then value - 97 + 10 else value - 65 + 10
  }

  /** A well-formed escape starts here. */
  predicate EscapeAt(s: Path, i: nat) {
    i + 2 < |s| && s[i] == PERCENT && IsHex(s[i + 1]) && IsHex(s[i + 2])
  }

  function Escaped(s: Path, i: nat): Byte
    requires EscapeAt(s, i)
  {
    16 * HexNibble(s[i + 1]) + HexNibble(s[i + 2])
  }

  /** One pass over the bytes from i on. */
  function PassFrom(s: Path, i: nat): Path
    requires i <= |s|
    decreases |s| - i
  {
    if i == |s| then []
    else if EscapeAt(s, i) then [Escaped(s, i)] + PassFrom(s, i + 3)
    else [s[i]] + PassFrom(s, i + 1)
  }

  /** How many escapes that pass decodes. */
  function EscapesFrom(s: Path, i: nat): nat
    requires i <= |s|
    decreases |s| - i
  {
    if i == |s| then 0 else if EscapeAt(s, i) then 1 + EscapesFrom(s, i + 3) else EscapesFrom(s, i + 1)
  }

  function Pass(s: Path): Path {
    PassFrom(s, 0)
  }

  predicate Changes(s: Path) {
    EscapesFrom(s, 0) > 0
  }

  method DecodePass(candidate: Path) returns (decoded: Path, changed: bool)
    ensures decoded == Pass(candidate) && changed == Changes(candidate)
  {
    decoded, changed := [], false;
    var index := 0;
    while index < |candidate|
      invariant 0 <= index <= |candidate|
      invariant decoded + PassFrom(candidate, index) == Pass(candidate)
      invariant Changes(candidate) <==> changed || EscapesFrom(candidate, index) > 0
    {
      if candidate[index] == PERCENT && index + 2 < |candidate| && IsHex(candidate[index + 1]) && IsHex(candidate[index + 2]) {
        var high, low := HexNibble(candidate[index + 1]), HexNibble(candidate[index + 2]);
        assert decoded + ([Escaped(candidate, index)] + PassFrom(candidate, index + 3))
            == (decoded + [Escaped(candidate, index)]) + PassFrom(candidate, index + 3);
        decoded := decoded + [16 * high + low];
        index := index + 3;
        changed := true;
      } else {
        assert decoded + ([candidate[index]] + PassFrom(candidate, index + 1))
            == (decoded + [candidate[index]]) + PassFrom(candidate, index + 1);
        decoded := decoded + [candidate[index]];
        index := index + 1;
      }
    }
  }

  /** Each escape shortens the path by two bytes; without one nothing changes. */
  lemma {:induction false} PassShortens(s: Path, i: nat)
    requires i <= |s|
    ensures |PassFrom(s, i)| + 2 * EscapesFrom(s, i) == |s| - i
    ensures EscapesFrom(s, i) == 0 ==> PassFrom(s, i) == s[i..]
    ensures EscapesFrom(s, i) > 0 ==> |s| - i >= 3
    decreases |s| - i
  {
    if i < |s| {
      PassShortens(s, if EscapeAt(s, i) then i + 3 else i + 1);
    }
  }

  /** A pass reports a change exactly when it changes the path. */
  lemma ChangesExactlyWhenShorter(s: Path)
    ensures Changes(s) <==> Pass(s) != s
    ensures Changes(s) <==> |Pass(s)| < |s|
    ensures |s| == |Pass(s)| + 2 * EscapesFrom(s, 0)
  {
    PassShortens(s, 0);
  }

  // ---- repeated passes ----

  function Passes(s: Path, n: nat): Path {
    if n == 0 then s else Pass(Passes(s, n - 1))
  }

  /** Decoding until nothing changes. */
  function Decoded(s: Path): (r: Path)
    ensures !Changes(r)
    decreases |s|
  {
    ChangesExactlyWhenShorter(s);
    if Changes(s) then Decoded(Pass(s)) else s
  }

  lemma {:induction false} PassesMove(s: Path, n: nat)
    ensures Passes(s, n + 1) == Passes(Pass(s), n)
  {
    if n > 0 {
      PassesMove(s, n - 1);
    }
  }

  lemma {:induction false} PassesKeepDecoded(s: Path, n: nat)
    ensures Decoded(Passes(s, n)) == Decoded(s)
    ensures !Changes(Passes(s, n)) ==> Passes(s, n) == Decoded(s)
  {
    if n > 0 {
      PassesKeepDecoded(s, n - 1);
      ChangesExactlyWhenShorter(Passes(s, n - 1));
    }
  }

  /** Repeated passes reach the fixpoint, after at most half as many passes as bytes. */
  lemma {:induction false} PassesReachTheFixpoint(s: Path)
    ensures exists n: nat :: 2 * n <= |s| && Passes(s, n) == Decoded(s)
    decreases |s|
  {
    ChangesExactlyWhenShorter(s);
    if Changes(s) {
      PassesReachTheFixpoint(Pass(s));
      var n: nat :| 2 * n <= |Pass(s)| && Passes(Pass(s), n) == Decoded(Pass(s));
      PassesMove(s, n);
      assert 2 * (n + 1) <= |s| && Passes(s, n + 1) == Decoded(s);
    } else {
      assert Passes(s, 0) == Decoded(s);
    }
  }

  /** A path that n passes leave changing has lost two bytes in each. */
  lemma {:induction false} StillChanging(s: Path, n: nat)
    requires Changes(Passes(s, n))
    ensures |s| >= 2 * n + |Passes(s, n)| && |s| >= 2 * n + 3
    ensures forall m: nat :: m <= n ==> Changes(Passes(s, m))
  {
    PassShortens(Passes(s, n), 0);
    if n > 0 {
      ChangesExactlyWhenShorter(Passes(s, n - 1));
      StillChanging(s, n - 1);
    }
  }

  // ---- the retired prefix ----

  function Slashes(s: Path): Path {
    seq(|s|, i requires 0 <= i < |s| => if s[i] == BACKSLASH then SLASH else s[i])
  }

  predicate HasRetiredPrefix(s: Path) {
    s == WORKSPACE || (|s| > |WORKSPACE| && s[..|WORKSPACE|] == WORKSPACE && (s[|WORKSPACE|] == SLASH || s[|WORKSPACE|] == PERCENT))
  }

  /** The decision on a path that no pass changes; clean is path.Clean. */
  predicate RetiredDecoded(s: Path, clean: Path -> Path) {
    HasRetiredPrefix(Slashes(s)) || HasRetiredPrefix(clean(Slashes(s)))
  }

  /** A seventeenth pass would still change it. */
  predicate TooDeep(s: Path) {
    Changes(Passes(s, MAX_PASSES))
  }

  predicate Retired(s: Path, clean: Path -> Path) {
    TooDeep(s) || RetiredDecoded(Decoded(s), clean)
  }

  method RetiredWorkspacePath(path: Path, clean: Path -> Path) returns (retired: bool)
    ensures retired == Retired(path, clean)
  {
    var candidate := path;
    var pass := 0;
    while pass < MAX_PASSES
      invariant 0 <= pass <= MAX_PASSES && candidate == Passes(path, pass)
    {
      var decoded, changed := DecodePass(candidate);
      if !changed {
        break;
      }
      candidate := decoded;
      pass := pass + 1;
    }
    var _, changed := DecodePass(candidate);
    if changed {
      return true;
    }
    PassesKeepDecoded(path, pass);
    NotTooDeep(path, pass);
    candidate := Slashes(candidate);
    if HasRetiredPrefix(candidate) {
      return true;
    }
    retired := HasRetiredPrefix(clean(candidate));
  }

  lemma NotTooDeep(s: Path, n: nat)
    requires n <= MAX_PASSES && !Changes(Passes(s, n))
    ensures !TooDeep(s)
  {
    if TooDeep(s) {
      StillChanging(s, MAX_PASSES);
    }
  }

  // ---- main results ----

  /** Below 35 bytes the decision is the one on the fully decoded path. */
  lemma ShortPathsAreDecidedByTheFixpoint(s: Path, clean: Path -> Path)
    ensures |s| < 35 ==> (Retired(s, clean) <==> RetiredDecoded(Decoded(s), clean))
    ensures TooDeep(s) ==> |s| >= 35
  {
    if TooDeep(s) {
      StillChanging(s, MAX_PASSES);
    }
  }

  /** A percent sign escaped n times over, in front of "41". */
  function Deep(n: nat): Path {
    [PERCENT] + Twos(n) + [52, 49]
  }

  /** "25", n times. */
  function Twos(n: nat): (r: Path)
    ensures |r| == 2 * n
  {
    if n == 0 then [] else [50, 53] + Twos(n - 1)
  }

  lemma {:induction false} PlainTail(s: Path, i: nat)
    requires i <= |s| && forall k :: i <= k < |s| ==> s[k] != PERCENT
    ensures PassFrom(s, i) == s[i..] && EscapesFrom(s, i) == 0
    decreases |s| - i
  {
    if i < |s| {
      PlainTail(s, i + 1);
    }
  }

  lemma {:induction false} TwosArePlain(n: nat)
    ensures forall k :: 0 <= k < |Twos(n)| ==> Twos(n)[k] != PERCENT
  {
    if n > 0 {
      TwosArePlain(n - 1);
    }
  }

  lemma DeepPass(n: nat)
    ensures Changes(Deep(n))
    ensures n > 0 ==> Pass(Deep(n)) == Deep(n - 1)
  {
    var s := Deep(n);
    TwosArePlain(n);
    forall k | 1 <= k < |s| ensures s[k] != PERCENT {}
    if n > 0 {
      assert s[1] == Twos(n)[0] == 50 && s[2] == Twos(n)[1] == 53;
      PlainTail(s, 3);
      assert s[3..] == Twos(n - 1) + [52, 49];
      assert Pass(s) == [Escaped(s, 0)] + s[3..];
    } else {
      assert s == [PERCENT, 52, 49];
    }
  }

  lemma {:induction false} DeepPasses(n: nat, k: nat)
    requires k <= n
    ensures Passes(Deep(n), k) == Deep(n - k)
  {
    if k > 0 {
      DeepPasses(n, k - 1);
      DeepPass(n - (k - 1));
    }
  }

  /** 35 bytes are enough: this path is refused although it decodes to a letter. */
  lemma ThirtyFiveBytesCanBeTooDeep()
    ensures |Deep(MAX_PASSES)| == 35 && TooDeep(Deep(MAX_PASSES))
  {
    DeepPasses(MAX_PASSES, MAX_PASSES);
    DeepPass(0);
  }

  // ---- escaping does not hide a path ----

  function HexDigit(n: nat): (c: Byte)
    requires n < 16
    ensures IsHex(c) && HexNibble(c) == n
  {
    if n < 10 then 48 + n else 65 + (n - 10)
  }

  /** Every byte escaped, as %HH. */
  function Escape(s: Path): Path {
    if s == [] then [] else [PERCENT, HexDigit(s[0] / 16), HexDigit(s[0] % 16)] + Escape(s[1..])
  }

  function EscapeTimes(s: Path, n: nat): Path {
    if n == 0 then s else Escape(EscapeTimes(s, n - 1))
  }

  lemma EscapeAtDrop(s: Path, i: nat, k: nat)
    requires k <= |s| && i < |s| - k
    ensures s[k..][i] == s[i + k]
    ensures EscapeAt(s[k..], i) <==> EscapeAt(s, i + k)
    ensures EscapeAt(s, i + k) ==> Escaped(s[k..], i) == Escaped(s, i + k)
  {}

  lemma {:induction false} PassFromDrop(s: Path, i: nat, k: nat)
    requires k <= |s| && i <= |s| - k
    ensures PassFrom(s[k..], i) == PassFrom(s, i + k)
    decreases |s| - i
  {
    if i + k < |s| {
      var t := s[k..];
      EscapeAtDrop(s, i, k);
      if EscapeAt(t, i) {
        PassFromDrop(s, i + 3, k);
        assert PassFrom(t, i) == [Escaped(t, i)] + PassFrom(t, i + 3);
        assert PassFrom(s, i + k) == [Escaped(s, i + k)] + PassFrom(s, i + k + 3);
      } else {
        PassFromDrop(s, i + 1, k);
        assert PassFrom(t, i) == [t[i]] + PassFrom(t, i + 1);
        assert PassFrom(s, i + k) == [s[i + k]] + PassFrom(s, i + k + 1);
      }
    }
  }

  /** A pass undoes escaping. */
  lemma {:induction false} PassInvertsEscape(s: Path)
    ensures Pass(Escape(s)) == s
  {
    if s != [] {
      var e := Escape(s);
      assert e[1] == HexDigit(s[0] / 16) && e[2] == HexDigit(s[0] % 16);
      assert e[3..] == Escape(s[1..]);
      PassFromDrop(e, 0, 3);
      PassInvertsEscape(s[1..]);
      assert Escaped(e, 0) == s[0];
    }
  }

  lemma {:induction false} EscapingKeepsDecoded(s: Path, n: nat)
    ensures Decoded(EscapeTimes(s, n)) == Decoded(s)
  {
    if n > 0 {
      EscapingKeepsDecoded(s, n - 1);
      var t := EscapeTimes(s, n - 1);
      PassInvertsEscape(t);
      ChangesExactlyWhenShorter(Escape(t));
    }
  }

  /** However many times a retired path is escaped, it stays retired. */
  lemma EscapingNeverHidesARetiredPath(s: Path, n: nat, clean: Path -> Path)
    requires RetiredDecoded(Decoded(s), clean)
    ensures Retired(EscapeTimes(s, n), clean)
  {
    EscapingKeepsDecoded(s, n);
  }
}
