/** Decimal integers as the Go formatting routines print and read them. */
module Decimal {

  import opened Wrappers

  predicate IsDigit(c: char) {
    '0' <= c <= '9'
  }

  predicate AllDigits(s: string) {
    forall i :: 0 <= i < |s| ==> IsDigit(s[i])
  }

  /** The shape strconv.Itoa produces for a natural number: digits, no padding. */
  predicate Canonical(s: string) {
    |s| > 0 && AllDigits(s) && (|s| > 1 ==> s[0] != '0')
  }

  function DigitChar(d: nat): (c: char)
    requires d < 10
    ensures IsDigit(c) && CharDigit(c) == d
  {
    "0123456789"[d]
  }

  function CharDigit(c: char): (d: nat)
    requires IsDigit(c)
    ensures d < 10
  {
    (c as int) - ('0' as int)
  }

  function Format(n: nat): (s: string)
    ensures Canonical(s)
    ensures n > 0 ==> s[0] != '0'
  {
    if n < 10 then [DigitChar(n)] else Format(n / 10) + [DigitChar(n % 10)]
  }

  function Value(s: string): nat
    requires AllDigits(s)
  {
    if s == [] then 0 else 10 * Value(s[..|s| - 1]) + CharDigit(s[|s| - 1])
  }

  lemma {:induction false} ValueOfFormat(n: nat)
    ensures Value(Format(n)) == n
  {
    var s := Format(n);
    if n >= 10 {
      ValueOfFormat(n / 10);
      assert s[..|s| - 1] == Format(n / 10);
    } else {
      assert s[..0] == [];
    }
  }

  lemma {:induction false} ValuePositive(s: string)
    requires Canonical(s) && s[0] != '0'
    ensures Value(s) > 0
  {
    if |s| > 1 {
      ValuePositive(s[..|s| - 1]);
    }
  }

  lemma {:induction false} FormatOfValue(s: string)
    requires Canonical(s)
    ensures Format(Value(s)) == s
  {
    var init, last := s[..|s| - 1], s[|s| - 1];
    assert DigitChar(CharDigit(last)) == last;
    if |s| == 1 {
      assert init == [];
      assert s == [last];
    } else {
      assert Canonical(init) && init[0] != '0';
      ValuePositive(init);
      FormatOfValue(init);
      assert Value(s) >= 10 && Value(s) / 10 == Value(init) && Value(s) % 10 == CharDigit(last);
      assert s == init + [last];
    }
  }

  /** Number of leading digits. */
  function DigitSpan(s: string): (n: nat)
    ensures n <= |s| && AllDigits(s[..n])
    ensures n < |s| ==> !IsDigit(s[n])
  {
    if s == [] || !IsDigit(s[0]) then 0
    else
      var rest := DigitSpan(s[1..]);
      assert s[..rest + 1] == [s[0]] + s[1..][..rest];
      rest + 1
  }

  lemma {:induction false} DigitSpanUnique(s: string, n: nat)
    requires n <= |s| && AllDigits(s[..n]) && (n < |s| ==> !IsDigit(s[n]))
    ensures DigitSpan(s) == n
  {
    if n > 0 {
      assert s[0] == s[..n][0];
      assert s[1..][..n - 1] == s[..n][1..];
      DigitSpanUnique(s[1..], n - 1);
    }
  }

  const MAX_INT64: int := 0x7fff_ffff_ffff_ffff
  const MIN_INT64: int := -0x8000_0000_0000_0000

  /** strconv.Itoa */
  function Itoa(n: int): (s: string)
    ensures |s| > 0
  {
    if n < 0 then "-" + Format(-n) else Format(n)
  }

  function Signed(n: int, negative: bool): int {
    if negative then -n else n
  }

  function Unsigned(digits: string, negative: bool): Option<int> {
    if digits == [] || !AllDigits(digits) then None
    else
      var n := Signed(Value(digits), negative);
      if MIN_INT64 <= n <= MAX_INT64 then Some(n) else None
  }

  /** strconv.Atoi on a 64-bit platform: one optional sign, then digits only. */
  function Atoi(s: string): Option<int> {
    if |s| > 0 && (s[0] == '-' || s[0] == '+') then Unsigned(s[1..], s[0] == '-') else Unsigned(s, false)
  }

  lemma UnsignedOfFormat(n: nat, negative: bool)
    requires MIN_INT64 <= Signed(n, negative) <= MAX_INT64
    ensures Unsigned(Format(n), negative) == Some(Signed(n, negative))
  {
    ValueOfFormat(n);
  }

  lemma AtoiOfItoa(n: int)
    requires MIN_INT64 <= n <= MAX_INT64
    ensures Atoi(Itoa(n)) == Some(n)
  {
    if n < 0 {
      var digits := Format(-n);
      UnsignedOfFormat(-n, true);
      assert ("-" + digits)[0] == '-' && ("-" + digits)[1..] == digits;
    } else {
      var digits := Format(n);
      UnsignedOfFormat(n, false);
      assert IsDigit(digits[0]);
    }
  }
}
