/** Decimal printing and reading of integers: the `%v` verb on an integer and `strconv.Atoi`. */
module Decimal {
  import opened Wrappers

  const MAX_INT64 := 0x7fff_ffff_ffff_ffff
  const MIN_INT64 := -0x8000_0000_0000_0000

  predicate IsDigit(c: char) {
    '0' <= c <= '9'
  }

  predicate AllDigits(s: string) {
    forall i :: 0 <= i < |s| ==> IsDigit(s[i])
  }

  function Digits(n: nat): (s: string)
    ensures s != [] && AllDigits(s)
  {
    if n < 10 then ["0123456789"[n]] else Digits(n / 10) + ["0123456789"[n % 10]]
  }

  /** The decimal text of an integer. */
  function Itoa(n: int): (s: string)
    ensures s != [] && forall i :: 0 <= i < |s| ==> IsDigit(s[i]) || s[i] == '-'
  {
    if n < 0 then "-" + Digits(-n) else Digits(n)
  }

  function NatOf(s: string): nat
    requires AllDigits(s)
  {
    if s == [] then 0 else 10 * NatOf(s[..|s| - 1]) + (s[|s| - 1] as int - '0' as int)
  }

  function Magnitude(digits: string, negative: bool): Option<int> {
    if digits == [] || !AllDigits(digits) then None
    else
      var n: int := NatOf(digits);
      InInt64(if negative then -n else n)
  }

  /** `strconv.Atoi` on a 64-bit platform: optional sign, at least one digit, nothing else, in range. */
  function Atoi(s: string): Option<int> {
    if s != [] && s[0] == '-' then Magnitude(s[1..], true)
    else if s != [] && s[0] == '+' then Magnitude(s[1..], false)
    else Magnitude(s, false)
  }

  lemma {:induction false} NatOfDigits(n: nat)
    ensures NatOf(Digits(n)) == n
  {
    if n >= 10 {
      NatOfDigits(n / 10);
      assert Digits(n)[..|Digits(n)| - 1] == Digits(n / 10);
    }
  }

  /** The decimal digit of `n` at place `i`, counted from the units. */
  function Place(n: nat, i: nat): nat {
    if i == 0 then n % 10 else Place(n / 10, i - 1)
  }

  /** The text has the units last, each place in its position, and no leading zero. */
  lemma {:induction false} DigitsInPlace(n: nat, i: nat)
    requires i < |Digits(n)|
    ensures Digits(n)[|Digits(n)| - 1 - i] as int == '0' as int + Place(n, i)
    ensures n > 0 ==> Digits(n)[0] != '0'
  {
    if n >= 10 {
      var rest := Digits(n / 10);
      DigitsInPlace(n / 10, if i > 0 then i - 1 else 0);
      assert Digits(n)[0] == rest[0];
      if i > 0 {
        assert Digits(n)[|rest| - i] == rest[|rest| - 1 - (i - 1)];
      }
    }
  }

  function InInt64(v: int): Option<int> {
    if MIN_INT64 <= v <= MAX_INT64 then Some(v) else None
  }

  lemma {:induction false} MagnitudeOfDigits(n: nat, negative: bool)
    ensures Magnitude(Digits(n), negative) == InInt64(if negative then -(n as int) else n)
  {
    NatOfDigits(n);
  }

  /** Reading undoes printing on every 64-bit integer, and reports all others as out of range. */
  lemma {:induction false} AtoiItoa(n: int)
    ensures Atoi(Itoa(n)) == InInt64(n)
  {
    if n < 0 {
      assert Itoa(n)[1..] == Digits(-n);
      MagnitudeOfDigits(-n, true);
    } else {
      assert IsDigit(Itoa(n)[0]);
      MagnitudeOfDigits(n, false);
    }
  }

  lemma {:induction false} DigitsInjective(m: nat, n: nat)
    requires Digits(m) == Digits(n)
    ensures m == n
  {
    NatOfDigits(m);
    NatOfDigits(n);
    assert NatOf(Digits(m)) == NatOf(Digits(n));
  }

  /** Printing is injective, with no bound on the integers. */
  lemma {:induction false} ItoaInjective(m: int, n: int)
    requires Itoa(m) == Itoa(n)
    ensures m == n
  {
    var s := Itoa(m);
    if m < 0 {
      assert s[0] == '-' && n < 0;
      assert s[1..] == Digits(-m) == Digits(-n);
      DigitsInjective(-m, -n);
    } else {
      assert IsDigit(s[0]) && n >= 0;
      DigitsInjective(m, n);
    }
  }
}
