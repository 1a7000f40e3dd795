// Decimal numerals as Python prints and reads them.
module Numerals {
  import opened ByteStrings

  const MINUS: Byte := 45
  const ZERO: Byte := 48
  const COLON: Byte := 58

  predicate IsDigit(c: Byte) { 48 <= c <= 57 }

  predicate AllDigits(s: Bytes) {
    forall i :: 0 <= i < |s| ==> IsDigit(s[i])
  }

  // str(n) for a natural number.
  function Digits(n: nat): (s: Bytes)
    ensures s != [] && AllDigits(s)
    ensures s[0] == ZERO <==> n == 0
    ensures n == 0 ==> s == [ZERO]
  {
    if n < 10 then [48 + n] else Digits(n / 10) + [48 + n % 10]
  }

  // int(s) for a string of digits.
  function Number(s: Bytes): nat
    requires AllDigits(s)
  {
    if s == [] then 0 else 10 * Number(s[..|s| - 1]) + (s[|s| - 1] - 48)
  }

  // str(n) for any integer.
  function Decimal(n: int): Bytes {
    if n < 0 then [MINUS] + Digits(-n) else Digits(n)
  }

  function Pow10(k: nat): nat {
    if k == 0 then 1 else 10 * Pow10(k - 1)
  }

  lemma {:induction false} NumberOfDigits(n: nat)
    ensures Number(Digits(n)) == n
  {
    if n < 10 {
      assert Digits(n)[..0] == [];
    } else {
      NumberOfDigits(n / 10);
      assert Digits(n)[..|Digits(n)| - 1] == Digits(n / 10);
    }
  }

  lemma {:induction false} NumberIsPositive(s: Bytes)
    requires AllDigits(s) && s != [] && s[0] != ZERO
    ensures Number(s) > 0
  {
    if |s| > 1 {
      NumberIsPositive(s[..|s| - 1]);
    }
  }

  // A numeral without leading zeros is the one printed for its number.
  lemma {:induction false} DigitsOfNumber(s: Bytes)
    requires AllDigits(s) && s != [] && (|s| > 1 ==> s[0] != ZERO)
    ensures Digits(Number(s)) == s
  {
    var front, last := s[..|s| - 1], s[|s| - 1];
    assert s == front + [last];
    if |s| == 1 {
      assert Number(front) == 0;
    } else {
      DigitsOfNumber(front);
      NumberIsPositive(front);
      assert Number(s) / 10 == Number(front) && Number(s) % 10 == last - 48;
    }
  }

  lemma {:induction false} DigitsLength(n: nat, k: nat)
    requires k > 0
    ensures |Digits(n)| <= k <==> n < Pow10(k)
  {
    assert Pow10(1) == 10;
    if n < 10 {
      PowGrows(k);
    } else if k > 1 {
      DigitsLength(n / 10, k - 1);
    }
  }

  lemma {:induction false} PowGrows(k: nat)
    ensures Pow10(k) >= 1 && (k > 0 ==> Pow10(k) >= 10)
  {
    if k > 0 { PowGrows(k - 1); }
  }

  lemma DecimalStart(n: int)
    ensures Decimal(n) != [] && (Decimal(n)[0] == MINUS <==> n < 0)
  {}

  lemma DecimalIsInjective(a: int, b: int)
    requires Decimal(a) == Decimal(b)
    ensures a == b
  {
    DecimalStart(a);
    DecimalStart(b);
    if a < 0 {
      assert Decimal(a)[1..] == Digits(-a) && Decimal(b)[1..] == Digits(-b);
      NumberOfDigits(-a);
      NumberOfDigits(-b);
    } else {
      NumberOfDigits(a);
      NumberOfDigits(b);
    }
  }

  // A numeral of a 64-bit integer has at most twenty characters.
  lemma Int64Length(n: int)
    requires -0x8000_0000_0000_0000 <= n < 0x8000_0000_0000_0000
    ensures |Decimal(n)| <= 20
  {
    DigitsLength(if n < 0 then -n else n, 19);
    PowersOfTen();
  }

  lemma PowersOfTen()
    ensures Pow10(11) == 100_000_000_000
    ensures Pow10(19) == 10_000_000_000_000_000_000
  {
    assert Pow10(4) == 10_000;
    assert Pow10(8) == 100_000_000;
    assert Pow10(11) == 100_000_000_000;
    assert Pow10(15) == 1_000_000_000_000_000;
  }
}
