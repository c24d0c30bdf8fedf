/** Decimal numbers as text. */
module Numbers {
  import opened Text

  const UINT_MAX := 0xFFFF_FFFF

  function DigitChar(d: nat): char
    requires d < 10
  {
    ('0' as int + d) as char
  }

  function DigitValue(c: char): nat
    requires Digit(c)
  {
    c as int - '0' as int
  }

  predicate AllDigits(s: string) { forall i | 0 <= i < |s| :: Digit(s[i]) }

  /** The number a string of digits stands for; none stand for 0. */
  function Number(s: string): nat
    requires AllDigits(s)
  {
    if s == [] then 0 else 10 * Number(s[..|s| - 1]) + DigitValue(s[|s| - 1])
  }

  /** The shortest string of digits for a number. */
  function Decimal(n: nat): (s: string)
    ensures s != [] && AllDigits(s)
  {
    if n < 10 then [DigitChar(n)] else Decimal(n / 10) + [DigitChar(n % 10)]
  }

  lemma {:induction false} NumberOfDecimal(n: nat)
    ensures Number(Decimal(n)) == n
  {
    var s := Decimal(n);
    if n < 10 {
      assert s[..0] == [];
    } else {
      NumberOfDecimal(n / 10);
      assert s[..|s| - 1] == Decimal(n / 10);
    }
  }

  /** Its digits, from the last one on, are those of the number: the one at place i, the
      number of times that ten to the i goes into it, but for tens of that. */
  lemma {:induction false} DigitAt(n: nat, i: nat)
    requires i < |Decimal(n)|
    ensures Decimal(n)[|Decimal(n)| - 1 - i] == "0123456789"[(n / Pow10(i)) % 10]
  {
    if i == 0 {
      DigitIs(n % 10);
    } else {
      DigitAt(n / 10, i - 1);
      DivideTwice(n, Pow10(i - 1));
    }
  }

  /** And there are no more of them than it takes. */
  lemma {:induction false} NoLeadingZero(n: nat)
    ensures |Decimal(n)| > 1 ==> Pow10(|Decimal(n)| - 1) <= n
    ensures n < Pow10(|Decimal(n)|)
  {
    if n >= 10 {
      NoLeadingZero(n / 10);
    }
  }

  lemma DigitIs(d: nat)
    requires d < 10
    ensures DigitChar(d) == "0123456789"[d]
  {
    assert d == 0 || d == 1 || d == 2 || d == 3 || d == 4 || d == 5 || d == 6 || d == 7 || d == 8 || d == 9;
  }

  lemma DivideTwice(n: nat, p: nat)
    requires p > 0
    ensures (n / 10) / p == n / (10 * p)
  {
    var q, r := (n / 10) / p, (n / 10) % p;
    assert n / 10 == p * q + r;
    var rest := 10 * r + n % 10;
    assert n == (10 * p) * q + rest;
    assert 0 <= rest < 10 * p;
    QuotientIs(n, 10 * p, q, rest);
  }

  lemma QuotientIs(n: nat, d: nat, q: nat, r: nat)
    requires d > 0 && r < d && n == d * q + r
    ensures n / d == q
  {
    var k := n / d;
    assert n == d * k + n % d;
    assert d * (k - q) == r - n % d;
    if k > q {
      AtLeastOnce(d, k - q);
    } else if k < q {
      AtLeastOnce(d, q - k);
    }
  }

  lemma AtLeastOnce(d: nat, x: nat)
    requires x > 0
    ensures d * x >= d
  {
    assert d * x == d * (x - 1) + d;
  }

  /** At most as many digits as the power of ten says. */
  lemma {:induction false} DecimalLength(n: nat, digits: nat, power: nat)
    requires digits >= 1 && power == Pow10(digits) && n < power
    ensures |Decimal(n)| <= digits
    decreases digits
  {
    if n >= 10 {
      assert digits > 1;
      DecimalLength(n / 10, digits - 1, Pow10(digits - 1));
    }
  }

  function Pow10(k: nat): (p: nat)
    ensures p > 0
  {
    if k == 0 then 1 else 10 * Pow10(k - 1)
  }
}
