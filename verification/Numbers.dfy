/** Natural-number facts behind exact decimal arithmetic: powers, decimal digits, greatest
    common divisors, and the factors of two and five in a denominator. */
module Numbers {

  function Pow(b: nat, e: nat): nat {
    if e == 0 then 1 else b * Pow(b, e - 1)
  }

  lemma {:induction false} PowPositive(b: nat, e: nat)
    requires b > 0
    ensures Pow(b, e) > 0
  {
    if e > 0 {
      PowPositive(b, e - 1);
    }
  }

  lemma {:induction false} PowAdd(b: nat, e: nat, f: nat)
    ensures Pow(b, e + f) == Pow(b, e) * Pow(b, f)
  {
    if e > 0 {
      PowAdd(b, e - 1, f);
      MulAssoc(b, Pow(b, e - 1), Pow(b, f));
    }
  }

  lemma {:induction false} PowTen(n: nat)
    ensures Pow(10, n) == Pow(2, n) * Pow(5, n)
  {
    if n > 0 {
      PowTen(n - 1);
      TwoFive(Pow(2, n - 1), Pow(5, n - 1));
    }
  }

  lemma TwoFive(a: int, b: int)
    ensures (2 * a) * (5 * b) == 10 * (a * b)
  {
    MulAssoc(2, a, 5 * b);
    TimesFive(a, b);
  }

  lemma TimesFive(a: int, b: int)
    ensures a * (5 * b) == 5 * (a * b)
  {}

  // ----- Multiplication and division -----

  lemma MulAssoc(a: int, b: int, c: int)
    ensures (a * b) * c == a * (b * c)
  {}

  lemma MulCancel(t: int, a: int, b: int)
    requires t != 0 && t * a == t * b
    ensures a == b
  {
    assert t * (a - b) == 0;
  }

  /** Quotient and remainder are determined by their defining equation. */
  lemma DivModUnique(a: int, b: int, q: int, r: int)
    requires b > 0 && a == q * b + r && 0 <= r < b
    ensures a / b == q && a % b == r
  {
    var q', r' := a / b, a % b;
    DivMod(a, b);
    assert (q - q') * b == r' - r;
    if q > q' {
      MulAtLeast(q - q', b);
      assert false;
    } else if q < q' {
      MulAtLeast(q' - q, b);
      assert false;
    }
  }

  lemma DivMod(a: int, b: int)
    requires b > 0
    ensures a == (a / b) * b + a % b && 0 <= a % b < b
  {}

  lemma MulAtLeast(n: int, b: int)
    requires n >= 1 && b > 0
    ensures n * b >= b
  {}

  /** Dividing out a factor shrinks a positive number. */
  lemma DivShrinks(d: nat, b: nat)
    requires d > 0 && b > 1 && d % b == 0
    ensures 0 < d / b < d && d == b * (d / b)
  {
    DivMod(d, b);
    var q := d / b;
    if q <= 0 {
      MulAtLeast(1 - q, b);
      assert false;
    }
    MulAtLeast(q, b - 1);
    assert q * b == q * (b - 1) + q;
  }

  lemma ModScale(t: nat, a: nat, b: nat)
    requires t > 0 && b > 0
    ensures t * b > 0 && (t * a) % (t * b) == t * (a % b)
  {
    var q, r := a / b, a % b;
    DivMod(a, b);
    assert t * a == q * (t * b) + t * r by {
      MulAssoc(t, q, b);
      MulAssoc(q, t, b);
    }
    assert t * (b - r) >= t by { MulAtLeast(b - r, t); }
    DivModUnique(t * a, t * b, q, t * r);
  }

  // ----- Decimal digits -----

  predicate IsDigit(c: char) {
    '0' <= c <= '9'
  }

  predicate AllDigits(s: string) {
    forall i :: 0 <= i < |s| ==> IsDigit(s[i])
  }

  function DigitChar(d: nat): (c: char)
    requires d < 10
    ensures IsDigit(c)
  {
    ('0' as int + d) as char
  }

  function DigitValue(c: char): (d: nat)
    requires IsDigit(c)
    ensures d < 10
  {
    c as int - '0' as int
  }

  /** The decimal digits of n, most significant first and without leading zeros. */
  function Utoa(n: nat): (s: string)
    ensures s != "" && AllDigits(s)
  {
    if n < 10 then [DigitChar(n)] else Utoa(n / 10) + [DigitChar(n % 10)]
  }

  function Itoa(n: int): string {
    if n < 0 then "-" + Utoa(-n) else Utoa(n)
  }

  /** The number a string of digits denotes. */
  function DigitsValue(s: string): nat
    requires AllDigits(s)
  {
    if s == "" then 0 else 10 * DigitsValue(s[..|s| - 1]) + DigitValue(s[|s| - 1])
  }

  lemma {:induction false} DigitsValueUtoa(n: nat)
    ensures DigitsValue(Utoa(n)) == n
  {
    var s := Utoa(n);
    if n >= 10 {
      assert s[..|s| - 1] == Utoa(n / 10);
      DigitsValueUtoa(n / 10);
    } else {
      assert s[..|s| - 1] == "";
    }
  }

  lemma UtoaAppend(n: nat, d: nat)
    requires n > 0 && d < 10
    ensures Utoa(10 * n + d) == Utoa(n) + [DigitChar(d)]
  {
    assert (10 * n + d) / 10 == n && (10 * n + d) % 10 == d;
  }

  lemma DigitsAppend(init: string, c: char)
    requires AllDigits(init) && IsDigit(c)
    ensures AllDigits(init + [c]) && DigitsValue(init + [c]) == 10 * DigitsValue(init) + DigitValue(c)
    ensures DigitChar(DigitValue(c)) == c
  {
    assert (init + [c])[..|init + [c]| - 1] == init;
  }

  /** Utoa is the one decimal text of a number without leading zeros. */
  lemma {:induction false} UtoaCanonical(s: string)
    requires AllDigits(s) && s != ""
    ensures s == Utoa(DigitsValue(s)) <==> s == "0" || s[0] != '0'
    decreases |s|
  {
    hide DigitsValue, DigitChar, DigitValue;
    var init, c := s[..|s| - 1], s[|s| - 1];
    assert s == init + [c];
    DigitsAppend(init, c);
    if init == "" {
      OneDigitCanonical(s);
    } else {
      UtoaCanonical(init);
      OneDigitCanonical("0");
      if DigitsValue(init) > 0 {
        UtoaAppend(DigitsValue(init), DigitValue(c));
      } else {
        assert |Utoa(DigitsValue(s))| == 1;
      }
    }
  }

  lemma OneDigitCanonical(s: string)
    requires |s| == 1 && IsDigit(s[0])
    ensures AllDigits(s) && s == Utoa(DigitsValue(s)) && (s == "0" <==> s[0] == '0') && DigitsValue("0") == 0
  {
    assert s[..0] == "" && "0"[..0] == "";
  }

  lemma {:induction false} UtoaLength(n: nat, k: nat)
    requires k > 0 && n < Pow(10, k)
    ensures |Utoa(n)| <= k
  {
    if n >= 10 {
      assert Pow(10, k) == 10 * Pow(10, k - 1);
      UtoaLength(n / 10, k - 1);
    }
  }

  lemma UtoaInjective(m: nat, n: nat)
    requires Utoa(m) == Utoa(n)
    ensures m == n
  {
    DigitsValueUtoa(m);
    DigitsValueUtoa(n);
  }

  lemma ItoaSign(n: int)
    ensures Itoa(n) != "" && (Itoa(n)[0] == '-' <==> n < 0)
  {}

  /** Two integers print alike only when they are equal. */
  lemma ItoaInjective(m: int, n: int)
    requires Itoa(m) == Itoa(n)
    ensures m == n
  {
    if m < 0 && n < 0 {
      assert Utoa(-m) == Itoa(m)[1..] == Itoa(n)[1..] == Utoa(-n);
      UtoaInjective(-m, -n);
    } else if m >= 0 && n >= 0 {
      UtoaInjective(m, n);
    } else {
      ItoaSign(m);
      ItoaSign(n);
      assert false;
    }
  }

  lemma {:induction false} DigitsValueConcat(a: string, b: string)
    requires AllDigits(a) && AllDigits(b)
    ensures AllDigits(a + b)
    ensures DigitsValue(a + b) == DigitsValue(a) * Pow(10, |b|) + DigitsValue(b)
  {
    if b == "" {
      assert a + b == a;
    } else {
      var b' := b[..|b| - 1];
      assert (a + b)[..|a + b| - 1] == a + b';
      DigitsValueConcat(a, b');
      assert DigitsValue(a + b) == 10 * DigitsValue(a + b') + DigitValue(b[|b| - 1]);
      assert DigitsValue(b) == 10 * DigitsValue(b') + DigitValue(b[|b| - 1]);
      assert Pow(10, |b|) == 10 * Pow(10, |b'|);
      hide *;
      TenOut(DigitsValue(a), Pow(10, |b'|));
    }
  }

  function Zeros(n: nat): (s: string)
    ensures |s| == n && AllDigits(s)
  {
    if n == 0 then "" else Zeros(n - 1) + "0"
  }

  lemma {:induction false} DigitsValueZeros(n: nat)
    ensures DigitsValue(Zeros(n)) == 0
  {
    if n > 0 {
      var z := Zeros(n - 1);
      assert (z + "0")[..n - 1] == z;
      DigitsValueZeros(n - 1);
    }
  }

  // ----- Greatest common divisors -----

  ghost predicate Divides(d: int, n: int) {
    exists k :: d * k == n
  }

  function Gcd(a: nat, b: nat): (g: nat)
    ensures (a > 0 || b > 0) ==> g > 0
    decreases b
  {
    if b == 0 then a else Gcd(b, a % b)
  }

  lemma DividesLinear(d: int, a: int, b: int, q: int)
    requires Divides(d, a) && Divides(d, b)
    ensures Divides(d, a + q * b)
  {
    var j :| d * j == a;
    var k :| d * k == b;
    assert d * (j + q * k) == a + q * b by {
      assert d * (q * k) == q * (d * k);
    }
  }

  lemma {:induction false} GcdDivides(a: nat, b: nat)
    ensures Divides(Gcd(a, b), a) && Divides(Gcd(a, b), b)
    decreases b
  {
    if b == 0 {
      assert a * 1 == a && a * 0 == b;
    } else {
      GcdDivides(b, a % b);
      DividesLinear(Gcd(a, b), a % b, b, a / b);
      assert a == a % b + (a / b) * b;
    }
  }

  lemma {:induction false} GcdGreatest(d: nat, a: nat, b: nat)
    requires Divides(d, a) && Divides(d, b)
    ensures Divides(d, Gcd(a, b))
    decreases b
  {
    if b != 0 {
      DividesLinear(d, a, b, -(a / b));
      assert a + -(a / b) * b == a % b;
      GcdGreatest(d, b, a % b);
    }
  }

  lemma {:induction false} GcdScale(t: nat, a: nat, b: nat)
    requires t > 0
    ensures Gcd(t * a, t * b) == t * Gcd(a, b)
    decreases b
  {
    if b != 0 {
      ModScale(t, a, b);
      GcdScale(t, b, a % b);
    }
  }

  // ----- Factors of a denominator -----

  /** How many times b divides d. */
  function Multiplicity(d: nat, b: nat): nat
    requires d > 0 && b > 1
  {
    if d % b == 0 then DivShrinks(d, b); 1 + Multiplicity(d / b, b) else 0
  }

  /** d with every factor of b divided out. */
  function Cofactor(d: nat, b: nat): (q: nat)
    requires d > 0 && b > 1
    ensures q > 0 && q % b != 0
  {
    if d % b == 0 then DivShrinks(d, b); Cofactor(d / b, b) else d
  }

  lemma {:induction false} CofactorTimesPower(d: nat, b: nat)
    requires d > 0 && b > 1
    ensures d == Cofactor(d, b) * Pow(b, Multiplicity(d, b))
  {
    if d % b == 0 {
      DivShrinks(d, b);
      CofactorTimesPower(d / b, b);
      var c, p := Cofactor(d / b, b), Pow(b, Multiplicity(d / b, b));
      assert b * (c * p) == c * (b * p) by {
        MulAssoc(b, c, p);
        MulAssoc(c, b, p);
      }
    }
  }

  lemma OddTimes(a: int, b: int)
    ensures (a * b) % 2 == 0 ==> a % 2 == 0 || b % 2 == 0
  {
    if a % 2 != 0 && b % 2 != 0 {
      var j, k := a / 2, b / 2;
      assert a == 2 * j + 1 && b == 2 * k + 1;
      assert a * b == 2 * (2 * j * k + j + k) + 1;
    }
  }

  lemma NotFiveTimes(a: int, b: int)
    ensures (a * b) % 5 == 0 ==> a % 5 == 0 || b % 5 == 0
  {
    var j, k, r, s := a / 5, b / 5, a % 5, b % 5;
    var m := j * b + r * k;
    assert a * b == 5 * m + r * s by {
      MulAdd(5 * j, r, b);
      MulAdd(5 * k, s, r);
      MulAssoc(5, j, b);
      MulAssoc(5, k, r);
    }
    FiveResidues(a * b, m, r, s);
  }

  lemma MulAdd(a: int, b: int, c: int)
    ensures (a + b) * c == a * c + b * c
  {}

  lemma FiveResidues(n: int, m: int, r: int, s: int)
    requires n == 5 * m + r * s && 0 <= r < 5 && 0 <= s < 5
    ensures n % 5 == 0 ==> r == 0 || s == 0
  {
    if r == 1 {
      assert n == 5 * m + s;
    } else if r == 2 {
      assert n == 5 * m + 2 * s;
    } else if r == 3 {
      assert n == 5 * m + 3 * s;
    } else if r == 4 {
      assert n == 5 * m + 4 * s;
    }
  }

  lemma TensTimes(q: int, t: int)
    requires q % 2 != 0 && q % 5 != 0 && (q * t) % 10 == 0
    ensures t % 10 == 0
  {
    TenFactors(q * t);
    OddTimes(q, t);
    NotFiveTimes(q, t);
    TenFactors(t);
  }

  lemma TenFactors(n: int)
    ensures n % 10 == 0 <==> n % 2 == 0 && n % 5 == 0
  {}

  lemma TenOut(a: int, b: int)
    ensures a * (10 * b) == 10 * (a * b)
  {}

  lemma MultipleOfTen(n: int)
    ensures (10 * n) % 10 == 0
  {}

  /** A number prime to ten that divides a * 10^k already divides a. */
  lemma {:induction false} DividesWithoutTens(q: nat, t: int, a: int, k: nat)
    requires q % 2 != 0 && q % 5 != 0 && q * t == a * Pow(10, k)
    ensures Divides(q, a)
    decreases k
  {
    if k == 0 {
      assert q * t == a;
    } else {
      var p := Pow(10, k - 1);
      TenOut(a, p);
      MultipleOfTen(a * p);
      TensTimes(q, t);
      var u := t / 10;
      assert t == 10 * u;
      TenOut(q, u);
      DividesWithoutTens(q, u, a, k - 1);
    }
  }

  /** Taking one factor b out of both sides of a power times a number. */
  lemma FactorOut(b: int, x: int, u: int, c: int, s: int, y: int)
    requires b > 0 && (b * x) * u == s * ((b * c) * y)
    ensures x * u == (c * s) * y
  {
    var l, r := x * u, (c * s) * y;
    MulAssoc(b, x, u);
    assert s * ((b * c) * y) == b * r by {
      MulAssoc(b, c, y);
      MulAssoc(s, b, c * y);
      Swap(s, b);
      MulAssoc(b, s, c * y);
      MulAssoc(s, c, y);
      Swap(s, c);
    }
    MulCancel(b, l, r);
  }

  lemma Swap(a: int, b: int)
    ensures a * b == b * a
  {}

  lemma EvenPower(p: nat, u: int)
    requires p > 0
    ensures (Pow(2, p) * u) % 2 == 0
  {
    MulAssoc(2, Pow(2, p - 1), u);
    TimesRemainder(2, Pow(2, p - 1) * u);
    hide Pow;
  }

  lemma TimesRemainder(b: int, x: int)
    requires b > 0
    ensures (b * x) % b == 0
  {
    DivModUnique(b * x, b, x, 0);
  }

  lemma FiveTimesOdd(s: int)
    requires s % 2 != 0
    ensures (5 * s) % 2 != 0
  {}

  /** If 2^p divides s * 10^n and s is odd, then p is at most n. */
  lemma {:induction false} TwosBound(p: nat, u: int, s: int, n: nat)
    requires s % 2 != 0 && Pow(2, p) * u == s * Pow(10, n)
    ensures p <= n
    decreases n
  {
    if p > 0 && n == 0 {
      EvenPower(p, u);
      assert false;
    } else if p > 0 {
      FactorOut(2, Pow(2, p - 1), u, 5, s, Pow(10, n - 1));
      FiveTimesOdd(s);
      TwosBound(p - 1, u, 5 * s, n - 1);
    }
  }

  lemma FivePower(p: nat, u: int)
    requires p > 0
    ensures (Pow(5, p) * u) % 5 == 0
  {
    MulAssoc(5, Pow(5, p - 1), u);
    TimesRemainder(5, Pow(5, p - 1) * u);
    hide Pow;
  }

  lemma TwiceNotFive(s: int)
    requires s % 5 != 0
    ensures (2 * s) % 5 != 0
  {}

  /** If 5^p divides s * 10^n and five does not divide s, then p is at most n. */
  lemma {:induction false} FivesBound(p: nat, u: int, s: int, n: nat)
    requires s % 5 != 0 && Pow(5, p) * u == s * Pow(10, n)
    ensures p <= n
    decreases n
  {
    if p > 0 && n == 0 {
      FivePower(p, u);
      assert false;
    } else if p > 0 {
      FactorOut(5, Pow(5, p - 1), u, 2, s, Pow(10, n - 1));
      TwiceNotFive(s);
      FivesBound(p - 1, u, 2 * s, n - 1);
    }
  }
}
