/** Exact error budgets and alert thresholds (internal/slo/budget.go, internal/slo/alerts.go).

    An objective such as "99.5" is parsed into a rational, the budget 1 - objective/100 and the
    thresholds burnRate x budget are computed in rationals, and each is printed as a decimal.
    Nothing is rounded on the way. */
module Budget {
  import opened Numbers
  import opened Outcomes

  // ----- Rationals, as math/big keeps them: a positive denominator, in lowest terms -----

  datatype Rat = Rat(num: int, den: int)

  function Abs(n: int): nat {
    if n < 0 then -n else n
  }

  ghost predicate Reduced(r: Rat) {
    r.den > 0 && Gcd(Abs(r.num), r.den) == 1
  }

  /** r is the number n/d. */
  predicate Denotes(r: Rat, n: int, d: int) {
    r.num * d == n * r.den
  }

  function Norm(n: int, d: int): (r: Rat)
    requires d > 0
  {
    var g := Gcd(Abs(n), d);
    Rat(n / g, d / g)
  }

  function Mul(a: Rat, b: Rat): Rat
    requires a.den > 0 && b.den > 0
  {
    MulPositive(a.den, b.den);
    Norm(a.num * b.num, a.den * b.den)
  }

  function Quo(a: Rat, b: Rat): Rat
    requires a.den > 0 && b.den > 0 && b.num > 0
  {
    MulPositive(a.den, b.num);
    Norm(a.num * b.den, a.den * b.num)
  }

  function Sub(a: Rat, b: Rat): Rat
    requires a.den > 0 && b.den > 0
  {
    MulPositive(a.den, b.den);
    Norm(a.num * b.den - b.num * a.den, a.den * b.den)
  }

  predicate Less(a: Rat, b: Rat)
    requires a.den > 0 && b.den > 0
  {
    a.num * b.den < b.num * a.den
  }

  lemma MulPositive(a: int, b: int)
    requires a > 0 && b > 0
    ensures a * b > 0
  {}

  lemma AbsMul(t: nat, n: int)
    ensures Abs(t * n) == t * Abs(n)
  {}

  lemma FourProduct(a: int, b: int, c: int, d: int)
    ensures (a * b) * (c * d) == (a * c) * (b * d)
  {
    MulAssoc(a, b, c * d);
    MulAssoc(b, c, d);
    MulAssoc(c, b, d);
    MulAssoc(a, c, b * d);
  }

  /** Norm divides numerator and denominator by one common factor and leaves none. */
  lemma NormParts(n: int, d: int) returns (g: int)
    requires d > 0
    ensures g == Gcd(Abs(n), d) && g > 0
    ensures Norm(n, d).den > 0 && n == g * Norm(n, d).num && d == g * Norm(n, d).den
  {
    g := Gcd(Abs(n), d);
    GcdDivides(Abs(n), d);
    var k :| g * k == Abs(n);
    var m :| g * m == d;
    var s := if n < 0 then -k else k;
    DivModUnique(n, g, s, 0);
    DivModUnique(d, g, m, 0);
    SameSign(-m, g, -d, 1);
  }

  /** Dividing out the greatest common divisor gives the same number, in lowest terms. */
  lemma NormFacts(n: int, d: int)
    requires d > 0
    ensures Reduced(Norm(n, d)) && Denotes(Norm(n, d), n, d)
  {
    var g := NormParts(n, d);
    var s, m := Norm(n, d).num, Norm(n, d).den;
    AbsMul(g, s);
    GcdScale(g, Abs(s), m);
    MulCancel(g, Gcd(Abs(s), m), 1);
    MulAssoc(g, s, m);
    MulAssoc(s, g, m);
  }

  lemma NormScale(t: int, n: int, d: int)
    requires t > 0 && d > 0
    ensures t * d > 0 && Norm(t * n, t * d) == Norm(n, d)
  {
    MulPositive(t, d);
    var g := NormParts(n, d);
    var s, m := Norm(n, d).num, Norm(n, d).den;
    AbsMul(t, n);
    GcdScale(t, Abs(n), d);
    MulPositive(t, g);
    MulAssoc(t, g, s);
    MulAssoc(t, g, m);
    DivModUnique(t * n, t * g, s, 0);
    DivModUnique(t * d, t * g, m, 0);
  }

  lemma NormCross(n: int, d: int, m: int, e: int)
    requires d > 0 && e > 0 && n * e == m * d
    ensures Norm(n, d) == Norm(m, e)
  {
    NormScale(e, n, d);
    NormScale(d, m, e);
    assert e * n == d * m && e * d == d * e;
  }

  /** A number has one representation in lowest terms. */
  lemma NormUnique(r: Rat, n: int, d: int)
    requires Reduced(r) && d > 0 && Denotes(r, n, d)
    ensures r == Norm(n, d)
  {
    NormCross(r.num, r.den, n, d);
  }

  lemma MulDenotes(a: Rat, b: Rat, n: int, d: int, m: int, e: int)
    requires a.den > 0 && b.den > 0 && d > 0 && e > 0
    requires Denotes(a, n, d) && Denotes(b, m, e)
    ensures d * e > 0 && Mul(a, b) == Norm(n * m, d * e)
  {
    MulPositive(a.den, b.den);
    MulPositive(d, e);
    FourProduct(a.num, b.num, d, e);
    FourProduct(n, m, a.den, b.den);
    NormCross(a.num * b.num, a.den * b.den, n * m, d * e);
  }

  /** Dividing by 100. */
  lemma QuoHundred(r: Rat, n: int, d: int)
    requires r.den > 0 && d > 0 && Denotes(r, n, d)
    ensures Quo(r, Rat(100, 1)) == Norm(n, 100 * d)
  {
    assert r.num * (100 * d) == n * (r.den * 100);
    NormCross(r.num, r.den * 100, n, 100 * d);
  }

  lemma OneMinus(r: Rat, n: int, d: int)
    requires r.den > 0 && d > 0 && Denotes(r, n, d)
    ensures Sub(Rat(1, 1), r) == Norm(d - n, d)
  {
    assert (r.den - r.num) * d == (d - n) * r.den;
    NormCross(r.den - r.num, r.den, d - n, d);
  }

  lemma SameSign(x: int, d: int, y: int, e: int)
    requires d > 0 && e > 0 && x * d == y * e
    ensures x < 0 <==> y < 0
  {
    if x < 0 && y >= 0 {
      MulAtLeast(-x, d);
      assert false;
    }
    if x >= 0 && y < 0 {
      MulAtLeast(-y, e);
      assert false;
    }
  }

  // ----- Plain decimals -----

  /** Where the first dot is, or the end of s. */
  function Dot(s: string): (d: nat)
    ensures d <= |s| && (d < |s| ==> s[d] == '.')
    ensures forall i :: 0 <= i < d ==> s[i] != '.'
  {
    if s == "" || s[0] == '.' then 0 else 1 + Dot(s[1..])
  }

  function IntegerPart(s: string): string {
    s[..Dot(s)]
  }

  function FractionPart(s: string): string {
    if Dot(s) == |s| then "" else s[Dot(s) + 1..]
  }

  /** s is digits, optionally followed by a dot and more digits. */
  predicate PlainDecimal(s: string) {
    && Dot(s) > 0 && AllDigits(IntegerPart(s)) && AllDigits(FractionPart(s))
    && (Dot(s) < |s| ==> FractionPart(s) != "")
  }

  lemma DotUnique(s: string, d: nat)
    requires d <= |s| && (d < |s| ==> s[d] == '.') && forall i :: 0 <= i < d ==> s[i] != '.'
    ensures Dot(s) == d
  {}

  /** PlainDecimal is the language of the CRD's pattern [0-9]+(\.[0-9]+)? . */
  lemma PlainDecimalGrammar(s: string)
    ensures PlainDecimal(s) <==>
            || (s != "" && AllDigits(s))
            || exists ip, fp :: ip != "" && fp != "" && AllDigits(ip) && AllDigits(fp) && s == ip + "." + fp
  {
    if PlainDecimal(s) {
      if Dot(s) == |s| {
        assert s == IntegerPart(s);
      } else {
        assert s == IntegerPart(s) + "." + FractionPart(s);
      }
    }
    if s != "" && AllDigits(s) {
      DotUnique(s, |s|);
      assert IntegerPart(s) == s;
    } else if ip, fp :| ip != "" && fp != "" && AllDigits(ip) && AllDigits(fp) && s == ip + "." + fp {
      DecimalParts(ip, fp);
    }
  }

  lemma DecimalParts(ip: string, fp: string)
    requires ip != "" && AllDigits(ip) && AllDigits(fp)
    ensures fp != "" ==>
              var s := ip + "." + fp;
              PlainDecimal(s) && IntegerPart(s) == ip && FractionPart(s) == fp
    ensures PlainDecimal(ip) && IntegerPart(ip) == ip && FractionPart(ip) == ""
  {
    DotUnique(ip, |ip|);
    if fp != "" {
      var s := ip + "." + fp;
      assert s[|ip|] == '.';
      assert forall i :: 0 <= i < |ip| ==> s[i] == ip[i];
      DotUnique(s, |ip|);
      assert s[..|ip|] == ip && s[|ip| + 1..] == fp;
    }
  }

  lemma Snoc(s: string, a: nat, i: nat)
    requires a <= i < |s|
    ensures s[a..i + 1] == s[a..i] + [s[i]]
  {}

  /** The three-flag scanner accepts exactly the plain decimals. */
  method IsDecimal(s: string) returns (ok: bool)
    ensures ok <==> PlainDecimal(s)
  {
    var seenDigit, seenDot, digitAfterDot := false, false, false;
    var i := 0;
    while i < |s|
      invariant 0 <= i <= |s|
      invariant seenDigit ==> i > 0
      invariant !seenDot ==> !digitAfterDot && (seenDigit <==> i > 0) && AllDigits(s[..i])
      invariant seenDot ==> seenDigit && 0 < Dot(s) < i && AllDigits(s[..Dot(s)]) && AllDigits(s[Dot(s) + 1..i])
      invariant seenDot ==> (digitAfterDot <==> Dot(s) + 1 < i)
    {
      var r := s[i];
      if '0' <= r <= '9' {
        seenDigit := true;
        Snoc(s, 0, i);
        if seenDot {
          digitAfterDot := true;
          Snoc(s, Dot(s) + 1, i);
        }
      } else if r == '.' && seenDigit && !seenDot {
        seenDot := true;
        assert forall j :: 0 <= j < i ==> s[..i][j] == s[j];
        DotUnique(s, i);
      } else {
        RejectedAt(s, i, seenDot);
        return false;
      }
      i := i + 1;
    }
    if !seenDot {
      assert s[..i] == s;
      if seenDigit {
        DotUnique(s, |s|);
      }
    } else {
      assert s[Dot(s) + 1..i] == s[Dot(s) + 1..];
    }
    return seenDigit && (!seenDot || digitAfterDot);
  }

  /** A character the scanner rejects rules out every reading as a plain decimal. */
  lemma RejectedAt(s: string, i: nat, seenDot: bool)
    requires i < |s| && !IsDigit(s[i])
    requires s[i] == '.' ==> seenDot || i == 0
    requires seenDot ==> Dot(s) < i
    ensures !PlainDecimal(s)
  {}

  /** The digits of a plain decimal read as one number, as if there were no dot. */
  function Numerator(s: string): nat
    requires PlainDecimal(s)
  {
    DigitsValue(IntegerPart(s)) * Pow(10, |FractionPart(s)|) + DigitsValue(FractionPart(s))
  }

  function FractionDigits(s: string): nat {
    |FractionPart(s)|
  }

  /** big.Rat.SetString on a plain decimal. */
  function SetString(s: string): Rat
    requires PlainDecimal(s)
  {
    PowPositive(10, FractionDigits(s));
    Norm(Numerator(s), Pow(10, FractionDigits(s)))
  }

  // ----- Error budgets -----

  datatype BudgetError = NotDecimal | OutOfRange

  function ErrorBudget(objective: string): Result<Rat, BudgetError> {
    if !PlainDecimal(objective) then Err(NotDecimal)
    else
      var percent := SetString(objective);
      SetStringReduced(objective);
      if Less(percent, Rat(90, 1)) || !Less(percent, Rat(100, 1)) then Err(OutOfRange)
      else
        var target := Quo(percent, Rat(100, 1));
        QuoReduced(percent, Rat(100, 1));
        Ok(Sub(Rat(1, 1), target))
  }

  lemma SetStringReduced(s: string)
    requires PlainDecimal(s)
    ensures Reduced(SetString(s))
    ensures Denotes(SetString(s), Numerator(s), Pow(10, FractionDigits(s)))
  {
    PowPositive(10, FractionDigits(s));
    NormFacts(Numerator(s), Pow(10, FractionDigits(s)));
  }

  lemma QuoReduced(a: Rat, b: Rat)
    requires a.den > 0 && b.den > 0 && b.num > 0
    ensures Reduced(Quo(a, b))
  {
    MulPositive(a.den, b.num);
    NormFacts(a.num * b.den, a.den * b.num);
  }

  /** Comparing with a whole number does not depend on the representation. */
  lemma LessWhole(r: Rat, n: int, d: int, w: int)
    requires r.den > 0 && d > 0 && Denotes(r, n, d)
    ensures Less(r, Rat(w, 1)) <==> n < w * d
  {
    assert (r.num - w * r.den) * d == (n - w * d) * r.den by {
      MulAssoc(w, r.den, d);
      MulAssoc(w, d, r.den);
    }
    SameSign(r.num - w * r.den, d, n - w * d, r.den);
  }

  /** An objective is accepted exactly when it is a plain decimal of value in [90, 100), however
      many digits it has, and its budget is exactly 1 - objective/100, which lies in (0, 1/10]. */
  lemma ErrorBudgetExact(s: string)
    ensures ErrorBudget(s).Ok? <==>
              PlainDecimal(s) &&
              90 * Pow(10, FractionDigits(s)) <= Numerator(s) < 100 * Pow(10, FractionDigits(s))
    ensures ErrorBudget(s).Ok? ==>
              var b, p := ErrorBudget(s).value, Pow(10, FractionDigits(s));
              Reduced(b) && Denotes(b, 100 * p - Numerator(s), 100 * p) && 0 < b.num && 10 * b.num <= b.den
  {
    if PlainDecimal(s) {
      var n, p := Numerator(s), Pow(10, FractionDigits(s));
      PowPositive(10, FractionDigits(s));
      var percent := SetString(s);
      SetStringReduced(s);
      LessWhole(percent, n, p, 90);
      LessWhole(percent, n, p, 100);
      if ErrorBudget(s).Ok? {
        QuoHundred(percent, n, p);
        NormFacts(n, 100 * p);
        OneMinus(Norm(n, 100 * p), n, 100 * p);
        NormFacts(100 * p - n, 100 * p);
        BudgetRange(ErrorBudget(s).value, n, p);
      }
    }
  }

  /** The documented example: objective "99.5" leaves 1/200. */
  lemma BudgetOfNinetyNinePointFive()
    ensures ErrorBudget("99.5") == Ok(Rat(1, 200))
  {
    assert "99" + "." + "5" == "99.5";
    DecimalParts("99", "5");
    var s := "99.5";
    assert Numerator(s) == 995 && Pow(10, FractionDigits(s)) == 10 by {
      assert DigitsValue("99") == 99 && DigitsValue("5") == 5 && Pow(10, 1) == 10;
    }
    ErrorBudgetExact(s);
    var b := ErrorBudget(s).value;
    hide ErrorBudget, Norm;
    assert Reduced(Rat(1, 200));
    NormUnique(b, 5, 1000);
    NormUnique(Rat(1, 200), 5, 1000);
  }

  lemma BudgetPositive(s: string)
    requires ErrorBudget(s).Ok?
    ensures Reduced(ErrorBudget(s).value) && ErrorBudget(s).value.num > 0 && ErrorBudget(s).value.den > 0
  {
    ErrorBudgetExact(s);
  }

  lemma BudgetRange(b: Rat, n: int, p: int)
    requires b.den > 0 && p > 0 && 90 * p <= n < 100 * p && Denotes(b, 100 * p - n, 100 * p)
    ensures 0 < b.num && 10 * b.num <= b.den
  {
    assert b.num * (100 * p) == (100 * p - n) * b.den;
    SameSign(-b.num, 100 * p, n - 100 * p, b.den);
    assert (b.den - 10 * b.num) * (100 * p) == (10 * n - 900 * p) * b.den;
    SameSign(b.den - 10 * b.num, 100 * p, 10 * n - 900 * p, b.den);
  }

  // ----- Printing without rounding -----

  /** big.Rat.FloatPrec: the digits a decimal expansion needs, and whether it is then exact. */
  function FloatPrec(x: Rat): (r: (nat, bool))
    requires x.den > 0
  {
    var twos, fives := Multiplicity(x.den, 2), Multiplicity(Cofactor(x.den, 2), 5);
    (if twos > fives then twos else fives, Cofactor(Cofactor(x.den, 2), 5) == 1)
  }

  function Padded(f: nat, width: nat): string {
    (if |Utoa(f)| < width then Zeros(width - |Utoa(f)|) else "") + Utoa(f)
  }

  /** Digits after the dot, padded with zeros on the left to prec digits. */
  function Fraction(f: nat, prec: nat): string {
    if prec == 0 then "" else "." + Padded(f, prec)
  }

  /** r/d in units of 1/p, halves up. */
  function RoundedFraction(r: nat, d: nat, p: nat): nat
    requires d > 0
  {
    NatProduct(r, p);
    NatDivMod(r * p, d);
    r * p / d + if d <= 2 * (r * p % d) then 1 else 0
  }

  /** n/d with prec fraction digits, the last one rounded half up. */
  function SizeString(n: nat, d: nat, prec: nat): string
    requires d > 0
  {
    if d == 1 then Utoa(n) + (if prec > 0 then "." + Zeros(prec) else "")
    else
      NatDivMod(n, d);
      var q, p := n / d, Pow(10, prec);
      var f := RoundedFraction(n % d, d, p);
      if f >= p then Utoa(q + 1) + Fraction(f - p, prec) else Utoa(q) + Fraction(f, prec)
  }

  /** big.Rat.FloatString: x with prec fraction digits, the last one rounded half away from zero. */
  function FloatString(x: Rat, prec: nat): string
    requires x.den > 0
  {
    (if x.num < 0 then "-" else "") + SizeString(Abs(x.num), x.den, prec)
  }

  lemma NatDivMod(n: nat, d: nat)
    requires d > 0
    ensures n / d >= 0 && 0 <= n % d < d
  {}

  const FALLBACK_DIGITS := 12

  function Decimal(x: Rat): string
    requires x.den > 0
  {
    var (digits, exact) := FloatPrec(x);
    FloatString(x, if exact then digits else FALLBACK_DIGITS)
  }

  /** Reading back digits that were joined with a dot. */
  lemma Reads(ip: string, fp: string)
    requires ip != "" && AllDigits(ip) && AllDigits(fp)
    ensures var s := if fp == "" then ip else ip + "." + fp;
            && PlainDecimal(s) && FractionDigits(s) == |fp|
            && Numerator(s) == DigitsValue(ip) * Pow(10, |fp|) + DigitsValue(fp)
  {
    DecimalParts(ip, fp);
  }

  lemma PaddedValue(f: nat, prec: nat)
    requires prec > 0 && f < Pow(10, prec)
    ensures |Padded(f, prec)| == prec && AllDigits(Padded(f, prec)) && DigitsValue(Padded(f, prec)) == f
  {
    UtoaLength(f, prec);
    assert Zeros(0) == "";
    var pad := if |Utoa(f)| < prec then Zeros(prec - |Utoa(f)|) else "";
    ZeroPrefix(pad, f);
  }

  lemma ZeroPrefix(pad: string, f: nat)
    requires exists n: nat :: pad == Zeros(n)
    ensures AllDigits(pad + Utoa(f)) && DigitsValue(pad + Utoa(f)) == f
  {
    var n: nat :| pad == Zeros(n);
    DigitsValueZeros(n);
    DigitsValueUtoa(f);
    DigitsValueConcat(pad, Utoa(f));
  }

  lemma FractionText(q: nat, f: nat, prec: nat) returns (fp: string)
    requires f < Pow(10, prec)
    ensures |fp| == prec && AllDigits(fp) && DigitsValue(fp) == f
    ensures Utoa(q) + Fraction(f, prec) == if fp == "" then Utoa(q) else Utoa(q) + "." + fp
  {
    if prec == 0 {
      fp := "";
    } else {
      PaddedValue(f, prec);
      fp := Padded(f, prec);
    }
  }

  lemma FractionParses(q: nat, f: nat, prec: nat)
    requires f < Pow(10, prec)
    ensures var s := Utoa(q) + Fraction(f, prec);
            PlainDecimal(s) && FractionDigits(s) == prec && Numerator(s) == q * Pow(10, prec) + f
  {
    var fp := FractionText(q, f, prec);
    DigitsValueUtoa(q);
    Reads(Utoa(q), fp);
  }

  lemma LongDivision(a: nat, d: nat, p: nat)
    requires d > 0
    ensures a * p == ((a / d) * p + (a % d) * p / d) * d + (a % d) * p % d
  {
    var q, r := a / d, a % d;
    DivMod(a, d);
    DivMod(r * p, d);
    Distribute(q * d, r, p);
    MulAssoc(q, d, p);
    MulAssoc(q, p, d);
    Distribute(q * p, r * p / d, d);
  }

  lemma Distribute(a: int, b: int, c: int)
    ensures (a + b) * c == a * c + b * c
  {}

  lemma FractionBelowOne(r: nat, d: nat, p: nat)
    requires r < d && p > 0
    ensures 0 <= r * p / d < p
  {
    DivMod(r * p, d);
    var f := r * p / d;
    Distribute(d, 0 - r, p);
    MulAtLeast(d - r, p);
    if f >= p {
      MulAtLeast(f - p + 1, d);
      Distribute(f, 1 - p, d);
      assert false;
    } else if f < 0 {
      MulAtLeast(-f, d);
      assert false;
    }
  }

  lemma CarryRounds(n: int, d: int, w: int, r: int)
    requires d > 0 && n == w * d + r && 0 <= r < d
    ensures (2 * n + d) / (2 * d) == w + if d <= 2 * r then 1 else 0
  {
    var carry := if d <= 2 * r then 1 else 0;
    MulAssoc(w, d, 2);
    Distribute(w, carry, 2 * d);
    DivModUnique(2 * n + d, 2 * d, w + carry, 2 * r + d - carry * (2 * d));
  }

  /** The carry in FloatString rounds a*p/d to the nearest integer, halves up. */
  lemma RoundedQuotient(a: nat, d: nat, p: nat)
    requires d > 0 && p > 0
    ensures (a / d) * p + RoundedFraction(a % d, d, p) == (2 * (a * p) + d) / (2 * d)
    ensures RoundedFraction(a % d, d, p) <= p
    ensures a / d >= 0
  {
    LongDivision(a, d, p);
    DivMod(a, d);
    RoundedBelow(a % d, d, p);
    RoundsTo(a * p, d, (a / d) * p, a % d, p);
  }

  lemma RoundedBelow(r: nat, d: nat, p: nat)
    requires r < d && p > 0
    ensures RoundedFraction(r, d, p) <= p
  {
    FractionBelowOne(r, d, p);
  }

  lemma RoundsTo(n: int, d: nat, whole: int, r: nat, p: nat)
    requires d > 0 && n == (whole + r * p / d) * d + r * p % d
    ensures whole + RoundedFraction(r, d, p) == (2 * n + d) / (2 * d)
  {
    DivMod(r * p, d);
    CarryRounds(n, d, whole + r * p / d, r * p % d);
  }

  lemma WholeText(n: nat, prec: nat)
    ensures SizeString(n, 1, prec) == Utoa(n) + Fraction(0, prec)
  {}

  /** What FloatString prints: a whole part and prec fraction digits, carried when they overflow. */
  lemma SplitText(n: nat, d: nat, prec: nat) returns (q: nat, f: nat)
    requires d > 1
    ensures f < Pow(10, prec) && SizeString(n, d, prec) == Utoa(q) + Fraction(f, prec)
    ensures q * Pow(10, prec) + f == (2 * (n * Pow(10, prec)) + d) / (2 * d)
  {
    hide Utoa, Pow, Fraction, RoundedFraction;
    PowPositive(10, prec);
    RoundedQuotient(n, d, Pow(10, prec));
    q := n / d;
    f := RoundedFraction(n % d, d, Pow(10, prec));
    if f >= Pow(10, prec) {
      Distribute(q, 1, Pow(10, prec));
      q, f := q + 1, f - Pow(10, prec);
    }
  }

  /** The text without a sign is the multiple of 10^-prec nearest to n/d, with exactly prec fraction
      digits. */
  lemma SizeRounds(n: nat, d: nat, prec: nat)
    requires d > 0
    ensures var s := SizeString(n, d, prec);
            && PlainDecimal(s) && FractionDigits(s) == prec
            && Numerator(s) == (2 * (n * Pow(10, prec)) + d) / (2 * d)
  {
    hide SizeString, Fraction, PlainDecimal, FractionDigits, Numerator, Utoa, Pow;
    if d == 1 {
      WholeText(n, prec);
      PowPositive(10, prec);
      FractionParses(n, 0, prec);
    } else {
      var q, f := SplitText(n, d, prec);
      FractionParses(q, f, prec);
    }
  }

  /** FloatString prints a sign for a negative number, and then the multiple of 10^-prec nearest to its
      size, with exactly prec fraction digits. */
  lemma FloatStringRounds(x: Rat, prec: nat)
    requires x.den > 0
    ensures var t := SizeString(Abs(x.num), x.den, prec);
            && FloatString(x, prec) == (if x.num < 0 then "-" + t else t)
            && PlainDecimal(t) && FractionDigits(t) == prec
            && Numerator(t) == (2 * (Abs(x.num) * Pow(10, prec)) + x.den) / (2 * x.den)
  {
    hide PlainDecimal, Numerator, FractionDigits, SizeString;
    SizeRounds(Abs(x.num), x.den, prec);
    var t := SizeString(Abs(x.num), x.den, prec);
    assert "" + t == t;
  }

  /** x has a decimal expansion with k fraction digits: it is m / 10^k. */
  predicate Expands(x: Rat, k: nat, m: int) {
    x.num * Pow(10, k) == m * x.den
  }

  lemma EvenFactor(a: int, b: int)
    ensures a % 2 == 0 ==> (a * b) % 2 == 0
  {
    if a % 2 == 0 {
      MulAssoc(2, a / 2, b);
    }
  }

  lemma DenominatorParts(d: nat) returns (q: nat, fives: nat, twos: nat)
    requires d > 0
    ensures twos == Multiplicity(d, 2) && fives == Multiplicity(Cofactor(d, 2), 5)
    ensures q == Cofactor(Cofactor(d, 2), 5) && q % 2 != 0 && q % 5 != 0
    ensures d == (q * Pow(5, fives)) * Pow(2, twos)
    ensures q == 1 ==> d == Pow(2, twos) * Pow(5, fives)
  {
    hide *;
    twos, fives := Multiplicity(d, 2), Multiplicity(Cofactor(d, 2), 5);
    q := Cofactor(Cofactor(d, 2), 5);
    CofactorTimesPower(d, 2);
    CofactorTimesPower(Cofactor(d, 2), 5);
    EvenFactor(q, Pow(5, fives));
  }

  lemma CommonDivisorIsOne(x: Rat, d: nat)
    requires Reduced(x) && Divides(d, x.num) && Divides(d, x.den)
    ensures d == 1
  {
    var k :| d * k == x.num;
    assert d * -k == -x.num;
    assert Divides(d, Abs(x.num));
    GcdGreatest(d, Abs(x.num), x.den);
    var j :| d * j == 1;
    if d > 1 && j >= 1 {
      MulAtLeast(j, d);
      assert false;
    }
    SameSign(-j, d, -1, 1);
  }

  lemma PowerDivides(b: nat, r: int, n: nat, d: int)
    requires n > 0 && d == Pow(b, n) * r
    ensures Divides(b, d)
  {
    MulAssoc(b, Pow(b, n - 1), r);
    assert d == b * (Pow(b, n - 1) * r);
    hide Pow;
  }

  lemma ResidueDivides(b: nat, n: int)
    requires b > 0 && n % b == 0
    ensures Divides(b, n)
  {
    DivMod(n, b);
    assert n == b * (n / b);
  }

  /** In lowest terms, a prime of the denominator does not divide the numerator. */
  lemma NumeratorPrime(x: Rat, b: nat, r: int, n: nat)
    requires Reduced(x) && b > 1 && n > 0 && x.den == Pow(b, n) * r
    ensures x.num % b != 0
  {
    hide Reduced, Pow;
    if x.num % b == 0 {
      PowerDivides(b, r, n, x.den);
      ResidueDivides(b, x.num);
      CommonDivisorIsOne(x, b);
      assert false;
    }
  }

  lemma TwosFit(x: Rat, k: nat, m: int, r: int, twos: nat)
    requires Reduced(x) && Expands(x, k, m) && x.den == Pow(2, twos) * r
    ensures twos <= k
  {
    hide Reduced, Pow;
    if twos > 0 {
      NumeratorPrime(x, 2, r, twos);
      Swapped(m, Pow(2, twos), r);
      TwosBound(twos, m * r, x.num, k);
    }
  }

  lemma FivesFit(x: Rat, k: nat, m: int, r: int, fives: nat)
    requires Reduced(x) && Expands(x, k, m) && x.den == Pow(5, fives) * r
    ensures fives <= k
  {
    hide Reduced, Pow;
    if fives > 0 {
      NumeratorPrime(x, 5, r, fives);
      Swapped(m, Pow(5, fives), r);
      FivesBound(fives, m * r, x.num, k);
    }
  }

  lemma Swapped(m: int, p: int, r: int)
    ensures m * (p * r) == p * (m * r)
  {}

  /** FloatPrec counts no digit too many: whatever expansion x has, FloatPrec's is exact and no longer. */
  lemma FloatPrecMinimal(x: Rat, k: nat, m: int)
    requires Reduced(x) && Expands(x, k, m)
    ensures FloatPrec(x).1 && FloatPrec(x).0 <= k
  {
    hide Pow, Multiplicity, Cofactor;
    var q, fives, twos := DenominatorParts(x.den);
    var f, t := Pow(5, fives), Pow(2, twos);
    DenominatorOrders(q, f, t);
    TwosFit(x, k, m, q * f, twos);
    FivesFit(x, k, m, q * t, fives);
    Regroup(m, q, f, t);
    DividesWithoutTens(q, m * (f * t), x.num, k);
    OnlyTens(x, q, f * t);
  }

  lemma DenominatorOrders(q: int, f: int, t: int)
    ensures (q * f) * t == t * (q * f) && (q * f) * t == f * (q * t) && (q * f) * t == q * (f * t)
  {}

  lemma OnlyTens(x: Rat, q: nat, r: int)
    requires Reduced(x) && Divides(q, x.num) && x.den == q * r
    ensures q == 1
  {
    hide Reduced;
    assert Divides(q, x.den);
    CommonDivisorIsOne(x, q);
  }

  lemma Regroup(m: int, q: int, f: int, t: int)
    ensures m * ((q * f) * t) == q * (m * (f * t))
    ensures m * ((q * f) * t) == t * (m * (q * f))
    ensures m * ((q * f) * t) == f * (m * (q * t))
  {}

  lemma EnoughTens(twos: nat, fives: nat, n: nat) returns (w: nat)
    requires twos <= n && fives <= n
    ensures Pow(10, n) == (Pow(2, twos) * Pow(5, fives)) * w
  {
    PowTen(n);
    PowAdd(2, twos, n - twos);
    PowAdd(5, fives, n - fives);
    w := Pow(2, n - twos) * Pow(5, n - fives);
    FourProduct(Pow(2, twos), Pow(2, n - twos), Pow(5, fives), Pow(5, n - fives));
  }

  lemma EnoughDigits(d: nat) returns (w: nat)
    requires d > 0 && FloatPrec(Rat(1, d)).1
    ensures Pow(10, FloatPrec(Rat(1, d)).0) == d * w
  {
    var q, fives, twos := DenominatorParts(d);
    w := EnoughTens(twos, fives, FloatPrec(Rat(1, d)).0);
    hide *;
  }

  /** An exact FloatPrec gives enough digits. */
  lemma FloatPrecEnough(x: Rat) returns (m: int)
    requires Reduced(x) && x.num >= 0 && FloatPrec(x).1
    ensures Expands(x, FloatPrec(x).0, m) && m >= 0
  {
    var w := EnoughDigits(x.den);
    m := x.num * w;
    MulAssoc(x.num, w, x.den);
    Commute(w, x.den);
    NatProduct(x.num, w);
  }

  lemma FiniteIffExact(x: Rat)
    requires Reduced(x) && x.num >= 0
    ensures FloatPrec(x).1 <==> exists k: nat, m: int :: Expands(x, k, m)
  {
    if k: nat, m: int :| Expands(x, k, m) {
      FloatPrecMinimal(x, k, m);
    }
    if FloatPrec(x).1 {
      var m := FloatPrecEnough(x);
    }
  }

  lemma ExactRounding(n: int, d: int, m: int)
    requires d > 0 && n == m * d
    ensures (2 * n + d) / (2 * d) == m
  {
    assert 2 * n + d == m * (2 * d) + d;
    DivModUnique(2 * n + d, 2 * d, m, d);
  }

  lemma DecimalRoundTrip(x: Rat)
    requires Reduced(x) && x.num >= 0 && FloatPrec(x).1
    ensures var s := Decimal(x);
            PlainDecimal(s) && FractionDigits(s) == FloatPrec(x).0 && SetString(s) == x
  {
    var m := FloatPrecEnough(x);
    ExpansionPrints(x, FloatPrec(x).0, m);
  }

  /** With enough digits, FloatString rounds nothing away. */
  lemma ExpansionPrints(x: Rat, n: nat, m: nat)
    requires Reduced(x) && x.num >= 0 && Expands(x, n, m)
    ensures var s := FloatString(x, n);
            PlainDecimal(s) && FractionDigits(s) == n && SetString(s) == x
  {
    hide PlainDecimal, Numerator, FractionDigits, FloatString, SizeString, Norm;
    FloatStringRounds(x, n);
    ExactRounding(x.num * Pow(10, n), x.den, m);
    PowPositive(10, n);
    NormUnique(x, m, Pow(10, n));
  }

  lemma ShorterDecimal(x: Rat, t: string)
    requires Reduced(x) && PlainDecimal(t) && SetString(t) == x
    ensures FloatPrec(x).0 <= FractionDigits(t)
  {
    SetStringReduced(t);
    FloatPrecMinimal(x, FractionDigits(t), Numerator(t));
  }

  /** Decimal takes its 12-digit fallback exactly when x has no finite expansion. Otherwise what it
      prints reads back as x itself, and no plain decimal for x has fewer fraction digits. */
  lemma UnsignedDecimalExact(x: Rat)
    requires Reduced(x) && x.num >= 0
    ensures FloatPrec(x).1 <==> exists k: nat, m: int :: Expands(x, k, m)
    ensures FloatPrec(x).1 ==> PlainDecimal(Decimal(x)) && SetString(Decimal(x)) == x
    ensures FloatPrec(x).1 ==>
              forall t | PlainDecimal(t) && SetString(t) == x :: FractionDigits(Decimal(x)) <= FractionDigits(t)
  {
    FiniteIffExact(x);
    if FloatPrec(x).1 {
      DecimalRoundTrip(x);
      forall t | PlainDecimal(t) && SetString(t) == x
        ensures FractionDigits(Decimal(x)) <= FractionDigits(t)
      {
        ShorterDecimal(x, t);
      }
    }
  }

  /** A plain decimal, or one with a minus sign. */
  predicate SignedDecimal(s: string) {
    PlainDecimal(s) || (s != "" && s[0] == '-' && PlainDecimal(s[1..]))
  }

  function Opposite(x: Rat): Rat {
    Rat(-x.num, x.den)
  }

  /** big.Rat.SetString on such text. */
  function SetSigned(s: string): Rat
    requires SignedDecimal(s)
  {
    if PlainDecimal(s) then SetString(s) else Opposite(SetString(s[1..]))
  }

  function SignedDigits(s: string): nat
    requires SignedDecimal(s)
  {
    if PlainDecimal(s) then FractionDigits(s) else FractionDigits(s[1..])
  }

  lemma SignIsNoDigit(s: string)
    ensures !PlainDecimal("-" + s)
  {
    var t := "-" + s;
    assert Dot(t) > 0 ==> t[..Dot(t)][0] == '-' && !IsDigit('-');
  }

  lemma OppositeFacts(x: Rat)
    requires Reduced(x)
    ensures Reduced(Opposite(x)) && FloatPrec(Opposite(x)) == FloatPrec(x)
  {}

  lemma OppositeExpands(x: Rat, k: nat, m: int)
    requires Expands(x, k, m)
    ensures Expands(Opposite(x), k, -m)
  {
    assert (-x.num) * Pow(10, k) == -(x.num * Pow(10, k)) && (-m) * x.den == -(m * x.den);
  }

  lemma OppositeDecimal(x: Rat)
    requires x.num < 0 && x.den > 0
    ensures Decimal(x) == "-" + Decimal(Opposite(x))
  {
    hide SizeString, Multiplicity, Cofactor;
    var t := SizeString(-x.num, x.den, if FloatPrec(x).1 then FloatPrec(x).0 else FALLBACK_DIGITS);
    assert "" + t == t;
  }

  lemma FiniteOpposite(x: Rat)
    requires exists k: nat, m: int :: Expands(x, k, m)
    ensures exists k: nat, m: int :: Expands(Opposite(x), k, m)
  {
    hide Expands, Opposite;
    var k: nat, m: int :| Expands(x, k, m);
    OppositeExpands(x, k, m);
  }

  lemma NoShorterSigned(x: Rat, t: string)
    requires Reduced(x) && FloatPrec(x).1 && SignedDecimal(t) && SetSigned(t) == x
    ensures FloatPrec(x).0 <= SignedDigits(t)
  {
    OppositeFacts(x);
    if PlainDecimal(t) {
      ShorterDecimal(x, t);
    } else {
      ShorterDecimal(Opposite(x), t[1..]);
    }
  }

  /** Decimal takes its 12-digit fallback exactly when x has no finite expansion. Otherwise what it
      prints reads back as x itself, and no decimal text for x has fewer fraction digits. */
  lemma DecimalExact(x: Rat)
    requires Reduced(x)
    ensures FloatPrec(x).1 <==> exists k: nat, m: int :: Expands(x, k, m)
    ensures FloatPrec(x).1 ==> SignedDecimal(Decimal(x)) && SetSigned(Decimal(x)) == x
    ensures FloatPrec(x).1 ==>
              forall t | SignedDecimal(t) && SetSigned(t) == x :: SignedDigits(Decimal(x)) <= SignedDigits(t)
  {
    OppositeFacts(x);
    hide Expands, FloatPrec, Reduced, PlainDecimal, SetString, FractionDigits, Decimal;
    if x.num >= 0 {
      FiniteIffExact(x);
      if FloatPrec(x).1 {
        DecimalRoundTrip(x);
      }
    } else {
      var y := Opposite(x);
      FiniteIffExact(y);
      assert Opposite(y) == x;
      if exists k: nat, m: int :: Expands(x, k, m) {
        FiniteOpposite(x);
      }
      if FloatPrec(x).1 {
        FiniteOpposite(y);
        DecimalRoundTrip(y);
        OppositeDecimal(x);
        SignIsNoDigit(Decimal(y));
        assert Decimal(x)[1..] == Decimal(y);
      }
    }
    if FloatPrec(x).1 {
      forall t | SignedDecimal(t) && SetSigned(t) == x ensures SignedDigits(Decimal(x)) <= SignedDigits(t) {
        NoShorterSigned(x, t);
      }
    }
  }

  // ----- Alert thresholds -----

  /** The threshold for a burn rate of any value big.Rat can hold. */
  function ThresholdOf(burnRate: Rat, budget: Rat): string
    requires burnRate.den > 0 && budget.den > 0
  {
    MulReduced(burnRate, budget);
    Decimal(Mul(burnRate, budget))
  }

  lemma MulReduced(a: Rat, b: Rat)
    requires a.den > 0 && b.den > 0
    ensures Reduced(Mul(a, b))
  {
    MulPositive(a.den, b.den);
    NormFacts(a.num * b.num, a.den * b.den);
  }

  /** BurnRateAlert.Threshold for a burn rate written as a plain decimal, as the alert table's are. */
  function Threshold(burnRate: string, budget: Rat): string
    requires PlainDecimal(burnRate) && budget.den > 0
  {
    SetStringReduced(burnRate);
    ThresholdOf(SetString(burnRate), budget)
  }

  lemma TensProduct(e: nat, f: nat)
    ensures Pow(10, e) * (100 * Pow(10, f)) == Pow(10, e + (2 + f))
  {
    PowAdd(10, e, 2 + f);
    PowAdd(10, 2, f);
    assert Pow(10, 2) == 100 by { assert Pow(10, 1) == 10; }
  }

  /** Products of finite decimals are finite. */
  lemma ProductExpands(n: nat, e: nat, m: nat, f: nat)
    ensures Pow(10, e) > 0 && Pow(10, f) > 0 && Pow(10, e) * (100 * Pow(10, f)) > 0
    ensures var x := Norm(n * m, Pow(10, e) * (100 * Pow(10, f)));
            Reduced(x) && x.num >= 0 && Expands(x, e + (2 + f), n * m)
  {
    PowPositive(10, e);
    PowPositive(10, f);
    PowPositive(10, e + (2 + f));
    TensProduct(e, f);
    NatProduct(n, m);
    NonNegativeNorm(n * m, Pow(10, e) * (100 * Pow(10, f)));
  }

  lemma NonNegativeNorm(n: nat, d: nat)
    requires d > 0
    ensures Reduced(Norm(n, d)) && Denotes(Norm(n, d), n, d) && Norm(n, d).num >= 0
  {
    NormFacts(n, d);
    SameSign(Norm(n, d).num, d, n, Norm(n, d).den);
  }

  lemma Commute(a: int, b: int)
    ensures a * b == b * a
  {}

  lemma NatProduct(n: nat, m: nat)
    ensures n * m >= 0
  {}

  /** For every accepted objective and every plain decimal burn rate, of any length, the threshold is
      printed without the fallback, denotes burnRate x (1 - objective/100) exactly, and has the fewest
      fraction digits any plain decimal for that number can have. */
  lemma ThresholdExact(objective: string, burnRate: string)
    requires ErrorBudget(objective).Ok? && PlainDecimal(burnRate)
    ensures var b := ErrorBudget(objective).value;
            && b.den > 0 && SetString(burnRate).den > 0
            && PlainDecimal(objective) && PlainDecimal(Threshold(burnRate, b))
            && var x, p := SetString(Threshold(burnRate, b)), Pow(10, FractionDigits(objective));
            && x == Mul(SetString(burnRate), b) && x.den > 0 && FloatPrec(x).1
            && Denotes(x, Numerator(burnRate) * (100 * p - Numerator(objective)),
                Pow(10, FractionDigits(burnRate)) * (100 * p))
            && forall t | PlainDecimal(t)
                && SetString(t) == x :: FractionDigits(Threshold(burnRate, b)) <= FractionDigits(t)
  {
    ErrorBudgetExact(objective);
    SetStringReduced(burnRate);
    var b, p := ErrorBudget(objective).value, Pow(10, FractionDigits(objective));
    var n, m, e := Numerator(burnRate), 100 * p - Numerator(objective), FractionDigits(burnRate);
    ProductExpands(n, e, m, FractionDigits(objective));
    MulDenotes(SetString(burnRate), b, n, Pow(10, e), m, 100 * p);
    var x := Norm(n * m, Pow(10, e) * (100 * p));
    NormFacts(n * m, Pow(10, e) * (100 * p));
    UnsignedDecimalExact(x);
  }

  lemma ThresholdReads(objective: string, burnRate: string)
    requires ErrorBudget(objective).Ok? && PlainDecimal(burnRate)
    ensures var b := ErrorBudget(objective).value;
            && b.den > 0 && SetString(burnRate).den > 0 && PlainDecimal(Threshold(burnRate, b))
            && SetString(Threshold(burnRate, b)) == Mul(SetString(burnRate), b)
  {
    ThresholdExact(objective, burnRate);
  }

  lemma FiniteProduct(r: Rat, k: nat, m: int, b: Rat, n: int, f: nat)
    requires r.den > 0 && b.den > 0 && Expands(r, k, m)
    requires Pow(10, f) > 0 && Denotes(b, n, 100 * Pow(10, f))
    ensures Expands(Mul(r, b), k + (2 + f), m * n)
  {
    PowPositive(10, k);
    MulDenotes(r, b, m, Pow(10, k), n, 100 * Pow(10, f));
    NormFacts(m * n, Pow(10, k) * (100 * Pow(10, f)));
    TensProduct(k, f);
  }

  /** Whatever form a burn rate is written in: the threshold avoids the fallback exactly when burnRate x
      budget has a finite expansion, as it does for every burn rate that has one; then it denotes the
      product exactly, in the fewest fraction digits. */
  lemma AnyThresholdExact(objective: string, burnRate: Rat)
    requires ErrorBudget(objective).Ok? && burnRate.den > 0
    ensures var b := ErrorBudget(objective).value;
            b.den > 0 &&
            var x, text := Mul(burnRate, b), ThresholdOf(burnRate, b);
            && x.den > 0
            && (FloatPrec(x).1 <==> exists k: nat, m: int :: Expands(x, k, m))
            && ((exists k: nat, m: int :: Expands(burnRate, k, m)) ==> FloatPrec(x).1)
            && (FloatPrec(x).1 ==> SignedDecimal(text) && SetSigned(text) == x)
            && (FloatPrec(x).1 ==> forall t | SignedDecimal(t)
                && SetSigned(t) == x :: SignedDigits(text) <= SignedDigits(t))
  {
    ErrorBudgetExact(objective);
    var b, f := ErrorBudget(objective).value, FractionDigits(objective);
    PowPositive(10, f);
    MulReduced(burnRate, b);
    hide ErrorBudget, Numerator, FractionDigits, PlainDecimal, SignedDecimal, SetSigned, SignedDigits, FloatPrec,
        Decimal, Mul, Expands;
    DecimalExact(Mul(burnRate, b));
    if k: nat, m: int :| Expands(burnRate, k, m) {
      FiniteProduct(burnRate, k, m, b, 100 * Pow(10, f) - Numerator(objective), f);
    }
  }
}
