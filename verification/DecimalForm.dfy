/** Fixed-point source digits and their canonical form, compared as exact rational numbers. */
module DecimalForm {

  predicate Digit(c: char) { '0' <= c <= '9' }

  predicate Digits(s: string) { forall i | 0 <= i < |s| :: Digit(s[i]) }

  datatype Parts = Parts(integer: string, separated: bool, fraction: string)

  /** Everything before the first dot, whether there is one, and everything after it. */
  function Partition(s: string): Parts {
    if s == "" then Parts("", false, "")
    else if s[0] == '.' then Parts("", true, s[1..])
    else
      var p := Partition(s[1..]);
      Parts([s[0]] + p.integer, p.separated, p.fraction)
  }

  function StripLeft(s: string): string {
    if s != "" && s[0] == '0' then StripLeft(s[1..]) else s
  }

  function StripRight(s: string): string {
    if s != "" && s[|s| - 1] == '0' then StripRight(s[..|s| - 1]) else s
  }

  function CanonicalInteger(integer: string): string {
    var stripped := StripLeft(integer);
    if stripped == "" then "0" else stripped
  }

  function Canonical(number: string): string {
    var p := Partition(number);
    var integer := CanonicalInteger(p.integer);
    if !p.separated then integer
    else
      var fraction := StripRight(p.fraction);
      if fraction == "" then integer else integer + "." + fraction
  }

  /** Digits with at most one dot, the only shape the numeric pattern yields. */
  predicate Decimal(s: string) {
    Digits(Partition(s).integer) && Digits(Partition(s).fraction)
  }

  // ----- the number a decimal denotes -----

  function Pow10(n: nat): (p: nat)
    ensures p > 0
  {
    if n == 0 then 1 else 10 * Pow10(n - 1)
  }

  function Value(s: string): nat
    requires Digits(s)
  {
    if s == "" then 0 else 10 * Value(s[..|s| - 1]) + (s[|s| - 1] as int - '0' as int)
  }

  function Rational(integer: string, fraction: string): real
    requires Digits(integer) && Digits(fraction)
  {
    (Value(integer) * Pow10(|fraction|) + Value(fraction)) as real / Pow10(|fraction|) as real
  }

  function Number(s: string): real
    requires Decimal(s)
  {
    Rational(Partition(s).integer, Partition(s).fraction)
  }

  // ----- digit strings -----

  lemma {:induction false} ValueBound(s: string)
    requires Digits(s)
    ensures Value(s) < Pow10(|s|)
  {
    if s != "" { ValueBound(s[..|s| - 1]); }
  }

  lemma {:induction false} ValueInjective(a: string, b: string)
    requires Digits(a) && Digits(b) && |a| == |b| && Value(a) == Value(b)
    ensures a == b
  {
    if a != "" {
      ValueInjective(a[..|a| - 1], b[..|b| - 1]);
      assert a == a[..|a| - 1] + [a[|a| - 1]] && b == b[..|b| - 1] + [b[|b| - 1]];
    }
  }

  lemma {:induction false} ValueLeadingZero(s: string)
    requires Digits(s) && s != "" && s[0] == '0'
    ensures Value(s) == Value(s[1..])
    decreases |s|
  {
    if |s| > 1 {
      ValueLeadingZero(s[..|s| - 1]);
      assert s[1..][..|s| - 2] == s[..|s| - 1][1..];
    }
  }

  lemma {:induction false} StripLeftKeepsValue(s: string)
    requires Digits(s)
    ensures var r := StripLeft(s); Digits(r) && Value(r) == Value(s) && (r != "" ==> r[0] != '0')
  {
    if s != "" && s[0] == '0' {
      ValueLeadingZero(s);
      StripLeftKeepsValue(s[1..]);
    }
  }

  lemma {:induction false} PowMonotone(m: nat, n: nat)
    requires m <= n
    ensures Pow10(m) <= Pow10(n)
  {
    if m < n { PowMonotone(m, n - 1); }
  }

  /** A digit string without a leading zero is at least the power of ten of its length less one. */
  lemma {:induction false} LeadingDigit(s: string)
    requires Digits(s) && s != "" && s[0] != '0'
    ensures Pow10(|s| - 1) <= Value(s)
    decreases |s|
  {
    if |s| > 1 { LeadingDigit(s[..|s| - 1]); }
  }

  predicate IntegerForm(s: string) {
    Digits(s) && s != "" && (s[0] == '0' ==> s == "0")
  }

  predicate FractionForm(s: string) {
    Digits(s) && (s != "" ==> s[|s| - 1] != '0')
  }

  lemma IntegerUnique(a: string, b: string)
    requires IntegerForm(a) && IntegerForm(b) && Value(a) == Value(b)
    ensures a == b
  {
    if |a| == |b| {
      ValueInjective(a, b);
    } else {
      var short, long := if |a| < |b| then a else b, if |a| < |b| then b else a;
      ValueBound(short);
      LeadingDigit(long);
      PowMonotone(|short|, |long| - 1);
    }
  }

  // ----- rationals -----

  lemma FractionsEqual(n: nat, p: nat, m: nat, q: nat)
    requires p > 0 && q > 0
    ensures n as real / p as real == m as real / q as real <==> n * q == m * p
  {
    var x, y := n as real / p as real, m as real / q as real;
    assert x * p as real == n as real && y * q as real == m as real;
    assert (n * q) as real == n as real * q as real && (m * p) as real == m as real * p as real;
    if x == y {
      assert n as real * q as real == x * p as real * q as real == m as real * p as real;
    }
    if n * q == m * p {
      assert (x - y) * (p as real * q as real) == 0.0;
      assert p as real * q as real > 0.0;
      ZeroProduct(x - y, p as real * q as real);
    }
  }

  lemma ZeroProduct(a: real, b: real)
    requires a * b == 0.0 && b > 0.0
    ensures a == 0.0
  {
  }

  /** Dropping a trailing zero of the fraction keeps the number. */
  lemma TrailingZero(integer: string, fraction: string)
    requires Digits(integer) && Digits(fraction) && fraction != "" && fraction[|fraction| - 1] == '0'
    ensures Rational(integer, fraction) == Rational(integer, fraction[..|fraction| - 1])
  {
    var shorter := fraction[..|fraction| - 1];
    var i, f, p := Value(integer), Value(shorter), Pow10(|shorter|);
    assert Value(fraction) == 10 * f && Pow10(|fraction|) == 10 * p;
    assert i * (10 * p) + 10 * f == 10 * (i * p + f);
    FractionsEqual(10 * (i * p + f), 10 * p, i * p + f, p);
  }

  lemma {:induction false} StripRightKeepsNumber(integer: string, fraction: string)
    requires Digits(integer) && Digits(fraction)
    ensures var r := StripRight(fraction); FractionForm(r) && Rational(integer, fraction) == Rational(integer, r)
    decreases |fraction|
  {
    if fraction != "" && fraction[|fraction| - 1] == '0' {
      TrailingZero(integer, fraction);
      StripRightKeepsNumber(integer, fraction[..|fraction| - 1]);
    }
  }

  lemma CanonicalIntegerForm(s: string)
    requires Digits(s)
    ensures IntegerForm(CanonicalInteger(s)) && Value(CanonicalInteger(s)) == Value(s)
  {
    StripLeftKeepsValue(s);
    assert Value("0") == 0 by { assert "0"[..0] == ""; }
  }

  lemma {:induction false} MulAtLeast(d: nat, p: nat)
    requires d > 0
    ensures p <= d * p
  {
    if d > 1 {
      MulAtLeast(d - 1, p);
      assert d * p == (d - 1) * p + p;
    }
  }

  lemma MulGap(a: nat, b: nat, p: nat)
    requires a < b
    ensures a * p + p <= b * p
  {
    MulAtLeast(b - a, p);
    assert b * p == a * p + (b - a) * p;
  }

  lemma CancelFactor(a: nat, b: nat, p: nat)
    requires p > 0 && a * p == b * p
    ensures a == b
  {
    if a < b { MulGap(a, b, p); }
    if b < a { MulGap(b, a, p); }
  }

  /** The last digit of a scaled number is the last digit of its fraction. */
  lemma LastDigit(j: nat, g: string)
    requires Digits(g) && g != ""
    ensures (j * Pow10(|g|) + Value(g)) % 10 == g[|g| - 1] as int - '0' as int
  {
    var tail, front := Pow10(|g| - 1), Value(g[..|g| - 1]);
    assert j * (10 * tail) == 10 * (j * tail);
    assert j * Pow10(|g|) + Value(g) == 10 * (j * tail + front) + (g[|g| - 1] as int - '0' as int);
  }

  lemma TenTimes(n: nat, h: nat)
    ensures (n * (10 * h)) % 10 == 0
  {
    assert n * (10 * h) == 10 * (n * h);
  }

  lemma MultipleOfTen(n: nat, m: nat, p: nat, h: nat)
    requires p > 0 && n * ((10 * h) * p) == m * p
    ensures m % 10 == 0
  {
    assert n * ((10 * h) * p) == (n * (10 * h)) * p;
    CancelFactor(n * (10 * h), m, p);
    TenTimes(n, h);
  }

  /** Among decimals that denote one number, a fraction in normal form is never the longer one. */
  lemma NormalFractionNoLonger(i: nat, f: string, j: nat, g: string)
    requires FractionForm(f) && FractionForm(g)
    requires (i * Pow10(|f|) + Value(f)) * Pow10(|g|) == (j * Pow10(|g|) + Value(g)) * Pow10(|f|)
    ensures |g| <= |f|
  {
    if |f| < |g| {
      PowSum(|f|, |g| - |f|);
      var h := Pow10(|g| - |f| - 1);
      assert Pow10(|g|) == (10 * h) * Pow10(|f|);
      LastDigit(j, g);
      hide Pow10, Value;
      MultipleOfTen(i * Pow10(|f|) + Value(f), j * Pow10(|g|) + Value(g), Pow10(|f|), h);
    }
  }

  lemma {:induction false} PowSum(m: nat, n: nat)
    ensures Pow10(m + n) == Pow10(n) * Pow10(m)
    decreases n
  {
    if n > 0 {
      PowSum(m, n - 1);
      assert 10 * (Pow10(n - 1) * Pow10(m)) == (10 * Pow10(n - 1)) * Pow10(m);
    }
  }

  /** Normal forms are unique: one number, one integer part, one fraction. */
  lemma NormalFormUnique(i: string, f: string, j: string, g: string)
    requires IntegerForm(i) && FractionForm(f) && IntegerForm(j) && FractionForm(g)
    requires Rational(i, f) == Rational(j, g)
    ensures i == j && f == g
  {
    var p, q := Pow10(|f|), Pow10(|g|);
    FractionsEqual(Value(i) * p + Value(f), p, Value(j) * q + Value(g), q);
    NormalFractionNoLonger(Value(i), f, Value(j), g);
    NormalFractionNoLonger(Value(j), g, Value(i), f);
    ValueBound(f);
    ValueBound(g);
    CancelFactor(Value(i) * p + Value(f), Value(j) * q + Value(g), p);
    QuotientUnique(Value(i), Value(f), Value(j), Value(g), p);
    ValueInjective(f, g);
    IntegerUnique(i, j);
  }

  lemma QuotientUnique(a: nat, r: nat, b: nat, s: nat, p: nat)
    requires r < p && s < p && a * p + r == b * p + s
    ensures a == b && r == s
  {
    if a < b { MulGap(a, b, p); }
    if b < a { MulGap(b, a, p); }
  }

  // ----- rendering -----

  lemma {:induction false} PartitionDigits(integer: string, rest: string)
    requires Digits(integer)
    ensures Partition(integer + rest) == Partition(rest).(integer := integer + Partition(rest).integer)
    decreases |integer|
  {
    if integer == "" {
      assert integer + rest == rest;
    } else {
      assert (integer + rest)[1..] == integer[1..] + rest;
      PartitionDigits(integer[1..], rest);
    }
  }

  lemma PartitionRendered(integer: string, fraction: string)
    requires Digits(integer) && Digits(fraction)
    ensures Partition(integer) == Parts(integer, false, "")
    ensures Partition(integer + "." + fraction) == Parts(integer, true, fraction)
  {
    PartitionDigits(integer, "");
    assert integer + "" == integer;
    PartitionDigits(integer, "." + fraction);
    assert integer + "." + fraction == integer + ("." + fraction);
    assert ("." + fraction)[1..] == fraction;
  }

  /** The canonical form splits into the normal form of the number it came from. */
  lemma CanonicalSplits(s: string)
    requires Decimal(s)
    ensures Decimal(Canonical(s))
    ensures var p := Partition(Canonical(s));
      && IntegerForm(p.integer) && FractionForm(p.fraction)
      && p.separated == (p.fraction != "")
      && Number(s) == Rational(p.integer, p.fraction)
  {
    var p := Partition(s);
    CanonicalIntegerForm(p.integer);
    StripRightKeepsNumber(CanonicalInteger(p.integer), p.fraction);
    PartitionRendered(CanonicalInteger(p.integer), StripRight(p.fraction));
    NoDotNoFraction(s);
  }

  lemma {:induction false} NoDotNoFraction(s: string)
    ensures !Partition(s).separated ==> Partition(s).fraction == ""
  {
    if s != "" { NoDotNoFraction(s[1..]); }
  }

  lemma {:induction false} Rendered(s: string)
    ensures var p := Partition(s); s == p.integer + (if p.separated then "." + p.fraction else "")
  {
    if s != "" && s[0] != '.' { Rendered(s[1..]); }
  }

  /** Two decimals have the same canonical form if and only if they denote the same number. */
  lemma CanonicalIffEqual(a: string, b: string)
    requires Decimal(a) && Decimal(b)
    ensures Canonical(a) == Canonical(b) <==> Number(a) == Number(b)
  {
    hide Rational;
    CanonicalSplits(a);
    CanonicalSplits(b);
    var p, q := Partition(Canonical(a)), Partition(Canonical(b));
    Rendered(Canonical(a));
    Rendered(Canonical(b));
    if Number(a) == Number(b) {
      NormalFormUnique(p.integer, p.fraction, q.integer, q.fraction);
    }
  }

  /** Canonicalizing changes neither the number nor a canonical form. */
  lemma CanonicalIsIdempotent(s: string)
    requires Decimal(s)
    ensures Decimal(Canonical(s)) && Number(Canonical(s)) == Number(s)
    ensures Canonical(Canonical(s)) == Canonical(s)
  {
    CanonicalSplits(s);
    CanonicalIffEqual(Canonical(s), s);
  }

  // ----- numeric signatures -----

  datatype Signature = Signature(sign: string, currency: string, number: string, unit: string)

  function CanonicalUnit(unit: string): string {
    if unit == "bps" || unit == "basis point" then "basis points"
    else if unit == "%" then "percent"
    else unit
  }

  function CanonicalSignature(s: Signature): Signature {
    Signature(s.sign, s.currency, Canonical(s.number), CanonicalUnit(s.unit))
  }

  /**
   Signatures canonicalize equally exactly when sign, currency and exact number agree and the
   units are spellings of one unit; nothing is rescaled.
   */
  lemma SignaturesIffEqual(a: Signature, b: Signature)
    requires Decimal(a.number) && Decimal(b.number)
    ensures CanonicalSignature(a) == CanonicalSignature(b) <==>
      (&& a.sign == b.sign && a.currency == b.currency
       && Number(a.number) == Number(b.number)
       && CanonicalUnit(a.unit) == CanonicalUnit(b.unit))
    ensures CanonicalSignature(CanonicalSignature(a)) == CanonicalSignature(a)
  {
    CanonicalIffEqual(a.number, b.number);
    CanonicalIsIdempotent(a.number);
  }
}
