/**
 Decimal numerals: natural numbers as digit strings, powers of ten, and the number that the
 JSON number grammar (section 6 of RFC 8259) gives to a lexeme.
 */
module DecimalText {

  predicate IsDigit(c: char) {
    '0' <= c <= '9'
  }

  predicate AllDigits(s: string) {
    forall i :: 0 <= i < |s| ==> IsDigit(s[i])
  }

  // ----- Numerals of natural numbers -----

  function DigitChar(d: nat): char
    requires d < 10
  {
    '0' + d as char
  }

  /** str(n). */
  function Dec(n: nat): string {
    if n < 10 then [DigitChar(n)] else Dec(n / 10) + [DigitChar(n % 10)]
  }

  /** The value of a digit string, leading zeros allowed. */
  function Nat(s: string): nat
    requires AllDigits(s)
  {
    if s == "" then 0 else 10 * Nat(s[..|s| - 1]) + (s[|s| - 1] - '0') as nat
  }

  lemma {:induction false} DecIsNumeral(n: nat)
    ensures AllDigits(Dec(n)) && Nat(Dec(n)) == n
    ensures |Dec(n)| >= 1
    ensures Dec(n)[0] == '0' <==> n == 0
    ensures n == 0 ==> Dec(n) == "0"
  {
    if n >= 10 {
      DecIsNumeral(n / 10);
      assert Dec(n)[..|Dec(n)| - 1] == Dec(n / 10);
    } else {
      assert Dec(n)[..0] == "";
    }
  }

  /** A digit string without a leading zero is the numeral of its value. */
  lemma {:induction false} NumeralIsDec(s: string)
    requires AllDigits(s) && |s| >= 1 && (s[0] != '0' || s == "0")
    ensures Dec(Nat(s)) == s
  {
    var front, last := s[..|s| - 1], (s[|s| - 1] - '0') as nat;
    assert s == front + [DigitChar(last)];
    if front == "" {
      assert Nat(front) == 0;
    } else {
      NumeralIsDec(front);
      LeadingDigit(front);
    }
  }

  lemma {:induction false} LeadingDigit(s: string)
    requires AllDigits(s) && |s| >= 1 && s[0] != '0'
    ensures Nat(s) > 0
  {
    if |s| > 1 {
      LeadingDigit(s[..|s| - 1]);
    }
  }

  lemma DecInjective(a: nat, b: nat)
    requires Dec(a) == Dec(b)
    ensures a == b
  {
    DecIsNumeral(a);
    DecIsNumeral(b);
  }

  function Pow10(n: nat): (p: nat)
    ensures p >= 1
  {
    if n == 0 then 1 else 10 * Pow10(n - 1)
  }

  lemma {:induction false} NatJoin(a: string, b: string)
    requires AllDigits(a) && AllDigits(b)
    ensures AllDigits(a + b)
    ensures Nat(a + b) == Nat(a) * Pow10(|b|) + Nat(b)
  {
    if b == "" {
      assert a + b == a;
    } else {
      var c := b[..|b| - 1];
      NatJoin(a, c);
      assert (a + b)[..|a + b| - 1] == a + c;
      NatJoinStep(Nat(a), Pow10(|c|), Nat(c));
    }
  }

  lemma NatJoinStep(x: nat, p: nat, y: nat)
    ensures 10 * (x * p + y) == x * (10 * p) + 10 * y
  {
  }

  function Zeros(n: nat): string {
    seq(n, _ => '0')
  }

  lemma {:induction false} ZerosValue(n: nat)
    ensures AllDigits(Zeros(n)) && Nat(Zeros(n)) == 0
  {
    if n > 0 {
      ZerosValue(n - 1);
      assert Zeros(n)[..n - 1] == Zeros(n - 1);
    }
  }

  /** A numeral of k digits lies between 10^(k-1) and 10^k. */
  lemma {:induction false} DigitCount(n: nat)
    requires n > 0
    ensures Pow10(|Dec(n)| - 1) <= n < Pow10(|Dec(n)|)
  {
    if n >= 10 {
      DigitCount(n / 10);
    } else {
      assert Pow10(1) == 10 * Pow10(0);
    }
  }

  lemma {:induction false} Pow10Order(a: nat, b: nat)
    requires a <= b
    ensures Pow10(a) <= Pow10(b)
    ensures a < b ==> 10 * Pow10(a) <= Pow10(b)
  {
    if a < b {
      Pow10Order(a, b - 1);
    }
  }

  lemma {:induction false} Pow10Sum(a: nat, b: nat)
    ensures Pow10(a + b) == Pow10(a) * Pow10(b)
  {
    if b > 0 {
      Pow10Sum(a, b - 1);
    }
  }

  lemma DigitCountOrder(a: nat, b: nat)
    requires 0 < a
    ensures a < Pow10(b) ==> |Dec(a)| <= b
    ensures |Dec(a)| <= b ==> a < Pow10(b)
  {
    DigitCount(a);
    if |Dec(a)| <= b {
      Pow10Order(|Dec(a)|, b);
    } else {
      Pow10Order(b, |Dec(a)| - 1);
    }
  }

  // ----- Powers of ten with any integer exponent -----

  function Exp10(e: int): (r: real)
    ensures r > 0.0
    decreases if e < 0 then -e else e
  {
    if e == 0 then 1.0 else if e > 0 then 10.0 * Exp10(e - 1) else Exp10(e + 1) / 10.0
  }

  function Times(a: real, u: real): real {
    a * u
  }

  /** n * 10^e. */
  function Scaled(n: int, e: int): real {
    Times(n as real, Exp10(e))
  }

  lemma Exp10Step(e: int)
    ensures Exp10(e + 1) == 10.0 * Exp10(e)
  {
  }

  lemma TenfoldProduct(n: int, u: real)
    ensures (10 * n) as real * u == n as real * (10.0 * u)
  {
    assert (10 * n) as real == 10.0 * n as real;
    assert (10.0 * n as real) * u == n as real * (10.0 * u);
  }

  lemma ScaledTenfold(n: int, e: int)
    ensures Scaled(n, e + 1) == Scaled(10 * n, e)
  {
    Exp10Step(e);
    hide Exp10;
    TenfoldProduct(n, Exp10(e));
  }

  lemma {:induction false} ScaledShift(n: int, e: int, k: nat)
    ensures Scaled(n, e + k) == Scaled(n * Pow10(k), e)
    decreases k
  {
    hide Exp10, Scaled;
    if k == 0 {
      assert n * Pow10(0) == n;
    } else {
      ScaledShift(n, e + 1, k - 1);
      ScaledTenfold(n * Pow10(k - 1), e);
      assert 10 * (n * Pow10(k - 1)) == n * Pow10(k);
      assert e + 1 + (k - 1) == e + k;
    }
  }

  lemma ScaledOrder(a: int, b: int, e: int)
    ensures Scaled(a, e) < Scaled(b, e) <==> a < b
    ensures Scaled(a, e) == Scaled(b, e) <==> a == b
    ensures Scaled(0, e) == 0.0
    ensures Scaled(a + 1, e) == Scaled(a, e) + Exp10(e)
    ensures Scaled(1, e) == Exp10(e)
  {
    hide Exp10;
    TimesOrder(a as real, b as real, Exp10(e));
    assert (a as real + 1.0) * Exp10(e) == a as real * Exp10(e) + Exp10(e);
  }

  lemma TimesOrder(a: real, b: real, u: real)
    requires u > 0.0
    ensures Times(a, u) < Times(b, u) <==> a < b
    ensures Times(a, u) == Times(b, u) <==> a == b
  {
    if a < b {
      assert (b - a) * u > 0.0;
    } else if b < a {
      assert (a - b) * u > 0.0;
    }
  }

  // ----- Number lexemes -----

  /** End of the maximal digit run that starts at i. */
  function DigitsEnd(text: string, i: nat): (j: nat)
    requires i <= |text|
    ensures i <= j <= |text|
    ensures forall k :: i <= k < j ==> IsDigit(text[k])
    ensures j < |text| ==> !IsDigit(text[j])
    decreases |text| - i
  {
    if i < |text| && IsDigit(text[i]) then DigitsEnd(text, i + 1) else i
  }

  /** End of the optional fraction at i: a point and at least one digit, or nothing. */
  function FractionEnd(text: string, i: nat): (j: nat)
    requires i <= |text|
    ensures i <= j <= |text|
    ensures j > i ==> j > i + 1 && forall k :: i < k < j ==> IsDigit(text[k])
  {
    if i < |text| && text[i] == '.' && DigitsEnd(text, i + 1) > i + 1 then DigitsEnd(text, i + 1) else i
  }

  function SignEnd(text: string, i: nat): (j: nat)
    requires i <= |text|
    ensures i <= j <= |text|
  {
    if i < |text| && (text[i] == '+' || text[i] == '-') then i + 1 else i
  }

  /** End of the optional exponent at i. */
  function ExponentEnd(text: string, i: nat): (j: nat)
    requires i <= |text|
    ensures i <= j <= |text|
  {
    if i < |text| && (text[i] == 'e' || text[i] == 'E') then
      var s := SignEnd(text, i + 1);
      if DigitsEnd(text, s) > s then DigitsEnd(text, s) else i
    else i
  }

  function IntegerEnd(text: string, i: nat): (j: nat)
    requires i <= |text|
    ensures i <= j <= |text|
    ensures forall k :: i <= k < j ==> IsDigit(text[k])
  {
    if i < |text| && text[i] == '0' then i + 1 else DigitsEnd(text, i)
  }

  function MinusEnd(text: string, i: nat): (j: nat)
    requires i <= |text|
    ensures i <= j <= |text|
  {
    if i < |text| && text[i] == '-' then i + 1 else i
  }

  /** The number grammar matched at i: the end of the match, or i when there is none. */
  function NumberEnd(text: string, i: nat): (j: nat)
    requires i <= |text|
    ensures i <= j <= |text|
  {
    var a := MinusEnd(text, i);
    var b := IntegerEnd(text, a);
    if b == a then i else ExponentEnd(text, FractionEnd(text, b))
  }

  predicate IsNumber(text: string) {
    |text| > 0 && NumberEnd(text, 0) == |text|
  }

  /** The value of text[i..j], a digit run. */
  function RunValue(text: string, i: nat, j: nat): nat
    requires i <= j <= |text| && forall k :: i <= k < j ==> IsDigit(text[k])
  {
    Nat(text[i..j])
  }

  function ExponentValue(text: string, i: nat): int
    requires i < |text|
  {
    var s := SignEnd(text, i + 1);
    var n: int := RunValue(text, s, DigitsEnd(text, s));
    if text[i + 1..s] == "-" then -n else n
  }

  predicate NegativeNumber(text: string) {
    |text| > 0 && text[0] == '-'
  }

  /** Integer and fraction digits together, for an integer part text[a..b] and a fraction text[b..c]. */
  function Mantissa(text: string, a: nat, b: nat, c: nat): (digits: string)
    requires a <= b <= c <= |text|
    requires forall k :: a <= k < b ==> IsDigit(text[k])
    requires c > b ==> forall k :: b < k < c ==> IsDigit(text[k])
    ensures AllDigits(digits)
  {
    text[a..b] + if c > b then text[b + 1..c] else ""
  }

  /** The nonnegative magnitude: all mantissa digits as one integer, times a power of ten. */
  function Denoted(text: string): real
    requires IsNumber(text)
  {
    var a := MinusEnd(text, 0);
    var b := IntegerEnd(text, a);
    var c := FractionEnd(text, b);
    var exponent := if c < |text| then ExponentValue(text, c) else 0;
    Scaled(Nat(Mantissa(text, a, b, c)), exponent - (if c > b then c - b - 1 else 0))
  }

  lemma DenotedNonnegative(text: string)
    requires IsNumber(text)
    ensures Denoted(text) >= 0.0
  {
    var a := MinusEnd(text, 0);
    var b := IntegerEnd(text, a);
    var c := FractionEnd(text, b);
    var exponent := if c < |text| then ExponentValue(text, c) else 0;
    var e := exponent - (if c > b then c - b - 1 else 0);
    var n := Nat(Mantissa(text, a, b, c));
    hide Scaled, Nat, Mantissa, ExponentValue, NumberEnd;
    ScaledOrder(n, 0, e);
  }
}
