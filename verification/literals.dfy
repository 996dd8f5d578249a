/** The subset of Python's `int(text)` and `float(text)` that the model accepts: optional
    surrounding whitespace, an optional sign, ASCII digits, and for `float` an optional single
    decimal point. Python accepts more (underscores between digits, non-ASCII digits, exponents,
    "inf"/"nan"); those inputs are treated here as failures. */
module Literals {
  import opened Wrappers
  import opened Text

  predicate IsDigit(c: char)
  {
    '0' <= c <= '9'
  }

  predicate AllDigits(s: string)
  {
    forall i :: 0 <= i < |s| ==> IsDigit(s[i])
  }

  function DigitValue(c: char): nat
    requires IsDigit(c)
  {
    c as int - '0' as int
  }

  /** Reads the digits of `s` left to right onto the running value `acc`. */
  function DigitsFrom(acc: nat, s: string): nat
    requires AllDigits(s)
    decreases |s|
  {
    if |s| == 0 then acc else DigitsFrom(acc * 10 + DigitValue(s[0]), s[1..])
  }

  /** Decimal value of a digit string, most significant digit first; 0 for "". */
  function DigitsValue(s: string): nat
    requires AllDigits(s)
  {
    DigitsFrom(0, s)
  }

  /** One more digit at the end multiplies the value read so far by ten and adds the digit. */
  lemma {:induction false} DigitsFromSnoc(acc: nat, s: string, c: char)
    requires AllDigits(s) && IsDigit(c)
    ensures AllDigits(s + [c])
    ensures DigitsFrom(acc, s + [c]) == DigitsFrom(acc, s) * 10 + DigitValue(c)
    decreases |s|
  {
    if |s| > 0 {
      assert (s + [c])[1..] == s[1..] + [c];
      DigitsFromSnoc(acc * 10 + DigitValue(s[0]), s[1..], c);
    } else {
      assert [c][1..] == [];
    }
  }

  predicate IsSign(c: char)
  {
    c == '+' || c == '-'
  }

  /** The literal without its leading sign, if it has one. */
  function Unsigned(t: string): string
  {
    if |t| > 0 && IsSign(t[0]) then t[1..] else t
  }

  predicate IsNegative(t: string)
  {
    |t| > 0 && t[0] == '-'
  }

  /** An optional sign followed by one or more digits. */
  predicate IsIntLiteral(t: string)
  {
    |Unsigned(t)| > 0 && AllDigits(Unsigned(t))
  }

  /** Digits, optionally split by one '.', with at least one digit overall. */
  predicate IsDecimal(u: string)
  {
    if '.' in u then
      var k := IndexOf(u, '.');
      AllDigits(u[..k]) && AllDigits(u[k + 1..]) && |u| > 1
    else
      |u| > 0 && AllDigits(u)
  }

  /** An optional sign followed by a decimal. */
  predicate IsFloatLiteral(t: string)
  {
    IsDecimal(Unsigned(t))
  }

  function IntLiteralValue(t: string): int
    requires IsIntLiteral(t)
  {
    var v: int := DigitsValue(Unsigned(t));
    if IsNegative(t) then -v else v
  }

  /** Value of the digits after a decimal point: "25" is 0.25. */
  function FractionValue(s: string): real
    requires AllDigits(s)
  {
    if |s| == 0 then 0.0 else (DigitValue(s[0]) as real + FractionValue(s[1..])) / 10.0
  }

  function DecimalValue(u: string): real
    requires IsDecimal(u)
  {
    if '.' in u then
      var k := IndexOf(u, '.');
      DigitsValue(u[..k]) as real + FractionValue(u[k + 1..])
    else
      DigitsValue(u) as real
  }

  function FloatLiteralValue(t: string): real
    requires IsFloatLiteral(t)
  {
    if IsNegative(t) then -DecimalValue(Unsigned(t)) else DecimalValue(Unsigned(t))
  }

  /** `int(s)`: `None` where Python raises ValueError. */
  function ParseInt(s: string): (r: Option<int>)
    ensures r.Some? <==> IsIntLiteral(Strip(s))
  {
    var t := Strip(s);
    if IsIntLiteral(t) then Some(IntLiteralValue(t)) else None
  }

  function Pow10(n: nat): (p: nat)
    ensures p > 0
  {
    if n == 0 then 1 else 10 * Pow10(n - 1)
  }

  /** `v / 10^n`, one division by ten at a time. */
  function Tenths(v: real, n: nat): real
  {
    if n == 0 then v else Tenths(v, n - 1) / 10.0
  }

  lemma {:induction false} TenthsIsQuotient(v: real, n: nat)
    ensures Tenths(v, n) == v / Pow10(n) as real
  {
    if n > 0 {
      TenthsIsQuotient(v, n - 1);
      DivideByTenMore(v, Pow10(n - 1) as real);
    }
  }

  lemma DivideByTenMore(v: real, p: real)
    requires p > 0.0
    ensures v / p / 10.0 == v / (10.0 * p)
  {
  }

  /** Digits before and after a decimal point: the whole part plus the fraction is the value
      of all the digits read together, divided by ten once per fraction digit. */
  lemma {:induction false} FractionShift(a: string, b: string)
    requires AllDigits(a) && AllDigits(b)
    ensures AllDigits(a + b)
    ensures DigitsValue(a) as real + FractionValue(b) == Tenths(DigitsValue(a + b) as real, |b|)
    decreases |b|
  {
    if |b| == 0 {
      assert a + b == a;
    } else {
      var c, rest := b[0], b[1..];
      DigitsFromSnoc(0, a, c);
      FractionShift(a + [c], rest);
      assert a + [c] + rest == a + b;
    }
  }

  /** A decimal literal with its point: the digits on both sides. */
  lemma DecimalParts(a: string, b: string)
    requires AllDigits(a) && AllDigits(b) && |a| + |b| > 0
    ensures IsDecimal(a + "." + b)
    ensures DecimalValue(a + "." + b) == DigitsValue(a) as real + FractionValue(b)
  {
    var u := a + "." + b;
    assert u[..|a|] == a && u[|a| + 1..] == b;
    IndexOfUnique(u, '.', |a|);
  }

  /** `float(s)`: `None` where Python raises ValueError. */
  function ParseFloat(s: string): (r: Option<real>)
    ensures r.Some? <==> IsFloatLiteral(Strip(s))
  {
    var t := Strip(s);
    if IsFloatLiteral(t) then Some(FloatLiteralValue(t)) else None
  }

  /** `float(a + "." + b)` for digit strings `a` and `b`, not both empty, is the value of all
      the digits divided by ten once per digit after the point: "12.50" is 1250 / 10^2 (see
      `TenthsIsQuotient`). */
  lemma ParseFloatDecimal(a: string, b: string)
    requires AllDigits(a) && AllDigits(b) && |a| + |b| > 0
    ensures AllDigits(a + b)
    ensures ParseFloat(a + "." + b).Some?
    ensures ParseFloat(a + "." + b).value == Tenths(DigitsValue(a + b) as real, |b|)
  {
    var u := a + "." + b;
    FractionShift(a, b);
    PointedLiteral(a, b, u);
    var w, z := FloatLiteralValue(u), Tenths(DigitsValue(a + b) as real, |b|);
    assert w == z;
    assert ParseFloat(u) == Some(w);
  }

  /** A '-' in front of an unsigned literal without surrounding whitespace negates the value
      `float()` gives: with `ParseFloatDecimal`, "-0.25" is -(25 / 10^2). */
  lemma ParseFloatNegated(s: string)
    requires ParseFloat(s).Some? && Strip(s) == s && !IsSign(s[0])
    ensures ParseFloat("-" + s).Some? && ParseFloat("-" + s).value == -ParseFloat(s).value
  {
    var t := "-" + s;
    LiteralCharacters(s, |s| - 1);
    NegatedLiteral(s, t, ParseFloat(s).value);
  }

  /** Digits around a point form an unsigned float literal that `strip()` leaves alone. */
  lemma PointedLiteral(a: string, b: string, u: string)
    requires AllDigits(a) && AllDigits(b) && |a| + |b| > 0
    requires u == a + "." + b
    ensures Strip(u) == u && IsFloatLiteral(u)
    ensures FloatLiteralValue(u) == DigitsValue(a) as real + FractionValue(b)
    ensures |u| > 0 && !IsSpace(u[|u| - 1]) && !IsSign(u[0])
  {
    DecimalParts(a, b);
    assert !IsSpace(u[0]) && !IsSpace(u[|u| - 1]) && !IsSign(u[0]);
    StripTrimmed(u);
  }

  /** `float()` of such a literal with a '-' in front is the negated value. */
  lemma NegatedLiteral(u: string, t: string, x: real)
    requires Strip(u) == u && IsFloatLiteral(u) && FloatLiteralValue(u) == x
    requires |u| > 0 && !IsSign(u[0]) && !IsSpace(u[|u| - 1])
    requires t == "-" + u
    ensures ParseFloat(t).Some? && ParseFloat(t).value == -x
  {
    SignedLiteral(u, t);
    ParseFloatOfLiteral(t, -x);
  }

  /** `float()` of a literal `strip()` leaves alone is the literal's value. */
  lemma ParseFloatOfLiteral(t: string, x: real)
    requires Strip(t) == t && IsFloatLiteral(t) && FloatLiteralValue(t) == x
    ensures ParseFloat(t) == Some(x)
  {
    var w := FloatLiteralValue(t);
    assert ParseFloat(t) == Some(w);
  }

  /** A '-' in front of such a literal negates its value. */
  lemma SignedLiteral(u: string, t: string)
    requires Strip(u) == u && IsFloatLiteral(u) && !IsSign(u[0])
    requires |u| > 0 && !IsSpace(u[|u| - 1])
    requires t == "-" + u
    ensures Strip(t) == t && IsFloatLiteral(t)
    ensures FloatLiteralValue(t) == -FloatLiteralValue(u)
  {
    assert Unsigned(t) == u;
    StripTrimmed(t);
  }

  /** The value `int()` returns is the value of the stripped literal. */
  lemma ParseIntValue(s: string)
    ensures ParseInt(s).Some? ==> ParseInt(s).value == IntLiteralValue(Strip(s))
  {
  }

  /** The value `float()` returns is the value of the stripped literal. */
  lemma ParseFloatValue(s: string)
    ensures ParseFloat(s).Some? ==> ParseFloat(s).value == FloatLiteralValue(Strip(s))
  {
  }

  /** Decimal digits of `n`, without leading zeros. */
  function ShowNat(n: nat): (s: string)
    ensures |s| > 0 && AllDigits(s)
  {
    if n < 10 then ['0' + n as char] else ShowNat(n / 10) + ['0' + (n % 10) as char]
  }

  /** `str(n)` for an integer. */
  function ShowInt(n: int): string
  {
    if n < 0 then "-" + ShowNat(-n) else ShowNat(n)
  }

  lemma {:induction false} DigitsValueShowNat(n: nat)
    ensures DigitsValue(ShowNat(n)) == n
  {
    if n >= 10 {
      DigitsValueShowNat(n / 10);
      DigitsFromSnoc(0, ShowNat(n / 10), '0' + (n % 10) as char);
    } else {
      var s := ShowNat(n);
      assert s[1..] == [];
      assert DigitsFrom(0, s) == DigitsFrom(DigitValue(s[0]), []);
    }
  }

  /** The printed form of an integer is an integer literal denoting that integer. */
  lemma ShowIntIsLiteral(n: int)
    ensures IsIntLiteral(ShowInt(n)) && IntLiteralValue(ShowInt(n)) == n
    ensures !IsSpace(ShowInt(n)[0]) && !IsSpace(ShowInt(n)[|ShowInt(n)| - 1])
  {
    var t := ShowInt(n);
    if n < 0 {
      DigitsValueShowNat(-n);
      assert Unsigned(t) == ShowNat(-n);
    } else {
      DigitsValueShowNat(n);
      assert !IsSign(t[0]);
    }
  }

  /** `int(str(n)) == n`, also with whitespace around the text: the parser accepts exactly
      what the integer printer produces. */
  lemma ParseIntShowInt(n: int, pre: string, post: string)
    requires forall i :: 0 <= i < |pre| ==> IsSpace(pre[i])
    requires forall i :: 0 <= i < |post| ==> IsSpace(post[i])
    ensures ParseInt(pre + ShowInt(n) + post) == Some(n)
  {
    ShowIntIsLiteral(n);
    StripOfPadded(pre, ShowInt(n), post);
  }

  /** Every integer literal is a float literal with the same value: `float(s) == int(s)`
      whenever `int(s)` succeeds. */
  lemma IntLiteralIsFloatLiteral(s: string)
    requires ParseInt(s).Some?
    ensures ParseFloat(s) == Some(ParseInt(s).value as real)
  {
  }

  /** A literal contains neither whitespace nor a comma. */
  lemma LiteralCharacters(t: string, i: nat)
    requires IsFloatLiteral(t)
    requires i < |t|
    ensures !IsSpace(t[i]) && t[i] != ','
  {
    var u := Unsigned(t);
    if u != t {
      if i > 0 {
        assert t[i] == u[i - 1];
      }
    } else if '.' in u {
      var k := IndexOf(u, '.');
      if i < k {
        assert u[..k][i] == u[i];
      } else if i > k {
        assert u[k + 1..][i - k - 1] == u[i];
      }
    }
  }

  /** Integer literals are float literals, so the same character restriction applies. */
  lemma IntLiteralIsFloat(t: string)
    requires IsIntLiteral(t)
    ensures IsFloatLiteral(t)
  {
  }

  /** Neither `int()` nor `float()` accepts text containing a comma, wherever it sits: a comma
      is not whitespace, so `strip()` keeps it, and no literal contains one. */
  lemma CommaNeverCoerces(s: string)
    requires ',' in s
    ensures ParseInt(s).None? && ParseFloat(s).None?
  {
    var i := IndexOf(s, ',');
    var lo, hi := StripSlice(s);
    assert !IsSpace(s[i]);
    assert lo <= i < hi;
    var t := Strip(s);
    assert t[i - lo] == ',';
    if IsIntLiteral(t) {
      IntLiteralIsFloat(t);
    }
    if IsFloatLiteral(t) {
      LiteralCharacters(t, i - lo);
    }
  }

  /** A leading zero does not change the value of a digit string. */
  lemma LeadingZero(s: string, t: string)
    requires AllDigits(t) && s == "0" + t
    ensures AllDigits(s) && DigitsValue(s) == DigitsValue(t)
  {
    assert s[1..] == t;
  }

  /** A decimal literal whose digits, read together, are worth `n`. */
  lemma DecimalOfValue(s: string, a: string, b: string, n: nat)
    requires AllDigits(a) && AllDigits(b) && |a| + |b| > 0 && AllDigits(a + b)
    requires s == a + "." + b && DigitsValue(a + b) == n
    ensures ParseFloat(s) == Some(Tenths(n as real, |b|))
  {
    ParseFloatDecimal(a, b);
  }

  /** A decimal literal whose digits, read together, print as `n`. */
  lemma DecimalOfDigits(s: string, a: string, b: string, n: nat)
    requires AllDigits(a) && AllDigits(b) && |a| + |b| > 0
    requires s == a + "." + b && a + b == ShowNat(n)
    ensures ParseFloat(s) == Some(Tenths(n as real, |b|))
  {
    DigitsValueShowNat(n);
    DecimalOfValue(s, a, b, n);
  }

  // The worked examples below take their literal as a parameter fixed by a `requires`
  // (`s == "12.50"`), or spell a digit string as `ShowNat(n)`, instead of writing the literal
  // into the ensures. A literal argument makes the verifier evaluate `Strip` and the literal
  // scanners eagerly, character by character, which costs far more than the small lemmas
  // about the literal's parts. The claim is the same: the requires admits exactly one string.

  /** `float("12.50")` is 12.5. */
  lemma ParseFloatExample(s: string)
    requires s == "12.50"
    ensures ParseFloat(s) == Some(12.5)
  {
    DecimalOfDigits(s, "12", "50", 1250);
    assert Tenths(1250.0, 2) == 12.5;
  }

  /** `float("0.25")` is 0.25. */
  lemma QuarterLiteral(u: string)
    requires u == "0.25"
    ensures ParseFloat(u) == Some(0.25) && Strip(u) == u && !IsSign(u[0])
  {
    var a, b := "0", "25";
    assert b == ShowNat(25) && AllDigits(a);
    LeadingZero(a + b, b);
    DigitsValueShowNat(25);
    DecimalOfValue(u, a, b, 25);
    assert Tenths(25.0, 2) == 0.25;
    StripTrimmed(u);
  }

  /** `float("-0.25")` is -0.25. */
  lemma ParseFloatNegativeExample(s: string)
    requires s == "-0.25"
    ensures ParseFloat(s) == Some(-0.25)
  {
    var u := "0.25";
    assert s == "-" + u;
    QuarterLiteral(u);
    ParseFloatNegated(u);
  }
}
