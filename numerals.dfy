/**
  Decimal numerals: `str` of a non-negative integer (the deposit handed to the
  trade scripts) and the number parsed from the `FILLED_AMOUNT:` line.

  Python's `float()` accepts more than the scripts ever print (white space,
  exponents, `inf`, `nan`, underscores); the parser here accepts the plain
  decimal forms only: an optional sign, digits, and an optional fraction, with
  at least one digit in all (`12`, `-3`, `12.5`, `12.`, `.5`).
*/
module Numerals {
  import opened Wrappers
  import opened Text

  function DigitValue(c: char): nat
    requires InClass(c, Digit)
  {
    c as int - '0' as int
  }

  function DigitChar(d: nat): (c: char)
    requires d < 10
    ensures InClass(c, Digit) && DigitValue(c) == d
  {
    ('0' as int + d) as char
  }

  /** The value of a string of digits, most significant digit first. */
  function DigitsValue(s: string): nat
    requires Span(s, 0, |s|, Digit)
  {
    if s == [] then 0 else DigitsValue(s[..|s| - 1]) * 10 + DigitValue(s[|s| - 1])
  }

  /** A numeral as `str` writes an integer: digits, no leading zero unless it is `0`. */
  predicate Canonical(s: string) {
    |s| >= 1 && Span(s, 0, |s|, Digit) && (s[0] == '0' ==> |s| == 1)
  }

  /** `str(n)` for a non-negative integer. */
  function NatToDecimal(n: nat): (r: string)
    ensures Canonical(r)
    ensures (r[0] == '0') == (n == 0)
  {
    if n < 10 then [DigitChar(n)] else NatToDecimal(n / 10) + [DigitChar(n % 10)]
  }

  /** Reading the numeral back gives the number. */
  lemma {:induction false} DecimalValue(n: nat)
    ensures DigitsValue(NatToDecimal(n)) == n
    decreases n
  {
    if n >= 10 {
      var r := NatToDecimal(n);
      DecimalValue(n / 10);
      assert r[..|r| - 1] == NatToDecimal(n / 10);
    }
  }

  /** A numeral with a non-zero leading digit denotes a positive number. */
  lemma {:induction false} LeadingDigitPositive(s: string)
    requires |s| >= 1 && Span(s, 0, |s|, Digit) && s[0] != '0'
    ensures DigitsValue(s) >= 1
    decreases |s|
  {
    if |s| > 1 {
      LeadingDigitPositive(s[..|s| - 1]);
    }
  }

  /** Writing the value of a canonical numeral gives the numeral back. */
  lemma {:induction false} DecimalOfValue(s: string)
    requires Canonical(s)
    ensures NatToDecimal(DigitsValue(s)) == s
    decreases |s|
  {
    var p := s[..|s| - 1];
    if |s| > 1 {
      LeadingDigitPositive(p);
      DecimalOfValue(p);
      var v := DigitsValue(s);
      assert v / 10 == DigitsValue(p) && v % 10 == DigitValue(s[|s| - 1]);
      assert p + [s[|s| - 1]] == s;
    }
  }

  // ---------------------------------------------------------------------------
  // The fill amount: float(line.split(':', 1)[1]) on a restricted grammar
  // ---------------------------------------------------------------------------

  /** The numeral without one leading sign. */
  function Unsigned(t: string): string {
    if |t| > 0 && (t[0] == '+' || t[0] == '-') then t[1..] else t
  }

  /** The value of the digits after a decimal point. */
  function FractionValue(s: string): real
    requires Span(s, 0, |s|, Digit)
  {
    if s == [] then 0.0 else (DigitValue(s[0]) as real + FractionValue(s[1..])) / 10.0
  }

  /** Reference: `u` is digits on `[0, k)`, then either nothing more (and at least
      one digit) or a point at `k` followed by digits only, with a digit on at
      least one side of the point. */
  predicate DecimalShape(u: string, k: nat) {
    k <= |u| && Span(u, 0, k, Digit)
    && (k == |u| ==> k > 0)
    && (k < |u| ==> u[k] == '.' && Span(u, k + 1, |u|, Digit) && |u| >= 2)
  }

  /** Reference: `t` is a numeral of the grammar. */
  ghost predicate IsDecimal(t: string) {
    exists k: nat :: DecimalShape(Unsigned(t), k)
  }

  /** The parse: `None` for text outside the grammar (where `float()` raises in
      the source, or accepts a form the grammar leaves out). */
  function ParseDecimal(t: string): (r: Option<real>)
    ensures r.Some? ==> DecimalShape(Unsigned(t), RunEnd(Unsigned(t), 0, Digit))
  {
    var u := Unsigned(t);
    var k := RunEnd(u, 0, Digit);
    if k == |u| && k > 0 then
      Some(Signed(t, DigitsValue(u) as real))
    else if k < |u| && u[k] == '.' && |u| >= 2 && RunEnd(u, k + 1, Digit) == |u| then
      SpanShift(u, k + 1, |u|, 0, |u| - k - 1, Digit);
      assert Span(u[..k], 0, k, Digit);
      Some(Signed(t, DigitsValue(u[..k]) as real + FractionValue(u[k + 1..])))
    else None
  }

  function Signed(t: string, magnitude: real): real {
    if |t| > 0 && t[0] == '-' then -magnitude else magnitude
  }

  /** The parser accepts exactly the numerals of the grammar. */
  lemma ParseDecimalAccepts(t: string)
    ensures ParseDecimal(t).Some? <==> IsDecimal(t)
  {
    var u := Unsigned(t);
    var k := RunEnd(u, 0, Digit);
    if ParseDecimal(t).Some? {
      assert DecimalShape(u, k);
    }
    if IsDecimal(t) {
      var k': nat :| DecimalShape(u, k');
      RunEndIs(u, 0, k', Digit);
      if k' < |u| {
        RunEndIs(u, k' + 1, |u|, Digit);
      }
    }
  }

  /** `float(str(n)) == n`: the numeral of a non-negative integer parses to it. */
  lemma ParseNatToDecimal(n: nat)
    ensures ParseDecimal(NatToDecimal(n)) == Some(n as real)
  {
    var r := NatToDecimal(n);
    assert Unsigned(r) == r;
    RunEndIs(r, 0, |r|, Digit);
    DecimalValue(n);
  }

  /** `10^n`. */
  function Pow10(n: nat): (p: nat)
    ensures p >= 1
  {
    if n == 0 then 1 else 10 * Pow10(n - 1)
  }

  /** The digits of a numeral's slice are digits. */
  lemma DigitSlice(s: string, a: nat, b: nat)
    requires a <= b <= |s| && Span(s, 0, |s|, Digit)
    ensures Span(s[a..b], 0, b - a, Digit)
  {
    SpanShift(s, a, b, 0, b - a, Digit);
  }

  /** Appending a digit: `(d * q + x) * 10 + e == d * (10 * q) + (x * 10 + e)`. */
  lemma ShiftTen(d: nat, q: nat, x: nat, e: nat, w: nat, v: nat, y: nat, p: nat)
    requires w == d * q + x && v == w * 10 + e && y == x * 10 + e && p == 10 * q
    ensures v == d * p + y
  {
  }

  /** The value of a numeral read from its leading digit. */
  lemma {:induction false} DigitsValueFront(s: string)
    requires |s| >= 1 && Span(s, 0, |s|, Digit)
    ensures Span(s[1..], 0, |s| - 1, Digit)
    ensures DigitsValue(s) == DigitValue(s[0]) * Pow10(|s| - 1) + DigitsValue(s[1..])
    decreases |s|
  {
    DigitSlice(s, 1, |s|);
    if |s| > 1 {
      var p := s[..|s| - 1];
      var r := s[1..];
      DigitSlice(s, 0, |s| - 1);
      DigitsValueFront(p);
      assert p[0] == s[0] && p[1..] == r[..|r| - 1] && r[|r| - 1] == s[|s| - 1];
      ShiftTen(DigitValue(s[0]), Pow10(|s| - 2), DigitsValue(p[1..]), DigitValue(s[|s| - 1]),
               DigitsValue(p), DigitsValue(s), DigitsValue(r), Pow10(|s| - 1));
    }
  }

  /** One step of the fraction: `(d + x / q) / 10 == (d * q + x) / (10 * q)`. */
  lemma ScaleDown(d: nat, x: nat, q: nat, v: nat, p: nat)
    requires q >= 1 && v == d * q + x && p == 10 * q
    ensures (d as real + x as real / q as real) / 10.0 == v as real / p as real
  {
    var r := x as real / q as real;
    assert r * q as real == x as real;
    assert v as real == d as real * q as real + x as real;
    assert (d as real + r) * q as real == v as real;
  }

  /** The digits after the point denote their integer value over a power of ten. */
  lemma {:induction false} FractionOfDigits(f: string)
    requires Span(f, 0, |f|, Digit)
    ensures FractionValue(f) == DigitsValue(f) as real / Pow10(|f|) as real
    decreases |f|
  {
    if f != [] {
      DigitsValueFront(f);
      FractionOfDigits(f[1..]);
      ScaleDown(DigitValue(f[0]), DigitsValue(f[1..]), Pow10(|f| - 1), DigitsValue(f), Pow10(|f|));
    }
  }

  /** The sign a numeral's prefix applies to its magnitude: minus for `-`, none otherwise. */
  function WithSign(sign: string, magnitude: real): real {
    if sign == "-" then -magnitude else magnitude
  }

  /** A sign prefix in front of an unsigned text is the one stripped and applied. */
  lemma {:induction false} SignPrefix(sign: string, u: string)
    requires sign == "" || sign == "+" || sign == "-"
    requires u != [] && u[0] != '+' && u[0] != '-'
    ensures Unsigned(sign + u) == u
    ensures forall m :: Signed(sign + u, m) == WithSign(sign, m)
  {
    if sign == "" {
      assert sign + u == u;
    } else {
      assert (sign + u)[1..] == u;
    }
  }

  /** A text whose unsigned part is digits, a point and digits parses to the
      integer part plus the fraction. */
  lemma {:induction false} ParsePointed(t: string, i: string, f: string)
    requires Span(i, 0, |i|, Digit) && Span(f, 0, |f|, Digit) && |i| + |f| >= 1
    requires Unsigned(t) == i + "." + f
    ensures ParseDecimal(t) == Some(Signed(t, DigitsValue(i) as real + FractionValue(f)))
  {
    var u := i + "." + f;
    assert u[|i|] == '.';
    assert Span(u, 0, |i|, Digit) by {
      forall m | 0 <= m < |i| ensures InClass(u[m], Digit) { assert u[m] == i[m]; }
    }
    RunEndIs(u, 0, |i|, Digit);
    assert Span(u, |i| + 1, |u|, Digit) by {
      forall m | |i| + 1 <= m < |u| ensures InClass(u[m], Digit) { assert u[m] == f[m - |i| - 1]; }
    }
    RunEndIs(u, |i| + 1, |u|, Digit);
    assert u[..|i|] == i && u[|i| + 1..] == f;
  }

  /** `float(sign + i + "." + f)` for digit strings `i` and `f`, not both empty:
      the integer value of `i` plus that of `f` over `10^|f|`, with the sign applied. */
  lemma {:induction false} ParseFractional(sign: string, i: string, f: string)
    requires sign == "" || sign == "+" || sign == "-"
    requires Span(i, 0, |i|, Digit) && Span(f, 0, |f|, Digit) && |i| + |f| >= 1
    ensures ParseDecimal(sign + i + "." + f)
         == Some(WithSign(sign, DigitsValue(i) as real + DigitsValue(f) as real / Pow10(|f|) as real))
  {
    var u := i + "." + f;
    assert sign + i + "." + f == sign + u;
    assert u[0] != '+' && u[0] != '-' by {
      if |i| > 0 { assert u[0] == i[0]; } else { assert u[0] == '.'; }
    }
    SignPrefix(sign, u);
    ParsePointed(sign + u, i, f);
    FractionOfDigits(f);
  }

  /** `float(sign + i)` for a non-empty digit string `i`: its integer value, with the sign applied. */
  lemma {:induction false} ParseWhole(sign: string, i: string)
    requires sign == "" || sign == "+" || sign == "-"
    requires Span(i, 0, |i|, Digit) && |i| >= 1
    ensures ParseDecimal(sign + i) == Some(WithSign(sign, DigitsValue(i) as real))
  {
    SignPrefix(sign, i);
    RunEndIs(i, 0, |i|, Digit);
  }

  lemma ParseFractionExample()
    ensures ParseDecimal("0.5") == Some(0.5)
  {
    var u := "0.5";
    RunEndIs(u, 0, 1, Digit);
    RunEndIs(u, 2, 3, Digit);
    assert u[..1] == "0" && u[2..] == "5";
    assert DigitsValue("0") == 0;
    assert FractionValue("5") == 0.5;
  }

  lemma ParseTwelveAndAHalf()
    ensures ParseDecimal("12.5") == Some(12.5)
  {
    var u := "12.5";
    RunEndIs(u, 0, 2, Digit);
    RunEndIs(u, 3, 4, Digit);
    assert u[..2] == "12" && u[3..] == "5";
    assert "12"[..1] == "1";
    assert DigitsValue("12") == 12;
    assert FractionValue("5") == 0.5;
  }

  /** The bot's deposit as the scripts receive it. */
  lemma TenIsWrittenTen()
    ensures NatToDecimal(10) == "10"
  {
    assert NatToDecimal(1) == "1";
  }

  /** What a script prints when the exchange reports no fill is not a number. */
  lemma ParseRejectsNone()
    ensures ParseDecimal("None") == None
  {
    assert RunEnd("None", 0, Digit) == 0;
  }
}
