/** The two text conversions the currency converter relies on, over exact
    rationals instead of binary floating point:
    - `ParseOrZero(s)` is `Number.parseFloat(s) || 0`: the longest decimal
      prefix after leading white space, and 0 when there is none;
    - `ToFixed(x, d)` is `x.toFixed(d)`: the sign, then the nearest multiple
      of 10^-d with ties going to the larger magnitude, written with exactly
      `d` fraction digits.
    The main fact is `ParseToFixed`: parsing what `ToFixed` wrote gives back
    the rounded value. */
module NumberText {
  import opened ExchangeRate

  // ---------------------------------------------------------------------
  // Digits

  predicate IsDigit(c: char) {
    '0' <= c <= '9'
  }

  predicate AllDigits(s: string) {
    forall k :: 0 <= k < |s| ==> IsDigit(s[k])
  }

  function DigitChar(d: nat): (c: char)
    requires d < 10
    ensures IsDigit(c) && c as int - '0' as int == d
  {
    ('0' as int + d) as char
  }

  function Pow10(n: nat): (p: nat)
    ensures p >= 1
  {
    if n == 0 then 1 else 10 * Pow10(n - 1)
  }

  /** The value of a digit character. */
  function DigitValue(c: char): (d: nat)
    requires IsDigit(c)
    ensures d < 10 && DigitChar(d) == c
  {
    c as int - '0' as int
  }

  /** The value of a run of digits, most significant first. */
  function DigitsValue(s: string): nat
    requires AllDigits(s)
  {
    if s == [] then 0 else DigitsValue(s[..|s| - 1]) * 10 + DigitValue(s[|s| - 1])
  }

  // ---------------------------------------------------------------------
  // Parsing: `Number.parseFloat(s) || 0`, as a left-to-right scan

  /** The white space and line terminators `parseFloat` skips: tab, the
      vertical tab, form feed, the byte order mark, the space separators of
      Unicode category Zs, line feed, carriage return and the line and
      paragraph separators. */
  predicate IsWhiteSpace(c: char) {
    var u := c as int;
    || u == 0x09 || u == 0x0B || u == 0x0C || u == 0xFEFF
    || u == 0x20 || u == 0xA0 || u == 0x1680 || 0x2000 <= u <= 0x200A
    || u == 0x202F || u == 0x205F || u == 0x3000
    || u == 0x0A || u == 0x0D || u == 0x2028 || u == 0x2029
  }

  /** How much of a decimal literal the scan has read. `whole` is the value of
      the integer digits, `fraction` that of the `places` fraction digits,
      `digits` whether any digit has been read at all. */
  datatype Scan =
    | Blank                                    // only white space so far
    | Sign(negative: bool)                     // a sign and nothing after it
    | Int(negative: bool, whole: nat)          // at least one integer digit
    | Frac(negative: bool, whole: nat, fraction: nat, places: nat, digits: bool)
    | Exp(negative: bool, whole: nat, fraction: nat, places: nat, expNegative: bool, expSigned: bool)
    | ExpDigits(negative: bool, whole: nat, fraction: nat, places: nat, expNegative: bool, exponent: nat)

  /** The number a scan stopped in `st` denotes: 0 when no digit was read (NaN
      turned into 0), an exponent counting only once it has a digit. */
  function Value(st: Scan): real {
    match st
    case Blank => 0.0
    case Sign(_) => 0.0
    case Int(negative, whole) => Signed(negative, whole as real)
    case Frac(negative, whole, fraction, places, digits) =>
      if digits then Signed(negative, whole as real + fraction as real / Pow10(places) as real) else 0.0
    case Exp(negative, whole, fraction, places, _, _) =>
      Signed(negative, whole as real + fraction as real / Pow10(places) as real)
    case ExpDigits(negative, whole, fraction, places, expNegative, exponent) =>
      var mantissa := whole as real + fraction as real / Pow10(places) as real;
      var power := Pow10(exponent) as real;
      Signed(negative, if expNegative then mantissa / power else mantissa * power)
  }

  function Signed(negative: bool, magnitude: real): real {
    if negative then -magnitude else magnitude
  }

  /** The first character of the unsigned part, after an optional sign. */
  function Start(negative: bool, c: char): Option<Scan> {
    if IsDigit(c) then Some(Int(negative, DigitValue(c)))
    else if c == '.' then Some(Frac(negative, 0, 0, 0, false))
    else None
  }

  /** One step of the scan; None when `c` cannot extend the literal, which
      ends it there. */
  function Next(st: Scan, c: char): Option<Scan> {
    match st
    case Blank =>
      if IsWhiteSpace(c) then Some(Blank)
      else if c == '-' || c == '+' then Some(Sign(c == '-'))
      else Start(false, c)
    case Sign(negative) => Start(negative, c)
    case Int(negative, whole) =>
      if IsDigit(c) then Some(Int(negative, whole * 10 + DigitValue(c)))
      else if c == '.' then Some(Frac(negative, whole, 0, 0, true))
      else if c == 'e' || c == 'E' then Some(Exp(negative, whole, 0, 0, false, false))
      else None
    case Frac(negative, whole, fraction, places, digits) =>
      if IsDigit(c) then Some(Frac(negative, whole, fraction * 10 + DigitValue(c), places + 1, true))
      else if digits && (c == 'e' || c == 'E') then Some(Exp(negative, whole, fraction, places, false, false))
      else None
    case Exp(negative, whole, fraction, places, expNegative, expSigned) =>
      if IsDigit(c) then Some(ExpDigits(negative, whole, fraction, places, expNegative, DigitValue(c)))
      else if !expSigned && (c == '-' || c == '+') then Some(Exp(negative, whole, fraction, places, c == '-', true))
      else None
    case ExpDigits(negative, whole, fraction, places, expNegative, exponent) =>
      if IsDigit(c) then Some(ExpDigits(negative, whole, fraction, places, expNegative, exponent * 10 + DigitValue(c)))
      else None
  }

  /** The value of the literal the scan in state `st` reads from the front of `s`. */
  function ScanFrom(s: string, st: Scan): real {
    if s == [] then Value(st)
    else
      match Next(st, s[0])
      case None => Value(st)
      case Some(next) => ScanFrom(s[1..], next)
  }

  /** `Number.parseFloat(s) || 0`: unparsable text counts as 0, never an error. */
  function ParseOrZero(s: string): (v: real)
    ensures (forall k :: 0 <= k < |s| ==> !IsDigit(s[k])) ==> v == 0.0
  {
    NoDigitScan(s, Blank);
    ScanFrom(s, Blank)
  }

  /** A scan that has not read a digit yet. */
  predicate NoDigitYet(st: Scan) {
    st.Blank? || st.Sign? || (st.Frac? && !st.digits)
  }

  /** A scan that has read no digit and meets none reads 0. */
  lemma {:induction false} NoDigitScan(s: string, st: Scan)
    ensures NoDigitYet(st) && (forall k :: 0 <= k < |s| ==> !IsDigit(s[k])) ==> ScanFrom(s, st) == 0.0
  {
    if s != [] && NoDigitYet(st) && (forall k :: 0 <= k < |s| ==> !IsDigit(s[k])) {
      match Next(st, s[0])
      case None =>
      case Some(next) =>
        assert NoDigitYet(next);
        assert forall k :: 0 <= k < |s[1..]| ==> s[1..][k] == s[k + 1];
        NoDigitScan(s[1..], next);
    }
  }

  // ---------------------------------------------------------------------
  // Formatting: `x.toFixed(d)`

  /** The decimal numeral of `n`, without leading zeros. */
  function NatText(n: nat): string {
    if n < 10 then [DigitChar(n)] else NatText(n / 10) + [DigitChar(n % 10)]
  }

  /** The last `width` decimal digits of `m`, zero-padded on the left. */
  function PadDigits(m: nat, width: nat): string {
    if width == 0 then "" else PadDigits(m / 10, width - 1) + [DigitChar(m % 10)]
  }

  /** The integer `toFixed` picks: the nearest to `y`, the larger on a tie. */
  function RoundHalfUp(y: real): (n: nat)
    requires y >= 0.0
    ensures n as real - 0.5 <= y < n as real + 0.5
  {
    (y + 0.5).Floor
  }

  function Abs(x: real): (a: real)
    ensures a >= 0.0 && (a == x || a == -x)
  {
    if x < 0.0 then -x else x
  }

  /** The integer count of 10^-d units `toFixed(d)` writes for `x`, before the
      sign is put back: the decimal point moves `d` places right, then the
      magnitude is rounded. */
  function ScaledRound(x: real, d: nat): nat
    decreases d
  {
    if d == 0 then RoundHalfUp(Abs(x)) else ScaledRound(10.0 * x, d - 1)
  }

  /** The value `x.toFixed(d)` denotes: `x` rounded to `d` decimals, ties away
      from zero (the sign is taken off before rounding). */
  function RoundToDecimals(x: real, d: nat): (r: real)
    ensures x >= 0.0 ==> r >= 0.0
    ensures x < 0.0 ==> r <= 0.0
  {
    Signed(x < 0.0, ScaledRound(x, d) as real / Pow10(d) as real)
  }

  /** The text is a sign for a negative input, then the integer digits, then
      a point and exactly `d` digits when `d` is not 0. */
  function ToFixed(x: real, d: nat): (t: string)
    ensures t != [] && (t[0] == '-' <==> x < 0.0)
    ensures d == 0 ==> '.' !in t
    ensures d > 0 ==> |t| > d + 1 && t[|t| - d - 1] == '.' && AllDigits(t[|t| - d..])
  {
    var n, p := ScaledRound(x, d), Pow10(d);
    DivMod(n, p);
    var q, r := n / p, n % p;
    NatTextSpec(q);
    PadDigitsSpec(r, d);
    FixedTextShape(x < 0.0, NatText(q), PadDigits(r, d));
    (if x < 0.0 then "-" else "") + NatText(q) + FractionText(r, d)
  }

  /** The layout of a fixed-point numeral: optional sign, integer digits,
      and a point followed by the fraction digits when there are any. */
  lemma FixedTextShape(negative: bool, whole: string, digits: string)
    requires whole != [] && AllDigits(whole) && AllDigits(digits)
    ensures var t := (if negative then "-" else "") + whole + (if digits == [] then "" else "." + digits);
      && t != [] && (t[0] == '-' <==> negative)
      && (digits == [] ==> '.' !in t)
      && (digits != [] ==> |t| > |digits| + 1 && t[|t| - |digits| - 1] == '.' && t[|t| - |digits|..] == digits)
  {
    var sign := if negative then "-" else "";
    var t := sign + whole + (if digits == [] then "" else "." + digits);
    assert forall k :: |sign| <= k < |sign| + |whole| ==> t[k] == whole[k - |sign|];
    if digits != [] {
      assert t == (sign + whole + ".") + digits;
    }
  }

  // ---------------------------------------------------------------------
  // Properties

  lemma {:induction false} NatTextSpec(n: nat)
    ensures NatText(n) != [] && AllDigits(NatText(n))
    ensures DigitsValue(NatText(n)) == n
  {
    if n >= 10 {
      NatTextSpec(n / 10);
      var s := NatText(n);
      assert s[..|s| - 1] == NatText(n / 10);
    }
  }

  lemma DivMod(n: nat, p: nat)
    requires p >= 1
    ensures 0 <= n / p && n == p * (n / p) + n % p && 0 <= n % p < p
  {
  }

  lemma {:induction false} PadDigitsSpec(m: nat, width: nat)
    requires m < Pow10(width)
    ensures |PadDigits(m, width)| == width && AllDigits(PadDigits(m, width))
    ensures DigitsValue(PadDigits(m, width)) == m
  {
    if width > 0 {
      PadDigitsSpec(m / 10, width - 1);
      var s := PadDigits(m, width);
      assert s[..|s| - 1] == PadDigits(m / 10, width - 1);
    }
  }

  /** The text after the integer digits of a fixed-point numeral: nothing for
      0 decimals, otherwise a point and exactly `d` digits. */
  function FractionText(fraction: nat, d: nat): string {
    if d == 0 then "" else "." + PadDigits(fraction, d)
  }

  /** One more digit `c` after a value `v` that follows a prefix worth
      `prefix` over `p` places. */
  lemma ShiftDigit(prefix: nat, p: nat, v: nat, c: nat)
    ensures (prefix * p + v) * 10 + c == prefix * (10 * p) + (v * 10 + c)
  {
  }

  /** The last digit of a run, and the run before it. */
  lemma SplitLastDigit(ds: string)
    requires ds != [] && AllDigits(ds)
    ensures AllDigits(ds[..|ds| - 1]) && IsDigit(ds[|ds| - 1])
    ensures DigitsValue(ds) == DigitsValue(ds[..|ds| - 1]) * 10 + DigitValue(ds[|ds| - 1])
    ensures Pow10(|ds|) == 10 * Pow10(|ds| - 1)
  {
    var init := ds[..|ds| - 1];
    forall k | 0 <= k < |init| ensures IsDigit(init[k]) {
      assert init[k] == ds[k];
    }
  }

  lemma ScanIntStep(c: char, rest: string, negative: bool, whole: nat)
    requires IsDigit(c)
    ensures ScanFrom([c] + rest, Int(negative, whole)) == ScanFrom(rest, Int(negative, whole * 10 + DigitValue(c)))
  {
    assert ([c] + rest)[1..] == rest;
  }

  lemma ScanFracStep(c: char, rest: string, negative: bool, whole: nat, fraction: nat, places: nat, digits: bool)
    requires IsDigit(c)
    ensures ScanFrom([c] + rest, Frac(negative, whole, fraction, places, digits))
      == ScanFrom(rest, Frac(negative, whole, fraction * 10 + DigitValue(c), places + 1, true))
  {
    assert ([c] + rest)[1..] == rest;
  }

  /** Integer digits extend the integer part, most significant first. */
  lemma {:induction false} ScanIntDigits(ds: string, rest: string, negative: bool, whole: nat)
    requires AllDigits(ds)
    ensures ScanFrom(ds + rest, Int(negative, whole))
      == ScanFrom(rest, Int(negative, whole * Pow10(|ds|) + DigitsValue(ds)))
  {
    if ds == [] {
      assert ds + rest == rest;
    } else {
      var init, last := ds[..|ds| - 1], ds[|ds| - 1];
      SplitLastDigit(ds);
      assert ds + rest == init + ([last] + rest);
      ScanIntDigits(init, [last] + rest, negative, whole);
      ScanIntStep(last, rest, negative, whole * Pow10(|init|) + DigitsValue(init));
      ShiftDigit(whole, Pow10(|init|), DigitsValue(init), DigitValue(last));
    }
  }

  /** Fraction digits extend the fraction part and count its places. */
  lemma {:induction false} ScanFracDigits(ds: string, rest: string, negative: bool, whole: nat, fraction: nat, places: nat, digits: bool)
    requires AllDigits(ds)
    ensures ScanFrom(ds + rest, Frac(negative, whole, fraction, places, digits))
      == ScanFrom(rest, Frac(negative, whole, fraction * Pow10(|ds|) + DigitsValue(ds), places + |ds|, digits || ds != []))
  {
    if ds == [] {
      assert ds + rest == rest;
    } else {
      var init, last := ds[..|ds| - 1], ds[|ds| - 1];
      SplitLastDigit(ds);
      assert ds + rest == init + ([last] + rest);
      ScanFracDigits(init, [last] + rest, negative, whole, fraction, places, digits);
      ScanFracStep(last, rest, negative, whole, fraction * Pow10(|init|) + DigitsValue(init), places + |init|, digits || init != []);
      ShiftDigit(fraction, Pow10(|init|), DigitsValue(init), DigitValue(last));
    }
  }

  /** A numeral that starts with a digit, with or without a minus sign in
      front, is scanned as an integer part that is still 0. */
  lemma ParseSignedDigits(negative: bool, unsigned: string)
    requires unsigned != [] && IsDigit(unsigned[0])
    ensures ParseOrZero((if negative then "-" else "") + unsigned) == ScanFrom(unsigned, Int(negative, 0))
  {
    var text := (if negative then "-" else "") + unsigned;
    if negative {
      assert text[1..] == unsigned;
      assert ScanFrom(text, Blank) == ScanFrom(unsigned, Sign(true));
    } else {
      assert text == unsigned;
    }
  }

  /** The digits of `whole` and then `FractionText(fraction, d)` scan to
      the whole number plus the fraction over 10^d. */
  lemma ScanFixedDigits(negative: bool, whole: nat, fraction: nat, d: nat)
    requires fraction < Pow10(d)
    ensures ScanFrom(NatText(whole) + FractionText(fraction, d), Int(negative, 0))
      == Signed(negative, whole as real + fraction as real / Pow10(d) as real)
  {
    var digits, tail := NatText(whole), FractionText(fraction, d);
    NatTextSpec(whole);
    ScanIntDigits(digits, tail, negative, 0);
    assert 0 * Pow10(|digits|) + DigitsValue(digits) == whole;
    if d == 0 {
      assert tail == "";
      assert fraction == 0;
    } else {
      ScanFraction(negative, whole, fraction, d);
    }
  }

  /** After the integer part, a point and `d` padded digits add the fraction. */
  lemma ScanFraction(negative: bool, whole: nat, fraction: nat, d: nat)
    requires d > 0 && fraction < Pow10(d)
    ensures ScanFrom(FractionText(fraction, d), Int(negative, whole))
      == Signed(negative, whole as real + fraction as real / Pow10(d) as real)
  {
    var padded := PadDigits(fraction, d);
    PadDigitsSpec(fraction, d);
    var tail := "." + padded;
    assert tail[1..] == padded + "";
    assert ScanFrom(tail, Int(negative, whole)) == ScanFrom(padded + "", Frac(negative, whole, 0, 0, true));
    ScanFracDigits(padded, "", negative, whole, 0, 0, true);
    var st := Frac(negative, whole, 0 * Pow10(d) + fraction, 0 + d, true);
    assert st == Frac(negative, whole, fraction, d, true);
  }

  /** Reading a fixed-point numeral: sign, integer digits, then (for d > 0)
      a point and exactly d fraction digits. */
  lemma ParseFixedText(negative: bool, whole: nat, fraction: nat, d: nat)
    requires fraction < Pow10(d)
    ensures ParseOrZero((if negative then "-" else "") + NatText(whole) + FractionText(fraction, d))
      == Signed(negative, whole as real + fraction as real / Pow10(d) as real)
  {
    var unsigned := NatText(whole) + FractionText(fraction, d);
    NatTextSpec(whole);
    assert unsigned[0] == NatText(whole)[0];
    assert (if negative then "-" else "") + NatText(whole) + FractionText(fraction, d)
      == (if negative then "-" else "") + unsigned;
    ParseSignedDigits(negative, unsigned);
    ScanFixedDigits(negative, whole, fraction, d);
  }

  lemma SplitQuotient(n: nat, p: nat)
    requires p >= 1
    ensures (n / p) as real + (n % p) as real / p as real == n as real / p as real
  {
    DivMod(n, p);
    var q, r := n / p, n % p;
    var pr := p as real;
    assert n as real == pr * q as real + r as real;
    assert (pr * q as real + r as real) / pr == q as real + r as real / pr;
  }

  /** Leading white space is skipped and reading stops at the first
      character that cannot continue a number, e.g. "  12.5 USD". */
  lemma ParseDecimalExample()
    ensures ParseOrZero("  12.5 USD") == 12.5
  {
  }

  /** A sign may be followed directly by the decimal point, e.g. "-.25". */
  lemma ParseSignedFractionExample()
    ensures ParseOrZero("-.25") == -0.25
  {
    assert ParseOrZero("-.25") == ScanFrom(".25", Sign(true)) == ScanFrom("25", Frac(true, 0, 0, 0, false))
      == ScanFrom("5", Frac(true, 0, 2, 1, true)) == ScanFrom("", Frac(true, 0, 25, 2, true));
  }

  /** Text that does not start a number reads as 0, e.g. these four. */
  lemma ParseNoNumberExamples()
    ensures ParseOrZero("abc") == 0.0 && ParseOrZero(".") == 0.0 && ParseOrZero("- 5") == 0.0
    ensures ParseOrZero("") == 0.0
  {
  }

  /** A positive exponent scales the mantissa up, e.g. "1e3". */
  lemma ParseExponentExample()
    ensures ParseOrZero("1e3") == 1000.0
  {
    assert ParseOrZero("1e3") == ScanFrom("e3", Int(false, 1)) == ScanFrom("3", Exp(false, 1, 0, 0, false, false))
      == ScanFrom("", ExpDigits(false, 1, 0, 0, false, 3));
  }

  /** A negative exponent scales the mantissa down, e.g. "2.5e-1". */
  lemma ParseNegativeExponentExample()
    ensures ParseOrZero("2.5e-1") == 0.25
  {
    assert ParseOrZero("2.5e-1") == ScanFrom(".5e-1", Int(false, 2)) == ScanFrom("5e-1", Frac(false, 2, 0, 0, true))
      == ScanFrom("e-1", Frac(false, 2, 5, 1, true)) == ScanFrom("-1", Exp(false, 2, 5, 1, false, false))
      == ScanFrom("1", Exp(false, 2, 5, 1, true, true)) == ScanFrom("", ExpDigits(false, 2, 5, 1, true, 1));
  }

  /** An exponent marker without digits is ignored, e.g. "7e+". */
  lemma ParseBareExponentExample()
    ensures ParseOrZero("7e+") == 7.0
  {
    assert ParseOrZero("7e+") == ScanFrom("e+", Int(false, 7)) == ScanFrom("+", Exp(false, 7, 0, 0, false, false))
      == ScanFrom("", Exp(false, 7, 0, 0, false, true));
  }

  /** Text whose first character cannot begin a number: no digit, and a
      point only when no digit follows it. */
  predicate NoNumberStart(rest: string) {
    rest == [] || (!IsDigit(rest[0]) && (rest[0] == '.' ==> |rest| == 1 || !IsDigit(rest[1])))
  }

  lemma AfterSignNoNumber(negative: bool, rest: string)
    requires NoNumberStart(rest)
    ensures ScanFrom(rest, Sign(negative)) == 0.0
  {
    if rest != [] && rest[0] == '.' {
      assert ScanFrom(rest, Sign(negative)) == ScanFrom(rest[1..], Frac(negative, 0, 0, 0, false));
    }
  }

  lemma {:induction false} SkipWhiteSpace(ws: string, s: string)
    requires forall k :: 0 <= k < |ws| ==> IsWhiteSpace(ws[k])
    ensures ScanFrom(ws + s, Blank) == ScanFrom(s, Blank)
  {
    if ws != [] {
      assert (ws + s)[0] == ws[0] && IsWhiteSpace(ws[0]);
      assert Next(Blank, ws[0]) == Some(Blank);
      assert (ws + s)[1..] == ws[1..] + s;
      assert ScanFrom(ws + s, Blank) == ScanFrom(ws[1..] + s, Blank);
      SkipWhiteSpace(ws[1..], s);
    } else {
      assert ws + s == s;
    }
  }

  /** Unparsable text reads as 0: white space, an optional sign, and then
      anything that cannot begin a number (when there is no sign, that
      excludes more white space and a sign). */
  lemma NoNumberReadsZero(ws: string, sign: string, rest: string)
    requires forall k :: 0 <= k < |ws| ==> IsWhiteSpace(ws[k])
    requires sign == "" || sign == "-" || sign == "+"
    requires NoNumberStart(rest)
    requires sign == "" && rest != [] ==> !IsWhiteSpace(rest[0]) && rest[0] != '-' && rest[0] != '+'
    ensures ParseOrZero(ws + sign + rest) == 0.0
  {
    assert ws + sign + rest == ws + (sign + rest);
    SkipWhiteSpace(ws, sign + rest);
    AfterSignNoNumber(sign == "-", rest);
    if sign == "" {
      if rest != [] {
        assert Next(Blank, rest[0]) == Next(Sign(false), rest[0]);
      }
    } else {
      assert (sign + rest)[1..] == rest;
    }
  }

  /** Parsing undoes formatting: the text `ToFixed` writes reads back as the
      rounded value, whatever the sign and the number of decimals. */
  lemma ParseToFixed(x: real, d: nat)
    ensures ParseOrZero(ToFixed(x, d)) == RoundToDecimals(x, d)
  {
    var p := Pow10(d);
    var n := ScaledRound(x, d);
    DivMod(n, p);
    ParseFixedText(x < 0.0, n / p, n % p, d);
    SplitQuotient(n, p);
  }

  lemma DivMulCancel(n: real, p: real)
    requires p != 0.0
    ensures n / p * p == n
  {
  }

  /** Rounding to whole units gives a whole number within 0.5. */
  lemma RoundToWholeError(x: real)
    ensures var r := RoundToDecimals(x, 0);
      r == r.Floor as real && -0.5 <= r - x <= 0.5
  {
    var n := ScaledRound(x, 0);
    assert n == RoundHalfUp(Abs(x));
    assert Pow10(0) == 1;
    var m: int := if x < 0.0 then 0 - n as int else n as int;
    assert RoundToDecimals(x, 0) == m as real;
  }

  /** Rounding to hundredths moves a value by at most 0.005. */
  lemma RoundToCentsError(x: real)
    ensures -0.005 <= RoundToDecimals(x, 2) - x <= 0.005
  {
    var n := ScaledRound(x, 2) as real;
    assert ScaledRound(x, 2) == ScaledRound(10.0 * x, 1) == RoundHalfUp(Abs(10.0 * (10.0 * x)));
    assert Pow10(2) == 100;
    assert RoundToDecimals(x, 2) == if x < 0.0 then -(n / 100.0) else n / 100.0;
  }
}
