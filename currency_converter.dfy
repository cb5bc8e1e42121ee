/** The currency-converter hook: two text fields, USD and IQD. Editing one
    stores the text as typed and overwrites the other with the converted
    amount at the selected record's rate; losing the rate clears both. */
module CurrencyConverter {
  import opened ExchangeRate
  import opened NumberText

  /** What `toFixed` writes for the non-finite quotient of a division by a
      zero rate. */
  function NonFiniteText(amount: real): (t: string)
    ensures t == "Infinity" || t == "-Infinity" || t == "NaN"
    ensures t == "NaN" <==> amount == 0.0
  {
    if amount > 0.0 then "Infinity" else if amount < 0.0 then "-Infinity" else "NaN"
  }

  /** The dinar amount for `amount` dollars at `ratePerDollar`, as written
      into the IQD field: rounded to a whole number. */
  function DinarText(amount: real, ratePerDollar: real): (t: string)
    ensures t != "" && '.' !in t
  {
    ToFixed(amount * ratePerDollar, 0)
  }

  /** The dollar amount for `amount` dinars at `ratePerDollar`, as written
      into the USD field: rounded to cents, or the text of a non-finite
      number when the rate is zero. */
  function DollarText(amount: real, ratePerDollar: real): (t: string)
    ensures t != ""
    ensures ratePerDollar != 0.0 ==> |t| > 3 && t[|t| - 3] == '.' && AllDigits(t[|t| - 2..])
  {
    if ratePerDollar != 0.0 then ToFixed(amount / ratePerDollar, 2) else NonFiniteText(amount)
  }

  /** The IQD text written after the USD field is set to `usd`: cleared
      exactly when the entry is empty or there is no rate. */
  function IqdFor(usd: string, latest: Option<Record>): (t: string)
    ensures t == "" <==> usd == "" || latest.None?
  {
    if usd == "" then ""
    else
      match latest
      case None => ""
      case Some(r) => DinarText(ParseOrZero(usd), Scale(r.rate))
  }

  /** The USD text written after the IQD field is set to `iqd`: cleared
      exactly when the entry is empty or there is no rate; a zero rate
      writes the text of a non-finite number. */
  function UsdFor(iqd: string, latest: Option<Record>): (t: string)
    ensures t == "" <==> iqd == "" || latest.None?
    ensures iqd != "" && latest.Some? && latest.value.rate == 0 ==> t in {"Infinity", "-Infinity", "NaN"}
  {
    if iqd == "" then ""
    else
      match latest
      case None => ""
      case Some(r) => DollarText(ParseOrZero(iqd), Scale(r.rate))
  }

  class Converter {
    var usdAmount: string
    var iqdAmount: string
    /** The rate the hook was last rendered with. */
    var latestRate: Option<Record>

    /** First render: both fields empty (the mount-time clearing effect leaves them so). */
    constructor(latest: Option<Record>)
      ensures usdAmount == "" && iqdAmount == "" && latestRate == latest
    {
      usdAmount, iqdAmount := "", "";
      latestRate := latest;
    }

    /** A render with `latest`. The clearing effect runs only when the rate
        differs from the previous render, and clears only when it is gone. */
    method RateChanged(latest: Option<Record>)
      modifies this
      ensures latestRate == latest
      ensures if latest.None? && old(latestRate) != latest
              then usdAmount == "" && iqdAmount == ""
              else usdAmount == old(usdAmount) && iqdAmount == old(iqdAmount)
    {
      if latest != latestRate {
        if latest.None? {
          usdAmount := "";
          iqdAmount := "";
        }
      }
      latestRate := latest;
    }

    /** `handleUsdChange`: keeps the typed text, rewrites the IQD field. */
    method HandleUsdChange(value: string)
      modifies this
      ensures usdAmount == value
      ensures iqdAmount == IqdFor(value, latestRate)
      ensures latestRate == old(latestRate)
    {
      usdAmount := value;
      iqdAmount := IqdFor(value, latestRate);
    }

    /** `handleIqdChange`: keeps the typed text, rewrites the USD field. */
    method HandleIqdChange(value: string)
      modifies this
      ensures iqdAmount == value
      ensures usdAmount == UsdFor(value, latestRate)
      ensures latestRate == old(latestRate)
    {
      iqdAmount := value;
      usdAmount := UsdFor(value, latestRate);
    }
  }

  // ---------------------------------------------------------------------
  // Properties of the conversions

  /** The dinar text reads back as the product rounded to whole dinars. */
  lemma DinarTextValue(amount: real, ratePerDollar: real)
    ensures DinarText(amount, ratePerDollar) != ""
    ensures ParseOrZero(DinarText(amount, ratePerDollar)) == RoundToDecimals(amount * ratePerDollar, 0)
  {
    ParseToFixed(amount * ratePerDollar, 0);
  }

  /** That is a whole number of dinars within half a dinar of the exact
      product. */
  lemma DinarTextRounds(amount: real, ratePerDollar: real)
    ensures var iqd := ParseOrZero(DinarText(amount, ratePerDollar));
      iqd == iqd.Floor as real && -0.5 <= iqd - amount * ratePerDollar <= 0.5
  {
    DinarTextValue(amount, ratePerDollar);
    RoundToWholeError(amount * ratePerDollar);
  }

  /** For a rate that is not zero, the dollar text reads back as the quotient
      rounded to cents; for a zero rate it is the text of a non-finite number. */
  lemma DollarTextValue(amount: real, ratePerDollar: real)
    ensures DollarText(amount, ratePerDollar) != ""
    ensures ratePerDollar != 0.0 ==>
      ParseOrZero(DollarText(amount, ratePerDollar)) == RoundToDecimals(amount / ratePerDollar, 2)
    ensures ratePerDollar == 0.0 ==> DollarText(amount, ratePerDollar) in {"Infinity", "-Infinity", "NaN"}
  {
    if ratePerDollar != 0.0 {
      ParseToFixed(amount / ratePerDollar, 2);
    }
  }

  /** For a rate that is not zero, that is within half a cent of the exact
      quotient. */
  lemma DollarTextRounds(amount: real, ratePerDollar: real)
    requires ratePerDollar != 0.0
    ensures -0.005 <= ParseOrZero(DollarText(amount, ratePerDollar)) - amount / ratePerDollar <= 0.005
  {
    DollarTextValue(amount, ratePerDollar);
    RoundToCentsError(amount / ratePerDollar);
  }

  lemma DivideBounds(a: real, lo: real, hi: real, r: real)
    requires r > 0.0 && lo <= a <= hi
    ensures lo / r <= a / r <= hi / r
  {
    var below, above := (a - lo) / r, (hi - a) / r;
    assert below * r == a - lo && above * r == hi - a;
    assert below >= 0.0 && above >= 0.0;
    assert a / r - lo / r == below && hi / r - a / r == above;
  }

  lemma ScaleBounds(a: real, lo: real, hi: real, r: real)
    requires r > 0.0 && lo <= a <= hi
    ensures lo * r <= a * r <= hi * r
  {
    assert a * r - lo * r == (a - lo) * r && hi * r - a * r == (hi - a) * r;
  }

  /** USD to IQD and back: whatever dinar value `i` lies within half a dinar
      of `u * rate`, and whatever dollar value `back` lies within half a cent
      of `i / rate`, `back` is within half a cent plus half a dinar's worth
      of dollars of `u`. */
  lemma UsdRoundTrip(u: real, rate: real, i: real, back: real)
    requires rate > 0.0
    requires -0.5 <= i - u * rate <= 0.5
    requires -0.005 <= back - i / rate <= 0.005
    ensures -(0.005 + 0.5 / rate) <= back - u <= 0.005 + 0.5 / rate
  {
    DivideBounds(i - u * rate, -0.5, 0.5, rate);
    DivMulCancel(u, rate);
    assert (i - u * rate) / rate == i / rate - u;
    assert -0.5 / rate == -(0.5 / rate);
  }

  /** IQD to USD and back: whatever dollar value `u` lies within half a cent
      of `i / rate`, and whatever dinar value `back` lies within half a dinar
      of `u * rate`, `back` is within half a dinar plus half a cent's worth of
      dinars of `i`. At 1500 dinars a dollar that is up to 8 dinars: 1000
      dinars read 0.67 dollars, which come back as 1005 dinars. */
  lemma IqdRoundTrip(i: real, rate: real, u: real, back: real)
    requires rate > 0.0
    requires -0.005 <= u - i / rate <= 0.005
    requires -0.5 <= back - u * rate <= 0.5
    ensures -(0.5 + 0.005 * rate) <= back - i <= 0.5 + 0.005 * rate
  {
    var e := u - i / rate;
    ScaleBounds(e, -0.005, 0.005, rate);
    assert -0.005 * rate == -(0.005 * rate);
    DivMulCancel(i, rate);
    assert e * rate == u * rate - i / rate * rate;
    assert e * rate == u * rate - i;
    assert back - i == (back - u * rate) + e * rate;
    assert -0.005 * rate <= e * rate <= 0.005 * rate;
    assert back - i >= -0.5 - 0.005 * rate;
    assert back - i <= 0.5 + 0.005 * rate;
  }

  /** The round-trip law for the converter's own text: typing `u` dollars,
      then typing the dinar text that produced back into the IQD field, gives
      a dollar text within half a cent plus half a dinar's worth of dollars
      of `u`. */
  lemma UsdRoundTripText(u: real, rate: real)
    requires rate > 0.0
    ensures var back := ParseOrZero(DollarText(ParseOrZero(DinarText(u, rate)), rate));
      -(0.005 + 0.5 / rate) <= back - u <= 0.005 + 0.5 / rate
  {
    var i := ParseOrZero(DinarText(u, rate));
    DinarTextRounds(u, rate);
    DollarTextRounds(i, rate);
    UsdRoundTrip(u, rate, i, ParseOrZero(DollarText(i, rate)));
  }

  /** The same for dinars: typing `i` dinars, then typing the dollar text
      back into the USD field, gives a dinar text within half a dinar plus
      half a cent's worth of dinars of `i`. */
  lemma IqdRoundTripText(i: real, rate: real)
    requires rate > 0.0
    ensures var back := ParseOrZero(DinarText(ParseOrZero(DollarText(i, rate)), rate));
      -(0.5 + 0.005 * rate) <= back - i <= 0.5 + 0.005 * rate
  {
    var u := ParseOrZero(DollarText(i, rate));
    DollarTextRounds(i, rate);
    DinarTextRounds(u, rate);
    IqdRoundTrip(i, rate, u, ParseOrZero(DinarText(u, rate)));
  }

  /** The drift of the IQD round trip is real: at 1500 dinars a dollar,
      1000 dinars come back as 1005. */
  lemma IqdRoundTripDrifts()
    ensures RoundToDecimals(1000.0 / 1500.0, 2) == 0.67
    ensures RoundToDecimals(0.67 * 1500.0, 0) == 1005.0
  {
  }
}
