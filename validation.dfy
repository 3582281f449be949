/** Validation of the trade form: `validate_symbol`, `validate_shares`, the
    integer parsing `validate_shares` relies on, and the upper-casing that
    buy and sell apply to an accepted symbol. */
module Validation {

  datatype Option<T> = None | Some(value: T)

  /** What a validator returns: `(None, None)` or a `(message, status)` pair. */
  datatype Outcome = Pass | Fail(message: string, code: nat)

  // ---------------------------------------------------------------------------
  // Symbols

  predicate IsLetter(c: char) { 'A' <= c <= 'Z' || 'a' <= c <= 'z' }

  predicate IsUpperLetter(c: char) { 'A' <= c <= 'Z' }

  /** `str.isalpha` on a non-empty string, restricted to ASCII letters. */
  predicate IsAlpha(s: string) { forall i :: 0 <= i < |s| ==> IsLetter(s[i]) }

  /** A symbol as the ledger stores it: non-empty upper-case letters. */
  predicate IsTicker(s: string) { s != [] && forall i :: 0 <= i < |s| ==> IsUpperLetter(s[i]) }

  /** `str.upper` on one ASCII character: a lower-case letter becomes its own
      capital, and every other character stays. */
  function UpperChar(c: char): (u: char)
    ensures IsLetter(c) ==> IsUpperLetter(u)
    ensures 'a' <= c <= 'z' ==> u as int == c as int - 32
    ensures !IsLetter(c) ==> u == c
    ensures IsUpperLetter(c) ==> u == c
  {
    if 'a' <= c <= 'z' then (c as int - 32) as char else c
  }

  /** `str.upper` on ASCII text. */
  function Upper(s: string): (u: string)
    ensures |u| == |s|
    ensures forall i :: 0 <= i < |s| ==> u[i] == UpperChar(s[i])
  {
    seq(|s|, i requires 0 <= i < |s| => UpperChar(s[i]))
  }

  /** Two texts that differ only in the case of their letters upper-case to
      the same symbol, so "aapl" and "AAPL" name one holding. */
  lemma {:induction false} UpperIgnoresCase(s: string, t: string)
    requires |s| == |t|
    requires forall i :: 0 <= i < |s| ==>
               s[i] == t[i] || ('a' <= s[i] <= 'z' && t[i] as int == s[i] as int - 32)
               || ('a' <= t[i] <= 'z' && s[i] as int == t[i] as int - 32)
    ensures Upper(s) == Upper(t)
  {
    forall i | 0 <= i < |s|
      ensures Upper(s)[i] == Upper(t)[i]
    {
      if s[i] != t[i] {
        if 'a' <= s[i] <= 'z' {
          assert IsUpperLetter(t[i]);
        } else {
          assert IsUpperLetter(s[i]);
        }
      }
    }
  }

  /** `validate_symbol`: an empty symbol is reported first, then one that is not alphabetic. */
  function ValidateSymbol(symbol: string): (r: Outcome)
    ensures r.Pass? <==> symbol != [] && IsAlpha(symbol)
    ensures symbol == [] ==> r == Fail("must provide symbol", 400)
    ensures symbol != [] && !IsAlpha(symbol) ==> r == Fail("invalid symbol", 400)
  {
    if symbol == [] then Fail("must provide symbol", 400)
    else if !IsAlpha(symbol) then Fail("invalid symbol", 400)
    else Pass
  }

  /** Every symbol the validator accepts upper-cases to a ticker of the same
      length, and upper-casing it again changes nothing. */
  lemma AcceptedSymbolIsTicker(symbol: string)
    requires ValidateSymbol(symbol).Pass?
    ensures IsTicker(Upper(symbol)) && |Upper(symbol)| == |symbol|
    ensures Upper(Upper(symbol)) == Upper(symbol)
  {
  }

  // ---------------------------------------------------------------------------
  // Integers as text

  predicate IsDigit(c: char) { '0' <= c <= '9' }

  predicate AllDigits(s: string) { forall i :: 0 <= i < |s| ==> IsDigit(s[i]) }

  /** The value of a string of decimal digits. */
  function DigitsValue(ds: string): nat
    requires AllDigits(ds)
  {
    if ds == [] then 0
    else DigitsValue(ds[..|ds| - 1]) * 10 + (ds[|ds| - 1] as int - '0' as int)
  }

  /** The text after an optional leading sign. */
  function Unsigned(text: string): (digits: string)
    ensures |digits| <= |text|
  {
    if text != [] && (text[0] == '+' || text[0] == '-') then text[1..] else text
  }

  /** `int(text)` on an optional sign followed by decimal digits; `None`
      stands for the `ValueError` every other text raises. */
  function ParseInt(text: string): (r: Option<int>)
    ensures r.Some? <==> Unsigned(text) != [] && AllDigits(Unsigned(text))
    ensures r.Some? ==> (r.value < 0 ==> text[0] == '-') && (r.value > 0 ==> 0 < |text| && text[0] != '-')
  {
    var digits := Unsigned(text);
    if digits == [] || !AllDigits(digits) then None
    else if text[0] == '-' then Some(-(DigitsValue(digits) as int))
    else Some(DigitsValue(digits))
  }

  function Digit(d: nat): (c: char)
    requires d < 10
    ensures IsDigit(c) && c as int - '0' as int == d
  {
    ('0' as int + d) as char
  }

  /** The decimal rendering of a natural number, without sign or leading zeros. */
  function DecimalText(n: nat): (s: string)
    ensures s != [] && AllDigits(s)
    ensures IsDigit(s[0])
  {
    if n < 10 then [Digit(n)] else DecimalText(n / 10) + [Digit(n % 10)]
  }

  lemma {:induction false} DigitsRoundTrip(n: nat)
    ensures DigitsValue(DecimalText(n)) == n
  {
    if n >= 10 {
      var s := DecimalText(n);
      assert s[..|s| - 1] == DecimalText(n / 10);
      DigitsRoundTrip(n / 10);
    }
  }

  /** Parsing inverts rendering, for both signs. */
  lemma ParseRoundTrip(n: nat)
    ensures ParseInt(DecimalText(n)) == Some(n)
    ensures ParseInt("-" + DecimalText(n)) == Some(-(n as int))
    ensures ParseInt("+" + DecimalText(n)) == Some(n)
  {
    DigitsRoundTrip(n);
    var s := DecimalText(n);
    assert Unsigned(s) == s;
    assert Unsigned("-" + s) == s;
    assert Unsigned("+" + s) == s;
  }

  // ---------------------------------------------------------------------------
  // Share counts

  /** `validate_shares` as evidently intended: a text that does not parse is
      "invalid shares", zero is "must provide shares", a negative value is
      below the minimum, and every integer of at least 1 passes. */
  function ValidateShares(text: string): (r: Outcome)
    ensures r.Pass? <==> ParseInt(text).Some? && ParseInt(text).value >= 1
    ensures ParseInt(text).None? ==> r == Fail("invalid shares", 400)
    ensures ParseInt(text) == Some(0) ==> r == Fail("must provide shares", 400)
    ensures ParseInt(text).Some? && ParseInt(text).value < 0 ==>
              r == Fail("value must be greater than or equal to 1", 400)
  {
    match ParseInt(text)
    case None => Fail("invalid shares", 400)
    case Some(n) =>
      if n == 0 then Fail("must provide shares", 400)
      else if n < 1 then Fail("value must be greater than or equal to 1", 400)
      else Pass
  }

  /** The decimal text of n passes exactly when n is at least 1; a negative
      number never passes. */
  lemma SharesAcceptsExactlyPositive(n: nat)
    ensures ValidateShares(DecimalText(n)).Pass? <==> n >= 1
    ensures n == 0 ==> ValidateShares(DecimalText(n)) == Fail("must provide shares", 400)
    ensures n >= 1 ==> ValidateShares("-" + DecimalText(n)) == Fail("value must be greater than or equal to 1", 400)
  {
    ParseRoundTrip(n);
  }

  /** 2^53: every integer up to it is a double. */
  const MantissaLimit: nat := 9007199254740992

  /** 2^1024 - 2^970: the least integer that `float()` rounds beyond the
      largest double, so that it raises `OverflowError`. */
  const FloatOverflowBound: nat := 179769313486231580793728971405303415079934132710037826936173778980444968292764750946649017977587207096330286416692887910946555547851940402630657488671505820681908902000708383676273854845817711531764475730270069855571366959622842914819860834936475292719074168444365510704342711559699508093042880177904174497792

  /** A natural number equals its conversion to a double exactly when it is
      at most 2^53 or is an even number whose half has that property (53 bits
      of mantissa). */
  predicate ExactAsFloat(n: nat)
  {
    n <= MantissaLimit || (n % 2 == 0 && ExactAsFloat(n / 2))
  }

  /** What the validator written with `shares != float(shares)` does: it
      returns an outcome, or raises an `OverflowError` that its
      `except ValueError` does not catch. */
  datatype Raised = Returns(outcome: Outcome) | RaisesOverflowError

  /** `validate_shares` as written, including the comparison of the parsed
      integer with its conversion to a double. */
  function ValidateSharesAsWritten(text: string): (r: Raised)
    ensures r == Returns(Pass) ==> ValidateShares(text) == Pass
    ensures ValidateShares(text).Fail? ==> r == Returns(ValidateShares(text))
  {
    match ParseInt(text)
    case None => Returns(Fail("invalid shares", 400))
    case Some(n) =>
      if n == 0 then Returns(Fail("must provide shares", 400))
      else if n < 1 then Returns(Fail("value must be greater than or equal to 1", 400))
      else if n >= FloatOverflowBound then RaisesOverflowError
      else if !ExactAsFloat(n) then Returns(Fail("value must be a positive integer", 400))
      else Returns(Pass)
  }

  /** The two validators agree on every count the written one can represent. */
  lemma AsWrittenAgreesOnExactCounts(text: string)
    requires ParseInt(text).Some? ==> ParseInt(text).value < FloatOverflowBound
    requires ParseInt(text).Some? && ParseInt(text).value >= 1 ==> ExactAsFloat(ParseInt(text).value)
    ensures ValidateSharesAsWritten(text) == Returns(ValidateShares(text))
  {
  }

  /** The input that shows the discrepancy: 9007199254740993 = 2^53 + 1 is a
      positive integer, yet the written validator tells the user it must be a
      positive integer; the corrected one accepts it. */
  lemma AsWrittenRejectsPositiveInteger()
    ensures ValidateSharesAsWritten(DecimalText(MantissaLimit + 1)) ==
              Returns(Fail("value must be a positive integer", 400))
    ensures ValidateShares(DecimalText(MantissaLimit + 1)) == Pass
  {
    ParseRoundTrip(MantissaLimit + 1);
    assert !ExactAsFloat(MantissaLimit + 1);
  }

  /** And every count from 2^1024 - 2^970 on makes the written validator raise. */
  lemma AsWrittenRaisesOnHugeCount(n: nat)
    requires n >= FloatOverflowBound
    ensures ValidateSharesAsWritten(DecimalText(n)) == RaisesOverflowError
    ensures ValidateShares(DecimalText(n)) == Pass
  {
    ParseRoundTrip(n);
  }

  // ---------------------------------------------------------------------------
  // A trade request

  /** A validated trade: the upper-cased symbol and the parsed share count. */
  datatype Order = Order(symbol: string, shares: nat)

  datatype Checked = Accepted(order: Order) | Rejected(message: string, code: nat)

  /** The common head of buy and sell: the symbol is validated, then the share
      count; an accepted request carries the upper-cased symbol and the parsed
      count. */
  function ParseOrder(symbol: string, sharesText: string): (r: Checked)
    ensures r.Accepted? <==> ValidateSymbol(symbol).Pass? && ValidateShares(sharesText).Pass?
    ensures ValidateSymbol(symbol).Fail? ==>
              r == Rejected(ValidateSymbol(symbol).message, ValidateSymbol(symbol).code)
    ensures ValidateSymbol(symbol).Pass? && ValidateShares(sharesText).Fail? ==>
              r == Rejected(ValidateShares(sharesText).message, ValidateShares(sharesText).code)
    ensures r.Accepted? ==> IsTicker(r.order.symbol) && r.order.symbol == Upper(symbol)
    ensures r.Accepted? ==> r.order.shares >= 1 && ParseInt(sharesText) == Some(r.order.shares as int)
  {
    var symbolCheck := ValidateSymbol(symbol);
    if symbolCheck.Fail? then Rejected(symbolCheck.message, symbolCheck.code)
    else
      var sharesCheck := ValidateShares(sharesText);
      if sharesCheck.Fail? then Rejected(sharesCheck.message, sharesCheck.code)
      else Accepted(Order(Upper(symbol), ParseInt(sharesText).value))
  }
}
