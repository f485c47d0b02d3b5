/** Printing amounts in major units and parsing what people type back into minor units. */
module Decimals {
  import opened Common
  import opened Numerals
  import opened Text

  datatype DecimalError = Malformed | Negative | TooManyDecimals

  // --- printing ---------------------------------------------------------------------

  function PadStart(s: string, length: nat): (r: string)
    ensures |r| == if |s| < length then length else |s|
    ensures AllDigits(s) ==> AllDigits(r)
  {
    if |s| < length then Zeros(length - |s|) + s else s
  }

  function PadEnd(s: string, length: nat): (r: string)
    ensures |r| == if |s| < length then length else |s|
    ensures AllDigits(s) ==> AllDigits(r)
  {
    if |s| < length then s + Zeros(length - |s|) else s
  }

  /** The exact decimal string of `amount` minor units of a currency with `exponent` decimals. */
  function ToDecimalString(amount: int, exponent: nat): string {
    var sign := if amount < 0 then "-" else "";
    var digits := Digits(if amount < 0 then -amount else amount);
    if exponent == 0 then sign + digits
    else
      var padded := PadStart(digits, exponent + 1);
      var cut := |padded| - exponent;
      sign + padded[..cut] + "." + padded[cut..]
  }

  // --- parsing ----------------------------------------------------------------------

  predicate IsSeparator(c: char) {
    IsSpace(c) || c == ',' || c == '\U{00a0}' || c == '\U{202f}'
  }

  function WithoutSeparators(s: string): string {
    if s == "" then ""
    else (if IsSeparator(s[0]) then "" else [s[0]]) + WithoutSeparators(s[1..])
  }

  function Cleaned(input: string): string {
    WithoutSeparators(Trim(input))
  }

  datatype Parts = Parts(minus: bool, whole: string, fraction: string)

  function SplitAtPoint(s: string): (r: (string, Option<string>))
    ensures '.' !in r.0
    ensures s == r.0 + if r.1.Some? then "." + r.1.value else ""
  {
    if s == "" then ("", None)
    else if s[0] == '.' then ("", Some(s[1..]))
    else
      var (whole, rest) := SplitAtPoint(s[1..]);
      ([s[0]] + whole, rest)
  }

  /** Both patterns of the parser: digits with an optional point, or a point and digits. */
  function Match(cleaned: string): (r: Option<Parts>)
    ensures r.Some? ==> AllDigits(r.value.whole) && AllDigits(r.value.fraction)
  {
    var minus := cleaned != "" && cleaned[0] == '-';
    var (whole, rest) := SplitAtPoint(if minus then cleaned[1..] else cleaned);
    var fraction := if rest.Some? then rest.value else "";
    if AllDigits(whole) && AllDigits(fraction) && (whole != "" || fraction != "") then
      Some(Parts(minus, whole, fraction))
    else None
  }

  function Signed(minus: bool, magnitude: int): int {
    if minus then -magnitude else magnitude
  }

  /** Minor units from the digits, decimals padded to the currency's. */
  function Minor(whole: string, fraction: string, exponent: nat): nat
    requires AllDigits(whole) && AllDigits(fraction)
  {
    Worth((if whole == "" then "0" else whole) + PadEnd(fraction, exponent))
  }

  function ParseCleaned(cleaned: string, exponent: nat, allowNegative: bool): Result<int, DecimalError> {
    match Match(cleaned)
    case None => Err(Malformed)
    case Some(Parts(minus, whole, fraction)) =>
      if minus && !allowNegative then Err(Negative)
      else if |fraction| > exponent then Err(TooManyDecimals)
      else
        Ok(Signed(minus, Minor(whole, fraction, exponent)))
  }

  function ParseDecimal(input: string, exponent: nat, allowNegative: bool): Result<int, DecimalError> {
    ParseCleaned(Cleaned(input), exponent, allowNegative)
  }

  // --- separators ---------------------------------------------------------------------

  lemma {:induction false} WithoutSeparatorsConcat(a: string, b: string)
    ensures WithoutSeparators(a + b) == WithoutSeparators(a) + WithoutSeparators(b)
  {
    if a == "" {
      assert a + b == b;
    } else {
      assert (a + b)[1..] == a[1..] + b;
      WithoutSeparatorsConcat(a[1..], b);
    }
  }

  lemma {:induction false} TrimStartDropsSeparators(s: string)
    ensures WithoutSeparators(TrimStart(s)) == WithoutSeparators(s)
  {
    if s != "" && IsSpace(s[0]) {
      TrimStartDropsSeparators(s[1..]);
    }
  }

  lemma {:induction false} TrimEndDropsSeparators(s: string)
    ensures WithoutSeparators(TrimEnd(s)) == WithoutSeparators(s)
    decreases |s|
  {
    if s != "" && IsSpace(s[|s| - 1]) {
      var n := |s| - 1;
      TrimEndDropsSeparators(s[..n]);
      assert s == s[..n] + [s[n]];
      WithoutSeparatorsConcat(s[..n], [s[n]]);
      assert WithoutSeparators([s[n]]) == "";
    }
  }

  lemma CleanedIsWithoutSeparators(s: string)
    ensures Cleaned(s) == WithoutSeparators(s)
  {
    TrimEndDropsSeparators(TrimStart(s));
    TrimStartDropsSeparators(s);
  }

  /** A grouping separator may be typed anywhere: the result stays the same, errors included. */
  lemma SeparatorsDoNotMatter(a: string, separator: char, b: string, exponent: nat, allowNegative: bool)
    requires IsSeparator(separator)
    ensures ParseDecimal(a + [separator] + b, exponent, allowNegative) == ParseDecimal(a + b, exponent, allowNegative)
  {
    CleanedIsWithoutSeparators(a + [separator] + b);
    CleanedIsWithoutSeparators(a + b);
    assert Cleaned(a + [separator] + b) == Cleaned(a + b) by {
      WithoutSeparatorsConcat(a + [separator], b);
      WithoutSeparatorsConcat(a, [separator]);
      WithoutSeparatorsConcat(a, b);
      assert WithoutSeparators([separator]) == "";
    }
  }

  // --- what is accepted, and what it is worth ------------------------------------------

  /** The text of a number: a sign, whole digits, and perhaps a point with decimals. */
  function Written(p: Parts, point: bool): string {
    (if p.minus then "-" else "") + p.whole + if point then "." + p.fraction else ""
  }

  predicate WellFormed(p: Parts, point: bool) {
    && AllDigits(p.whole) && AllDigits(p.fraction) && (p.whole != "" || p.fraction != "")
    && (p.fraction != "" ==> point)
  }

  lemma {:induction false} SplitsAtPoint(whole: string, rest: Option<string>)
    requires '.' !in whole
    ensures SplitAtPoint(whole + if rest.Some? then "." + rest.value else "") == (whole, rest)
  {
    var tail := if rest.Some? then "." + rest.value else "";
    if whole == "" {
      assert whole + tail == tail;
    } else {
      assert (whole + tail)[1..] == whole[1..] + tail && (whole + tail)[0] == whole[0];
      SplitsAtPoint(whole[1..], rest);
      assert whole == [whole[0]] + whole[1..];
    }
  }

  lemma MatchesWritten(p: Parts, point: bool)
    requires WellFormed(p, point)
    ensures Match(Written(p, point)) == Some(p)
  {
    var rest := if point then Some(p.fraction) else None;
    var body := p.whole + if point then "." + p.fraction else "";
    SplitsAtPoint(p.whole, rest);
    if p.minus {
      assert Written(p, point)[1..] == body;
    } else {
      assert Written(p, point) == body;
      assert body != "" && body[0] != '-';
    }
  }

  lemma MatchedIsWritten(cleaned: string, p: Parts)
    requires Match(cleaned) == Some(p)
    ensures exists point :: WellFormed(p, point) && cleaned == Written(p, point)
  {
    var body := if p.minus then cleaned[1..] else cleaned;
    var split := SplitAtPoint(body);
    var point := split.1.Some?;
    assert p.whole == split.0 && p.fraction == if point then split.1.value else "";
    assert body == p.whole + if point then "." + p.fraction else "";
    assert cleaned == (if p.minus then "-" else "") + body;
    WrittenConcat(p, point);
    assert WellFormed(p, point);
  }

  lemma WrittenConcat(p: Parts, point: bool)
    ensures Written(p, point) == (if p.minus then "-" else "") + (p.whole + if point then "." + p.fraction else "")
  {
  }

  /** The patterns accept exactly the well-formed numbers, each with one reading. */
  lemma MatchExactly(cleaned: string, p: Parts)
    ensures Match(cleaned) == Some(p) <==> exists point :: WellFormed(p, point) && cleaned == Written(p, point)
  {
    if Match(cleaned) == Some(p) {
      MatchedIsWritten(cleaned, p);
    }
    forall point | WellFormed(p, point) && cleaned == Written(p, point)
      ensures Match(cleaned) == Some(p)
    {
      MatchesWritten(p, point);
    }
  }

  /** Minor units of whole.fraction, exactly. */
  function ExactMinor(whole: string, fraction: string, exponent: nat): nat
    requires AllDigits(whole) && AllDigits(fraction) && |fraction| <= exponent
  {
    Worth(whole) * Pow10(exponent) + Worth(fraction) * Pow10(exponent - |fraction|)
  }

  lemma PaddedWorth(fraction: string, exponent: nat)
    requires AllDigits(fraction) && |fraction| <= exponent
    ensures AllDigits(PadEnd(fraction, exponent))
    ensures Worth(PadEnd(fraction, exponent)) == Worth(fraction) * Pow10(exponent - |fraction|)
  {
    if |fraction| < exponent {
      WorthAppend(fraction, Zeros(exponent - |fraction|));
      WorthOfZeros(exponent - |fraction|);
    }
  }

  lemma MinorIsExact(whole: string, fraction: string, exponent: nat)
    requires AllDigits(whole) && AllDigits(fraction) && |fraction| <= exponent
    ensures Minor(whole, fraction, exponent) == ExactMinor(whole, fraction, exponent)
  {
    PaddedWorth(fraction, exponent);
    WorthAppend(if whole == "" then "0" else whole, PadEnd(fraction, exponent));
    assert "0"[..0] == "";
  }

  /**
   * What any well-formed number gives, in any grouping. Nothing is ever rounded: the
   * result is the written number to the last digit, or the first error that applies.
   */
  lemma ParsesExactly(input: string, p: Parts, point: bool, exponent: nat, allowNegative: bool)
    requires WellFormed(p, point) && WithoutSeparators(input) == Written(p, point)
    ensures ParseDecimal(input, exponent, allowNegative)
      == if p.minus && !allowNegative then Err(Negative)
         else if exponent < |p.fraction| then Err(TooManyDecimals)
         else Ok(Signed(p.minus, ExactMinor(p.whole, p.fraction, exponent)))
  {
    CleanedIsWithoutSeparators(input);
    MatchesWritten(p, point);
    if |p.fraction| <= exponent {
      MinorIsExact(p.whole, p.fraction, exponent);
    }
  }

  /** Everything else is refused as malformed. */
  lemma MalformedExactly(input: string, exponent: nat, allowNegative: bool)
    ensures ParseDecimal(input, exponent, allowNegative) == Err(Malformed)
      <==> !exists p, point :: WellFormed(p, point) && WithoutSeparators(input) == Written(p, point)
  {
    CleanedIsWithoutSeparators(input);
    var m := Match(WithoutSeparators(input));
    if m.Some? {
      MatchedIsWritten(WithoutSeparators(input), m.value);
    }
    forall p, point | WellFormed(p, point) && WithoutSeparators(input) == Written(p, point)
      ensures m == Some(p)
    {
      MatchesWritten(p, point);
    }
  }

  // --- round trip -----------------------------------------------------------------------

  lemma {:induction false} NothingToClean(s: string)
    requires forall i | 0 <= i < |s| :: !IsSeparator(s[i])
    ensures WithoutSeparators(s) == s
  {
    if s != "" {
      NothingToClean(s[1..]);
    }
  }

  lemma PaddedKeepsWorth(s: string, length: nat)
    requires AllDigits(s)
    ensures AllDigits(PadStart(s, length)) && Worth(PadStart(s, length)) == Worth(s)
  {
    if |s| < length {
      WorthAppend(Zeros(length - |s|), s);
      WorthOfZeros(length - |s|);
    }
  }

  function Magnitude(amount: int): nat {
    if amount < 0 then -amount else amount
  }

  function PrintedParts(amount: int, exponent: nat): (p: Parts)
    ensures AllDigits(p.whole) && AllDigits(p.fraction) && p.whole != "" && |p.fraction| == exponent
  {
    var padded := PadStart(Digits(Magnitude(amount)), exponent + 1);
    var cut := |padded| - exponent;
    Parts(amount < 0, padded[..cut], padded[cut..])
  }

  lemma PrintsParts(amount: int, exponent: nat)
    ensures ToDecimalString(amount, exponent) == Written(PrintedParts(amount, exponent), exponent != 0)
  {
    var digits := Digits(Magnitude(amount));
    if exponent == 0 {
      assert PadStart(digits, 1) == digits && digits[..|digits|] == digits;
    }
  }

  lemma TimesOne(x: int)
    ensures x * Pow10(0) == x
  {
    assert Pow10(0) == 1;
  }

  lemma PrintedWorth(amount: int, exponent: nat)
    ensures var p := PrintedParts(amount, exponent);
      ExactMinor(p.whole, p.fraction, exponent) == Magnitude(amount)
  {
    var p := PrintedParts(amount, exponent);
    PrintedConcat(amount, exponent);
    WorthAppend(p.whole, p.fraction);
    TimesOne(Worth(p.fraction));
  }

  lemma PrintedConcat(amount: int, exponent: nat)
    ensures var p := PrintedParts(amount, exponent);
      Worth(p.whole + p.fraction) == Magnitude(amount)
  {
    var p := PrintedParts(amount, exponent);
    var digits := Digits(Magnitude(amount));
    hide Digits, Worth, PadStart;
    PaddedKeepsWorth(digits, exponent + 1);
    WorthOfDigits(Magnitude(amount));
    assert p.whole + p.fraction == PadStart(digits, exponent + 1);
  }

  lemma WrittenHasNoSeparators(p: Parts, point: bool)
    requires WellFormed(p, point)
    ensures WithoutSeparators(Written(p, point)) == Written(p, point)
  {
    var text := Written(p, point);
    forall i | 0 <= i < |text|
      ensures !IsSeparator(text[i])
    {
      assert text[i] == '-' || text[i] == '.' || text[i] in p.whole || text[i] in p.fraction;
    }
    NothingToClean(text);
  }

  /**
   * Parsing undoes printing for every amount and every number of decimals;
   * without negatives allowed it still does for amounts from zero up.
   */
  lemma ParseUndoesPrint(amount: int, exponent: nat, allowNegative: bool)
    ensures ParseDecimal(ToDecimalString(amount, exponent), exponent, allowNegative)
      == if amount < 0 && !allowNegative then Err(Negative) else Ok(amount)
  {
    var p := PrintedParts(amount, exponent);
    PrintsParts(amount, exponent);
    WrittenHasNoSeparators(p, exponent != 0);
    ParsesExactly(ToDecimalString(amount, exponent), p, exponent != 0, exponent, allowNegative);
    PrintedWorth(amount, exponent);
  }

  lemma {:induction false} NoLeadingZero(n: nat)
    ensures 1 < |Digits(n)| ==> Digits(n)[0] != '0'
  {
    if 100 <= n {
      NoLeadingZero(n / 10);
    }
  }

  /**
   * Printing is canonical: a minus sign exactly for negative amounts, whole digits without
   * a leading zero (a single 0 if there are none), and exactly the currency's decimals.
   */
  lemma PrintsCanonically(amount: int, exponent: nat) returns (p: Parts)
    ensures ToDecimalString(amount, exponent) == Written(p, exponent != 0)
    ensures WellFormed(p, exponent != 0)
    ensures p.minus <==> amount < 0
    ensures |p.whole| == 1 || (1 < |p.whole| && p.whole[0] != '0')
    ensures |p.fraction| == exponent
    ensures ExactMinor(p.whole, p.fraction, exponent) == if amount < 0 then -amount else amount
  {
    p := PrintedParts(amount, exponent);
    PrintsParts(amount, exponent);
    PrintedWorth(amount, exponent);
    NoLeadingZero(Magnitude(amount));
  }
}
