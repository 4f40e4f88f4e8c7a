/** Text conversions used by the normaliser: Python's int() and str() on whole
    numbers, the numeric coercion of pandas.to_numeric, and the "<Year>-Q<Quarter>"
    period label. */
module Text {
  import opened Wrappers

  predicate IsDigit(c: char) { '0' <= c <= '9' }

  predicate AllDigits(s: string) { forall i :: 0 <= i < |s| ==> IsDigit(s[i]) }

  function DigitChar(d: nat): (c: char)
    requires d < 10
    ensures IsDigit(c)
  {
    ('0' as int + d) as char
  }

  function DigitValue(c: char): (d: nat)
    requires IsDigit(c)
    ensures d < 10
  {
    c as int - '0' as int
  }

  /** The value of a string of decimal digits, most significant first (the empty string is 0). */
  function DigitsValue(s: string): nat
    requires AllDigits(s)
  {
    if s == [] then 0 else DigitsValue(s[..|s| - 1]) * 10 + DigitValue(s[|s| - 1])
  }

  function Pow10(n: nat): (p: nat)
    ensures p > 0
  {
    if n == 0 then 1 else 10 * Pow10(n - 1)
  }

  /** The first index of c in s, or |s| when c does not occur. */
  function FirstIndex(s: string, c: char): (k: nat)
    ensures k <= |s|
    ensures k < |s| ==> s[k] == c
    ensures forall i :: 0 <= i < k ==> s[i] != c
  {
    if s == [] then 0 else if s[0] == c then 0 else 1 + FirstIndex(s[1..], c)
  }

  // ---------------------------------------------------------------------------
  // Formatting whole numbers (Python str() of an int)
  // ---------------------------------------------------------------------------

  /** Decimal digits of n, without leading zeros or padding. */
  function NatToString(n: nat): (s: string)
    ensures |s| > 0 && AllDigits(s)
  {
    if n < 10 then [DigitChar(n)] else NatToString(n / 10) + [DigitChar(n % 10)]
  }

  /** The printed digits carry no padding: only 0 itself starts with '0'. */
  lemma {:induction false} NatToStringNoLeadingZero(n: nat)
    ensures NatToString(n)[0] == '0' ==> n == 0
  {
    if n >= 10 {
      NatToStringNoLeadingZero(n / 10);
      assert NatToString(n)[0] == NatToString(n / 10)[0];
    }
  }

  /** str(i): a minus sign for negative numbers, then the digits of |i|. */
  function IntToString(i: int): (s: string)
    ensures |s| > 0
    ensures forall k :: 0 <= k < |s| ==> IsDigit(s[k]) || (k == 0 && s[k] == '-')
  {
    if i < 0 then "-" + NatToString(-i) else NatToString(i)
  }

  lemma {:induction false} NatToStringValue(n: nat)
    ensures DigitsValue(NatToString(n)) == n
  {
    var s := NatToString(n);
    if n < 10 {
      assert s[..|s| - 1] == [];
    } else {
      assert s[..|s| - 1] == NatToString(n / 10);
      NatToStringValue(n / 10);
    }
  }

  // ---------------------------------------------------------------------------
  // Parsing whole numbers (Python int() on a text cell, as astype(int) does)
  // ---------------------------------------------------------------------------

  /** An optional sign followed by one or more ASCII digits; anything else is not an integer. */
  function ParseInt(s: string): Option<int>
  {
    if |s| > 0 && (s[0] == '-' || s[0] == '+') then
      var body := s[1..];
      if |body| > 0 && AllDigits(body) then
        Some(if s[0] == '-' then -(DigitsValue(body) as int) else DigitsValue(body) as int)
      else None
    else if |s| > 0 && AllDigits(s) then Some(DigitsValue(s) as int)
    else None
  }

  /** Every whole number survives formatting followed by parsing. */
  lemma ParseIntOfIntToString(i: int)
    ensures ParseInt(IntToString(i)) == Some(i)
  {
    if i < 0 {
      var d := NatToString(-i);
      var s := "-" + d;
      assert s == IntToString(i);
      assert s[0] == '-' && s[1..] == d;
      NatToStringValue(-i);
      assert ParseInt(s) == Some(-(DigitsValue(d) as int));
    } else {
      var s := NatToString(i);
      assert IsDigit(s[0]);
      NatToStringValue(i);
      assert ParseInt(s) == Some(DigitsValue(s) as int);
    }
  }

  // ---------------------------------------------------------------------------
  // Numeric coercion (pandas.to_numeric(errors="coerce").fillna(0))
  // ---------------------------------------------------------------------------

  /** Digits, optionally a '.' and more digits, with at least one digit in all. */
  function ParseUnsignedDecimal(s: string): Option<real>
  {
    var d := FirstIndex(s, '.');
    var whole := s[..d];
    var frac := if d < |s| then s[d + 1..] else "";
    if AllDigits(whole) && AllDigits(frac) && |whole| + |frac| > 0 then Some(DecimalValue(whole, frac))
    else None
  }

  /** The value of "<whole>.<frac>": the whole part plus the fraction digits scaled down. */
  function DecimalValue(whole: string, frac: string): real
    requires AllDigits(whole) && AllDigits(frac)
  {
    DigitsValue(whole) as real + DigitsValue(frac) as real / Pow10(|frac|) as real
  }

  /** An optional sign followed by an unsigned decimal. */
  function ParseDecimal(s: string): Option<real>
  {
    if |s| > 0 && (s[0] == '-' || s[0] == '+') then
      match ParseUnsignedDecimal(s[1..])
      case None => None
      case Some(v) => Some(if s[0] == '-' then -v else v)
    else ParseUnsignedDecimal(s)
  }

  /** A measure cell as a number: its value when it parses, 0 when it does not. */
  function ToNumber(s: string): real
  {
    match ParseDecimal(s)
    case Some(v) => v
    case None => 0.0
  }

  /** Searching a concatenation whose first part lacks c skips that part. */
  lemma {:induction false} FirstIndexConcat(a: string, b: string, c: char)
    requires forall i :: 0 <= i < |a| ==> a[i] != c
    ensures FirstIndex(a + b, c) == |a| + FirstIndex(b, c)
  {
    if a == [] {
      assert a + b == b;
    } else {
      assert (a + b)[0] == a[0];
      assert (a + b)[1..] == a[1..] + b;
      FirstIndexConcat(a[1..], b, c);
    }
  }

  lemma NoDotInDigits(s: string)
    requires AllDigits(s)
    ensures FirstIndex(s, '.') == |s|
  {
  }

  /** A string of digits reads as its value. */
  lemma UnsignedOfDigits(s: string)
    requires |s| > 0 && AllDigits(s)
    ensures ParseUnsignedDecimal(s) == Some(DigitsValue(s) as real)
  {
    NoDotInDigits(s);
    assert s[..|s|] == s;
    var none: string := "";
    assert DigitsValue(none) == 0 && Pow10(|none|) == 1;
    assert DecimalValue(s, none) == DigitsValue(s) as real;
  }

  /** Digits, a '.', then digits read as the whole part plus the scaled fraction. */
  lemma UnsignedOfFraction(whole: string, frac: string)
    requires |whole| > 0 && AllDigits(whole) && AllDigits(frac)
    ensures ParseUnsignedDecimal(whole + "." + frac) == Some(DecimalValue(whole, frac))
  {
    FractionSplit(whole, frac);
  }

  /** The first '.' of "<whole>.<frac>" separates exactly the two parts. */
  lemma FractionSplit(whole: string, frac: string)
    requires AllDigits(whole)
    ensures var s := whole + "." + frac;
            && FirstIndex(s, '.') == |whole|
            && s[..|whole|] == whole
            && s[|whole| + 1..] == frac
  {
    var rest := "." + frac;
    var s := whole + rest;
    assert whole + "." + frac == s;
    NoDotInDigits(whole);
    FirstIndexConcat(whole, rest, '.');
    assert FirstIndex(rest, '.') == 0;
    assert s[..|whole|] == whole;
    assert s[|whole| + 1..] == frac;
  }

  /** A whole number written with str() is read back as that number. */
  lemma ToNumberOfIntToString(i: int)
    ensures ToNumber(IntToString(i)) == i as real
  {
    var s := IntToString(i);
    if i < 0 {
      var body := NatToString(-i);
      assert s[1..] == body;
      UnsignedOfDigits(body);
      NatToStringValue(-i);
    } else {
      UnsignedOfDigits(s);
      NatToStringValue(i);
    }
  }

  /** "<a>.<b>" is read as a plus b scaled by the number of fraction digits. */
  lemma ToNumberOfFraction(a: nat, b: nat)
    ensures var fb := NatToString(b);
            ToNumber(NatToString(a) + "." + fb) == a as real + b as real / Pow10(|fb|) as real
  {
    var sa, fb := NatToString(a), NatToString(b);
    UnsignedOfFraction(sa, fb);
    assert (sa + "." + fb)[0] == sa[0];
    NatToStringValue(a);
    NatToStringValue(b);
  }

  /** A cell whose last character is neither a digit nor '.' (such as "N/A") becomes 0. */
  lemma UnparseableBecomesZero(s: string)
    requires |s| > 0 && !IsDigit(s[|s| - 1]) && s[|s| - 1] != '.'
    ensures ToNumber(s) == 0.0
  {
    var body := if s[0] == '-' || s[0] == '+' then s[1..] else s;
    assert body == [] || body[|body| - 1] == s[|s| - 1];
    var d := FirstIndex(body, '.');
    if body != [] {
      if d < |body| {
        var frac := body[d + 1..];
        assert d < |body| - 1;
        assert frac[|frac| - 1] == s[|s| - 1];
      } else {
        assert body[..d][|body| - 1] == s[|s| - 1];
      }
    }
  }

  // ---------------------------------------------------------------------------
  // Period label
  // ---------------------------------------------------------------------------

  /** "<Year>-Q<Quarter>", both written with str(): no padding. */
  function PeriodLabel(year: int, quarter: int): string
  {
    IntToString(year) + "-Q" + IntToString(quarter)
  }

  /** Reads a period label back: the year before the first "Q" (which must follow a '-'),
      the quarter after it. */
  function ParsePeriod(s: string): Option<(int, int)>
  {
    var k := FirstIndex(s, 'Q');
    if 0 < k < |s| && s[k - 1] == '-' then
      match (ParseInt(s[..k - 1]), ParseInt(s[k + 1..]))
      case (Some(y), Some(q)) => Some((y, q))
      case _ => None
    else None
  }

  /** The label determines its year and quarter: reading it back gives both. */
  lemma ParsePeriodOfLabel(year: int, quarter: int)
    ensures ParsePeriod(PeriodLabel(year, quarter)) == Some((year, quarter))
  {
    LabelSplit(IntToString(year), IntToString(quarter));
    ParseIntOfIntToString(year);
    ParseIntOfIntToString(quarter);
  }

  /** In "<ys>-Q<qs>" with no 'Q' in ys, the first 'Q' follows the '-' that ends ys. */
  lemma LabelSplit(ys: string, qs: string)
    requires forall i :: 0 <= i < |ys| ==> ys[i] != 'Q'
    ensures var s := ys + "-Q" + qs;
            && FirstIndex(s, 'Q') == |ys| + 1
            && s[|ys|] == '-'
            && s[..|ys|] == ys
            && s[|ys| + 2..] == qs
  {
    var rest := "-Q" + qs;
    var s := ys + rest;
    assert ys + "-Q" + qs == s;
    FirstIndexConcat(ys, rest, 'Q');
    assert rest[1..] == "Q" + qs;
    assert FirstIndex(rest, 'Q') == 1;
    assert s[|ys|] == '-';
    assert s[..|ys|] == ys;
    assert s[|ys| + 2..] == qs;
  }

  /** Distinct (year, quarter) pairs get distinct labels. */
  lemma PeriodLabelInjective(y1: int, q1: int, y2: int, q2: int)
    ensures PeriodLabel(y1, q1) == PeriodLabel(y2, q2) <==> y1 == y2 && q1 == q2
  {
    ParsePeriodOfLabel(y1, q1);
    ParsePeriodOfLabel(y2, q2);
  }
}
