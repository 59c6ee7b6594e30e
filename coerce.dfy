/**
 * Per-cell extraction and coercion used by every import loop
 * (`_get`, `_to_int`, `_to_ts_ms`), with Python's `float(text)` on decimal
 * literals written out so that `int(float(s))` can be stated exactly.
 */
module Coerce {
  import opened Wrappers
  import opened PyText
  import opened Cells

  /** A resolved column map: canonical field name to column label. */
  type ColMap = map<string, string>

  /** `_get(row, col_map, field)`: the mapped cell, or None when the field is
      unmapped, its label is empty, the row lacks the label, or the cell is
      blank. It never hands back a blank (NaN) cell. */
  function Get(row: Row, colMap: ColMap, field: string): (v: RawValue)
    ensures !v.NaN?
    ensures v != Missing <==>
      (field in colMap && colMap[field] != "" && colMap[field] in row && !IsNa(row[colMap[field]]))
    ensures v != Missing ==> v == row[colMap[field]]
  {
    if field !in colMap || colMap[field] == "" then Missing
    else
      var cell := if colMap[field] in row then row[colMap[field]] else Missing;
      if IsNa(cell) then Missing else cell
  }

  predicate IsDigit(c: char) {
    '0' <= c <= '9'
  }

  function Pow10(k: nat): (p: nat)
    ensures p >= 1
  {
    if k == 0 then 1 else 10 * Pow10(k - 1)
  }

  /** 10 to the power `k`, as a real, for any integer `k`. */
  function Scale(k: int): real {
    if k >= 0 then Pow10(k) as real else 1.0 / Pow10(-k) as real
  }

  /** Length of the longest prefix of `s` of the form `('_'? digit)*`. */
  function DigitTail(s: string): (n: nat)
    ensures n <= |s|
    decreases |s|
  {
    if s != [] && IsDigit(s[0]) then 1 + DigitTail(s[1..])
    else if |s| >= 2 && s[0] == '_' && IsDigit(s[1]) then 2 + DigitTail(s[2..])
    else 0
  }

  /** Length of the longest prefix of `s` that is a digit part of a Python
      float literal, `digit ('_'? digit)*`; 0 when `s` does not start with a digit. */
  function DigitPartLen(s: string): (n: nat)
    ensures n <= |s|
    ensures n > 0 <==> s != [] && IsDigit(s[0])
  {
    if s != [] && IsDigit(s[0]) then 1 + DigitTail(s[1..]) else 0
  }

  /** The number the digits of `s` spell, underscores ignored. */
  function DigitsValue(s: string): nat {
    if s == [] then 0
    else if IsDigit(s[|s| - 1]) then DigitsValue(s[..|s| - 1]) * 10 + (s[|s| - 1] as int - '0' as int)
    else DigitsValue(s[..|s| - 1])
  }

  /** The number of digits in `s`. */
  function DigitCount(s: string): nat {
    if s == [] then 0 else (if IsDigit(s[|s| - 1]) then 1 else 0) + DigitCount(s[..|s| - 1])
  }

  /** After a leading sign, if any: whether it was '-', and the rest. */
  function SplitSign(s: string): (bool, string) {
    if s != [] && (s[0] == '-' || s[0] == '+') then (s[0] == '-', s[1..]) else (false, s)
  }

  /** The exponent suffix of a float literal: empty (exponent 0) or
      `('e'|'E') sign? digitpart`; None when `rest` is anything else. */
  function ParseExponent(rest: string): Option<int> {
    if rest == [] then Some(0)
    else if rest[0] == 'e' || rest[0] == 'E' then
      var (neg, digits) := SplitSign(rest[1..]);
      var n := DigitPartLen(digits);
      if n > 0 && n == |digits| then Some(if neg then -(DigitsValue(digits) as int) else DigitsValue(digits))
      else None
    else None
  }

  /** The value of the literal `intPart.fracPart e exp`. */
  function Magnitude(intPart: string, fracPart: string, exp: int): real {
    (DigitsValue(intPart) as real
      + DigitsValue(fracPart) as real * Scale(-(DigitCount(fracPart) as int))) * Scale(exp)
  }

  /** Python's `float(t)` on text `t` that has already been stripped, for finite
      decimal literals: `sign? (digitpart ('.' digitpart?)? | '.' digitpart)
      exponent?`. The value is the exact decimal; None where `float` raises
      ValueError or the text spells nan or infinity. */
  function ParseDecimal(t: string): Option<real> {
    var (neg, body) := SplitSign(t);
    var a := DigitPartLen(body);
    var intPart := body[..a];
    var afterInt := body[a..];
    var hasDot := afterInt != [] && afterInt[0] == '.';
    var afterDot := if hasDot then afterInt[1..] else afterInt;
    var b := if hasDot then DigitPartLen(afterDot) else 0;
    var fracPart := afterDot[..b];
    if a == 0 && b == 0 then None
    else
      match ParseExponent(afterDot[b..])
      case None => None
      case Some(e) =>
        var m := Magnitude(intPart, fracPart, e);
        Some(if neg then -m else m)
  }

  /** Python's `int(x)` on a finite float: truncation toward zero. */
  function Trunc(x: real): (t: int)
    ensures x >= 0.0 ==> 0 <= t && t as real <= x < t as real + 1.0
    ensures x < 0.0 ==> t <= 0 && t as real - 1.0 < x <= t as real
  {
    if x >= 0.0 then x.Floor else -((-x).Floor)
  }

  /** `_to_int(val, default)`. */
  function ToInt(v: RawValue, default: Option<int>): (r: Option<int>)
    ensures default.Some? ==> r.Some?
  {
    match v
    case Missing => default
    case NaN => default
    case Int(i) => Some(i)
    case Float(x) => Some(Trunc(x))
    case Str(s) =>
      if Strip(s) == "" then default
      else
        (match ParseDecimal(Strip(s))
         case Some(x) => Some(Trunc(x))
         case None => default)
    case DateTime(_) => default
  }

  /** `_to_ts_ms(val, default)`: an integer-coercible value is taken literally
      as milliseconds; None gives `default`; anything else goes to the date
      parser, with `default` when that fails. */
  function ToTsMs(v: RawValue, default: int, lib: Library): (ms: int)
    ensures ToInt(v, None).Some? ==> ms == ToInt(v, None).value
    ensures ToInt(v, None).None? && v.Missing? ==> ms == default
    ensures ToInt(v, None).None? && !v.Missing? ==> ms == lib.parseDate(v).GetOr(default)
  {
    var num := ToInt(v, None);
    if num.Some? then num.value
    else if v.Missing? then default
    else
      match lib.parseDate(v)
      case Some(t) => t
      case None => default
  }

  /** `str(_to_int(v, 0))`: how the import writes an engagement count. */
  function CountText(v: RawValue): string {
    IntToDecimal(ToInt(v, Some(0)).value)
  }

  // ---------------------------------------------------------------------
  // Properties of the coercions

  /** An integer cell converts to itself, whatever the default. */
  lemma ToIntOfNative(i: int, default: Option<int>)
    ensures ToInt(Int(i), default) == Some(i)
  {
  }

  /** A float cell truncates toward zero: the result has the sign of the
      value and lies less than one away from it, nearer to zero. */
  lemma ToIntTruncatesFloat(x: real, default: Option<int>)
    ensures ToInt(Float(x), default).Some?
    ensures var t := ToInt(Float(x), default).value;
      (x >= 0.0 ==> 0 <= t && t as real <= x < t as real + 1.0)
      && (x < 0.0 ==> t <= 0 && t as real - 1.0 < x <= t as real)
  {
  }

  /** Blank cells, None, timestamps and text that is blank or not a number
      all give the default. */
  lemma ToIntFallsBack(v: RawValue, default: Option<int>)
    requires v.Missing? || v.NaN? || v.DateTime?
      || (v.Str? && (Strip(v.s) == "" || ParseDecimal(Strip(v.s)).None?))
    ensures ToInt(v, default) == default
  {
  }

  lemma {:induction false} AllDigitsDigitTail(s: string)
    requires forall i :: 0 <= i < |s| ==> IsDigit(s[i])
    ensures DigitTail(s) == |s|
  {
    if s != [] {
      AllDigitsDigitTail(s[1..]);
    }
  }

  lemma {:induction false} DigitsValueOfDecimal(n: nat)
    ensures DigitsValue(NatToDecimal(n)) == n
  {
    var d := NatToDecimal(n);
    var last := DigitChar(n % 10);
    var init := if n < 10 then "" else NatToDecimal(n / 10);
    assert d == init + [last];
    assert d[..|d| - 1] == init;
    if n >= 10 {
      DigitsValueOfDecimal(n / 10);
    }
  }

  /** Distinct numbers have distinct decimal texts. */
  lemma NatToDecimalInjective(a: nat, b: nat)
    requires a != b
    ensures NatToDecimal(a) != NatToDecimal(b)
  {
    DigitsValueOfDecimal(a);
    DigitsValueOfDecimal(b);
  }

  /** A sign (or none) followed by plain digits parses as that integer. */
  lemma ParseDecimalOfDigits(t: string, neg: bool, digits: string)
    requires digits != [] && forall i :: 0 <= i < |digits| ==> IsDigit(digits[i])
    requires SplitSign(t) == (neg, digits)
    ensures ParseDecimal(t) == Some(if neg then -(DigitsValue(digits) as real) else DigitsValue(digits) as real)
  {
    AllDigitsDigitTail(digits[1..]);
    assert DigitPartLen(digits) == |digits|;
    assert digits[..|digits|] == digits;
    assert digits[|digits|..] == "";
    assert ""[..0] == "" && ""[0..] == "";
    assert ParseExponent("") == Some(0);
    assert Magnitude(digits, "", 0) == DigitsValue(digits) as real;
  }

  /** The sign split of `str(n)`: a minus exactly for negative `n`, then the
      digits of its magnitude. */
  lemma SplitSignOfInt(n: int)
    ensures SplitSign(IntToDecimal(n)) == (n < 0, NatToDecimal(if n < 0 then -n else n))
  {
    var digits := NatToDecimal(if n < 0 then -n else n);
    if n < 0 {
      assert ("-" + digits)[1..] == digits;
    } else {
      assert '0' <= digits[0] <= '9';
    }
  }

  /** The text `str(n)` of any integer parses back to `n`. */
  lemma ParseDecimalOfInt(n: int)
    ensures ParseDecimal(IntToDecimal(n)) == Some(n as real)
  {
    var m: nat := if n < 0 then -n else n;
    SplitSignOfInt(n);
    ParseDecimalOfDigits(IntToDecimal(n), n < 0, NatToDecimal(m));
    DigitsValueOfDecimal(m);
  }

  /** Round trip: a count that the importer wrote out as `str(_to_int(...))`
      coerces back to the same integer. */
  lemma ToIntOfDecimal(n: int, default: Option<int>)
    ensures ToInt(Str(IntToDecimal(n)), default) == Some(n)
  {
    DecimalStrips(n);
    ParseDecimalOfInt(n);
    TruncOfInt(n);
    ToIntOfText(IntToDecimal(n), n as real, default);
  }

  /** Text that strips to a number reads as that number truncated. */
  lemma ToIntOfText(s: string, x: real, default: Option<int>)
    requires Strip(s) != "" && ParseDecimal(Strip(s)) == Some(x)
    ensures ToInt(Str(s), default) == Some(Trunc(x))
  {
  }

  /** Truncation leaves a whole number unchanged. */
  lemma TruncOfInt(n: int)
    ensures Trunc(n as real) == n
  {
  }

  /** Decimal text carries no surrounding blanks. */
  lemma DecimalStrips(n: int)
    ensures Strip(IntToDecimal(n)) == IntToDecimal(n) != ""
  {
    var t := IntToDecimal(n);
    assert NoneIn(t, IsSpace) by {
      forall i | 0 <= i < |t| ensures !IsSpace(t[i]) {
        assert t[i] == '-' || '0' <= t[i] <= '9';
      }
    }
    TrimNoop(t, IsSpace);
  }

  /** Counts are written as the decimal text of `_to_int(value, 0)`, and that
      text reads back as the same count. */
  lemma CountTextReadsBack(v: RawValue)
    ensures ToInt(Str(CountText(v)), None) == ToInt(v, Some(0))
  {
    ToIntOfDecimal(ToInt(v, Some(0)).value, None);
  }

  /** The literal-millisecond policy: any integer-coercible cell is used as the
      timestamp unchanged, with no seconds-to-milliseconds scaling. */
  lemma ToTsMsKeepsIntegers(v: RawValue, n: int, default: int, lib: Library)
    requires ToInt(v, None) == Some(n)
    ensures ToTsMs(v, default, lib) == n
  {
  }
}

module CoerceExamples {
  import opened Wrappers
  import opened PyText
  import opened Cells
  import opened Coerce

  /** Numeric text goes through `int(float(s))`: "12.9" gives 12. */
  lemma TextTruncates()
    ensures ToInt(Str("12.9"), Some(0)) == Some(12)
  {
    TrimNoop("12.9", IsSpace);
    assert Strip("12.9") == "12.9";
    ParseTwelvePointNine();
    ToIntOfText("12.9", 12.9, Some(0));
    assert Trunc(12.9) == 12;
  }

  /** `float("12.9")` is 12.9. */
  lemma ParseTwelvePointNine()
    ensures ParseDecimal("12.9") == Some(12.9)
  {
    var t := "12.9";
    assert SplitSign(t) == (false, t);
    DigitPartsOfTwelvePointNine();
    assert t[..2] == "12" && t[2..] == ".9";
    assert "9"[..1] == "9" && "9"[1..] == "";
    DigitValuesOfTwelvePointNine();
    assert ParseExponent("") == Some(0);
    assert Magnitude("12", "9", 0) == 12.9;
  }

  lemma DigitPartsOfTwelvePointNine()
    ensures DigitPartLen("12.9") == 2 && DigitPartLen("9") == 1
  {
    assert "12.9"[1..] == "2.9" && "2.9"[1..] == ".9";
    assert DigitTail("2.9") == 1;
    assert DigitTail("") == 0;
  }

  lemma DigitValuesOfTwelvePointNine()
    ensures DigitsValue("12") == 12 && DigitsValue("9") == 9 && DigitCount("9") == 1
  {
    assert "12"[..1] == "1";
    assert "1"[..0] == "";
    assert "9"[..0] == "";
  }


  /** A negative float truncates toward zero: -3.9 gives -3. */
  lemma NegativeFloatTruncates()
    ensures ToInt(Float(-3.9), Some(0)) == Some(-3)
  {
  }

  /** A seconds-scale epoch integer is kept as milliseconds, unscaled. */
  lemma SecondsAreNotScaled(default: int, lib: Library)
    ensures ToTsMs(Int(1700000000), default, lib) == 1700000000
  {
  }
}
