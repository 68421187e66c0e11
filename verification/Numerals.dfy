/** Decimal numbers as text: printing digits, the `%lf` conversion of `sscanf`, and the grammar it accepts. */
module Numerals {
  import opened Basics

  // ---------------------------------------------------------------- digits

  function Digit(n: nat): (ch: char)
    requires n < 10
    ensures IsDigit(ch) && DigitValue(ch) == n
  {
    '0' + n as char
  }

  predicate IsDigit(ch: char) {
    '0' <= ch <= '9'
  }

  function DigitValue(ch: char): nat
    requires IsDigit(ch)
  {
    (ch - '0') as nat
  }

  predicate AllDigits(s: string) {
    forall i | 0 <= i < |s| :: IsDigit(s[i])
  }

  function Decimal(n: nat): (s: string)
    ensures s != "" && AllDigits(s)
  {
    if n < 10 then [Digit(n)] else Decimal(n / 10) + [Digit(n % 10)]
  }

  function DigitsValue(s: string): nat
    requires AllDigits(s)
  {
    if s == "" then 0 else 10 * DigitsValue(s[..|s| - 1]) + DigitValue(s[|s| - 1])
  }

  function Power10(n: nat): (p: nat)
    ensures p > 0
  {
    if n == 0 then 1 else 10 * Power10(n - 1)
  }

  /** `digits` of `n` decimal places. */
  function Places(digits: nat, n: nat): real {
    digits as real / Power10(n) as real
  }

  /** The number moved by `n` decimal places, to the left if `negative`. */
  function Shifted(x: real, negative: bool, n: nat): real {
    if negative then x / Power10(n) as real else x * Power10(n) as real
  }

  lemma {:induction false} DecimalValue(n: nat)
    ensures DigitsValue(Decimal(n)) == n
  {
    var s := Decimal(n);
    if n < 10 {
      assert s[..0] == "";
    } else {
      assert s[..|s| - 1] == Decimal(n / 10);
      DecimalValue(n / 10);
    }
  }

  // ---------------------------------------------------------------- the conversion

  predicate IsSpace(ch: char) {
    ch == ' ' || '\t' <= ch <= '\r'
  }

  function SkipSpaces(s: string): (rest: string)
    ensures |rest| <= |s|
  {
    if s != "" && IsSpace(s[0]) then SkipSpaces(s[1..]) else s
  }

  function CountDigits(s: string): (n: nat)
    ensures n <= |s| && AllDigits(s[..n])
    ensures n < |s| ==> !IsDigit(s[n])
  {
    if s == "" || !IsDigit(s[0]) then 0 else 1 + CountDigits(s[1..])
  }

  predicate IsSign(ch: char) {
    ch == '-' || ch == '+'
  }

  /** The sign, if there is one, and the text after it. */
  function TakeSign(s: string): (r: (string, string))
    ensures s == r.0 + r.1 && |r.1| <= |s|
  {
    if s != "" && IsSign(s[0]) then (s[..1], s[1..]) else ("", s)
  }

  function WithSign(x: real, sign: string): real {
    if sign == "-" then -x else x
  }

  /** Digits with an optional point, at least one digit in all. */
  function Mantissa(s: string): (r: Option<(real, string)>)
    ensures r.Some? ==> |r.value.1| < |s|
  {
    var i := CountDigits(s);
    Fraction(DigitsValue(s[..i]) as real, i > 0, s[i..])
  }

  /** What may follow the digits before the point, if there were `any`. */
  function Fraction(whole: real, any: bool, s: string): (r: Option<(real, string)>)
    ensures r.Some? ==> |r.value.1| <= |s|
    ensures r.Some? && !any ==> |r.value.1| < |s|
  {
    if s != "" && s[0] == '.' then
      var f := CountDigits(s[1..]);
      if !any && f == 0 then None else Some((whole + Places(DigitsValue(s[1..][..f]), f), s[1..][f..]))
    else if !any then None
    else Some((whole, s))
  }

  predicate IsMark(ch: char) {
    ch == 'e' || ch == 'E'
  }

  /** Once begun, an exponent has to be complete. */
  function Exponent(x: real, s: string): (r: Option<(real, string)>)
    ensures r.Some? ==> |r.value.1| <= |s|
  {
    if s == "" || !IsMark(s[0]) then Some((x, s))
    else
      var (sign, digits) := TakeSign(s[1..]);
      var k := CountDigits(digits);
      if k == 0 then None
      else Some((Shifted(x, sign == "-", DigitsValue(digits[..k])), digits[k..]))
  }

  /** `%lf` on decimal numbers: the number and the text after it. */
  function ScanDouble(s: string): (r: Option<(real, string)>)
    ensures r.Some? ==> |r.value.1| < |s|
  {
    var (sign, t) := TakeSign(SkipSpaces(s));
    var mantissa := Mantissa(t);
    if mantissa.None? then None else Exponent(WithSign(mantissa.value.0, sign), mantissa.value.1)
  }

  // ---------------------------------------------------------------- the grammar

  datatype Power = Power(mark: char, sign: string, digits: string)

  /** A number as it may be spelled, with the white space before it. */
  datatype Numeral = Numeral(spaces: string, sign: string, whole: string, point: bool, fraction: string, power: Option<Power>)

  predicate AllSpaces(s: string) {
    forall i | 0 <= i < |s| :: IsSpace(s[i])
  }

  predicate SignText(s: string) {
    s == "" || s == "-" || s == "+"
  }

  predicate PowerOk(p: Option<Power>) {
    p.Some? ==> IsMark(p.value.mark) && SignText(p.value.sign) && p.value.digits != "" && AllDigits(p.value.digits)
  }

  /** Digits before or after the point, and after it only with a point. */
  predicate MantissaOk(whole: string, point: bool, fraction: string) {
    AllDigits(whole) && AllDigits(fraction) && (whole != "" || fraction != "") && (!point ==> fraction == "")
  }

  predicate WellFormed(n: Numeral) {
    AllSpaces(n.spaces) && SignText(n.sign) && MantissaOk(n.whole, n.point, n.fraction) && PowerOk(n.power)
  }

  function PointText(point: bool, fraction: string): string {
    if point then "." + fraction else ""
  }

  function PowerText(p: Option<Power>): string {
    if p.None? then "" else [p.value.mark] + (p.value.sign + p.value.digits)
  }

  /** From the sign on. */
  function Body(n: Numeral): string {
    n.sign + (n.whole + (PointText(n.point, n.fraction) + PowerText(n.power)))
  }

  function Spelled(n: Numeral): string {
    n.spaces + Body(n)
  }

  function Raised(x: real, p: Option<Power>): real
    requires PowerOk(p)
  {
    if p.None? then x else Shifted(x, p.value.sign == "-", DigitsValue(p.value.digits))
  }

  function MantissaValue(whole: string, fraction: string): real
    requires AllDigits(whole) && AllDigits(fraction)
  {
    DigitsValue(whole) as real + Places(DigitsValue(fraction), |fraction|)
  }

  function ValueOf(n: Numeral): real
    requires WellFormed(n)
  {
    Raised(WithSign(MantissaValue(n.whole, n.fraction), n.sign), n.power)
  }

  predicate NoDigitNext(s: string) {
    s == "" || !IsDigit(s[0])
  }

  /** The text after the mantissa does not go on with it. */
  predicate MantissaEnds(point: bool, s: string) {
    NoDigitNext(s) && (!point ==> s == "" || s[0] != '.')
  }

  predicate PowerEnds(p: Option<Power>, s: string) {
    NoDigitNext(s) && (p.None? ==> s == "" || !IsMark(s[0]))
  }

  /** The text after the number does not go on with it. */
  predicate Ended(n: Numeral, s: string) {
    PowerEnds(n.power, s) && (n.power.None? ==> MantissaEnds(n.point, s))
  }

  // ---------------------------------------------------------------- splitting texts

  lemma Splits(a: string, b: string)
    ensures (a + b)[..|a|] == a && (a + b)[|a|..] == b && (a != "" ==> (a + b)[0] == a[0])
  {
  }

  lemma Groups(a: string, b: string, c: string)
    ensures (a + b) + c == a + (b + c)
  {
  }

  lemma Joins(s: string, i: nat)
    requires i <= |s|
    ensures s == s[..i] + s[i..]
  {
  }

  lemma {:induction false} CountsAll(digits: string, rest: string)
    requires AllDigits(digits) && NoDigitNext(rest)
    ensures CountDigits(digits + rest) == |digits|
  {
    if digits == "" {
      assert digits + rest == rest;
    } else {
      assert (digits + rest)[1..] == digits[1..] + rest;
      CountsAll(digits[1..], rest);
    }
  }

  lemma {:induction false} SkipsAll(spaces: string, rest: string)
    requires AllSpaces(spaces)
    ensures SkipSpaces(spaces + rest) == SkipSpaces(rest)
  {
    if spaces == "" {
      assert spaces + rest == rest;
    } else {
      assert (spaces + rest)[1..] == spaces[1..] + rest;
      SkipsAll(spaces[1..], rest);
    }
  }

  lemma {:induction false} SkippedSpaces(s: string) returns (spaces: string)
    ensures AllSpaces(spaces) && s == spaces + SkipSpaces(s) && SkipSpaces(SkipSpaces(s)) == SkipSpaces(s)
  {
    if s != "" && IsSpace(s[0]) {
      var more := SkippedSpaces(s[1..]);
      spaces := [s[0]] + more;
      assert s == [s[0]] + s[1..];
    } else {
      spaces := "";
    }
  }

  // ---------------------------------------------------------------- every spelled number is read

  lemma NoPlaces()
    ensures Places(DigitsValue(""), 0) == 0.0 && Power10(0) == 1
  {
  }

  lemma FractionCounted(whole: real, any: bool, s: string, f: nat)
    requires s != "" && s[0] == '.' && CountDigits(s[1..]) == f && (any || f > 0)
    ensures Fraction(whole, any, s) == Some((whole + Places(DigitsValue(s[1..][..f]), f), s[1..][f..]))
  {
  }

  lemma FractionDigits(whole: real, any: bool, fraction: string, rest: string)
    requires AllDigits(fraction) && NoDigitNext(rest) && (any || fraction != "")
    ensures Fraction(whole, any, "." + (fraction + rest)) == Some((whole + Places(DigitsValue(fraction), |fraction|), rest))
  {
    hide DigitsValue, Places, CountDigits, Fraction;
    Splits(".", fraction + rest);
    CountsAll(fraction, rest);
    Splits(fraction, rest);
    FractionCounted(whole, any, "." + (fraction + rest), |fraction|);
  }

  lemma ReadsFraction(whole: real, any: bool, point: bool, fraction: string, rest: string)
    requires AllDigits(fraction) && (any || fraction != "") && (!point ==> fraction == "") && MantissaEnds(point, rest)
    ensures Fraction(whole, any, PointText(point, fraction) + rest)
            == Some((whole + Places(DigitsValue(fraction), |fraction|), rest))
  {
    hide Places, DigitsValue;
    if point {
      hide CountDigits, Fraction, AllDigits;
      Groups(".", fraction, rest);
      FractionDigits(whole, any, fraction, rest);
    } else {
      assert "" + rest == rest;
      NoPlaces();
    }
  }

  lemma ReadsDigits(whole: string, rest: string)
    requires AllDigits(whole) && NoDigitNext(rest)
    ensures Mantissa(whole + rest) == Fraction(DigitsValue(whole) as real, whole != "", rest)
  {
    hide DigitsValue, Fraction, CountDigits;
    CountsAll(whole, rest);
    Splits(whole, rest);
  }

  lemma ReadsMantissa(whole: string, point: bool, fraction: string, rest: string)
    requires MantissaOk(whole, point, fraction) && MantissaEnds(point, rest)
    ensures Mantissa(whole + (PointText(point, fraction) + rest)) == Some((MantissaValue(whole, fraction), rest))
  {
    hide Mantissa, Fraction, Places, DigitsValue;
    ReadsFraction(DigitsValue(whole) as real, whole != "", point, fraction, rest);
    assert NoDigitNext(PointText(point, fraction) + rest) by {
      if !point {
        assert "" + rest == rest;
      }
    }
    ReadsDigits(whole, PointText(point, fraction) + rest);
  }

  lemma ReadsSign(sign: string, rest: string)
    requires SignText(sign) && (rest == "" || !IsSign(rest[0]))
    ensures TakeSign(sign + rest) == (sign, rest)
  {
    Splits(sign, rest);
    assert sign == "" ==> sign + rest == rest;
  }

  lemma PowerCounted(x: real, s: string, sign: string, digits: string, k: nat)
    requires s != "" && IsMark(s[0]) && TakeSign(s[1..]) == (sign, digits) && CountDigits(digits) == k > 0
    ensures Exponent(x, s) == Some((Shifted(x, sign == "-", DigitsValue(digits[..k])), digits[k..]))
  {
  }

  lemma ReadsPower(x: real, p: Option<Power>, rest: string)
    requires PowerOk(p) && PowerEnds(p, rest)
    ensures Exponent(x, PowerText(p) + rest) == Some((Raised(x, p), rest))
  {
    hide DigitsValue, Shifted, CountDigits, TakeSign;
    if p.None? {
      assert "" + rest == rest;
    } else {
      var mark, sign, digits := p.value.mark, p.value.sign, p.value.digits;
      var t := digits + rest;
      assert PowerText(p) + rest == [mark] + (sign + t);
      Splits([mark], sign + t);
      Splits(digits, rest);
      ReadsSign(sign, t);
      CountsAll(digits, rest);
      PowerCounted(x, [mark] + (sign + t), sign, t, |digits|);
    }
  }

  /** Where a number begins after its spaces and sign. */
  lemma BodyBegins(n: Numeral, rest: string)
    requires MantissaOk(n.whole, n.point, n.fraction)
    ensures var s := n.whole + (PointText(n.point, n.fraction) + rest);
      s != "" && (IsDigit(s[0]) || s[0] == '.')
  {
    Splits(n.whole, PointText(n.point, n.fraction) + rest);
    Splits(PointText(n.point, n.fraction), rest);
    assert n.whole == "" ==> n.whole + (PointText(n.point, n.fraction) + rest) == PointText(n.point, n.fraction) + rest;
  }

  /** After the mantissa there is its end, whether a power follows or not. */
  lemma AfterMantissa(n: Numeral, rest: string)
    requires WellFormed(n) && Ended(n, rest)
    ensures MantissaEnds(n.point, PowerText(n.power) + rest)
  {
    if n.power.None? {
      assert "" + rest == rest;
    }
  }

  lemma ReadsBody(n: Numeral, rest: string)
    requires WellFormed(n) && Ended(n, rest)
    ensures ScanDouble(Body(n) + rest) == Some((ValueOf(n), rest))
  {
    hide Mantissa, Exponent, TakeSign, Raised, MantissaValue, MantissaEnds, PowerEnds;
    var after := PowerText(n.power) + rest;
    var t := n.whole + (PointText(n.point, n.fraction) + after);
    assert Body(n) + rest == n.sign + t;
    BodyBegins(n, after);
    ReadsSign(n.sign, t);
    NoSpaceFirst(n.sign, t);
    AfterMantissa(n, rest);
    ReadsMantissa(n.whole, n.point, n.fraction, after);
    ReadsPower(WithSign(MantissaValue(n.whole, n.fraction), n.sign), n.power, rest);
  }

  lemma NoSpaceFirst(sign: string, t: string)
    requires SignText(sign) && t != "" && (IsDigit(t[0]) || t[0] == '.')
    ensures SkipSpaces(sign + t) == sign + t && !IsSign(t[0])
    ensures sign + t != "" && (IsDigit((sign + t)[0]) || (sign + t)[0] == '.' || IsSign((sign + t)[0]))
  {
    Splits(sign, t);
    assert sign == "" ==> sign + t == t;
  }

  lemma ScanSkips(s: string)
    ensures ScanDouble(SkipSpaces(s)) == ScanDouble(s)
  {
    var spaces := SkippedSpaces(s);
  }

  /** `%lf` reads any well-formed number that is not followed by more of one. */
  lemma ReadsNumeral(n: Numeral, rest: string)
    requires WellFormed(n) && Ended(n, rest)
    ensures ScanDouble(Spelled(n) + rest) == Some((ValueOf(n), rest))
  {
    hide ScanDouble, Body, ValueOf;
    assert Spelled(n) + rest == n.spaces + (Body(n) + rest);
    SkipsAll(n.spaces, Body(n) + rest);
    ScanSkips(Spelled(n) + rest);
    ScanSkips(Body(n) + rest);
    ReadsBody(n, rest);
  }

  // ---------------------------------------------------------------- and nothing else

  lemma FractionParts(whole: real, any: bool, s: string) returns (point: bool, fraction: string)
    requires Fraction(whole, any, s).Some? && NoDigitNext(s)
    ensures var rest := Fraction(whole, any, s).value.1;
      && AllDigits(fraction) && (any || fraction != "") && (!point ==> fraction == "") && MantissaEnds(point, rest)
      && s == PointText(point, fraction) + rest
      && Fraction(whole, any, s).value.0 == whole + Places(DigitsValue(fraction), |fraction|)
  {
    hide DigitsValue, Places, CountDigits;
    if s != "" && s[0] == '.' {
      var f := CountDigits(s[1..]);
      point, fraction := true, s[1..][..f];
      Joins(s[1..], f);
      assert s == "." + s[1..];
    } else {
      point, fraction := false, "";
      NoPlaces();
      assert s == "" + s;
    }
  }

  lemma MantissaParts(s: string) returns (whole: string, point: bool, fraction: string)
    requires Mantissa(s).Some?
    ensures var rest := Mantissa(s).value.1;
      && MantissaOk(whole, point, fraction) && MantissaEnds(point, rest)
      && s == whole + (PointText(point, fraction) + rest) && Mantissa(s).value.0 == MantissaValue(whole, fraction)
  {
    hide DigitsValue, Places, CountDigits, Fraction;
    var i := CountDigits(s);
    whole := s[..i];
    Joins(s, i);
    point, fraction := FractionParts(DigitsValue(s[..i]) as real, i > 0, s[i..]);
  }

  lemma PowerParts(x: real, s: string) returns (p: Option<Power>)
    requires Exponent(x, s).Some? && NoDigitNext(s)
    ensures var rest := Exponent(x, s).value.1;
      && PowerOk(p) && PowerEnds(p, rest) && s == PowerText(p) + rest && Exponent(x, s).value.0 == Raised(x, p)
      && (p.None? ==> rest == s)
  {
    hide DigitsValue, Shifted, CountDigits;
    if s == "" || !IsMark(s[0]) {
      p := None;
      assert s == "" + s;
    } else {
      var (sign, digits) := TakeSign(s[1..]);
      var k := CountDigits(digits);
      p := Some(Power(s[0], sign, digits[..k]));
      Joins(digits, k);
      assert s == [s[0]] + s[1..];
      assert PowerText(p) + digits[k..] == [s[0]] + (sign + (digits[..k] + digits[k..]));
    }
  }

  lemma Regrouped(n: Numeral, rest: string)
    ensures Spelled(n) + rest == n.spaces + (n.sign + (n.whole + (PointText(n.point, n.fraction) + (PowerText(n.power) + rest))))
  {
    var point, power := PointText(n.point, n.fraction), PowerText(n.power);
    Groups(point, power, rest);
    Groups(n.whole, point + power, rest);
    Groups(n.sign, n.whole + (point + power), rest);
    Groups(n.spaces, n.sign + (n.whole + (point + power)), rest);
  }

  lemma ScanParts(s: string)
    requires ScanDouble(s).Some?
    ensures var (sign, t) := TakeSign(SkipSpaces(s));
      && Mantissa(t).Some?
      && var x := WithSign(Mantissa(t).value.0, sign);
      && ScanDouble(s) == Exponent(x, Mantissa(t).value.1)
      && SignText(sign) && SkipSpaces(s) == sign + t
  {
  }

  /** Whatever `%lf` reads was a well-formed number, up to its very end. */
  lemma OnlyNumerals(s: string) returns (n: Numeral)
    requires ScanDouble(s).Some?
    ensures var rest := ScanDouble(s).value.1;
      WellFormed(n) && Ended(n, rest) && s == Spelled(n) + rest && ScanDouble(s).value.0 == ValueOf(n)
  {
    hide Mantissa, Exponent, Raised, MantissaValue, SkipSpaces, ScanDouble, TakeSign, Spelled, MantissaOk, PowerOk, AllSpaces;
    ScanParts(s);
    var spaces := SkippedSpaces(s);
    var (sign, t) := TakeSign(SkipSpaces(s));
    var whole, point, fraction := MantissaParts(t);
    var after := Mantissa(t).value.1;
    var p := PowerParts(WithSign(Mantissa(t).value.0, sign), after);
    n := Numeral(spaces, sign, whole, point, fraction, p);
    Regrouped(n, ScanDouble(s).value.1);
  }

  /** The grammar is exact: `%lf` reads `x` up to `rest` iff a number of that value is spelled there and ends there. */
  lemma ScansExactly(s: string, x: real, rest: string)
    ensures ScanDouble(s) == Some((x, rest))
            <==> exists n :: WellFormed(n) && Ended(n, rest) && s == Spelled(n) + rest && x == ValueOf(n)
  {
    hide ScanDouble, WellFormed, Ended, Spelled, ValueOf;
    if ScanDouble(s) == Some((x, rest)) {
      var n := OnlyNumerals(s);
    }
    forall n | WellFormed(n) && Ended(n, rest) && s == Spelled(n) + rest && x == ValueOf(n)
      ensures ScanDouble(s) == Some((x, rest))
    {
      ReadsNumeral(n, rest);
    }
  }
}
