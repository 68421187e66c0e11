/** The text form of a colour: printed with one decimal and read back by `sscanf`. */
module HSVColors {
  import opened Basics
  import opened Numerals

  // ---------------------------------------------------------------- printing

  /** `t` tenths with one decimal. */
  function Fixed1(t: nat): string {
    Decimal(t / 10) + "." + [Digit(t % 10)]
  }

  /** To the nearest tenth, ties to the even one, in tenths. */
  function Tenths(x: real): int {
    var low := (x * 10.0).Floor;
    var rest := x * 10.0 - low as real;
    if rest < 0.5 || (rest == 0.5 && low % 2 == 0) then low else low + 1
  }

  /** The nearest tenth: half a tenth away at most, and then the even one. */
  lemma TenthsNearest(x: real)
    ensures -0.5 <= Tenths(x) as real - x * 10.0 <= 0.5
    ensures Tenths(x) as real - x * 10.0 == 0.5 || Tenths(x) as real - x * 10.0 == -0.5 ==> Tenths(x) % 2 == 0
  {
    var y := x * 10.0;
    assert y.Floor as real <= y < y.Floor as real + 1.0;
  }

  /** A whole number that bounds the number bounds its tenths. */
  lemma TenthsBounded(x: real, n: int)
    ensures n as real <= x ==> 10 * n <= Tenths(x)
    ensures x <= n as real ==> Tenths(x) <= 10 * n
  {
    var y := x * 10.0;
    assert (10 * n) as real == n as real * 10.0;
    assert n as real <= x ==> (10 * n) as real <= y;
    assert x <= n as real ==> y <= (10 * n) as real;
  }

  lemma TenthsStable(t: int)
    ensures Tenths(t as real / 10.0) == t
  {
    assert t as real / 10.0 * 10.0 == t as real;
  }

  // ---------------------------------------------------------------- the scan

  /** How many characters of the set a `%[` conversion takes. */
  function CountOf(s: string, chars: set<char>): (n: nat)
    ensures n <= |s| && forall i | 0 <= i < n :: s[i] in chars
    ensures n < |s| ==> s[n] !in chars
  {
    if s == "" || s[0] !in chars then 0 else 1 + CountOf(s[1..], chars)
  }

  /** The numbers converted so far, and the text left when the whole format matched. */
  datatype Scanned = Scanned(numbers: seq<real>, rest: Option<string>)

  const SEPARATORS := {' ', ','}
  const PERCENTS := {' ', '%'}

  /** `sscanf(s, "hsv(%lf%*[ ,] %lf%*[ %%], %lf%*[ %%])%n", ...)` */
  function Sscanf(s: string): (r: Scanned)
    ensures r.rest.Some? ==> |r.numbers| == 3 && |r.rest.value| <= |s|
  {
    if !("hsv(" <= s) then Scanned([], None)
    else
      var first := ScanDouble(s[4..]);
      if first.None? then Scanned([], None) else AfterHue(first.value.0, first.value.1)
  }

  function AfterHue(h: real, s: string): (r: Scanned)
    ensures r.rest.Some? ==> |r.numbers| == 3 && |r.rest.value| <= |s|
  {
    var c := CountOf(s, SEPARATORS);
    if c == 0 then Scanned([h], None)
    else
      var second := ScanDouble(SkipSpaces(s[c..]));
      if second.None? then Scanned([h], None) else AfterSaturation(h, second.value.0, second.value.1)
  }

  function AfterSaturation(h: real, sat: real, s: string): (r: Scanned)
    ensures r.rest.Some? ==> |r.numbers| == 3 && |r.rest.value| <= |s|
  {
    var c := CountOf(s, PERCENTS);
    if c == 0 || !("," <= s[c..]) then Scanned([h, sat], None)
    else
      var third := ScanDouble(SkipSpaces(s[c + 1..]));
      if third.None? then Scanned([h, sat], None) else AfterValue(h, sat, third.value.0, third.value.1)
  }

  function AfterValue(h: real, sat: real, v: real, s: string): (r: Scanned)
    ensures r.rest.Some? ==> |r.numbers| == 3 && |r.rest.value| <= |s|
  {
    var c := CountOf(s, PERCENTS);
    if c == 0 || !(")" <= s[c..]) then Scanned([h, sat, v], None) else Scanned([h, sat, v], Some(s[c + 1..]))
  }

  // ---------------------------------------------------------------- the colour

  /** A channel that was never set has no value. */
  datatype Color = Color(hue: Option<real>, saturation: Option<real>, value: Option<real>)

  datatype Outcome = Done | ColorInputString | ColorInputRange

  const HUE_MAX := 360
  const PERCENT_MAX := 100

  predicate InRange(x: real, max: int) {
    0.0 <= x <= max as real
  }

  predicate ChannelOk(channel: Option<real>, max: int) {
    channel.Some? ==> InRange(channel.value, max)
  }

  predicate Ok(c: Color) {
    ChannelOk(c.hue, HUE_MAX) && ChannelOk(c.saturation, PERCENT_MAX) && ChannelOk(c.value, PERCENT_MAX)
  }

  predicate Full(c: Color) {
    c.hue.Some? && c.saturation.Some? && c.value.Some?
  }

  /** One channel after the other, up to the first that is out of range. */
  function SetNumbers(c: Color, h: real, s: real, v: real): (Outcome, Color) {
    if !InRange(h, HUE_MAX) then (ColorInputRange, c)
    else if !InRange(s, PERCENT_MAX) then (ColorInputRange, c.(hue := Some(h)))
    else if !InRange(v, PERCENT_MAX) then (ColorInputRange, c.(hue := Some(h), saturation := Some(s)))
    else (Done, Color(Some(h), Some(s), Some(v)))
  }

  /** `junk` is what `used` holds when `%n` was not reached. */
  function SetText(c: Color, text: string, junk: int): (Outcome, Color) {
    var scanned := Sscanf(CString(text));
    var used := if scanned.rest.Some? then |CString(text)| - |scanned.rest.value| else junk;
    if |scanned.numbers| == 3 && used == |text| then
      SetNumbers(c, scanned.numbers[0], scanned.numbers[1], scanned.numbers[2])
    else (ColorInputString, c)
  }

  function Text(h: nat, s: nat, v: nat): string {
    "hsv(" + Fixed1(h) + ", " + Fixed1(s) + "%, " + Fixed1(v) + "%)"
  }

  /** What `snprintf` would write. */
  function Formatted(c: Color): string
    requires Ok(c) && Full(c)
  {
    TenthsInRange(c.hue.value, HUE_MAX);
    TenthsInRange(c.saturation.value, PERCENT_MAX);
    TenthsInRange(c.value.value, PERCENT_MAX);
    Text(Tenths(c.hue.value), Tenths(c.saturation.value), Tenths(c.value.value))
  }

  lemma TenthsInRange(x: real, max: int)
    requires InRange(x, max)
    ensures 0 <= Tenths(x) <= 10 * max
  {
    TenthsBounded(x, 0);
    TenthsBounded(x, max);
  }

  // ---------------------------------------------------------------- the format, as a grammar

  /** Everything up to and with the third number. */
  datatype Spelling = Spelling(hue: Numeral, separators: string, saturation: Numeral, percents: string, value: Numeral)

  predicate Made(s: string, chars: set<char>) {
    s != "" && AllIn(s, chars)
  }

  predicate AllIn(s: string, chars: set<char>) {
    forall i | 0 <= i < |s| :: s[i] in chars
  }

  predicate WellSpelled(c: Spelling) {
    && WellFormed(c.hue) && WellFormed(c.saturation) && WellFormed(c.value)
    && Made(c.separators, SEPARATORS) && Made(c.percents, PERCENTS)
  }

  function NumbersOf(c: Spelling): seq<real>
    requires WellSpelled(c)
  {
    [ValueOf(c.hue), ValueOf(c.saturation), ValueOf(c.value)]
  }

  /** From what follows the saturation on; `tail` is what follows the third number. */
  function FromPercents(c: Spelling, tail: string): string {
    c.percents + ("," + (Spelled(c.value) + tail))
  }

  function FromSeparators(c: Spelling, tail: string): string {
    c.separators + (Spelled(c.saturation) + FromPercents(c, tail))
  }

  function Opened(c: Spelling, tail: string): string {
    "hsv(" + (Spelled(c.hue) + FromSeparators(c, tail))
  }

  /** The end of the format, with `more` text after it. */
  ghost predicate Closes(tail: string, more: string) {
    exists percents :: Made(percents, PERCENTS) && tail == percents + (")" + more)
  }

  /** The text has the whole format, to its last character. */
  ghost predicate Fits(text: string) {
    exists c, tail :: WellSpelled(c) && Closes(tail, "") && text == Opened(c, tail)
  }

  /** The text has all three numbers, but what follows the third one is not the end of the format. */
  ghost predicate EndsEarly(text: string) {
    exists c, tail :: WellSpelled(c) && Ended(c.value, tail) && text == Opened(c, tail) && !exists more :: Closes(tail, more)
  }

  // ---------------------------------------------------------------- every text of the format is read

  lemma {:induction false} CountsSet(s: string, rest: string, chars: set<char>)
    requires AllIn(s, chars)
    ensures CountOf(s + rest, chars) == |s| + CountOf(rest, chars)
  {
    if s == "" {
      assert s + rest == rest;
    } else {
      assert (s + rest)[1..] == s[1..] + rest;
      CountsSet(s[1..], rest, chars);
    }
  }

  lemma Drops(a: string, b: string, k: nat)
    requires k <= |b|
    ensures (a + b)[|a| + k..] == b[k..]
  {
  }

  /** A number's sign, digit or point is no separator. */
  lemma BodyFirst(n: Numeral, rest: string)
    requires WellFormed(n)
    ensures var s := Body(n) + rest;
      s != "" && !IsSpace(s[0]) && s[0] !in SEPARATORS && s[0] !in PERCENTS
  {
    hide MantissaOk;
    var after := PowerText(n.power) + rest;
    var t := n.whole + (PointText(n.point, n.fraction) + after);
    assert Body(n) + rest == n.sign + t;
    BodyBegins(n, after);
    NoSpaceFirst(n.sign, t);
  }

  lemma {:induction false} OnlySpacesCounted(spaces: string, rest: string)
    requires AllSpaces(spaces) && rest != "" && rest[0] !in SEPARATORS
    ensures var k := CountOf(spaces + rest, SEPARATORS);
      k <= |spaces| && (spaces + rest)[k..] == spaces[k..] + rest
  {
    if spaces == "" {
      assert spaces + rest == rest;
    } else {
      var s := spaces + rest;
      assert s[1..] == spaces[1..] + rest;
      OnlySpacesCounted(spaces[1..], rest);
      var k := CountOf(s, SEPARATORS);
      assert k > 0 ==> s[k..] == s[1..][k - 1..] && spaces[k..] == spaces[1..][k - 1..];
    }
  }

  /** However many of the spaces before a number the separators take: the number is read. */
  lemma ReadsAfterSeparators(separators: string, n: Numeral, rest: string)
    requires Made(separators, SEPARATORS) && WellFormed(n) && Ended(n, rest)
    ensures var s := separators + (Spelled(n) + rest);
      var k := CountOf(s, SEPARATORS);
      k > 0 && ScanDouble(SkipSpaces(s[k..])) == Some((ValueOf(n), rest))
  {
    hide ScanDouble, ValueOf, WellFormed, Ended, CountOf, SkipSpaces, Body;
    var body := Body(n) + rest;
    SpacesOfNumeral(n);
    BodyFirst(n, rest);
    assert Spelled(n) + rest == n.spaces + body;
    var s := separators + (n.spaces + body);
    CountsSet(separators, n.spaces + body, SEPARATORS);
    OnlySpacesCounted(n.spaces, body);
    var k := CountOf(n.spaces + body, SEPARATORS);
    Drops(separators, n.spaces + body, k);
    SkipsAll(n.spaces[k..], body);
    SkipsAll(n.spaces, body);
    ReadsNumeral(n, rest);
    ScanSkips(n.spaces + body);
  }

  lemma SpacesOfNumeral(n: Numeral)
    requires WellFormed(n)
    ensures AllSpaces(n.spaces)
  {
  }

  lemma ReadsAfterPercents(h: real, sat: real, c: Spelling, tail: string)
    requires WellSpelled(c) && Ended(c.value, tail)
    ensures AfterSaturation(h, sat, FromPercents(c, tail)) == AfterValue(h, sat, ValueOf(c.value), tail)
  {
    hide ScanDouble, ValueOf, WellFormed, Ended, Spelled, AfterValue, SkipSpaces;
    var number := Spelled(c.value) + tail;
    var s := c.percents + ("," + number);
    CountsSet(c.percents, "," + number, PERCENTS);
    NoPercent(number);
    Drops(c.percents, "," + number, 0);
    Drops(c.percents, "," + number, 1);
    assert ("," + number)[0..] == "," + number && ("," + number)[1..] == number;
    ReadsNumeral(c.value, tail);
    ScanSkips(number);
  }

  lemma NoPercent(rest: string)
    ensures CountOf("," + rest, PERCENTS) == 0
  {
  }

  lemma EndedByFormat(c: Spelling, tail: string)
    requires WellSpelled(c)
    ensures Ended(c.saturation, FromPercents(c, tail)) && Ended(c.hue, FromSeparators(c, tail))
  {
    hide WellFormed;
    Splits(c.percents, "," + (Spelled(c.value) + tail));
    Splits(c.separators, Spelled(c.saturation) + FromPercents(c, tail));
  }

  /** The scan gets to the third number of any text of the format, whatever follows it. */
  lemma ReadsOpened(c: Spelling, tail: string)
    requires WellSpelled(c) && Ended(c.value, tail)
    ensures Sscanf(Opened(c, tail)) == AfterValue(ValueOf(c.hue), ValueOf(c.saturation), ValueOf(c.value), tail)
  {
    hide ScanDouble, ValueOf, WellFormed, Ended, Spelled, AfterValue, AfterSaturation, CountOf, FromPercents;
    EndedByFormat(c, tail);
    Splits("hsv(", Spelled(c.hue) + FromSeparators(c, tail));
    ReadsNumeral(c.hue, FromSeparators(c, tail));
    ReadsAfterSeparators(c.separators, c.saturation, FromPercents(c, tail));
    ReadsAfterPercents(ValueOf(c.hue), ValueOf(c.saturation), c, tail);
  }

  /** It matches to the end of the format iff that is what follows the third number. */
  lemma ClosesExactly(h: real, sat: real, v: real, tail: string, more: string)
    ensures AfterValue(h, sat, v, tail).rest == Some(more) <==> Closes(tail, more)
    ensures AfterValue(h, sat, v, tail).numbers == [h, sat, v]
  {
    var k := CountOf(tail, PERCENTS);
    if AfterValue(h, sat, v, tail).rest == Some(more) {
      Joins(tail, k);
      assert tail[k..] == ")" + more;
      assert Made(tail[..k], PERCENTS) && tail == tail[..k] + (")" + more);
    }
    forall percents | Made(percents, PERCENTS) && tail == percents + (")" + more)
      ensures AfterValue(h, sat, v, tail).rest == Some(more)
    {
      CountsSet(percents, ")" + more, PERCENTS);
      assert CountOf(")" + more, PERCENTS) == 0;
      Drops(percents, ")" + more, 0);
      Drops(percents, ")" + more, 1);
      assert (")" + more)[1..] == more;
    }
  }

  /** Of any text with the three numbers, these are read, and the rest as far as the format goes on. */
  lemma ReadsFormat(c: Spelling, tail: string)
    requires WellSpelled(c) && Ended(c.value, tail)
    ensures Sscanf(Opened(c, tail)).numbers == NumbersOf(c)
    ensures forall more :: Sscanf(Opened(c, tail)).rest == Some(more) <==> Closes(tail, more)
  {
    hide Sscanf, WellFormed, Opened, Ended, ValueOf, AfterValue, Closes;
    ReadsOpened(c, tail);
    ClosesExactly(ValueOf(c.hue), ValueOf(c.saturation), ValueOf(c.value), tail, "");
    forall more
      ensures Sscanf(Opened(c, tail)).rest == Some(more) <==> Closes(tail, more)
    {
      ClosesExactly(ValueOf(c.hue), ValueOf(c.saturation), ValueOf(c.value), tail, more);
    }
  }

  // ---------------------------------------------------------------- and nothing else

  lemma PercentParts(h: real, sat: real, s: string) returns (percents: string, n: Numeral, tail: string)
    requires |AfterSaturation(h, sat, s).numbers| == 3
    ensures Made(percents, PERCENTS) && WellFormed(n) && Ended(n, tail) && s == percents + ("," + (Spelled(n) + tail))
    ensures AfterSaturation(h, sat, s) == AfterValue(h, sat, ValueOf(n), tail)
  {
    hide ScanDouble, ValueOf, WellFormed, Ended, Spelled, SkipSpaces;
    var k := CountOf(s, PERCENTS);
    percents := s[..k];
    Joins(s, k);
    assert s[k..] == "," + s[k + 1..];
    ScanSkips(s[k + 1..]);
    n := OnlyNumerals(s[k + 1..]);
    tail := ScanDouble(s[k + 1..]).value.1;
  }

  lemma SeparatorParts(h: real, s: string) returns (separators: string, n: Numeral, rest: string)
    requires |AfterHue(h, s).numbers| == 3
    ensures Made(separators, SEPARATORS) && WellFormed(n) && s == separators + (Spelled(n) + rest)
    ensures AfterHue(h, s) == AfterSaturation(h, ValueOf(n), rest)
  {
    hide ScanDouble, ValueOf, WellFormed, Ended, Spelled, SkipSpaces, AfterSaturation;
    var k := CountOf(s, SEPARATORS);
    separators := s[..k];
    Joins(s, k);
    ScanSkips(s[k..]);
    n := OnlyNumerals(s[k..]);
    rest := ScanDouble(s[k..]).value.1;
  }

  /** Whatever text three numbers are scanned from has the format up to the third. */
  lemma OnlyOpened(s: string) returns (c: Spelling, tail: string)
    requires |Sscanf(s).numbers| == 3
    ensures WellSpelled(c) && Ended(c.value, tail) && s == Opened(c, tail)
  {
    hide ScanDouble, ValueOf, WellFormed, Ended, Spelled, AfterSaturation, AfterHue, Made;
    var hue := OnlyNumerals(s[4..]);
    var afterHue := ScanDouble(s[4..]).value.1;
    var separators, saturation, rest := SeparatorParts(ValueOf(hue), afterHue);
    var percents, value, t := PercentParts(ValueOf(hue), ValueOf(saturation), rest);
    c, tail := Spelling(hue, separators, saturation, percents, value), t;
    Joins(s, 4);
  }

  /** The scan is exact: it matches the whole text iff the text fits the format, and gives the numbers spelled in it. */
  lemma FitsExactly(s: string)
    ensures Sscanf(s).rest == Some("") <==> Fits(s)
    ensures |Sscanf(s).numbers| == 3 && Sscanf(s).rest.None? <==> EndsEarly(s)
  {
    hide Sscanf, WellFormed, Opened, Ended, ValueOf, Closes;
    if |Sscanf(s).numbers| == 3 {
      var c, tail := OnlyOpened(s);
      ReadsFormat(c, tail);
      assert forall more :: Sscanf(s).rest == Some(more) <==> Closes(tail, more);
    }
    forall c, tail | WellSpelled(c) && Ended(c.value, tail) && s == Opened(c, tail)
      ensures forall more :: Sscanf(s).rest == Some(more) <==> Closes(tail, more)
      ensures |Sscanf(s).numbers| == 3
    {
      ReadsFormat(c, tail);
    }
    forall c, tail | WellSpelled(c) && Closes(tail, "")
      ensures Ended(c.value, tail)
    {
      EndedByClose(c.value, tail);
    }
  }

  lemma EndedByClose(n: Numeral, tail: string)
    requires Closes(tail, "")
    ensures Ended(n, tail)
  {
    var percents :| Made(percents, PERCENTS) && tail == percents + (")" + "");
    Splits(percents, ")" + "");
  }

  // ---------------------------------------------------------------- what was printed is read back

  lemma DigitOne(n: nat)
    requires n < 10
    ensures DigitsValue([Digit(n)]) == n && Places(n, 1) == n as real / 10.0
  {
    assert [Digit(n)][..0] == "";
    assert Power10(0) == 1;
  }

  lemma TenthsSplit(t: nat)
    ensures (t / 10) as real + (t % 10) as real / 10.0 == t as real / 10.0
  {
    assert t == 10 * (t / 10) + t % 10;
  }

  /** A number printed with one decimal is one of those spellings. */
  function Printed(t: nat, spaces: string): Numeral {
    Numeral(spaces, "", Decimal(t / 10), true, [Digit(t % 10)], None)
  }

  lemma PrintedSpelled(t: nat, spaces: string)
    requires AllSpaces(spaces)
    ensures var n := Printed(t, spaces);
      WellFormed(n) && Spelled(n) == spaces + Fixed1(t) && ValueOf(n) == t as real / 10.0
  {
    hide Decimal, DigitsValue, Places;
    DecimalValue(t / 10);
    DigitOne(t % 10);
    TenthsSplit(t);
    var n := Printed(t, spaces);
    assert Body(n) == "" + (Decimal(t / 10) + ("." + [Digit(t % 10)] + ""));
  }

  lemma TextScans(h: nat, s: nat, v: nat)
    ensures Sscanf(Text(h, s, v)) == Scanned([h as real / 10.0, s as real / 10.0, v as real / 10.0], Some(""))
  {
    hide Spelled, ValueOf, Sscanf, Fixed1, Ended, AfterValue, WellFormed;
    PrintedSpelled(h, "");
    PrintedSpelled(s, "");
    PrintedSpelled(v, " ");
    var c := Spelling(Printed(h, ""), ", ", Printed(s, ""), "%", Printed(v, " "));
    assert Opened(c, "%)") == Text(h, s, v);
    assert "%)" == "%" + (")" + "") && Made("%", PERCENTS);
    EndedByClose(c.value, "%)");
    ReadsFormat(c, "%)");
  }

  lemma FixedLength(t: nat, max: nat)
    requires max < 1000 && t <= 10 * max
    ensures |Fixed1(t)| <= 5
  {
    var n := t / 10;
    assert n < 1000;
    assert n < 10 ==> |Decimal(n)| == 1;
    assert n / 10 < 10 ==> |Decimal(n)| <= 2;
    assert n / 10 / 10 < 10 && |Decimal(n / 10)| <= 2;
  }

  /** The 30 bytes of the buffer hold the text and its NUL. */
  lemma FitsBuffer(c: Color)
    requires Ok(c) && Full(c)
    ensures |Formatted(c)| <= 26
  {
    hide Fixed1, Tenths;
    TenthsInRange(c.hue.value, HUE_MAX);
    TenthsInRange(c.saturation.value, PERCENT_MAX);
    TenthsInRange(c.value.value, PERCENT_MAX);
    FixedLength(Tenths(c.hue.value), HUE_MAX);
    FixedLength(Tenths(c.saturation.value), PERCENT_MAX);
    FixedLength(Tenths(c.value.value), PERCENT_MAX);
  }

  lemma NoNul(h: nat, s: nat, v: nat)
    ensures CString(Text(h, s, v)) == Text(h, s, v)
  {
    CStringWhole(Text(h, s, v));
  }

  /** Every channel to its nearest tenth. */
  function Rounded(c: Color): Color
    requires Full(c)
  {
    Color(Some(Tenths(c.hue.value) as real / 10.0), Some(Tenths(c.saturation.value) as real / 10.0),
          Some(Tenths(c.value.value) as real / 10.0))
  }

  lemma RoundedInRange(x: real, max: int)
    requires InRange(x, max)
    ensures InRange(Tenths(x) as real / 10.0, max)
  {
    TenthsInRange(x, max);
    assert Tenths(x) as real <= (10 * max) as real;
  }

  /** Setting any colour to the text of another one always succeeds and gives the other one in tenths. */
  lemma SetToText(c: Color, target: Color, junk: int)
    requires Ok(c) && Full(c)
    ensures SetText(target, Formatted(c), junk) == (Done, Rounded(c))
  {
    hide Sscanf, Text, Tenths, CString;
    TenthsInRange(c.hue.value, HUE_MAX);
    TenthsInRange(c.saturation.value, PERCENT_MAX);
    TenthsInRange(c.value.value, PERCENT_MAX);
    var h, s, v := Tenths(c.hue.value), Tenths(c.saturation.value), Tenths(c.value.value);
    NoNul(h, s, v);
    TextScans(h, s, v);
    RoundedInRange(c.hue.value, HUE_MAX);
    RoundedInRange(c.saturation.value, PERCENT_MAX);
    RoundedInRange(c.value.value, PERCENT_MAX);
  }

  /** And its text is the same again. */
  lemma TextStable(c: Color)
    requires Ok(c) && Full(c)
    ensures Ok(Rounded(c)) && Formatted(Rounded(c)) == Formatted(c)
  {
    hide Tenths, Text;
    RoundedInRange(c.hue.value, HUE_MAX);
    RoundedInRange(c.saturation.value, PERCENT_MAX);
    RoundedInRange(c.value.value, PERCENT_MAX);
    TenthsStable(Tenths(c.hue.value));
    TenthsStable(Tenths(c.saturation.value));
    TenthsStable(Tenths(c.value.value));
  }

  lemma NoNulInNumeral(n: Numeral)
    requires WellFormed(n)
    ensures '\0' !in Spelled(n)
  {
    assert '\0' !in PointText(n.point, n.fraction);
    assert '\0' !in PowerText(n.power);
    assert '\0' !in n.spaces && '\0' !in n.sign && '\0' !in n.whole;
  }

  lemma NoNulInFormat(c: Spelling, tail: string)
    requires WellSpelled(c) && Closes(tail, "")
    ensures '\0' !in Opened(c, tail)
  {
    hide Spelled, WellFormed;
    NoNulInNumeral(c.hue);
    NoNulInNumeral(c.saturation);
    NoNulInNumeral(c.value);
    var percents :| Made(percents, PERCENTS) && tail == percents + (")" + "");
    assert '\0' !in tail && '\0' !in c.percents && '\0' !in c.separators;
  }

  /** Setting a colour to any text of the format is setting it to the three numbers spelled in it, whatever `used` held. */
  lemma SetSpelled(target: Color, c: Spelling, tail: string, junk: int)
    requires WellSpelled(c) && Closes(tail, "")
    ensures SetText(target, Opened(c, tail), junk) == SetNumbers(target, ValueOf(c.hue), ValueOf(c.saturation), ValueOf(c.value))
  {
    hide Sscanf, Opened, ValueOf, SetNumbers, CString, WellFormed, AfterValue, Ended, Closes;
    EndedByClose(c.value, tail);
    ReadsFormat(c, tail);
    NoNulInFormat(c, tail);
    CStringWhole(Opened(c, tail));
  }

  // ---------------------------------------------------------------- any sequence of sets

  datatype Input = Numbers(h: real, s: real, v: real) | Written(text: string, junk: int)

  function Set(c: Color, input: Input): (Outcome, Color) {
    match input
    case Numbers(h, s, v) => SetNumbers(c, h, s, v)
    case Written(text, junk) => SetText(c, text, junk)
  }

  function SetAll(c: Color, inputs: seq<Input>): Color
    decreases |inputs|
  {
    if inputs == [] then c else SetAll(Set(c, inputs[0]).1, inputs[1..])
  }

  /** Whatever is set, successfully or not, every channel that has a value has one in its range. */
  lemma {:induction false} RangesKept(c: Color, inputs: seq<Input>)
    requires Ok(c)
    ensures Ok(SetAll(c, inputs))
    ensures Full(c) ==> Full(SetAll(c, inputs))
    decreases |inputs|
  {
    hide Sscanf, CString;
    if inputs != [] {
      RangesKept(Set(c, inputs[0]).1, inputs[1..]);
    }
  }

  /** A text that is refused changes nothing; a number out of range still lets the channels before it change. */
  lemma Failures(c: Color, input: Input)
    ensures Set(c, input).0 == ColorInputString ==> Set(c, input).1 == c
    ensures Set(c, input).0 == ColorInputRange ==> Set(c, input).1.value == c.value
  {
    hide Sscanf, CString;
  }

  lemma FitsHasNoNul(text: string)
    requires Fits(text)
    ensures '\0' !in text
  {
    hide WellSpelled, Closes, Opened;
    var c, tail :| WellSpelled(c) && Closes(tail, "") && text == Opened(c, tail);
    NoNulInFormat(c, tail);
  }

  /**
    A text is taken apart exactly when it fits the format, except one that ends early, up to its first NUL,
    while the unassigned `used` happens to hold its length.
   */
  lemma AcceptsExactly(c: Color, text: string, junk: int)
    ensures (SetText(c, text, junk).0 != ColorInputString <==> Fits(text)) <==> !(EndsEarly(CString(text)) && junk == |text|)
  {
    hide Sscanf, CString, Fits, EndsEarly, SetNumbers;
    FitsExactly(CString(text));
    FitsExactly(text);
    CStringWhole(text);
    OutcomeOfNumbers(c);
    if Fits(text) {
      FitsHasNoNul(text);
    }
    assert |CString(text)| == |text| ==> CString(text) == text;
  }

  lemma OutcomeOfNumbers(c: Color)
    ensures forall h, s, v :: SetNumbers(c, h, s, v).0 != ColorInputString
  {
  }

  /** Such a text is taken: without its last percent sign, the colour is set when `used` happens to be 13, and refused otherwise. */
  lemma TakenByChance(c: Color, junk: int)
    ensures var text := "hsv(1, 2%, 3)";
      && !Fits(text)
      && SetText(c, text, junk) == (if junk == 13 then (Done, Color(Some(1.0), Some(2.0), Some(3.0))) else (ColorInputString, c))
  {
    hide Sscanf, CString, Fits, AfterValue, Opened;
    var text := "hsv(1, 2%, 3)";
    var spelling := Spelling(Whole("", '1'), ", ", Whole("", '2'), "%", Whole(" ", '3'));
    WholeSpelled("", '1');
    WholeSpelled("", '2');
    WholeSpelled(" ", '3');
    ByChanceOpened(spelling, text);
    ReadsOpened(spelling, ")");
    CountsNone();
    FitsExactly(text);
    CStringWhole(text);
  }

  /** Two of the texts the repository's own tests expect to be taken: a leading point, and spaces wherever they may be. */
  lemma TestedTexts(c: Color, junk: int)
    ensures SetText(c, "hsv( 100 , .2%, 3%)", junk) == (Done, Color(Some(100.0), Some(0.2), Some(3.0)))
    ensures SetText(c, "hsv(  1 ,  2%, 3 % )", junk) == (Done, Color(Some(1.0), Some(2.0), Some(3.0)))
  {
    LeadingPoint(c, junk);
    ManySpaces(c, junk);
  }

  lemma LeadingPoint(c: Color, junk: int)
    ensures SetText(c, "hsv( 100 , .2%, 3%)", junk) == (Done, Color(Some(100.0), Some(0.2), Some(3.0)))
  {
    hide SetText, Spelled, WellFormed, ValueOf, Closes;
    var hundred, fifth := Numeral(" ", "", "100", false, "", None), Numeral("", "", "", true, "2", None);
    SpelledHundred(hundred);
    SpelledFifth(fifth);
    WholeSpelled(" ", '3');
    var spelling := Spelling(hundred, " , ", fifth, "%", Whole(" ", '3'));
    CloseIs("%", "%)");
    assert Opened(spelling, "%)") == "hsv( 100 , .2%, 3%)";
    SetSpelled(c, spelling, "%)", junk);
  }

  lemma ManySpaces(c: Color, junk: int)
    ensures SetText(c, "hsv(  1 ,  2%, 3 % )", junk) == (Done, Color(Some(1.0), Some(2.0), Some(3.0)))
  {
    hide SetText, Spelled, WellFormed, ValueOf, Closes;
    WholeSpelled("  ", '1');
    WholeSpelled(" ", '2');
    WholeSpelled(" ", '3');
    var spelling := Spelling(Whole("  ", '1'), " , ", Whole(" ", '2'), "%", Whole(" ", '3'));
    CloseIs(" % ", " % )");
    assert Opened(spelling, " % )") == "hsv(  1 ,  2%, 3 % )";
    SetSpelled(c, spelling, " % )", junk);
  }

  lemma CloseIs(percents: string, tail: string)
    requires Made(percents, PERCENTS) && tail == percents + ")"
    ensures Closes(tail, "")
  {
    assert tail == percents + (")" + "");
  }

  lemma SpelledHundred(n: Numeral)
    requires n == Numeral(" ", "", "100", false, "", None)
    ensures WellFormed(n) && Spelled(n) == " 100" && ValueOf(n) == 100.0
  {
    assert "100"[..2] == "10" && "10"[..1] == "1" && "1"[..0] == "";
    assert DigitsValue("1") == 1 && DigitsValue("10") == 10 && DigitsValue("100") == 100;
    NoPlaces();
    assert Body(n) == "100";
  }

  lemma SpelledFifth(n: Numeral)
    requires n == Numeral("", "", "", true, "2", None)
    ensures WellFormed(n) && Spelled(n) == ".2" && ValueOf(n) == 0.2
  {
    assert "2"[..0] == "";
    assert DigitsValue("2") == 2 && Power10(0) == 1 && Power10(1) == 10;
    assert Body(n) == ".2";
  }

  function Whole(spaces: string, digit: char): Numeral {
    Numeral(spaces, "", [digit], false, "", None)
  }

  lemma WholeSpelled(spaces: string, digit: char)
    requires AllSpaces(spaces) && IsDigit(digit)
    ensures var n := Whole(spaces, digit);
      WellFormed(n) && Ended(n, ")") && Spelled(n) == spaces + [digit] && ValueOf(n) == DigitValue(digit) as real
  {
    NoPlaces();
    assert [digit][..0] == "";
    assert Body(Whole(spaces, digit)) == [digit];
  }

  lemma ByChanceOpened(c: Spelling, text: string)
    requires text == "hsv(1, 2%, 3)" && c.separators == ", " && c.percents == "%"
    requires Spelled(c.hue) == "1" && Spelled(c.saturation) == "2" && Spelled(c.value) == " 3"
    ensures Opened(c, ")") == text
  {
  }

  lemma CountsNone()
    ensures forall h, sat, v :: AfterValue(h, sat, v, ")") == Scanned([h, sat, v], None)
  {
    assert CountOf(")", PERCENTS) == 0;
  }

  // ---------------------------------------------------------------- the object

  const BUFFER_SIZE := 30

  /** What a buffer of that size holds of a text with its NUL. */
  function CutTo(text: string, size: nat): string
    requires size > 0
  {
    if |text| < size then text else text[..size - 1]
  }

  class HSVColor {
    var hue: Option<real>
    var saturation: Option<real>
    var value: Option<real>

    function State(): Color
      reads this
    {
      Color(hue, saturation, value)
    }

    predicate Valid()
      reads this
    {
      Ok(State())
    }

    /** The default constructor leaves the channels unset. */
    constructor ()
      ensures Valid() && State() == Color(None, None, None)
    {
      hue, saturation, value := None, None, None;
    }

    method SetChannels(h: real, s: real, v: real) returns (outcome: Outcome)
      requires Valid()
      modifies this
      ensures Valid() && (outcome, State()) == SetNumbers(old(State()), h, s, v)
      ensures outcome == if 0.0 <= h <= 360.0 && 0.0 <= s <= 100.0 && 0.0 <= v <= 100.0 then Done else ColorInputRange
      ensures hue == if 0.0 <= h <= 360.0 then Some(h) else old(hue)
      ensures saturation == if 0.0 <= h <= 360.0 && 0.0 <= s <= 100.0 then Some(s) else old(saturation)
      ensures value == if outcome == Done then Some(v) else old(value)
    {
      var inRange := ValidateRange(h, HUE_MAX);
      if !inRange {
        return ColorInputRange;
      }
      hue := Some(h);
      inRange := ValidateRange(s, PERCENT_MAX);
      if !inRange {
        return ColorInputRange;
      }
      saturation := Some(s);
      inRange := ValidateRange(v, PERCENT_MAX);
      if !inRange {
        return ColorInputRange;
      }
      value := Some(v);
      return Done;
    }

    method ValidateRange(x: real, max: int) returns (ok: bool)
      ensures ok <==> 0.0 <= x <= max as real
    {
      if x < 0.0 {
        return false;
      }
      if x > max as real {
        return false;
      }
      return true;
    }

    method SetFromText(text: string, junk: int) returns (outcome: Outcome)
      requires Valid()
      modifies this
      ensures Valid() && (outcome, State()) == SetText(old(State()), text, junk)
    {
      hide Sscanf, CString;
      var scanned := Sscanf(CString(text));
      var used := junk;
      if scanned.rest.Some? {
        used := |CString(text)| - |scanned.rest.value|;
      }
      if |scanned.numbers| == 3 && used == |text| {
        outcome := SetChannels(scanned.numbers[0], scanned.numbers[1], scanned.numbers[2]);
      } else {
        outcome := ColorInputString;
      }
    }

    /** Nothing is cut off by the size of the buffer. */
    method Str() returns (text: string)
      requires Valid() && Full(State())
      ensures text == Formatted(State())
    {
      hide Text, Tenths, Fixed1;
      FitsBuffer(State());
      TenthsInRange(hue.value, HUE_MAX);
      TenthsInRange(saturation.value, PERCENT_MAX);
      TenthsInRange(value.value, PERCENT_MAX);
      text := Text(Tenths(hue.value), Tenths(saturation.value), Tenths(value.value));
      text := CutTo(text, BUFFER_SIZE);
    }
  }
}
