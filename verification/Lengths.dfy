/** One `m:ss.mmm` length, read and printed. */
module Lengths {
  import opened Wrappers
  import opened Text

  /** What the reader makes of a text; `Panic` where it aborts. */
  datatype Outcome<T> = Value(value: T) | Malformed | Panic

  const U64_LIMIT := 0x1_0000_0000_0000_0000

  /** Seconds a duration cannot hold. */
  const TOO_LONG: real := U64_LIMIT as real

  function InSeconds(ms: nat): real {
    ms as real / 1000.0
  }

  /** A length in milliseconds that a duration can hold. */
  predicate Holdable(ms: nat) {
    ms < 1000 * U64_LIMIT
  }

  // ---- Numbers ----

  predicate IsDigit(c: char) {
    '0' <= c <= '9'
  }

  predicate AreDigits(s: string) {
    forall i :: 0 <= i < |s| ==> IsDigit(s[i])
  }

  function DigitsValue(s: string): nat
    requires AreDigits(s)
  {
    if s == "" then 0 else 10 * DigitsValue(s[..|s| - 1]) + (s[|s| - 1] - '0') as nat
  }

  function WithoutPlus(s: string): string {
    if s != "" && s[0] == '+' then s[1..] else s
  }

  /** A 64-bit unsigned number; a plus sign is let through. */
  function ParseNat(s: string): Option<nat> {
    var digits := WithoutPlus(s);
    if digits == "" || !AreDigits(digits) || DigitsValue(digits) >= U64_LIMIT then None
    else Some(DigitsValue(digits))
  }

  /** `x` with its point moved `e` places to the right. */
  function Moved(x: real, e: int): real
    decreases if e < 0 then -e else e
  {
    if e == 0 then x else if e > 0 then 10.0 * Moved(x, e - 1) else Moved(x, e + 1) / 10.0
  }

  /** What is before and after the first `e` or `E`. */
  function SplitExponent(s: string): (string, Option<string>) {
    if s == "" then ("", None)
    else if s[0] == 'e' || s[0] == 'E' then ("", Some(s[1..]))
    else
      var (mantissa, exponent) := SplitExponent(s[1..]);
      ([s[0]] + mantissa, exponent)
  }

  function Signed(s: string): (bool, string) {
    if s != "" && (s[0] == '-' || s[0] == '+') then (s[0] == '-', s[1..]) else (false, s)
  }

  function ParseExponent(s: Option<string>): Option<int> {
    match s
    case None => Some(0)
    case Some(text) =>
      var (negative, digits) := Signed(text);
      if digits == "" || !AreDigits(digits) then None
      else
        var n: int := DigitsValue(digits);
        Some(if negative then -n else n)
  }

  /** The digits before and after the point. */
  function Mantissa(s: string): (string, string) {
    match SplitOnce(s, '.')
    case Some((whole, fraction)) => (whole, fraction)
    case None => (s, "")
  }

  /** A number without its sign. */
  function Unsigned(body: string): Option<real> {
    var (mantissa, exponent) := SplitExponent(body);
    var (whole, fraction) := Mantissa(mantissa);
    Combined(whole + fraction, |fraction|, ParseExponent(exponent))
  }

  /** The digits as a number, `places` of them behind the point. */
  function Combined(digits: string, places: nat, exponent: Option<int>): Option<real> {
    if !AreDigits(digits) || digits == "" then None
    else match exponent
      case None => None
      case Some(e) => Some(Moved(DigitsValue(digits) as real, e - places))
  }

  /** A finite decimal number, in any form a float is read in. */
  function ParseDecimal(s: string): Option<real> {
    var (negative, body) := Signed(s);
    match Unsigned(body)
    case None => None
    case Some(magnitude) => Some(if negative then -magnitude else magnitude)
  }

  /** Minutes carry no leading zero. */
  function ParseMinutes(minutes: string): Option<nat> {
    if minutes == "" || (|minutes| > 1 && minutes[0] == '0') then None else ParseNat(minutes)
  }

  /** What a duration makes of minutes and seconds. */
  function Held(minutes: nat, seconds: real): Outcome<real> {
    var total := minutes as real * 60.0 + seconds;
    if !(0.0 <= seconds < 60.0) then Malformed else if total >= TOO_LONG then Panic else Value(total)
  }

  /** Seconds, from `m:ss`. */
  function ParseDuration(token: string): Outcome<real> {
    match SplitOnce(token, ':')
    case None => Malformed
    case Some((minutes, seconds)) =>
      match ParseMinutes(minutes)
      case None => Malformed
      case Some(m) =>
        match ParseDecimal(seconds)
        case None => Malformed
        case Some(s) => Held(m, s)
  }

  // ---- Which lengths abort the reader ----

  /** The minutes are written without a leading zero, or behind a plus sign, and are a
      64-bit number. */
  ghost predicate SpellsMinutes(text: string, m: nat) {
    && m < U64_LIMIT
    && (text == PrintNat(m)
        || (|text| > 1 && text[0] == '+' && AreDigits(text[1..]) && DigitsValue(text[1..]) == m))
  }

  ghost predicate SpelledAs(token: string, minutes: string, n: Numeral, m: nat, s: real) {
    SpellsMinutes(minutes, m) && IsNumeral(n) && Worth(n) == s && token == minutes + ":" + Spelled(n)
  }

  /** The token is of the form `m:ss`, with `ss` worth less than a minute. */
  ghost predicate Spells(token: string, m: nat, s: real) {
    0.0 <= s < 60.0 && exists minutes, n :: SpelledAs(token, minutes, n, m, s)
  }

  const MOST_MINUTES := 307_445_734_561_825_860

  /** Together 2^64 seconds or more. */
  predicate TooLong(m: nat, s: real) {
    m > MOST_MINUTES || (m == MOST_MINUTES && s >= 16.0)
  }

  ghost predicate Reads(token: string) {
    exists m, s :: Spells(token, m, s) && !TooLong(m, s)
  }

  ghost predicate Overflows(token: string) {
    exists m, s :: Spells(token, m, s) && TooLong(m, s)
  }

  lemma HeldOrNot(m: nat, s: real)
    requires 0.0 <= s < 60.0
    ensures Held(m, s) == if TooLong(m, s) then Panic else Value(m as real * 60.0 + s)
  {
    if m < MOST_MINUTES {
      assert m as real <= MOST_MINUTES as real - 1.0;
    } else if m > MOST_MINUTES {
      assert m as real >= MOST_MINUTES as real + 1.0;
    }
  }

  /** A token aborts the reader exactly when it is well formed and too long, and
      reads exactly when it is well formed and not: as what it spells. */
  lemma TokenReads(token: string)
    ensures ParseDuration(token) == Panic <==> Overflows(token)
    ensures ParseDuration(token).Value? <==> Reads(token)
    ensures forall m, s :: Spells(token, m, s) && !TooLong(m, s) ==>
      ParseDuration(token) == Value(m as real * 60.0 + s)
  {
    forall m, s | Spells(token, m, s)
      ensures ParseDuration(token) == if TooLong(m, s) then Panic else Value(m as real * 60.0 + s)
    {
      SpelledReads(token, m, s);
    }
    if ParseDuration(token) == Panic || ParseDuration(token).Value? {
      var m, s := SpellingOf(token);
    }
  }

  lemma SpelledReads(token: string, m: nat, s: real)
    requires Spells(token, m, s)
    ensures ParseDuration(token) == if TooLong(m, s) then Panic else Value(m as real * 60.0 + s)
  {
    var minutes, n :| SpelledAs(token, minutes, n, m, s);
    MinutesExactly(minutes, m);
    NoColon(minutes, m);
    NumeralReads(n);
    DurationOf(minutes, Spelled(n), s);
    HeldOrNot(m, s);
  }

  lemma NoColon(minutes: string, m: nat)
    requires SpellsMinutes(minutes, m)
    ensures ':' !in minutes
  {
    PrintedNat(m);
    if minutes != PrintNat(m) {
      assert minutes == [minutes[0]] + minutes[1..];
    }
  }

  lemma SpellingOf(token: string) returns (m: nat, s: real)
    requires ParseDuration(token) == Panic || ParseDuration(token).Value?
    ensures Spells(token, m, s)
  {
    var (minutes, seconds) := SplitOnce(token, ':').value;
    m, s := ParseMinutes(minutes).value, ParseDecimal(seconds).value;
    MinutesExactly(minutes, m);
    var n := NumeralOf(seconds);
    NumeralReads(n);
    assert SpelledAs(token, minutes, n, m, s);
  }

  // ---- Every form of a number ----

  /** A decimal number as it may be written: whole and fractional digits, not both none,
      with signs, a point and a power of ten left out or not. */
  datatype Numeral = Numeral(sign: string, whole: string, point: bool, fraction: string, power: Option<Power>)

  datatype Power = Power(letter: char, sign: string, digits: string)

  predicate IsSign(s: string) {
    s == "" || s == "+" || s == "-"
  }

  predicate IsPower(p: Power) {
    (p.letter == 'e' || p.letter == 'E') && IsSign(p.sign) && p.digits != "" && AreDigits(p.digits)
  }

  predicate IsNumeral(n: Numeral) {
    && IsSign(n.sign) && AreDigits(n.whole) && AreDigits(n.fraction)
    && n.whole + n.fraction != "" && (n.fraction != "" ==> n.point)
    && (n.power.Some? ==> IsPower(n.power.value))
  }

  function SpelledMantissa(n: Numeral): string {
    n.whole + if n.point then "." + n.fraction else ""
  }

  function SpelledPower(power: Option<Power>): string {
    match power
    case None => ""
    case Some(p) => [p.letter] + (p.sign + p.digits)
  }

  function Spelled(n: Numeral): string {
    n.sign + (SpelledMantissa(n) + SpelledPower(n.power))
  }

  /** What the digits are worth, each in its place. */
  function Plain(whole: string, fraction: string): real
    requires AreDigits(whole) && AreDigits(fraction)
  {
    DigitsValue(whole) as real + Moved(DigitsValue(fraction) as real, -|fraction|)
  }

  function Worth(n: Numeral): real
    requires IsNumeral(n)
  {
    var value := Moved(Plain(n.whole, n.fraction), Exponent(n.power));
    if n.sign == "-" then -value else value
  }

  /** Every number reads as what it is worth. */
  lemma NumeralReads(n: Numeral)
    requires IsNumeral(n)
    ensures ParseDecimal(Spelled(n)) == Some(Worth(n))
  {
    var body := SpelledMantissa(n) + SpelledPower(n.power);
    StartsWithoutSign(n, body);
    SignedApart(n.sign, body);
    BodyReads(n, body);
    SignReads(Spelled(n), n.sign == "-", body, Moved(Plain(n.whole, n.fraction), Exponent(n.power)));
  }

  lemma SignReads(s: string, negative: bool, body: string, value: real)
    requires Signed(s) == (negative, body) && Unsigned(body) == Some(value)
    ensures ParseDecimal(s) == Some(if negative then -value else value)
  {
  }

  lemma BodyReads(n: Numeral, body: string)
    requires IsNumeral(n) && body == SpelledMantissa(n) + SpelledPower(n.power)
    ensures Unsigned(body) == Some(Moved(Plain(n.whole, n.fraction), Exponent(n.power)))
  {
    var digits, e := n.whole + n.fraction, Exponent(n.power);
    SplitPower(n);
    MantissaApart(n);
    PowerReads(n.power);
    PartsRead(body, SpelledMantissa(n), PowerText(n.power), n.whole, n.fraction, digits);
    DigitsMoved(n.whole, n.fraction, digits, e);
    DigitsCombined(digits, |n.fraction|, e, Moved(Plain(n.whole, n.fraction), e));
  }

  lemma DigitsCombined(digits: string, places: nat, e: int, value: real)
    requires AreDigits(digits) && digits != "" && Moved(DigitsValue(digits) as real, e - places) == value
    ensures Combined(digits, places, Some(e)) == Some(value)
  {
  }

  lemma PartsRead(body: string, mantissa: string, exponent: Option<string>, whole: string, fraction: string,
                  digits: string)
    requires SplitExponent(body) == (mantissa, exponent) && Mantissa(mantissa) == (whole, fraction)
    requires digits == whole + fraction
    ensures Unsigned(body) == Combined(digits, |fraction|, ParseExponent(exponent))
  {
  }

  lemma StartsWithoutSign(n: Numeral, body: string)
    requires IsNumeral(n) && body == SpelledMantissa(n) + SpelledPower(n.power)
    ensures body != "" && body[0] != '+' && body[0] != '-'
  {
    assert body[0] == SpelledMantissa(n)[0];
  }

  function PowerText(power: Option<Power>): Option<string> {
    match power
    case None => None
    case Some(p) => Some(p.sign + p.digits)
  }

  lemma SignedApart(sign: string, rest: string)
    requires IsSign(sign) && rest != "" && rest[0] != '+' && rest[0] != '-'
    ensures Signed(sign + rest) == (sign == "-", rest)
  {
    if sign == "" {
      assert sign + rest == rest;
    } else {
      assert (sign + rest)[0] == sign[0] && (sign + rest)[1..] == rest;
    }
  }

  lemma SplitPower(n: Numeral)
    requires IsNumeral(n)
    ensures SplitExponent(SpelledMantissa(n) + SpelledPower(n.power))
         == (SpelledMantissa(n), PowerText(n.power))
  {
    var mantissa := SpelledMantissa(n);
    match n.power
    case None =>
      assert mantissa + "" == mantissa;
      NoExponent(mantissa);
    case Some(p) =>
      ExponentApart(mantissa, p.letter, p.sign + p.digits);
  }

  lemma {:induction false} ExponentApart(mantissa: string, letter: char, rest: string)
    requires letter == 'e' || letter == 'E'
    requires forall i :: 0 <= i < |mantissa| ==> mantissa[i] != 'e' && mantissa[i] != 'E'
    ensures SplitExponent(mantissa + ([letter] + rest)) == (mantissa, Some(rest))
  {
    var s := mantissa + ([letter] + rest);
    if mantissa == "" {
      assert s[0] == letter && s[1..] == rest;
    } else {
      assert s[0] == mantissa[0] && s[1..] == mantissa[1..] + ([letter] + rest);
      ExponentApart(mantissa[1..], letter, rest);
      assert [mantissa[0]] + mantissa[1..] == mantissa;
    }
  }

  lemma MantissaApart(n: Numeral)
    requires IsNumeral(n)
    ensures Mantissa(SpelledMantissa(n)) == (n.whole, n.fraction)
  {
    assert '.' !in n.whole;
    if n.point {
      assert SpelledMantissa(n) == n.whole + "." + n.fraction;
      SplitOnceIsUnique(n.whole, '.', n.fraction);
    } else {
      assert SpelledMantissa(n) == n.whole;
      assert SplitOnce(n.whole, '.') == None;
    }
  }

  lemma PowerReads(power: Option<Power>)
    requires power.Some? ==> IsPower(power.value)
    ensures ParseExponent(PowerText(power)) == Some(Exponent(power))
  {
    match power
    case None =>
    case Some(p) => SignedApart(p.sign, p.digits);
  }

  function Exponent(power: Option<Power>): int
    requires power.Some? ==> IsPower(power.value)
  {
    match power
    case None => 0
    case Some(p) =>
      var n: int := DigitsValue(p.digits);
      if p.sign == "-" then -n else n
  }

  lemma DigitsMoved(whole: string, fraction: string, digits: string, e: int)
    requires AreDigits(whole) && AreDigits(fraction) && digits == whole + fraction
    ensures AreDigits(digits) && Moved(DigitsValue(digits) as real, e - |fraction|) == Moved(Plain(whole, fraction), e)
  {
    var w, f, k := DigitsValue(whole) as real, DigitsValue(fraction) as real, |fraction|;
    DigitsConcat(whole, fraction);
    MovedSum(Moved(w, k), f, -k);
    MovedTwice(w, k, -k);
    MovedTwice(DigitsValue(digits) as real, -k, e);
  }

  lemma {:induction false} DigitsConcat(a: string, b: string)
    requires AreDigits(a) && AreDigits(b) && AreDigits(a + b)
    ensures DigitsValue(a + b) as real == Moved(DigitsValue(a) as real, |b|) + DigitsValue(b) as real
    decreases |b|
  {
    if b == "" {
      assert a + b == a;
    } else {
      var front := b[..|b| - 1];
      assert (a + b)[..|a + b| - 1] == a + front && (a + b)[|a + b| - 1] == b[|b| - 1];
      DigitsConcat(a, front);
    }
  }

  lemma {:induction false} MovedTwice(x: real, a: int, b: int)
    ensures Moved(Moved(x, a), b) == Moved(x, a + b)
    decreases if b < 0 then -b else b
  {
    if b > 0 {
      MovedTwice(x, a, b - 1);
    } else if b < 0 {
      MovedTwice(x, a, b + 1);
    }
  }

  /** Ten times for each place to the right, */
  lemma {:induction false} MovedRight(x: real, k: nat)
    ensures Moved(x, k) == x * Pow10(k)
  {
    if k > 0 {
      MovedRight(x, k - 1);
      TenTimes(x, Pow10(k - 1), Moved(x, k - 1), Pow10(k));
    }
  }

  /** and a tenth for each to the left. */
  lemma {:induction false} MovedLeft(x: real, k: nat)
    ensures Moved(x, -(k as int)) == x / Pow10(k)
  {
    if k > 0 {
      MovedLeft(x, k - 1);
      OverTen(x, Pow10(k - 1), Moved(x, -(k as int) + 1), Pow10(k));
    }
  }

  function Pow10(k: nat): (p: real)
    ensures p > 0.0
  {
    if k == 0 then 1.0 else 10.0 * Pow10(k - 1)
  }

  lemma TenTimes(x: real, p: real, y: real, p': real)
    requires y == x * p && p' == 10.0 * p
    ensures 10.0 * y == x * p'
  {
  }

  lemma OverTen(x: real, p: real, y: real, p': real)
    requires p > 0.0 && y == x / p && p' == 10.0 * p
    ensures y / 10.0 == x / p'
  {
    assert y * p == x;
    assert y / 10.0 * p' == x;
  }

  lemma {:induction false} MovedSum(x: real, y: real, e: int)
    ensures Moved(x + y, e) == Moved(x, e) + Moved(y, e)
    decreases if e < 0 then -e else e
  {
    if e > 0 {
      MovedSum(x, y, e - 1);
    } else if e < 0 {
      MovedSum(x, y, e + 1);
    }
  }

  lemma {:induction false} MovedMonotone(x: real, y: real, e: int)
    requires x < y
    ensures Moved(x, e) < Moved(y, e)
    decreases if e < 0 then -e else e
  {
    if e > 0 {
      MovedMonotone(x, y, e - 1);
    } else if e < 0 {
      MovedMonotone(x, y, e + 1);
    }
  }

  /** And nothing else reads. */
  lemma NumeralOf(s: string) returns (n: Numeral)
    requires ParseDecimal(s).Some?
    ensures IsNumeral(n) && Spelled(n) == s
  {
    var (_, body) := Signed(s);
    var (mantissa, exponent) := SplitExponent(body);
    var (whole, fraction) := Mantissa(mantissa);
    var sign := SignOf(s);
    var power := PowerOf(body);
    n := Numeral(sign, whole, SplitOnce(mantissa, '.').Some?, fraction, power);
    DigitsApart(whole, fraction);
    MantissaTogether(mantissa);
  }

  lemma SignOf(s: string) returns (sign: string)
    ensures IsSign(sign) && s == sign + Signed(s).1
  {
    sign := if s != "" && (s[0] == '-' || s[0] == '+') then [s[0]] else "";
  }

  lemma MantissaTogether(mantissa: string)
    ensures var (whole, fraction) := Mantissa(mantissa);
      mantissa == whole + if SplitOnce(mantissa, '.').Some? then "." + fraction else ""
  {
  }

  lemma PowerOf(body: string) returns (power: Option<Power>)
    requires ParseExponent(SplitExponent(body).1).Some?
    ensures power.Some? ==> IsPower(power.value)
    ensures body == SplitExponent(body).0 + SpelledPower(power)
  {
    power := None;
    var letter := LetterOf(body);
    var exponent := SplitExponent(body).1;
    if exponent.Some? {
      var sign := SignOf(exponent.value);
      power := Some(Power(letter, sign, Signed(exponent.value).1));
    }
  }

  lemma DigitsApart(a: string, b: string)
    requires AreDigits(a + b)
    ensures AreDigits(a) && AreDigits(b)
  {
    assert forall i :: 0 <= i < |a| ==> (a + b)[i] == a[i];
    assert forall i :: 0 <= i < |b| ==> (a + b)[|a| + i] == b[i];
  }

  lemma {:induction false} LetterOf(s: string) returns (letter: char)
    ensures var (mantissa, exponent) := SplitExponent(s);
      match exponent
      case None => s == mantissa
      case Some(rest) => (letter == 'e' || letter == 'E') && s == mantissa + ([letter] + rest)
  {
    if s == "" {
      letter := 'e';
    } else if s[0] == 'e' || s[0] == 'E' {
      letter := s[0];
    } else {
      letter := LetterOf(s[1..]);
      assert s == [s[0]] + s[1..];
    }
  }

  lemma MinutesExactly(text: string, m: nat)
    ensures ParseMinutes(text) == Some(m) <==> SpellsMinutes(text, m)
  {
    if text == PrintNat(m) {
      PrintedNat(m);
      assert IsDigit(text[0]);
    }
    if text != "" && text[0] != '+' && ParseMinutes(text) == Some(m) {
      PrintedBack(text);
    }
  }

  /** Digits without a leading zero are what their value prints as. */
  lemma {:induction false} PrintedBack(s: string)
    requires s != "" && AreDigits(s) && (|s| > 1 ==> s[0] != '0')
    ensures PrintNat(DigitsValue(s)) == s
    ensures s[0] != '0' ==> DigitsValue(s) > 0
  {
    var front, last := s[..|s| - 1], s[|s| - 1];
    if |s| == 1 {
      OneDigit(s);
    } else {
      PrintedBack(front);
      OneDigitMore(DigitsValue(front), (last - '0') as nat);
      LastDigit(s, front, (last - '0') as nat);
    }
  }

  lemma OneDigit(s: string)
    requires |s| == 1 && AreDigits(s)
    ensures DigitsValue(s) == (s[0] - '0') as nat && PrintNat(DigitsValue(s)) == s
  {
    assert s[..0] == "";
  }

  lemma LastDigit(s: string, front: string, d: nat)
    requires |s| > 1 && AreDigits(s) && front == s[..|s| - 1] && d == (s[|s| - 1] - '0') as nat
    ensures d < 10 && s == front + [Digit(d)] && DigitsValue(s) == 10 * DigitsValue(front) + d
  {
  }

  lemma OneDigitMore(n: nat, d: nat)
    requires n > 0 && d < 10
    ensures PrintNat(10 * n + d) == PrintNat(n) + [Digit(d)]
  {
    assert (10 * n + d) / 10 == n && (10 * n + d) % 10 == d;
  }

  // ---- Printing ----

  function Digit(n: nat): (c: char)
    requires n < 10
    ensures IsDigit(c) && (c - '0') as nat == n
  {
    '0' + n as char
  }

  function PrintNat(n: nat): string {
    if n < 10 then [Digit(n)] else PrintNat(n / 10) + [Digit(n % 10)]
  }

  function TwoDigits(n: nat): string
    requires n < 100
  {
    [Digit(n / 10), Digit(n % 10)]
  }

  function ThreeDigits(n: nat): string
    requires n < 1000
  {
    TwoDigits(n / 10) + [Digit(n % 10)]
  }

  /** A length of the form `m:ss`, with or without a point and digits behind it. */
  datatype Length = Length(minutes: nat, seconds: string, point: bool, fraction: string)

  predicate IsLength(l: Length) {
    && AreDigits(l.seconds) && l.seconds != "" && DigitsValue(l.seconds) < 60
    && AreDigits(l.fraction) && (l.fraction != "" ==> l.point)
  }

  function Print(l: Length): string {
    PrintNat(l.minutes) + ":" + PrintSeconds(l)
  }

  function PrintSeconds(l: Length): string {
    l.seconds + if l.point then "." + l.fraction else ""
  }

  /** Sixty for every minute, and every digit in its place. */
  function Lasts(l: Length): real
    requires IsLength(l)
  {
    l.minutes as real * 60.0 + Plain(l.seconds, l.fraction)
  }

  /** A duration can hold it. */
  predicate Fits(l: Length)
    requires IsLength(l)
  {
    Lasts(l) < TOO_LONG
  }

  /** Every length reads back as what it lasts, if a duration can hold it; longer ones abort
      the reader, until even the minutes overflow. */
  lemma LengthReads(l: Length)
    requires IsLength(l)
    ensures ParseDuration(Print(l))
         == if l.minutes >= U64_LIMIT then Malformed else if Fits(l) then Value(Lasts(l)) else Panic
  {
    var s := SecondsAre(l);
    MinutesAre(l, s);
  }

  lemma SecondsAre(l: Length) returns (s: real)
    requires IsLength(l)
    ensures 0.0 <= s < 60.0 && ParseDecimal(PrintSeconds(l)) == Some(s) && Lasts(l) == l.minutes as real * 60.0 + s
  {
    s := Plain(l.seconds, l.fraction);
    SecondsRead(l);
    LessThanAMinute(l);
  }

  lemma MinutesAre(l: Length, s: real)
    requires 0.0 <= s < 60.0 && ParseDecimal(PrintSeconds(l)) == Some(s)
    ensures ParseDuration(Print(l))
         == if l.minutes >= U64_LIMIT then Malformed
            else if l.minutes as real * 60.0 + s < TOO_LONG then Value(l.minutes as real * 60.0 + s)
            else Panic
  {
    PrintedMinutes(l.minutes);
    LengthOf(PrintNat(l.minutes), l.minutes, PrintSeconds(l), s);
  }

  lemma LengthOf(minutes: string, m: nat, seconds: string, s: real)
    requires ':' !in minutes && ParseMinutes(minutes) == (if m >= U64_LIMIT then None else Some(m))
    requires ParseDecimal(seconds) == Some(s) && 0.0 <= s < 60.0
    ensures ParseDuration(minutes + ":" + seconds)
         == if m >= U64_LIMIT then Malformed
            else if m as real * 60.0 + s < TOO_LONG then Value(m as real * 60.0 + s)
            else Panic
  {
    DurationOf(minutes, seconds, s);
  }

  lemma SecondsRead(l: Length)
    requires IsLength(l)
    ensures ParseDecimal(PrintSeconds(l)) == Some(Plain(l.seconds, l.fraction))
  {
    var n := Numeral("", l.seconds, l.point, l.fraction, None);
    NumeralReads(n);
    assert Spelled(n) == PrintSeconds(l);
  }

  lemma LessThanAMinute(l: Length)
    requires IsLength(l)
    ensures 0.0 <= Plain(l.seconds, l.fraction) < 60.0
  {
    LessThanOne(l.fraction);
    WholeSeconds(DigitsValue(l.seconds));
  }

  lemma WholeSeconds(s: nat)
    requires s < 60
    ensures 0.0 <= s as real <= 59.0
  {
  }

  lemma LessThanOne(fraction: string)
    requires AreDigits(fraction)
    ensures 0.0 <= Moved(DigitsValue(fraction) as real, -|fraction|) < 1.0
  {
    DigitsBelow(fraction);
    MovedTwice(1.0, |fraction|, -|fraction|);
    MovedMonotone(DigitsValue(fraction) as real, Moved(1.0, |fraction|), -|fraction|);
    MovedZero(-|fraction|);
    if DigitsValue(fraction) > 0 {
      MovedMonotone(0.0, DigitsValue(fraction) as real, -|fraction|);
    }
  }

  lemma {:induction false} MovedZero(e: int)
    ensures Moved(0.0, e) == 0.0
    decreases if e < 0 then -e else e
  {
    if e > 0 {
      MovedZero(e - 1);
    } else if e < 0 {
      MovedZero(e + 1);
    }
  }

  lemma {:induction false} DigitsBelow(s: string)
    requires AreDigits(s)
    ensures DigitsValue(s) as real <= Moved(1.0, |s|) - 1.0
  {
    if s != "" {
      DigitsBelow(s[..|s| - 1]);
    }
  }

  /** Whole milliseconds, as `m:ss.mmm`. */
  function Milliseconds(ms: nat): Length {
    Length(ms / 60_000, TwoDigits(ms / 1000 % 60), true, ThreeDigits(ms % 1000))
  }

  lemma DigitAppended(s: string, n: nat)
    requires AreDigits(s) && n < 10
    ensures AreDigits(s + [Digit(n)]) && DigitsValue(s + [Digit(n)]) == 10 * DigitsValue(s) + n
  {
    var t := s + [Digit(n)];
    assert t[..|t| - 1] == s;
  }

  lemma {:induction false} PrintedNat(n: nat)
    ensures AreDigits(PrintNat(n)) && DigitsValue(PrintNat(n)) == n
    ensures PrintNat(n) != "" && (|PrintNat(n)| > 1 ==> PrintNat(n)[0] != '0')
    ensures n > 0 ==> PrintNat(n)[0] != '0'
  {
    if n < 10 {
      DigitAppended("", n);
      assert "" + [Digit(n)] == PrintNat(n);
    } else {
      PrintedNat(n / 10);
      DigitAppended(PrintNat(n / 10), n % 10);
    }
  }

  lemma TwoAreDigits(n: nat)
    requires n < 100
    ensures AreDigits(TwoDigits(n)) && DigitsValue(TwoDigits(n)) == n
  {
    var one := "" + [Digit(n / 10)];
    DigitAppended("", n / 10);
    DigitAppended(one, n % 10);
    assert one + [Digit(n % 10)] == TwoDigits(n);
  }

  lemma ThreeAreDigits(n: nat)
    requires n < 1000
    ensures AreDigits(ThreeDigits(n)) && DigitsValue(ThreeDigits(n)) == n
  {
    TwoAreDigits(n / 10);
    DigitAppended(TwoDigits(n / 10), n % 10);
    assert TwoDigits(n / 10) + [Digit(n % 10)] == ThreeDigits(n);
  }

  lemma {:induction false} NoExponent(s: string)
    requires forall i :: 0 <= i < |s| ==> s[i] != 'e' && s[i] != 'E'
    ensures SplitExponent(s) == (s, None)
  {
    if s == "" {
    } else {
      NoExponent(s[1..]);
      assert s == [s[0]] + s[1..];
    }
  }

  lemma Thousandths(n: nat)
    ensures Moved(n as real, -3) == n as real / 1000.0
  {
    assert Moved(n as real, -1) == n as real / 10.0 && Moved(n as real, -2) == n as real / 100.0;
  }

  lemma MinutesAndSeconds(ms: nat)
    ensures var m, s, rest := ms / 60_000, ms / 1000 % 60, ms % 1000;
      m as real * 60.0 + (s as real + rest as real / 1000.0) == ms as real / 1000.0
  {
    var m, s, rest := ms / 60_000, ms / 1000 % 60, ms % 1000;
    assert ms == 60_000 * m + 1000 * s + rest;
  }

  lemma MillisecondsLast(ms: nat)
    ensures IsLength(Milliseconds(ms)) && Lasts(Milliseconds(ms)) == InSeconds(ms)
  {
    TwoAreDigits(ms / 1000 % 60);
    ThreeAreDigits(ms % 1000);
    Thousandths(ms % 1000);
    MinutesAndSeconds(ms);
  }

  /** Reading a printed number of milliseconds gives it back, if a duration can hold it;
      longer ones abort the reader, until even the minutes overflow. */
  lemma PrintedLengthReads(ms: nat)
    ensures ParseDuration(Print(Milliseconds(ms)))
         == if ms / 60_000 >= U64_LIMIT then Malformed
            else if Holdable(ms) then Value(InSeconds(ms))
            else Panic
  {
    MillisecondsLast(ms);
    LengthReads(Milliseconds(ms));
    Bound(ms);
  }

  lemma DurationOf(minutes: string, seconds: string, s: real)
    requires ':' !in minutes && ParseDecimal(seconds) == Some(s)
    ensures ParseDuration(minutes + ":" + seconds)
         == match ParseMinutes(minutes)
            case None => Malformed
            case Some(m) => Held(m, s)
  {
    SplitOnceIsUnique(minutes, ':', seconds);
  }

  lemma PrintedMinutes(m: nat)
    ensures ParseMinutes(PrintNat(m)) == (if m >= U64_LIMIT then None else Some(m)) && ':' !in PrintNat(m)
  {
    PrintedNat(m);
    assert IsDigit(PrintNat(m)[0]);
  }

  lemma Bound(ms: nat)
    ensures ms as real / 1000.0 >= TOO_LONG <==> !Holdable(ms)
  {
  }

  lemma PrintedLengthIsWord(l: Length)
    requires IsLength(l)
    ensures IsWord(Print(l)) && '\n' !in Print(l)
  {
    PrintedNat(l.minutes);
  }
}
