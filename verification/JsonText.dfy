/** UTF-16 text, and how `JSON.stringify` writes strings and numbers.

    JavaScript strings are sequences of 16-bit code units, and `sort()` compares
    them code unit by code unit, so text is modelled at that level: a lone
    surrogate is a text like any other.  Strings are quoted as section 7 of
    RFC 8259 and the well-formed `JSON.stringify` prescribe, numbers as
    `Number::toString` of ECMA-262 prescribes.  Each writer comes with a reader,
    and each reader is proved to return what was written. */
module JsonText {

  type Unit = u: int | 0 <= u < 0x10000
  type Text = seq<Unit>

  datatype Parsed<+T> = Fail | Ok(value: T, rest: Text)

  const NEWLINE: Unit := 0x0A
  const QUOTE: Unit := 0x22
  const PLUS: Unit := 0x2B
  const COMMA: Unit := 0x2C
  const MINUS: Unit := 0x2D
  const DOT: Unit := 0x2E
  const ZERO: Unit := 0x30
  const COLON: Unit := 0x3A
  const BACKSLASH: Unit := 0x5C
  const EXPONENT: Unit := 0x65

  predicate IsHighSurrogate(u: Unit) { 0xD800 <= u < 0xDC00 }
  predicate IsLowSurrogate(u: Unit) { 0xDC00 <= u < 0xE000 }

  /** No control characters: in particular no raw newline. */
  predicate Printable(t: Text) {
    forall i :: 0 <= i < |t| ==> t[i] >= 0x20
  }

  // ---------------------------------------------------------------- strings

  function HexDigit(d: nat): (u: Unit)
    requires d < 16
  {
    if d < 10 then ZERO + d else 0x61 + d - 10
  }

  function HexValue(u: Unit): int {
    if 0x30 <= u <= 0x39 then u - 0x30
    else if 0x61 <= u <= 0x66 then u - 0x61 + 10
    else if 0x41 <= u <= 0x46 then u - 0x41 + 10
    else -1
  }

  function Hex4(u: Unit): (t: Text) {
    [HexDigit(u / 0x1000), HexDigit(u / 0x100 % 16), HexDigit(u / 16 % 16), HexDigit(u % 16)]
  }

  /** The two-character escape of `u`, or 0 when it has none. */
  function ShortEscape(u: Unit): Unit {
    if u == 0x08 then 0x62
    else if u == 0x09 then 0x74
    else if u == 0x0A then 0x6E
    else if u == 0x0C then 0x66
    else if u == 0x0D then 0x72
    else if u == QUOTE || u == BACKSLASH then u
    else 0
  }

  function EscapeUnit(u: Unit): Text {
    if ShortEscape(u) != 0 then [BACKSLASH, ShortEscape(u)]
    else if u < 0x20 || IsHighSurrogate(u) || IsLowSurrogate(u) then [BACKSLASH, 0x75] + Hex4(u)
    else [u]
  }

  /** A surrogate pair is copied, a lone surrogate is escaped. */
  function Escape(s: Text): Text {
    if s == [] then []
    else if IsHighSurrogate(s[0]) && |s| >= 2 && IsLowSurrogate(s[1]) then [s[0], s[1]] + Escape(s[2..])
    else EscapeUnit(s[0]) + Escape(s[1..])
  }

  /** `JSON.stringify(s)` of a string */
  function Quote(s: Text): Text {
    [QUOTE] + Escape(s) + [QUOTE]
  }

  function Unescape(u: Unit): int {
    if u == 0x62 then 0x08
    else if u == 0x74 then 0x09
    else if u == 0x6E then 0x0A
    else if u == 0x66 then 0x0C
    else if u == 0x72 then 0x0D
    else if u == QUOTE || u == BACKSLASH || u == 0x2F then u
    else -1
  }

  /** Reads four hexadecimal digits. */
  function ReadHex4(t: Text): (r: Parsed<Unit>)
    ensures r.Ok? ==> |r.rest| < |t|
  {
    if |t| < 4 then Fail
    else if HexValue(t[0]) < 0 || HexValue(t[1]) < 0 || HexValue(t[2]) < 0 || HexValue(t[3]) < 0 then Fail
    else Ok(HexValue(t[0]) * 0x1000 + HexValue(t[1]) * 0x100 + HexValue(t[2]) * 16 + HexValue(t[3]), t[4..])
  }

  /** Reads one, possibly escaped, code unit of a string literal. */
  function ReadUnit(t: Text): (r: Parsed<Unit>)
    ensures r.Ok? ==> |r.rest| < |t|
  {
    if t == [] || t[0] == QUOTE then Fail
    else if t[0] != BACKSLASH then Ok(t[0], t[1..])
    else if |t| < 2 then Fail
    else if t[1] == 0x75 then ReadHex4(t[2..])
    else if Unescape(t[1]) >= 0 then Ok(Unescape(t[1]), t[2..])
    else Fail
  }

  /** Reads a string literal after its opening quote. */
  function ReadString(t: Text): (r: Parsed<Text>)
    ensures r.Ok? ==> |r.rest| < |t|
    decreases |t|
  {
    if t != [] && t[0] == QUOTE then Ok([], t[1..])
    else
      match ReadUnit(t)
      case Fail => Fail
      case Ok(u, rest) =>
        match ReadString(rest)
        case Fail => Fail
        case Ok(s, rest') => Ok([u] + s, rest')
  }

  lemma Hex4RoundTrip(u: Unit, rest: Text)
    ensures ReadHex4(Hex4(u) + rest) == Ok(u, rest)
  {
    hide HexDigit, HexValue;
    var t := Hex4(u) + rest;
    assert t[4..] == rest;
    assert t[0] == HexDigit(u / 0x1000) && t[1] == HexDigit(u / 0x100 % 16);
    assert t[2] == HexDigit(u / 16 % 16) && t[3] == HexDigit(u % 16);
    HexPlaces(u);
    HexDigitRoundTrip(u / 0x1000);
    HexDigitRoundTrip(u / 0x100 % 16);
    HexDigitRoundTrip(u / 16 % 16);
    HexDigitRoundTrip(u % 16);
  }

  lemma HexPlaces(u: Unit)
    ensures u / 0x1000 < 16
    ensures u / 0x1000 * 0x1000 + u / 0x100 % 16 * 0x100 + u / 16 % 16 * 16 + u % 16 == u
  {
  }

  lemma HexDigitRoundTrip(d: nat)
    requires d < 16
    ensures HexValue(HexDigit(d)) == d
  {
  }

  lemma UnitRoundTrip(u: Unit, rest: Text)
    ensures ReadUnit(EscapeUnit(u) + rest) == Ok(u, rest)
  {
    var t := EscapeUnit(u) + rest;
    if ShortEscape(u) != 0 {
      assert t[2..] == rest;
    } else if u < 0x20 || IsHighSurrogate(u) || IsLowSurrogate(u) {
      assert t[2..] == Hex4(u) + rest;
      Hex4RoundTrip(u, rest);
    } else {
      assert t[1..] == rest;
    }
  }

  lemma ReadStringStep(u: Unit, t: Text, rest: Text)
    requires ReadUnit(t) == Ok(u, rest)
    ensures ReadString(t) == match ReadString(rest) case Fail => Fail case Ok(s, r) => Ok([u] + s, r)
  {
  }

  lemma PlainUnit(u: Unit, t: Text)
    requires t != [] && t[0] == u && u != QUOTE && u != BACKSLASH
    ensures ReadUnit(t) == Ok(u, t[1..])
  {
  }

  lemma {:induction false} EscapeRoundTrip(s: Text, rest: Text)
    ensures ReadString(Escape(s) + [QUOTE] + rest) == Ok(s, rest)
    decreases |s|
  {
    hide ReadUnit, EscapeUnit;
    var t := Escape(s) + [QUOTE] + rest;
    if s == [] {
      assert t[1..] == rest;
    } else if IsHighSurrogate(s[0]) && |s| >= 2 && IsLowSurrogate(s[1]) {
      var tail := Escape(s[2..]) + [QUOTE] + rest;
      assert t == [s[0], s[1]] + tail;
      assert t[1..] == [s[1]] + tail;
      assert t[1..][1..] == tail;
      EscapeRoundTrip(s[2..], rest);
      PlainUnit(s[0], t);
      PlainUnit(s[1], t[1..]);
      ReadStringStep(s[0], t, t[1..]);
      ReadStringStep(s[1], t[1..], tail);
      assert [s[0]] + ([s[1]] + s[2..]) == s;
    } else {
      var tail := Escape(s[1..]) + [QUOTE] + rest;
      assert t == EscapeUnit(s[0]) + tail;
      UnitRoundTrip(s[0], tail);
      EscapeRoundTrip(s[1..], rest);
      ReadStringStep(s[0], t, tail);
      assert [s[0]] + s[1..] == s;
    }
  }

  /** A quoted string reads back as itself, whatever it contains and whatever follows. */
  lemma QuoteRoundTrip(s: Text, rest: Text)
    ensures (Quote(s) + rest)[0] == QUOTE
    ensures ReadString((Quote(s) + rest)[1..]) == Ok(s, rest)
  {
    assert (Quote(s) + rest)[1..] == Escape(s) + [QUOTE] + rest;
    EscapeRoundTrip(s, rest);
  }

  lemma {:induction false} EscapePrintable(s: Text)
    ensures Printable(Escape(s))
    decreases |s|
  {
    if s == [] {
    } else if IsHighSurrogate(s[0]) && |s| >= 2 && IsLowSurrogate(s[1]) {
      EscapePrintable(s[2..]);
    } else {
      EscapePrintable(s[1..]);
    }
  }

  lemma QuotePrintable(s: Text)
    ensures Printable(Quote(s))
  {
    EscapePrintable(s);
  }

  // ---------------------------------------------------------------- numbers

  predicate IsDigit(u: Unit) { 0x30 <= u <= 0x39 }

  predicate AllDigits(t: Text) {
    forall i :: 0 <= i < |t| ==> IsDigit(t[i])
  }

  /** The shortest digits of a finite non-zero number: no zero at either end. */
  type Digits = d: Text | |d| > 0 && AllDigits(d) && d[0] != ZERO && d[|d| - 1] != ZERO
    witness [0x31]

  function Zeros(n: nat): (t: Text)
    ensures |t| == n && forall i :: 0 <= i < n ==> t[i] == ZERO
  {
    seq(n, _ => ZERO)
  }

  function NatText(n: nat): (t: Text)
    ensures |t| > 0 && AllDigits(t)
  {
    if n < 10 then [ZERO + n] else NatText(n / 10) + [ZERO + n % 10]
  }

  function NatValue(t: Text): nat
    requires AllDigits(t)
  {
    if t == [] then 0 else 10 * NatValue(t[..|t| - 1]) + (t[|t| - 1] - ZERO)
  }

  lemma {:induction false} NatRoundTrip(n: nat)
    ensures NatValue(NatText(n)) == n
  {
    if n < 10 {
      assert [ZERO + n][..0] == [];
    } else {
      var t := NatText(n);
      assert t[..|t| - 1] == NatText(n / 10);
      NatRoundTrip(n / 10);
    }
  }

  /** `Number::toString` of the value 0.d1d2...dk * 10^point, for k digits. */
  function MagnitudeText(d: Digits, point: int): Text {
    if |d| <= point <= 21 then d + Zeros(point - |d|)
    else if 0 < point <= 21 then d[..point] + [DOT] + d[point..]
    else if -6 < point <= 0 then [ZERO, DOT] + Zeros(-point) + d
    else Mantissa(d) + [EXPONENT] + ExponentText(point - 1)
  }

  function Mantissa(d: Digits): Text {
    if |d| == 1 then d else [d[0], DOT] + d[1..]
  }

  function ExponentText(e: int): Text {
    if e < 0 then [MINUS] + NatText(-e) else [PLUS] + NatText(e)
  }

  function NumberText(negative: bool, d: Digits, point: int): Text {
    if negative then [MINUS] + MagnitudeText(d, point) else MagnitudeText(d, point)
  }

  /** The characters a JSON number is made of. */
  predicate IsNumberUnit(u: Unit) {
    IsDigit(u) || u == MINUS || u == PLUS || u == DOT || u == EXPONENT || u == 0x45
  }

  predicate AllNumberUnits(t: Text) {
    forall i :: 0 <= i < |t| ==> IsNumberUnit(t[i])
  }

  /** How many characters at the front of `t` belong to a number. */
  function NumberLength(t: Text): (n: nat)
    ensures n <= |t|
  {
    if t != [] && IsNumberUnit(t[0]) then 1 + NumberLength(t[1..]) else 0
  }

  lemma {:induction false} NumberLengthStops(t: Text, rest: Text)
    requires AllNumberUnits(t)
    requires rest == [] || !IsNumberUnit(rest[0])
    ensures NumberLength(t + rest) == |t|
  {
    if t == [] {
      assert t + rest == rest;
    } else {
      assert (t + rest)[1..] == t[1..] + rest;
      NumberLengthStops(t[1..], rest);
    }
  }

  /** Where `u` first occurs in `t`, or `|t|`. */
  function Find(t: Text, u: Unit): (i: nat)
    ensures i <= |t|
    ensures i < |t| ==> t[i] == u
    ensures u !in t[..i]
  {
    if t == [] || t[0] == u then 0 else 1 + Find(t[1..], u)
  }

  lemma {:induction false} FindFirst(a: Text, u: Unit, b: Text)
    requires u !in a
    requires b == [] || b[0] == u
    ensures Find(a + b, u) == |a|
  {
    if a == [] {
      assert a + b == b;
    } else {
      assert (a + b)[1..] == a[1..] + b;
      FindFirst(a[1..], u, b);
    }
  }

  function LeadingZeros(t: Text): (n: nat)
    ensures n <= |t|
  {
    if t != [] && t[0] == ZERO then 1 + LeadingZeros(t[1..]) else 0
  }

  function DropTrailingZeros(t: Text): (r: Text)
    ensures r <= t
    ensures r == [] || r[|r| - 1] != ZERO
  {
    if t != [] && t[|t| - 1] == ZERO then DropTrailingZeros(t[..|t| - 1]) else t
  }

  lemma {:induction false} LeadingZerosOf(n: nat, d: Text)
    requires d == [] || d[0] != ZERO
    ensures LeadingZeros(Zeros(n) + d) == n
  {
    if n == 0 {
      assert Zeros(0) + d == d;
    } else {
      assert (Zeros(n) + d)[1..] == Zeros(n - 1) + d;
      LeadingZerosOf(n - 1, d);
    }
  }

  lemma {:induction false} DropTrailingZerosOf(d: Text, n: nat)
    requires d != [] && d[|d| - 1] != ZERO
    ensures DropTrailingZeros(d + Zeros(n)) == d
  {
    var t := d + Zeros(n);
    if n == 0 {
      assert t == d;
    } else {
      assert t[..|t| - 1] == d + Zeros(n - 1);
      DropTrailingZerosOf(d, n - 1);
    }
  }

  /** A number as its text denotes it: zero, or sign, shortest digits and decimal point. */
  datatype Numeral = Nought | Numeral(negative: bool, digits: Digits, point: int)

  /** The value of digits `all` with the decimal point after `point` of them. */
  function Normalised(negative: bool, all: Text, point: int): (r: Numeral)
    requires AllDigits(all)
  {
    var lead := LeadingZeros(all);
    var d := DropTrailingZeros(all[lead..]);
    if d == [] then Nought
    else NonZeroFront(all); DigitsOf(all); Numeral(negative, d, point - lead)
  }

  lemma {:induction false} NonZeroFront(t: Text)
    ensures LeadingZeros(t) < |t| ==> t[LeadingZeros(t)] != ZERO
  {
    if t != [] && t[0] == ZERO {
      NonZeroFront(t[1..]);
    }
  }

  lemma DigitsOf(t: Text)
    requires AllDigits(t)
    ensures AllDigits(DropTrailingZeros(t[LeadingZeros(t)..]))
  {
    var d := DropTrailingZeros(t[LeadingZeros(t)..]);
    forall i | 0 <= i < |d| ensures IsDigit(d[i]) {
      assert d[i] == t[LeadingZeros(t)..][i] == t[LeadingZeros(t) + i];
    }
  }

  /** The exponent after the letter: a sign and digits. */
  function ReadExponent(t: Text): Parsed<int> {
    if |t| < 2 || !AllDigits(t[1..]) then Fail
    else
      var n: int := NatValue(t[1..]);
      if t[0] == MINUS then Ok(-n, []) else if t[0] == PLUS then Ok(n, []) else Fail
  }

  /** Mantissa digits with at most one point in them. */
  function ReadMantissa(negative: bool, m: Text, exponent: int): Parsed<Numeral> {
    var dot := Find(m, DOT);
    var fraction := if dot < |m| then m[dot + 1..] else [];
    if dot == 0 || !AllDigits(m[..dot]) || !AllDigits(fraction) then Fail
    else Ok(Normalised(negative, m[..dot] + fraction, dot + exponent), [])
  }

  function ReadMagnitude(negative: bool, t: Text): Parsed<Numeral> {
    var e := Find(t, EXPONENT);
    if e == |t| then ReadMantissa(negative, t, 0)
    else
      match ReadExponent(t[e + 1..])
      case Fail => Fail
      case Ok(exponent, _) => ReadMantissa(negative, t[..e], exponent)
  }

  /** The numeral a complete number text stands for. */
  function ReadNumber(t: Text): Parsed<Numeral> {
    if t != [] && t[0] == MINUS then ReadMagnitude(true, t[1..]) else ReadMagnitude(false, t)
  }

  lemma ExponentRoundTrip(e: int)
    ensures ReadExponent(ExponentText(e)) == Ok(e, [])
  {
    var n := if e < 0 then -e else e;
    NatRoundTrip(n);
    assert ExponentText(e)[1..] == NatText(n);
  }

  lemma NormalisedDigits(negative: bool, lead: nat, d: Digits, trail: nat, point: int)
    ensures AllDigits(Zeros(lead) + d + Zeros(trail))
    ensures Normalised(negative, Zeros(lead) + d + Zeros(trail), point) == Numeral(negative, d, point - lead)
  {
    var all := Zeros(lead) + d + Zeros(trail);
    assert all == Zeros(lead) + (d + Zeros(trail));
    LeadingZerosOf(lead, d + Zeros(trail));
    assert all[lead..] == d + Zeros(trail);
    DropTrailingZerosOf(d, trail);
  }

  /** A mantissa without a point. */
  lemma WholeMantissa(negative: bool, d: Digits, trail: nat, exponent: int)
    ensures ReadMantissa(negative, d + Zeros(trail), exponent)
         == Ok(Numeral(negative, d, |d| + trail + exponent), [])
  {
    hide Find, Normalised;
    var m := d + Zeros(trail);
    assert AllDigits(m);
    assert DOT !in m;
    FindFirst(m, DOT, []);
    assert m + [] == m && m[..|m|] + [] == m;
    NormalisedDigits(negative, 0, d, trail, |m| + exponent);
    assert Zeros(0) + d + Zeros(trail) == m;
  }

  /** A mantissa with a point between `whole` and `fraction`. */
  lemma PointMantissa(negative: bool, whole: Text, fraction: Text, lead: nat, d: Digits, exponent: int)
    requires whole != [] && AllDigits(whole) && AllDigits(fraction)
    requires whole + fraction == Zeros(lead) + d
    ensures ReadMantissa(negative, whole + [DOT] + fraction, exponent)
         == Ok(Numeral(negative, d, |whole| - lead + exponent), [])
  {
    hide Find, Normalised, Zeros;
    var m := whole + [DOT] + fraction;
    assert DOT !in whole;
    assert m == whole + ([DOT] + fraction);
    FindFirst(whole, DOT, [DOT] + fraction);
    assert m[..|whole|] == whole && m[|whole| + 1..] == fraction;
    NormalisedDigits(negative, lead, d, 0, |whole| + exponent);
    assert Zeros(lead) + d + Zeros(0) == whole + fraction;
  }

  /** Text without an exponent letter is all mantissa. */
  lemma NoExponent(negative: bool, t: Text)
    requires EXPONENT !in t
    ensures ReadMagnitude(negative, t) == ReadMantissa(negative, t, 0)
  {
    hide Find, ReadMantissa, ReadExponent;
    FindFirst(t, EXPONENT, []);
    assert t + [] == t;
  }

  lemma WithExponent(negative: bool, m: Text, e: int)
    requires EXPONENT !in m
    ensures ReadMagnitude(negative, m + [EXPONENT] + ExponentText(e)) == ReadMantissa(negative, m, e)
  {
    hide Find, ReadMantissa, ReadExponent, ExponentText;
    var t := m + [EXPONENT] + ExponentText(e);
    assert t == m + ([EXPONENT] + ExponentText(e));
    FindFirst(m, EXPONENT, [EXPONENT] + ExponentText(e));
    assert t[..|m|] == m && t[|m| + 1..] == ExponentText(e);
    ExponentRoundTrip(e);
  }

  lemma SplitDigits(d: Digits, k: nat)
    requires 0 < k < |d|
    ensures EXPONENT !in d[..k] + [DOT] + d[k..]
    ensures AllDigits(d[..k]) && AllDigits(d[k..])
    ensures d[..k] + d[k..] == Zeros(0) + d
  {
  }

  lemma MantissaShape(d: Digits)
    ensures EXPONENT !in Mantissa(d)
    ensures Mantissa(d) == if |d| == 1 then d + Zeros(0) else d[..1] + [DOT] + d[1..]
  {
  }

  lemma MantissaRoundTrip(negative: bool, d: Digits, e: int)
    ensures EXPONENT !in Mantissa(d)
    ensures ReadMantissa(negative, Mantissa(d), e) == Ok(Numeral(negative, d, e + 1), [])
  {
    hide *;
    MantissaShape(d);
    if |d| == 1 {
      WholeMantissa(negative, d, 0, e);
    } else {
      SplitDigits(d, 1);
      PointMantissa(negative, d[..1], d[1..], 0, d, e);
    }
  }

  lemma MagnitudeCases(d: Digits, point: int)
    ensures MagnitudeText(d, point) ==
      if |d| <= point <= 21 then d + Zeros(point - |d|)
      else if 0 < point <= 21 then d[..point] + [DOT] + d[point..]
      else if -6 < point <= 0 then [ZERO, DOT] + Zeros(-point) + d
      else Mantissa(d) + [EXPONENT] + ExponentText(point - 1)
  {
  }

  lemma MagnitudeRoundTrip(negative: bool, d: Digits, point: int)
    ensures ReadMagnitude(negative, MagnitudeText(d, point)) == Ok(Numeral(negative, d, point), [])
  {
    hide *;
    MagnitudeCases(d, point);
    if |d| <= point <= 21 {
      PlainInteger(negative, d, point);
    } else if 0 < point <= 21 {
      PointInside(negative, d, point);
    } else if -6 < point <= 0 {
      PointBefore(negative, d, point);
    } else {
      MantissaRoundTrip(negative, d, point - 1);
      WithExponent(negative, Mantissa(d), point - 1);
    }
  }

  lemma PlainInteger(negative: bool, d: Digits, point: int)
    requires |d| <= point
    ensures ReadMagnitude(negative, d + Zeros(point - |d|)) == Ok(Numeral(negative, d, point), [])
  {
    hide ReadMagnitude, ReadMantissa;
    NoExponent(negative, d + Zeros(point - |d|));
    WholeMantissa(negative, d, point - |d|, 0);
  }

  lemma PointInside(negative: bool, d: Digits, point: int)
    requires 0 < point < |d|
    ensures ReadMagnitude(negative, d[..point] + [DOT] + d[point..]) == Ok(Numeral(negative, d, point), [])
  {
    hide *;
    SplitDigits(d, point);
    NoExponent(negative, d[..point] + [DOT] + d[point..]);
    PointMantissa(negative, d[..point], d[point..], 0, d, 0);
  }

  lemma PointBefore(negative: bool, d: Digits, point: int)
    requires point <= 0
    ensures ReadMagnitude(negative, [ZERO, DOT] + Zeros(-point) + d) == Ok(Numeral(negative, d, point), [])
  {
    hide ReadMagnitude, ReadMantissa;
    var fraction := Zeros(-point) + d;
    assert [ZERO, DOT] + Zeros(-point) + d == [ZERO] + [DOT] + fraction;
    assert [ZERO] + fraction == Zeros(1 - point) + d;
    NoExponent(negative, [ZERO] + [DOT] + fraction);
    PointMantissa(negative, [ZERO], fraction, 1 - point, d, 0);
  }

  lemma MagnitudeShape(d: Digits, point: int)
    ensures AllNumberUnits(MagnitudeText(d, point))
    ensures MagnitudeText(d, point) != []
  {
    hide NatText;
    if !(-6 < point <= 21) {
      ExponentShape(point - 1);
      assert AllNumberUnits(Mantissa(d));
    }
  }

  lemma DigitFirst(d: Digits, point: int)
    ensures MagnitudeText(d, point) != [] && MagnitudeText(d, point)[0] != MINUS
  {
    hide ExponentText;
  }

  lemma ExponentShape(e: int)
    ensures AllNumberUnits(ExponentText(e))
  {
    var n := if e < 0 then -e else e;
    assert AllDigits(NatText(n));
  }

  /** A number text is made of number characters, starts like one and reads back as the number. */
  lemma NumberRoundTrip(negative: bool, d: Digits, point: int)
    ensures AllNumberUnits(NumberText(negative, d, point)) && Printable(NumberText(negative, d, point))
    ensures NumberText(negative, d, point) != []
    ensures ReadNumber(NumberText(negative, d, point)) == Ok(Numeral(negative, d, point), [])
  {
    hide ReadMagnitude, MagnitudeText;
    MagnitudeShape(d, point);
    MagnitudeRoundTrip(negative, d, point);
    DigitFirst(d, point);
    assert ([MINUS] + MagnitudeText(d, point))[1..] == MagnitudeText(d, point);
  }
}
