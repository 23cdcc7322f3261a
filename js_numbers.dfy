/** JavaScript's string-to-number conversions, on exact reals:
    `parseFloat` (the longest decimal prefix), `parseInt` with its `0x` prefix,
    `Number(s)` (the whole trimmed string), and the `x || d` idiom that turns
    NaN and 0 into a default. Exponents and `Infinity` are not modelled.

    Each reader consumes the string one character at a time, accumulating the
    value read so far, and returns that value with the unread rest. */
module JsNumbers {
  import opened Wrappers
  import opened Text

  /** A JavaScript number: NaN or a finite value. */
  datatype Numeric = NaN | Finite(value: real)

  /** `x || d` for a number `x`: NaN and 0 (also -0) are falsy. */
  function OrElse(n: Numeric, d: real): (r: real)
    ensures n.Finite? && n.value != 0.0 ==> r == n.value
    ensures n.NaN? || n.value == 0.0 ==> r == d
  {
    if n.NaN? || n.value == 0.0 then d else n.value
  }

  /** A number read from the front of a string, and what is left after it. */
  datatype Read = Read(value: real, rest: string)

  /** Reads the digits before the decimal point; `acc` is the value of the
      digits read so far and `seen` whether there was at least one. */
  function ReadWhole(s: string, acc: nat, seen: bool): (r: Option<Read>)
    ensures r.Some? ==> r.value.value >= 0.0
    ensures r.Some? ==> |r.value.rest| < |s| || (seen && r.value.rest == s)
    ensures r.None? ==> !seen
    decreases |s|
  {
    if s != [] && IsDigit(s[0]) then ReadWhole(s[1..], acc * 10 + DigitValue(s[0]), true)
    else if s != [] && s[0] == '.' then ReadFraction(s[1..], acc, 0, 0, seen)
    else if seen then Some(Read(acc as real, s))
    else None
  }

  /** Reads the digits after the decimal point of a number whose whole part is
      `whole`; `frac` is the value of the digits read so far as a whole number
      and `places` how many there were. */
  function ReadFraction(s: string, whole: nat, frac: nat, places: nat, seen: bool): (r: Option<Read>)
    ensures r.Some? ==> r.value.value >= 0.0 && |r.value.rest| <= |s|
    ensures r.None? ==> !seen
    decreases |s|
  {
    if s != [] && IsDigit(s[0]) then
      ReadFraction(s[1..], whole, frac * 10 + DigitValue(s[0]), places + 1, true)
    else if seen then Some(Read(Decimal(whole, frac, places), s))
    else None
  }

  function Pow10(n: nat): (r: nat)
    ensures r >= 1
  {
    if n == 0 then 1 else 10 * Pow10(n - 1)
  }

  /** The number `whole.ddd` whose `places` digits after the point spell `frac`. */
  function Decimal(whole: nat, frac: nat, places: nat): (r: real)
    ensures r >= whole as real
  {
    whole as real + frac as real / Pow10(places) as real
  }

  /** The longest prefix of the form `digits* (. digits*)?` with at least one digit. */
  function ReadUnsigned(s: string): (r: Option<Read>)
    ensures r.Some? ==> r.value.value >= 0.0 && |r.value.rest| < |s|
  {
    ReadWhole(s, 0, false)
  }

  /** An optional `-` or `+` followed by `ReadUnsigned`. */
  function ReadSigned(s: string): (r: Option<Read>)
    ensures r.Some? ==> |r.value.rest| < |s|
    ensures r.Some? && r.value.value < 0.0 ==> s[0] == '-'
  {
    if s != [] && (s[0] == '-' || s[0] == '+') then
      match ReadUnsigned(s[1..])
      case None => None
      case Some(rd) => Some(rd.(value := if s[0] == '-' then -rd.value else rd.value))
    else ReadUnsigned(s)
  }

  /** One step of the readers: a digit before the point, the point, a digit after it. */
  lemma WholeDigit(c: char, rest: string, acc: nat, seen: bool)
    requires IsDigit(c)
    ensures ReadWhole([c] + rest, acc, seen) == ReadWhole(rest, acc * 10 + DigitValue(c), true)
  {
    assert ([c] + rest)[1..] == rest;
  }

  lemma WholePoint(rest: string, acc: nat, seen: bool)
    ensures ReadWhole(['.'] + rest, acc, seen) == ReadFraction(rest, acc, 0, 0, seen)
  {
    assert (['.'] + rest)[1..] == rest;
  }

  lemma FractionDigit(c: char, rest: string, whole: nat, frac: nat, places: nat, seen: bool)
    requires IsDigit(c)
    ensures ReadFraction([c] + rest, whole, frac, places, seen)
            == ReadFraction(rest, whole, frac * 10 + DigitValue(c), places + 1, true)
  {
    assert ([c] + rest)[1..] == rest;
  }

  /** The value of the digits after a decimal point: `0.d1d2…dk` is `d1d2…dk / 10^k`. */
  function FractionValue(ds: string): real
    requires AllDigits(ds)
  {
    DigitsValue(ds) as real / Pow10(|ds|) as real
  }

  /** Reading a run of digits before the point adds their value to what was read. */
  lemma {:induction false} WholeDigits(w: string, rest: string)
    requires AllDigits(w)
    ensures ReadWhole(w + rest, 0, false) == ReadWhole(rest, DigitsValue(w), w != [])
    decreases |w|
  {
    if w != [] {
      var init, c := w[..|w| - 1], w[|w| - 1];
      assert w + rest == init + ([c] + rest);
      WholeDigits(init, [c] + rest);
      WholeDigit(c, rest, DigitsValue(init), init != []);
    } else {
      assert w + rest == rest;
    }
  }

  /** Reading a run of digits after the point gathers their value and their count. */
  lemma {:induction false} FractionDigits(f: string, rest: string, whole: nat, seen: bool)
    requires AllDigits(f)
    ensures ReadFraction(f + rest, whole, 0, 0, seen) == ReadFraction(rest, whole, DigitsValue(f), |f|, seen || f != [])
    decreases |f|
  {
    if f != [] {
      var init, c := f[..|f| - 1], f[|f| - 1];
      assert f + rest == init + ([c] + rest);
      FractionDigits(init, [c] + rest, whole, seen);
      FractionDigit(c, rest, whole, DigitsValue(init), |init|, seen || init != []);
    } else {
      assert f + rest == rest;
    }
  }

  /** A text that starts with a digit reads as a number. */
  lemma LeadingDigitReads(u: string)
    requires u != [] && IsDigit(u[0])
    ensures ReadUnsigned(u).Some? && ParseFloat(u) == Finite(ReadUnsigned(u).value.value)
  {
    assert u == [u[0]] + u[1..];
    WholeDigit(u[0], u[1..], 0, false);
    TrimStartNoSpace(u);
  }

  /** `parseFloat(s)`. */
  function ParseFloat(s: string): (r: Numeric)
    ensures AllDigits(s) && s != [] ==> r == Finite(DigitsValue(s) as real)
  {
    FloatDigits(s);
    match ReadSigned(TrimStart(s))
    case None => NaN
    case Some(rd) => Finite(rd.value)
  }

  lemma FloatDigits(s: string)
    ensures AllDigits(s) && s != [] ==> ReadSigned(TrimStart(s)) == Some(Read(DigitsValue(s) as real, ""))
  {
    if AllDigits(s) && s != [] {
      TrimStartNoSpace(s);
      assert s + "" == s;
      WholeDigits(s, "");
    }
  }

  /** `parseFloat` of `whole.fraction` is the whole part plus the fraction. */
  lemma ParseFloatReadsDecimal(w: string, f: string)
    requires AllDigits(w) && AllDigits(f) && w != []
    ensures ParseFloat(w + "." + f) == Finite(DigitsValue(w) as real + FractionValue(f))
  {
    var s := w + "." + f;
    assert s[0] == w[0];
    TrimStartNoSpace(s);
    assert ReadSigned(s) == ReadWhole(s, 0, false);
    DecimalReads(w, f);
  }

  lemma DecimalReads(w: string, f: string)
    requires AllDigits(w) && AllDigits(f) && w != []
    ensures ReadWhole(w + "." + f, 0, false) == Some(Read(DigitsValue(w) as real + FractionValue(f), ""))
  {
    assert w + "." + f == w + (['.'] + f);
    WholeDigits(w, ['.'] + f);
    WholePoint(f, DigitsValue(w), true);
    assert f + "" == f;
    FractionDigits(f, "", DigitsValue(w), true);
  }

  /** `whole.cc` with two digits after the point reads as `whole + cc/100`. */
  lemma ReadsCents(w: string, f: string)
    requires AllDigits(w) && AllDigits(f) && w != [] && |f| == 2
    ensures ReadUnsigned(w + "." + f) == Some(Read(DigitsValue(w) as real + DigitsValue(f) as real / 100.0, ""))
  {
    DecimalReads(w, f);
    assert Pow10(|f|) == 100 by { assert Pow10(1) == 10; }
  }

  /** A leading minus sign negates what `parseFloat` reads. */
  lemma ParseFloatNegates(u: string)
    requires u != [] && IsDigit(u[0])
    ensures ParseFloat(u).Finite? && ParseFloat("-" + u) == Finite(-ParseFloat(u).value)
  {
    LeadingDigitReads(u);
    var s := "-" + u;
    TrimStartNoSpace(s);
    assert s[1..] == u;
  }

  function HexDigitValue(c: char): (d: nat)
    requires IsHexDigit(c)
    ensures d < 16
    ensures IsDigit(c) ==> d == DigitValue(c)
  {
    if IsDigit(c) then c as int - '0' as int
    else if 'a' <= c <= 'f' then c as int - 'a' as int + 10
    else c as int - 'A' as int + 10
  }

  /** Reads a run of digits in base `base` (10 or 16). */
  function ReadInteger(s: string, base: nat, acc: nat, seen: bool): (r: Option<nat>)
    requires base == 10 || base == 16
    ensures r.None? ==> !seen
    decreases |s|
  {
    if s != [] && (if base == 16 then IsHexDigit(s[0]) else IsDigit(s[0])) then
      ReadInteger(s[1..], base, acc * base + HexDigitValue(s[0]), true)
    else if seen then Some(acc)
    else None
  }

  /** The digits `parseInt` reads after the sign: hexadecimal after `0x`/`0X`,
      decimal otherwise; None when there are none. */
  function IntegerMagnitude(body: string): Option<nat> {
    if |body| >= 2 && body[0] == '0' && (body[1] == 'x' || body[1] == 'X') then
      ReadInteger(body[2..], 16, 0, false)
    else
      ReadInteger(body, 10, 0, false)
  }

  /** Reading a run of decimal digits adds their value to what was read. */
  lemma {:induction false} IntegerDigits(w: string, rest: string)
    requires AllDigits(w)
    ensures ReadInteger(w + rest, 10, 0, false) == ReadInteger(rest, 10, DigitsValue(w), w != [])
    decreases |w|
  {
    if w != [] {
      var init, c := w[..|w| - 1], w[|w| - 1];
      assert w + rest == init + ([c] + rest);
      IntegerDigits(init, [c] + rest);
      assert ([c] + rest)[1..] == rest;
    } else {
      assert w + rest == rest;
    }
  }

  lemma IntDigits(s: string)
    ensures AllDigits(s) && s != [] ==> TrimStart(s) == s && IntegerMagnitude(s) == Some(DigitsValue(s))
  {
    if AllDigits(s) && s != [] {
      TrimStartNoSpace(s);
      assert s + "" == s;
      IntegerDigits(s, "");
    }
  }

  /** `parseInt(s)` with no radix. */
  function ParseInt(s: string): (r: Numeric)
    ensures r.Finite? ==> r.value == r.value.Floor as real
    ensures AllDigits(s) && s != [] ==> r == Finite(DigitsValue(s) as real)
    ensures s == [] ==> r == NaN
  {
    IntDigits(s);
    var t := TrimStart(s);
    var neg := t != [] && t[0] == '-';
    var body := if t != [] && (t[0] == '-' || t[0] == '+') then t[1..] else t;
    match IntegerMagnitude(body)
    case None => NaN
    case Some(v) => WholeReal(v); Finite(if neg then -(v as real) else v as real)
  }

  lemma WholeReal(v: int)
    ensures (v as real).Floor == v && (-(v as real)).Floor == -v
  {
    assert -(v as real) == (-v) as real;
  }

  /** A text that starts with neither white space, a sign nor a digit has no
      integer for `parseInt` to read. */
  lemma ParseIntNoDigits(s: string)
    requires s != [] && !IsSpace(s[0]) && !IsDigit(s[0]) && s[0] != '-' && s[0] != '+'
    ensures ParseInt(s) == NaN
  {
    TrimStartNoSpace(s);
  }

  /** `x || d` never yields a falsy number when the default is not one, and a
      second `|| d` changes nothing. */
  lemma OrElseTruthy(n: Numeric, d: real)
    ensures d != 0.0 ==> OrElse(n, d) != 0.0
    ensures OrElse(Finite(OrElse(n, d)), d) == OrElse(n, d)
  {
  }

  /** `Number(s)`: the whole trimmed string must be a decimal literal (or a
      `0x` literal); the empty string is 0. */
  function ToNumber(s: string): (r: Numeric)
    ensures AllDigits(s) && s != [] ==> r == Finite(DigitsValue(s) as real)
  {
    assert AllDigits(s) && s != [] ==> Trim(s) == s && !IsHexLiteral(s) && DecimalNumber(s) == Finite(DigitsValue(s) as real) by {
      NumberDigits(s);
    }
    var t := Trim(s);
    if t == [] then Finite(0.0)
    else if IsHexLiteral(t) then HexNumber(t[2..])
    else DecimalNumber(t)
  }

  /** `0x…` or `0X…` with at least one character after the prefix. */
  predicate IsHexLiteral(t: string) {
    |t| > 2 && t[0] == '0' && (t[1] == 'x' || t[1] == 'X')
  }

  /** The digits after `0x`: all of them must be hexadecimal. */
  function HexNumber(digits: string): Numeric {
    match ReadInteger(digits, 16, 0, false)
    case Some(v) => if forall i :: 0 <= i < |digits| ==> IsHexDigit(digits[i]) then Finite(v as real) else NaN
    case None => NaN
  }

  /** A decimal literal that must take up the whole text. */
  function DecimalNumber(t: string): Numeric {
    match ReadSigned(t)
    case Some(rd) => if rd.rest == [] then Finite(rd.value) else NaN
    case None => NaN
  }

  /** `Number(String(i))` is `i`: the text of a whole number reads back as it. */
  lemma NumberReadsIntText(i: int)
    ensures ToNumber(IntToText(i)) == Finite(i as real)
  {
    if i < 0 {
      var u := NatToDigits(-i);
      NegativeDigitsRead(u);
      var t := "-" + u;
      assert IntToText(i) == t && t[0] == '-';
      assert -((-i) as real) == i as real;
    }
  }

  lemma NegativeDigitsRead(u: string)
    requires AllDigits(u) && u != []
    ensures Trim("-" + u) == "-" + u
    ensures ReadSigned("-" + u) == Some(Read(-(DigitsValue(u) as real), ""))
  {
    var t := "-" + u;
    assert Trim(t) == t by {
      forall k | 0 <= k < |t| ensures !IsSpace(t[k]) {
        if k > 0 { assert t[k] == u[k - 1]; }
      }
      TrimNoSpace(t);
    }
    assert ReadUnsigned(u) == Some(Read(DigitsValue(u) as real, "")) by {
      assert u + "" == u;
      WholeDigits(u, "");
    }
    assert t[1..] == u;
  }

  lemma NumberDigits(s: string)
    ensures AllDigits(s) && s != [] ==> Trim(s) == s && ReadSigned(s) == Some(Read(DigitsValue(s) as real, ""))
  {
    if AllDigits(s) && s != [] {
      TrimNoSpace(s);
      assert s + "" == s;
      WholeDigits(s, "");
    }
  }
}
