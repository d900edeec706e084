/**
 * Character classes and string helpers with JavaScript's meaning: the white
 * space that `\s` matches and `trim` removes, ASCII digits and word characters,
 * ASCII case mapping (the only case mapping a non-Unicode `/i` regex performs
 * for the ASCII patterns used here), and decimal numerals.
 */
module Text {
  import opened Wrappers

  /** JavaScript's WhiteSpace and LineTerminator characters (what `\s` matches). */
  predicate IsSpace(c: char) {
    c == '\t' || c == '\n' || c == '\U{B}' || c == '\U{C}' || c == '\r' || c == ' '
    || c == '\U{A0}' || c == '\U{1680}' || ('\U{2000}' <= c <= '\U{200A}')
    || c == '\U{2028}' || c == '\U{2029}' || c == '\U{202F}' || c == '\U{205F}'
    || c == '\U{3000}' || c == '\U{FEFF}'
  }

  /** `\d` without the `u` flag: an ASCII digit. */
  predicate IsDigit(c: char) {
    '0' <= c <= '9'
  }

  /** `\w` without the `u` flag: ASCII letter, digit or underscore. */
  predicate IsWordChar(c: char) {
    ('a' <= c <= 'z') || ('A' <= c <= 'Z') || IsDigit(c) || c == '_'
  }

  function LowerChar(c: char): char {
    if 'A' <= c <= 'Z' then (c as int + 32) as char else c
  }

  function UpperChar(c: char): char {
    if 'a' <= c <= 'z' then (c as int - 32) as char else c
  }

  /** ASCII lower-casing, character by character. */
  function Lower(s: string): (r: string)
    ensures |r| == |s|
  {
    seq(|s|, i requires 0 <= i < |s| => LowerChar(s[i]))
  }

  /** ASCII upper-casing, character by character. */
  function Upper(s: string): (r: string)
    ensures |r| == |s|
  {
    seq(|s|, i requires 0 <= i < |s| => UpperChar(s[i]))
  }

  predicate StartsWith(s: string, prefix: string) {
    |prefix| <= |s| && s[..|prefix|] == prefix
  }

  /** `s.includes(p)`: `p` occurs in `s` at some offset. */
  predicate Contains(s: string, p: string)
    decreases |s|
  {
    StartsWith(s, p) || (s != [] && Contains(s[1..], p))
  }

  lemma {:induction false} ContainsInfix(a: string, p: string, b: string)
    ensures Contains(a + p + b, p)
    decreases |a|
  {
    if a == [] {
      assert (a + p + b)[..|p|] == p;
    } else {
      assert (a + p + b)[1..] == a[1..] + p + b;
      ContainsInfix(a[1..], p, b);
    }
  }

  /** The characters of `s` that satisfy `keep`, in order (a global `replace` that deletes the others). */
  function Keep(s: string, keep: char -> bool): (r: string)
    ensures |r| <= |s|
    ensures forall i :: 0 <= i < |r| ==> keep(r[i])
    ensures forall c :: c in r <==> c in s && keep(c)
  {
    if s == [] then []
    else if keep(s[0]) then [s[0]] + Keep(s[1..], keep)
    else Keep(s[1..], keep)
  }

  lemma {:induction false} KeepConcat(a: string, b: string, keep: char -> bool)
    ensures Keep(a + b, keep) == Keep(a, keep) + Keep(b, keep)
  {
    if a == [] {
      assert a + b == b;
    } else {
      assert (a + b)[0] == a[0];
      assert (a + b)[1..] == a[1..] + b;
      KeepConcat(a[1..], b, keep);
    }
  }

  lemma {:induction false} KeepAll(s: string, keep: char -> bool)
    requires forall i :: 0 <= i < |s| ==> keep(s[i])
    ensures Keep(s, keep) == s
  {
    if s != [] {
      KeepAll(s[1..], keep);
    }
  }

  lemma {:induction false} KeepNone(s: string, keep: char -> bool)
    requires forall i :: 0 <= i < |s| ==> !keep(s[i])
    ensures Keep(s, keep) == []
  {
    if s != [] {
      KeepNone(s[1..], keep);
    }
  }

  function DigitValue(c: char): nat {
    if IsDigit(c) then c as int - '0' as int else 0
  }

  function DigitChar(d: nat): (c: char)
    requires d < 10
    ensures IsDigit(c) && DigitValue(c) == d
  {
    ('0' as int + d) as char
  }

  /** The value of a decimal numeral (most significant digit first). */
  function DecimalValue(s: string): nat {
    if s == [] then 0 else DecimalValue(s[..|s| - 1]) * 10 + DigitValue(s[|s| - 1])
  }

  /** The decimal numeral of `n`, as JavaScript renders a non-negative integer. */
  function NatToString(n: nat): (r: string)
    ensures r != [] && forall i :: 0 <= i < |r| ==> IsDigit(r[i])
  {
    if n < 10 then [DigitChar(n)] else NatToString(n / 10) + [DigitChar(n % 10)]
  }

  lemma {:induction false} DecimalOfNatToString(n: nat)
    ensures DecimalValue(NatToString(n)) == n
  {
    if n >= 10 {
      var s := NatToString(n);
      assert s[..|s| - 1] == NatToString(n / 10);
      DecimalOfNatToString(n / 10);
    }
  }

  /** The longest prefix of `s` made of digits. */
  function LeadingDigits(s: string): (r: string)
    ensures StartsWith(s, r)
    ensures forall i :: 0 <= i < |r| ==> IsDigit(r[i])
    ensures |r| < |s| ==> !IsDigit(s[|r|])
  {
    if s != [] && IsDigit(s[0]) then [s[0]] + LeadingDigits(s[1..]) else []
  }

  lemma {:induction false} LeadingDigitsOfNumeral(d: string, rest: string)
    requires forall i :: 0 <= i < |d| ==> IsDigit(d[i])
    requires rest == [] || !IsDigit(rest[0])
    ensures LeadingDigits(d + rest) == d
  {
    if d != [] {
      assert (d + rest)[1..] == d[1..] + rest;
      LeadingDigitsOfNumeral(d[1..], rest);
    }
  }

  /** `trimStart`: drop leading white space. */
  function TrimStart(s: string): (r: string)
    ensures |r| <= |s| && r == s[|s| - |r|..]
    ensures r == [] || !IsSpace(r[0])
    ensures forall i :: 0 <= i < |s| - |r| ==> IsSpace(s[i])
  {
    if s != [] && IsSpace(s[0]) then TrimStart(s[1..]) else s
  }

  /** `trimEnd`: drop trailing white space. */
  function TrimEnd(s: string): (r: string)
    ensures |r| <= |s| && r == s[..|r|]
    ensures r == [] || !IsSpace(r[|r| - 1])
    ensures forall i :: |r| <= i < |s| ==> IsSpace(s[i])
  {
    if s != [] && IsSpace(s[|s| - 1]) then TrimEnd(s[..|s| - 1]) else s
  }

  /** `trim`: drop white space at both ends. */
  function Trim(s: string): (r: string)
    ensures |r| <= |s|
    ensures r == [] || (!IsSpace(r[0]) && !IsSpace(r[|r| - 1]))
    ensures (forall i :: 0 <= i < |s| ==> !IsSpace(s[i])) ==> r == s
  {
    TrimEnd(TrimStart(s))
  }

  /** `trim` keeps a middle part of `s`: what it cuts off at either end is white space. */
  lemma TrimMiddle(s: string)
    ensures exists i, j ::
      0 <= i <= j <= |s| && Trim(s) == s[i..j]
      && (forall k :: 0 <= k < i ==> IsSpace(s[k])) && (forall k :: j <= k < |s| ==> IsSpace(s[k]))
  {
    var t := TrimStart(s);
    var r := TrimEnd(t);
    var i := |s| - |t|;
    var j := i + |r|;
    assert r == s[i..j] by {
      assert r == t[..|r|] && t == s[i..];
    }
    assert forall k :: 0 <= k < i ==> IsSpace(s[k]);
    assert forall k :: j <= k < |s| ==> IsSpace(s[k]) by {
      forall k | j <= k < |s|
        ensures IsSpace(s[k])
      {
        assert s[k] == t[k - i];
      }
    }
  }

  /** `parseInt(s, 10)`: skip leading white space, an optional sign, then the longest digit prefix. */
  function ParseInt(s: string): (r: JsNumber)
    ensures r.NaN? <==> LeadingDigits(SkipSign(TrimStart(s))) == []
  {
    var t := TrimStart(s);
    var digits := LeadingDigits(SkipSign(t));
    if digits == [] then NaN
    else if t[0] == '-' then Num(0 - DecimalValue(digits) as int)
    else Num(DecimalValue(digits))
  }

  function SkipSign(t: string): string {
    if t != [] && (t[0] == '-' || t[0] == '+') then t[1..] else t
  }

  lemma SeqAssoc(a: string, b: string, c: string)
    ensures a + (b + c) == a + b + c
  {
  }

  /** Leading white space is all `trimStart` removes. */
  lemma {:induction false} TrimStartOfSpaces(ws: string, s: string)
    requires forall i :: 0 <= i < |ws| ==> IsSpace(ws[i])
    requires s == [] || !IsSpace(s[0])
    ensures TrimStart(ws + s) == s
  {
    if ws == [] {
      assert ws + s == s;
    } else {
      assert (ws + s)[1..] == ws[1..] + s;
      TrimStartOfSpaces(ws[1..], s);
    }
  }

  /** The signs `parseInt` and `parseFloat` accept in front of the digits. */
  predicate IsSign(sign: string) {
    sign == [] || (|sign| == 1 && (sign[0] == '+' || sign[0] == '-'))
  }

  predicate IsMinus(sign: string) {
    sign != [] && sign[0] == '-'
  }

  /**
   * `parseInt` reads back a rendered natural number after any white space and
   * an optional sign, followed by any non-digit text; `-` negates it.
   */
  lemma ParseIntOfNumeral(ws: string, sign: string, n: nat, rest: string)
    requires forall i :: 0 <= i < |ws| ==> IsSpace(ws[i])
    requires IsSign(sign)
    requires rest == [] || !IsDigit(rest[0])
    ensures ParseInt(ws + sign + NatToString(n) + rest) == if IsMinus(sign) then Num(-(n as int)) else Num(n)
  {
    var d := NatToString(n);
    SeqAssoc(ws + sign, d, rest);
    ParseIntSigned(ws, sign, d + rest);
    LeadingDigitsOfNumeral(d, rest);
    DecimalOfNatToString(n);
  }

  /** After white space and a sign, `parseInt` reads the digits that follow, negated for `-`. */
  lemma ParseIntSigned(ws: string, sign: string, body: string)
    requires forall i :: 0 <= i < |ws| ==> IsSpace(ws[i])
    requires IsSign(sign)
    requires body != [] && !IsSpace(body[0]) && body[0] != '+' && body[0] != '-'
    ensures var digits := LeadingDigits(body);
      ParseInt(ws + sign + body)
      == if digits == [] then NaN else if IsMinus(sign) then Num(-(DecimalValue(digits) as int)) else Num(DecimalValue(digits))
  {
    TrimStartSigned(ws, sign, body);
    SkipSignOf(sign, body);
  }

  /** After white space and a sign, `trimStart` stops at the sign. */
  lemma TrimStartSigned(ws: string, sign: string, body: string)
    requires forall i :: 0 <= i < |ws| ==> IsSpace(ws[i])
    requires IsSign(sign)
    requires body != [] && !IsSpace(body[0])
    ensures TrimStart(ws + sign + body) == sign + body
  {
    SeqAssoc(ws, sign, body);
    if sign == [] {
      assert sign + body == body;
    } else {
      assert (sign + body)[0] == sign[0];
    }
    TrimStartOfSpaces(ws, sign + body);
  }

  /** The sign is all `SkipSign` skips, and the text starts with `-` exactly for a minus sign. */
  lemma SkipSignOf(sign: string, body: string)
    requires IsSign(sign)
    requires body != [] && body[0] != '+' && body[0] != '-'
    ensures sign + body != [] && SkipSign(sign + body) == body
    ensures (sign + body)[0] == '-' <==> IsMinus(sign)
  {
    if sign == [] {
      assert sign + body == body;
    } else {
      assert (sign + body)[0] == sign[0];
      assert (sign + body)[1..] == body;
    }
  }

  /** Ten to the power `e`, for a whole exponent of either sign. */
  function Pow10(e: int): (r: real)
    ensures r > 0.0
    decreases if e < 0 then -e else e
  {
    if e == 0 then 1.0 else if e > 0 then 10.0 * Pow10(e - 1) else Pow10(e + 1) / 10.0
  }

  /** The digits after a decimal point at the start of `s`, or none when `s` does not start with one. */
  function FractionDigits(s: string): (r: string)
    ensures s != [] && s[0] == '.' ==> StartsWith(s[1..], r)
    ensures forall i :: 0 <= i < |r| ==> IsDigit(r[i])
  {
    if s != [] && s[0] == '.' then LeadingDigits(s[1..]) else []
  }

  /** The value of an exponent part (`e` or `E`, an optional sign, digits) at the start of `s`; 0 when there is none. */
  function ExponentValue(s: string): int {
    if s == [] || (s[0] != 'e' && s[0] != 'E') then 0
    else
      var digits := LeadingDigits(SkipSign(s[1..]));
      if digits == [] then 0
      else if |s| > 1 && s[1] == '-' then -(DecimalValue(digits) as int)
      else DecimalValue(digits)
  }

  /**
   * `parseFloat(s)`: skip leading white space and an optional sign, then read
   * the number the rest starts with; a minus sign negates it.
   */
  function ParseFloat(s: string): (r: JsFloat)
    ensures r.FloatNaN? ==> ParseInt(s).NaN?
    ensures ParseInt(s).Num? ==> r.Finite?
  {
    var t := TrimStart(s);
    var u := UnsignedFloat(SkipSign(t));
    if t != [] && t[0] == '-' then Negated(u) else u
  }

  function Negated(x: JsFloat): JsFloat {
    match x
    case FloatNaN => FloatNaN
    case Finite(v) => Finite(-v)
    case Infinite(negative) => Infinite(!negative)
  }

  /**
   * The number an unsigned text starts with: `Infinity`, or the longest
   * decimal literal `digits[.digits][e[sign]digits]` with at least one digit
   * before or after the point; NaN when there is none.
   */
  function UnsignedFloat(u: string): (r: JsFloat)
    ensures r.FloatNaN? ==> LeadingDigits(u) == []
    ensures LeadingDigits(u) != [] ==> r.Finite?
  {
    if StartsWith(u, "Infinity") then
      assert u[0] == 'I';
      Infinite(false)
    else
      var whole := LeadingDigits(u);
      var after := u[|whole|..];
      var fraction := FractionDigits(after);
      if whole == [] && fraction == [] then FloatNaN
      else
        var tail := if after != [] && after[0] == '.' then after[1 + |fraction|..] else after;
        Finite(Scaled(Mantissa(whole, fraction), ExponentValue(tail)))
  }

  /** The value of the digits `whole.fraction`. */
  function Mantissa(whole: string, fraction: string): real {
    DecimalValue(whole) as real + DecimalValue(fraction) as real / Pow10(|fraction|)
  }

  /** `x` times ten to the power `e`. */
  function Scaled(x: real, e: int): real {
    x * Pow10(e)
  }

  /** A number under a sign: negated for a minus sign. */
  function Signed(sign: string, x: JsFloat): JsFloat {
    if IsMinus(sign) then Negated(x) else x
  }

  /** After white space and a sign, `parseFloat` reads the unsigned number that follows, negated for `-`. */
  lemma ParseFloatSigned(ws: string, sign: string, body: string)
    requires forall i :: 0 <= i < |ws| ==> IsSpace(ws[i])
    requires IsSign(sign)
    requires body != [] && !IsSpace(body[0]) && body[0] != '+' && body[0] != '-'
    ensures ParseFloat(ws + sign + body) == Signed(sign, UnsignedFloat(body))
  {
    assert TrimStart(ws + sign + body) == sign + body by {
      TrimStartSigned(ws, sign, body);
    }
    SkipSignOf(sign, body);
  }

  /** Text that does not start with `I` does not start with `Infinity`. */
  lemma NotInfinity(s: string)
    requires s != [] && s[0] != 'I'
    ensures !StartsWith(s, "Infinity")
  {
  }

  /** An unsigned decimal `whole.fraction` (either part may be empty, not both) that no digit or exponent follows. */
  lemma UnsignedDecimal(whole: string, fraction: string, rest: string)
    requires forall i :: 0 <= i < |whole| ==> IsDigit(whole[i])
    requires forall i :: 0 <= i < |fraction| ==> IsDigit(fraction[i])
    requires whole + fraction != []
    requires rest == [] || (!IsDigit(rest[0]) && rest[0] != 'e' && rest[0] != 'E')
    ensures UnsignedFloat(whole + "." + fraction + rest) == Finite(Mantissa(whole, fraction))
  {
    Regroup4(whole, ".", fraction, rest);
    DecimalParts(whole, fraction, rest);
    assert ExponentValue(rest) == 0;
    assert Scaled(Mantissa(whole, fraction), 0) == Mantissa(whole, fraction);
  }

  /** How `UnsignedFloat` splits `whole.fraction` followed by `rest`. */
  lemma DecimalParts(whole: string, fraction: string, rest: string)
    requires forall i :: 0 <= i < |whole| ==> IsDigit(whole[i])
    requires forall i :: 0 <= i < |fraction| ==> IsDigit(fraction[i])
    requires rest == [] || !IsDigit(rest[0])
    ensures var after := "." + (fraction + rest);
      var body := whole + after;
      !StartsWith(body, "Infinity") && LeadingDigits(body) == whole && body[|whole|..] == after
      && after[0] == '.' && FractionDigits(after) == fraction && after[1 + |fraction|..] == rest
  {
    var after := "." + (fraction + rest);
    var body := whole + after;
    assert body[0] != 'I' by {
      if whole == [] { assert body == after; } else { assert body[0] == whole[0]; }
    }
    NotInfinity(body);
    LeadingDigitsOfNumeral(whole, after);
    assert after[1..] == fraction + rest;
    LeadingDigitsOfNumeral(fraction, rest);
  }

  /**
   * `parseFloat` reads a decimal `whole.fraction` (either part may be empty,
   * not both) after white space and a sign, when no digit or exponent follows.
   */
  lemma ParseFloatOfDecimal(ws: string, sign: string, whole: string, fraction: string, rest: string)
    requires forall i :: 0 <= i < |ws| ==> IsSpace(ws[i])
    requires IsSign(sign)
    requires forall i :: 0 <= i < |whole| ==> IsDigit(whole[i])
    requires forall i :: 0 <= i < |fraction| ==> IsDigit(fraction[i])
    requires whole + fraction != []
    requires rest == [] || (!IsDigit(rest[0]) && rest[0] != 'e' && rest[0] != 'E')
    ensures ParseFloat(ws + sign + (whole + "." + fraction + rest))
         == Signed(sign, Finite(Mantissa(whole, fraction)))
  {
    var body := whole + "." + fraction + rest;
    assert body[0] != '+' && body[0] != '-' && !IsSpace(body[0]) by {
      if whole == [] { assert body[0] == '.'; } else { assert body[0] == whole[0]; }
    }
    ParseFloatSigned(ws, sign, body);
    UnsignedDecimal(whole, fraction, rest);
  }

  lemma Regroup4(a: string, b: string, c: string, d: string)
    ensures a + b + c + d == a + (b + (c + d))
  {
  }

  lemma Regroup(a: string, b: string, c: string, d: string, e: string)
    ensures a + b + c + d + e == a + (b + (c + (d + e)))
  {
  }

  /** An unsigned whole number that nothing numeric follows. */
  lemma UnsignedNumeral(n: nat, rest: string)
    requires EndsNumber(rest)
    ensures UnsignedFloat(NatToString(n) + rest) == Finite(n as real)
  {
    var d := NatToString(n);
    WholeParts(d, rest);
    assert FractionDigits(rest) == [] && ExponentValue(rest) == 0;
    assert Scaled(Mantissa(d, []), 0) == DecimalValue(d) as real;
    DecimalOfNatToString(n);
  }

  /** How `UnsignedFloat` splits digits followed by `rest`. */
  lemma WholeParts(d: string, rest: string)
    requires d != [] && forall i :: 0 <= i < |d| ==> IsDigit(d[i])
    requires rest == [] || !IsDigit(rest[0])
    ensures !StartsWith(d + rest, "Infinity") && LeadingDigits(d + rest) == d && (d + rest)[|d|..] == rest
  {
    assert (d + rest)[0] == d[0];
    NotInfinity(d + rest);
    LeadingDigitsOfNumeral(d, rest);
  }

  /** Digits followed by text that cannot continue a number. */
  predicate EndsNumber(rest: string) {
    rest == [] || (!IsDigit(rest[0]) && rest[0] != '.' && rest[0] != 'e' && rest[0] != 'E')
  }

  /** `parseFloat` agrees with `parseInt` on a whole number that nothing numeric follows. */
  lemma ParseFloatOfNumeral(ws: string, sign: string, n: nat, rest: string)
    requires forall i :: 0 <= i < |ws| ==> IsSpace(ws[i])
    requires IsSign(sign)
    requires EndsNumber(rest)
    ensures ParseFloat(ws + sign + NatToString(n) + rest) == Signed(sign, Finite(n as real))
    ensures ParseInt(ws + sign + NatToString(n) + rest) == if IsMinus(sign) then Num(-(n as int)) else Num(n)
  {
    var d := NatToString(n);
    var body := d + rest;
    ParseIntOfNumeral(ws, sign, n, rest);
    assert ws + sign + d + rest == ws + sign + body by {
      SeqAssoc(ws + sign, d, rest);
    }
    assert body[0] == d[0];
    ParseFloatSigned(ws, sign, body);
    UnsignedNumeral(n, rest);
  }

  /** `parseFloat` reads `Infinity` after white space and a sign, whatever follows. */
  lemma ParseFloatOfInfinity(ws: string, sign: string, rest: string)
    requires forall i :: 0 <= i < |ws| ==> IsSpace(ws[i])
    requires IsSign(sign)
    ensures ParseFloat(ws + sign + "Infinity" + rest) == Infinite(IsMinus(sign))
  {
    var body := "Infinity" + rest;
    assert ws + sign + "Infinity" + rest == ws + sign + body by {
      SeqAssoc(ws + sign, "Infinity", rest);
    }
    assert body[0] == 'I';
    ParseFloatSigned(ws, sign, body);
    assert body[..|"Infinity"|] == "Infinity";
  }

  /** A whole number with an exponent: `parseFloat("1e5")` is 100000, where `parseInt` stops at 1. */
  lemma ParseFloatOfExponent(n: nat, k: nat, rest: string)
    requires rest == [] || !IsDigit(rest[0])
    ensures ParseFloat(NatToString(n) + "e" + NatToString(k) + rest) == Finite(Scaled(n as real, k))
    ensures ParseInt(NatToString(n) + "e" + NatToString(k) + rest) == Num(n)
  {
    var d := NatToString(n);
    var tail := "e" + (NatToString(k) + rest);
    Regroup("", d, "e", NatToString(k), rest);
    assert "" + d == d && d + tail == "" + (d + tail);
    assert (d + tail)[0] == d[0];
    ParseFloatSigned("", "", d + tail);
    UnsignedExponent(d, k, rest);
    DecimalOfNatToString(n);
    ParseIntOfNumeral("", "", n, tail);
    assert "" + "" + d + tail == "" + (d + tail);
  }

  /** Digits, `e` and a whole exponent: the digits' value scaled by ten to that power. */
  lemma UnsignedExponent(d: string, k: nat, rest: string)
    requires d != [] && forall i :: 0 <= i < |d| ==> IsDigit(d[i])
    requires rest == [] || !IsDigit(rest[0])
    ensures UnsignedFloat(d + ("e" + (NatToString(k) + rest))) == Finite(Scaled(DecimalValue(d) as real, k))
  {
    var tail := "e" + (NatToString(k) + rest);
    WholeParts(d, tail);
    assert FractionDigits(tail) == [];
    ExponentOf(k, rest);
    assert Mantissa(d, []) == DecimalValue(d) as real;
  }

  /** The exponent part `e` and digits has the digits' value. */
  lemma ExponentOf(k: nat, rest: string)
    requires rest == [] || !IsDigit(rest[0])
    ensures ExponentValue("e" + (NatToString(k) + rest)) == k
  {
    var tail := "e" + (NatToString(k) + rest);
    assert tail[1..] == NatToString(k) + rest;
    assert SkipSign(tail[1..]) == tail[1..];
    LeadingDigitsOfNumeral(NatToString(k), rest);
    DecimalOfNatToString(k);
  }

  /** The numerals the examples below are written in. */
  lemma Numerals()
    ensures NatToString(0) == "0" && NatToString(1) == "1" && NatToString(5) == "5"
    ensures NatToString(10000) == "10000"
  {
  }

  /** The example texts, spelled through their numerals. */
  lemma ExampleTexts()
    ensures NatToString(10000) + "." + NatToString(5) == "10000.5"
    ensures "." + NatToString(5) == ".5"
    ensures NatToString(1) + "e" + NatToString(5) + "" == "1e5"
  {
    Numerals();
  }

  lemma NoPrefix(s: string)
    ensures "" + "" + s == s
    ensures "" + "" + s + "" == s
  {
  }

  /** A one-digit fraction counts in tenths. */
  lemma MantissaOfTenths(whole: string, f: nat)
    requires f < 10
    ensures Mantissa(whole, NatToString(f)) == DecimalValue(whole) as real + f as real / 10.0
  {
    assert Pow10(1) == 10.0;
    DecimalOfNatToString(f);
  }

  /** A bare decimal `whole.fraction`, nothing around it, reads as its exact value. */
  lemma ParseFloatOfBareDecimal(whole: string, fraction: string)
    requires forall i :: 0 <= i < |whole| ==> IsDigit(whole[i])
    requires forall i :: 0 <= i < |fraction| ==> IsDigit(fraction[i])
    requires whole + fraction != []
    ensures ParseFloat(whole + "." + fraction) == Finite(Mantissa(whole, fraction))
  {
    var b := whole + "." + fraction;
    assert b[0] == '.' || b[0] == whole[0];
    assert ParseFloat(b) == UnsignedFloat(b) by {
      UnsignedStart(b);
    }
    assert b + "" == b;
    UnsignedDecimal(whole, fraction, "");
  }

  /** Text that starts with neither white space nor a sign is read by `parseFloat` as it stands. */
  lemma UnsignedStart(b: string)
    requires b != [] && !IsSpace(b[0]) && b[0] != '+' && b[0] != '-'
    ensures ParseFloat(b) == UnsignedFloat(b)
  {
    assert TrimStart(b) == b;
    assert SkipSign(b) == b;
  }

  /** `parseFloat` keeps the fraction that `parseInt` drops: "w.f" with one digit `f` reads as w + f/10. */
  lemma ParseFloatOfTenths(w: nat, f: nat)
    requires f < 10
    ensures ParseFloat(NatToString(w) + "." + NatToString(f)) == Finite(w as real + f as real / 10.0)
  {
    assert Mantissa(NatToString(w), NatToString(f)) == w as real + f as real / 10.0 by {
      MantissaOfTenths(NatToString(w), f);
      DecimalOfNatToString(w);
    }
    ParseFloatOfBareDecimal(NatToString(w), NatToString(f));
  }

  /** `parseInt` stops at the decimal point. */
  lemma ParseIntOfTenths(w: nat, f: nat)
    ensures ParseInt(NatToString(w) + "." + NatToString(f)) == Num(w)
  {
    var d := NatToString(w);
    assert "" + "" + d + ("." + NatToString(f)) == d + "." + NatToString(f) by {
      NoPrefix(d);
      SeqAssoc(d, ".", NatToString(f));
    }
    ParseIntOfNumeral("", "", w, "." + NatToString(f));
  }

  /** A concrete reading: `parseFloat` keeps the half that `parseInt` cuts off. */
  lemma ParseFloatFractionExample()
    ensures ParseFloat("10000.5") == Finite(10000.5) && ParseInt("10000.5") == Num(10000)
  {
    ExampleTexts();
    ParseFloatOfTenths(10000, 5);
    ParseIntOfTenths(10000, 5);
  }

  /** A fraction without a whole part: ".f" reads as f/10. */
  lemma ParseFloatOfTenthsOnly(f: nat)
    requires f < 10
    ensures ParseFloat("." + NatToString(f)) == Finite(f as real / 10.0)
  {
    var t := "." + NatToString(f);
    assert "" + "." + NatToString(f) == t;
    ParseFloatOfBareDecimal("", NatToString(f));
    assert ParseFloat(t) == Finite(Mantissa("", NatToString(f)));
    assert Mantissa("", NatToString(f)) == f as real / 10.0 by {
      MantissaOfTenths("", f);
      assert DecimalValue("") == 0;
    }
  }

  /** Without a digit before the decimal point `parseInt` finds no number. */
  lemma ParseIntOfTenthsOnly(f: nat)
    ensures ParseInt("." + NatToString(f)) == NaN
  {
    var t := "." + NatToString(f);
    NoPrefix(t);
    ParseIntSigned("", "", t);
    assert LeadingDigits(t) == [];
  }

  /** A concrete reading: a fraction without a whole part is a number for `parseFloat` only. */
  lemma ParseFloatFractionOnlyExample()
    ensures ParseFloat(".5") == Finite(0.5) && ParseInt(".5") == NaN
  {
    ExampleTexts();
    ParseFloatOfTenthsOnly(5);
    ParseIntOfTenthsOnly(5);
  }

  /** Concrete readings with an exponent: "1e5" is 100000 for `parseFloat` and 1 for `parseInt`. */
  lemma ParseFloatExponentExample()
    ensures ParseFloat("1e5") == Finite(100000.0) && ParseInt("1e5") == Num(1)
  {
    ExampleTexts();
    ParseFloatOfExponent(1, 5, "");
    assert Scaled(1.0, 5) == 100000.0 by {
      assert Pow10(5) == 100000.0;
    }
  }

  /** A concrete reading: "0" is the number zero. */
  lemma ParseFloatZeroExample()
    ensures ParseFloat("0") == Finite(0.0)
  {
    Numerals();
    ParseFloatOfNumeral("", "", 0, "");
    NoPrefix(NatToString(0));
  }

  /** A concrete reading: text that does not start with a number is NaN. */
  lemma ParseFloatNaNExample()
    ensures ParseFloat("abc") == FloatNaN
  {
    UnsignedStart("abc");
    assert !StartsWith("abc", "Infinity") && LeadingDigits("abc") == [];
    assert FractionDigits("abc") == [];
  }
}
