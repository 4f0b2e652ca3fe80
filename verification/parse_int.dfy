/**
 * JavaScript's global `parseInt` with no radix argument, as applied to the form field
 * `viewportWidth` and to the click coordinates captured from the query string.
 */
module JsParseInt {
  import opened Wrappers
  import opened Decimal

  /** ECMAScript WhiteSpace and LineTerminator code points, which `parseInt` skips. */
  predicate IsJsSpace(c: char) {
    || c == '\t' || c == '\n' || c == '\U{B}' || c == '\U{C}' || c == '\r' || c == ' '
    || c == '\U{A0}' || c == '\U{1680}' || ('\U{2000}' <= c <= '\U{200A}')
    || c == '\U{2028}' || c == '\U{2029}' || c == '\U{202F}' || c == '\U{205F}'
    || c == '\U{3000}' || c == '\U{FEFF}'
  }

  /** Digits and signs are not white space. */
  lemma NotSpace(c: char)
    requires '0' <= c <= '9' || c == '-' || c == '+'
    ensures !IsJsSpace(c)
  {
  }

  function TrimStart(s: string): (r: string)
    ensures r == [] || !IsJsSpace(r[0])
    ensures |r| <= |s| && r == s[|s| - |r|..]
  {
    if s != [] && IsJsSpace(s[0]) then TrimStart(s[1..]) else s
  }

  /** The longest prefix of `s` made of digits of `radix`. */
  function LeadingDigits(s: string, radix: nat): (p: string)
    ensures p <= s && AllIn(p, radix)
    ensures |p| < |s| ==> DigitOf(s[|p|]) >= radix
  {
    if s != [] && DigitOf(s[0]) < radix then [s[0]] + LeadingDigits(s[1..], radix) else []
  }

  /**
   * JavaScript's `parseInt(s)` with no radix argument, on integers: skip leading white space,
   * read an optional sign, switch to radix 16 after a `0x`/`0X` prefix, then read the longest
   * run of digits. `None` is `NaN` (no digit at all).
   */
  function ParseInt(s: string): Option<int>
  {
    ParseSigned(TrimStart(s))
  }

  /** `parseInt` after the white space: an optional `+` or `-`, then the magnitude. */
  function ParseSigned(t: string): Option<int>
  {
    if t != [] && (t[0] == '-' || t[0] == '+') then
      match ParseMagnitude(t[1..])
      case None => None
      case Some(m) => Some(if t[0] == '-' then 0 - m else m)
    else
      match ParseMagnitude(t)
      case None => None
      case Some(m) => Some(m)
  }

  /** `parseInt` after the sign: hexadecimal after `0x`/`0X`, decimal otherwise. */
  function ParseMagnitude(u: string): Option<nat>
  {
    var hex := |u| >= 2 && u[0] == '0' && (u[1] == 'x' || u[1] == 'X');
    var radix := if hex then 16 else 10;
    var z := LeadingDigits(if hex then u[2..] else u, radix);
    if z == [] then None else Some(Value(z, radix))
  }

  lemma {:induction false} LeadingDigitsAll(s: string, radix: nat)
    requires AllIn(s, radix)
    ensures LeadingDigits(s, radix) == s
  {
    if s != [] {
      LeadingDigitsAll(s[1..], radix);
    }
  }

  /** On a non-empty string of decimal digits, `parseInt` is the decimal value. */
  lemma ParseIntDigits(s: string)
    requires |s| > 0 && AllDigits(s)
    ensures ParseInt(s) == Some(DigitsValue(s))
  {
    assert !IsJsSpace(s[0]);
    assert TrimStart(s) == s;
    ParseMagnitudeDigits(s);
  }

  lemma ParseMagnitudeDigits(s: string)
    requires |s| > 0 && AllDigits(s)
    ensures ParseMagnitude(s) == Some(DigitsValue(s))
  {
    assert AllIn(s, 10);
    assert |s| >= 2 ==> IsDigit(s[1]);
    LeadingDigitsAll(s, 10);
  }

  /** `parseInt(n + "")` gives back `n`. */
  lemma ParseIntNatToString(n: nat)
    ensures ParseInt(NatToString(n)) == Some(n)
  {
    NatToStringCanonical(n);
    ParseIntDigits(NatToString(n));
  }

  /** Leading white space does not change what `parseInt` reads, even when nothing else follows. */
  lemma ParseIntSkipsSpace(pad: string, t: string)
    requires forall i :: 0 <= i < |pad| ==> IsJsSpace(pad[i])
    ensures ParseInt(pad + t) == ParseInt(t)
  {
    TrimSpacePrefix(pad, t);
  }

  /** A leading minus sign negates the value read. */
  lemma ParseIntNegative(n: nat)
    ensures ParseInt("-" + NatToString(n)) == Some(0 - n)
  {
    var s := NatToString(n);
    NatToStringCanonical(n);
    var t := "-" + s;
    assert TrimStart(t) == t;
    assert t[0] == '-' && t[1..] == s;
    assert ParseMagnitude(s) == Some(n) by {
      ParseMagnitudeDigits(s);
    }
  }

  /** Skipping white space first skips the given white-space prefix. */
  lemma {:induction false} TrimSpacePrefix(pad: string, s: string)
    requires forall i :: 0 <= i < |pad| ==> IsJsSpace(pad[i])
    ensures TrimStart(pad + s) == TrimStart(s)
  {
    if pad != [] {
      assert (pad + s)[0] == pad[0];
      assert (pad + s)[1..] == pad[1..] + s;
      TrimSpacePrefix(pad[1..], s);
    } else {
      assert pad + s == s;
    }
  }

  lemma ParseMagnitudeHex(h: string)
    requires |h| > 0 && AllIn(h, 16)
    ensures ParseMagnitude("0x" + h) == Some(Value(h, 16))
  {
    var u := "0x" + h;
    assert u[0] == '0' && u[1] == 'x' && u[2..] == h;
    LeadingDigitsAll(h, 16);
  }

  /** A `0x` prefix switches `parseInt` to hexadecimal. */
  lemma ParseIntHex(h: string)
    requires |h| > 0 && AllIn(h, 16)
    ensures ParseInt("0x" + h) == Some(Value(h, 16))
  {
    var u := "0x" + h;
    assert u[0] == '0';
    NotSpace(u[0]);
    assert TrimStart(u) == u;
    assert ParseSigned(u) == ParseMagnitude(u);
    ParseMagnitudeHex(h);
  }
}
