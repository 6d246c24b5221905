/** JavaScript's global `parseInt` with no radix argument, on exact
    integers: leading whitespace is skipped, one sign is read, a `0x`/`0X`
    prefix switches to hexadecimal, and the longest run of digits after
    that is the value. No digits at all is `NaN`, written `None` here. */
module JsNumber {
  import opened Wrappers
  import opened Text

  /** The length of the run of `radix` digits at the front of `s`. */
  function DigitRun(s: string, radix: nat): (k: nat)
    ensures k <= |s|
    ensures AllRadixDigits(s[..k], radix)
    ensures k < |s| ==> DigitValue(s[k], radix).None?
  {
    if s == [] || DigitValue(s[0], radix).None? then 0
    else
      var k := 1 + DigitRun(s[1..], radix);
      assert s[..k] == [s[0]] + s[1..][..k - 1];
      k
  }

  /** The sign in front of the number and the text after it. */
  function SplitSign(t: string): (int, string) {
    if t != [] && t[0] == '-' then (-1, t[1..])
    else if t != [] && t[0] == '+' then (1, t[1..])
    else (1, t)
  }

  /** The radix the text after the sign is read in, and the text after the
      `0x` prefix when there is one. */
  function SplitRadix(u: string): (nat, string) {
    if |u| >= 2 && u[0] == '0' && (u[1] == 'x' || u[1] == 'X') then (16, u[2..]) else (10, u)
  }

  /** The value of the text after the sign. */
  function UnsignedValue(u: string): Option<nat> {
    var (radix, w) := SplitRadix(u);
    var k := DigitRun(w, radix);
    if k == 0 then None else Some(RadixValue(w[..k], radix))
  }

  /** The number read after the leading whitespace: the sign applied to
      the value of the rest. */
  function ParseSigned(t: string): Option<int> {
    var (sign, u) := SplitSign(t);
    match UnsignedValue(u)
    case None => None
    case Some(v) => Some(sign * v)
  }

  /** `parseInt(s)`: `None` for `NaN`. A negative zero is `Some(0)`. */
  function ParseInt(s: string): (r: Option<int>)
    ensures var u := SplitSign(s[LeadingWhitespace(s)..]).1;
      var (radix, w) := SplitRadix(u);
      r.None? <==> w == [] || DigitValue(w[0], radix).None?
  {
    ParseSigned(s[LeadingWhitespace(s)..])
  }

  /** A text that starts with a digit has no leading whitespace. */
  lemma DigitStartHasNoWhitespace(s: string)
    requires s != [] && IsDigit(s[0])
    ensures LeadingWhitespace(s) == 0
  {
    assert !IsWhitespace(s[0]);
  }

  /** A text that starts with a sign has no leading whitespace. */
  lemma SignStartHasNoWhitespace(s: string)
    requires s != [] && (s[0] == '-' || s[0] == '+')
    ensures LeadingWhitespace(s) == 0
  {
    assert !IsWhitespace(s[0]);
  }

  /** The digit run of `a + b` is exactly `a` when `b` does not go on with
      a digit. */
  lemma {:induction false} DigitRunOfPrefix(a: string, b: string, radix: nat)
    requires AllRadixDigits(a, radix)
    requires b == [] || DigitValue(b[0], radix).None?
    ensures DigitRun(a + b, radix) == |a|
  {
    if a != [] {
      assert (a + b)[1..] == a[1..] + b;
      DigitRunOfPrefix(a[1..], b, radix);
    }
  }

  /** The decimal text of `n`, followed by anything that does not continue
      the number, reads back as `n`. After a lone `0` an `x` would start a
      hexadecimal prefix, so that case is excluded. */
  lemma DecimalReadsBack(n: nat, t: string)
    requires t == [] || !IsDigit(t[0])
    requires n == 0 && t != [] ==> t[0] != 'x' && t[0] != 'X'
    ensures UnsignedValue(NatToString(n) + t) == Some(n)
  {
    var a := NatToString(n);
    var u := a + t;
    assert SplitRadix(u) == (10, u);
    DigitRunOfPrefix(a, t, 10);
    assert u[..|a|] == a;
    NatToStringReadsBack(n);
  }

  /** `parseInt` skips leading whitespace. */
  lemma ParseIntSkipsWhitespace(ws: string, s: string)
    requires AllWhitespace(ws)
    ensures ParseInt(ws + s) == ParseInt(s)
  {
    AfterWhitespaceConcat(ws, s);
  }

  /** What is left after the leading whitespace of `ws + s` is what is left
      after that of `s`. */
  lemma AfterWhitespaceConcat(ws: string, s: string)
    requires AllWhitespace(ws)
    ensures (ws + s)[LeadingWhitespace(ws + s)..] == s[LeadingWhitespace(s)..]
  {
    var k := LeadingWhitespace(s);
    var x := ws + s;
    LeadingWhitespaceConcat(ws, s);
    assert x[|ws|..] == s;
    assert x[|ws| + k..] == x[|ws|..][k..];
  }

  /** The decimal text of `n` followed by `t`, read with an optional sign. */
  lemma ParseSignedDecimal(n: nat, t: string)
    requires t == [] || !IsDigit(t[0])
    requires n == 0 && t != [] ==> t[0] != 'x' && t[0] != 'X'
    ensures ParseSigned(NatToString(n) + t) == Some(n)
    ensures ParseSigned("-" + (NatToString(n) + t)) == Some(-(n as int))
    ensures ParseSigned("+" + (NatToString(n) + t)) == Some(n)
  {
    var u := NatToString(n) + t;
    DecimalReadsBack(n, t);
    assert u[0] == NatToString(n)[0];
    assert IsDigit(u[0]);
    ParseSignedWithSign("", u);
    ParseSignedWithSign("-", u);
    ParseSignedWithSign("+", u);
    assert "" + u == u;
  }

  /** `parseInt` reads back the decimal text of any integer, with or without
      a sign, whatever non-digit text follows it. */
  lemma ParseIntOfDecimal(n: nat, t: string)
    requires t == [] || !IsDigit(t[0])
    requires n == 0 && t != [] ==> t[0] != 'x' && t[0] != 'X'
    ensures ParseInt(NatToString(n) + t) == Some(n)
    ensures ParseInt("-" + NatToString(n) + t) == Some(-(n as int))
    ensures ParseInt("+" + NatToString(n) + t) == Some(n)
  {
    var a := NatToString(n);
    var u := a + t;
    ParseSignedDecimal(n, t);
    assert u[0] == a[0];
    DigitStartHasNoWhitespace(u);
    ConcatAssoc("-", a, t);
    ConcatAssoc("+", a, t);
    SignStartHasNoWhitespace("-" + u);
    SignStartHasNoWhitespace("+" + u);
  }

  /** `v` with the sign written in front of it applied. */
  function Signed(sign: string, v: nat): int {
    if sign == "-" then -(v as int) else v
  }

  /** Text that does not start with whitespace has none to skip. */
  lemma StartWithoutWhitespace(s: string)
    requires s != [] ==> !IsWhitespace(s[0])
    ensures s[LeadingWhitespace(s)..] == s
  {
  }

  /** A sign in front of unsigned text applies to its value. */
  lemma ParseSignedWithSign(sign: string, u: string)
    requires sign == "" || sign == "-" || sign == "+"
    requires u == [] || (u[0] != '-' && u[0] != '+')
    ensures ParseSigned(sign + u) ==
      match UnsignedValue(u)
      case None => None
      case Some(v) => if sign == "-" then Some(-(v as int)) else Some(v)
  {
    if sign != "" {
      assert (sign + u)[1..] == u;
    } else {
      assert sign + u == u;
    }
  }

  /** After `0x` or `0X`, the hexadecimal digits up to the first character
      that is not one are the value; none at all is `NaN`. */
  lemma HexReadsBack(x: char, h: string, t: string)
    requires x == 'x' || x == 'X'
    requires AllRadixDigits(h, 16)
    requires t == [] || DigitValue(t[0], 16).None?
    ensures UnsignedValue(['0', x] + (h + t)) == if h == [] then None else Some(RadixValue(h, 16))
  {
    var u := ['0', x] + (h + t);
    assert SplitRadix(u) == (16, h + t) by {
      assert u[2..] == h + t;
    }
    DigitRunOfPrefix(h, t, 16);
    assert (h + t)[..|h|] == h;
  }

  /** Whitespace, then an optional sign, then unsigned text: the value of
      the unsigned text, negated after a minus. */
  lemma ParseIntOfSignedText(ws: string, sign: string, u: string)
    requires AllWhitespace(ws)
    requires sign == "" || sign == "-" || sign == "+"
    requires u == [] || (u[0] != '-' && u[0] != '+' && !IsWhitespace(u[0]))
    ensures UnsignedValue(u).None? ==> ParseInt(ws + sign + u).None?
    ensures UnsignedValue(u).Some? ==> ParseInt(ws + sign + u) == Some(Signed(sign, UnsignedValue(u).value))
  {
    var rest := sign + u;
    ConcatAssoc(ws, sign, u);
    ParseIntSkipsWhitespace(ws, rest);
    StartWithoutWhitespace(rest);
    assert ParseInt(rest) == ParseSigned(rest);
    ParseSignedWithSign(sign, u);
  }

  /** Whitespace, then an optional sign, then `0x` or `0X`: the hexadecimal
      digits that follow are the value, up to the first character that is
      not one; with no such digit the text is `NaN`. */
  lemma ParseIntOfHex(ws: string, sign: string, x: char, h: string, t: string)
    requires AllWhitespace(ws)
    requires sign == "" || sign == "-" || sign == "+"
    requires x == 'x' || x == 'X'
    requires AllRadixDigits(h, 16)
    requires t == [] || DigitValue(t[0], 16).None?
    ensures ParseInt(ws + sign + ['0', x] + h + t) ==
      if h == [] then None else Some(Signed(sign, RadixValue(h, 16)))
  {
    var u := ['0', x] + (h + t);
    var p := ws + sign;
    ConcatAssoc(p + ['0', x], h, t);
    ConcatAssoc(p, ['0', x], h + t);
    HexReadsBack(x, h, t);
    ParseIntOfSignedText(ws, sign, u);
  }

  /** Whitespace, then an optional sign, then text that does not start
      with a digit, is `NaN`. Without a sign the text must not itself start
      with whitespace or a sign, which would be read as part of the
      prefix. */
  lemma ParseIntWithoutDigits(ws: string, sign: string, t: string)
    requires AllWhitespace(ws)
    requires sign == "" || sign == "-" || sign == "+"
    requires t == [] || !IsDigit(t[0])
    requires sign == "" && t != [] ==> !IsWhitespace(t[0]) && t[0] != '-' && t[0] != '+'
    ensures ParseInt(ws + sign + t) == None
  {
    assert SplitRadix(t) == (10, t);
    if sign == "" {
      ParseIntOfSignedText(ws, sign, t);
    } else {
      var rest := sign + t;
      ConcatAssoc(ws, sign, t);
      ParseIntSkipsWhitespace(ws, rest);
      StartWithoutWhitespace(rest);
      assert rest[1..] == t;
    }
  }

  /** A number is read up to the first character that is not a digit,
      whatever whitespace comes before it. */
  lemma ParseIntOfPaddedDecimal(ws: string, n: nat, t: string)
    requires AllWhitespace(ws)
    requires t == [] || !IsDigit(t[0])
    requires n == 0 && t != [] ==> t[0] != 'x' && t[0] != 'X'
    ensures ParseInt(ws + NatToString(n) + t) == Some(n)
  {
    ParseIntOfDecimal(n, t);
    ConcatAssoc(ws, NatToString(n), t);
    ParseIntSkipsWhitespace(ws, NatToString(n) + t);
  }
}
