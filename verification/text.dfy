/** The JavaScript string primitives the application relies on: `trim`,
    `join`, decimal `toString` of a non-negative integer, `indexOf` and
    `replace` with a string pattern, and ASCII `toUpperCase`. */
module Text {
  import opened Wrappers

  /** The code points `String.prototype.trim` removes: the WhiteSpace and
      LineTerminator characters of ECMAScript. */
  predicate IsWhitespace(c: char) {
    || c == '\t' || c == '\n' || c == '\U{000B}' || c == '\U{000C}' || c == '\r'
    || c == ' ' || c == '\U{00A0}' || c == '\U{1680}'
    || ('\U{2000}' <= c <= '\U{200A}')
    || c == '\U{2028}' || c == '\U{2029}' || c == '\U{202F}' || c == '\U{205F}'
    || c == '\U{3000}' || c == '\U{FEFF}'
  }

  predicate AllWhitespace(s: string) {
    forall i :: 0 <= i < |s| ==> IsWhitespace(s[i])
  }

  /** The number of whitespace characters at the front of `s`. */
  function LeadingWhitespace(s: string): (k: nat)
    ensures k <= |s|
    ensures AllWhitespace(s[..k])
    ensures k < |s| ==> !IsWhitespace(s[k])
  {
    if |s| == 0 || !IsWhitespace(s[0]) then 0
    else
      var k := 1 + LeadingWhitespace(s[1..]);
      assert s[..k] == [s[0]] + s[1..][..k - 1];
      k
  }

  /** The number of whitespace characters at the end of `s`. */
  function TrailingWhitespace(s: string): (k: nat)
    ensures k <= |s|
    ensures AllWhitespace(s[|s| - k..])
    ensures k < |s| ==> !IsWhitespace(s[|s| - k - 1])
  {
    if |s| == 0 || !IsWhitespace(s[|s| - 1]) then 0
    else
      var k := 1 + TrailingWhitespace(s[..|s| - 1]);
      assert s[|s| - k..] == s[..|s| - 1][|s| - k..] + [s[|s| - 1]];
      k
  }

  /** `s.trim()`: the middle slice of `s` left once the whitespace at both
      ends is removed. */
  function Trim(s: string): (r: string)
    ensures var i := LeadingWhitespace(s);
            i + |r| <= |s| && r == s[i..i + |r|] && AllWhitespace(s[i + |r|..])
    ensures r != [] ==> !IsWhitespace(r[0]) && !IsWhitespace(r[|r| - 1])
    ensures r == [] <==> AllWhitespace(s)
  {
    var i := LeadingWhitespace(s);
    var t := s[i..];
    var r := t[..|t| - TrailingWhitespace(t)];
    assert t[|t| - TrailingWhitespace(t)..] == s[i + |r|..];
    assert r == [] ==> s == s[..i] + s[i..];
    r
  }

  /** A string whose `trim()` is empty, i.e. a falsy value once trimmed. */
  predicate IsBlank(s: string) {
    Trim(s) == []
  }

  /** Trimming an already trimmed string changes nothing. */
  lemma TrimIdempotent(s: string)
    ensures Trim(Trim(s)) == Trim(s)
  {
    var r := Trim(s);
    assert LeadingWhitespace(r) == 0;
    assert TrailingWhitespace(r) == 0;
  }

  /** The leading whitespace of `ws + s` is `ws` followed by that of `s`. */
  lemma {:induction false} LeadingWhitespaceConcat(ws: string, s: string)
    requires AllWhitespace(ws)
    ensures LeadingWhitespace(ws + s) == |ws| + LeadingWhitespace(s)
  {
    if ws != [] {
      assert (ws + s)[0] == ws[0] && IsWhitespace(ws[0]);
      assert (ws + s)[1..] == ws[1..] + s;
      LeadingWhitespaceConcat(ws[1..], s);
      assert LeadingWhitespace(ws + s) == 1 + LeadingWhitespace((ws + s)[1..]);
    } else {
      assert ws + s == s;
    }
  }

  /** Trimming text padded with whitespace on both sides gives back the
      text, provided it starts and ends with a non-whitespace character. */
  lemma TrimOfPadded(ws1: string, core: string, ws2: string)
    requires AllWhitespace(ws1) && AllWhitespace(ws2)
    requires core != [] && !IsWhitespace(core[0]) && !IsWhitespace(core[|core| - 1])
    ensures Trim(ws1 + core + ws2) == core
  {
    var s := ws1 + core + ws2;
    var i := |ws1|;
    assert s[i..] == core + ws2;
    LeadingWhitespaceConcat(ws1, core + ws2);
    assert ws1 + (core + ws2) == s;
    assert LeadingWhitespace(core + ws2) == 0 by {
      assert (core + ws2)[0] == core[0];
    }
    var r := Trim(s);
    assert !IsWhitespace(s[i]);
    assert s[i + |core| - 1] == core[|core| - 1];
    assert s[i..i + |core|] == core;
  }

  /** `parts.join(sep)`. */
  function Join(parts: seq<string>, sep: string): (r: string)
    ensures parts == [] ==> r == []
    ensures |parts| == 1 ==> r == parts[0]
    ensures parts != [] ==> |parts[0]| <= |r| && r[..|parts[0]|] == parts[0]
  {
    if |parts| == 0 then ""
    else if |parts| == 1 then parts[0]
    else parts[0] + sep + Join(parts[1..], sep)
  }

  /** Joining one more part adds the separator and the part at the end
      (and no separator when the part is the first). */
  lemma {:induction false} JoinSnoc(parts: seq<string>, p: string, sep: string)
    ensures Join(parts + [p], sep) == if parts == [] then p else Join(parts, sep) + sep + p
  {
    if |parts| <= 1 {
    } else {
      assert (parts + [p])[1..] == parts[1..] + [p];
      JoinSnoc(parts[1..], p, sep);
    }
  }

  /** With non-empty parts, the joined text is empty exactly when there are
      no parts. */
  lemma JoinEmptyIff(parts: seq<string>, sep: string)
    requires forall i :: 0 <= i < |parts| ==> parts[i] != []
    ensures Join(parts, sep) == [] <==> parts == []
  {
    if |parts| > 0 {
      assert |Join(parts, sep)| >= |parts[0]| > 0;
    }
  }

  predicate IsDigit(c: char) {
    '0' <= c <= '9'
  }

  /** The value of `c` as a digit of `radix` (10 or 16): the decimal digits,
      then the Latin letters in either case, if that value is below the
      radix. */
  function DigitValue(c: char, radix: nat): (r: Option<nat>)
    ensures r.Some? ==> r.value < radix
    ensures radix == 10 ==> (r.Some? <==> IsDigit(c))
    ensures radix == 10 && IsDigit(c) ==> r == Some(c as int - '0' as int)
  {
    var v: nat :=
      if '0' <= c <= '9' then c as int - '0' as int
      else if 'a' <= c <= 'z' then c as int - 'a' as int + 10
      else if 'A' <= c <= 'Z' then c as int - 'A' as int + 10
      else radix;
    if v < radix then Some(v) else None
  }

  predicate AllRadixDigits(s: string, radix: nat) {
    forall i :: 0 <= i < |s| ==> DigitValue(s[i], radix).Some?
  }

  /** The number a string of `radix` digits denotes, most significant
      digit first. */
  function RadixValue(s: string, radix: nat): nat
    requires AllRadixDigits(s, radix)
  {
    if s == [] then 0 else RadixValue(s[..|s| - 1], radix) * radix + DigitValue(s[|s| - 1], radix).value
  }

  /** The decimal digit of `d`. */
  function DigitChar(d: nat): (c: char)
    requires d < 10
    ensures IsDigit(c) && DigitValue(c, 10) == Some(d)
  {
    (48 + d) as char
  }

  /** `n.toString()` for a non-negative integer: its decimal digits, with no
      leading zero. */
  function NatToString(n: nat): (r: string)
    ensures |r| >= 1
    ensures AllRadixDigits(r, 10)
    ensures r[0] == '0' ==> r == "0"
    decreases n
  {
    if n < 10 then [DigitChar(n)] else NatToString(n / 10) + [DigitChar(n % 10)]
  }

  /** Reading back the decimal text of `n` gives `n`. */
  lemma {:induction false} NatToStringReadsBack(n: nat)
    ensures RadixValue(NatToString(n), 10) == n
    decreases n
  {
    if n >= 10 {
      var s := NatToString(n);
      assert s[..|s| - 1] == NatToString(n / 10);
      NatToStringReadsBack(n / 10);
    }
  }
  /** Distinct numbers have distinct decimal texts. */
  lemma NatToStringInjective(a: nat, b: nat)
    requires NatToString(a) == NatToString(b)
    ensures a == b
  {
    NatToStringReadsBack(a);
    NatToStringReadsBack(b);
  }

  /** `pat` occurs in `s` starting at index `i`. */
  predicate OccursAt(s: string, pat: string, i: nat) {
    i + |pat| <= |s| && s[i..i + |pat|] == pat
  }

  /** `b` sits right after `a` in `a + b + c`. */
  lemma OccursBetween(a: string, b: string, c: string)
    ensures OccursAt(a + b + c, b, |a|)
  {
    assert (a + b + c)[|a|..|a| + |b|] == b;
  }

  /** An occurrence stays where it is when text is appended. */
  lemma OccursInExtension(s: string, t: string, pat: string, i: nat)
    requires OccursAt(s, pat, i)
    ensures OccursAt(s + t, pat, i)
  {
    assert (s + t)[i..i + |pat|] == s[i..i + |pat|];
  }

  /** Seven texts one after another: the second, fourth and sixth are found
      right after the parts before them. */
  function Concat7(a: string, b: string, c: string, d: string, e: string, f: string, g: string): (r: string)
    ensures |r| == |a| + |b| + |c| + |d| + |e| + |f| + |g|
    ensures OccursAt(r, b, |a|)
    ensures OccursAt(r, d, |a| + |b| + |c|)
    ensures OccursAt(r, f, |a| + |b| + |c| + |d| + |e|)
  {
    OccursBetween(a, b, c);
    OccursInExtension(a + b + c, d, b, |a|);
    OccursInExtension(a + b + c + d, e, b, |a|);
    OccursInExtension(a + b + c + d + e, f, b, |a|);
    OccursInExtension(a + b + c + d + e + f, g, b, |a|);
    OccursBetween(a + b + c, d, e);
    OccursInExtension(a + b + c + d + e, f, d, |a + b + c|);
    OccursInExtension(a + b + c + d + e + f, g, d, |a + b + c|);
    OccursBetween(a + b + c + d + e, f, g);
    a + b + c + d + e + f + g
  }

  lemma ConcatAssoc<T>(a: seq<T>, b: seq<T>, c: seq<T>)
    ensures a + b + c == a + (b + c)
  {
  }

  /** `s.indexOf(pat, from)`: the first occurrence at or after `from`. */
  function IndexOfFrom(s: string, pat: string, from: nat): (r: Option<nat>)
    ensures r.Some? ==> from <= r.value && OccursAt(s, pat, r.value)
    ensures r.Some? ==> forall j :: from <= j < r.value ==> !OccursAt(s, pat, j)
    ensures r.None? ==> forall j :: from <= j ==> !OccursAt(s, pat, j)
    decreases |s| - from
  {
    if from + |pat| > |s| then None
    else if s[from..from + |pat|] == pat then Some(from)
    else IndexOfFrom(s, pat, from + 1)
  }

  /** `s.indexOf(pat)`. */
  function IndexOf(s: string, pat: string): (r: Option<nat>)
    ensures r.Some? ==> OccursAt(s, pat, r.value)
    ensures r.Some? ==> forall j :: 0 <= j < r.value ==> !OccursAt(s, pat, j)
    ensures r.None? ==> forall j :: 0 <= j ==> !OccursAt(s, pat, j)
  {
    IndexOfFrom(s, pat, 0)
  }

  /** `s.replace(pat, rep)` with a string pattern and a replacement without
      `$` patterns: only the first occurrence is replaced. */
  function ReplaceFirst(s: string, pat: string, rep: string): (r: string)
    ensures IndexOf(s, pat).None? ==> r == s
    ensures IndexOf(s, pat).Some? ==>
      var i := IndexOf(s, pat).value;
      && |r| == |s| - |pat| + |rep|
      && r[..i] == s[..i]
      && OccursAt(r, rep, i)
      && r[i + |rep|..] == s[i + |pat|..]
  {
    match IndexOf(s, pat)
    case None => s
    case Some(i) => s[..i] + rep + s[i + |pat|..]
  }

  /** `toUpperCase` on one character, for the ASCII letters. */
  function UpperChar(c: char): char {
    if 'a' <= c <= 'z' then (c as int - 32) as char else c
  }

  /** `s.toUpperCase()` for ASCII text. */
  function UpperCase(s: string): (r: string)
    ensures |r| == |s|
    ensures forall i :: 0 <= i < |s| ==> r[i] == UpperChar(s[i])
  {
    if s == [] then [] else [UpperChar(s[0])] + UpperCase(s[1..])
  }

  /** `s.charAt(0).toUpperCase() + s.slice(1)`. */
  function Capitalize(s: string): (r: string)
    ensures |r| == |s|
    ensures s != [] ==> r[0] == UpperChar(s[0]) && r[1..] == s[1..]
  {
    if s == [] then [] else [UpperChar(s[0])] + s[1..]
  }
}
