/** The string helpers of the repository's util library that the configuration code
    calls: `tokenizeString` with its default separators `" \t\n\r"`, `int2String` and
    `string2Int`. util.cc is not part of this model; these follow the C++ standard library
    operations they are built on: `int2String` prints with `std::ostringstream << int`,
    and `string2Int` reads with `std::istringstream >> int` in the C locale and then
    requires the whole string to have been consumed. */
module Util {
  import opened Wrappers

  // ---------------------------------------------------------------------------
  // tokenizeString

  /** The default separators of `tokenizeString`: space, tab, newline, carriage return. */
  predicate IsSeparator(c: char)
  {
    c == ' ' || c == '\t' || c == '\n' || c == '\r'
  }

  /** A token: non-empty and free of separators. */
  predicate IsWord(w: string)
  {
    w != [] && forall i :: 0 <= i < |w| ==> !IsSeparator(w[i])
  }

  /** The length of the leading run of non-separators of `s`. */
  function WordLength(s: string): (n: nat)
    ensures n <= |s|
    ensures forall i :: 0 <= i < n ==> !IsSeparator(s[i])
    ensures n < |s| ==> IsSeparator(s[n])
    decreases |s|
  {
    if s == [] || IsSeparator(s[0]) then 0 else 1 + WordLength(s[1..])
  }

  /** `tokenizeString(s)`: the maximal runs of non-separators of `s`, in order. */
  function Tokenize(s: string): (tokens: seq<string>)
    ensures forall i :: 0 <= i < |tokens| ==> IsWord(tokens[i])
    decreases |s|
  {
    if s == [] then []
    else if IsSeparator(s[0]) then Tokenize(s[1..])
    else
      var n := WordLength(s);
      [s[..n]] + Tokenize(s[n..])
  }

  /** Words joined by single spaces. */
  function JoinWords(words: seq<string>): string
    decreases |words|
  {
    if words == [] then ""
    else if |words| == 1 then words[0]
    else words[0] + " " + JoinWords(words[1..])
  }

  lemma {:induction false} WordLengthBeforeSeparator(a: string, c: char, b: string)
    requires IsSeparator(c)
    ensures WordLength(a + [c] + b) == WordLength(a)
    decreases |a|
  {
    if a != [] && !IsSeparator(a[0]) {
      assert (a + [c] + b)[1..] == a[1..] + [c] + b;
      WordLengthBeforeSeparator(a[1..], c, b);
    } else if a == [] {
      assert (a + [c] + b)[0] == c;
    } else {
      assert (a + [c] + b)[0] == a[0];
    }
  }

  /** A separator splits the tokens of both sides and adds none of its own. */
  lemma {:induction false} TokenizeSeparated(a: string, c: char, b: string)
    requires IsSeparator(c)
    ensures Tokenize(a + [c] + b) == Tokenize(a) + Tokenize(b)
    decreases |a|
  {
    var s := a + [c] + b;
    if a == [] {
      assert s[0] == c && s[1..] == b;
    } else if IsSeparator(a[0]) {
      assert s[0] == a[0];
      assert s[1..] == a[1..] + [c] + b;
      TokenizeSeparated(a[1..], c, b);
    } else {
      var n := WordLength(a);
      WordLengthBeforeSeparator(a, c, b);
      assert s[0] == a[0];
      assert Tokenize(s) == [s[..n]] + Tokenize(s[n..]);
      assert Tokenize(a) == [a[..n]] + Tokenize(a[n..]);
      assert s[..n] == a[..n];
      assert s[n..] == a[n..] + [c] + b;
      TokenizeSeparated(a[n..], c, b);
    }
  }

  lemma {:induction false} TokenizeOneWord(w: string)
    requires IsWord(w)
    ensures Tokenize(w) == [w]
  {
    assert WordLength(w) == |w|;
    assert w[|w|..] == [];
    assert w[..|w|] == w;
  }

  /** Splitting words joined by spaces gives the words back. */
  lemma {:induction false} TokenizeJoinWords(words: seq<string>)
    requires forall i :: 0 <= i < |words| ==> IsWord(words[i])
    ensures Tokenize(JoinWords(words)) == words
    decreases |words|
  {
    if |words| == 1 {
      TokenizeOneWord(words[0]);
    } else if |words| > 1 {
      TokenizeSeparated(words[0], ' ', JoinWords(words[1..]));
      TokenizeOneWord(words[0]);
      TokenizeJoinWords(words[1..]);
    }
  }

  /** A string made of separators only has no tokens. */
  lemma {:induction false} TokenizeBlank(s: string)
    requires forall i :: 0 <= i < |s| ==> IsSeparator(s[i])
    ensures Tokenize(s) == []
    decreases |s|
  {
    if s != [] {
      TokenizeBlank(s[1..]);
    }
  }

  // ---------------------------------------------------------------------------
  // int2String and string2Int

  /** The range of the C++ `int` that `string2Int` reads into. */
  const IntMin: int := -0x8000_0000
  const IntMax: int := 0x7fff_ffff

  /** An `unsigned int` passed where an `int` is expected: values above `IntMax` wrap to
      negative numbers. */
  function ToInt32(u: nat): (x: int)
    requires u < 0x1_0000_0000
    ensures IntMin <= x <= IntMax
    ensures x < 0 <==> u > IntMax
    ensures x % 0x1_0000_0000 == u
  {
    if u <= IntMax then u else u - 0x1_0000_0000
  }

  predicate IsDigit(c: char)
  {
    '0' <= c <= '9'
  }

  function DigitChar(d: nat): (c: char)
    requires d < 10
    ensures IsDigit(c)
  {
    ('0' as int + d) as char
  }

  /** Decimal digits of `n`, without leading zeros. */
  function NatToString(n: nat): (s: string)
    ensures s != [] && forall i :: 0 <= i < |s| ==> IsDigit(s[i])
    decreases n
  {
    if n < 10 then [DigitChar(n)] else NatToString(n / 10) + [DigitChar(n % 10)]
  }

  /** `int2String`: what `std::ostringstream << n` prints. */
  function IntToString(x: int): (r: string)
    ensures r != [] && (r[0] == '-' <==> x < 0)
    ensures forall i :: 0 < i < |r| ==> IsDigit(r[i])
  {
    if x < 0 then "-" + NatToString(-x) else NatToString(x)
  }

  /** The number a string of decimal digits denotes. */
  function DigitsValue(s: string): nat
    requires forall i :: 0 <= i < |s| ==> IsDigit(s[i])
    decreases |s|
  {
    if s == [] then 0
    else
      assert IsDigit(s[|s| - 1]);
      DigitsValue(s[..|s| - 1]) * 10 + (s[|s| - 1] as int - '0' as int)
  }

  predicate AllDigits(s: string)
  {
    s != [] && forall i :: 0 <= i < |s| ==> IsDigit(s[i])
  }

  /** The white-space characters of the C locale, which `operator>>` skips before a
      number: space, tab, newline, vertical tab, form feed and carriage return. */
  predicate IsSpace(c: char)
  {
    c == ' ' || c == '\t' || c == '\n' || c == '\U{000B}' || c == '\U{000C}' || c == '\r'
  }

  predicate AllSpace(s: string)
  {
    forall i :: 0 <= i < |s| ==> IsSpace(s[i])
  }

  /** `s` without its leading white space: the longest suffix that starts with a
      non-space character, or is empty, after nothing but white space. */
  function SkipSpace(s: string): (t: string)
    ensures |t| <= |s| && t == s[|s| - |t|..]
    ensures AllSpace(s[..|s| - |t|])
    ensures t == [] || !IsSpace(t[0])
    decreases |s|
  {
    if s != [] && IsSpace(s[0]) then SkipSpace(s[1..]) else s
  }

  /** The number an optional sign (`""`, `"+"` or `"-"`) and decimal digits denote. */
  function SignedValue(sign: string, digits: string): int
    requires AllDigits(digits)
  {
    if sign == "-" then -(DigitsValue(digits) as int) else DigitsValue(digits)
  }

  /** The sign `operator>>` reads at the start of `t`: `"+"`, `"-"` or none. */
  function SignOf(t: string): (sign: string)
    ensures sign == "" || sign == "+" || sign == "-"
    ensures |sign| <= |t| && t[..|sign|] == sign
  {
    if |t| > 0 && (t[0] == '-' || t[0] == '+') then [t[0]] else ""
  }

  /** What `operator>>` into an `int` accepts once white space is skipped, when the
      whole of `t` must be consumed: an optional sign and one or more decimal digits,
      with a value that fits an `int` (an out-of-range value sets the fail bit). */
  function ReadNumber(t: string): (r: Option<int>)
    ensures r.Some? ==> IntMin <= r.value <= IntMax
  {
    var sign := SignOf(t);
    var digits := t[|sign|..];
    if AllDigits(digits) && IntMin <= SignedValue(sign, digits) <= IntMax then
      Some(SignedValue(sign, digits))
    else None
  }

  /** `string2Int(s, n)`: `std::istringstream >> int` followed by a check that the whole
      string was consumed. Leading white space is skipped first. */
  function String2Int(s: string): (r: Option<int>)
    ensures r.Some? ==> IntMin <= r.value <= IntMax
  {
    ReadNumber(SkipSpace(s))
  }

  lemma {:induction false} DigitsOfNat(n: nat)
    ensures DigitsValue(NatToString(n)) == n
    decreases n
  {
    if n >= 10 {
      var s := NatToString(n);
      assert s[..|s| - 1] == NatToString(n / 10);
      DigitsOfNat(n / 10);
    }
  }

  /** `string2Int(int2String(x))` gives `x` back for every `int`. */
  lemma IntStringRoundTrip(x: int)
    requires IntMin <= x <= IntMax
    ensures String2Int(IntToString(x)) == Some(x)
  {
    if x < 0 {
      var digits := NatToString(-x);
      DigitsOfNat(-x);
      assert SignedValue("-", digits) == x;
      NumberRead("", "-", digits);
      assert IntToString(x) == "" + "-" + digits;
    } else {
      DigitsOfNat(x);
      assert SignedValue("", NatToString(x)) == x;
      NumberRead("", "", NatToString(x));
      assert IntToString(x) == "" + "" + NatToString(x);
    }
  }

  /** Leading white space is dropped up to the first character that is not white space. */
  lemma {:induction false} SkipSpaceOf(space: string, rest: string)
    requires AllSpace(space)
    requires rest == [] || !IsSpace(rest[0])
    ensures SkipSpace(space + rest) == rest
    decreases |space|
  {
    if space != [] {
      assert (space + rest)[1..] == space[1..] + rest;
      SkipSpaceOf(space[1..], rest);
    }
  }

  /** A sign and digits make up one number. */
  lemma ReadSigned(sign: string, digits: string)
    requires sign == "" || sign == "+" || sign == "-"
    requires AllDigits(digits)
    requires IntMin <= SignedValue(sign, digits) <= IntMax
    ensures ReadNumber(sign + digits) == Some(SignedValue(sign, digits))
  {
    var t := sign + digits;
    if sign == "" {
      assert t == digits;
      assert IsDigit(t[0]);
    } else {
      assert t[0] == sign[0];
      assert [t[0]] == sign;
      assert t[1..] == digits;
    }
    assert SignOf(t) == sign;
  }

  /** White space, an optional sign and digits read as the signed value, when it fits. */
  lemma NumberRead(space: string, sign: string, digits: string)
    requires AllSpace(space)
    requires sign == "" || sign == "+" || sign == "-"
    requires AllDigits(digits)
    requires IntMin <= SignedValue(sign, digits) <= IntMax
    ensures String2Int(space + sign + digits) == Some(SignedValue(sign, digits))
  {
    var rest := sign + digits;
    assert space + sign + digits == space + rest;
    assert rest[0] == (if sign == "" then digits[0] else sign[0]);
    SkipSpaceOf(space, rest);
    ReadSigned(sign, digits);
  }

  /** Conversely, every string that reads as a number is white space, an optional sign
      and digits denoting that number. */
  lemma NumberShape(s: string) returns (space: string, sign: string, digits: string)
    requires String2Int(s).Some?
    ensures s == space + sign + digits
    ensures AllSpace(space)
    ensures sign == "" || sign == "+" || sign == "-"
    ensures AllDigits(digits)
    ensures String2Int(s).value == SignedValue(sign, digits)
  {
    var t := SkipSpace(s);
    space := s[..|s| - |t|];
    SplitAt(s, |s| - |t|);
    sign := SignOf(t);
    digits := t[|sign|..];
    SplitAt(t, |sign|);
    ReadNumberShape(t);
  }

  lemma SplitAt(s: string, n: nat)
    requires n <= |s|
    ensures s == s[..n] + s[n..]
  {
  }

  /** What `ReadNumber` accepts is a sign and digits, and it reads their value. */
  lemma ReadNumberShape(t: string)
    requires ReadNumber(t).Some?
    ensures AllDigits(t[|SignOf(t)|..])
    ensures ReadNumber(t).value == SignedValue(SignOf(t), t[|SignOf(t)|..])
  {
  }
}
