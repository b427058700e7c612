/**
 * The .NET string primitives the command handlers rely on: `string.Trim()`,
 * `string.Join(' ', args)`, `long.ToString()` and `long.TryParse`.
 * Strings are sequences of Unicode scalar values.
 */
module Strings {
  import opened Wrappers

  /** `char.IsWhiteSpace`: the Unicode White_Space characters. */
  predicate IsWhiteSpace(c: char) {
    || ('\U{9}' <= c <= '\U{D}')
    || c == ' '
    || c == '\U{85}'
    || c == '\U{A0}'
    || c == '\U{1680}'
    || ('\U{2000}' <= c <= '\U{200A}')
    || c == '\U{2028}'
    || c == '\U{2029}'
    || c == '\U{202F}'
    || c == '\U{205F}'
    || c == '\U{3000}'
  }

  /** The white space that `NumberStyles.Integer` skips around a number. */
  predicate IsNumberWhite(c: char) {
    ('\U{9}' <= c <= '\U{D}') || c == ' '
  }

  /** The NUL character, which .NET's integer parser accepts at the very end. */
  predicate IsNul(c: char) {
    c == '\0'
  }

  /** Every character of `s` is white according to `white`. */
  predicate AllOf(s: string, white: char -> bool) {
    forall i :: 0 <= i < |s| ==> white(s[i])
  }

  predicate Blank(s: string) {
    AllOf(s, IsWhiteSpace)
  }

  lemma AllOfConcat(a: string, b: string, white: char -> bool)
    ensures AllOf(a + b, white) <==> AllOf(a, white) && AllOf(b, white)
  {
    if AllOf(a + b, white) {
      forall i | 0 <= i < |a| ensures white(a[i]) {
        assert (a + b)[i] == a[i];
      }
      forall i | 0 <= i < |b| ensures white(b[i]) {
        assert (a + b)[|a| + i] == b[i];
      }
    }
    if AllOf(a, white) && AllOf(b, white) {
      forall i | 0 <= i < |a + b| ensures white((a + b)[i]) {
        if i < |a| { assert (a + b)[i] == a[i]; } else { assert (a + b)[i] == b[i - |a|]; }
      }
    }
  }

  /** The number of leading characters of `s` for which `white` holds. */
  function LeadingCount(s: string, white: char -> bool): (n: nat)
    ensures n <= |s|
    decreases |s|
  {
    if |s| > 0 && white(s[0]) then 1 + LeadingCount(s[1..], white) else 0
  }

  /** Drops the leading characters for which `white` holds. */
  function TrimStartBy(s: string, white: char -> bool): (r: string)
    ensures |r| <= |s| && r == s[|s| - |r|..]
    ensures AllOf(s[..|s| - |r|], white)
    ensures r == [] || !white(r[0])
    decreases |s|
  {
    if |s| > 0 && white(s[0]) then
      var r := TrimStartBy(s[1..], white);
      assert s[..|s| - |r|] == [s[0]] + s[1..][..|s[1..]| - |r|];
      r
    else
      assert s[..0] == [];
      s
  }

  /** Drops the trailing characters for which `white` holds. */
  function TrimEndBy(s: string, white: char -> bool): (r: string)
    ensures |r| <= |s| && r == s[..|r|]
    ensures AllOf(s[|r|..], white)
    ensures r == [] || !white(r[|r| - 1])
    decreases |s|
  {
    if |s| > 0 && white(s[|s| - 1]) then
      var r := TrimEndBy(s[..|s| - 1], white);
      assert s[|r|..] == s[..|s| - 1][|r|..] + [s[|s| - 1]];
      r
    else
      s
  }

  /** Trims with `white` at both ends; the result is empty exactly for all-white input. */
  function TrimBy(s: string, white: char -> bool): (r: string)
    ensures r == [] <==> AllOf(s, white)
    ensures r != [] ==> !white(r[0]) && !white(r[|r| - 1])
    ensures |r| <= |s|
  {
    var t := TrimStartBy(s, white);
    var r := TrimEndBy(t, white);
    TrimmedBothEnds(s, t, r, white);
    r
  }

  /** What trimming the start and then the end leaves of `s`. */
  lemma TrimmedBothEnds(s: string, t: string, r: string, white: char -> bool)
    requires |t| <= |s| && t == s[|s| - |t|..] && AllOf(s[..|s| - |t|], white) && (t == [] || !white(t[0]))
    requires |r| <= |t| && r == t[..|r|] && AllOf(t[|r|..], white) && (r == [] || !white(r[|r| - 1]))
    ensures r == [] <==> AllOf(s, white)
    ensures r != [] ==> !white(r[0]) && !white(r[|r| - 1])
  {
    var a := |s| - |t|;
    assert s == s[..a] + t;
    assert t == r + t[|r|..];
    AllOfConcat(s[..a], t, white);
    AllOfConcat(r, t[|r|..], white);
    if r != [] {
      assert r[0] == t[0];
    }
  }

  /** Trimming the start drops exactly the leading white characters. */
  lemma {:induction false} TrimStartCount(s: string, white: char -> bool)
    ensures |s| - |TrimStartBy(s, white)| == LeadingCount(s, white)
    decreases |s|
  {
    if |s| > 0 && white(s[0]) {
      TrimStartCount(s[1..], white);
    }
  }

  /**
   * Dropping a white prefix of `s` to get `t`, and then a white suffix of `t`
   * to get `r`, leaves `r` as the slice `[a, b)` of `s` between a white
   * prefix and a white suffix.
   */
  lemma WhiteSlice(s: string, t: string, r: string, white: char -> bool, a: int, b: int)
    requires |t| <= |s| && t == s[|s| - |t|..] && AllOf(s[..|s| - |t|], white)
    requires |r| <= |t| && r == t[..|r|] && AllOf(t[|r|..], white)
    requires a == |s| - |t| && b == a + |r|
    ensures 0 <= a <= b <= |s| && r == s[a..b] && AllOf(s[..a], white) && AllOf(s[b..], white)
  {
    assert t[|r|..] == s[b..];
  }

  /** The trim is the slice of `s` left between a white prefix and a white suffix. */
  lemma TrimBySlice(s: string, white: char -> bool) returns (a: nat, b: nat)
    ensures a == LeadingCount(s, white)
    ensures a <= b <= |s| && TrimBy(s, white) == s[a..b]
    ensures AllOf(s[..a], white) && AllOf(s[b..], white)
  {
    var t := TrimStartBy(s, white);
    var r := TrimEndBy(t, white);
    assert TrimBy(s, white) == r;
    a, b := |s| - |t|, |s| - |t| + |r|;
    WhiteSlice(s, t, TrimBy(s, white), white, a, b);
    TrimStartCount(s, white);
  }

  /** White padding in front of a non-white character is dropped, and nothing more. */
  lemma {:induction false} TrimStartPadded(pre: string, x: string, white: char -> bool)
    requires AllOf(pre, white) && |x| > 0 && !white(x[0])
    ensures TrimStartBy(pre + x, white) == x
    decreases |pre|
  {
    if |pre| == 0 {
      assert pre + x == x;
    } else {
      assert (pre + x)[0] == pre[0] && (pre + x)[1..] == pre[1..] + x;
      assert forall i :: 0 <= i < |pre[1..]| ==> pre[1..][i] == pre[i + 1];
      TrimStartPadded(pre[1..], x, white);
    }
  }

  /** White padding after a non-white character is dropped, and nothing more. */
  lemma {:induction false} TrimEndPadded(x: string, post: string, white: char -> bool)
    requires AllOf(post, white) && |x| > 0 && !white(x[|x| - 1])
    ensures TrimEndBy(x + post, white) == x
    decreases |post|
  {
    if |post| == 0 {
      assert x + post == x;
    } else {
      var s := x + post;
      assert s[|s| - 1] == post[|post| - 1] && s[..|s| - 1] == x + post[..|post| - 1];
      assert forall i :: 0 <= i < |post| - 1 ==> post[..|post| - 1][i] == post[i];
      TrimEndPadded(x, post[..|post| - 1], white);
    }
  }

  /**
   * The trim is determined by its contract: a core with non-white ends
   * between white padding is exactly what trimming keeps.
   */
  lemma TrimPadded(pre: string, core: string, post: string, white: char -> bool)
    requires AllOf(pre, white) && AllOf(post, white)
    requires |core| > 0 && !white(core[0]) && !white(core[|core| - 1])
    ensures TrimBy(pre + core + post, white) == core
  {
    assert pre + core + post == pre + (core + post);
    assert (core + post)[0] == core[0];
    TrimStartPadded(pre, core + post, white);
    TrimEndPadded(core, post, white);
  }

  /** `string.Trim()`; `TrimIsSlice` says which slice of `s` it keeps. */
  function Trim(s: string): (r: string)
    ensures r == [] <==> Blank(s)
    ensures r != [] ==> !IsWhiteSpace(r[0]) && !IsWhiteSpace(r[|r| - 1])
  {
    TrimBy(s, IsWhiteSpace)
  }

  /**
   * The trim is the slice of `s` that starts after its leading white space
   * and is followed by white space only.
   */
  lemma TrimIsSlice(s: string) returns (a: nat, b: nat)
    ensures a == LeadingCount(s, IsWhiteSpace) && a <= b <= |s|
    ensures Trim(s) == s[a..b] && Blank(s[..a]) && Blank(s[b..])
  {
    a, b := TrimBySlice(s, IsWhiteSpace);
  }

  /** Trimming twice is trimming once. */
  lemma TrimIdempotent(s: string)
    ensures Trim(Trim(s)) == Trim(s)
  {
    if Trim(s) != [] {
      TrimClean(Trim(s));
    }
  }

  /** A string with no white space at either end is its own trim. */
  lemma TrimClean(x: string)
    requires |x| > 0 && !IsWhiteSpace(x[0]) && !IsWhiteSpace(x[|x| - 1])
    ensures Trim(x) == x
  {
    TrimKeepsClean(x, IsWhiteSpace);
  }

  /** Every part is white space only (or empty). */
  predicate AllBlank(parts: seq<string>) {
    forall i :: 0 <= i < |parts| ==> Blank(parts[i])
  }

  /** `string.Join(' ', parts)`: the parts separated by one space each. */
  function JoinWithSpace(parts: seq<string>): (r: string)
    ensures Blank(r) <==> AllBlank(parts)
    decreases |parts|
  {
    if |parts| == 0 then ""
    else if |parts| == 1 then parts[0]
    else
      var rest := JoinWithSpace(parts[1..]);
      AllOfConcat(parts[0], " ", IsWhiteSpace);
      AllOfConcat(parts[0] + " ", rest, IsWhiteSpace);
      assert forall i :: 1 <= i < |parts| ==> parts[i] == parts[1..][i - 1];
      parts[0] + " " + rest
  }

  /**
   * The reason text a moderator typed after a command word is empty after
   * trimming exactly when every argument is white space.
   */
  lemma JoinedTrimEmpty(args: seq<string>)
    ensures Trim(JoinWithSpace(args)) == [] <==> AllBlank(args)
  {
  }

  // ---------------------------------------------------------------- integers

  const MinLong: int := -0x8000_0000_0000_0000
  const MaxLong: int := 0x7FFF_FFFF_FFFF_FFFF

  predicate IsDigit(c: char) {
    '0' <= c <= '9'
  }

  predicate IsSign(c: char) {
    c == '-' || c == '+'
  }

  predicate AllDigits(s: string) {
    forall i :: 0 <= i < |s| ==> IsDigit(s[i])
  }

  /** The value of a string of decimal digits. */
  function DigitsValue(s: string): (n: nat)
    requires AllDigits(s)
    decreases |s|
  {
    if |s| == 0 then 0
    else DigitsValue(s[..|s| - 1]) * 10 + (s[|s| - 1] as int - '0' as int)
  }

  /** The shortest decimal digits of `n`. */
  function Digits(n: nat): (s: string)
    ensures |s| > 0 && AllDigits(s)
    ensures |s| > 1 ==> s[0] != '0'
    decreases n
  {
    if n < 10 then [('0' as int + n) as char]
    else
      var hi := Digits(n / 10);
      assert (hi + [('0' as int + n % 10) as char])[0] == hi[0];
      hi + [('0' as int + n % 10) as char]
  }

  lemma {:induction false} DigitsValueOfDigits(n: nat)
    ensures DigitsValue(Digits(n)) == n
    decreases n
  {
    if n >= 10 {
      var s := Digits(n);
      assert s[..|s| - 1] == Digits(n / 10);
      DigitsValueOfDigits(n / 10);
    }
  }

  /** `long.ToString()` under the invariant culture. */
  function DecimalString(n: int): (s: string)
    ensures |s| > 0 && (IsDigit(s[0]) || s[0] == '-') && IsDigit(s[|s| - 1])
    ensures n >= 0 ==> AllDigits(s)
  {
    if n < 0 then "-" + Digits(-n) else Digits(n)
  }

  /**
   * `long.TryParse(s, out v)` with `NumberStyles.Integer`: optional white
   * space around an optional sign and at least one ASCII digit, then a run of
   * NUL characters up to the end, and the value must fit in 64 bits.
   */
  function ParseLong(s: string): (r: Option<int>)
    ensures r.Some? ==> MinLong <= r.value <= MaxLong
  {
    ParseNumber(TrimBy(TrimEndBy(s, IsNul), IsNumberWhite))
  }

  /** The value of an optional sign followed by ASCII digits, if it fits in 64 bits. */
  function ParseNumber(t: string): (r: Option<int>)
    ensures r.Some? ==> MinLong <= r.value <= MaxLong
  {
    var negative := |t| > 0 && t[0] == '-';
    var digits := if |t| > 0 && IsSign(t[0]) then t[1..] else t;
    if |digits| == 0 || !AllDigits(digits) then None
    else
      var m: int := DigitsValue(digits);
      var v := if negative then -m else m;
      if MinLong <= v <= MaxLong then Some(v) else None
  }

  /** Parsing what `long.ToString()` printed gives the number back. */
  lemma ParseLongDecimalString(n: int)
    requires MinLong <= n <= MaxLong
    ensures ParseLong(DecimalString(n)) == Some(n)
  {
    ParseLongClean(DecimalString(n));
    ParseNumberDecimalString(n);
  }

  lemma ParseNumberNegative(n: int)
    requires MinLong <= n < 0
    ensures ParseNumber(DecimalString(n)) == Some(n)
  {
    var s := DecimalString(n);
    var d := Digits(-n);
    assert s == "-" + d && s[1..] == d;
    DigitsValueOfDigits(-n);
  }

  lemma ParseNumberNonNegative(n: int)
    requires 0 <= n <= MaxLong
    ensures ParseNumber(DecimalString(n)) == Some(n)
  {
    DigitsValueOfDigits(n);
  }

  /** A string with no white character at either end is its own trim. */
  lemma TrimKeepsClean(s: string, white: char -> bool)
    requires |s| > 0 && !white(s[0]) && !white(s[|s| - 1])
    ensures TrimBy(s, white) == s
  {
    assert TrimStartBy(s, white) == s;
    assert TrimEndBy(s, white) == s;
  }

  /** The digits of a value in shortest form read back as that value. */
  lemma {:induction false} DigitsOfValue(d: string)
    requires |d| > 0 && AllDigits(d) && (|d| == 1 || d[0] != '0')
    ensures DigitsValue(d) >= 1 || |d| == 1
    ensures Digits(DigitsValue(d)) == d
    decreases |d|
  {
    if |d| > 1 {
      var h := d[..|d| - 1];
      assert h[0] == d[0];
      DigitsOfValue(h);
      var n := DigitsValue(d);
      assert n / 10 == DigitsValue(h) && n % 10 == d[|d| - 1] as int - '0' as int;
      assert d == h + [d[|d| - 1]];
    }
  }

  /** The form `long.ToString()` prints: shortest digits, with `-` before a non-zero value. */
  predicate CanonicalDecimal(s: string) {
    || (|s| > 0 && AllDigits(s) && (|s| == 1 || s[0] != '0'))
    || (|s| > 1 && s[0] == '-' && AllDigits(s[1..]) && s[1] != '0')
  }

  /** What `long.ToString()` prints is canonical. */
  lemma DecimalStringCanonical(n: int)
    ensures CanonicalDecimal(DecimalString(n))
  {
    if n < 0 {
      assert DecimalString(n)[1..] == Digits(-n);
    }
  }

  /** A canonical decimal string that parses is what `long.ToString()` prints for its value. */
  lemma ParseLongCanonical(s: string)
    requires CanonicalDecimal(s) && ParseLong(s).Some?
    ensures DecimalString(ParseLong(s).value) == s
  {
    assert IsDigit(s[|s| - 1]) by {
      if s[0] == '-' { assert s[1..][|s| - 2] == s[|s| - 1]; }
    }
    ParseLongClean(s);
    if s[0] == '-' {
      CanonicalNegative(s);
    } else {
      CanonicalNonNegative(s);
    }
  }

  /** Without number white space at either end or a NUL at the end, `ParseLong` reads the whole string. */
  lemma ParseLongClean(s: string)
    requires |s| > 0 && !IsNumberWhite(s[0]) && !IsNumberWhite(s[|s| - 1]) && !IsNul(s[|s| - 1])
    ensures ParseLong(s) == ParseNumber(s)
  {
    assert TrimEndBy(s, IsNul) == s;
    TrimKeepsClean(s, IsNumberWhite);
  }

  lemma CanonicalNegative(s: string)
    requires |s| > 1 && s[0] == '-' && AllDigits(s[1..]) && s[1] != '0' && ParseNumber(s).Some?
    ensures DecimalString(ParseNumber(s).value) == s
  {
    var d := s[1..];
    var m: int := DigitsValue(d);
    assert m >= 1 && Digits(m) == d by {
      DigitsOfValue(d);
    }
    assert ParseNumber(s) == Some(-m);
    assert s == "-" + d;
  }

  lemma CanonicalNonNegative(s: string)
    requires |s| > 0 && AllDigits(s) && (|s| == 1 || s[0] != '0') && ParseNumber(s).Some?
    ensures DecimalString(ParseNumber(s).value) == s
  {
    DigitsOfValue(s);
    assert ParseNumber(s) == Some(DigitsValue(s));
  }

  /**
   * White padding around the printed form of a 64-bit value, followed by any
   * number of NUL characters, still parses to the value.
   */
  lemma ParseLongPadded(pre: string, n: int, post: string, nuls: string)
    requires AllOf(pre, IsNumberWhite) && AllOf(post, IsNumberWhite) && AllOf(nuls, IsNul)
    requires MinLong <= n <= MaxLong
    ensures ParseLong(pre + DecimalString(n) + post + nuls) == Some(n)
  {
    var d := DecimalString(n);
    var x := pre + d + post;
    PaddedEnd(pre, d, post);
    TrimEndPadded(x, nuls, IsNul);
    TrimPadded(pre, d, post, IsNumberWhite);
    ParseNumberDecimalString(n);
    ParseLongOf(x + nuls, x, d);
  }

  /** A number with white padding after it ends in neither white space nor a NUL when the number does not. */
  lemma PaddedEnd(pre: string, d: string, post: string)
    requires AllOf(post, IsNumberWhite) && |d| > 0 && IsDigit(d[|d| - 1])
    ensures var x := pre + d + post; |x| > 0 && !IsNul(x[|x| - 1])
  {
    var x := pre + d + post;
    if |post| > 0 {
      assert x[|x| - 1] == post[|post| - 1];
    } else {
      assert x[|x| - 1] == d[|d| - 1];
    }
  }

  /** `ParseLong` through its two trimming steps. */
  lemma ParseLongOf(s: string, x: string, t: string)
    requires TrimEndBy(s, IsNul) == x && TrimBy(x, IsNumberWhite) == t
    ensures ParseLong(s) == ParseNumber(t)
  {
  }

  /** Reading back what `long.ToString()` printed, without any trimming. */
  lemma ParseNumberDecimalString(n: int)
    requires MinLong <= n <= MaxLong
    ensures ParseNumber(DecimalString(n)) == Some(n)
  {
    if n < 0 {
      ParseNumberNegative(n);
    } else {
      ParseNumberNonNegative(n);
    }
  }

  /** Every character of `s` outside the slice `[a, b)` is white. */
  lemma WhiteOutside(s: string, a: int, b: int, white: char -> bool)
    requires 0 <= a <= b <= |s| && AllOf(s[..a], white) && AllOf(s[b..], white)
    ensures forall k :: 0 <= k < a || b <= k < |s| ==> white(s[k])
  {
    forall k | 0 <= k < a || b <= k < |s| ensures white(s[k]) {
      if k < a { assert s[..a][k] == s[k]; } else { assert s[b..][k - b] == s[k]; }
    }
  }

  /** With `u` the string `s` without its NUL tail, a slice of `u` is the same slice of `s`. */
  lemma NulTail(s: string, u: string, a: int, b: int)
    requires |u| <= |s| && u == s[..|u|] && AllOf(s[|u|..], IsNul)
    requires 0 <= a <= b <= |u|
    requires forall k :: 0 <= k < a || b <= k < |u| ==> IsNumberWhite(u[k])
    ensures u[a..b] == s[a..b]
    ensures forall k :: 0 <= k < a || b <= k < |u| ==> IsNumberWhite(s[k])
    ensures forall k :: |u| <= k < |s| ==> IsNul(s[k])
  {
    forall k | 0 <= k < a || b <= k < |u| ensures IsNumberWhite(s[k]) {
      assert u[k] == s[k];
    }
    forall k | |u| <= k < |s| ensures IsNul(s[k]) {
      assert s[|u|..][k - |u|] == s[k];
    }
  }

  /**
   * `ParseLong` reads the slice `[a, b)` of `s`; around it there is only
   * number white space up to `c`, and only NUL characters from `c` on.
   */
  lemma TrimmedNumber(s: string) returns (a: nat, b: nat, c: nat)
    ensures a <= b <= c <= |s| && ParseLong(s) == ParseNumber(s[a..b])
    ensures forall k :: 0 <= k < a || b <= k < c ==> IsNumberWhite(s[k])
    ensures forall k :: c <= k < |s| ==> IsNul(s[k])
  {
    var u := TrimEndBy(s, IsNul);
    c := |u|;
    a, b := TrimBySlice(u, IsNumberWhite);
    WhiteOutside(u, a, b, IsNumberWhite);
    NulTail(s, u, a, b);
  }

  /** A character of the slice that is not a digit, other than a sign in front, makes the number fail. */
  lemma ParseNumberRejects(s: string, a: int, b: int, j: int)
    requires 0 <= a <= j < b <= |s| && !IsDigit(s[j]) && (j > a || !IsSign(s[j]))
    ensures ParseNumber(s[a..b]) == None
  {
    var t := s[a..b];
    assert t[j - a] == s[j];
    if IsSign(t[0]) {
      assert t[1..][j - a - 1] == s[j];
    }
  }

  /** A number needs a digit. */
  lemma ParseNumberNeedsDigit(s: string, a: int, b: int)
    requires 0 <= a <= b <= |s| && forall k :: 0 <= k < |s| ==> !IsDigit(s[k])
    ensures ParseNumber(s[a..b]) == None
  {
    var t := s[a..b];
    if |t| > 0 {
      assert t[0] == s[a];
      if |t| > 1 {
        assert t[1..][0] == s[a + 1];
      }
    }
  }

  /** NUL characters may follow the number directly. */
  lemma ParseLongTrailingNul()
    ensures ParseLong("7\0") == Some(7)
  {
    assert "" + DecimalString(7) + "" + "\0" == "7\0";
    ParseLongPadded("", 7, "", "\0");
  }

  /** NUL characters may follow the white space after the number. */
  lemma ParseLongWhiteThenNul()
    ensures ParseLong("7 \0\0") == Some(7)
  {
    assert "" + DecimalString(7) + " " + "\0\0" == "7 \0\0";
    ParseLongPadded("", 7, " ", "\0\0");
  }

  /** White space may not follow the NUL characters. */
  lemma ParseLongNulThenWhite()
    ensures ParseLong("7\0 ") == None
  {
    ParseLongRejectsInnerNul("7\0 ", 1, 2);
  }

  /** A character that is neither a digit, a sign, number white space nor a NUL makes the parse fail. */
  lemma ParseLongRejectsForeign(s: string, i: int)
    requires 0 <= i < |s| && !IsDigit(s[i]) && !IsSign(s[i]) && !IsNumberWhite(s[i]) && !IsNul(s[i])
    ensures ParseLong(s) == None
  {
    var a, b, c := TrimmedNumber(s);
    ParseNumberRejects(s, a, b, i);
  }

  /** A NUL followed by any other character makes the parse fail. */
  lemma ParseLongRejectsInnerNul(s: string, i: int, k: int)
    requires 0 <= i < k < |s| && IsNul(s[i]) && !IsNul(s[k])
    ensures ParseLong(s) == None
  {
    var a, b, c := TrimmedNumber(s);
    NulInside(s, a, b, c, i, k);
    ParseNumberRejects(s, a, b, i);
  }

  /** A NUL with a non-NUL character after it lies inside the slice the parser reads. */
  lemma NulInside(s: string, a: int, b: int, c: int, i: int, k: int)
    requires 0 <= a <= b <= c <= |s| && 0 <= i < k < |s| && IsNul(s[i]) && !IsNul(s[k])
    requires forall k :: 0 <= k < a || b <= k < c ==> IsNumberWhite(s[k])
    requires forall k :: c <= k < |s| ==> IsNul(s[k])
    ensures a <= i < b
  {
  }

  /** A sign anywhere but before the first non-white character makes the parse fail. */
  lemma ParseLongRejectsLateSign(s: string, i: int, j: int)
    requires 0 <= i < j < |s| && !IsNumberWhite(s[i]) && IsSign(s[j])
    ensures ParseLong(s) == None
  {
    var a, b, c := TrimmedNumber(s);
    ParseNumberRejects(s, a, b, j);
  }

  /** White space between two non-white characters, the second not a NUL, makes the parse fail. */
  lemma ParseLongRejectsInnerWhite(s: string, i: int, j: int, k: int)
    requires 0 <= i < j < k < |s| && !IsNumberWhite(s[i]) && IsNumberWhite(s[j])
    requires !IsNumberWhite(s[k]) && !IsNul(s[k])
    ensures ParseLong(s) == None
  {
    var a, b, c := TrimmedNumber(s);
    ParseNumberRejects(s, a, b, j);
  }

  /** A string without a digit does not parse. */
  lemma ParseLongNeedsDigit(s: string)
    requires forall k :: 0 <= k < |s| ==> !IsDigit(s[k])
    ensures ParseLong(s) == None
  {
    var a, b, c := TrimmedNumber(s);
    ParseNumberNeedsDigit(s, a, b);
  }
}
