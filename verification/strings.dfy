/** Text helpers with Python's meaning: `str.isspace`, `str.strip()`,
    `str.startswith` and the decimal rendering `str(int)`. */
module Strings {

  /** Python's `str.isspace`: the ASCII controls TAB..CR and FS..US, the
      space, NEL, NO-BREAK SPACE, OGHAM SPACE MARK, the spaces U+2000..U+200A,
      the line and paragraph separators, NARROW NO-BREAK SPACE, MEDIUM
      MATHEMATICAL SPACE and the ideographic space U+3000. */
  predicate IsSpace(c: char) {
    || '\t' <= c <= '\r'
    || '\U{1C}' <= c <= ' '
    || c == '\U{85}' || c == '\U{A0}' || c == '\U{1680}'
    || '\U{2000}' <= c <= '\U{200A}'
    || c == '\U{2028}' || c == '\U{2029}' || c == '\U{202F}' || c == '\U{205F}'
    || c == '\U{3000}'
  }

  /** Digits, signs, the decimal point, the comma and the dashes are not
      whitespace. */
  lemma NotSpace(c: char)
    requires ('0' <= c <= '9') || c == '-' || c == '+' || c == '.' || c == ','
    ensures !IsSpace(c)
  {
  }

  predicate AllSpace(s: string) {
    forall i :: 0 <= i < |s| ==> IsSpace(s[i])
  }

  /** The shape of every `strip()` result: no whitespace at either end. */
  predicate Trimmed(s: string) {
    s == [] || (!IsSpace(s[0]) && !IsSpace(s[|s| - 1]))
  }

  /** The first index at or after `i` that does not hold whitespace (or
      `|s|`): the forward scan of `strip()`. */
  function SkipSpaceForward(s: string, i: nat): (j: nat)
    requires i <= |s|
    ensures i <= j <= |s|
    decreases |s| - i
  {
    if i < |s| && IsSpace(s[i]) then SkipSpaceForward(s, i + 1) else i
  }

  /** The forward scan passes only whitespace and stops at the first
      non-whitespace character. */
  lemma {:induction false} SkipForwardStops(s: string, i: nat)
    requires i <= |s|
    ensures var j := SkipSpaceForward(s, i);
            && (forall k :: i <= k < j ==> IsSpace(s[k]))
            && (j == |s| || !IsSpace(s[j]))
    decreases |s| - i
  {
    if i < |s| && IsSpace(s[i]) {
      SkipForwardStops(s, i + 1);
    }
  }

  /** The end of `s[lo..j]` once its trailing whitespace is dropped: the
      backward scan of `strip()`, which never passes the forward scan's stop. */
  function SkipSpaceBackward(s: string, lo: nat, j: nat): (e: nat)
    requires lo <= j <= |s|
    ensures lo <= e <= j
    decreases j
  {
    if j > lo && IsSpace(s[j - 1]) then SkipSpaceBackward(s, lo, j - 1) else j
  }

  /** The backward scan passes only whitespace and stops after the last
      non-whitespace character at or above `lo`. */
  lemma {:induction false} SkipBackwardStops(s: string, lo: nat, j: nat)
    requires lo <= j <= |s|
    ensures var e := SkipSpaceBackward(s, lo, j);
            && (forall k :: e <= k < j ==> IsSpace(s[k]))
            && (e == lo || !IsSpace(s[e - 1]))
    decreases j
  {
    if j > lo && IsSpace(s[j - 1]) {
      SkipBackwardStops(s, lo, j - 1);
    }
  }

  /** `str.strip()` with no argument. */
  function Strip(s: string): (r: string) {
    var a := SkipSpaceForward(s, 0);
    s[a..SkipSpaceBackward(s, a, |s|)]
  }

  /** `strip()` leaves no whitespace at either end and never lengthens. */
  lemma StripShape(s: string)
    ensures Trimmed(Strip(s)) && |Strip(s)| <= |s|
  {
    var a := SkipSpaceForward(s, 0);
    SkipForwardStops(s, 0);
    SkipBackwardStops(s, a, |s|);
  }

  /** `Strip` cuts `s` into leading whitespace, the result, and trailing
      whitespace. */
  lemma StripParts(s: string)
    ensures var a := SkipSpaceForward(s, 0);
            && a + |Strip(s)| <= |s|
            && s == s[..a] + Strip(s) + s[a + |Strip(s)|..]
            && AllSpace(s[..a])
            && AllSpace(s[a + |Strip(s)|..])
  {
    var a := SkipSpaceForward(s, 0);
    var b := SkipSpaceBackward(s, a, |s|);
    SkipForwardStops(s, 0);
    SkipBackwardStops(s, a, |s|);
    assert Strip(s) == s[a..b];
    assert s == s[..a] + s[a..b] + s[b..];
  }

  lemma AllSpaceConcat(a: string, b: string)
    requires AllSpace(a) && AllSpace(b)
    ensures AllSpace(a + b)
  {
    forall k | 0 <= k < |a + b| ensures IsSpace((a + b)[k]) {
      if k < |a| { assert (a + b)[k] == a[k]; } else { assert (a + b)[k] == b[k - |a|]; }
    }
  }

  /** The forward scan from `i` stops at `j` when `s[i..j]` is whitespace
      and `s[j]` is not (or `j` is the end). */
  lemma {:induction false} SkipForwardAt(s: string, i: nat, j: nat)
    requires i <= j <= |s| && AllSpace(s[i..j]) && (j == |s| || !IsSpace(s[j]))
    ensures SkipSpaceForward(s, i) == j
    decreases j - i
  {
    if i < j {
      assert s[i] == s[i..j][0];
      assert s[i + 1..j] == s[i..j][1..];
      SkipForwardAt(s, i + 1, j);
    }
  }

  /** The backward scan from `j` stops at `e` when `s[e..j]` is whitespace
      and `s[e - 1]` is not (or `e` is `lo`). */
  lemma {:induction false} SkipBackwardAt(s: string, lo: nat, e: nat, j: nat)
    requires lo <= e <= j <= |s| && AllSpace(s[e..j]) && (e == lo || !IsSpace(s[e - 1]))
    ensures SkipSpaceBackward(s, lo, j) == e
    decreases j
  {
    if e < j {
      assert s[j - 1] == s[e..j][j - 1 - e];
      assert s[e..j - 1] == s[e..j][..j - 1 - e];
      SkipBackwardAt(s, lo, e, j - 1);
    }
  }

  /** The characterisation of `strip()`: whitespace around a trimmed middle
      is exactly what it removes. */
  lemma StripUnique(p: string, m: string, q: string)
    requires AllSpace(p) && AllSpace(q) && Trimmed(m)
    ensures Strip(p + m + q) == m
  {
    var s := p + m + q;
    var e := |p| + |m|;
    assert s[..|p|] == p;
    assert s[e..] == q;
    if m == [] {
      AllSpaceConcat(p, q);
      assert s[..|s|] == p + q;
      SkipForwardAt(s, 0, |s|);
      SkipBackwardAt(s, |s|, |s|, |s|);
    } else {
      assert s[|p|] == m[0] && s[e - 1] == m[|m| - 1];
      SkipForwardAt(s, 0, |p|);
      SkipBackwardAt(s, |p|, e, |s|);
      assert s[|p|..e] == m;
    }
  }

  /** Extra whitespace around a string does not change its strip. */
  lemma StripPadded(p: string, x: string, q: string)
    requires AllSpace(p) && AllSpace(q)
    ensures Strip(p + x + q) == Strip(x)
  {
    StripParts(x);
    var a := SkipSpaceForward(x, 0);
    var m := Strip(x);
    var p2 := x[..a];
    var q2 := x[a + |m|..];
    assert p + x + q == (p + p2) + m + (q2 + q);
    AllSpaceConcat(p, p2);
    AllSpaceConcat(q2, q);
    StripShape(x);
    StripUnique(p + p2, m, q2 + q);
  }

  /** Text whose first character is not whitespace keeps that character
      first when stripped. */
  lemma StripKeepsFirst(s: string)
    requires |s| > 0 && !IsSpace(s[0])
    ensures |Strip(s)| > 0 && Strip(s)[0] == s[0]
  {
    assert AllSpace(s[0..0]);
    SkipForwardAt(s, 0, 0);
    SkipBackwardStops(s, 0, |s|);
  }

  /** Trimmed text strips to itself. */
  lemma StripTrimmed(s: string)
    requires Trimmed(s)
    ensures Strip(s) == s
  {
    assert [] + s + [] == s;
    StripUnique([], s, []);
  }

  /** `strip()` is idempotent. */
  lemma StripIdempotent(s: string)
    ensures Strip(Strip(s)) == Strip(s)
  {
    StripShape(s);
    StripTrimmed(Strip(s));
  }

  /** A string made of whitespace strips to the empty string. */
  lemma StripAllSpace(s: string)
    requires AllSpace(s)
    ensures Strip(s) == []
  {
    assert s + [] + [] == s;
    StripUnique(s, [], []);
  }

  /** `s.startswith("$") or s.startswith("＄")`: an ASCII or full-width dollar
      sign as the very first character. */
  predicate HasDollarPrefix(s: string) {
    |s| > 0 && (s[0] == '$' || s[0] == '\U{FF04}')
  }

  predicate IsDigit(c: char) {
    '0' <= c <= '9'
  }

  predicate AllDigits(s: string) {
    forall i :: 0 <= i < |s| ==> IsDigit(s[i])
  }

  /** ASCII letters only: the character class `[A-Za-z]`. */
  predicate IsAsciiLetter(c: char) {
    ('A' <= c <= 'Z') || ('a' <= c <= 'z')
  }

  function DigitValue(c: char): (r: nat)
    requires IsDigit(c)
  {
    (c as int) - ('0' as int)
  }

  function DigitChar(d: nat): (c: char)
    requires d < 10
    ensures IsDigit(c) && DigitValue(c) == d
  {
    (('0' as int) + d) as char
  }

  /** The number a string of decimal digits denotes, most significant first. */
  function DigitsValue(s: string): (v: nat)
    requires AllDigits(s)
  {
    if s == [] then 0 else DigitsValue(s[..|s| - 1]) * 10 + DigitValue(s[|s| - 1])
  }

  /** `str(n)` for a non-negative integer: canonical decimal digits. */
  function NatToString(n: nat): (v: string) {
    if n < 10 then [DigitChar(n)] else NatToString(n / 10) + [DigitChar(n % 10)]
  }

  /** `str(n)` is made of digits, has no leading zero, and reads back as
      `n`. */
  lemma {:induction false} NatToStringDigits(n: nat)
    ensures var r := NatToString(n);
      && |r| >= 1 && AllDigits(r) && DigitsValue(r) == n && (r[0] != '0' || n == 0)
  {
    if n >= 10 {
      var h := NatToString(n / 10);
      NatToStringDigits(n / 10);
      var r := h + [DigitChar(n % 10)];
      assert r[..|h|] == h;
      assert r[0] == h[0];
    }
  }

  /** `str(i)` for any integer: a minus sign before the digits of a negative. */
  function IntToString(i: int): (v: string) {
    if i < 0 then "-" + NatToString(-i) else NatToString(i)
  }

  /** `str(i)` is the digits of `|i|`, after a `-` when `i` is negative. */
  lemma IntToStringDigits(i: int)
    ensures var r := IntToString(i);
      && |r| >= 1
      && (i >= 0 ==> AllDigits(r) && DigitsValue(r) == i)
      && (i < 0 ==> |r| >= 2 && r[0] == '-' && AllDigits(r[1..]) && DigitsValue(r[1..]) == -i)
  {
    if i < 0 {
      NatToStringDigits(-i);
      assert IntToString(i)[1..] == NatToString(-i);
    } else {
      NatToStringDigits(i);
    }
  }

  lemma {:induction false} ZerosValue(z: string, s: string)
    requires forall i :: 0 <= i < |z| ==> z[i] == '0'
    requires AllDigits(s)
    ensures AllDigits(z + s) && DigitsValue(z + s) == DigitsValue(s)
    decreases |z| + |s|
  {
    if s == [] {
      assert z + s == z;
      if z != [] {
        ZerosValue(z[..|z| - 1], []);
        assert z[..|z| - 1] + [] == z[..|z| - 1];
      }
    } else {
      assert (z + s)[..|z + s| - 1] == z + s[..|s| - 1];
      ZerosValue(z, s[..|s| - 1]);
    }
  }

  /** `"%0<w>d" % n`: the digits of `n`, left-padded with zeros to width `w`. */
  function ZeroPad(n: nat, w: nat): (v: string) {
    var digits := NatToString(n);
    seq(if w > |digits| then w - |digits| else 0, _ => '0') + digits
  }

  /** Zero padding keeps the value: at least `w` digits that read back as
      `n`, and no padding at all once `str(n)` is already wide enough. */
  lemma ZeroPadDigits(n: nat, w: nat)
    ensures var r := ZeroPad(n, w);
      && |r| >= w && |r| >= 1 && AllDigits(r) && DigitsValue(r) == n
      && (|NatToString(n)| >= w ==> r == NatToString(n))
  {
    var digits := NatToString(n);
    NatToStringDigits(n);
    var z := seq(if w > |digits| then w - |digits| else 0, _ => '0');
    ZerosValue(z, digits);
    if |digits| >= w {
      assert z == [];
      assert z + digits == digits;
    }
  }

  /** A padded rendering ends in a digit. */
  lemma ZeroPadEndsInDigit(n: nat, w: nat)
    ensures |ZeroPad(n, w)| >= 1 && IsDigit(ZeroPad(n, w)[|ZeroPad(n, w)| - 1])
  {
    ZeroPadDigits(n, w);
  }

  function Pow10(w: nat): (p: nat)
    ensures p >= 1
  {
    if w == 0 then 1 else 10 * Pow10(w - 1)
  }

  /** Padding a number that fits in `w` digits gives exactly `w` characters. */
  lemma ZeroPadLength(n: nat, w: nat)
    requires |NatToString(n)| <= w
    ensures |ZeroPad(n, w)| == w
  {
    NatToStringDigits(n);
  }

  /** A number below `10^w` needs at most `w` digits. */
  lemma {:induction false} NatToStringLength(n: nat, w: nat)
    requires 1 <= w && n < Pow10(w)
    ensures |NatToString(n)| <= w
  {
    if n >= 10 {
      assert w >= 2;
      assert n / 10 < Pow10(w - 1);
      NatToStringLength(n / 10, w - 1);
    }
  }
}
