/** Tolerant integer coercion of a cell: `safe_int` in schedule_logic.py.

    Python's `float()` is modelled on the plain decimal grammar the engine's
    quantity cells use: surrounding whitespace of its own kind, an optional
    sign, digits with an optional fractional part (`12`, `12.`, `12.9`,
    `.9`). */
module Numbers {
  import opened Outcomes
  import opened Strings
  import opened Cells

  /** `s.replace(",", "")`. */
  function RemoveCommas(s: string): (r: string)
    ensures |r| <= |s|
    ensures forall i :: 0 <= i < |r| ==> r[i] != ','
  {
    if s == [] then [] else (if s[0] == ',' then [] else [s[0]]) + RemoveCommas(s[1..])
  }

  lemma {:induction false} RemoveCommasAppend(x: string, y: string)
    ensures RemoveCommas(x + y) == RemoveCommas(x) + RemoveCommas(y)
    decreases |x|
  {
    if x == [] {
      assert x + y == y;
    } else {
      var h := if x[0] == ',' then [] else [x[0]];
      assert (x + y)[0] == x[0];
      assert (x + y)[1..] == x[1..] + y;
      assert RemoveCommas(x + y) == h + RemoveCommas(x[1..] + y);
      RemoveCommasAppend(x[1..], y);
      assert RemoveCommas(x) == h + RemoveCommas(x[1..]);
    }
  }

  /** Text without commas passes through unchanged. */
  lemma {:induction false} RemoveCommasNoop(s: string)
    requires forall i :: 0 <= i < |s| ==> s[i] != ','
    ensures RemoveCommas(s) == s
    decreases |s|
  {
    if s != [] {
      assert s[0] != ',';
      RemoveCommasNoop(s[1..]);
    }
  }

  /** Whitespace holds no commas. */
  lemma RemoveCommasSpaces(s: string)
    requires AllSpace(s)
    ensures RemoveCommas(s) == s
  {
    forall i | 0 <= i < |s| ensures s[i] != ',' {
      assert IsSpace(s[i]);
    }
    RemoveCommasNoop(s);
  }

  /** The end of the run of ASCII digits starting at `i`. */
  function DigitRun(s: string, i: nat): (j: nat)
    requires i <= |s|
    ensures i <= j <= |s|
    ensures AllDigits(s[i..j])
    ensures j == |s| || !IsDigit(s[j])
    decreases |s| - i
  {
    if i < |s| && IsDigit(s[i]) then
      var j := DigitRun(s, i + 1);
      assert s[i..j] == [s[i]] + s[i + 1..j];
      j
    else i
  }

  /** An unsigned decimal, `digits`, `digits.`, `digits.digits` or
      `.digits`, truncated to its integer part. */
  function ParseUnsigned(t: string): (r: Option<nat>)
    ensures r.Some? ==> |t| > 0
  {
    var n := DigitRun(t, 0);
    if n == |t| then
      (if n == 0 then None else Some(DigitsValue(t)))
    else if t[n] == '.' && AllDigits(t[n + 1..]) && (n > 0 || n + 1 < |t|) then
      assert t[..n] == t[0..n];
      Some(DigitsValue(t[..n]))
    else None
  }

  /** A decimal with an optional `+` or `-` sign, truncated toward zero. */
  function ParseSigned(t: string): (r: Option<int>) {
    if |t| > 0 && (t[0] == '+' || t[0] == '-') then
      match ParseUnsigned(t[1..])
      case None => None
      case Some(v) =>
        var n: int := if t[0] == '-' then -(v as int) else v as int;
        Some(n)
    else
      match ParseUnsigned(t)
      case None => None
      case Some(v) => Some(v as int)
  }

  /** The information separators U+001C..U+001F: whitespace to
      `str.isspace`, but not to `float()`. */
  predicate Separator(c: char) {
    '\U{1C}' <= c <= '\U{1F}'
  }

  /** The whitespace `float()` trims. It turns every non-ASCII whitespace
      character into a space and then trims TAB..CR and the space, so it
      trims everything `str.isspace` accepts except the separators. */
  predicate FloatSpace(c: char) {
    IsSpace(c) && !Separator(c)
  }

  predicate NoSeparator(s: string) {
    forall i :: 0 <= i < |s| ==> !Separator(s[i])
  }

  function TrimFloatStart(s: string): (r: string)
    decreases |s|
  {
    if s != [] && FloatSpace(s[0]) then TrimFloatStart(s[1..]) else s
  }

  function TrimFloatEnd(s: string): (r: string)
    decreases |s|
  {
    if s != [] && FloatSpace(s[|s| - 1]) then TrimFloatEnd(s[..|s| - 1]) else s
  }

  /** The trimming `float()` applies before it parses. */
  function FloatStrip(s: string): (r: string) {
    TrimFloatEnd(TrimFloatStart(s))
  }

  /** `int(float(s))` where it succeeds: `float`'s own trimming, then the
      decimal, which `int` truncates toward zero. The value is that of the
      exact decimal, not of the nearest double. */
  function ParseTruncated(s: string): (res: Option<int>) {
    ParseSigned(FloatStrip(s))
  }

  function OrZero(n: Option<int>): (res: int) {
    match n
    case Some(v) => v
    case None => 0
  }

  /** `safe_int(v)`: `None` is 0, an `int` is itself, and anything else is
      rendered with `str`, stripped, blank-checked, stripped of commas and
      parsed, every failure giving 0. */
  function SafeInt(v: Cell): (r: int)
    ensures v == Empty ==> r == 0
    ensures v.Int? ==> r == v.n
  {
    match v
    case Empty => 0
    case Int(n) => n
    case _ =>
      var s := Strip(CellText(v));
      if s == "" then 0
      else OrZero(ParseTruncated(RemoveCommas(s)))
  }

  /** A blank string coerces to 0. */
  lemma SafeIntBlank(s: string)
    requires AllSpace(s)
    ensures SafeInt(Text(s)) == 0
  {
    StripAllSpace(s);
  }

  lemma DigitRunAll(t: string)
    requires AllDigits(t)
    ensures DigitRun(t, 0) == |t|
  {
  }

  lemma DigitRunStops(t: string, n: nat)
    requires n < |t| && AllDigits(t[..n]) && !IsDigit(t[n])
    ensures DigitRun(t, 0) == n
  {
    var j := DigitRun(t, 0);
    assert forall k :: 0 <= k < n ==> IsDigit(t[k]) by {
      forall k | 0 <= k < n ensures IsDigit(t[k]) { assert t[k] == t[..n][k]; }
    }
    assert forall k :: 0 <= k < j ==> IsDigit(t[k]) by {
      forall k | 0 <= k < j ensures IsDigit(t[k]) { assert t[k] == t[0..j][k]; }
    }
  }

  lemma {:induction false} TrimFloatStartParts(s: string) returns (p: string)
    ensures s == p + TrimFloatStart(s)
    ensures forall i :: 0 <= i < |p| ==> FloatSpace(p[i])
    ensures TrimFloatStart(s) == [] || !FloatSpace(TrimFloatStart(s)[0])
    decreases |s|
  {
    if s != [] && FloatSpace(s[0]) {
      var p1 := TrimFloatStartParts(s[1..]);
      p := [s[0]] + p1;
      assert s == [s[0]] + s[1..];
    } else {
      p := [];
    }
  }

  lemma {:induction false} TrimFloatEndParts(s: string) returns (q: string)
    ensures s == TrimFloatEnd(s) + q
    ensures forall i :: 0 <= i < |q| ==> FloatSpace(q[i])
    ensures TrimFloatEnd(s) == [] || !FloatSpace(TrimFloatEnd(s)[|TrimFloatEnd(s)| - 1])
    decreases |s|
  {
    if s != [] && FloatSpace(s[|s| - 1]) {
      var q1 := TrimFloatEndParts(s[..|s| - 1]);
      q := q1 + [s[|s| - 1]];
      assert s == s[..|s| - 1] + [s[|s| - 1]];
    } else {
      q := [];
    }
  }

  /** `FloatStrip` cuts `s` into `float` whitespace, the result, and
      `float` whitespace, and the result has no such whitespace at an end. */
  lemma FloatStripParts(s: string) returns (p: string, q: string)
    ensures s == p + FloatStrip(s) + q
    ensures forall i :: 0 <= i < |p| ==> FloatSpace(p[i])
    ensures forall i :: 0 <= i < |q| ==> FloatSpace(q[i])
    ensures var m := FloatStrip(s); m == [] || (!FloatSpace(m[0]) && !FloatSpace(m[|m| - 1]))
  {
    var t := TrimFloatStart(s);
    p := TrimFloatStartParts(s);
    q := TrimFloatEndParts(t);
    var m := FloatStrip(s);
    if m != [] {
      assert m[0] == t[0];
    }
  }

  /** Text `str.strip` left trimmed is left alone by `float`'s trimming. */
  lemma FloatStripTrimmed(t: string)
    requires Trimmed(t)
    ensures FloatStrip(t) == t
  {
    if t != [] {
      assert TrimFloatStart(t) == t;
    }
  }

  /** Without separators, `float` trims exactly what `str.strip` does. */
  lemma FloatStripAgrees(x: string)
    requires NoSeparator(x)
    ensures FloatStrip(x) == Strip(x)
  {
    var p, q := FloatStripParts(x);
    var m := FloatStrip(x);
    if m != [] {
      assert m[0] == x[|p|];
      assert m[|m| - 1] == x[|p| + |m| - 1];
    }
    StripUnique(p, m, q);
  }

  lemma {:induction false} RemoveCommasNoSeparator(s: string)
    requires NoSeparator(s)
    ensures NoSeparator(RemoveCommas(s))
    decreases |s|
  {
    if s != [] {
      assert NoSeparator(s[1..]) by {
        forall i | 0 <= i < |s[1..]| ensures !Separator(s[1..][i]) { assert s[1..][i] == s[i + 1]; }
      }
      RemoveCommasNoSeparator(s[1..]);
    }
  }
}

/** What `safe_int` promises: blanks and failures give 0, integer text
    round-trips, fractions truncate toward zero, commas are ignored. */
module NumberFacts {
  import opened Strings
  import opened Cells
  import opened Numbers
  import Calendar
  import opened Outcomes

  /** Text that is already trimmed and has no commas reaches the parser
      unchanged. */
  lemma SafeIntOfCleanText(t: string)
    requires t != "" && Trimmed(t)
    requires forall k :: 0 <= k < |t| ==> t[k] != ','
    ensures SafeInt(Text(t)) == match ParseSigned(t) case Some(n) => n case None => 0
  {
    StripTrimmed(t);
    RemoveCommasNoop(t);
    FloatStripTrimmed(t);
  }

  lemma IntTextTrimmed(i: int)
    ensures Trimmed(IntToString(i))
    ensures forall k :: 0 <= k < |IntToString(i)| ==> IntToString(i)[k] != ','
  {
    var s := IntToString(i);
    IntToStringDigits(i);
    if i < 0 {
      assert s[|s| - 1] == s[1..][|s| - 2];
      forall k | 1 <= k < |s| ensures s[k] != ',' {
        assert s[k] == s[1..][k - 1];
      }
    }
    NotSpace(s[0]);
    NotSpace(s[|s| - 1]);
  }

  /** Parsing an unsigned rendering with an optional fractional part. */
  lemma ParseUnsignedDigits(d: string, f: string, withFraction: bool)
    requires |d| >= 1 && AllDigits(d) && AllDigits(f)
    ensures ParseUnsigned(if withFraction then d + "." + f else d) == Some(DigitsValue(d))
  {
    if withFraction {
      var t := d + "." + f;
      assert t[..|d|] == d;
      assert t[|d|] == '.';
      assert t[|d| + 1..] == f;
      DigitRunStops(t, |d|);
    } else {
      DigitRunAll(d);
    }
  }

  /** The text `str(i)`, optionally followed by `.` and fraction digits. */
  function Rendered(i: int, f: string, withFraction: bool): (r: string) {
    if withFraction then IntToString(i) + "." + f else IntToString(i)
  }

  lemma RenderedClean(i: int, f: string, withFraction: bool)
    requires AllDigits(f)
    ensures var t := Rendered(i, f, withFraction);
      t != "" && Trimmed(t) && forall k :: 0 <= k < |t| ==> t[k] != ','
  {
    var s := IntToString(i);
    var t := Rendered(i, f, withFraction);
    IntTextTrimmed(i);
    if withFraction {
      assert t[0] == s[0];
      if f == [] { assert t[|t| - 1] == '.'; } else { assert t[|t| - 1] == f[|f| - 1]; }
      NotSpace(t[|t| - 1]);
      forall k | 0 <= k < |t| ensures t[k] != ',' {
        if k < |s| { assert t[k] == s[k]; }
        else if k > |s| { assert t[k] == f[k - |s| - 1]; }
      }
    }
  }

  lemma RenderedParses(i: int, f: string, withFraction: bool)
    requires AllDigits(f)
    ensures ParseSigned(Rendered(i, f, withFraction)) == Some(i)
  {
    var s := IntToString(i);
    var t := Rendered(i, f, withFraction);
    IntToStringDigits(i);
    if i < 0 {
      var d := NatToString(-i);
      NatToStringDigits(-i);
      assert t[0] == '-';
      assert t[1..] == if withFraction then d + "." + f else d;
      ParseUnsignedDigits(d, f, withFraction);
    } else {
      assert t[0] == s[0];
      assert IsDigit(s[0]);
      ParseUnsignedDigits(s, f, withFraction);
    }
  }

  /** `str(i)` with an optional fractional part coerces back to `i`:
      the round trip of the coercion, and its truncation toward zero
      (`"12.9"` gives 12, `"-12.9"` gives -12). */
  lemma SafeIntRoundTrip(i: int, f: string, withFraction: bool)
    requires AllDigits(f)
    ensures SafeInt(Text(Rendered(i, f, withFraction))) == i
  {
    RenderedClean(i, f, withFraction);
    SafeIntOfCleanText(Rendered(i, f, withFraction));
    RenderedParses(i, f, withFraction);
  }

  /** Removing commas before or after stripping gives the same stripped
      text, because whitespace holds no commas. */
  lemma StripRemoveCommas(s: string)
    ensures Strip(RemoveCommas(Strip(s))) == Strip(RemoveCommas(s))
  {
    StripParts(s);
    var a := SkipSpaceForward(s, 0);
    var m := Strip(s);
    var p := s[..a];
    var q := s[a + |m|..];
    RemoveCommasAppend(p + m, q);
    RemoveCommasAppend(p, m);
    RemoveCommasSpaces(p);
    RemoveCommasSpaces(q);
    StripPadded(p, RemoveCommas(m), q);
  }

  /** `safe_int` of text, unfolded once. */
  lemma SafeIntOfText(s: string)
    ensures SafeInt(Text(s)) == if Strip(s) == "" then 0 else OrZero(ParseTruncated(RemoveCommas(Strip(s))))
  {
  }

  /** Stripping keeps a text free of separators. */
  lemma StripNoSeparator(s: string)
    requires NoSeparator(s)
    ensures NoSeparator(Strip(s))
  {
    StripParts(s);
    var a := Strip(s);
    var k := SkipSpaceForward(s, 0);
    forall i | 0 <= i < |a| ensures !Separator(a[i]) {
      assert a[i] == s[k + i];
    }
  }

  /** Without separators, parsing the comma-free stripped text is parsing
      the stripped comma-free text. */
  lemma ParseAfterCommas(s: string)
    requires NoSeparator(s)
    ensures ParseTruncated(RemoveCommas(Strip(s))) == ParseSigned(Strip(RemoveCommas(s)))
  {
    StripNoSeparator(s);
    RemoveCommasNoSeparator(Strip(s));
    FloatStripAgrees(RemoveCommas(Strip(s)));
    StripRemoveCommas(s);
  }

  /** Stripped text without commas reaches the decimal parser as is. */
  lemma ParseStrippedClean(x: string)
    requires forall k :: 0 <= k < |x| ==> x[k] != ','
    ensures ParseTruncated(RemoveCommas(Strip(x))) == ParseSigned(Strip(x))
  {
    StripShape(x);
    StripParts(x);
    var b := Strip(x);
    var k := SkipSpaceForward(x, 0);
    assert forall i :: 0 <= i < |b| ==> b[i] != ',' by {
      forall i | 0 <= i < |b| ensures b[i] != ',' { assert b[i] == x[k + i]; }
    }
    RemoveCommasNoop(b);
    FloatStripTrimmed(b);
  }

  /** Commas anywhere in the text are ignored (`"1,234"` gives 1234),
      as long as the text holds no separator U+001C..U+001F. */
  lemma SafeIntIgnoresCommas(s: string)
    requires NoSeparator(s)
    ensures SafeInt(Text(s)) == SafeInt(Text(RemoveCommas(s)))
  {
    var a := Strip(s);
    var b := Strip(RemoveCommas(s));
    SafeIntOfText(s);
    SafeIntOfText(RemoveCommas(s));
    ParseStrippedClean(RemoveCommas(s));
    ParseAfterCommas(s);
    assert a == "" ==> b == "" by {
      StripRemoveCommas(s);
    }
  }

  /** A separator at the front of the text `float` sees defeats it. */
  lemma SeparatorDefeatsParser()
    ensures ParseTruncated(['\U{1C}', '5']) == None
  {
    var t := ['\U{1C}', '5'];
    assert TrimFloatStart(t) == t;
    assert TrimFloatEnd(t) == t;
    assert DigitRun(t, 0) == 0;
  }

  /** The text `"5"` coerces to 5. */
  lemma FiveParses()
    ensures ParseTruncated(RemoveCommas(['5'])) == Some(5)
  {
    assert RemoveCommas(['5']) == ['5'];
    assert FloatStrip(['5']) == ['5'];
    DigitRunAll(['5']);
  }

  /** The separators U+001C..U+001F are whitespace to `str.strip` but not
      to `float`, so one that only comma removal brings to an end defeats
      the parser: `",\x1c5"` coerces to 0 although `"\x1c5"` coerces to 5.
      Commas are not ignored in general. */
  lemma SeparatorAfterComma()
    ensures SafeInt(Text([',', '\U{1C}', '5'])) == 0
    ensures SafeInt(Text(['\U{1C}', '5'])) == 5
  {
    var s := [',', '\U{1C}', '5'];
    var t := ['\U{1C}', '5'];
    SafeIntOfText(s);
    SafeIntOfText(t);
    NotSpace(',');
    NotSpace('5');
    StripTrimmed(s);
    assert RemoveCommas(s) == t;
    SeparatorDefeatsParser();
    StripUnique(['\U{1C}'], ['5'], []);
    FiveParses();
  }

  /** Non-ASCII whitespace that only comma removal brings to an end is
      still trimmed by `float`: `",\u3000" + "5"` coerces to 5. */
  lemma SafeIntSpaceAfterComma()
    ensures SafeInt(Text([',', '\U{3000}', '5'])) == 5
  {
    var s := [',', '\U{3000}', '5'];
    var t := ['\U{3000}', '5'];
    NotSpace(',');
    NotSpace('5');
    StripTrimmed(s);
    assert RemoveCommas(s) == t;
    assert TrimFloatStart(t) == ['5'] by {
      assert t[1..] == ['5'];
    }
    assert FloatStrip(t) == ['5'];
    DigitRunAll(['5']);
  }

  /** Trimmed, comma-free text that starts with a letter coerces to 0.
      This includes `"inf"` and `"nan"`: `float` accepts them, but `int`
      of the result raises, so `safe_int` gives 0 there too. */
  lemma SafeIntOfWord(w: string)
    requires w != "" && IsAsciiLetter(w[0]) && Trimmed(w)
    requires forall k :: 0 <= k < |w| ==> w[k] != ','
    ensures SafeInt(Text(w)) == 0
  {
    SafeIntOfCleanText(w);
    assert DigitRun(w, 0) == 0;
  }

  /** `safe_int` of a `datetime`, unfolded once. */
  lemma SafeIntOfDateTimeText(t: Calendar.DateTime)
    ensures var s := Strip(Calendar.IsoText(t));
      SafeInt(DateTimeCell(t)) == if s == "" then 0 else OrZero(ParseTruncated(RemoveCommas(s)))
  {
  }

  /** A `datetime` quantity coerces to 0: its text is not a number. */
  lemma SafeIntOfDateTime(t: Calendar.DateTime)
    ensures SafeInt(DateTimeCell(t)) == 0
  {
    var r := Calendar.IsoText(t);
    Calendar.IsoTextEnds(t);
    ZeroPadDigits(t.year, 4);
    SafeIntOfDateTimeText(t);
    ShapeDefeatsParser(r, ZeroPad(t.year, 4));
  }

  /** Digits followed by `-` (a rendered date) are not a number. */
  lemma ShapeDefeatsParser(r: string, y: string)
    requires 1 <= |y| < |r| && AllDigits(y) && r[..|y|] == y && r[|y|] == '-'
    requires IsDigit(r[|r| - 1])
    ensures Strip(r) == r
    ensures ParseTruncated(RemoveCommas(r)) == None
  {
    IsoTextShape(r, y);
    var t2 := RemoveCommas(r);
    StripTrimmed(r);
    StripTrimmed(t2);
    FloatStripTrimmed(t2);
    assert t2[0] == y[0];
    DigitRunStops(t2, |y|);
    assert ParseUnsigned(t2) == None;
  }

  /** Removing commas keeps a last character that is not a comma. */
  lemma RemoveCommasKeepsLast(s: string)
    requires s != [] && s[|s| - 1] != ','
    ensures RemoveCommas(s) != [] && RemoveCommas(s)[|RemoveCommas(s)| - 1] == s[|s| - 1]
  {
    var init := s[..|s| - 1];
    assert init + [s[|s| - 1]] == s;
    RemoveCommasAppend(init, [s[|s| - 1]]);
    assert RemoveCommas([s[|s| - 1]]) == [s[|s| - 1]];
  }

  /** The shape of a rendered `datetime` that defeats the number parser:
      digits, then a `-`, ending in a digit; commas do not change it. */
  lemma IsoTextShape(r: string, y: string)
    requires 1 <= |y| < |r| && AllDigits(y) && r[..|y|] == y && r[|y|] == '-'
    requires IsDigit(r[|r| - 1])
    ensures Trimmed(r)
    ensures var t2 := RemoveCommas(r);
      && |y| < |t2| && t2[..|y|] == y && t2[|y|] == '-'
      && IsDigit(t2[|t2| - 1]) && Trimmed(t2)
  {
    var rest := r[|y|..];
    assert r == y + rest;
    RemoveCommasAppend(y, rest);
    RemoveCommasNoop(y);
    assert rest[0] == '-';
    assert RemoveCommas(rest) == ['-'] + RemoveCommas(rest[1..]);
    var t2 := RemoveCommas(r);
    assert t2 == y + RemoveCommas(rest);
    assert t2[..|y|] == y;
    RemoveCommasKeepsLast(r);
    assert t2[0] == y[0];
    NotSpace(t2[0]);
    NotSpace(t2[|t2| - 1]);
    NotSpace(r[0]);
    NotSpace(r[|r| - 1]);
  }
}
