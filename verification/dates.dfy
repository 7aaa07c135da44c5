/** Reading ledger dates and the reporting window: `parse_excel_date` and
    the `today - 5 months .. today + 2 months` bounds in schedule_logic.py. */
module ExcelDates {
  import opened Outcomes
  import opened Strings
  import opened Calendar
  import opened Cells

  /** The `%m` alternatives of `strptime`: `1[0-2]|0[1-9]|[1-9]`. */
  predicate MonthToken(t: string) {
    || (|t| == 1 && '1' <= t[0] <= '9')
    || (|t| == 2 && t[0] == '0' && '1' <= t[1] <= '9')
    || (|t| == 2 && t[0] == '1' && '0' <= t[1] <= '2')
  }

  /** The `%d` alternatives of `strptime`: `3[01]|[12]\d|0[1-9]|[1-9]| [1-9]`. */
  predicate DayToken(t: string) {
    || (|t| == 1 && '1' <= t[0] <= '9')
    || (|t| == 2 && t[0] == '3' && (t[1] == '0' || t[1] == '1'))
    || (|t| == 2 && (t[0] == '1' || t[0] == '2') && IsDigit(t[1]))
    || (|t| == 2 && t[0] == '0' && '1' <= t[1] <= '9')
    || (|t| == 2 && t[0] == ' ' && '1' <= t[1] <= '9')
  }

  /** The number a `%d` token denotes; the space-padded form counts its
      digit only. */
  function DayValue(t: string): (v: nat)
    requires DayToken(t)
  {
    if t[0] == ' ' then DigitValue(t[1]) else DigitsValue(t)
  }

  /** `datetime.strptime(s, "%Y/%m/%d")`, `None` where it raises: four year
      digits, `/`, a month token, `/`, a day token and nothing after, naming
      a real calendar day. */
  function ParseSlashDate(s: string): (r: Option<DateTime>)
    ensures r.Some? ==> Valid(r.value) && IsMidnight(r.value)
    ensures r.Some? ==> |s| >= 8 && AllDigits(s[..4]) && r.value.year == DigitsValue(s[..4])
  {
    if |s| < 5 || !AllDigits(s[..4]) || s[4] != '/' then None
    else
      var rest := s[5..];
      var n := if |rest| >= 2 && rest[1] == '/' then 1 else 2;
      if |rest| < n + 1 || rest[n] != '/' || !MonthToken(rest[..n]) || !DayToken(rest[n + 1..]) then None
      else
        var y := DigitsValue(s[..4]);
        var m := DigitsValue(rest[..n]);
        var d := DayValue(rest[n + 1..]);
        if ValidDate(y, m, d) then Some(Midnight(y, m, d)) else None
  }

  /** `parse_excel_date(value)`: a `datetime` as is, a `str` through
      `ParseSlashDate`, anything else `None`. */
  function ParseExcelDate(v: Cell): (r: Option<DateTime>)
    ensures r.Some? <==> v.DateTimeCell? || (v.Text? && ParseSlashDate(v.s).Some?)
    ensures v.DateTimeCell? ==> r == Some(v.t)
    ensures r.Some? && !v.DateTimeCell? ==> Valid(r.value) && IsMidnight(r.value)
  {
    match v
    case Empty => None
    case Int(_) => None
    case Text(s) => ParseSlashDate(s)
    case DateTimeCell(t) => Some(t)
  }

  /** Two-digit zero padding of a day number is a `%d` token, and of a
      month number a `%m` token, naming the same number. */
  lemma ZeroPadTwo(n: nat)
    requires 1 <= n <= 31
    ensures var t := ZeroPad(n, 2);
      |t| == 2 && DayToken(t) && DayValue(t) == n && (n <= 12 ==> MonthToken(t))
  {
    NatToStringLength(n, 2);
    ZeroPadLength(n, 2);
    ZeroPadDigits(n, 2);
    var t := ZeroPad(n, 2);
    if n < 10 {
      assert NatToString(n) == [DigitChar(n)];
      assert t == "0" + [DigitChar(n)];
    } else {
      assert NatToString(n / 10) == [DigitChar(n / 10)];
      assert t == NatToString(n);
      NatToStringDigits(n);
      assert t[0] == DigitChar(n / 10) && t[1] == DigitChar(n % 10);
      assert DigitsValue(t) == n;
    }
  }

  /** A well-formed `YYYY/M/D` text, with a one- or two-character month
      token, parses to the midnight its tokens name, or to `None` when that
      day does not exist. */
  lemma ParseSlashParts(ys: string, ms: string, ds: string)
    requires |ys| == 4 && AllDigits(ys) && MonthToken(ms) && DayToken(ds)
    ensures ParseSlashDate(ys + "/" + ms + "/" + ds)
      == var y := DigitsValue(ys); var m := DigitsValue(ms); var d := DayValue(ds);
         if ValidDate(y, m, d) then Some(Midnight(y, m, d)) else None
  {
    var s := ys + "/" + ms + "/" + ds;
    var n := |ms|;
    assert s[..4] == ys;
    var rest := s[5..];
    assert rest == ms + "/" + ds;
    assert rest[n] == '/';
    assert n == 2 ==> rest[1] == ms[1] && rest[1] != '/';
    assert rest[..n] == ms;
    assert rest[n + 1..] == ds;
  }

  /** Conversely, every text `strptime` accepts is four year digits, `/`, a
      month token, `/` and a day token, and parses to the day they name. */
  lemma ParseSlashTokens(s: string) returns (ms: string, ds: string)
    requires ParseSlashDate(s).Some?
    ensures MonthToken(ms) && DayToken(ds)
    ensures s == s[..4] + "/" + ms + "/" + ds
    ensures ParseSlashDate(s).value == Midnight(DigitsValue(s[..4]), DigitsValue(ms), DayValue(ds))
  {
    var rest := s[5..];
    var n := if |rest| >= 2 && rest[1] == '/' then 1 else 2;
    ms := rest[..n];
    ds := rest[n + 1..];
    assert rest == ms + "/" + ds;
    assert s == s[..4] + "/" + rest;
  }

  /** Dates written by `strftime("%Y/%m/%d")` read back as the same day:
      the stamp the engine writes is one `parse_excel_date` accepts. */
  lemma SlashDateRoundTrip(y: nat, m: nat, d: nat)
    requires ValidDate(y, m, d)
    ensures ParseSlashDate(SlashDate(y, m, d)) == Some(Midnight(y, m, d))
  {
    assert y < Pow10(4);
    NatToStringLength(y, 4);
    ZeroPadLength(y, 4);
    ZeroPadDigits(y, 4);
    ZeroPadTwo(m);
    ZeroPadTwo(d);
    ParseSlashParts(ZeroPad(y, 4), ZeroPad(m, 2), ZeroPad(d, 2));
  }

  /** The reporting window: both ends inclusive. */
  datatype Window = Window(start: DateTime, end: DateTime)

  /** `today - relativedelta(months=5)` and `today + relativedelta(months=2)`;
      `None` where either shift leaves the years `datetime` supports. */
  function MakeWindow(now: DateTime): (r: Option<Window>)
    requires 1 <= now.month <= 12
    ensures r.Some? <==> AddMonths(now, -5).Some? && AddMonths(now, 2).Some?
    ensures r.Some? ==> r.value.start == AddMonths(now, -5).value
    ensures r.Some? ==> r.value.end == AddMonths(now, 2).value
  {
    match (AddMonths(now, -5), AddMonths(now, 2))
    case (Some(s), Some(e)) => Some(Window(s, e))
    case _ => None
  }

  /** `not (d < start or d > end)`. */
  predicate InWindow(d: DateTime, w: Window) {
    !Before(d, w.start) && !Before(w.end, d)
  }

  /** The date test a ledger row must pass: its G cell parses, and the
      date lies in the window. */
  predicate DateAdmitted(g: Cell, w: Window) {
    match ParseExcelDate(g)
    case None => false
    case Some(d) => InWindow(d, w)
  }

  /** A missing or unparseable date always excludes the row; a parsed one
      is admitted exactly when it lies in the window. */
  lemma DateAdmittedCases(g: Cell, w: Window)
    ensures g.Empty? || g.Int? ==> !DateAdmitted(g, w)
    ensures g.Text? && ParseSlashDate(g.s).None? ==> !DateAdmitted(g, w)
    ensures DateAdmitted(g, w) <==>
              ParseExcelDate(g).Some? && !Before(ParseExcelDate(g).value, w.start)
              && !Before(w.end, ParseExcelDate(g).value)
  {
  }

  /** The window starts seven calendar months before it ends. */
  lemma WindowOrdered(now: DateTime)
    requires Valid(now) && MakeWindow(now).Some?
    ensures DayBefore(MakeWindow(now).value.start, MakeWindow(now).value.end)
  {
    var w := MakeWindow(now).value;
    MonthIndexOrdersDays(w.start, w.end);
  }

  /** The lower bound keeps the time of day of "now": midnight of the
      start's calendar day is inside the window only when "now" is itself
      exactly midnight. */
  lemma StartDayMidnight(now: DateTime)
    requires Valid(now) && MakeWindow(now).Some?
    ensures var w := MakeWindow(now).value;
      InWindow(Midnight(w.start.year, w.start.month, w.start.day), w) <==> IsMidnight(now)
  {
    WindowOrdered(now);
  }

  /** Midnight of the end's calendar day is always inside the window. */
  lemma EndDayMidnight(now: DateTime)
    requires Valid(now) && MakeWindow(now).Some?
    ensures var w := MakeWindow(now).value;
      InWindow(Midnight(w.end.year, w.end.month, w.end.day), w)
  {
    WindowOrdered(now);
  }

  /** Any moment of a calendar day before the start's, or after the end's,
      is outside the window. */
  lemma OutsideDays(d: DateTime, w: Window)
    ensures DayBefore(d, w.start) ==> !InWindow(d, w)
    ensures DayBefore(w.end, d) ==> !InWindow(d, w)
  {
  }
}
