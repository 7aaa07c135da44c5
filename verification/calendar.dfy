/** Python's `datetime` restricted to what the engine touches: the
    proleptic Gregorian calendar for years 1..9999, ordering, month
    arithmetic in the style of `relativedelta(months=k)`, and the two
    renderings the engine produces (`str(dt)` and `strftime("%Y/%m/%d")`). */
module Calendar {
  import opened Outcomes
  import opened Strings

  /** A naive `datetime`, down to the microsecond. */
  datatype DateTime = DateTime(year: nat, month: nat, day: nat,
                               hour: nat, minute: nat, second: nat, micro: nat)

  predicate IsLeapYear(y: int) {
    y % 4 == 0 && (y % 100 != 0 || y % 400 == 0)
  }

  /** `calendar.monthrange(y, m)[1]`. */
  function DaysInMonth(y: int, m: int): (n: nat)
    requires 1 <= m <= 12
    ensures 28 <= n <= 31
    ensures n == 29 <==> m == 2 && IsLeapYear(y)
  {
    if m == 2 then (if IsLeapYear(y) then 29 else 28)
    else if m == 4 || m == 6 || m == 9 || m == 11 then 30
    else 31
  }

  /** The dates `datetime(y, m, d)` accepts. */
  predicate ValidDate(y: int, m: int, d: int) {
    1 <= y <= 9999 && 1 <= m <= 12 && 1 <= d <= DaysInMonth(y, m)
  }

  predicate Valid(t: DateTime) {
    && ValidDate(t.year, t.month, t.day)
    && t.hour < 24 && t.minute < 60 && t.second < 60 && t.micro < 1000000
  }

  /** `datetime(y, m, d)`: midnight of a calendar day. */
  function Midnight(y: nat, m: nat, d: nat): (r: DateTime) {
    DateTime(y, m, d, 0, 0, 0, 0)
  }

  predicate IsMidnight(t: DateTime) {
    t.hour == 0 && t.minute == 0 && t.second == 0 && t.micro == 0
  }

  /** The calendar day of `a` comes strictly before that of `b`. */
  predicate DayBefore(a: DateTime, b: DateTime) {
    || a.year < b.year
    || (a.year == b.year && a.month < b.month)
    || (a.year == b.year && a.month == b.month && a.day < b.day)
  }

  predicate SameDay(a: DateTime, b: DateTime) {
    a.year == b.year && a.month == b.month && a.day == b.day
  }

  /** `a < b` on `datetime`: the calendar day first, then the time of day. */
  predicate Before(a: DateTime, b: DateTime) {
    || DayBefore(a, b)
    || (SameDay(a, b) && a.hour < b.hour)
    || (SameDay(a, b) && a.hour == b.hour && a.minute < b.minute)
    || (SameDay(a, b) && a.hour == b.hour && a.minute == b.minute && a.second < b.second)
    || (SameDay(a, b) && a.hour == b.hour && a.minute == b.minute && a.second == b.second
        && a.micro < b.micro)
  }

  /** `Before` is a strict total order. */
  lemma BeforeStrictTotal(a: DateTime, b: DateTime, c: DateTime)
    ensures !Before(a, a)
    ensures Before(a, b) ==> !Before(b, a)
    ensures Before(a, b) && Before(b, c) ==> Before(a, c)
    ensures a == b || Before(a, b) || Before(b, a)
  {
  }

  /** The number of whole months since the start of year 0. */
  function MonthIndex(t: DateTime): (v: int) {
    t.year * 12 + t.month - 1
  }

  /** `t + relativedelta(months=k)`: move the month by `k`, clamp the day to
      the end of the new month, keep the time of day. `None` when the year
      leaves 1..9999, where `datetime.replace` raises. */
  function AddMonths(t: DateTime, k: int): (r: Option<DateTime>)
    requires 1 <= t.month <= 12
    ensures r.Some? <==> 1 <= (MonthIndex(t) + k) / 12 <= 9999
    ensures r.Some? ==> MonthIndex(r.value) == MonthIndex(t) + k
    ensures r.Some? ==> 1 <= r.value.month <= 12
    ensures r.Some? ==> r.value.day == if t.day <= DaysInMonth(r.value.year, r.value.month)
                                       then t.day else DaysInMonth(r.value.year, r.value.month)
    ensures r.Some? ==> && r.value.hour == t.hour && r.value.minute == t.minute
                        && r.value.second == t.second && r.value.micro == t.micro
    ensures r.Some? && Valid(t) ==> Valid(r.value)
  {
    var idx := MonthIndex(t) + k;
    var y := idx / 12;
    var m := idx % 12 + 1;
    if 1 <= y <= 9999 then
      var dim := DaysInMonth(y, m);
      Some(DateTime(y, m, if t.day <= dim then t.day else dim,
                    t.hour, t.minute, t.second, t.micro))
    else None
  }

  /** Moving forward by a positive number of months lands on a later
      calendar day. */
  lemma MonthIndexOrdersDays(a: DateTime, b: DateTime)
    requires 1 <= a.month <= 12 && 1 <= b.month <= 12
    requires MonthIndex(a) < MonthIndex(b)
    ensures DayBefore(a, b)
  {
  }

  /** `strftime("%Y/%m/%d")` of a calendar day: zero-padded fields. */
  function SlashDate(y: nat, m: nat, d: nat): (r: string) {
    ZeroPad(y, 4) + "/" + ZeroPad(m, 2) + "/" + ZeroPad(d, 2)
  }

  /** `str(dt)`: `YYYY-MM-DD HH:MM:SS`, with `.ffffff` only when the
      microseconds are not zero. */
  function IsoText(t: DateTime): (v: string) {
    ZeroPad(t.year, 4) + ("-" + ZeroPad(t.month, 2) + "-" + ZeroPad(t.day, 2) + " " + ClockText(t))
  }

  /** The time part of `str(dt)`: `HH:MM:SS`, then `.ffffff` only when the
      microseconds are not zero. */
  function ClockText(t: DateTime): (v: string) {
    var frac := if t.micro != 0 then "." + ZeroPad(t.micro, 6) else "";
    ZeroPad(t.hour, 2) + ":" + ZeroPad(t.minute, 2) + ":" + ZeroPad(t.second, 2) + frac
  }

  /** The rendering starts with the padded year and a `-`, and ends in a
      digit. */
  lemma IsoTextEnds(t: DateTime)
    ensures var r := IsoText(t); var y := ZeroPad(t.year, 4);
      |y| < |r| && r[..|y|] == y && r[|y|] == '-' && IsDigit(r[|r| - 1])
  {
    var clock := ClockText(t);
    if t.micro != 0 {
      ZeroPadEndsInDigit(t.micro, 6);
      LastOfConcat(ZeroPad(t.hour, 2) + ":" + ZeroPad(t.minute, 2) + ":" + ZeroPad(t.second, 2) + ".", ZeroPad(t.micro, 6));
    } else {
      ZeroPadEndsInDigit(t.second, 2);
      LastOfConcat(ZeroPad(t.hour, 2) + ":" + ZeroPad(t.minute, 2) + ":", ZeroPad(t.second, 2));
    }
    var rest := "-" + ZeroPad(t.month, 2) + "-" + ZeroPad(t.day, 2) + " " + clock;
    LastOfConcat("-" + ZeroPad(t.month, 2) + "-" + ZeroPad(t.day, 2) + " ", clock);
    LastOfConcat(ZeroPad(t.year, 4), rest);
  }

  /** The last character of a concatenation is that of its nonempty
      second part, and the first part is its prefix. */
  lemma LastOfConcat(a: string, b: string)
    requires |b| >= 1
    ensures (a + b)[..|a|] == a && (a + b)[|a|] == b[0] && (a + b)[|a + b| - 1] == b[|b| - 1]
  {
  }
}
