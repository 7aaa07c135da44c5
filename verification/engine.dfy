/** `create_schedule` with its workbooks already loaded (schedule_logic.py,
    lines 74-246): check the target date, build the window around "now",
    match and write the ledger rows, resolve column I, and total the
    schedule. */
module Engine {
  import opened Outcomes
  import opened Strings
  import opened Calendar
  import opened Cells
  import opened ExcelDates
  import opened Layout
  import opened Matcher
  import opened Resolver
  import opened Aggregator

  /** The exceptions the modelled part can raise: `datetime(year, month,
      day)` on a date that does not exist (line 83), and the month shift of
      lines 119-120 leaving the years `datetime` supports. */
  datatype Error = InvalidTargetDate | WindowOutOfRange

  /** The result: the name the output is saved under, the output sheet, and
      the four totals of line 246. */
  datatype Report = Report(fileName: string, out: Grid, totals: Totals)

  /** Line 234: `f"{year:04d}{month:02d}{day:02d}_生産日程表★.xlsx"`. */
  function SaveName(y: nat, m: nat, d: nat): (v: string) {
    ZeroPad(y, 4) + ZeroPad(m, 2) + ZeroPad(d, 2) + "_生産日程表★.xlsx"
  }

  /** The whole engine, from the loaded schedule, ledger and template. */
  method CreateSchedule(year: int, month: int, day: int, filterType: string, now: DateTime,
                        sched: Grid, ledger: Sheet, template: Grid)
    returns (r: Result<Report, Error>)
    requires Valid(now)
    ensures !ValidDate(year, month, day) ==> r == Err(InvalidTargetDate)
    ensures ValidDate(year, month, day) && MakeWindow(now).None? ==> r == Err(WindowOutOfRange)
    ensures ValidDate(year, month, day) && MakeWindow(now).Some? ==> r.Ok?
    ensures r.Ok? ==> ValidDate(year, month, day) && MakeWindow(now).Some?
    ensures r.Ok? ==> r.value.fileName == SaveName(year, month, day)
    ensures r.Ok? ==>
      var rows := Accepted(sched, ledger, MakeWindow(now).value, filterType);
      var written := WriteRows(template, rows, SlashDate(year, month, day));
      forall c: Col, row: int :: At(r.value.out, c, row) == (if c == I && FirstOutRow <= row < FirstOutRow + |rows| then ResolvedI(sched, written, row) else At(written, c, row))
    ensures r.Ok? ==> r.value.totals == Plus(GroupTotals(sched, Group1, LastScheduleRow + 1), GroupTotals(sched, Group2, LastScheduleRow + 1))
  {
    if !(1 <= year <= 9999 && 1 <= month <= 12 && 1 <= day <= DaysInMonth(year, month)) {
      return Err(InvalidTargetDate);
    }
    var stamp := SlashDate(year, month, day);
    var window := MakeWindow(now);
    if window.None? {
      return Err(WindowOutOfRange);
    }
    var out, outRow := Match(sched, ledger, window.value, filterType, stamp, template);
    out := Resolve(sched, out, outRow);
    var totals := Aggregate(sched);
    return Ok(Report(SaveName(year, month, day), out, totals));
  }
}
