# Production schedule reconciliation, modelled in Dafny

`create_schedule` in `schedule_logic.py` builds a production schedule
workbook. It does so in five steps.

1. It reads the schedule sheet. That sheet has two column groups, C-F and
   I-L, on rows 3 to 62.
2. It finds every row of the request ledger whose normalized key (column C)
   matches a key of the schedule and whose date (column G) lies in the
   window from five months before today to two months after it. In
   "dollar" mode the ledger row's D must also start with `$` or `＄`.
3. It writes each such ledger row once into an output template, from
   row 2 down. Repeats are recognised by the raw A..F values.
4. It cross-references each output row against the schedule to set its
   column I.
5. It totals the quantities of the schedule by region (Gifu or Shiga) and
   by drawing kind (new or old).

This project models that core on immutable values:

- a worksheet is a map from `(column, row)` to a tagged cell;
- a cell is `None`, `int`, `str` or `datetime`;
- "now" and the target date are parameters.

The model is organised as follows.

- `Strings`, `Calendar` and `Cells` model the Python built-ins the engine
  relies on. These are `str.strip`, `str(int)` and `str(datetime)`,
  `strftime`, `relativedelta(months=k)`, `datetime` ordering, truthiness
  and `str(v or "")`.
- `Keys` models `normalize_key`.
- `Numbers` and `NumberFacts` model `safe_int`.
- `ExcelDates` models `parse_excel_date` and the date window.
- `Matcher` and `MatcherFacts` model the matcher, the duplicate check and
  the row writer.
- `Resolver` models the cross-reference pass.
- `Aggregator` models the totals.
- `Engine` models the sequence of those steps, with its two error
  outcomes.

`filter_type` is compared only with `"dollar"`, so any other value keeps
every row. The totals are never filtered: the variables of
schedule_logic.py:229-232 only copy the unfiltered totals.

Four behaviours of the code are easy to overlook, and the model keeps
each of them as written.

- **Matcher.** The ledger scan for a schedule key has no `break`
  (schedule_logic.py:132-163). Every admitted ledger row is offered to
  the duplicate check, not only the first one for that key.
- **Resolver.** The resolver always runs the group 2 search after the
  group 1 search (schedule_logic.py:170-186). A group 2 match therefore
  overrides a group 1 match for the same output row.
- **Aggregator keys.** The aggregator skips only keys that are `None`
  (schedule_logic.py:195-196). A key that is an empty or blank string
  still counts, and it counts for Shiga.
- **Errors and signs.** Totals can be negative, because `safe_int("-3")`
  is -3. Two steps of the modelled core raise an exception instead of
  returning a value:
  - `datetime(year, month, day)` on a date that does not exist
    (schedule_logic.py:83);
  - a month shift of the window that leaves years 1-9999
    (schedule_logic.py:119-120).

## Model

| member | source | states |
|---|---|---|
| Keys.NormalizeKeyShape | schedule_logic.py:51-54 | `None` gives the empty key. Any other key is trimmed and contains no look-alike dash. Character by character it is the stripped `str` of the cell with each of the three dashes replaced by `-`. |
| Keys.UnifyDashesChars | schedule_logic.py:54 | The three chained `replace` calls keep the length. They turn each of U+FF0D, U+30FC and U+2212 into `-` and leave every other character alone. |
| Keys.NormalizeIdempotent | schedule_logic.py:51-54 | Normalising an already normalised key gives it back unchanged. |
| Keys.DashesUnified | schedule_logic.py:54 | In a text key, any of the three look-alike dashes, or `-`, at the same position gives the same normalized key. |
| Keys.StripUnifyCommute | schedule_logic.py:54 | Stripping and then unifying dashes equals unifying dashes and then stripping. No dash is whitespace. |
| Numbers.SafeInt | schedule_logic.py:56-72 | `None` coerces to 0 and an `int` coerces to itself. |
| Numbers.SafeIntBlank | schedule_logic.py:65-67 | A string of whitespace coerces to 0. |
| NumberFacts.SafeIntOfCleanText | schedule_logic.py:65-72 | Trimmed text without commas reaches the number parser unchanged. A parse failure gives 0. |
| NumberFacts.SafeIntRoundTrip | schedule_logic.py:65-72 | The text `str(i)`, optionally followed by `.` and fraction digits, coerces back to `i` under the exact decimal reading (rounding to a double is not modelled). It truncates toward zero, so "-12.9" gives -12. |
| Numbers.FloatStripParts | schedule_logic.py:70 | `float` removes only its own whitespace from the ends: everything `str.isspace` accepts except the separators U+001C..U+001F. What it leaves has none of that whitespace at either end. |
| Numbers.FloatStripAgrees | schedule_logic.py:65-70 | On text without separators, `float`'s trimming removes exactly what `str.strip` removes. |
| NumberFacts.SafeIntIgnoresCommas | schedule_logic.py:65-72 | For text without separators U+001C..U+001F, commas anywhere do not change the coerced value. |
| NumberFacts.SeparatorAfterComma | schedule_logic.py:65-72 | The separator condition is needed. Comma removal after `strip` can expose a separator at an end, and `float` then rejects the text. `",\x1c5"` coerces to 0 while `"\x1c5"` coerces to 5. |
| NumberFacts.SafeIntSpaceAfterComma | schedule_logic.py:65-72 | Non-ASCII whitespace exposed by comma removal is still trimmed by `float`. `",\u3000" + "5"` coerces to 5. |
| NumberFacts.SafeIntOfWord | schedule_logic.py:65-72 | Trimmed, comma-free text starting with a letter coerces to 0. This covers `"inf"` and `"nan"`: `float` accepts them, then `int` raises. |
| NumberFacts.SafeIntOfDateTime | schedule_logic.py:65-72 | A `datetime` quantity coerces to 0, because its text is not a number. |
| ExcelDates.ParseSlashDate | schedule_logic.py:44-48 | `strptime("%Y/%m/%d")` succeeds only on a real calendar day. The result is at midnight and its year is the four leading digits. |
| ExcelDates.ParseSlashParts | schedule_logic.py:44-48 | Four year digits, a one- or two-character month token and a day token, joined by `/`, parse to midnight of the day they name. They parse to nothing when that day does not exist. So "2024/1/5" gives 2024-01-05. |
| ExcelDates.ParseSlashTokens | schedule_logic.py:44-48 | Every text the parser accepts splits into year digits, a month token and a day token. The parsed date is the day those tokens name. |
| ExcelDates.ParseExcelDate | schedule_logic.py:39-49 | A date is found exactly for a `datetime` cell, which is returned as is, or for text the `%Y/%m/%d` parser accepts. `None` and numbers never give a date. A date read from text is a real calendar day at midnight. |
| ExcelDates.SlashDateRoundTrip | schedule_logic.py:161 | The `%Y/%m/%d` stamp written into column B reads back through `parse_excel_date` as midnight of the same day. |
| Calendar.AddMonths | schedule_logic.py:119-120 | The shifted month number is the original plus `k`. The day is clamped to the length of the new month and the time of day is kept. The shift fails exactly when the year leaves 1-9999. |
| Calendar.BeforeStrictTotal | schedule_logic.py:140 | `datetime` comparison is a strict total order. |
| ExcelDates.MakeWindow | schedule_logic.py:118-120 | The window exists exactly when both month shifts succeed. Its ends are "now" shifted back 5 months and forward 2 months. |
| ExcelDates.WindowOrdered | schedule_logic.py:118-120 | The window's start falls on an earlier calendar day than its end. |
| ExcelDates.StartDayMidnight | schedule_logic.py:119 | The lower bound keeps the time of "now". Midnight of the start day is inside the window only when "now" is itself midnight. |
| ExcelDates.EndDayMidnight | schedule_logic.py:120 | Midnight of the end day is always inside the window. |
| ExcelDates.OutsideDays | schedule_logic.py:140 | Every moment of a day before the start day, or after the end day, is outside the window. |
| ExcelDates.DateAdmittedCases | schedule_logic.py:139-141 | A missing, numeric or unparseable date always excludes the row. A parsed date is admitted exactly when it lies between the bounds, both ends included. |
| Matcher.Accept | schedule_logic.py:149-163 | A tuple already written leaves the state unchanged. A new tuple advances `out_row` by one and is recorded in `written_rows`. |
| Matcher.OfferedState | schedule_logic.py:122-163 | Offering candidates in order writes their first occurrences from row 2 down. It leaves `out_row` one past them and records every tuple offered. |
| Matcher.OfferRow | schedule_logic.py:133-163 | One ledger row passes exactly when it meets the key, date and dollar tests. It then goes through the duplicate check and the writer. |
| Matcher.ScanLedger | schedule_logic.py:132-163 | One schedule key offers every admitted ledger row in 2..max_row, in row order. |
| Matcher.ScanScheduleRow | schedule_logic.py:127-131 | A `None` schedule key offers nothing. Any other key offers the ledger hits of its normalized form. |
| Matcher.ScanGroup | schedule_logic.py:126-163 | A column group offers the hits of schedule rows 3 to 62 in order. |
| Matcher.Match | schedule_logic.py:122-163 | The output is the template with the accepted rows written from row 2 down. `out_row` ends at 2 plus their number. |
| MatcherFacts.WriteRowsContent | schedule_logic.py:154-162 | Output row `2+k` holds the following values from the k-th accepted ledger row: A is the stripped text of its C, C its A, F its B, E its D, D its E, B the stamp and I its F. |
| MatcherFacts.WriteRowsFrame | schedule_logic.py:154-163 | Unwritten columns, and rows outside 2..1+n, keep the template's cells. |
| MatcherFacts.AdmitsSplit | schedule_logic.py:133-147 | A ledger row answers a key exactly when its C is not `None` and normalizes to the key, and it passes the date and dollar tests. |
| MatcherFacts.LedgerHitsSound | schedule_logic.py:132-147 | Every hit of a key scan comes from an admitted ledger row in 2..max_row with that key. |
| MatcherFacts.LedgerHitsComplete | schedule_logic.py:132-147 | Every admitted ledger row in 2..max_row with that key is a hit. |
| MatcherFacts.GroupCandidatesSound | schedule_logic.py:126-147 | Every candidate of a column group comes from an admitted ledger row whose key is the key of some non-`None` cell of the group. |
| MatcherFacts.GroupCandidatesComplete | schedule_logic.py:126-147 | Every such ledger row is a candidate of the group. |
| MatcherFacts.AcceptedExactly | schedule_logic.py:122-152 | The written tuples are pairwise distinct. A tuple is written if and only if some eligible ledger row carries it. |
| MatcherFacts.DollarAdmits | schedule_logic.py:145-147 | In dollar mode a ledger row is admitted exactly when it is admitted in all-rows mode and its stripped D starts with a dollar sign. |
| MatcherFacts.DollarRowCandidates | schedule_logic.py:145-147 | In dollar mode a schedule row's hits are its all-rows hits that are dollar-marked, in the same order. |
| MatcherFacts.DollarModeFilters | schedule_logic.py:142-152 | Dollar mode writes exactly the dollar-marked rows of the all-rows output, in the same order. It never writes more rows. |
| Unique.DedupElements | schedule_logic.py:149-152 | The duplicate check keeps every offered tuple and keeps none twice. |
| Unique.DedupPositions | schedule_logic.py:149-152 | The survivors are first occurrences, in increasing offer order. |
| Resolver.FirstMatchLeast | schedule_logic.py:170-177 | The search finds the least matching schedule row in 3..62. It finds nothing exactly when no row in that range matches. |
| Resolver.FindMatch | schedule_logic.py:170-177 | The loop with `break` returns the least matching row, or nothing. |
| Resolver.ResolvedIPrecedence | schedule_logic.py:165-186 | Column I becomes the L of the first group-2 match. Without one it becomes the F of the first group-1 match. Without either it keeps its value. |
| Resolver.ResolveRow | schedule_logic.py:166-186 | One output row's I becomes its resolved value. No other cell changes. |
| Resolver.Resolve | schedule_logic.py:165-186 | Exactly column I of output rows 2..out_row-1 changes, each to its resolved value. |
| Resolver.ResolvedIReads | schedule_logic.py:166-168 | The resolved value depends only on the row's A, D, F and I. |
| Aggregator.AddRow | schedule_logic.py:192-207 | A keyed row adds its coerced quantity to exactly the total of its region and drawing kind. A `None` key adds nothing. |
| Aggregator.AggregateGroup | schedule_logic.py:191-207 | After rows 3 to 62, each total has grown by the sum over that class's rows. |
| Aggregator.Aggregate | schedule_logic.py:189-232 | The reported totals are the class sums over both groups. They do not depend on the filter. |
| Aggregator.ClassesPartition | schedule_logic.py:195-207 | Each keyed row lands in exactly one total, so the four totals add up to every keyed quantity of the group. |
| Aggregator.TotalsAddUp | schedule_logic.py:189-232 | The four reported totals add up to the coerced quantities of all keyed rows of both groups. |
| Aggregator.ShigaTextKeys | schedule_logic.py:195-198 | A blank text key, or one whose stripped text starts with a digit, counts for Shiga. |
| Aggregator.ShigaIntKey | schedule_logic.py:197-198 | Every integer key counts for Shiga. |
| Aggregator.ShigaDateKey | schedule_logic.py:197-198 | Every `datetime` key counts for Shiga. |
| Aggregator.NewMarkerStricter | schedule_logic.py:199 | Every marker the aggregator calls new passes the matcher's stripped dollar test. " $" passes the matcher's test but is old to the aggregator. |
| Engine.CreateSchedule | schedule_logic.py:83-246 | The result is an error exactly when the target date is invalid (checked first) or the window leaves the calendar. Otherwise the file name is `YYYYMMDD_生産日程表★.xlsx`. The sheet is the written output with column I resolved on the written rows. The totals are those of the whole schedule. |

## Left out

- Reading and writing files:
  - the `.xls` conversion through Excel automation and the workbook
    loading (schedule_logic.py:13-37, 109-116);
  - saving, closing and removing the temporary files
    (schedule_logic.py:235-244);
  - the path handling of `import_path` and `output_path`.

  These are I/O. The engine receives the loaded sheets, and the template,
  as values.
- Finding the schedule file (schedule_logic.py:85-107). This covers:
  - the directory listing;
  - the `FileNotFoundError` raised when no file matches
    (schedule_logic.py:96);
  - the GUI selection callback, and the bare `Exception` raised when the
    user cancels it (schedule_logic.py:101).

  These are file-system and user-interface interaction.
- `datetime.today()` (schedule_logic.py:118). The clock becomes the `now`
  parameter.
- Float and bool cells. Cells are `None`, `int`, `str` or `datetime`. The
  `int(v)` of a float quantity and Python's truthiness of `False` are not
  modelled.
- Numbers.ParseTruncated: models `float()` on plain decimals only. The
  forms are an optional sign, digits, and an optional fractional part.
  Exponents, underscores and non-ASCII digits are not accepted, so
  `safe_int` gives 0 for them (`"1e3"`, `"1_000"`, `"１２"`) where Python
  gives a number. An exponent that overflows to infinity gives 0 in both.
  The model also rejects `"inf"` and `"nan"`, and gives 0. Python gives 0
  as well: `int` raises on them, and the bare `except` returns 0.
  Rounding to the nearest double is not modelled either: the model
  truncates the exact decimal value. For example, `"12.99999999999999999"`
  gives 12 in the model but 13 in Python, and `"9007199254740993"` gives
  itself in the model but 9007199254740992 in Python.
- NumberFacts.SafeIntIgnoresCommas: is stated for text without the
  separators U+001C..U+001F, because `safe_int` itself is not
  comma-invariant on them. `SeparatorAfterComma` shows both values.
- NumberFacts.SafeIntRoundTrip: holds for the exact decimal parser only.
  In Python it fails once `float` rounds: for integers beyond 2**53, and
  for fractions close enough to the next integer to round up to it.
- ExcelDates.ParseSlashDate: reads ASCII digits only, whereas `strptime`'s
  `\d` also matches other Unicode decimal digits.
- Strings.ZeroPad: renders `%Y` as at least four digits. Python's
  `strftime` does not pad years below 1000 on every platform.
- Calendar.IsoText: renders naive datetimes only. Time zones and `fold`
  are not modelled.
- The `number_format = '@'` of column A (schedule_logic.py:156). It is
  cell formatting, not a value.
- openpyxl's rejection of illegal control characters in written strings.
  It is library behaviour outside the engine.
