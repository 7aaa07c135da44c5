/** The summary totals (schedule_logic.py, lines 189-232): every schedule
    row of both column groups with a key adds its coerced quantity to one of
    four totals, by region (Gifu or Shiga) and by drawing (new or old). */
module Aggregator {
  import opened Strings
  import opened Cells
  import opened Calendar
  import opened Numbers
  import opened NumberFacts
  import opened Layout

  /** The four totals, in the order line 189 names them. */
  datatype Totals = Totals(gifuNew: int, shigaNew: int, gifuOld: int, shigaOld: int)

  function Sum(t: Totals): (r: int) {
    t.gifuNew + t.shigaNew + t.gifuOld + t.shigaOld
  }

  /** Lines 196-197: a key belongs to Gifu when the first character of its
      stripped text is an ASCII letter. */
  predicate IsGifu(key: Cell) {
    var t := Strip(CellText(key));
    |t| > 0 && IsAsciiLetter(t[0])
  }

  /** Lines 199 and 204: a marker flags a new drawing when it is a string
      starting with `$` or `＄`, checked as it is, without stripping. */
  predicate IsNew(marker: Cell) {
    marker.Text? && HasDollarPrefix(marker.s)
  }

  /** What one schedule row of group `g` adds to the total for region
      `gifu` and drawing kind `isNew`: its quantity when it has a key and
      falls in that class, nothing otherwise. */
  function Share(sched: Grid, g: Group, r: int, gifu: bool, isNew: bool): (v: int) {
    var key := At(sched, g.key, r);
    if key != Empty && IsGifu(key) == gifu && IsNew(At(sched, g.marker, r)) == isNew
    then SafeInt(At(sched, g.qty, r)) else 0
  }

  /** `f(3) + ... + f(hi - 1)`: a sum over schedule rows. */
  function SumRows(f: int -> int, hi: int): (v: int)
    decreases hi - FirstScheduleRow
  {
    if hi <= FirstScheduleRow then 0 else SumRows(f, hi - 1) + f(hi - 1)
  }

  /** Sums over rows add up pointwise. */
  lemma {:induction false} SumRowsSplit(f1: int -> int, f2: int -> int, f3: int -> int, f4: int -> int,
                                        f: int -> int, hi: int)
    requires forall r :: f1(r) + f2(r) + f3(r) + f4(r) == f(r)
    ensures SumRows(f1, hi) + SumRows(f2, hi) + SumRows(f3, hi) + SumRows(f4, hi) == SumRows(f, hi)
    decreases hi - FirstScheduleRow
  {
    if hi > FirstScheduleRow {
      SumRowsSplit(f1, f2, f3, f4, f, hi - 1);
    }
  }

  function ShareAt(sched: Grid, g: Group, gifu: bool, isNew: bool): (v: int -> int) {
    r => Share(sched, g, r, gifu, isNew)
  }

  /** `safe_int` of the quantity of a keyed row, 0 for a row whose key is
      `None`. */
  function KeyedAt(sched: Grid, g: Group): (v: int -> int) {
    r => if At(sched, g.key, r) != Empty then SafeInt(At(sched, g.qty, r)) else 0
  }

  /** The total for one class over schedule rows `3 .. hi - 1` of group `g`. */
  function BucketSum(sched: Grid, g: Group, gifu: bool, isNew: bool, hi: int): (r: int) {
    SumRows(ShareAt(sched, g, gifu, isNew), hi)
  }

  /** The coerced quantities of every keyed row `3 .. hi - 1` of group `g`,
      whatever its class. */
  function KeyedSum(sched: Grid, g: Group, hi: int): (v: int) {
    SumRows(KeyedAt(sched, g), hi)
  }

  /** The four totals of one group, each over rows `3 .. hi - 1`. */
  function GroupTotals(sched: Grid, g: Group, hi: int): (v: Totals) {
    Totals(BucketSum(sched, g, true, true, hi), BucketSum(sched, g, false, true, hi),
           BucketSum(sched, g, true, false, hi), BucketSum(sched, g, false, false, hi))
  }

  function Plus(a: Totals, b: Totals): (v: Totals) {
    Totals(a.gifuNew + b.gifuNew, a.shigaNew + b.shigaNew, a.gifuOld + b.gifuOld, a.shigaOld + b.shigaOld)
  }

  /** Lines 192-207 (or 210-225) for schedule row `r`: a keyed row adds
      its quantity to the total of its class; a `None` key adds nothing. */
  method AddRow(sched: Grid, g: Group, r: int, t0: Totals) returns (t: Totals)
    ensures t == Plus(t0, Totals(Share(sched, g, r, true, true), Share(sched, g, r, false, true),
                                 Share(sched, g, r, true, false), Share(sched, g, r, false, false)))
  {
    t := t0;
    var c := At(sched, g.key, r);
    var d := At(sched, g.marker, r);
    var fVal := SafeInt(At(sched, g.qty, r));
    if c == Empty {
      return;
    }
    var first := Strip(CellText(c));
    if |first| > 0 && IsAsciiLetter(first[0]) {
      if d.Text? && HasDollarPrefix(d.s) {
        t := t.(gifuNew := t.gifuNew + fVal);
      } else {
        t := t.(gifuOld := t.gifuOld + fVal);
      }
    } else {
      if d.Text? && HasDollarPrefix(d.s) {
        t := t.(shigaNew := t.shigaNew + fVal);
      } else {
        t := t.(shigaOld := t.shigaOld + fVal);
      }
    }
  }

  /** Lines 191-207 (group 1) or 209-225 (group 2): rows 3 to 62 in order. */
  method AggregateGroup(sched: Grid, g: Group, t0: Totals) returns (t: Totals)
    ensures t == Plus(t0, GroupTotals(sched, g, LastScheduleRow + 1))
  {
    t := t0;
    var r := FirstScheduleRow;
    while r <= LastScheduleRow
      invariant FirstScheduleRow <= r <= LastScheduleRow + 1
      invariant t == Plus(t0, GroupTotals(sched, g, r))
    {
      t := AddRow(sched, g, r, t);
      r := r + 1;
    }
  }

  /** Lines 189-232: both groups from zero totals; the totals reported are
      these, whatever the filter. */
  method Aggregate(sched: Grid) returns (t: Totals)
    ensures t == Plus(GroupTotals(sched, Group1, LastScheduleRow + 1), GroupTotals(sched, Group2, LastScheduleRow + 1))
  {
    t := Totals(0, 0, 0, 0);
    t := AggregateGroup(sched, Group1, t);
    t := AggregateGroup(sched, Group2, t);
  }

  /** The four classes split the keyed rows: every keyed row lands in
      exactly one total, so together they add up to every keyed quantity. */
  lemma ClassesPartition(sched: Grid, g: Group, hi: int)
    ensures Sum(GroupTotals(sched, g, hi)) == KeyedSum(sched, g, hi)
  {
    forall r
      ensures ShareAt(sched, g, true, true)(r) + ShareAt(sched, g, false, true)(r)
            + ShareAt(sched, g, true, false)(r) + ShareAt(sched, g, false, false)(r) == KeyedAt(sched, g)(r)
    {
    }
    SumRowsSplit(ShareAt(sched, g, true, true), ShareAt(sched, g, false, true),
                 ShareAt(sched, g, true, false), ShareAt(sched, g, false, false), KeyedAt(sched, g), hi);
  }

  /** The reported totals add up to `safe_int` of the quantity of every
      schedule row, in both groups, whose key is not `None`. */
  lemma TotalsAddUp(sched: Grid)
    ensures Sum(Plus(GroupTotals(sched, Group1, LastScheduleRow + 1), GroupTotals(sched, Group2, LastScheduleRow + 1)))
         == KeyedSum(sched, Group1, LastScheduleRow + 1) + KeyedSum(sched, Group2, LastScheduleRow + 1)
  {
    ClassesPartition(sched, Group1, LastScheduleRow + 1);
    ClassesPartition(sched, Group2, LastScheduleRow + 1);
  }

  /** Text keys that count for Shiga: empty or blank text (a key that is
      not `None` but strips to nothing still counts) and text starting with
      a digit. */
  lemma ShigaTextKeys(s: string)
    ensures AllSpace(s) ==> !IsGifu(Text(s))
    ensures |Strip(s)| > 0 && IsDigit(Strip(s)[0]) ==> !IsGifu(Text(s))
  {
    if AllSpace(s) {
      StripAllSpace(s);
    }
  }

  /** Every integer key counts for Shiga: its text starts with a digit or
      a minus sign. */
  lemma ShigaIntKey(n: int)
    ensures !IsGifu(Int(n))
  {
    IntTextTrimmed(n);
    IntToStringDigits(n);
    StripTrimmed(IntToString(n));
  }

  /** Every date key counts for Shiga: its text starts with the year. */
  lemma ShigaDateKey(t: DateTime)
    ensures !IsGifu(DateTimeCell(t))
  {
    var r := IsoText(t);
    var y := ZeroPad(t.year, 4);
    IsoTextEnds(t);
    ZeroPadDigits(t.year, 4);
    assert r[0] == y[0] && IsDigit(r[0]);
    NotSpace(r[0]);
    StripKeepsFirst(r);
  }

  /** The aggregator's unstripped marker test is stricter than the
      matcher's stripped test on column D: every new marker passes the
      matcher's dollar filter, but a leading blank or a non-string marker
      is "new" only for the matcher. */
  lemma NewMarkerStricter(marker: Cell)
    ensures IsNew(marker) ==> HasDollarPrefix(Strip(TextOrEmpty(marker)))
    ensures !IsNew(Text(" $")) && HasDollarPrefix(Strip(TextOrEmpty(Text(" $"))))
  {
    if IsNew(marker) {
      StripKeepsFirst(marker.s);
    }
    assert " $" == [' '] + "$" + [];
    StripUnique([' '], "$", []);
  }
}
