/** What the matcher's output is: which ledger rows it writes, where, and
    how the dollar filter relates the two modes (schedule_logic.py, lines
    122-163). */
module MatcherFacts {
  import opened Strings
  import opened Cells
  import opened Keys
  import opened ExcelDates
  import opened Unique
  import opened Layout
  import opened Matcher

  /** Row `FirstOutRow + k` holds the `k`-th line in every written column. */
  lemma {:induction false} PlaceAllContent(g: Grid, lines: seq<Line>, k: int, c: Col)
    requires 0 <= k < |lines| && Written(c)
    ensures At(PlaceAll(g, lines), c, FirstOutRow + k) == LineCell(lines[k], c)
  {
    var init := lines[..|lines| - 1];
    if k < |lines| - 1 {
      PlaceAllContent(g, init, k, c);
      assert init[k] == lines[k];
    }
  }

  /** Cells outside the written columns, and rows outside the written
      range, keep the template's value. */
  lemma {:induction false} PlaceAllFrame(g: Grid, lines: seq<Line>, c: Col, row: int)
    requires !Written(c) || row < FirstOutRow || row >= FirstOutRow + |lines|
    ensures At(PlaceAll(g, lines), c, row) == At(g, c, row)
  {
    if lines != [] {
      PlaceAllFrame(g, lines[..|lines| - 1], c, row);
    }
  }

  /** The output row `FirstOutRow + k` carries the `k`-th written ledger
      row: A its stripped C text, B the stamp, C its A, D its E, E its D,
      F its B and I its F. */
  lemma WriteRowsContent(g: Grid, rows: seq<RowKey>, stamp: string, k: int)
    requires 0 <= k < |rows|
    ensures var out := WriteRows(g, rows, stamp); var row := FirstOutRow + k; var x := rows[k];
      && At(out, A, row) == Text(Strip(TextOrEmpty(x.2)))
      && At(out, B, row) == Text(stamp)
      && At(out, C, row) == x.0
      && At(out, D, row) == x.4
      && At(out, E, row) == x.3
      && At(out, F, row) == x.1
      && At(out, I, row) == x.5
  {
    var lines := Lines(rows, stamp);
    PlaceAllContent(g, lines, k, A);
    PlaceAllContent(g, lines, k, B);
    PlaceAllContent(g, lines, k, C);
    PlaceAllContent(g, lines, k, D);
    PlaceAllContent(g, lines, k, E);
    PlaceAllContent(g, lines, k, F);
    PlaceAllContent(g, lines, k, I);
  }

  /** Outside columns A-F and I and outside rows 2 to `1 + |rows|` the
      output is the template. */
  lemma WriteRowsFrame(g: Grid, rows: seq<RowKey>, stamp: string, c: Col, row: int)
    requires !Written(c) || row < FirstOutRow || row >= FirstOutRow + |rows|
    ensures At(WriteRows(g, rows, stamp), c, row) == At(g, c, row)
  {
    PlaceAllFrame(g, Lines(rows, stamp), c, row);
  }

  /** The tests on a ledger row that do not involve the schedule key. */
  predicate Passes(ledger: Grid, lr: int, w: Window, filterType: string) {
    && At(ledger, C, lr) != Empty
    && DateAdmitted(At(ledger, G, lr), w)
    && DollarPasses(filterType, RowKeyOf(ledger, lr))
  }

  /** A ledger row answers a key exactly when it passes the
      schedule-independent tests and its own key normalizes to it. */
  lemma AdmitsSplit(key: string, ledger: Grid, lr: int, w: Window, filterType: string)
    ensures AdmitsAt(key, ledger, w, filterType)(lr)
        <==> Passes(ledger, lr, w, filterType) && NormalizeKey(At(ledger, C, lr)) == key
  {
  }

  /** The normalized keys of the non-`None` key cells of one group. */
  function GroupKeys(sched: Grid, col: Col): (v: set<string>) {
    set r | FirstScheduleRow <= r <= LastScheduleRow && At(sched, col, r) != Empty :: NormalizeKey(At(sched, col, r))
  }

  /** The keys the matcher looks up: those of column C and of column I. */
  function ScheduleKeys(sched: Grid): (r: set<string>) {
    GroupKeys(sched, C) + GroupKeys(sched, I)
  }

  /** A ledger row the matcher writes out (or skips only as a repeat): it
      lies in `2 .. max_row`, passes the date and dollar tests, and its key
      normalizes to the key of some non-empty schedule cell. */
  predicate Eligible(sched: Grid, ledger: Sheet, lr: int, w: Window, filterType: string) {
    && FirstLedgerRow <= lr <= ledger.maxRow
    && Passes(ledger.cells, lr, w, filterType)
    && NormalizeKey(At(ledger.cells, C, lr)) in ScheduleKeys(sched)
  }

  /** Every row the ledger scan for `key` yields comes from a ledger row in
      `2 .. max_row` that passes the tests and whose key normalizes to `key`. */
  lemma LedgerHitsSound(key: string, ledger: Sheet, w: Window, filterType: string, x: RowKey)
    returns (lr: int)
    requires x in LedgerHits(key, ledger, w, filterType)
    ensures FirstLedgerRow <= lr <= ledger.maxRow && Passes(ledger.cells, lr, w, filterType)
    ensures NormalizeKey(At(ledger.cells, C, lr)) == key && RowKeyOf(ledger.cells, lr) == x
  {
    var ok := AdmitsAt(key, ledger.cells, w, filterType);
    HitsElements(ok, RowKeyAt(ledger.cells), FirstLedgerRow, ledger.maxRow + 1, x);
    lr :| FirstLedgerRow <= lr < ledger.maxRow + 1 && ok(lr) && RowKeyAt(ledger.cells)(lr) == x;
    AdmitsSplit(key, ledger.cells, lr, w, filterType);
  }

  /** Conversely the ledger scan for `key` yields every such row. */
  lemma LedgerHitsComplete(key: string, ledger: Sheet, w: Window, filterType: string, lr: int)
    requires FirstLedgerRow <= lr <= ledger.maxRow && Passes(ledger.cells, lr, w, filterType)
    requires NormalizeKey(At(ledger.cells, C, lr)) == key
    ensures RowKeyOf(ledger.cells, lr) in LedgerHits(key, ledger, w, filterType)
  {
    var ok := AdmitsAt(key, ledger.cells, w, filterType);
    AdmitsSplit(key, ledger.cells, lr, w, filterType);
    HitsElements(ok, RowKeyAt(ledger.cells), FirstLedgerRow, ledger.maxRow + 1, RowKeyOf(ledger.cells, lr));
  }

  lemma GroupCandidatesSound(sched: Grid, col: Col, ledger: Sheet, w: Window, filterType: string, x: RowKey)
    returns (lr: int)
    requires x in GroupCandidates(sched, col, ledger, w, filterType)
    ensures FirstLedgerRow <= lr <= ledger.maxRow && Passes(ledger.cells, lr, w, filterType)
    ensures NormalizeKey(At(ledger.cells, C, lr)) in GroupKeys(sched, col) && RowKeyOf(ledger.cells, lr) == x
  {
    var g := RowCandidates(sched, col, ledger, w, filterType);
    ConcatElements(g, FirstScheduleRow, LastScheduleRow + 1, x);
    var r :| FirstScheduleRow <= r < LastScheduleRow + 1 && x in g(r);
    var v := At(sched, col, r);
    assert v != Empty;
    assert NormalizeKey(v) in GroupKeys(sched, col);
    lr := LedgerHitsSound(NormalizeKey(v), ledger, w, filterType, x);
  }

  lemma GroupCandidatesComplete(sched: Grid, col: Col, ledger: Sheet, w: Window, filterType: string, lr: int)
    requires FirstLedgerRow <= lr <= ledger.maxRow && Passes(ledger.cells, lr, w, filterType)
    requires NormalizeKey(At(ledger.cells, C, lr)) in GroupKeys(sched, col)
    ensures RowKeyOf(ledger.cells, lr) in GroupCandidates(sched, col, ledger, w, filterType)
  {
    var key := NormalizeKey(At(ledger.cells, C, lr));
    var r :| FirstScheduleRow <= r <= LastScheduleRow && At(sched, col, r) != Empty
           && NormalizeKey(At(sched, col, r)) == key;
    var g := RowCandidates(sched, col, ledger, w, filterType);
    LedgerHitsComplete(key, ledger, w, filterType, lr);
    assert g(r) == LedgerHits(key, ledger, w, filterType);
    ConcatElements(g, FirstScheduleRow, LastScheduleRow + 1, RowKeyOf(ledger.cells, lr));
  }

  /** Lines 125-163 write exactly the eligible ledger rows, each distinct
      `(A, ..., F)` tuple once: a row is written if and only if some
      eligible ledger row carries its values. */
  lemma AcceptedExactly(sched: Grid, ledger: Sheet, w: Window, filterType: string, x: RowKey)
    ensures Distinct(Accepted(sched, ledger, w, filterType))
    ensures x in Accepted(sched, ledger, w, filterType) <==>
      exists lr :: Eligible(sched, ledger, lr, w, filterType) && RowKeyOf(ledger.cells, lr) == x
  {
    var cs := Candidates(sched, ledger, w, filterType);
    DedupElements(cs);
    if x in cs {
      var lr;
      if x in GroupCandidates(sched, C, ledger, w, filterType) {
        lr := GroupCandidatesSound(sched, C, ledger, w, filterType, x);
      } else {
        lr := GroupCandidatesSound(sched, I, ledger, w, filterType, x);
      }
      assert Eligible(sched, ledger, lr, w, filterType);
    }
    if lr :| Eligible(sched, ledger, lr, w, filterType) && RowKeyOf(ledger.cells, lr) == x {
      if NormalizeKey(At(ledger.cells, C, lr)) in GroupKeys(sched, C) {
        GroupCandidatesComplete(sched, C, ledger, w, filterType, lr);
      } else {
        GroupCandidatesComplete(sched, I, ledger, w, filterType, lr);
      }
    }
  }

  /** For one ledger row, the dollar-mode test is the all-rows test plus
      the dollar mark. */
  lemma DollarAdmits(key: string, ledger: Grid, w: Window, filterType: string, lr: int)
    requires !DollarOnly(filterType)
    ensures AdmitsAt(key, ledger, w, "dollar")(lr)
        == (AdmitsAt(key, ledger, w, filterType)(lr) && DollarMarked(RowKeyAt(ledger)(lr)))
  {
  }

  lemma DollarRowCandidates(sched: Grid, col: Col, ledger: Sheet, w: Window, filterType: string, r: int)
    requires !DollarOnly(filterType)
    ensures RowCandidates(sched, col, ledger, w, "dollar")(r)
         == Filter(DollarMarked, RowCandidates(sched, col, ledger, w, filterType)(r))
  {
    var v := At(sched, col, r);
    if v != Empty {
      var key := NormalizeKey(v);
      forall lr | FirstLedgerRow <= lr < ledger.maxRow + 1
        ensures AdmitsAt(key, ledger.cells, w, "dollar")(lr)
             == (AdmitsAt(key, ledger.cells, w, filterType)(lr) && DollarMarked(RowKeyAt(ledger.cells)(lr)))
      {
        DollarAdmits(key, ledger.cells, w, filterType, lr);
      }
      HitsFilter(AdmitsAt(key, ledger.cells, w, filterType), AdmitsAt(key, ledger.cells, w, "dollar"),
                 DollarMarked, RowKeyAt(ledger.cells), FirstLedgerRow, ledger.maxRow + 1);
    }
  }

  /** Lines 142-152: the dollar filter tests only D, which belongs to the
      duplicate tuple, so dollar mode writes exactly the dollar-marked rows
      of the all-rows output, in the same order; it never writes more. */
  lemma DollarModeFilters(sched: Grid, ledger: Sheet, w: Window, filterType: string)
    requires !DollarOnly(filterType)
    ensures Accepted(sched, ledger, w, "dollar") == Filter(DollarMarked, Accepted(sched, ledger, w, filterType))
    ensures |Accepted(sched, ledger, w, "dollar")| <= |Accepted(sched, ledger, w, filterType)|
    ensures forall x :: x in Accepted(sched, ledger, w, "dollar") ==> DollarMarked(x)
  {
    forall col | col == C || col == I
      ensures GroupCandidates(sched, col, ledger, w, "dollar")
           == Filter(DollarMarked, GroupCandidates(sched, col, ledger, w, filterType))
    {
      forall r | FirstScheduleRow <= r < LastScheduleRow + 1
        ensures RowCandidates(sched, col, ledger, w, "dollar")(r)
             == Filter(DollarMarked, RowCandidates(sched, col, ledger, w, filterType)(r))
      {
        DollarRowCandidates(sched, col, ledger, w, filterType, r);
      }
      ConcatFilter(RowCandidates(sched, col, ledger, w, filterType), RowCandidates(sched, col, ledger, w, "dollar"),
                   DollarMarked, FirstScheduleRow, LastScheduleRow + 1);
    }
    var all := Candidates(sched, ledger, w, filterType);
    FilterAppend(DollarMarked, GroupCandidates(sched, C, ledger, w, filterType),
                 GroupCandidates(sched, I, ledger, w, filterType));
    DedupFilter(DollarMarked, all);
    FilterElements(DollarMarked, Dedup(all));
  }
}
