/** The matcher and row writer of `create_schedule` (schedule_logic.py,
    lines 122-163): every non-empty key of schedule columns C and I is
    looked up in the request ledger, and each admitted ledger row whose raw
    A..F values were not written before becomes one output row. */
module Matcher {
  import opened Strings
  import opened Cells
  import opened Keys
  import opened ExcelDates
  import opened Unique
  import opened Layout

  /** The raw `(A, B, C, D, E, F)` values of a ledger row: the tuple that
      `written_rows` records. */
  type RowKey = (Cell, Cell, Cell, Cell, Cell, Cell)

  function RowKeyOf(ledger: Grid, lr: int): (r: RowKey) {
    (At(ledger, A, lr), At(ledger, B, lr), At(ledger, C, lr),
     At(ledger, D, lr), At(ledger, E, lr), At(ledger, F, lr))
  }

  /** `filter_type == "dollar"`; any other value keeps every row. */
  predicate DollarOnly(filterType: string) {
    filterType == "dollar"
  }

  /** `str(D or "").strip()` starts with `$` or `＄`. */
  predicate DollarMarked(k: RowKey) {
    HasDollarPrefix(Strip(TextOrEmpty(k.3)))
  }

  /** Lines 133-138: the ledger key cell is not `None` and normalizes
      to the schedule row's normalized key. */
  predicate KeyMatches(v: Cell, key: string) {
    v != Empty && NormalizeKey(v) == key
  }

  /** Lines 145-147: in dollar mode only dollar-marked rows go on. */
  predicate DollarPasses(filterType: string, k: RowKey) {
    DollarOnly(filterType) ==> DollarMarked(k)
  }

  /** Every test a ledger row must pass against the normalized schedule
      key `key` before the duplicate check. */
  predicate Admits(key: string, ledger: Grid, lr: int, w: Window, filterType: string) {
    && KeyMatches(At(ledger, C, lr), key)
    && DateAdmitted(At(ledger, G, lr), w)
    && DollarPasses(filterType, RowKeyOf(ledger, lr))
  }

  /** The test of lines 134-147 as a function of the ledger row. */
  function AdmitsAt(key: string, ledger: Grid, w: Window, filterType: string): (res: int -> bool) {
    lr => Admits(key, ledger, lr, w, filterType)
  }

  function RowKeyAt(ledger: Grid): (res: int -> RowKey) {
    lr => RowKeyOf(ledger, lr)
  }

  /** The ledger rows `2 .. max_row` that answer `key`, in row order. */
  function LedgerHits(key: string, ledger: Sheet, w: Window, filterType: string): (res: seq<RowKey>) {
    Hits(AdmitsAt(key, ledger.cells, w, filterType), RowKeyAt(ledger.cells), FirstLedgerRow, ledger.maxRow + 1)
  }

  /** What a schedule row contributes: nothing for a `None` key cell,
      otherwise the ledger hits of its normalized key. */
  function RowCandidates(sched: Grid, col: Col, ledger: Sheet, w: Window, filterType: string): (res: int -> seq<RowKey>) {
    r => var v := At(sched, col, r); if v == Empty then [] else LedgerHits(NormalizeKey(v), ledger, w, filterType)
  }

  /** The contributions of schedule rows 3 to 62 of key column `col`. */
  function GroupCandidates(sched: Grid, col: Col, ledger: Sheet, w: Window, filterType: string): (r: seq<RowKey>) {
    Concat(RowCandidates(sched, col, ledger, w, filterType), FirstScheduleRow, LastScheduleRow + 1)
  }

  /** Every admitted ledger row in scan order, repeats included: column C's
      rows first, then column I's. */
  function Candidates(sched: Grid, ledger: Sheet, w: Window, filterType: string): (r: seq<RowKey>) {
    GroupCandidates(sched, C, ledger, w, filterType) + GroupCandidates(sched, I, ledger, w, filterType)
  }

  /** The ledger rows written to the output, in output order. */
  function Accepted(sched: Grid, ledger: Sheet, w: Window, filterType: string): (r: seq<RowKey>) {
    Dedup(Candidates(sched, ledger, w, filterType))
  }

  /** The seven output cells the row writer fills for one accepted ledger
      row, by output column. */
  datatype Line = Line(a: Cell, b: Cell, c: Cell, d: Cell, e: Cell, f: Cell, i: Cell)

  /** Lines 154-162: A gets the stripped text of the ledger's C, B the
      stamp, C the ledger's A, D its E, E its D, F its B and I its F. */
  function LineOf(k: RowKey, stamp: string): (r: Line) {
    Line(Text(Strip(TextOrEmpty(k.2))), Text(stamp), k.0, k.4, k.3, k.1, k.5)
  }

  /** The cell a line puts in output column `c` (for the written columns). */
  function LineCell(l: Line, c: Col): (r: Cell) {
    match c
    case A => l.a
    case B => l.b
    case C => l.c
    case D => l.d
    case E => l.e
    case F => l.f
    case _ => l.i
  }

  /** One line written at row `row`, cell by cell in the source's order. */
  function Place(g: Grid, row: int, l: Line): (r: Grid) {
    g[(A, row) := l.a]
     [(C, row) := l.c]
     [(F, row) := l.f]
     [(E, row) := l.e]
     [(D, row) := l.d]
     [(B, row) := l.b]
     [(I, row) := l.i]
  }

  /** `lines` written from row 2 down, one row each. */
  function PlaceAll(g: Grid, lines: seq<Line>): (r: Grid)
    decreases |lines|
  {
    if lines == [] then g
    else Place(PlaceAll(g, lines[..|lines| - 1]), FirstOutRow + |lines| - 1, lines[|lines| - 1])
  }

  function Lines(rows: seq<RowKey>, stamp: string): (r: seq<Line>) {
    seq(|rows|, n requires 0 <= n < |rows| => LineOf(rows[n], stamp))
  }

  /** The template with the ledger rows `rows` written from row 2 down. */
  function WriteRows(g: Grid, rows: seq<RowKey>, stamp: string): (v: Grid) {
    PlaceAll(g, Lines(rows, stamp))
  }

  /** The output columns the row writer fills. */
  predicate Written(c: Col) {
    c == A || c == B || c == C || c == D || c == E || c == F || c == I
  }

  /** The matcher's state: the output sheet, `out_row` and `written_rows`. */
  datatype Scan = Scan(out: Grid, outRow: int, written: set<RowKey>)

  /** The duplicate check and the row writer for one admitted ledger row. */
  function Accept(st: Scan, k: RowKey, stamp: string): (r: Scan)
    ensures k in st.written ==> r == st
    ensures k !in st.written ==> r.outRow == st.outRow + 1 && r.written == st.written + {k}
  {
    if k in st.written then st
    else Scan(Place(st.out, st.outRow, LineOf(k, stamp)), st.outRow + 1, st.written + {k})
  }

  /** The scan state once the admitted rows `cands` have been offered in
      order to the duplicate check and the row writer, starting from the
      template, `out_row = 2` and an empty `written_rows`. */
  function Offered(template: Grid, cands: seq<RowKey>, stamp: string): (r: Scan)
    decreases |cands|
  {
    if cands == [] then Scan(template, FirstOutRow, {})
    else Accept(Offered(template, cands[..|cands| - 1], stamp), cands[|cands| - 1], stamp)
  }

  /** Offering `cands` writes their first occurrences from row 2 down,
      leaves `out_row` one past them, and records every tuple offered. */
  lemma {:induction false} OfferedState(template: Grid, cands: seq<RowKey>, stamp: string)
    ensures var rows := Dedup(cands);
      Offered(template, cands, stamp) == Scan(WriteRows(template, rows, stamp), FirstOutRow + |rows|, set x | x in cands)
    decreases |cands|
  {
    if cands != [] {
      var init := cands[..|cands| - 1];
      var k := cands[|cands| - 1];
      OfferedState(template, init, stamp);
      assert cands == init + [k];
      var d := Dedup(init);
      if k !in init {
        assert (d + [k])[..|d|] == d;
        assert Lines(d + [k], stamp)[..|d|] == Lines(d, stamp);
      }
    }
  }

  /** Lines 134-163 for one ledger row: the key, date and dollar tests,
      then the duplicate check and the row writer. */
  method OfferRow(key: string, ledger: Grid, lr: int, w: Window, filterType: string, stamp: string,
                  st0: Scan, ghost template: Grid, ghost cands: seq<RowKey>)
    returns (st: Scan)
    requires FirstLedgerRow <= lr
    requires st0 == Offered(template, cands + Hits(AdmitsAt(key, ledger, w, filterType), RowKeyAt(ledger), FirstLedgerRow, lr), stamp)
    ensures st == Offered(template, cands + Hits(AdmitsAt(key, ledger, w, filterType), RowKeyAt(ledger), FirstLedgerRow, lr + 1), stamp)
  {
    ghost var ok := AdmitsAt(key, ledger, w, filterType);
    ghost var before := cands + Hits(ok, RowKeyAt(ledger), FirstLedgerRow, lr);
    HitsNext(ok, RowKeyAt(ledger), FirstLedgerRow, lr, cands);
    st := st0;
    if KeyMatches(At(ledger, C, lr), key) {
      if DateAdmitted(At(ledger, G, lr), w) {
        var k := RowKeyOf(ledger, lr);
        if DollarPasses(filterType, k) {
          assert ok(lr);
          assert (before + [k])[..|before|] == before;
          st := Accept(st, k, stamp);
          return;
        }
      }
    }
    assert !ok(lr);
  }

  /** Lines 133-163: one schedule key checked against every ledger row. */
  method ScanLedger(key: string, ledger: Sheet, w: Window, filterType: string, stamp: string,
                    st0: Scan, ghost template: Grid, ghost cands: seq<RowKey>)
    returns (st: Scan)
    requires st0 == Offered(template, cands, stamp)
    ensures st == Offered(template, cands + LedgerHits(key, ledger, w, filterType), stamp)
  {
    ghost var ok := AdmitsAt(key, ledger.cells, w, filterType);
    ghost var f := RowKeyAt(ledger.cells);
    st := st0;
    var lr := FirstLedgerRow;
    assert cands + Hits(ok, f, FirstLedgerRow, lr) == cands;
    while lr <= ledger.maxRow
      invariant FirstLedgerRow <= lr && (lr <= ledger.maxRow + 1 || lr == FirstLedgerRow)
      invariant st == Offered(template, cands + Hits(ok, f, FirstLedgerRow, lr), stamp)
    {
      st := OfferRow(key, ledger.cells, lr, w, filterType, stamp, st, template, cands);
      lr := lr + 1;
    }
    if ledger.maxRow < FirstLedgerRow {
      assert Hits(ok, f, FirstLedgerRow, ledger.maxRow + 1) == [];
      assert Hits(ok, f, FirstLedgerRow, lr) == [];
    } else {
      assert lr == ledger.maxRow + 1;
    }
  }

  /** Lines 128-131: a schedule row with a `None` key is skipped; any
      other key is normalized and looked up in the whole ledger. */
  method ScanScheduleRow(sched: Grid, col: Col, r: int, ledger: Sheet, w: Window, filterType: string,
                         stamp: string, st0: Scan, ghost template: Grid, ghost cands: seq<RowKey>)
    returns (st: Scan)
    requires FirstScheduleRow <= r
    requires st0 == Offered(template, cands + Concat(RowCandidates(sched, col, ledger, w, filterType), FirstScheduleRow, r), stamp)
    ensures st == Offered(template, cands + Concat(RowCandidates(sched, col, ledger, w, filterType), FirstScheduleRow, r + 1), stamp)
  {
    ghost var g := RowCandidates(sched, col, ledger, w, filterType);
    ghost var before := cands + Concat(g, FirstScheduleRow, r);
    ConcatNext(g, FirstScheduleRow, r, cands);
    st := st0;
    var keyVal := At(sched, col, r);
    if keyVal != Empty {
      st := ScanLedger(NormalizeKey(keyVal), ledger, w, filterType, stamp, st, template, before);
      assert g(r) == LedgerHits(NormalizeKey(keyVal), ledger, w, filterType);
    } else {
      assert g(r) == [];
      assert before + [] == before;
    }
  }

  /** Lines 126-163 for one column group: schedule rows 3 to 62 in order. */
  method ScanGroup(sched: Grid, col: Col, ledger: Sheet, w: Window, filterType: string, stamp: string,
                   st0: Scan, ghost template: Grid, ghost cands: seq<RowKey>)
    returns (st: Scan)
    requires st0 == Offered(template, cands, stamp)
    ensures st == Offered(template, cands + GroupCandidates(sched, col, ledger, w, filterType), stamp)
  {
    ghost var g := RowCandidates(sched, col, ledger, w, filterType);
    st := st0;
    var r := FirstScheduleRow;
    assert cands + Concat(g, FirstScheduleRow, r) == cands;
    while r <= LastScheduleRow
      invariant FirstScheduleRow <= r <= LastScheduleRow + 1
      invariant st == Offered(template, cands + Concat(g, FirstScheduleRow, r), stamp)
    {
      st := ScanScheduleRow(sched, col, r, ledger, w, filterType, stamp, st, template, cands);
      r := r + 1;
    }
  }

  /** Lines 122-163: both column groups, C before I, from an empty
      `written_rows` and `out_row = 2`. The output holds the accepted
      ledger rows, one per row from row 2, and `out_row` ends one past
      the last of them. */
  method Match(sched: Grid, ledger: Sheet, w: Window, filterType: string, stamp: string, template: Grid)
    returns (out: Grid, outRow: int)
    ensures outRow == FirstOutRow + |Accepted(sched, ledger, w, filterType)|
    ensures out == WriteRows(template, Accepted(sched, ledger, w, filterType), stamp)
  {
    var st := Scan(template, FirstOutRow, {});
    st := ScanGroup(sched, C, ledger, w, filterType, stamp, st, template, []);
    ghost var first := GroupCandidates(sched, C, ledger, w, filterType);
    assert [] + first == first;
    st := ScanGroup(sched, I, ledger, w, filterType, stamp, st, template, first);
    OfferedState(template, Candidates(sched, ledger, w, filterType), stamp);
    out := st.out;
    outRow := st.outRow;
  }
}
