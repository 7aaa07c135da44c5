/** The cross-reference pass (schedule_logic.py, lines 165-186): every
    output row looks itself up in the schedule, by normalized key, F value
    and D value, and takes its I cell from the matching schedule row. */
module Resolver {
  import opened Outcomes
  import opened Cells
  import opened Keys
  import opened Layout
  import opened Unique

  /** Lines 175 and 184: schedule row `r` of group `g` describes an output
      row whose normalized A is `a`, whose F is `f` and whose D is `d`: its
      normalized key equals `a`, its marker cell equals `f` and its
      associated cell equals `d` (cells compared as Python values). */
  predicate RowMatches(sched: Grid, g: Group, r: int, a: string, f: Cell, d: Cell) {
    && NormalizeKey(At(sched, g.key, r)) == a
    && At(sched, g.marker, r) == f
    && At(sched, g.assoc, r) == d
  }

  function MatchesAt(sched: Grid, g: Group, a: string, f: Cell, d: Cell): (v: int -> bool) {
    r => RowMatches(sched, g, r, a, f, d)
  }

  /** The first schedule row from 3 to 62 that matches, as the `break` of
      lines 177 and 186 finds it. */
  function FirstMatch(sched: Grid, g: Group, a: string, f: Cell, d: Cell): (r: Option<int>) {
    First(MatchesAt(sched, g, a, f, d), FirstScheduleRow, LastScheduleRow + 1)
  }

  /** `FirstMatch` finds a row exactly when one of rows 3 to 62 matches, and
      then the least such row. */
  lemma FirstMatchLeast(sched: Grid, g: Group, a: string, f: Cell, d: Cell)
    ensures var m := FirstMatch(sched, g, a, f, d);
      && (m.Some? ==> FirstScheduleRow <= m.value <= LastScheduleRow && RowMatches(sched, g, m.value, a, f, d))
      && (m.Some? ==> forall q :: FirstScheduleRow <= q < m.value ==> !RowMatches(sched, g, q, a, f, d))
      && (m.None? <==> forall q :: FirstScheduleRow <= q <= LastScheduleRow ==> !RowMatches(sched, g, q, a, f, d))
  {
    var p := MatchesAt(sched, g, a, f, d);
    FirstLeast(p, FirstScheduleRow, LastScheduleRow + 1);
    assert forall q :: p(q) == RowMatches(sched, g, q, a, f, d);
  }

  /** The groups in the order lines 170 and 179 search them. */
  const SearchOrder := [Group1, Group2]

  /** The I value once each group of `groups` in turn has overwritten `cur`
      with the quantity of its first matching row, if it has one. */
  function Overwrite(sched: Grid, groups: seq<Group>, a: string, f: Cell, d: Cell, cur: Cell): (v: Cell)
    decreases |groups|
  {
    if groups == [] then cur
    else
      var g := groups[0];
      var next := match FirstMatch(sched, g, a, f, d) case Some(r) => At(sched, g.qty, r) case None => cur;
      Overwrite(sched, groups[1..], a, f, d, next)
  }

  /** The I value output row `row` ends up with, from its own A, D, F and I. */
  function ResolvedI(sched: Grid, out: Grid, row: int): (r: Cell) {
    Overwrite(sched, SearchOrder, NormalizeKey(At(out, A, row)), At(out, F, row), At(out, D, row), At(out, I, row))
  }

  /** The first row of group `g` that matches output row `row` of `out`. */
  function Lookup(sched: Grid, g: Group, out: Grid, row: int): (r: Option<int>) {
    FirstMatch(sched, g, NormalizeKey(At(out, A, row)), At(out, F, row), At(out, D, row))
  }

  /** Group 2 runs last, so it wins: the quantity of the first group-2 match
      if there is one, otherwise that of the first group-1 match, otherwise
      the cell as it was. */
  lemma ResolvedIPrecedence(sched: Grid, out: Grid, row: int)
    ensures Lookup(sched, Group2, out, row).Some? ==>
      ResolvedI(sched, out, row) == At(sched, L, Lookup(sched, Group2, out, row).value)
    ensures Lookup(sched, Group2, out, row).None? && Lookup(sched, Group1, out, row).Some? ==>
      ResolvedI(sched, out, row) == At(sched, F, Lookup(sched, Group1, out, row).value)
    ensures Lookup(sched, Group2, out, row).None? && Lookup(sched, Group1, out, row).None? ==>
      ResolvedI(sched, out, row) == At(out, I, row)
  {
    var a := NormalizeKey(At(out, A, row));
    var f := At(out, F, row);
    var d := At(out, D, row);
    var cur := At(out, I, row);
    var after1 := match FirstMatch(sched, Group1, a, f, d) case Some(r) => At(sched, F, r) case None => cur;
    var after2 := match FirstMatch(sched, Group2, a, f, d) case Some(r) => At(sched, L, r) case None => after1;
    assert SearchOrder[1..] == [Group2] && [Group2][1..] == [];
    assert Overwrite(sched, [Group2], a, f, d, after1) == Overwrite(sched, [], a, f, d, after2);
  }

  /** Lines 170-177 (or 179-186) for one group: the loop over schedule rows 3 to 62
      that stops at the first match. */
  method FindMatch(sched: Grid, g: Group, a: string, f: Cell, d: Cell) returns (m: Option<int>)
    ensures m == FirstMatch(sched, g, a, f, d)
  {
    ghost var p := MatchesAt(sched, g, a, f, d);
    var r := FirstScheduleRow;
    while r <= LastScheduleRow
      invariant FirstScheduleRow <= r <= LastScheduleRow + 1
      invariant FirstMatch(sched, g, a, f, d) == First(p, r, LastScheduleRow + 1)
    {
      if NormalizeKey(At(sched, g.key, r)) == a && At(sched, g.marker, r) == f && At(sched, g.assoc, r) == d {
        return Some(r);
      }
      r := r + 1;
    }
    return None;
  }

  /** Lines 166-186 for one output row: read A, D and F, let group 1 set I
      on its first match, then let group 2 set it on its first match. */
  method ResolveRow(sched: Grid, out: Grid, row: int) returns (res: Grid)
    ensures At(res, I, row) == ResolvedI(sched, out, row)
    ensures forall c: Col, r: int :: (c, r) != (I, row) ==> At(res, c, r) == At(out, c, r)
  {
    var a := NormalizeKey(At(out, A, row));
    var d := At(out, D, row);
    var f := At(out, F, row);
    res := out;
    var m1 := FindMatch(sched, Group1, a, f, d);
    if m1.Some? {
      res := res[(I, row) := At(sched, F, m1.value)];
    }
    var m2 := FindMatch(sched, Group2, a, f, d);
    if m2.Some? {
      res := res[(I, row) := At(sched, L, m2.value)];
    }
    ResolvedIPrecedence(sched, out, row);
  }

  /** The whole pass over output rows 2 to `out_row - 1`: only column I of
      those rows changes, each to its resolved value. */
  method Resolve(sched: Grid, out: Grid, outRow: int) returns (res: Grid)
    ensures forall c: Col, r: int :: At(res, c, r) == (if c == I && FirstOutRow <= r < outRow then ResolvedI(sched, out, r) else At(out, c, r))
  {
    res := out;
    var row := FirstOutRow;
    while row < outRow
      invariant FirstOutRow <= row && (row <= outRow || row == FirstOutRow)
      invariant forall c: Col, r: int :: At(res, c, r) == (if c == I && FirstOutRow <= r < row then ResolvedI(sched, out, r) else At(out, c, r))
    {
      ResolvedIReads(sched, res, out, row);
      res := ResolveRow(sched, res, row);
      row := row + 1;
    }
  }

  /** The resolved value of a row depends only on that row's A, D, F and I. */
  lemma ResolvedIReads(sched: Grid, g: Grid, h: Grid, row: int)
    requires At(g, A, row) == At(h, A, row) && At(g, D, row) == At(h, D, row)
    requires At(g, F, row) == At(h, F, row) && At(g, I, row) == At(h, I, row)
    ensures ResolvedI(sched, g, row) == ResolvedI(sched, h, row)
  {
  }
}
