/** The fixed shape of the three sheets the engine works on. */
module Layout {
  import opened Cells

  /** Schedule rows 3 through 62 hold the two column groups. */
  const FirstScheduleRow := 3
  const LastScheduleRow := 62

  /** Ledger data starts below its header row. */
  const FirstLedgerRow := 2

  /** The output template is filled from row 2 down. */
  const FirstOutRow := 2

  /** One column group of the schedule: the key, the drawing marker (the
      `$`-prefixed "new drawing" flag), the associated value that is
      compared with the ledger's E column, and the quantity. */
  datatype Group = Group(key: Col, marker: Col, assoc: Col, qty: Col)

  /** Columns C, D, E, F. */
  const Group1 := Group(C, D, E, F)

  /** Columns I, J, K, L. */
  const Group2 := Group(I, J, K, L)
}
