/** Worksheets as sparse grids of tagged cell values, addressed by column
    letter and 1-based row number, as openpyxl presents a loaded sheet. */
module Cells {
  import opened Strings
  import opened Calendar

  /** The column letters the engine reads or writes. */
  datatype Col = A | B | C | D | E | F | G | H | I | J | K | L

  /** A cell's value: `None`, an `int`, a `str` or a `datetime`. */
  datatype Cell = Empty | Int(n: int) | Text(s: string) | DateTimeCell(t: DateTime)

  /** Cells absent from the map read as `None`, as `ws["X9"].value` does. */
  type Grid = map<(Col, int), Cell>

  /** A loaded sheet together with openpyxl's `max_row`. */
  datatype Sheet = Sheet(cells: Grid, maxRow: int)

  function At(g: Grid, c: Col, r: int): (res: Cell) {
    if (c, r) in g then g[(c, r)] else Empty
  }

  /** `str(value)`. */
  function CellText(v: Cell): (r: string) {
    match v
    case Empty => "None"
    case Int(n) => IntToString(n)
    case Text(s) => s
    case DateTimeCell(t) => IsoText(t)
  }

  /** Python truthiness of a cell value: `None`, `0` and `""` are false. */
  predicate Truthy(v: Cell) {
    match v
    case Empty => false
    case Int(n) => n != 0
    case Text(s) => s != ""
    case DateTimeCell(_) => true
  }

  /** `str(value or "")`: the text of a cell, with every falsy value
      (including the integer 0) read as the empty string. */
  function TextOrEmpty(v: Cell): (r: string) {
    if Truthy(v) then CellText(v) else ""
  }
}
