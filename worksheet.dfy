/** A worksheet as both spreadsheet routines see it: a map from
    (row, column), both 1-based, to the cell's text, and the last row in
    use (`ws.max_row`). An absent cell and an empty one read alike: as a
    falsy value. */
module Worksheet {

  datatype Sheet = Sheet(cells: map<(int, int), string>, maxRow: int)

  /** The cell's value; "" when nothing was written there. */
  function Cell(ws: Sheet, row: int, col: int): (v: string)
    ensures (row, col) !in ws.cells ==> v == ""
    ensures (row, col) in ws.cells ==> v == ws.cells[(row, col)]
  {
    if (row, col) in ws.cells then ws.cells[(row, col)] else ""
  }

  /** The cell of a cell map, empty when absent: `Cell` on a bare map. */
  function Get(m: map<(int, int), string>, r: int, c: int): string {
    if (r, c) in m then m[(r, c)] else ""
  }

  /** Python truthiness of a cell value. */
  predicate Truthy(v: string) {
    v != ""
  }
}
