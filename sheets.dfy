/**
 * The workbook as the extractors see it after loading: the sheet names in
 * workbook order, and for each sheet a grid of cell values addressed by
 * (row, column), both counted from 1 as in openpyxl.
 */
module Sheets {
  import opened Strings

  /** A cell value: `None`, a string, or a number (numbers are integers here). */
  datatype Cell = Empty | Text(s: string) | Num(n: int)

  /** Python truthiness of a cell value: `None`, `""` and `0` are false. */
  predicate Truthy(c: Cell) {
    match c
    case Empty => false
    case Text(s) => s != ""
    case Num(n) => n != 0
  }

  /** `str(value)`. */
  function Str(c: Cell): string {
    match c
    case Empty => "None"
    case Text(s) => s
    case Num(n) => IntToString(n)
  }

  /** The idiom `str(v).strip() if v else ""` used for every optional text column. */
  function CellText(c: Cell): (r: string)
    ensures !Truthy(c) ==> r == ""
    ensures c.Text? ==> r == Strip(c.s)
    ensures r == [] || (!IsSpace(r[0]) && !IsSpace(r[|r| - 1]))
  {
    if Truthy(c) then Strip(Str(c)) else ""
  }

  /** The cell holds something other than whitespace once stringified. */
  predicate NonBlank(c: Cell) {
    match c
    case Empty => false
    case Text(s) => exists i :: 0 <= i < |s| && !IsSpace(s[i])
    case Num(n) => n != 0
  }

  /** `str(v).strip() if v else ""` is non-empty exactly for the non-blank cells. */
  lemma CellTextNonEmpty(c: Cell)
    ensures CellText(c) != "" <==> NonBlank(c)
  {
    match c
    case Empty =>
    case Text(s) =>
      if s != "" {
        StripEmptyIffBlank(s);
      }
    case Num(n) =>
      if n != 0 {
        var t := IntToString(n);
        assert !IsSpace(t[0]);
        StripEmptyIffBlank(t);
      }
  }

  // Column numbers of the template (A = 1).
  const ColA := 1
  const ColB := 2
  const ColE := 5
  const ColF := 6
  const ColG := 7
  const ColH := 8
  const ColI := 9
  const ColM := 13
  const ColO := 15
  const ColP := 16
  const ColQ := 17
  const ColR := 18
  const ColS := 19

  /**
   * One worksheet: `maxRow` is openpyxl's `max_row`; a cell outside the
   * stored ones, or below `maxRow`, reads as `None`.
   */
  datatype Sheet = Sheet(maxRow: nat, cells: map<(int, int), Cell>) {
    function At(row: int, col: int): Cell {
      if 1 <= row <= maxRow && (row, col) in cells then cells[(row, col)] else Empty
    }
  }

  /** A loaded workbook: `workbook.sheetnames` and `workbook[name]`. */
  datatype Workbook = Workbook(sheetNames: seq<string>, sheets: map<string, Sheet>) {
    ghost predicate Valid() {
      forall n :: n in sheetNames ==> n in sheets
    }
  }
}
