/** One spreadsheet cell as pandas hands it to the validators. */
module Cells {
  import opened Strings

  /**
   * An empty cell (pandas' NaN), a piece of text, or a whole number. Fractional numbers are not
   * part of this model.
   */
  datatype Cell = Empty | Text(s: string) | Int(n: int)

  /** `str(value)`; NaN prints as "nan". */
  function Str(c: Cell): string {
    match c
    case Empty => "nan"
    case Text(s) => s
    case Int(n) => IntToString(n)
  }

  /** `pd.isna(value) or value is None or str(value).strip() == ''` */
  predicate IsMissing(c: Cell) {
    c.Empty? || Strip(Str(c)) == []
  }

  /** A number is never missing: its text is never blank. */
  lemma NumberNotMissing(n: int)
    ensures !IsMissing(Int(n)) && Strip(Str(Int(n))) == Str(Int(n))
  {
    StripNoOp(IntToString(n));
  }
}
