/**
 * The raw restaurant table as pandas reads it from the CSV file: text columns
 * hold a string or NaN, and the columns that are meant to be numeric hold
 * whatever the file had (a number, some text such as "--" or "₹ 200", or NaN).
 */
module RawData {
  import opened Wrappers

  /** One cell of a column that pandas may have read as numbers or as text. */
  datatype Cell = Missing | Text(s: string) | Num(x: real)

  datatype RawRow = RawRow(
    name: Option<string>,
    city: Option<string>,
    cuisine: Option<string>,
    rating: Cell,
    ratingCount: Cell,
    cost: Cell,
    address: Option<string>,
    link: Option<string>)

  /**
   * `pd.to_numeric(cell, errors="coerce")`: a number stays, text goes through the
   * library's parser `parse` (None when it cannot be read), NaN stays missing.
   */
  function ToNumeric(c: Cell, parse: string -> Option<real>): Option<real>
  {
    match c
    case Missing => None
    case Num(x) => Some(x)
    case Text(s) => parse(s)
  }

  /** `astype(str)` on a text column: NaN becomes the string "nan". */
  function AsText(c: Option<string>): string
  {
    c.GetOr("nan")
  }
}
