/** Cell values and tables. Rows are positional, so the row labels of a
    dataframe play no part. */
module Table {

  /** A scalar cell value: the tests use integers and strings. */
  datatype Value = Int(i: int) | Str(s: string)

  type Column = seq<Value>

  /** A table: its number of rows and its columns by name. */
  datatype Table = Table(rows: nat, columns: map<string, Column>)
  {
    /** Every column has exactly `rows` cells. */
    ghost predicate Valid()
    {
      forall c :: c in columns ==> |columns[c]| == rows
    }

    /** The table with column `name` replaced by `cells`. */
    function Put(name: string, cells: Column): (r: Table)
      requires |cells| == rows
      ensures Valid() ==> r.Valid()
    {
      Table(rows, columns[name := cells])
    }
  }
}
