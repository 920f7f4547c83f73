/**
 * The read-side helpers over the rows a query returned: `SingleOrDefault` and
 * `FirstOrDefault` (LINQ over the rows of `Select`), and the first cell of the first row
 * that the aggregate operations read. The rows themselves come from the driver.
 */
module Reads {
  import opened Results

  /** The exceptions the read helpers can raise. */
  datatype ReadError =
    | MoreThanOneRow   // `SingleOrDefault` over two or more rows
    | NoRows           // `First()` over no rows
    | NoCells          // `[0]` on a row without columns

  /** `Enumerable.SingleOrDefault`: the default for no row, the row for one, an error for more. */
  function SingleOrDefault<T>(rows: seq<T>, default: T): (r: Result<T, ReadError>)
    ensures r.Success? <==> |rows| <= 1
    ensures r.Failure? ==> r.error == MoreThanOneRow
    ensures r.Success? ==> (r.value == default && rows == []) || rows == [r.value]
  {
    if |rows| == 0 then Success(default)
    else if |rows| == 1 then Success(rows[0])
    else Failure(MoreThanOneRow)
  }

  /** `Enumerable.FirstOrDefault`: the first row, or the default when there is none. */
  function FirstOrDefault<T>(rows: seq<T>, default: T): (r: T)
    ensures rows == [] ==> r == default
    ensures rows != [] ==> r == rows[0] && r in rows
  {
    if |rows| == 0 then default else rows[0]
  }

  /** Wherever `SingleOrDefault` succeeds it agrees with `FirstOrDefault`. */
  lemma SingleAgreesWithFirst<T>(rows: seq<T>, default: T)
    requires SingleOrDefault(rows, default).Success?
    ensures SingleOrDefault(rows, default).value == FirstOrDefault(rows, default)
    ensures forall i :: 0 <= i < |rows| ==> rows[i] == FirstOrDefault(rows, default)
  {
  }

  /**
   * `rows.First()[0]`, the raw value an aggregate returns before it is converted to a
   * `double`: an error when there is no row or the first row has no cell.
   */
  function FirstCell<C>(rows: seq<seq<C>>): (r: Result<C, ReadError>)
    ensures r.Success? <==> rows != [] && rows[0] != []
    ensures r.Success? ==> r.value == rows[0][0]
    ensures rows == [] ==> r == Failure(NoRows)
  {
    if |rows| == 0 then Failure(NoRows)
    else if |rows[0]| == 0 then Failure(NoCells)
    else Success(rows[0][0])
  }

  /** The first cell is the head of the row `FirstOrDefault` picks with an empty default row. */
  lemma FirstCellOfFirstRow<C>(rows: seq<seq<C>>)
    ensures FirstCell(rows).Success? <==> FirstOrDefault(rows, []) != []
    ensures FirstCell(rows).Success? ==> FirstCell(rows).value == FirstOrDefault(rows, [])[0]
  {
  }
}
