/** The in-memory table the pipeline works on: a pandas DataFrame reduced to its
    column labels, a dtype tag per column and a sequence of rows whose cells are
    either a value or the missing marker (NaN/None). */
module Frames {

  datatype Option<+T> = None | Some(value: T)

  /** A cell's value: the dataset's numbers are modelled as integers, its labels as strings. */
  datatype Value = Num(n: int) | Text(s: string)

  /** A cell holds a value or is missing. */
  type Cell = Option<Value>

  type Row = seq<Cell>

  /** The dtype tag that `select_dtypes(include="number")` inspects. */
  datatype Kind = Numeric | NonNumeric

  datatype Table = Table(columns: seq<string>, kinds: seq<Kind>, rows: seq<Row>) {

    /** Every row has one cell per column, every column one dtype tag, and a numeric
        column holds only numbers or missing cells. Labels need not be unique. */
    predicate WellFormed() {
      Shaped() && NumericCellsAreNumbers()
    }

    /** Every row has one cell per column and every column one dtype tag. */
    predicate Shaped() {
      && |kinds| == |columns|
      && (forall r :: r in rows ==> |r| == |columns|)
    }

    /** A numeric column holds only numbers or missing cells. */
    predicate NumericCellsAreNumbers()
      requires Shaped()
    {
      forall r: Row, j: int :: r in rows && 0 <= j < |columns| && kinds[j] == Numeric && r[j].Some? ==> r[j].value.Num?
    }
  }

  /** The exceptions raised along the pipeline. */
  datatype Error =
    | TypeError(message: string)            // isinstance(df, pd.DataFrame) failed
    | MissingColumns(missing: seq<string>)  // ValueError from validate_dataframe
    | KeyError(key: string)                 // pandas KeyError on an absent label
    | TooFewRows(needed: int, got: nat)     // ValueError from run_kmeans

  datatype Result<+T> = Ok(value: T) | Err(error: Error)

  /** The outcome of a check that returns nothing or raises. */
  datatype Outcome = Pass | Fail(error: Error)

  /** Whatever a caller passes where a DataFrame is expected: a table, or some other
      Python object, known by its type name. */
  datatype Arg = Frame(table: Table) | NotFrame(typeName: string)

  /** Whether some column labelled `name` holds a missing cell in `row`. */
  predicate MissingAt(columns: seq<string>, row: Row, name: string)
    requires |row| == |columns|
  {
    exists j :: 0 <= j < |columns| && columns[j] == name && row[j].None?
  }

  /** The position of the first column labelled `name`, the one `df[name]` reads. */
  function IndexOf(columns: seq<string>, name: string): (r: Option<nat>)
    ensures r.None? <==> name !in columns
    ensures r.Some? ==> r.value < |columns| && columns[r.value] == name && name !in columns[..r.value]
  {
    if columns == [] then None
    else if columns[0] == name then Some(0)
    else
      match IndexOf(columns[1..], name)
      case None => None
      case Some(k) =>
        assert columns[1..][..k] == columns[1..k + 1];
        Some(k + 1)
  }

  /** A pandas DataFrame. Its fields are the ones the pipeline reads and, for the
      column labels, overwrites. */
  class DataFrame {
    var columns: seq<string>
    var kinds: seq<Kind>
    var rows: seq<Row>

    /** The frame's current contents as a value. */
    function Snapshot(): Table
      reads this
    {
      Table(columns, kinds, rows)
    }

    predicate Valid()
      reads this
    {
      Snapshot().WellFormed()
    }

    constructor (t: Table)
      requires t.WellFormed()
      ensures Valid() && Snapshot() == t
    {
      columns, kinds, rows := t.columns, t.kinds, t.rows;
    }
  }
}
