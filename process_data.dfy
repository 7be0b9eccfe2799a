/** The cleaning pipeline: `standardize_columns`, `remove_empty_rows`,
    `handle_missing_values`, `validate_tumour_stage` and `clean_data`. */
module ProcessData {
  import opened Frames
  import opened Names

  // ---------------------------------------------------------------- standardize_columns

  /** The table with its column labels normalised; cells and dtype tags are untouched. */
  function Standardized(t: Table): (r: Table)
    ensures r.kinds == t.kinds && r.rows == t.rows
    ensures |r.columns| == |t.columns|
    ensures forall k :: 0 <= k < |t.columns| ==> r.columns[k] == Normalize(t.columns[k])
  {
    Table(NormalizeNames(t.columns), t.kinds, t.rows)
  }

  /** Standardising keeps a table well formed, leaves every label normalised, and a second
      pass changes nothing. */
  lemma StandardizedSpec(t: Table)
    ensures t.WellFormed() ==> Standardized(t).WellFormed()
    ensures forall k :: 0 <= k < |t.columns| ==> IsNormalized(Standardized(t).columns[k])
    ensures Standardized(Standardized(t)) == Standardized(t)
  {
    NormalizeNamesSpec(t.columns);
  }

  /** `standardize_columns(df)`: assigns the normalised labels to the caller's frame and
      returns that same frame. */
  method StandardizeColumns(df: DataFrame) returns (r: DataFrame)
    requires df.Valid()
    modifies df
    ensures r == df && df.Valid()
    ensures df.Snapshot() == Standardized(old(df.Snapshot()))
  {
    StandardizedSpec(df.Snapshot());
    df.columns := NormalizeNames(df.columns);
    r := df;
  }

  // ---------------------------------------------------------------- dropna(subset=[name])

  /** The rows in which no column labelled `name` is missing, in their original order. */
  function KeepRows(columns: seq<string>, rows: seq<Row>, name: string): (kept: seq<Row>)
    requires forall row :: row in rows ==> |row| == |columns|
    ensures |kept| <= |rows|
    ensures forall row {:trigger row in kept} :: row in kept <==> row in rows && !MissingAt(columns, row, name)
  {
    if rows == [] then []
    else
      var rest := KeepRows(columns, rows[1..], name);
      assert rows == [rows[0]] + rows[1..];
      if MissingAt(columns, rows[0], name) then rest else [rows[0]] + rest
  }

  /** The filter is stable: it distributes over concatenation, so kept rows keep their
      relative order. */
  lemma {:induction false} KeepRowsAppend(columns: seq<string>, a: seq<Row>, b: seq<Row>, name: string)
    requires forall row :: row in a ==> |row| == |columns|
    requires forall row :: row in b ==> |row| == |columns|
    ensures forall row :: row in a + b ==> |row| == |columns|
    ensures KeepRows(columns, a + b, name) == KeepRows(columns, a, name) + KeepRows(columns, b, name)
  {
    if a == [] {
      assert a + b == b;
    } else {
      assert a == [a[0]] + a[1..];
      assert (a + b)[1..] == a[1..] + b;
      KeepRowsAppend(columns, a[1..], b, name);
    }
  }

  /** When no row is missing the label, nothing is dropped. */
  lemma {:induction false} KeepRowsNothingMissing(columns: seq<string>, rows: seq<Row>, name: string)
    requires forall row :: row in rows ==> |row| == |columns|
    requires forall row :: row in rows ==> !MissingAt(columns, row, name)
    ensures KeepRows(columns, rows, name) == rows
  {
    if rows != [] {
      assert rows[0] in rows;
      assert forall row :: row in rows[1..] ==> row in rows;
      KeepRowsNothingMissing(columns, rows[1..], name);
      assert rows == [rows[0]] + rows[1..];
    }
  }

  /** Dropping twice on the same label drops nothing more. */
  lemma KeepRowsIdempotent(columns: seq<string>, rows: seq<Row>, name: string)
    requires forall row :: row in rows ==> |row| == |columns|
    ensures KeepRows(columns, KeepRows(columns, rows, name), name) == KeepRows(columns, rows, name)
  {
    var kept := KeepRows(columns, rows, name);
    forall row | row in kept
      ensures |row| == |columns| && !MissingAt(columns, row, name)
    {
    }
    KeepRowsNothingMissing(columns, kept, name);
  }

  /** `df.dropna(subset=[name])`: a new table without the rows missing `name`, or pandas'
      KeyError when no column carries the label. */
  function DropNa(t: Table, name: string): (r: Result<Table>)
    requires t.WellFormed()
    ensures r.Err? <==> name !in t.columns
    ensures r.Err? ==> r.error == KeyError(name)
    ensures r.Ok? ==> r.value.WellFormed()
  {
    if name !in t.columns then Err(KeyError(name))
    else
      var kept := KeepRows(t.columns, t.rows, name);
      assert forall row :: row in kept ==> row in t.rows;
      Ok(Table(t.columns, t.kinds, kept))
  }

  /** On success the labels and dtype tags are kept and the rows are exactly the input rows
      that have a value under `name`, in order and never more of them. */
  lemma DropNaSpec(t: Table, name: string)
    requires t.WellFormed() && name in t.columns
    ensures var r := DropNa(t, name).value;
            && r.columns == t.columns && r.kinds == t.kinds
            && r.rows == KeepRows(t.columns, t.rows, name)
            && |r.rows| <= |t.rows|
            && forall row :: row in r.rows <==> row in t.rows && !MissingAt(t.columns, row, name)
  {
  }

  /** `remove_empty_rows(df)`: a new frame without the rows missing `patient_id`, and the
      number of rows removed. The caller's frame is left as it was. */
  method RemoveEmptyRows(df: DataFrame) returns (res: Result<DataFrame>, removed: int)
    requires df.Valid()
    ensures res.Err? <==> DropNa(df.Snapshot(), "patient_id").Err?
    ensures res.Err? ==> res.error == KeyError("patient_id")
    ensures res.Ok? ==> fresh(res.value) && res.value.Valid()
                        && res.value.Snapshot() == DropNa(df.Snapshot(), "patient_id").value
                        && removed == |df.rows| - |res.value.rows| && removed >= 0
  {
    var rowsBefore := |df.rows|;
    var dropped := DropNa(df.Snapshot(), "patient_id");
    if dropped.Err? {
      return Err(dropped.error), 0;
    }
    var out := new DataFrame(dropped.value);
    removed := rowsBefore - |out.rows|;
    res := Ok(out);
  }

  /** `handle_missing_values(df)`: a new frame without the rows missing `patient_status`,
      and the number of rows dropped. Other missing cells, such as `date_of_last_visit`,
      are kept. */
  method HandleMissingValues(df: DataFrame) returns (res: Result<DataFrame>, dropped: int)
    requires df.Valid()
    ensures res.Err? <==> DropNa(df.Snapshot(), "patient_status").Err?
    ensures res.Err? ==> res.error == KeyError("patient_status")
    ensures res.Ok? ==> fresh(res.value) && res.value.Valid()
                        && res.value.Snapshot() == DropNa(df.Snapshot(), "patient_status").value
                        && dropped == |df.rows| - |res.value.rows| && dropped >= 0
  {
    var rowsBefore := |df.rows|;
    var kept := DropNa(df.Snapshot(), "patient_status");
    if kept.Err? {
      return Err(kept.error), 0;
    }
    var out := new DataFrame(kept.value);
    dropped := rowsBefore - |out.rows|;
    res := Ok(out);
  }

  // ---------------------------------------------------------------- validate_tumour_stage

  const ExpectedStages: set<Value> := {Text("I"), Text("II"), Text("III")}

  /** What `validate_tumour_stage` reports: nothing without the column, the values it saw
      when they are all expected, or the unexpected ones. */
  datatype StageCheck = NoStageColumn | StagesOk(actual: set<Value>) | UnexpectedStages(unexpected: set<Value>)

  /** `set(df["tumour_stage"].dropna().unique())`. */
  function StageValues(t: Table): (actual: set<Value>)
    requires t.WellFormed() && "tumour_stage" in t.columns
  {
    var j := IndexOf(t.columns, "tumour_stage").value;
    set i | 0 <= i < |t.rows| && t.rows[i][j].Some? :: t.rows[i][j].value
  }

  function TumourStageCheck(t: Table): (c: StageCheck)
    requires t.WellFormed()
    ensures c.NoStageColumn? <==> "tumour_stage" !in t.columns
    ensures c.StagesOk? ==> c.actual == StageValues(t) && c.actual <= ExpectedStages
    ensures c.UnexpectedStages? ==> c.unexpected == StageValues(t) - ExpectedStages && c.unexpected != {}
  {
    if "tumour_stage" !in t.columns then NoStageColumn
    else
      var actual := StageValues(t);
      var unexpected := actual - ExpectedStages;
      if unexpected != {} then UnexpectedStages(unexpected) else StagesOk(actual)
  }

  /** The warning is raised exactly when some row holds a tumour stage other than I, II
      or III. */
  lemma TumourStageWarns(t: Table)
    requires t.WellFormed()
    ensures var j := IndexOf(t.columns, "tumour_stage");
            TumourStageCheck(t).UnexpectedStages? <==>
              (j.Some? && exists i :: 0 <= i < |t.rows| && t.rows[i][j.value].Some?
                                     && t.rows[i][j.value].value !in ExpectedStages)
  {
    var j := IndexOf(t.columns, "tumour_stage");
    if j.Some? {
      var k := j.value;
      if exists i :: 0 <= i < |t.rows| && t.rows[i][k].Some? && t.rows[i][k].value !in ExpectedStages {
        var i :| 0 <= i < |t.rows| && t.rows[i][k].Some? && t.rows[i][k].value !in ExpectedStages;
        assert t.rows[i][k].value in StageValues(t);
      }
    }
  }

  /** `validate_tumour_stage(df)`: reports on the stages and returns the same frame,
      unchanged. */
  method ValidateTumourStage(df: DataFrame) returns (r: DataFrame, check: StageCheck)
    requires df.Valid()
    ensures r == df
    ensures check == TumourStageCheck(df.Snapshot())
  {
    check := TumourStageCheck(df.Snapshot());
    r := df;
  }

  // ---------------------------------------------------------------- clean_data

  /** The table `clean_data` returns, or the error it raises: the labels standardised, then
      the rows missing `patient_id` dropped, then the rows missing `patient_status` dropped;
      the tumour-stage check changes nothing. */
  function Clean(t: Table): (r: Result<Table>)
    requires t.WellFormed()
    ensures r.Err? ==> r.error == KeyError("patient_id") || r.error == KeyError("patient_status")
    ensures r.Ok? ==> r.value.WellFormed() && |r.value.rows| <= |t.rows|
  {
    StandardizedSpec(t);
    match DropNa(Standardized(t), "patient_id")
    case Err(e) => Err(e)
    case Ok(withIds) =>
      DropNaSpec(Standardized(t), "patient_id");
      if "patient_status" in withIds.columns then
        DropNaSpec(withIds, "patient_status");
        DropNa(withIds, "patient_status")
      else DropNa(withIds, "patient_status")
  }

  /** `clean_data` fails exactly when, after standardising, a label it drops on is absent,
      and reports the first such label. */
  lemma CleanErrors(t: Table)
    requires t.WellFormed()
    ensures var names := NormalizeNames(t.columns);
            && (Clean(t).Err? <==> "patient_id" !in names || "patient_status" !in names)
            && ("patient_id" !in names ==> Clean(t) == Err(KeyError("patient_id")))
            && ("patient_id" in names && "patient_status" !in names ==> Clean(t) == Err(KeyError("patient_status")))
  {
    StandardizedSpec(t);
  }

  /** What `clean_data` returns: standardised labels, the dtype tags, and exactly the input
      rows that have both a `patient_id` and a `patient_status`, in order; so no more rows
      than it was given, and a row missing only other cells is kept. */
  lemma CleanOk(t: Table)
    requires t.WellFormed() && Clean(t).Ok?
    ensures var r := Clean(t).value;
            && r.WellFormed()
            && r.columns == NormalizeNames(t.columns) && r.kinds == t.kinds
            && |r.rows| <= |t.rows|
            && (forall row :: row in r.rows ==>
                  row in t.rows && !MissingAt(r.columns, row, "patient_id") && !MissingAt(r.columns, row, "patient_status"))
            && (forall row ::
                  (row in t.rows && !MissingAt(r.columns, row, "patient_id") && !MissingAt(r.columns, row, "patient_status"))
                  ==> row in r.rows)
            && r.rows == KeepRows(r.columns, KeepRows(r.columns, t.rows, "patient_id"), "patient_status")
  {
    StandardizedSpec(t);
    var s := Standardized(t);
    var a := DropNa(s, "patient_id").value;
    DropNaSpec(s, "patient_id");
    DropNaSpec(a, "patient_status");
    var r := Clean(t).value;
    forall row | row in t.rows && !MissingAt(r.columns, row, "patient_id") && !MissingAt(r.columns, row, "patient_status")
      ensures row in r.rows
    {
      assert row in a.rows;
    }
  }

  /** Cleaning a cleaned table changes nothing. */
  lemma CleanIdempotent(t: Table)
    requires t.WellFormed() && Clean(t).Ok?
    ensures Clean(t).value.WellFormed() && Clean(Clean(t).value) == Clean(t)
  {
    CleanOk(t);
    var r := Clean(t).value;
    NormalizeNamesSpec(t.columns);
    assert Standardized(r) == r;
    forall row | row in r.rows
      ensures |row| == |r.columns| && !MissingAt(r.columns, row, "patient_id")
    {
    }
    KeepRowsNothingMissing(r.columns, r.rows, "patient_id");
    assert DropNa(r, "patient_id") == Ok(r);
    forall row | row in r.rows
      ensures |row| == |r.columns| && !MissingAt(r.columns, row, "patient_status")
    {
    }
    KeepRowsNothingMissing(r.columns, r.rows, "patient_status");
  }

  /** `clean_data(df)`: the four stages in order. The caller's frame gets the normalised
      labels even when a later stage fails; the result is a new frame holding `Clean`'s
      table. */
  method CleanData(df: DataFrame) returns (res: Result<DataFrame>)
    requires df.Valid()
    modifies df
    ensures df.Valid() && df.Snapshot() == Standardized(old(df.Snapshot()))
    ensures res.Ok? <==> Clean(old(df.Snapshot())).Ok?
    ensures res.Ok? ==> fresh(res.value) && res.value.Valid()
                        && res.value.Snapshot() == Clean(old(df.Snapshot())).value
    ensures res.Err? ==> Clean(old(df.Snapshot())) == Err(res.error)
  {
    var standardized := StandardizeColumns(df);
    var withIds, removed := RemoveEmptyRows(standardized);
    if withIds.Err? {
      return Err(withIds.error);
    }
    var withStatus, dropped := HandleMissingValues(withIds.value);
    if withStatus.Err? {
      return Err(withStatus.error);
    }
    var checked, stages := ValidateTumourStage(withStatus.value);
    res := Ok(checked);
  }
}
