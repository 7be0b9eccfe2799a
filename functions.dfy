/** The validation and analysis functions: `validate_dataframe`, `helper`, `analyze`
    and the input guards of `run_kmeans`. */
module Functions {
  import opened Frames
  import opened Series
  import opened Grouping

  // ---------------------------------------------------------------- validation

  /** `[c for c in required_cols if c not in df.columns]`. */
  function MissingFrom(required: seq<string>, columns: seq<string>): (missing: seq<string>)
    ensures |missing| <= |required|
    ensures forall c :: c in missing <==> c in required && c !in columns
  {
    if required == [] then []
    else
      assert required == [required[0]] + required[1..];
      (if required[0] in columns then [] else [required[0]]) + MissingFrom(required[1..], columns)
  }

  /** The missing names keep the order in which they were requested: the list for
      `a + b` is the list for `a` followed by the list for `b`. */
  lemma {:induction false} MissingFromAppend(a: seq<string>, b: seq<string>, columns: seq<string>)
    ensures MissingFrom(a + b, columns) == MissingFrom(a, columns) + MissingFrom(b, columns)
  {
    if a == [] {
      assert a + b == b;
    } else {
      assert (a + b)[1..] == a[1..] + b;
      MissingFromAppend(a[1..], b, columns);
    }
  }

  lemma MissingFromSingle(name: string, columns: seq<string>)
    ensures MissingFrom([name], columns) == if name in columns then [] else [name]
  {
    assert [name][1..] == [];
  }

  /** `validate_dataframe`: the type check comes first, whatever is required; a table
      passes exactly when it has every required label, and otherwise the error lists the
      absent labels. */
  function ValidateDataframe(df: Arg, required: seq<string>): (o: Outcome)
    ensures df.NotFrame? ==> o == Fail(TypeError("Expected a DataFrame, got " + df.typeName))
    ensures df.Frame? ==> (o.Pass? <==> forall c :: c in required ==> c in df.table.columns)
    ensures df.Frame? && o.Fail? ==>
              o.error == MissingColumns(MissingFrom(required, df.table.columns)) && o.error.missing != []
  {
    match df
    case NotFrame(typeName) => Fail(TypeError("Expected a DataFrame, got " + typeName))
    case Frame(t) =>
      var missing := MissingFrom(required, t.columns);
      if missing != [] then
        assert missing[0] in missing;
        Fail(MissingColumns(missing))
      else Pass
  }

  /** The cases of `TestValidateDataframe`. */
  lemma ValidateDataframeExamples()
    ensures ValidateDataframe(Frame(Table(["a", "b"], [Numeric, Numeric], [[Some(Num(1)), Some(Num(2))]])), ["a", "b"]) == Pass
    ensures ValidateDataframe(Frame(Table(["a"], [Numeric], [[Some(Num(1))]])), ["a", "b"]) == Fail(MissingColumns(["b"]))
    ensures ValidateDataframe(NotFrame("str"), ["a"]).error.TypeError?
  {
    assert MissingFrom(["a", "b"], ["a"]) == MissingFrom(["b"], ["a"]);
  }

  // ---------------------------------------------------------------- helper

  /** One entry of `helper`'s dictionary. */
  datatype Stat = IntStat(i: int) | RealStat(r: real) | SqrtOf(radicand: real) | NaN

  /** `helper`'s dictionary: count, mean, median, std, min and max. `std` is kept as the
      square root of the sample variance it stands for. */
  datatype Summary = Summary(count: nat, mean: Stat, median: Stat, std: Stat, min: Stat, max: Stat)

  /** `helper(series)`: never more values counted than cells; every statistic but the
      count is NaN exactly when no value is present, and `std` also with a single one. */
  function Helper(series: seq<Option<int>>): (r: Summary)
    ensures r.count <= |series|
    ensures r.count == 0 <==> forall k :: 0 <= k < |series| ==> series[k].None?
    ensures r.count == 0 <==> r.mean.NaN? && r.median.NaN? && r.min.NaN? && r.max.NaN?
    ensures r.std.NaN? <==> r.count < 2
  {
    PresentEmpty(series);
    var xs := Present(series);
    if xs == [] then Summary(0, NaN, NaN, NaN, NaN, NaN)
    else
      Summary(|xs|, RealStat(Mean(xs)), RealStat(Median(xs)),
              if |xs| >= 2 then SqrtOf(Variance(xs)) else NaN,
              IntStat(MinOf(xs)), IntStat(MaxOf(xs)))
  }

  /** `helper`'s count is the number of present values; on an all-missing series every
      other statistic is NaN. */
  lemma HelperCount(series: seq<Option<int>>)
    ensures Helper(series).count == |series| - multiset(series)[None]
    ensures Helper(series).count == 0 ==> Helper(series) == Summary(0, NaN, NaN, NaN, NaN, NaN)
  {
    PresentCounts(series);
  }

  /** With a value present, `min` and `max` are present values and bound every present value. */
  lemma HelperMinMax(series: seq<Option<int>>)
    requires Helper(series).count > 0
    ensures var r := Helper(series);
      && r.min.IntStat? && r.max.IntStat?
      && Some(r.min.i) in series && Some(r.max.i) in series
      && forall k :: 0 <= k < |series| && series[k].Some? ==> r.min.i <= series[k].value <= r.max.i
  {
    var xs := Present(series);
    PresentCounts(series);
    MinOfSpec(xs);
    MaxOfSpec(xs);
    forall k | 0 <= k < |series| && series[k].Some?
      ensures series[k].value in xs
    {
      var v := series[k].value;
      assert series[k] == Some(v);
      assert Some(v) in series;
    }
  }

  /** With a value present, the mean and the median lie between `min` and `max`. */
  lemma HelperCentre(series: seq<Option<int>>)
    requires Helper(series).count > 0
    ensures var r := Helper(series);
      && r.mean.RealStat? && r.median.RealStat? && r.min.IntStat? && r.max.IntStat?
      && r.min.i as real <= r.mean.r <= r.max.i as real
      && r.min.i as real <= r.median.r <= r.max.i as real
  {
    var xs := Present(series);
    MeanBounds(xs);
    MedianBounds(xs);
  }

  /** `std` (with `ddof=1`) is NaN below two present values and otherwise the square root
      of a non-negative variance. */
  lemma HelperStd(series: seq<Option<int>>)
    ensures Helper(series).std.NaN? <==> Helper(series).count < 2
    ensures Helper(series).std.SqrtOf? <==> Helper(series).count >= 2
    ensures Helper(series).std.SqrtOf? ==> Helper(series).std.radicand >= 0.0
  {
  }

  /** The statistic names, in the order of `helper`'s dictionary. */
  const StatNames: seq<string> := ["count", "mean", "median", "std", "min", "max"]

  /** `stats.items()`. */
  function Items(s: Summary): (items: seq<(string, Stat)>)
    ensures |items| == |StatNames|
    ensures forall k :: 0 <= k < |items| ==> items[k].0 == StatNames[k]
    ensures items[0].1 == IntStat(s.count) && items[1].1 == s.mean && items[2].1 == s.median
    ensures items[3].1 == s.std && items[4].1 == s.min && items[5].1 == s.max
  {
    [("count", IntStat(s.count)), ("mean", s.mean), ("median", s.median),
     ("std", s.std), ("min", s.min), ("max", s.max)]
  }

  /** The examples of `TestDescribeSeries` and the module-level assertions. */
  lemma HelperExampleCount()
    ensures Helper([Some(1), Some(2), None, Some(4)]).count == 3
  {
    var s: seq<Option<int>> := [Some(1), Some(2), None, Some(4)];
    assert multiset(s)[None] == 1;
  }

  lemma HelperExampleSingle()
    ensures Helper([Some(42)]) == Summary(1, RealStat(42.0), RealStat(42.0), NaN, IntStat(42), IntStat(42))
  {
    var s: seq<Option<int>> := [Some(42)];
    assert s[1..] == [];
    assert Present(s) == [42];
    assert [42][1..] == [];
    assert Sort([42]) == [42];
  }

  /** The module-level assertions: the series 1 to 5 has mean 3 and count 5. */
  lemma HelperExampleFive()
    ensures Helper([Some(1), Some(2), Some(3), Some(4), Some(5)]).mean == RealStat(3.0)
    ensures Helper([Some(1), Some(2), Some(3), Some(4), Some(5)]).count == 5
  {
    var s: seq<Option<int>> := [Some(1), Some(2), Some(3), Some(4), Some(5)];
    assert s[1..] == [Some(2), Some(3), Some(4), Some(5)] && s[1..][1..] == [Some(3), Some(4), Some(5)];
    assert s[1..][1..][1..] == [Some(4), Some(5)] && s[1..][1..][1..][1..] == [Some(5)];
    assert s[1..][1..][1..][1..][1..] == [];
    assert Present(s) == [1, 2, 3, 4, 5];
    SumOneToFive();
  }

  lemma SumOneToFive()
    ensures Sum([1, 2, 3, 4, 5]) == 15
  {
    var xs := [1, 2, 3, 4, 5];
    assert xs[1..] == [2, 3, 4, 5] && xs[1..][1..] == [3, 4, 5];
    assert xs[1..][1..][1..] == [4, 5] && xs[1..][1..][1..][1..] == [5] && [5][1..] == [];
  }

  /** `test_mean_simple`: the mean of 10, 20 and 30 is 20. */
  lemma HelperExampleMean()
    ensures Helper([Some(10), Some(20), Some(30)]).mean == RealStat(20.0)
  {
    var s: seq<Option<int>> := [Some(10), Some(20), Some(30)];
    assert s[1..] == [Some(20), Some(30)] && s[1..][1..] == [Some(30)] && s[1..][1..][1..] == [];
    assert Present(s) == [10, 20, 30];
    var xs := [10, 20, 30];
    assert xs[1..] == [20, 30] && xs[1..][1..] == [30] && xs[1..][1..][1..] == [];
    assert Sum(xs) == 60;
  }

  /** `test_median_even`: the median of 1, 2, 3 and 4 is 2.5. */
  lemma HelperExampleMedian()
    ensures Helper([Some(1), Some(2), Some(3), Some(4)]).median == RealStat(2.5)
  {
    var s: seq<Option<int>> := [Some(1), Some(2), Some(3), Some(4)];
    assert s[1..] == [Some(2), Some(3), Some(4)] && s[1..][1..] == [Some(3), Some(4)];
    assert s[1..][1..][1..] == [Some(4)] && s[1..][1..][1..][1..] == [];
    assert Present(s) == [1, 2, 3, 4];
    var xs := [1, 2, 3, 4];
    assert xs[1..] == [2, 3, 4] && xs[1..][1..] == [3, 4] && xs[1..][1..][1..] == [4];
    assert Sort([4]) == [4];
    assert Sort([3, 4]) == InsertSorted([4], 3) == [3, 4];
    assert Sort([2, 3, 4]) == InsertSorted([3, 4], 2) == [2, 3, 4];
    assert Sort(xs) == InsertSorted([2, 3, 4], 1) == xs;
  }

  // ---------------------------------------------------------------- analyze

  /** `f"{col}_{stat_name}"`. */
  function FieldName(column: string, stat: string): (name: string) {
    column + "_" + stat
  }

  /** Different (column, statistic) pairs never produce the same field name, because no
      statistic name contains an underscore. */
  lemma FieldNameInjective(a: string, s: string, b: string, t: string)
    requires '_' !in s && '_' !in t
    requires FieldName(a, s) == FieldName(b, t)
    ensures a == b && s == t
  {
    var w := FieldName(a, s);
    if |s| < |t| {
      UnderscoreInLongerSuffix(a, s, b, t);
      assert false;
    } else if |t| < |s| {
      UnderscoreInLongerSuffix(b, t, a, s);
      assert false;
    }
    assert s == w[|w| - |s|..] == t;
    assert a == w[..|a|] == b;
  }

  /** If two field names coincide and one statistic name is shorter, the longer one has an
      underscore where the shorter one's separator sits. */
  lemma UnderscoreInLongerSuffix(a: string, s: string, b: string, t: string)
    requires FieldName(a, s) == FieldName(b, t) && |s| < |t|
    ensures '_' in t
  {
    var w := FieldName(a, s);
    var k := |t| - |s| - 1;
    assert w[|a|] == '_';
    assert w == b + "_" + t;
    assert w[|b| + 1 + k] == t[k];
  }

  lemma StatNamesHaveNoUnderscore()
    ensures forall s :: s in StatNames ==> '_' !in s
    ensures forall p, q :: 0 <= p < q < |StatNames| ==> StatNames[p] != StatNames[q]
  {
  }

  /** The positions of the numeric columns, in column order
      (`df.select_dtypes(include="number").columns`). */
  function NumericColumns(kinds: seq<Kind>): (cols: seq<nat>)
    ensures forall j: nat :: j in cols <==> j < |kinds| && kinds[j] == Numeric
    ensures forall p :: 0 <= p < |cols| ==> cols[p] < |kinds|
    ensures forall p, q :: 0 <= p < q < |cols| ==> cols[p] < cols[q]
  {
    if kinds == [] then []
    else
      var n := |kinds| - 1;
      var init := NumericColumns(kinds[..n]);
      assert forall p :: 0 <= p < |init| ==> init[p] < n by {
        forall p | 0 <= p < |init|
          ensures init[p] < n
        {
          assert init[p] in init;
        }
      }
      init + (if kinds[n] == Numeric then [n] else [])
  }

  /** `group_df[col]`: the numbers in column `c` of the group's rows; a missing cell stays
      missing. */
  function ColumnSeries(group: seq<Row>, c: nat): (s: seq<Option<int>>)
    requires forall row :: row in group ==> c < |row|
    ensures |s| == |group|
    ensures forall i :: 0 <= i < |group| ==> (s[i].None? <==> group[i][c].None? || group[i][c].value.Text?)
    ensures forall i :: 0 <= i < |group| && group[i][c].Some? && group[i][c].value.Num? ==> s[i] == Some(group[i][c].value.n)
  {
    seq(|group|, i requires 0 <= i < |group| =>
      match group[i][c]
      case Some(Num(n)) => Some(n)
      case _ => None)
  }

  /** `row[f"{col}_{stat_name}"] = stat_value` for a run of `stats.items()`. */
  function ItemsInto(row: map<string, Stat>, column: string, items: seq<(string, Stat)>): (fields: map<string, Stat>) {
    if items == [] then row
    else
      var last := items[|items| - 1];
      ItemsInto(row, column, items[..|items| - 1])[FieldName(column, last.0) := last.1]
  }

  /** The fields written by the loops over the numeric columns `cols` and the statistics,
      given each column's `stats.items()` in `stats`. */
  function StatsFields(columns: seq<string>, cols: seq<nat>, stats: seq<seq<(string, Stat)>>): (fields: map<string, Stat>)
    requires |stats| == |cols|
    requires forall p :: 0 <= p < |cols| ==> cols[p] < |columns|
  {
    if cols == [] then map[]
    else
      var n := |cols| - 1;
      ItemsInto(StatsFields(columns, cols[..n], stats[..n]), columns[cols[n]], stats[n])
  }

  /** Each entry lists the six statistics under their names, in `helper`'s order. */
  predicate StatsNamed(stats: seq<seq<(string, Stat)>>) {
    forall p :: 0 <= p < |stats| ==>
      |stats[p]| == |StatNames| && forall m :: 0 <= m < |StatNames| ==> stats[p][m].0 == StatNames[m]
  }

  /** `helper(group_df[col]).items()` for each numeric column of a group, in column order. */
  function ColumnStats(group: seq<Row>, cols: seq<nat>, width: nat): (stats: seq<seq<(string, Stat)>>)
    requires forall row :: row in group ==> |row| == width
    requires forall p :: 0 <= p < |cols| ==> cols[p] < width
    ensures |stats| == |cols|
    ensures StatsNamed(stats)
    ensures forall p :: 0 <= p < |cols| ==> stats[p] == Items(Helper(ColumnSeries(group, cols[p])))
  {
    seq(|cols|, p requires 0 <= p < |cols| => Items(Helper(ColumnSeries(group, cols[p]))))
  }

  /** The statistic fields of one group's row: `helper` applied to each of the numeric
      columns `cols` of the group, in turn, folded into one flat dictionary. */
  function GroupFields(columns: seq<string>, group: seq<Row>, cols: seq<nat>): (fields: map<string, Stat>)
    requires forall p :: 0 <= p < |cols| ==> cols[p] < |columns|
    requires forall row :: row in group ==> |row| == |columns|
  {
    StatsFields(columns, cols, ColumnStats(group, cols, |columns|))
  }

  /** One row of `analyze`'s result: the group value (the index after `set_index("group")`)
      and the statistic fields. */
  datatype GroupRow = GroupRow(group: Value, fields: map<string, Stat>)

  function Groups(rows: seq<GroupRow>): (keys: seq<Value>)
    ensures |keys| == |rows| && forall i :: 0 <= i < |rows| ==> keys[i] == rows[i].group
  {
    seq(|rows|, i requires 0 <= i < |rows| => rows[i].group)
  }

  /** The row `analyze` builds for the group with key `key` in column `j`. */
  function GroupRowOf(t: Table, j: nat, key: Value): (row: GroupRow)
    requires t.Shaped() && j < |t.columns|
  {
    GroupRow(key, GroupFields(t.columns, GroupOf(t.rows, j, key), NumericColumns(t.kinds)))
  }

  /** The value `analyze(df, group_col)` returns or the error it raises. It validates
      before grouping; with no group at all, `pd.DataFrame([]).set_index("group")` raises
      a KeyError. */
  function AnalyzeResult(df: Arg, groupCol: string := "patient_status"): (r: Result<seq<GroupRow>>)
    requires df.Frame? ==> df.table.WellFormed()
    ensures df.NotFrame? ==> r == Err(TypeError("Expected a DataFrame, got " + df.typeName))
    ensures df.Frame? && groupCol !in df.table.columns ==> r == Err(MissingColumns([groupCol]))
  {
    var check := ValidateDataframe(df, [groupCol]);
    if check.Fail? then
      if df.Frame? then
        MissingFromSingle(groupCol, df.table.columns);
        Err(check.error)
      else Err(check.error)
    else
      var t := df.table;
      assert groupCol in [groupCol];
      var j := IndexOf(t.columns, groupCol).value;
      var keys := GroupKeys(ColumnCells(t.rows, j));
      if keys == [] then Err(KeyError("group"))
      else Ok(GroupRows(t, j, keys))
  }

  /** `analyze`'s innermost loop: one field per statistic of one column. */
  method AddStatFields(row0: map<string, Stat>, column: string, stats: seq<(string, Stat)>)
    returns (row: map<string, Stat>)
    ensures row == ItemsInto(row0, column, stats)
  {
    row := row0;
    for m := 0 to |stats|
      invariant row == ItemsInto(row0, column, stats[..m])
    {
      assert stats[..m + 1][..m] == stats[..m];
      row := row[FieldName(column, stats[m].0) := stats[m].1];
    }
    assert stats[..|stats|] == stats;
  }

  /** The body of `analyze`'s loop over one group: for each numeric column and each
      statistic, one field of the row. */
  method GroupRowFields(columns: seq<string>, groupDf: seq<Row>, numericCols: seq<nat>)
    returns (row: map<string, Stat>)
    requires forall p :: 0 <= p < |numericCols| ==> numericCols[p] < |columns|
    requires forall r :: r in groupDf ==> |r| == |columns|
    ensures row == GroupFields(columns, groupDf, numericCols)
  {
    row := map[];
    ghost var all := ColumnStats(groupDf, numericCols, |columns|);
    for k := 0 to |numericCols|
      invariant row == StatsFields(columns, numericCols[..k], all[..k])
    {
      var col := numericCols[k];
      var stats := Items(Helper(ColumnSeries(groupDf, col)));
      StatsFieldsSnoc(columns, numericCols, all, k);
      row := AddStatFields(row, columns[col], stats);
    }
    assert numericCols[..|numericCols|] == numericCols;
    assert all[..|numericCols|] == all;
  }

  /** One more column folded in. */
  lemma StatsFieldsSnoc(columns: seq<string>, cols: seq<nat>, stats: seq<seq<(string, Stat)>>, k: nat)
    requires |stats| == |cols| && k < |cols|
    requires forall p :: 0 <= p < |cols| ==> cols[p] < |columns|
    ensures StatsFields(columns, cols[..k + 1], stats[..k + 1])
         == ItemsInto(StatsFields(columns, cols[..k], stats[..k]), columns[cols[k]], stats[k])
  {
    assert cols[..k + 1][..k] == cols[..k];
    assert stats[..k + 1][..k] == stats[..k];
  }

  /** The rows `analyze` builds for the given keys, one per key, in key order. */
  function GroupRows(t: Table, j: nat, keys: seq<Value>): (r: seq<GroupRow>)
    requires t.Shaped() && j < |t.columns|
    ensures |r| == |keys|
  {
    if keys == [] then [] else GroupRows(t, j, keys[..|keys| - 1]) + [GroupRowOf(t, j, keys[|keys| - 1])]
  }

  /** The row at position `p` is the one built for the `p`-th key. */
  lemma {:induction false} GroupRowsAt(t: Table, j: nat, keys: seq<Value>, p: nat)
    requires t.Shaped() && j < |t.columns| && p < |keys|
    ensures GroupRows(t, j, keys)[p] == GroupRowOf(t, j, keys[p])
  {
    var init := keys[..|keys| - 1];
    assert GroupRows(t, j, keys) == GroupRows(t, j, init) + [GroupRowOf(t, j, keys[|keys| - 1])];
    if p < |init| {
      GroupRowsAt(t, j, init, p);
      assert init[p] == keys[p];
    }
  }

  /** `analyze`'s loop over the groups. */
  method BuildGroupRows(t: Table, j: nat, keys: seq<Value>) returns (rows: seq<GroupRow>)
    requires t.Shaped() && j < |t.columns|
    ensures rows == GroupRows(t, j, keys)
  {
    var numericCols := NumericColumns(t.kinds);
    rows := [];
    for i := 0 to |keys|
      invariant rows == GroupRows(t, j, keys[..i])
    {
      var groupName := keys[i];
      var groupDf := GroupOf(t.rows, j, groupName);
      var row := GroupRowFields(t.columns, groupDf, numericCols);
      GroupRowsSnoc(t, j, keys, i);
      rows := rows + [GroupRow(groupName, row)];
    }
    assert keys[..|keys|] == keys;
  }

  /** One more key, one more row at the end. */
  lemma GroupRowsSnoc(t: Table, j: nat, keys: seq<Value>, i: nat)
    requires t.Shaped() && j < |t.columns| && i < |keys|
    ensures GroupRows(t, j, keys[..i + 1]) == GroupRows(t, j, keys[..i]) + [GroupRowOf(t, j, keys[i])]
  {
    assert keys[..i + 1][..i] == keys[..i];
  }

  /** `analyze`, with its loops over the groups, the numeric columns and the statistics,
      computes `AnalyzeResult`. */
  method Analyze(df: Arg, groupCol: string := "patient_status") returns (result: Result<seq<GroupRow>>)
    requires df.Frame? ==> df.table.WellFormed()
    ensures result == AnalyzeResult(df, groupCol)
  {
    var check := ValidateDataframe(df, [groupCol]);
    if check.Fail? {
      return Err(check.error);
    }
    var t := df.table;
    assert groupCol in [groupCol];
    var j := IndexOf(t.columns, groupCol).value;
    var keys := GroupKeys(ColumnCells(t.rows, j));
    var rows := BuildGroupRows(t, j, keys);
    if rows == [] {
      return Err(KeyError("group"));
    }
    result := Ok(rows);
  }

  // ---------------------------------------------------------------- what analyze returns

  /** With the same column, different statistic names give different field names. */
  lemma FieldNameSuffix(column: string, a: string, b: string)
    requires FieldName(column, a) == FieldName(column, b)
    ensures a == b
  {
    assert a == FieldName(column, a)[|column| + 1..];
    assert b == FieldName(column, b)[|column| + 1..];
  }

  /** The keys `ItemsInto` adds: one field name per item. */
  lemma {:induction false} ItemsIntoKeys(row: map<string, Stat>, column: string, items: seq<(string, Stat)>)
    ensures ItemsInto(row, column, items).Keys
              == row.Keys + set k | 0 <= k < |items| :: FieldName(column, items[k].0)
  {
    if items != [] {
      var n := |items| - 1;
      var init := items[..n];
      ItemsIntoKeys(row, column, init);
      var before := set k | 0 <= k < |init| :: FieldName(column, init[k].0);
      var after := set k | 0 <= k < |items| :: FieldName(column, items[k].0);
      assert after == before + {FieldName(column, items[n].0)} by {
        forall x | x in after
          ensures x in before + {FieldName(column, items[n].0)}
        {
          var k :| 0 <= k < |items| && x == FieldName(column, items[k].0);
          if k < n {
            assert init[k] == items[k];
          }
        }
        forall x | x in before
          ensures x in after
        {
          var k :| 0 <= k < |init| && x == FieldName(column, init[k].0);
          assert init[k] == items[k];
        }
      }
    }
  }

  /** With distinct statistic names, the field for item `m` holds item `m`'s value. */
  lemma {:induction false} ItemsIntoValue(row: map<string, Stat>, column: string, items: seq<(string, Stat)>, m: nat)
    requires forall k, l :: 0 <= k < l < |items| ==> items[k].0 != items[l].0
    requires m < |items|
    ensures FieldName(column, items[m].0) in ItemsInto(row, column, items)
    ensures ItemsInto(row, column, items)[FieldName(column, items[m].0)] == items[m].1
  {
    var n := |items| - 1;
    if m < n {
      var init := items[..n];
      assert init[m] == items[m];
      ItemsIntoValue(row, column, init, m);
      if FieldName(column, items[n].0) == FieldName(column, items[m].0) {
        FieldNameSuffix(column, items[n].0, items[m].0);
        assert false;
      }
    }
  }

  /** A field that no item names keeps its presence and its value. */
  lemma {:induction false} ItemsIntoOther(row: map<string, Stat>, column: string, items: seq<(string, Stat)>, x: string)
    requires forall k :: 0 <= k < |items| ==> x != FieldName(column, items[k].0)
    ensures x in ItemsInto(row, column, items) <==> x in row
    ensures x in row ==> ItemsInto(row, column, items)[x] == row[x]
  {
    if items != [] {
      var n := |items| - 1;
      var init := items[..n];
      assert forall k :: 0 <= k < |init| ==> init[k] == items[k];
      ItemsIntoOther(row, column, init, x);
    }
  }

  /** The six field names `{column}_{stat}` of one column. */
  function ColumnFieldNames(column: string): set<string> {
    set m | 0 <= m < |StatNames| :: FieldName(column, StatNames[m])
  }

  /** The field names of a group's row: every statistic name after every numeric column's
      label, and nothing else. */
  function FieldNames(columns: seq<string>, cols: seq<nat>): (names: set<string>)
    requires forall p :: 0 <= p < |cols| ==> cols[p] < |columns|
  {
    set p, m | 0 <= p < |cols| && 0 <= m < |StatNames| :: FieldName(columns[cols[p]], StatNames[m])
  }

  /** The names one column's items add are that column's six field names. */
  lemma ItemsFieldNames(column: string, items: seq<(string, Stat)>)
    requires |items| == |StatNames|
    requires forall m :: 0 <= m < |StatNames| ==> items[m].0 == StatNames[m]
    ensures (set k | 0 <= k < |items| :: FieldName(column, items[k].0)) == ColumnFieldNames(column)
  {
    var a := set k | 0 <= k < |items| :: FieldName(column, items[k].0);
    forall x | x in ColumnFieldNames(column)
      ensures x in a
    {
      var m :| 0 <= m < |StatNames| && x == FieldName(column, StatNames[m]);
      assert x == FieldName(column, items[m].0);
    }
  }

  /** Adding a column adds its six field names. */
  lemma FieldNamesSnoc(columns: seq<string>, cols: seq<nat>)
    requires cols != [] && forall p :: 0 <= p < |cols| ==> cols[p] < |columns|
    ensures FieldNames(columns, cols)
              == FieldNames(columns, cols[..|cols| - 1]) + ColumnFieldNames(columns[cols[|cols| - 1]])
  {
    var n := |cols| - 1;
    var init := cols[..n];
    forall x | x in FieldNames(columns, cols)
      ensures x in FieldNames(columns, init) + ColumnFieldNames(columns[cols[n]])
    {
      var p, m :| 0 <= p < |cols| && 0 <= m < |StatNames| && x == FieldName(columns[cols[p]], StatNames[m]);
      if p < n {
        assert init[p] == cols[p];
      }
    }
    forall x | x in FieldNames(columns, init)
      ensures x in FieldNames(columns, cols)
    {
      var p, m :| 0 <= p < |init| && 0 <= m < |StatNames| && x == FieldName(columns[init[p]], StatNames[m]);
      assert init[p] == cols[p];
    }
    forall x | x in ColumnFieldNames(columns[cols[n]])
      ensures x in FieldNames(columns, cols)
    {
      var m :| 0 <= m < |StatNames| && x == FieldName(columns[cols[n]], StatNames[m]);
    }
  }

  lemma {:induction false} StatsFieldsKeys(columns: seq<string>, cols: seq<nat>, stats: seq<seq<(string, Stat)>>)
    requires |stats| == |cols|
    requires forall p :: 0 <= p < |cols| ==> cols[p] < |columns|
    requires StatsNamed(stats)
    ensures StatsFields(columns, cols, stats).Keys == FieldNames(columns, cols)
  {
    if cols != [] {
      var n := |cols| - 1;
      assert StatsNamed(stats[..n]) by {
        forall p | 0 <= p < n
          ensures stats[..n][p] == stats[p]
        {
        }
      }
      StatsFieldsKeys(columns, cols[..n], stats[..n]);
      ItemsIntoKeys(StatsFields(columns, cols[..n], stats[..n]), columns[cols[n]], stats[n]);
      ItemsFieldNames(columns[cols[n]], stats[n]);
      FieldNamesSnoc(columns, cols);
    }
  }

  /** The field for numeric column `cols[p]` and statistic `m` holds entry `m` of that
      column's statistics, provided the numeric columns' labels are distinct (with a
      repeated label, the later column's statistics overwrite the earlier ones). */
  lemma {:induction false} StatsFieldsValue(columns: seq<string>, cols: seq<nat>, stats: seq<seq<(string, Stat)>>, p: nat, m: nat)
    requires |stats| == |cols|
    requires forall q :: 0 <= q < |cols| ==> cols[q] < |columns|
    requires StatsNamed(stats)
    requires forall q, q' :: 0 <= q < q' < |cols| ==> columns[cols[q]] != columns[cols[q']]
    requires p < |cols| && m < |StatNames|
    ensures FieldName(columns[cols[p]], StatNames[m]) in StatsFields(columns, cols, stats)
    ensures StatsFields(columns, cols, stats)[FieldName(columns[cols[p]], StatNames[m])] == stats[p][m].1
  {
    StatNamesHaveNoUnderscore();
    var n := |cols| - 1;
    var init := cols[..n];
    var c := cols[n];
    var items := stats[n];
    assert |items| == |StatNames|;
    var x := FieldName(columns[cols[p]], StatNames[m]);
    if p == n {
      forall k, l | 0 <= k < l < |items|
        ensures items[k].0 != items[l].0
      {
        assert items[k].0 == StatNames[k] && items[l].0 == StatNames[l];
      }
      assert items[m].0 == StatNames[m];
      ItemsIntoValue(StatsFields(columns, init, stats[..n]), columns[c], items, m);
    } else {
      assert init[p] == cols[p];
      assert forall q :: 0 <= q < |init| ==> init[q] == cols[q];
      assert forall q :: 0 <= q < n ==> stats[..n][q] == stats[q];
      StatsFieldsValue(columns, init, stats[..n], p, m);
      forall k | 0 <= k < |items|
        ensures x != FieldName(columns[c], items[k].0)
      {
        assert items[k].0 == StatNames[k];
        if x == FieldName(columns[c], StatNames[k]) {
          assert StatNames[k] in StatNames && StatNames[m] in StatNames;
          FieldNameInjective(columns[cols[p]], StatNames[m], columns[c], StatNames[k]);
          assert false;
        }
      }
      ItemsIntoOther(StatsFields(columns, init, stats[..n]), columns[c], items, x);
    }
  }

  /** The column position `analyze` groups by: the first column carrying the label. */
  function GroupColumn(t: Table, groupCol: string): (j: nat)
    requires groupCol in t.columns
    ensures j < |t.columns| && t.columns[j] == groupCol
  {
    IndexOf(t.columns, groupCol).value
  }

  /** The rows built for the keys carry the keys, in order. */
  lemma GroupRowsGroups(t: Table, j: nat, keys: seq<Value>)
    requires t.Shaped() && j < |t.columns|
    ensures Groups(GroupRows(t, j, keys)) == keys
  {
    forall p | 0 <= p < |keys|
      ensures Groups(GroupRows(t, j, keys))[p] == keys[p]
    {
      GroupRowsAt(t, j, keys, p);
    }
  }

  /** The rows of `analyze`'s result correspond one-to-one to the groups: one per distinct
      present value of the group column, in ascending order. The result is the KeyError
      exactly when no row has a value in the group column. */
  lemma AnalyzeGroups(t: Table, groupCol: string)
    requires t.WellFormed() && groupCol in t.columns
    ensures var j := GroupColumn(t, groupCol);
            var r := AnalyzeResult(Frame(t), groupCol);
            && (r.Err? <==> forall i :: 0 <= i < |t.rows| ==> t.rows[i][j].None?)
            && (r.Err? ==> r.error == KeyError("group"))
            && (r.Ok? ==> StrictlySorted(Groups(r.value)))
            && (r.Ok? ==> forall v :: v in Groups(r.value) <==> exists i :: 0 <= i < |t.rows| && t.rows[i][j] == Some(v))
  {
    var j := GroupColumn(t, groupCol);
    var keys := GroupKeys(ColumnCells(t.rows, j));
    AnalyzeOk(t, groupCol);
    GroupKeysOfColumn(t.rows, j);
    if keys != [] {
      GroupRowsGroups(t, j, keys);
    }
  }

  /** The fields of the row built for one group. */
  lemma GroupRowOfKeys(t: Table, j: nat, key: Value)
    requires t.Shaped() && j < |t.columns|
    ensures GroupRowOf(t, j, key).fields.Keys == FieldNames(t.columns, NumericColumns(t.kinds))
  {
    var g := GroupOf(t.rows, j, key);
    var cols := NumericColumns(t.kinds);
    StatsFieldsKeys(t.columns, cols, ColumnStats(g, cols, |t.columns|));
  }

  /** The value of one field of the row built for one group. */
  lemma GroupRowOfValue(t: Table, j: nat, key: Value, c: nat, m: nat)
    requires t.Shaped() && j < |t.columns|
    requires forall a, b :: 0 <= a < b < |t.columns| ==> t.columns[a] != t.columns[b]
    requires c < |t.columns| && t.kinds[c] == Numeric && m < |StatNames|
    ensures var x := FieldName(t.columns[c], StatNames[m]);
            && x in GroupRowOf(t, j, key).fields
            && GroupRowOf(t, j, key).fields[x] == Items(Helper(ColumnSeries(GroupOf(t.rows, j, key), c)))[m].1
  {
    var g := GroupOf(t.rows, j, key);
    var cols := NumericColumns(t.kinds);
    assert c in cols;
    var q :| 0 <= q < |cols| && cols[q] == c;
    StatsFieldsValue(t.columns, cols, ColumnStats(g, cols, |t.columns|), q, m);
  }

  /** `analyze`'s value, when it returns one, is the rows built for the sorted group keys. */
  lemma AnalyzeOk(t: Table, groupCol: string)
    requires t.WellFormed() && groupCol in t.columns
    ensures var keys := GroupKeys(ColumnCells(t.rows, GroupColumn(t, groupCol)));
            AnalyzeResult(Frame(t), groupCol)
              == if keys == [] then Err(KeyError("group")) else Ok(GroupRows(t, GroupColumn(t, groupCol), keys))
  {
    assert groupCol in [groupCol];
  }

  /** Every row of `analyze`'s result has exactly the fields `{col}_{stat}` for the numeric
      columns and the six statistics; none of them is the `group` key. */
  lemma AnalyzeFieldNames(t: Table, groupCol: string, p: nat)
    requires t.WellFormed() && groupCol in t.columns
    requires AnalyzeResult(Frame(t), groupCol).Ok? && p < |AnalyzeResult(Frame(t), groupCol).value|
    ensures var row := AnalyzeResult(Frame(t), groupCol).value[p];
            && row.fields.Keys == FieldNames(t.columns, NumericColumns(t.kinds))
            && "group" !in row.fields
  {
    var j := GroupColumn(t, groupCol);
    var keys := GroupKeys(ColumnCells(t.rows, j));
    AnalyzeOk(t, groupCol);
    GroupRowsAt(t, j, keys, p);
    GroupRowOfKeys(t, j, keys[p]);
    GroupIsNotAField(t.columns, NumericColumns(t.kinds));
  }

  /** The `group` entry of a row never collides with a statistic field: every field name
      contains an underscore and `group` does not. */
  lemma GroupIsNotAField(columns: seq<string>, cols: seq<nat>)
    requires forall p :: 0 <= p < |cols| ==> cols[p] < |columns|
    ensures "group" !in FieldNames(columns, cols)
  {
    if "group" in FieldNames(columns, cols) {
      var q, m :| 0 <= q < |cols| && 0 <= m < |StatNames| && "group" == FieldName(columns[cols[q]], StatNames[m]);
      FieldNameHasUnderscore(columns[cols[q]], StatNames[m]);
      assert false;
    }
  }

  lemma FieldNameHasUnderscore(column: string, stat: string)
    ensures FieldName(column, stat)[|column|] == '_'
  {
  }

  /** With distinct column labels, the field `{col}_{stat}` of a group's row is that
      statistic of `helper` over the column's cells in the rows carrying the group's key. */
  lemma AnalyzeFieldValue(t: Table, groupCol: string, p: nat, c: nat, m: nat)
    requires t.WellFormed() && groupCol in t.columns
    requires forall a, b :: 0 <= a < b < |t.columns| ==> t.columns[a] != t.columns[b]
    requires AnalyzeResult(Frame(t), groupCol).Ok? && p < |AnalyzeResult(Frame(t), groupCol).value|
    requires c < |t.columns| && t.kinds[c] == Numeric && m < |StatNames|
    ensures var row := AnalyzeResult(Frame(t), groupCol).value[p];
            var x := FieldName(t.columns[c], StatNames[m]);
            && x in row.fields
            && row.fields[x] == Items(Helper(ColumnSeries(GroupOf(t.rows, GroupColumn(t, groupCol), row.group), c)))[m].1
  {
    var j := GroupColumn(t, groupCol);
    var keys := GroupKeys(ColumnCells(t.rows, j));
    AnalyzeOk(t, groupCol);
    GroupRowsAt(t, j, keys, p);
    GroupRowOfValue(t, j, keys[p], c, m);
  }

  /** The table of `TestAnalyze`: two patients alive aged 50 and 60, two dead aged 70
      and 80. */
  const StatusAges: Table := Table(
    ["patient_status", "age"], [NonNumeric, Numeric],
    [[Some(Text("Alive")), Some(Num(50))], [Some(Text("Alive")), Some(Num(60))],
     [Some(Text("Dead")), Some(Num(70))], [Some(Text("Dead")), Some(Num(80))]])

  /** The statuses of `StatusAges`, as `groupby` orders them. */
  lemma StatusKeys()
    ensures GroupKeys(ColumnCells(StatusAges.rows, 0)) == [Text("Alive"), Text("Dead")]
  {
    var rows := StatusAges.rows;
    var alive, dead := Text("Alive"), Text("Dead");
    assert rows[0][0] == Some(alive) && rows[1][0] == Some(alive);
    assert rows[2][0] == Some(dead) && rows[3][0] == Some(dead);
    assert StrLess("Alive", "Dead");
    TwoKeys(rows, 0, alive, dead, 0, 2);
  }

  /** `StatusAges` is a well-formed table: its age column holds numbers only. */
  lemma StatusAgesWellFormed()
    ensures StatusAges.WellFormed()
  {
  }

  /** Grouping by the first column of a table whose keys there are `keys`. */
  lemma AnalyzeByFirstColumn(t: Table, keys: seq<Value>)
    requires t.WellFormed() && |t.columns| > 0
    requires GroupKeys(ColumnCells(t.rows, 0)) == keys && keys != []
    ensures AnalyzeResult(Frame(t), t.columns[0]) == Ok(GroupRows(t, 0, keys))
  {
    assert GroupColumn(t, t.columns[0]) == 0;
    AnalyzeOk(t, t.columns[0]);
  }

  /** `TestAnalyze`: the result has one row per status, `Alive` then `Dead`, with mean
      ages 55 and 75 in their flat `age_mean` fields. */
  lemma AnalyzeExample()
    ensures AnalyzeResult(Frame(StatusAges), "patient_status").Ok?
    ensures var rows := AnalyzeResult(Frame(StatusAges), "patient_status").value;
            && Groups(rows) == [Text("Alive"), Text("Dead")]
            && "age_mean" in rows[0].fields && rows[0].fields["age_mean"] == RealStat(55.0)
            && "age_mean" in rows[1].fields && rows[1].fields["age_mean"] == RealStat(75.0)
  {
    var t := StatusAges;
    var keys := [Text("Alive"), Text("Dead")];
    StatusKeys();
    StatusAgesWellFormed();
    assert t.columns[0] == "patient_status";
    AnalyzeByFirstColumn(t, keys);
    GroupRowsGroups(t, 0, keys);
    GroupRowsAt(t, 0, keys, 0);
    GroupRowsAt(t, 0, keys, 1);
    AliveRowMean();
    DeadRowMean();
  }

  /** The `Alive` group of `StatusAges` is its first two rows. */
  lemma AliveGroup()
    ensures GroupOf(StatusAges.rows, 0, Text("Alive")) == StatusAges.rows[..2]
  {
    var rows := StatusAges.rows;
    assert rows[3..][1..] == [];
    assert rows[2..][1..] == rows[3..];
    assert rows[1..][1..] == rows[2..];
    assert GroupOf(rows[3..], 0, Text("Alive")) == [];
    assert GroupOf(rows[2..], 0, Text("Alive")) == [];
    assert GroupOf(rows[1..], 0, Text("Alive")) == [rows[1]];
  }

  /** The `Dead` group of `StatusAges` is its last two rows. */
  lemma DeadGroup()
    ensures GroupOf(StatusAges.rows, 0, Text("Dead")) == StatusAges.rows[2..]
  {
    var rows := StatusAges.rows;
    assert rows[3..][1..] == [];
    assert rows[2..][1..] == rows[3..];
    assert rows[1..][1..] == rows[2..];
    assert GroupOf(rows[3..], 0, Text("Dead")) == [rows[3]];
    assert GroupOf(rows[2..], 0, Text("Dead")) == rows[2..];
    assert GroupOf(rows[1..], 0, Text("Dead")) == rows[2..];
  }

  /** `helper` on two present values: mean and median are both their midpoint. */
  lemma HelperPair(a: int, b: int)
    ensures Helper([Some(a), Some(b)]).mean == RealStat((a + b) as real / 2.0)
    ensures Helper([Some(a), Some(b)]).median == RealStat((a + b) as real / 2.0)
  {
    var s: seq<Option<int>> := [Some(a), Some(b)];
    assert s[1..] == [Some(b)] && s[1..][1..] == [];
    assert Present(s) == [a, b];
    PairCentre(a, b);
  }

  /** A group whose ages are `a` and `b` gets their midpoint as `age_mean`. */
  lemma AgeMeanOf(t: Table, key: Value, a: int, b: int)
    requires t.Shaped() && |t.columns| == 2 && t.columns[0] != t.columns[1]
    requires t.columns[1] == "age" && t.kinds[1] == Numeric
    requires ColumnSeries(GroupOf(t.rows, 0, key), 1) == [Some(a), Some(b)]
    ensures var fields := GroupRowOf(t, 0, key).fields;
            "age_mean" in fields && fields["age_mean"] == RealStat((a + b) as real / 2.0)
  {
    assert StatNames[1] == "mean";
    assert FieldName("age", "mean") == "age_mean";
    GroupRowOfValue(t, 0, key, 1, 1);
    HelperPair(a, b);
  }

  /** The row built for the `Alive` group of `StatusAges` holds `age_mean` = 55. */
  lemma AliveRowMean()
    ensures StatusAges.Shaped()
    ensures var fields := GroupRowOf(StatusAges, 0, Text("Alive")).fields;
            "age_mean" in fields && fields["age_mean"] == RealStat(55.0)
  {
    var t := StatusAges;
    AliveGroup();
    assert ColumnSeries(t.rows[..2], 1) == [Some(50), Some(60)];
    AgeMeanOf(t, Text("Alive"), 50, 60);
  }

  /** The row built for the `Dead` group of `StatusAges` holds `age_mean` = 75. */
  lemma DeadRowMean()
    ensures StatusAges.Shaped()
    ensures var fields := GroupRowOf(StatusAges, 0, Text("Dead")).fields;
            "age_mean" in fields && fields["age_mean"] == RealStat(75.0)
  {
    var t := StatusAges;
    DeadGroup();
    assert ColumnSeries(t.rows[2..], 1) == [Some(70), Some(80)];
    AgeMeanOf(t, Text("Dead"), 70, 80);
  }

  // ---------------------------------------------------------------- run_kmeans guards

  /** The checks `run_kmeans` makes before fitting: a non-table is a type error, and a
      table with fewer rows than clusters is a value error. */
  function RunKmeansGuard(df: Arg, nClusters: int := 2): (o: Outcome)
    ensures df.NotFrame? ==> o == Fail(TypeError("Expected a DataFrame of scaled features"))
    ensures df.Frame? ==> (o.Pass? <==> |df.table.rows| >= nClusters)
    ensures df.Frame? && o.Fail? ==> o.error == TooFewRows(nClusters, |df.table.rows|)
  {
    match df
    case NotFrame(_) => Fail(TypeError("Expected a DataFrame of scaled features"))
    case Frame(t) => if |t.rows| < nClusters then Fail(TooFewRows(nClusters, |t.rows|)) else Pass
  }
}
