/** What `df.groupby(group_col)` does with its keys under pandas' defaults (`sort=True`,
    `dropna=True`): the groups are the distinct present values of the key column, in
    ascending order, and each group holds the rows carrying that key, in table order. */
module Grouping {
  import opened Frames

  /** Python's `<` on strings: code-point lexicographic order. */
  predicate StrLess(a: string, b: string) {
    if a == [] then b != []
    else if b == [] then false
    else if a[0] == b[0] then StrLess(a[1..], b[1..])
    else a[0] < b[0]
  }

  /** The order the sorted group keys follow: numbers by value, strings lexicographically,
      and numbers before strings. */
  predicate Less(a: Value, b: Value) {
    match (a, b)
    case (Num(x), Num(y)) => x < y
    case (Num(_), Text(_)) => true
    case (Text(_), Num(_)) => false
    case (Text(x), Text(y)) => StrLess(x, y)
  }

  lemma {:induction false} StrLessIrreflexive(a: string)
    ensures !StrLess(a, a)
  {
    if a != [] {
      StrLessIrreflexive(a[1..]);
    }
  }

  lemma {:induction false} StrLessTransitive(a: string, b: string, c: string)
    requires StrLess(a, b) && StrLess(b, c)
    ensures StrLess(a, c)
  {
    if a != [] && b != [] && c != [] && a[0] == b[0] && b[0] == c[0] {
      StrLessTransitive(a[1..], b[1..], c[1..]);
    }
  }

  lemma {:induction false} StrLessTotal(a: string, b: string)
    requires a != b
    ensures StrLess(a, b) || StrLess(b, a)
  {
    if a != [] && b != [] && a[0] == b[0] {
      assert a == [a[0]] + a[1..] && b == [b[0]] + b[1..];
      StrLessTotal(a[1..], b[1..]);
    }
  }

  /** `Less` is a strict total order on values. */
  lemma LessIsStrictTotalOrder(a: Value, b: Value, c: Value)
    ensures !Less(a, a)
    ensures Less(a, b) && Less(b, c) ==> Less(a, c)
    ensures a != b ==> Less(a, b) || Less(b, a)
  {
    if a.Text? {
      StrLessIrreflexive(a.s);
    }
    if a.Text? && b.Text? && c.Text? && StrLess(a.s, b.s) && StrLess(b.s, c.s) {
      StrLessTransitive(a.s, b.s, c.s);
    }
    if a.Text? && b.Text? && a != b {
      StrLessTotal(a.s, b.s);
    }
  }

  predicate StrictlySorted(keys: seq<Value>) {
    forall i, j :: 0 <= i < j < |keys| ==> Less(keys[i], keys[j])
  }

  /** Adds one key to an ascending list of distinct keys. */
  function InsertKey(keys: seq<Value>, v: Value): (r: seq<Value>)
    requires StrictlySorted(keys)
    ensures StrictlySorted(r)
    ensures forall x :: x in r <==> x in keys || x == v
  {
    if keys == [] then [v]
    else if v == keys[0] then keys
    else
      LessIsStrictTotalOrder(v, keys[0], v);
      if Less(v, keys[0]) then
        assert forall j :: 0 < j < |keys| ==> Less(v, keys[j]) by {
          forall j | 0 < j < |keys|
            ensures Less(v, keys[j])
          {
            LessIsStrictTotalOrder(v, keys[0], keys[j]);
          }
        }
        [v] + keys
      else
        assert keys == [keys[0]] + keys[1..];
        var rest := InsertKey(keys[1..], v);
        assert forall k :: 0 <= k < |rest| ==> Less(keys[0], rest[k]) by {
          forall k | 0 <= k < |rest|
            ensures Less(keys[0], rest[k])
          {
            assert rest[k] in rest;
          }
        }
        [keys[0]] + rest
  }

  /** The group keys of a key column: its distinct present values, ascending. */
  function GroupKeys(column: seq<Cell>): (keys: seq<Value>)
    ensures StrictlySorted(keys)
    ensures forall v :: v in keys <==> Some(v) in column
  {
    if column == [] then []
    else
      var init := column[..|column| - 1];
      assert column == init + [column[|column| - 1]];
      match column[|column| - 1]
      case None => GroupKeys(init)
      case Some(v) => InsertKey(GroupKeys(init), v)
  }

  /** Strictly sorted keys are pairwise distinct, so each group appears once. */
  lemma SortedKeysDistinct(keys: seq<Value>)
    requires StrictlySorted(keys)
    ensures forall i, j :: 0 <= i < |keys| && 0 <= j < |keys| && i != j ==> keys[i] != keys[j]
  {
    forall i, j | 0 <= i < |keys| && 0 <= j < |keys| && i != j
      ensures keys[i] != keys[j]
    {
      LessIsStrictTotalOrder(keys[i], keys[j], keys[i]);
    }
  }

  /** A strictly sorted sequence holding exactly two values, in order, is those two. */
  lemma SortedPair(keys: seq<Value>, a: Value, b: Value)
    requires StrictlySorted(keys) && Less(a, b)
    requires a in keys && b in keys
    requires forall v :: v in keys ==> v == a || v == b
    ensures keys == [a, b]
  {
    SortedKeysDistinct(keys);
    LessIsStrictTotalOrder(a, b, a);
    var i :| 0 <= i < |keys| && keys[i] == a;
    var k :| 0 <= k < |keys| && keys[k] == b;
    forall x | 0 <= x < |keys|
      ensures keys[x] == a || keys[x] == b
    {
      assert keys[x] in keys;
    }
    NoThirdKey(keys, a, b);
    if i > k {
      LessIsStrictTotalOrder(b, a, b);
    }
  }

  /** Three ascending keys cannot all be drawn from two values. */
  lemma NoThirdKey(keys: seq<Value>, a: Value, b: Value)
    requires StrictlySorted(keys) && Less(a, b)
    ensures |keys| >= 3 ==> !(keys[0] in {a, b} && keys[1] in {a, b} && keys[2] in {a, b})
  {
    LessIsStrictTotalOrder(a, b, a);
    LessIsStrictTotalOrder(b, a, b);
  }

  /** The cells of column `j`, one per row. */
  function ColumnCells(rows: seq<Row>, j: nat): (r: seq<Cell>)
    requires forall row :: row in rows ==> j < |row|
    ensures |r| == |rows| && forall i :: 0 <= i < |rows| ==> r[i] == rows[i][j]
  {
    seq(|rows|, i requires 0 <= i < |rows| => rows[i][j])
  }

  /** In terms of the rows: the group keys of column `j` are the values some row holds
      there, and there are none exactly when every row's cell there is missing. */
  lemma GroupKeysOfColumn(rows: seq<Row>, j: nat)
    requires forall row :: row in rows ==> j < |row|
    ensures var keys := GroupKeys(ColumnCells(rows, j));
            && (keys == [] <==> forall i :: 0 <= i < |rows| ==> rows[i][j].None?)
            && forall v :: v in keys <==> exists i :: 0 <= i < |rows| && rows[i][j] == Some(v)
  {
    var column := ColumnCells(rows, j);
    var keys := GroupKeys(column);
    forall v
      ensures v in keys <==> exists i :: 0 <= i < |rows| && rows[i][j] == Some(v)
    {
      if v in keys {
        var i :| 0 <= i < |column| && column[i] == Some(v);
      }
      if exists i :: 0 <= i < |rows| && rows[i][j] == Some(v) {
        var i :| 0 <= i < |rows| && rows[i][j] == Some(v);
        assert column[i] == Some(v);
      }
    }
    if keys != [] {
      assert keys[0] in keys;
    }
  }

  /** A key column holding two values `a < b` and nothing else has exactly the groups
      `a` and `b`, in that order. */
  lemma TwoKeys(rows: seq<Row>, j: nat, a: Value, b: Value, ia: nat, ib: nat)
    requires forall row :: row in rows ==> j < |row|
    requires Less(a, b)
    requires ia < |rows| && rows[ia][j] == Some(a)
    requires ib < |rows| && rows[ib][j] == Some(b)
    requires forall i :: 0 <= i < |rows| ==> rows[i][j] in {None, Some(a), Some(b)}
    ensures GroupKeys(ColumnCells(rows, j)) == [a, b]
  {
    GroupKeysOfColumn(rows, j);
    var keys := GroupKeys(ColumnCells(rows, j));
    forall v | v in keys
      ensures v == a || v == b
    {
      var i :| 0 <= i < |rows| && rows[i][j] == Some(v);
    }
    SortedPair(keys, a, b);
  }

  /** The rows of the group with key `key` in column `j`, in table order. */
  function GroupOf(rows: seq<Row>, j: nat, key: Value): (g: seq<Row>)
    requires forall row :: row in rows ==> j < |row|
    ensures |g| <= |rows|
    ensures forall row {:trigger row in g} :: row in g <==> row in rows && row[j] == Some(key)
  {
    if rows == [] then []
    else
      var rest := GroupOf(rows[1..], j, key);
      assert rows == [rows[0]] + rows[1..];
      if rows[0][j] == Some(key) then [rows[0]] + rest else rest
  }

  /** The groups are taken in table order: grouping distributes over concatenation. */
  lemma {:induction false} GroupOfAppend(a: seq<Row>, b: seq<Row>, j: nat, key: Value)
    requires forall row :: row in a + b ==> j < |row|
    ensures GroupOf(a + b, j, key) == GroupOf(a, j, key) + GroupOf(b, j, key)
  {
    if a != [] {
      assert (a + b)[1..] == a[1..] + b;
      GroupOfAppend(a[1..], b, j, key);
    } else {
      assert a + b == b;
    }
  }
}
