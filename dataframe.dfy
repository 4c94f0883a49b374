/** convert_results_to_df (lib/dataframe.py): the rows returned by the
    query service become a table whose header is the first row and whose
    data are the remaining rows. pandas is modelled by the part of its
    DataFrame constructor this call relies on: list rows shorter than the
    widest are padded with None, and the widest row must be exactly as
    wide as the header. */
module DataFrame {
  import opened Common

  /** One row of the service's result set: for each cell, its
      VarCharValue, or None when the cell has no such key. */
  datatype ResultRow = ResultRow(data: seq<Option<string>>)

  /** A DataFrame: column names and data rows. */
  datatype Table = Table(header: seq<string>, rows: seq<seq<Value>>)

  /** Every data row is exactly as wide as the header. */
  predicate WellFormed(t: Table)
  {
    forall k :: 0 <= k < |t.rows| ==> |t.rows[k]| == |t.header|
  }

  /** pandas' `df.empty`: no rows or no columns. */
  predicate Empty(t: Table)
  {
    |t.rows| == 0 || |t.header| == 0
  }

  /** The width of the widest row, 0 for no rows. */
  function MaxWidth(rows: seq<seq<Value>>): (w: nat)
    ensures forall k :: 0 <= k < |rows| ==> |rows[k]| <= w
    ensures |rows| > 0 ==> exists k :: 0 <= k < |rows| && |rows[k]| == w
    ensures |rows| == 0 ==> w == 0
    decreases |rows|
  {
    if |rows| == 0 then 0
    else
      var w := MaxWidth(rows[..|rows| - 1]);
      var last := |rows[|rows| - 1]|;
      if last > w then last else w
  }

  /** A row padded with None up to width n. */
  function Pad(row: seq<Value>, n: nat): (r: seq<Value>)
    requires |row| <= n
    ensures |r| == n
    ensures r[..|row|] == row
    ensures forall j :: |row| <= j < n ==> r[j] == None
  {
    row + seq(n - |row|, _ => None)
  }

  /** pd.DataFrame(dataRows, columns=header). */
  function Frame(dataRows: seq<seq<Value>>, header: seq<string>): (r: Result<Table>)
    ensures r.Ok? ==> WellFormed(r.value) && r.value.header == header && |r.value.rows| == |dataRows|
  {
    if |dataRows| > 0 && MaxWidth(dataRows) != |header| then
      Err(ValueError("columns passed do not match the data"))
    else
      Ok(Table(header, seq(|dataRows|, k requires 0 <= k < |dataRows| => Pad(dataRows[k], |header|))))
  }

  /** The header row has a cell without VarCharValue. */
  predicate HeaderCellMissing(first: ResultRow)
  {
    exists j :: 0 <= j < |first.data| && first.data[j].None?
  }

  /** What convert_results_to_df returns or raises: no table for no rows,
      a KeyError for a header cell without a value, and otherwise the
      table built from the header names and the data rows. */
  function Convert(rows: seq<ResultRow>): (r: Result<Option<Table>>)
    ensures r.Ok? && r.value.Some? ==> WellFormed(r.value.value)
  {
    if |rows| == 0 then Ok(None)
    else if HeaderCellMissing(rows[0]) then Err(KeyError("VarCharValue"))
    else
      var header := seq(|rows[0].data|, j requires 0 <= j < |rows[0].data| => rows[0].data[j].value);
      var dataRows := seq(|rows| - 1, k requires 0 <= k < |rows| - 1 => rows[k + 1].data);
      match Frame(dataRows, header)
      case Err(e) => Err(e)
      case Ok(t) => Ok(Some(t))
  }

  /** Converting the service's rows: empty input gives no table; the header
      holds the first row's values in order; the data rows are the other
      rows in order, with every cell kept in place, missing values and
      padding as None; and the errors happen exactly when a header cell has
      no value or the widest data row is not as wide as the header. */
  lemma ConvertSpec(rows: seq<ResultRow>)
    ensures Convert(rows) == Ok(None) <==> |rows| == 0
    ensures |rows| > 0 && HeaderCellMissing(rows[0]) <==> Convert(rows) == Err(KeyError("VarCharValue"))
    ensures Convert(rows).Err? && Convert(rows).error.ValueError? <==>
              && |rows| > 1 && !HeaderCellMissing(rows[0])
              && ((exists k :: 1 <= k < |rows| && |rows[k].data| > |rows[0].data|)
                  || (forall k :: 1 <= k < |rows| ==> |rows[k].data| < |rows[0].data|))
    ensures Convert(rows).Ok? && Convert(rows).value.Some? ==>
              var t := Convert(rows).value.value;
              && WellFormed(t)
              && |t.header| == |rows[0].data|
              && (forall j :: 0 <= j < |t.header| ==> Some(t.header[j]) == rows[0].data[j])
              && |t.rows| == |rows| - 1
              && forall k, j :: 0 <= k < |t.rows| && 0 <= j < |t.header| ==>
                   t.rows[k][j] == (if j < |rows[k + 1].data| then rows[k + 1].data[j] else None)
  {
    if |rows| > 0 && !HeaderCellMissing(rows[0]) {
      var n := |rows[0].data|;
      var dataRows := seq(|rows| - 1, k requires 0 <= k < |rows| - 1 => rows[k + 1].data);
      if |rows| > 1 {
        var w := MaxWidth(dataRows);
        if w != n {
          var k :| 0 <= k < |dataRows| && |dataRows[k]| == w;
          if w > n {
            assert |rows[k + 1].data| > n;
          } else {
            forall k | 1 <= k < |rows| ensures |rows[k].data| < n {
              assert |dataRows[k - 1]| <= w;
            }
          }
        } else {
          forall k | 1 <= k < |rows| ensures |rows[k].data| <= n {
            assert |dataRows[k - 1]| <= w;
          }
          assert |rows[1].data| < n ==> |dataRows[0]| < w;
        }
      }
    }
  }

  /** A result with a header row and nothing else is a table with columns
      and no rows, which is not the "no table" of an empty result. */
  lemma HeaderOnly(first: ResultRow)
    requires !HeaderCellMissing(first)
    ensures Convert([first]).Ok? && Convert([first]).value.Some?
    ensures Empty(Convert([first]).value.value)
    ensures |Convert([first]).value.value.header| == |first.data|
  {
  }

  /** convert_results_to_df, with its loop over the data rows. */
  method ConvertResultsToDf(rows: seq<ResultRow>) returns (r: Result<Option<Table>>)
    ensures r == Convert(rows)
  {
    if |rows| == 0 {
      return Ok(None);
    }
    var first := rows[0].data;
    if exists j :: 0 <= j < |first| && first[j].None? {
      return Err(KeyError("VarCharValue"));
    }
    var headers := seq(|first|, j requires 0 <= j < |first| => first[j].value);
    var dataRows: seq<seq<Value>> := [];
    for i := 1 to |rows|
      invariant |dataRows| == i - 1
      invariant forall k :: 0 <= k < i - 1 ==> dataRows[k] == rows[k + 1].data
    {
      dataRows := dataRows + [rows[i].data];
    }
    assert dataRows == seq(|rows| - 1, k requires 0 <= k < |rows| - 1 => rows[k + 1].data);
    assert !HeaderCellMissing(rows[0]);
    assert headers == seq(|rows[0].data|, j requires 0 <= j < |rows[0].data| => rows[0].data[j].value);
    match Frame(dataRows, headers)
    case Err(e) => r := Err(e);
    case Ok(t) => r := Ok(Some(t));
  }

  /** df[header[j]].to_list() for a column whose name is unique. */
  function Column(t: Table, j: nat): (c: seq<Value>)
    requires WellFormed(t) && j < |t.header|
    ensures |c| == |t.rows|
    ensures forall k :: 0 <= k < |c| ==> c[k] == t.rows[k][j]
  {
    seq(|t.rows|, k requires 0 <= k < |t.rows| => t.rows[k][j])
  }

  /** The first n columns, each top to bottom, one after the other. */
  function ColumnsUpTo(t: Table, n: nat): seq<Value>
    requires WellFormed(t) && n <= |t.header|
  {
    if n == 0 then [] else ColumnsUpTo(t, n - 1) + Column(t, n - 1)
  }

  /** The first n columns hold n values per row. */
  lemma {:induction false} ColumnsUpToLength(t: Table, n: nat)
    requires WellFormed(t) && n <= |t.header|
    ensures |ColumnsUpTo(t, n)| == n * |t.rows|
  {
    if n > 0 {
      ColumnsUpToLength(t, n - 1);
      assert n * |t.rows| == (n - 1) * |t.rows| + |t.rows|;
    }
  }

  /** Column by column, cell (k, j) sits at position j * rows + k. */
  lemma {:induction false} ColumnsUpToCell(t: Table, n: nat, j: nat, k: nat)
    requires WellFormed(t) && n <= |t.header|
    requires j < n && k < |t.rows|
    ensures j * |t.rows| + k < |ColumnsUpTo(t, n)|
    ensures ColumnsUpTo(t, n)[j * |t.rows| + k] == t.rows[k][j]
  {
    var R := |t.rows|;
    ColumnsUpToLength(t, n);
    ColumnsUpToLength(t, n - 1);
    var prev := ColumnsUpTo(t, n - 1);
    assert ColumnsUpTo(t, n) == prev + Column(t, n - 1);
    if j < n - 1 {
      ColumnsUpToCell(t, n - 1, j, k);
      MulStep(j, n - 1, R);
    } else {
      assert j * R + k - |prev| == k;
    }
  }

  /** j < m gives j * R + R <= m * R. */
  lemma MulStep(j: nat, m: nat, R: nat)
    requires j < m
    ensures j * R + R <= m * R
  {
    var d := m - j - 1;
    assert m * R == j * R + R + d * R;
  }

  /** Every value of a table, column by column in column order. */
  function AllColumnValues(t: Table): seq<Value>
    requires WellFormed(t)
  {
    ColumnsUpTo(t, |t.header|)
  }

  /** A table that is not empty has at least one value. */
  lemma AllColumnValuesNonEmpty(t: Table)
    requires WellFormed(t) && !Empty(t)
    ensures |AllColumnValues(t)| == |t.header| * |t.rows| > 0
  {
    ColumnsUpToLength(t, |t.header|);
    MulStep(0, |t.header|, |t.rows|);
  }

  /** Some column name occurs twice: df[name] is then a frame, not a
      column. */
  predicate HasDuplicateColumn(header: seq<string>)
  {
    exists i, j :: 0 <= i < j < |header| && header[i] == header[j]
  }
}
