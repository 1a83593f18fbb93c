/** The DataFrame steps of the pipeline, on a table held as a sequence of
    rows of cells: the `[1:26]` row window, the cell-wise `df.map(clean_value)`
    and the two `dropna` row filters. */
module Tables {
  import opened Sequences
  import opened Cleaning

  type Row = seq<Cell>
  type Table = seq<Row>

  /** Position of the label (song name) column. */
  const LabelColumn: nat := 1
  /** Position of the metric (stream count) column. */
  const MetricColumn: nat := 3

  /** First and one-past-last row positions of the data window `[1:26]`;
      position 0 is the header row. */
  const WindowStart: nat := 1
  const WindowStop: nat := 26

  function Min(a: nat, b: nat): nat {
    if a <= b then a else b
  }

  /** Python's `s[start:stop]` for non-negative bounds: both bounds are
      clamped to the length, and a stop before the start gives nothing. */
  function Slice<T>(s: seq<T>, start: nat, stop: nat): (r: seq<T>)
    ensures |r| == if Min(stop, |s|) <= Min(start, |s|) then 0 else Min(stop, |s|) - Min(start, |s|)
    ensures forall k :: 0 <= k < |r| ==> start + k < |s| && r[k] == s[start + k]
  {
    var lo := Min(start, |s|);
    var hi := Min(stop, |s|);
    if hi <= lo then [] else s[lo..hi]
  }

  /** The data rows `table.find_all("tr")[1:26]`. */
  function Window<T>(rows: seq<T>): (r: seq<T>)
  {
    Slice(rows, WindowStart, WindowStop)
  }

  /** The window holds at most 25 rows: exactly the rows at positions
      1 .. min(25, n - 1), in order, and never the header row. */
  lemma WindowRows<T>(rows: seq<T>)
    ensures |Window(rows)| <= 25
    ensures |Window(rows)| == if |rows| <= 1 then 0 else Min(25, |rows| - 1)
    ensures forall k :: 0 <= k < |Window(rows)| ==> Window(rows)[k] == rows[k + 1]
  {
  }

  /** Every row has exactly `width` cells. */
  predicate Rectangular(t: Table, width: nat) {
    forall i :: 0 <= i < |t| ==> |t[i]| == width
  }

  /** Every cell is missing or has the shape of a cleaned value. */
  predicate IsCleanCell(c: Cell) {
    c.Some? ==> |c.value| > 0 && IsCleanText(c.value)
  }

  /** Every cell of the table is clean. */
  predicate AllClean(t: Table) {
    forall i, j :: 0 <= i < |t| && 0 <= j < |t[i]| ==> IsCleanCell(t[i][j])
  }

  /** `clean_value` applied to every cell of one row. */
  function CleanRow(row: Row): (r: Row)
    ensures |r| == |row|
    ensures forall j :: 0 <= j < |row| ==> r[j] == CleanValue(row[j])
    decreases |row|
  {
    if |row| == 0 then [] else [CleanValue(row[0])] + CleanRow(row[1..])
  }

  /** `df.map(clean_value)`: same number of rows, same row lengths, and
      cell (i, j) of the result is the cleaned cell (i, j) of the input. */
  function CleanTable(t: Table): (r: Table)
    ensures |r| == |t|
    ensures forall i :: 0 <= i < |t| ==> |r[i]| == |t[i]|
    ensures forall i, j :: 0 <= i < |t| && 0 <= j < |t[i]| ==> r[i][j] == CleanValue(t[i][j])
    decreases |t|
  {
    if |t| == 0 then [] else [CleanRow(t[0])] + CleanTable(t[1..])
  }

  /** Every cell of a cleaned table is clean, and the table keeps its width. */
  lemma CleanTableShape(t: Table, width: nat)
    requires Rectangular(t, width)
    ensures Rectangular(CleanTable(t), width)
    ensures AllClean(CleanTable(t))
  {
  }

  /** Cleaning a cleaned table changes nothing. */
  lemma CleanTableIdempotent(t: Table)
    ensures CleanTable(CleanTable(t)) == CleanTable(t)
  {
    var c := CleanTable(t);
    forall i | 0 <= i < |c| ensures CleanTable(c)[i] == c[i] {
      forall j | 0 <= j < |c[i]| ensures CleanTable(c)[i][j] == c[i][j] {
        CleanValueIdempotent(t[i][j]);
      }
    }
  }

  /** `dropna`'s test for one row: every column whose header NAME is in
      `subset` holds a value (pandas selects the subset by label, so a
      name shared by several columns selects all of them). */
  predicate HasValues(columns: seq<string>, subset: set<string>, row: Row) {
    forall j :: 0 <= j < |row| && j < |columns| && columns[j] in subset ==> row[j].Some?
  }

  /** `df.dropna(subset=...)`: the rows passing `HasValues`, in order. */
  function Dropna(columns: seq<string>, subset: set<string>, t: Table): (r: Table)
  {
    Filter(row => HasValues(columns, subset, row), t)
  }

  /** The row has a value in both the label and the metric column. */
  predicate HasLabelAndMetric(row: Row) {
    |row| > MetricColumn && row[LabelColumn].Some? && row[MetricColumn].Some?
  }

  /** The header names that `df.columns[1]` and `df.columns[3]` denote. */
  function LabelAndMetricNames(columns: seq<string>): set<string>
    requires |columns| > MetricColumn
  {
    {columns[LabelColumn], columns[MetricColumn]}
  }

  /** Every row the label/metric `dropna` keeps has both values, whatever
      the header names; kept rows are rows of the input, in their original
      order, so the width and the cleanliness of the cells carry over. */
  lemma DropnaKeepsLabelAndMetric(columns: seq<string>, t: Table)
    requires |columns| > MetricColumn && Rectangular(t, |columns|)
    ensures forall i :: 0 <= i < |Dropna(columns, LabelAndMetricNames(columns), t)| ==>
      HasLabelAndMetric(Dropna(columns, LabelAndMetricNames(columns), t)[i])
    ensures IsSubsequence(Dropna(columns, LabelAndMetricNames(columns), t), t)
    ensures |Dropna(columns, LabelAndMetricNames(columns), t)| <= |t|
    ensures Rectangular(Dropna(columns, LabelAndMetricNames(columns), t), |columns|)
    ensures AllClean(t) ==> AllClean(Dropna(columns, LabelAndMetricNames(columns), t))
  {
    var r := Dropna(columns, LabelAndMetricNames(columns), t);
    FilterMembership(row => HasValues(columns, LabelAndMetricNames(columns), row), t);
    FilterIsSubsequence(row => HasValues(columns, LabelAndMetricNames(columns), row), t);
    FilterSatisfies(row => HasValues(columns, LabelAndMetricNames(columns), row), t);
    forall i | 0 <= i < |r| ensures r[i] in t && |r[i]| == |columns| && HasLabelAndMetric(r[i]) {
      assert r[i] in t;
      assert HasValues(columns, LabelAndMetricNames(columns), r[i]);
    }
    if AllClean(t) {
      forall i, j | 0 <= i < |r| && 0 <= j < |r[i]| ensures IsCleanCell(r[i][j]) {
        var k :| 0 <= k < |t| && t[k] == r[i];
      }
    }
  }

  /** No column other than 1 and 3 carries the label's or the metric's
      header name (columns 1 and 3 may share one). */
  predicate OnlyLabelAndMetricNamed(columns: seq<string>)
    requires |columns| > MetricColumn
  {
    forall j :: 0 <= j < |columns| && j != LabelColumn && j != MetricColumn ==>
      columns[j] != columns[LabelColumn] && columns[j] != columns[MetricColumn]
  }

  /** When no other column carries the label's or the metric's header
      name, the label/metric `dropna` is exactly the positional filter on
      columns 1 and 3. */
  lemma {:induction false} DropnaIsPositional(columns: seq<string>, t: Table)
    requires |columns| > MetricColumn && Rectangular(t, |columns|)
    requires OnlyLabelAndMetricNamed(columns)
    ensures Dropna(columns, LabelAndMetricNames(columns), t) == Filter(HasLabelAndMetric, t)
  {
    var names := LabelAndMetricNames(columns);
    forall i | 0 <= i < |t|
      ensures (row => HasValues(columns, names, row))(t[i]) == HasLabelAndMetric(t[i])
    {
      assert forall j :: 0 <= j < |columns| ==> (columns[j] in names <==> j == LabelColumn || j == MetricColumn);
    }
    FilterCongruence(row => HasValues(columns, names, row), HasLabelAndMetric, t);
  }

  /** The second `dropna`, on the metric column alone, removes nothing
      from the result of the first. */
  lemma MetricRecheckIsNoOp(columns: seq<string>, t: Table)
    requires |columns| > MetricColumn
    ensures Dropna(columns, {columns[MetricColumn]}, Dropna(columns, LabelAndMetricNames(columns), t))
         == Dropna(columns, LabelAndMetricNames(columns), t)
  {
    FilterAbsorbs(row => HasValues(columns, LabelAndMetricNames(columns), row),
                  row => HasValues(columns, {columns[MetricColumn]}, row), t);
  }
}
