/** The normalizer end to end: from the texts extracted from the located
    table to the rows that are persisted. */
module Pipeline {
  import opened Wrappers
  import opened Sequences
  import opened Cleaning
  import opened Tables

  /** What the script reads from the located table: the header names (the
      stripped texts of the first row's header cells) and, for every table
      row including the first, the stripped texts of its cells. */
  datatype Extracted = Extracted(columns: seq<string>, rows: seq<seq<string>>)

  /** The script's three endings: no matching table; a table whose header
      names cannot be the columns of one SQLite table, so `to_sql` raises
      and nothing is written; or the cleaned rows written under the header
      names. */
  datatype Outcome =
    | TableNotFound
    | WriteRejected(columns: seq<string>)
    | Stored(columns: seq<string>, rows: Table)

  /** The extracted texts as DataFrame cells: every text is present. */
  function ToCells(rows: seq<seq<string>>): (t: Table)
    ensures |t| == |rows|
    ensures forall i :: 0 <= i < |rows| ==> |t[i]| == |rows[i]|
    ensures forall i, j :: 0 <= i < |rows| && 0 <= j < |rows[i]| ==> t[i][j] == Some(rows[i][j])
  {
    seq(|rows|, i requires 0 <= i < |rows| => seq(|rows[i]|, j requires 0 <= j < |rows[i]| => Some(rows[i][j])))
  }

  /** What the script needs of the extraction to get past its indexing:
      a first row to read the header from, a fourth column for
      `df.columns[3]`, and every windowed row as wide as the header. */
  predicate WellFormed(x: Extracted) {
    && |x.rows| > 0
    && |x.columns| > MetricColumn
    && forall i :: 0 <= i < |Window(x.rows)| ==> |Window(x.rows)[i]| == |x.columns|
  }

  /** The cleaned DataFrame before any row is dropped. */
  function Cleaned(x: Extracted): Table {
    CleanTable(ToCells(Window(x.rows)))
  }

  /** Window, clean every cell, drop rows missing the label or the metric,
      then re-check the metric. The result holds at most 25 rows, each as
      wide as the header, each cell missing or clean, each with a label and
      a metric; its rows are rows of the cleaned window in their order. */
  function Normalize(x: Extracted): (t: Table)
    requires WellFormed(x)
    ensures |t| <= WindowStop - WindowStart
    ensures Rectangular(t, |x.columns|)
    ensures AllClean(t)
    ensures forall i :: 0 <= i < |t| ==> HasLabelAndMetric(t[i])
    ensures IsSubsequence(t, Cleaned(x))
  {
    var cols := x.columns;
    var df := Cleaned(x);
    WindowRows(x.rows);
    CleanTableShape(ToCells(Window(x.rows)), |cols|);
    var kept := Dropna(cols, LabelAndMetricNames(cols), df);
    DropnaKeepsLabelAndMetric(cols, df);
    MetricRecheckIsNoOp(cols, df);
    Dropna(cols, {cols[MetricColumn]}, kept)
  }

  /** When no other column carries the label's or the metric's header
      name, a cleaned data row is persisted exactly when both its label and its
      metric are present, and the persisted rows keep the table's order. */
  lemma NormalizeIsPositionalFilter(x: Extracted)
    requires WellFormed(x)
    requires OnlyLabelAndMetricNamed(x.columns)
    ensures Normalize(x) == Filter(HasLabelAndMetric, Cleaned(x))
  {
    var cols := x.columns;
    CleanTableShape(ToCells(Window(x.rows)), |cols|);
    MetricRecheckIsNoOp(cols, Cleaned(x));
    DropnaIsPositional(cols, Cleaned(x));
  }

  /** SQLite's identifier comparison: ASCII letters fold to lower case,
      every other character compares as itself. */
  function FoldAscii(c: char): char {
    if 'A' <= c <= 'Z' then (c as int + ('a' as int - 'A' as int)) as char else c
  }

  /** Two header names that SQLite treats as the same column name. */
  predicate SameSqlName(a: string, b: string) {
    |a| == |b| && forall k :: 0 <= k < |a| ==> FoldAscii(a[k]) == FoldAscii(b[k])
  }

  /** `to_sql` creates one column per header name; SQLite rejects a table
      in which two of them are the same name. */
  predicate DistinctSqlNames(columns: seq<string>) {
    forall i, j :: 0 <= i < j < |columns| ==> !SameSqlName(columns[i], columns[j])
  }

  /** Every header name is one that `to_sql` can quote as an SQLite
      identifier: pandas refuses an empty name and a name holding a NUL
      character before any statement runs. */
  predicate QuotableNames(columns: seq<string>) {
    forall j :: 0 <= j < |columns| ==> |columns[j]| > 0 && '\0' !in columns[j]
  }

  /** The header names under which `to_sql` can create the table. */
  predicate SqlAcceptsNames(columns: seq<string>) {
    QuotableNames(columns) && DistinctSqlNames(columns)
  }

  /** Names that SQLite accepts as distinct are in particular distinct
      strings, so no other column shares the label's or the metric's name. */
  lemma DistinctSqlNamesAreUnshared(columns: seq<string>)
    requires |columns| > MetricColumn && DistinctSqlNames(columns)
    ensures OnlyLabelAndMetricNamed(columns)
  {
  }

  /** `if table: ... else: print(...)` followed by `to_sql`: nothing is
      stored when no table was found or when pandas or SQLite refuses
      the header names; otherwise the stored rows are exactly the cleaned window rows
      that have both a song name and a stream count, in their order, under
      the header names unchanged. */
  function Run(located: Option<Extracted>): (o: Outcome)
    requires located.Some? ==> WellFormed(located.value)
    ensures o.TableNotFound? <==> located.None?
    ensures o.WriteRejected? <==> located.Some? && !SqlAcceptsNames(located.value.columns)
    ensures !o.TableNotFound? ==> o.columns == located.value.columns
    ensures o.Stored? ==> o.rows == Filter(HasLabelAndMetric, Cleaned(located.value))
    ensures o.Stored? ==> IsSubsequence(o.rows, Cleaned(located.value)) && AllClean(o.rows)
    ensures o.Stored? ==> |o.rows| <= WindowStop - WindowStart
    ensures o.Stored? ==> forall i :: 0 <= i < |o.rows| ==> HasLabelAndMetric(o.rows[i])
  {
    match located
    case None => TableNotFound
    case Some(x) =>
      if !SqlAcceptsNames(x.columns) then WriteRejected(x.columns)
      else
        DistinctSqlNamesAreUnshared(x.columns);
        NormalizeIsPositionalFilter(x);
        Stored(x.columns, Normalize(x))
  }
}
