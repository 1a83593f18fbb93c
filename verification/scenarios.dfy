/** Concrete cells worked through the cleaning rule. */
module CellScenarios {
  import opened Wrappers
  import opened Cleaning

  /** A cell holding only a dash, or only a `B` between spaces, has nothing
      left and becomes missing. */
  lemma NothingLeftIsMissing()
    ensures CleanValue(Some("\U{2014}")) == None
    ensures CleanValue(Some(" B ")) == None
  {
    assert IsBlank("\U{2014}");
    assert IsBlank(" B ");
  }

  /** The capital `B` goes and the lower-case `b` stays. */
  lemma OnlyCapitalB()
    ensures CleanValue(Some("Bb")) == Some("b")
  {
    assert Scrub("Bb") == "Bb";
    assert DropB("Bb") == "b";
    assert NoOuterSpace("b");
  }
}

/** Concrete headers worked through the found / rejected / stored decision. */
module RunScenarios {
  import opened Wrappers
  import opened Pipeline

  /** SQLite compares column names without regard to ASCII case, so a
      header that has both `Song` and `song` is refused by the write. */
  lemma CaseOnlyClashIsRejected()
    ensures Run(Some(Extracted(["R", "Song", "song", "S"], [[]]))).WriteRejected?
  {
    var columns := ["R", "Song", "song", "S"];
    assert SameSqlName(columns[1], columns[2]);
    assert !DistinctSqlNames(columns);
  }

  /** pandas refuses an empty header name, as an empty `<th>` gives, before
      SQLite sees the table. */
  lemma EmptyNameIsRejected()
    ensures Run(Some(Extracted(["R", "", "A", "S"], [[]]))).WriteRejected?
  {
  }
}
