# Spotify streaming-records table normalizer, in Dafny

This project models the normalizer of a small scraping script
(`src/app.py`). The script reads the first `wikitable` of a Wikipedia page
and takes the header names from the first table row. It keeps the rows at
positions 1 to 25 as data. Every cell goes through `clean_value`, and
rows missing the song name (column 1) or the stream count (column 3) are
dropped. The result is written to SQLite and plotted.

The model is functional. A cell is `Option<string>`, where `None` is the
missing marker. A table is `seq<seq<Option<string>>>`. Every step is a pure
function. The modules follow the pipeline:

- `Wrappers`: the `Option` type.
- `Sequences`: the subsequence relation and a generic order-preserving
  `Filter`. The character scrubbing, the `B` removal and both `dropna`
  calls are instances of this filter.
- `CharClasses`: the classes `\d`, `\w` and `\s`. `IsSpace` is also the set
  of characters that `str.strip()` removes.
- `Cleaning`: `clean_value` and its stages `Scrub`, `DropB` and `Strip`.
- `Tables`: the `[1:26]` row window, the cell-wise `df.map`, and `dropna`.
- `Pipeline`: the normalizer end to end. It also covers the three endings: no
  table found, a write that SQLite refuses, and the stored rows.
- `CellScenarios` and `RunScenarios`: a few concrete cells and headers.

Where the comment and the code disagree, the model follows the code. The
comment at `src/app.py:40-41` says the rule strips `[ref]` tags. The
pattern only deletes the brackets, so the footnote's digits stay and join
the number. `$1.2B[3]` therefore becomes `1.23`, not `1.2`
(`Cleaning.FootnoteDigitsSurvive`). `replace('B', '')` deletes only the
upper-case letter. `Billboard` becomes `illboard`, not `illoard`, and
`Blinding Lights` becomes `linding Lights` (`Cleaning.CapitalBIsRemoved`).

`dropna(subset=[df.columns[1], df.columns[3]])` selects columns by header
NAME. If another column has the same name as column 1 or column 3, pandas
checks that column too. `Tables.Dropna` models this label-based selection.
`Tables.DropnaIsPositional` proves that it equals the positional check of
columns 1 and 3 whenever no other column carries either name.

`to_sql` at `src/app.py:58` creates one SQLite column per header name.
pandas refuses an empty name, which an empty `<th>` gives, and a name that
holds a NUL character. SQLite refuses two columns with the same name,
comparing ASCII letters without regard to case. In each of these cases the
write raises and nothing is stored (`Pipeline.Run`, `Outcome.WriteRejected`).

## Model

| member | source | states |
|---|---|---|
| `Cleaning.CleanValue` | src/app.py:38-44 | A missing cell stays missing. A present result is non-empty and holds only word characters, periods and whitespace, with no capital `B` and no whitespace at either end. The result is missing exactly when the input has no character that is kept and not whitespace. |
| `Cleaning.CleanValueDeletesOnly` | src/app.py:42-43 | A present result is a subsequence of the input: characters are only deleted, never inserted or reordered. |
| `Cleaning.CleanValueFixpoint` | src/app.py:42-44 | A present value is left unchanged exactly when it is non-empty and already has the cleaned shape. |
| `Cleaning.CleanValueIdempotent` | src/app.py:38-44 | Cleaning a cleaned value changes nothing. |
| `Cleaning.CleanValueSeesOnlyKept` | src/app.py:42-44 | Two inputs with the same kept characters, in the same order, clean to the same value. |
| `Cleaning.IgnoresUnkeptCharacter` | src/app.py:42-43 | Inserting a scrubbed character or a capital `B` anywhere in a cell does not change its cleaned value. |
| `Cleaning.CapitalBIsRemoved` | src/app.py:43 | A capital `B` is deleted wherever it stands, not only as a trailing unit. |
| `Cleaning.FootnoteDigitsSurvive` | src/app.py:40-43 | A cell `$<n>B[<d>]`, where `n` and `d` are digits and periods, cleans to `n` followed by `d`: the footnote's digits are kept. |
| `Cleaning.ScrubThenDropB` | src/app.py:42-43 | Running the substitution and then the `B` replacement keeps exactly the characters that are allowed and are not `B`, in order. |
| `Cleaning.CleanTextShape` | src/app.py:42-44 | The text stages always produce the cleaned shape. Their output is empty exactly when nothing kept and non-whitespace is in the input, which is the case that `clean_value` turns into `None`. |
| `Cleaning.TrimStart` | src/app.py:43 | The result is a suffix of the input. Everything removed is whitespace, and the result does not start with whitespace. |
| `Cleaning.TrimEnd` | src/app.py:43 | The result is a prefix of the input. Everything removed is whitespace, and the result does not end with whitespace. |
| `Cleaning.Strip` | src/app.py:43 | The result is a contiguous slice of the input whose removed ends are all whitespace, and it has no whitespace at either end. It is empty exactly when the input is all whitespace. An input with no outer whitespace is returned unchanged. |
| `Cleaning.StripIsSubsequence` | src/app.py:43 | Stripping only deletes characters. |
| `CharClasses.AllowedIsWordPeriodOrSpace` | src/app.py:42 | `\d` adds nothing to `\w`, so the characters the substitution keeps are word characters, periods and whitespace. |
| `Sequences.FilterSatisfies` | src/app.py:42-43 | Every element the filter keeps satisfies its predicate. When every element satisfies it, the input comes back unchanged. |
| `Sequences.FilterCounts` | src/app.py:50 | Every occurrence of an element that satisfies the predicate is kept, and no other element is. |
| `Sequences.FilterMembership` | src/app.py:50 | An element is in the result exactly when it is in the input and satisfies the predicate. |
| `Sequences.FilterIsSubsequence` | src/app.py:50 | The filter keeps the relative order of the elements it keeps. |
| `Sequences.FilterFusion` | src/app.py:42-43 | Two filters in a row equal one filter by the conjunction of their predicates. |
| `Sequences.FilterAbsorbs` | src/app.py:54 | Filtering again with a predicate implied by the first one removes nothing. |
| `Tables.Slice` | src/app.py:30 | Python slicing with non-negative bounds: the length after clamping both bounds to the sequence, and element `k` of the result is element `start + k` of the input. |
| `Tables.WindowRows` | src/app.py:26-32 | The data window has at most 25 rows. Its rows are exactly the table rows at positions 1 to min(25, n - 1), in order, so the header row at position 0 is never included. |
| `Tables.CleanRow` | src/app.py:47 | The row keeps its length, and cell `j` is `clean_value` of input cell `j`. |
| `Tables.CleanTable` | src/app.py:47 | The table keeps its number of rows and every row keeps its length. Cell `(i, j)` is `clean_value` of input cell `(i, j)`. |
| `Tables.CleanTableShape` | src/app.py:47 | A rectangular table stays rectangular with the same width, and every cell of the result is missing or clean. |
| `Tables.CleanTableIdempotent` | src/app.py:47 | Mapping `clean_value` over an already-mapped table changes nothing. |
| `Tables.DropnaKeepsLabelAndMetric` | src/app.py:50 | Whatever the header names are, every row the first `dropna` keeps has values in columns 1 and 3. Kept rows are input rows in their original order, with the same width and the same cleanliness. |
| `Tables.DropnaIsPositional` | src/app.py:50 | When no column other than 1 and 3 carries the name of column 1 or column 3 (those two may share a name), the first `dropna` keeps exactly the rows whose cells 1 and 3 are present, in order. |
| `Tables.MetricRecheckIsNoOp` | src/app.py:50-54 | The second `dropna`, on column 3 alone, removes nothing from the result of the first. |
| `Pipeline.Normalize` | src/app.py:30-54 | The normalized table has at most 25 rows, each as wide as the header. Every cell is missing or clean, every row has a song name and a stream count, and the rows are cleaned window rows in their original order. |
| `Pipeline.ToCells` | src/app.py:35 | Building the DataFrame from the extracted texts keeps the number of rows and each row's length, and cell `(i, j)` is the present text `(i, j)`. |
| `Pipeline.NormalizeIsPositionalFilter` | src/app.py:47-54 | When no column other than 1 and 3 carries the name of column 1 or column 3, the persisted rows are exactly the cleaned window rows with both cells present, in their original order. |
| `Pipeline.DistinctSqlNamesAreUnshared` | src/app.py:50-58 | A header whose names SQLite accepts as distinct columns has no other column carrying the name of column 1 or column 3, so the label-based `dropna` is positional for every table that gets stored. |
| `Pipeline.Run` | src/app.py:21-82 | Nothing is stored when no table was found. A found table is refused exactly when a header name is empty or holds a NUL character, or when two header names are the same name to SQLite. Otherwise the stored rows, under the unchanged header names, are exactly the cleaned window rows that have a song name and a stream count, in their original order: at most 25 clean rows, each with both values. |
| `CellScenarios.NothingLeftIsMissing` | src/app.py:42-44 | A cell holding only a dash, or only a `B` between spaces, becomes missing. |
| `CellScenarios.OnlyCapitalB` | src/app.py:43 | `Bb` cleans to `b`: the capital letter goes and the lower-case one stays. |
| `RunScenarios.CaseOnlyClashIsRejected` | src/app.py:58 | A header holding both `Song` and `song` is refused by the write. |
| `RunScenarios.EmptyNameIsRejected` | src/app.py:27-58 | A header with an empty name, as an empty header cell gives, is refused by the write. |

## Left out

- Fetching the page and `raise_for_status` (`src/app.py:16-17`): network I/O.
- Locating the table and extracting text (`src/app.py:20-21, 26-27, 31-32`) are HTML parsing by a third-party library. The model takes the located table as input: `None` means that no `wikitable` was found. Otherwise the input holds the header names and, for each table row, its stripped cell texts.
- `CharClasses.IsWord` and `CharClasses.IsDigit` accept ASCII letters, digits and `_` only. Python's `\w` and `\d` also accept non-ASCII letters and digits, and the model scrubs those, because the Unicode tables are not part of this model. `IsSpace` is the full whitespace table that Python uses.
- `str(val)` for non-string values: every cell the script builds is a string, and pandas turns none of them into another type before `clean_value` runs.
- `Pipeline.Normalize` and `Pipeline.Run` require `Pipeline.WellFormed`: a first row, at least four header names, and every windowed row exactly as wide as the header. Of the DataFrame construction at `src/app.py:35`, `Pipeline.ToCells` models the case where every row is as wide as the header. The padding and mismatch rules are left out: pandas pads rows shorter than the header with `None` and rejects tables whose widest row differs from the header. The `IndexError` for a table with no rows or fewer than four columns is excluded by the same precondition.
- The SQLite write (`src/app.py:57-60, 80`): `Outcome.Stored` stands for the table that is written, and `Outcome.WriteRejected` for the `to_sql` call that raises on an empty name, a name holding a NUL character, or repeated column names. The replace semantics, the effect of a refused write on an existing `popular_songs` table, and the all-text schema are not modelled. SQLite's other limits on names, such as its column-count limit, are not modelled either.
- Plotting (`src/app.py:63-78`), including `head(10)` and the axis inversion: rendering only.
- Console messages (`src/app.py:60, 82`).
- The difference between `None` and `NaN` in pandas: both are the missing marker here.
