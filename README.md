# Aadhar Sentinel engine in Dafny

This project models `SentinelEngine`, the data engine of Aadhar Sentinel
(`backend/sentinel_metrics.py`). The engine does two things:

- **`load_data`** builds the working table `df_enrol`. It reads the pincode
  coordinate master and keeps the first row per pincode. It concatenates the
  enrolment partitions. It sums each biometric and demographic update row's
  two age columns and totals them per (pincode, state, district). It
  left-merges those totals and the coordinates onto the enrolment rows. It
  upper-cases and strips the state names, fills missing update counts with 0,
  and keeps only the rows whose coordinates lie in the inclusive box
  6 ≤ lat ≤ 38, 68 ≤ lon ≤ 98.
- **`get_priority_spot`** looks up a state and district in that table. It
  totals `age_0_5 + age_5_17 + age_18_greater` per (pincode, lat, lon) and
  returns the group with the largest total, or nothing.

Layout:

- `wrappers.dfy` (`Wrappers`): `Option`, which stands for a missing cell and
  for a lookup that found nothing.
- `frame.dfy` (`Frame`): the pandas operations the engine uses, over tables as
  sequences of rows. These are `concat`, mask selection, `drop_duplicates`,
  `groupby(...).sum()`, `merge(how='left')` and the arg-max taken after
  sorting. Each one comes with the lemmas that say what it computes.
- `text.dfy` (`Text`): Python's `str.upper()` and `str.strip()`, and the
  normalized form of a state name.
- `sentinel_metrics.dfy` (`SentinelMetrics`): the row types, the loading
  steps, and a reference definition of the stored table. That definition is
  `Expected`: one derived row per enrolment row, written without any merge.
  The file also holds the priority-spot query and the class `SentinelEngine`.

The class has the engine's state as fields:

- `enrol` is `df_enrol`.
- `isLoaded` records whether that frame has its columns yet.
- `dataDir` is the data directory.

`LoadData` rebuilds `enrol` step by step, the way the source reassigns
`df_master`. Its postcondition ties the new table to `LoadedTable(files)`,
which is the in-box subset of `Expected` over all enrolment rows. The lemmas
prove that each merge keeps one row per enrolment row, that update counts are
per-key sums, that coordinates come from the first master row, and that the
stored table keeps its invariant (`WellFormed`).

The data directory is not read. A `DataFiles` value stands for its contents:
whether `pincode_master.csv` exists, its rows, and the partitions of each
category in the order the directory listing found them. All of these are
already parsed.

Two facts about the code shape the model:

- District names are never normalized, and the query matches them exactly.
- With the master present, a missing biometric or demographic category makes
  the fill at `backend/sentinel_metrics.py:57-58` raise `KeyError`, so
  `LoadData` requires both.

## Model

| member | source | states |
|---|---|---|
| Frame.Concat | backend/sentinel_metrics.py:20 | a row is in the concatenation exactly when it is in one of the partitions |
| Frame.ConcatLength | backend/sentinel_metrics.py:20 | the concatenation has exactly as many rows as all partitions together: none dropped, none deduplicated |
| Frame.ConcatAppend | backend/sentinel_metrics.py:20 | concatenating two groups of partitions is concatenating their results, so rows follow partition order |
| Frame.Filter | backend/sentinel_metrics.py:60 | a row is selected exactly when it is in the input and satisfies the mask; never more rows than the input |
| Frame.FilterAppend | backend/sentinel_metrics.py:60 | mask selection distributes over appending: selected rows keep their relative order |
| Frame.FilterCount | backend/sentinel_metrics.py:60 | each row value occurs in the selection as often as in the input if it satisfies the mask, and not at all otherwise |
| Frame.FirstIndex | backend/sentinel_metrics.py:16 | the index returned is the first row with the key, or the length when no row has it |
| Frame.DropDuplicates | backend/sentinel_metrics.py:16 | the deduplicated table has pairwise distinct keys and only rows of the input |
| Frame.DropDuplicatesKeepsFirst | backend/sentinel_metrics.py:16 | for every key, the deduplicated table's row is the input's first row with that key, and keys are neither lost nor invented |
| Frame.SumWhereAbsent | backend/sentinel_metrics.py:57-58 | a key that no row carries sums to 0 |
| Frame.SumWhereSameRows | backend/sentinel_metrics.py:74 | two keyings that pick out the same rows give the same group sum |
| Frame.AddTo | backend/sentinel_metrics.py:31 | adding a row's value to distinct-keyed groups changes only its key's total, or opens one new group at the end |
| Frame.GroupSum | backend/sentinel_metrics.py:31 | the group-by-sum has one group per distinct key present in the rows, and each group's total is the sum over the rows with that key |
| Frame.GroupSumLookup | backend/sentinel_metrics.py:31-32 | looking a key up in the group-by-sum finds the key's total when some row has the key, and nothing otherwise |
| Frame.ArgMax | backend/sentinel_metrics.py:77-78 | the group returned is one of the groups and no group has a larger total |
| Frame.LeftJoin | backend/sentinel_metrics.py:32 | a left merge has at least as many rows as its left table |
| Frame.LeftJoinAt | backend/sentinel_metrics.py:32 | every left row survives a left merge: its block of output rows (one per match, or one with missing right columns) sits, in left-row order, between the blocks of the rows before and after it |
| Frame.MatchesDistinct | backend/sentinel_metrics.py:46 | against a table with distinct keys, a key matches exactly its one row or nothing |
| Frame.LeftJoinOneToOne | backend/sentinel_metrics.py:32 | a left merge against distinct keys yields exactly one row per left row, in order, carrying that row's match or missing values |
| Text.Upper | backend/sentinel_metrics.py:49 | upper-casing keeps the length, leaves no lower-case letter, maps each lower-case letter to its capital and keeps every other character |
| Text.StripLeft | backend/sentinel_metrics.py:49 | the result is a suffix, only whitespace was dropped, and it does not start with whitespace |
| Text.StripRight | backend/sentinel_metrics.py:49 | the result is a prefix, only whitespace was dropped, and it does not end with whitespace |
| Text.Strip | backend/sentinel_metrics.py:49 | a stripped string neither starts nor ends with whitespace |
| Text.StripIsInnerSlice | backend/sentinel_metrics.py:49 | the stripped string is a contiguous slice of the input, and everything cut off at either end is whitespace |
| Text.StripEmpty | backend/sentinel_metrics.py:49 | stripping gives the empty string exactly when the input is all whitespace |
| Text.StripTrimmed | backend/sentinel_metrics.py:49 | stripping leaves a string with no surrounding whitespace unchanged |
| Text.NormalizeStateIsNormalized | backend/sentinel_metrics.py:49 | a normalized state name has no lower-case letter and no leading or trailing whitespace |
| Text.NormalizeStateIdempotent | backend/sentinel_metrics.py:49 | normalizing a state name twice gives the same result as normalizing it once |
| Text.NormalizeStateFixedPoint | backend/sentinel_metrics.py:49 | a name's normalized form equals its upper-cased form exactly when the upper-cased form is already trimmed |
| SentinelMetrics.ToRecordsAppend | backend/sentinel_metrics.py:60 | turning kept rows into stored records distributes over appending |
| SentinelMetrics.KeepInIndia | backend/sentinel_metrics.py:53-54 | every stored record lies in the inclusive box, and each comes from an input row whose coordinates parsed and lie in the box |
| SentinelMetrics.KeepInIndiaAppend | backend/sentinel_metrics.py:60 | the in-box selection distributes over appending, so kept rows keep their relative order |
| SentinelMetrics.KeepInIndiaSingle | backend/sentinel_metrics.py:50-54 | a single row is kept exactly when both coordinates parsed and lie within the inclusive bounds |
| SentinelMetrics.KeepInIndiaAt | backend/sentinel_metrics.py:53-60 | row i appears in the stored table, as its record, exactly when it is in the box, after the kept rows before it and before the kept rows after it |
| SentinelMetrics.ExpectedRows | backend/sentinel_metrics.py:20 | the reference table has one row per concatenated enrolment row, each with both update counts filled |
| SentinelMetrics.MergeBiometricPerRow | backend/sentinel_metrics.py:26-32 | the biometric merge keeps one row per enrolment row, in order, each carrying the sum of `bio_age_5_17 + bio_age_17_` over the biometric rows with its key, or missing |
| SentinelMetrics.MergeDemographicPerRow | backend/sentinel_metrics.py:37-43 | the demographic merge keeps one row per input row, in order, each carrying the sum of `demo_age_5_17 + demo_age_17_` over the demographic rows with its key, or missing |
| SentinelMetrics.MergeCoordinatesPerRow | backend/sentinel_metrics.py:14-16 | after deduplication on pincode, the coordinate merge keeps one row per input row, in order, with the lat/lon of the master's first row for its pincode, or missing |
| SentinelMetrics.FilledUpdateIsTotal | backend/sentinel_metrics.py:57-58 | after the fill, a row's update count is its key's total, and 0 when no update row has its key |
| SentinelMetrics.MergedRowsAreExpected | backend/sentinel_metrics.py:20-58 | merges, normalization and fill in the loader's order produce exactly the reference row for every enrolment row |
| SentinelMetrics.LoadedTableFirstCoordinates | backend/sentinel_metrics.py:14-16 | every row of the loaded table has a pincode present in the master, and carries the lat/lon of that pincode's first master row |
| SentinelMetrics.LoadedTableWellFormed | backend/sentinel_metrics.py:49-60 | every row of the loaded table has a normalized state and lies in the box, and rows sharing a pincode share coordinates |
| SentinelMetrics.PrioritySpot | backend/sentinel_metrics.py:63-78 | returns None exactly when no stored row has state equal to the upper-cased query and exactly the queried district; otherwise a (pincode, lat, lon) of a queried row, with total need the sum of the three age columns over the queried rows of that group |
| SentinelMetrics.PrioritySpotIsMaximal | backend/sentinel_metrics.py:74-78 | when some row is queried a spot is returned, and no queried group's total need exceeds it |
| SentinelMetrics.PrioritySpotGroupsByPincode | backend/sentinel_metrics.py:74 | when a pincode fixes the coordinates, the returned total is the need summed over all queried rows with the returned pincode |
| SentinelMetrics.PrioritySpotNeedsTrimmedState | backend/sentinel_metrics.py:65-66 | against normalized stored states, a query whose upper-cased state name has surrounding whitespace finds nothing |
| SentinelMetrics.SentinelEngine.constructor | backend/sentinel_metrics.py:6-8 | a new engine keeps its data directory and holds an empty table without columns |
| SentinelMetrics.SentinelEngine.LoadData | backend/sentinel_metrics.py:10-61 | without the pincode master it returns false and changes nothing; otherwise it returns true and the table becomes the in-box reference rows, keeping the table invariant |
| SentinelMetrics.SentinelEngine.GetPrioritySpot | backend/sentinel_metrics.py:63-78 | on the loaded table, a spot found lies in the box, and only a state name whose upper-cased form is trimmed can find one |

## Left out

- File access is not modelled. `glob` discovery, `pd.read_csv` and `os.path.exists` become the `DataFiles` parameter. The pincode column is taken to be a string already, so the `astype(str)` conversions are not modelled.
- Number parsing is not modelled. `pd.to_numeric(errors='coerce')` on lat/lon appears only as its outcome: `Option<real>`, with None for a value that does not parse.
- Missing (NaN) update counts and missing join keys are not modelled. Counts are integers and keys are strings, so pandas' skipping of NaN in sums and its dropping of NaN group keys never arise.
- float64 arithmetic is not modelled. Counts are unbounded integers and coordinates are exact reals, which is enough for the exact bound checks.
- Text.Upper: models `str.upper()` on ASCII letters only, because Python's full Unicode case mapping (which can change a string's length) is outside this model. Every other character is kept.
- pandas output order for group-bys is not modelled. `groupby` sorts its keys, while `Frame.GroupSum` lists groups in order of first appearance. A left merge against distinct keys does not depend on this order.
- SentinelMetrics.PrioritySpot: ties are broken by taking the first maximal group in first-appearance order. The source's descending `sort_values` is not stable, so which of several maximal groups it returns is unspecified. Only "some group with the largest total" is proved (`PrioritySpotIsMaximal`). The second emptiness check after the group-by cannot fire, because stored coordinates are never missing.
- Failing inputs are excluded by preconditions instead of being modelled as errors. Once the master file exists, an empty list of enrolment files makes `pd.concat` raise. An empty list of biometric or demographic files means the update column never exists, so the fill raises. `LoadData` requires all three lists to be non-empty whenever the master is present.
- SentinelMetrics.SentinelEngine.GetPrioritySpot: requires a successful load. Before one, `df_enrol` is the constructor's empty frame with no `state` column, and the query raises a `KeyError`.
- Merge-suffix behaviour is not modelled. If an enrolment file already had `lat`, `lon` or an update column, pandas would add suffixes when merging.
- `get_geospatial_score` and `get_bio_stress_index` are called by `backend/app.py` and `test_metrics.py` but are defined nowhere in the engine, so they are not modelled.
- The Flask routes (`backend/app.py`), the Streamlit dashboard (`backend/dashboard.py`), the process launcher (`backend/run_sentinel.py`) and the `test_metrics.py` script are not modelled. They are transport, presentation and process management, not engine logic.
