# Task-type detection of the risk dashboard

The dashboard loads a table of health records and, before any model is trained,
decides whether its target column (`Risk` by default) calls for a classifier or
a regressor. `DataManager.detect_task_type` takes the target column, drops its
missing cells, keeps the distinct values, and answers **classification** exactly
when there are at most ten of them and the string form of every one is a digit
string in the sense of Python's `str.isdigit`; otherwise it answers
**regression**. That answer later selects the random-forest classifier or
regressor (`scripts/model_utils.py:17`).

This project models that rule in Dafny and proves what it promises.

- `wrappers.dfy` — `Option` (a present or missing cell) and `Result` (an answer
  or a lookup failure).
- `data_utils.dfy` — module `DataUtils`: the table (`map` from column name to a
  `seq` of cells, each `Some(text)` or `None`), the digit test, pandas'
  `dropna` (`DropNa`) and `unique` (`Unique`, order of first appearance, no
  repetitions), the rule on one column (`ClassifyColumn`) and the data manager
  (`DataManager`, a value holding the table `df`, which the source assigns once
  in its constructor and never changes) with `DetectTaskType`, whose target
  defaults to `DefaultTarget = "Risk"`. Asking for a column the table lacks
  yields `Err(KeyError(name))`, as indexing a pandas frame by a missing name
  raises `KeyError`.
- `task_type_properties.dfy` — module `TaskTypeProperties`: lemmas about the
  rule.

The rule as computed (a length test and an `all(...)` over the sequence
`Unique(DropNa(col))`) is proved equal to an independent reference stated on
sets: `ClassLike(Distinct(col))`, "the set of present values has at most ten
members and each is a digit string". The link is `UniqueDropNaIsDistinct`,
which rests on the fact that a sequence without repetitions has as many
elements as positions (`NoDuplicatesCount`).

The answer type `TaskType` has exactly the two values `Classification` and
`Regression`, so "the result is one of the two strings" holds by construction.

Assumptions:
- Cells enter the model already turned into their `str()` form. Distinctness
  is taken on those strings, which agrees with pandas' `unique` on values
  whenever `str` is one-to-one on the column's values (true for a column of a
  single numeric or string dtype).
- Digits are the ASCII characters `0`-`9`; the empty string is not a digit
  string, as `"".isdigit()` is false.

`str.isdigit` rejects a sign, so `-1` and `+3` give regression
(`SignOrPointIsRegression`).

## Model

| member | source | states |
|---|---|---|
| `DataUtils.IsDigitExamples` | scripts/data_utils.py:16 | the digit test rejects the empty string, a sign and a decimal point (`-1`, `+3`, `1.5`, `1.0`) and accepts `0`, `1`, `10` |
| `DataUtils.SignOrPointIsNotDigit` | scripts/data_utils.py:16 | any string containing `-`, `+` or `.` fails the digit test |
| `DataUtils.NoDuplicatesCount` | scripts/data_utils.py:15-16 | `len` of a repetition-free sequence equals the number of its distinct elements |
| `DataUtils.DropNa` | scripts/data_utils.py:15 | `dropna` keeps exactly the present values (a value is in the result iff some cell holds it) and never lengthens the column |
| `DataUtils.DropNaAppend` | scripts/data_utils.py:15 | `dropna` keeps row order: dropping from a concatenation is the concatenation of the drops |
| `DataUtils.Unique` | scripts/data_utils.py:15 | `unique` returns a repetition-free sequence holding exactly the elements of its input, no longer than it |
| `DataUtils.UniqueOfNoDuplicates` | scripts/data_utils.py:15 | `unique` leaves a repetition-free sequence unchanged |
| `DataUtils.UniqueIdempotent` | scripts/data_utils.py:15 | applying `unique` twice equals applying it once |
| `DataUtils.UniqueDropNaIsDistinct` | scripts/data_utils.py:15-16 | the elements of `dropna().unique()` are the set of present values, and its length is that set's size |
| `DataUtils.ClassifyColumn` | scripts/data_utils.py:15-19 | classification iff the set of present values has at most ten members and all are digit strings; regression otherwise |
| `DataUtils.DataManager.DetectTaskType` | scripts/data_utils.py:14-19 | a failure exactly when the target column is absent, naming that column; otherwise classification iff the target's present values are at most ten digit strings |
| `TaskTypeProperties.ManyValuesIsRegression` | scripts/data_utils.py:16-19 | more than ten distinct present values give regression, whatever they are |
| `TaskTypeProperties.NonDigitValueIsRegression` | scripts/data_utils.py:16-19 | one present value with a non-digit character gives regression |
| `TaskTypeProperties.SignOrPointIsRegression` | scripts/data_utils.py:16-19 | a present value containing a sign or a decimal point gives regression |
| `TaskTypeProperties.BinaryColumnIsClassification` | scripts/data_utils.py:15-17 | a column whose present values are only `0` and `1` gives classification |
| `TaskTypeProperties.FewDigitValuesIsClassification` | scripts/data_utils.py:15-17 | at most ten distinct present values, all digit strings, give classification |
| `TaskTypeProperties.AllMissingIsClassification` | scripts/data_utils.py:15-17 | a column with no present value has no distinct values and gives classification |
| `TaskTypeProperties.SameDistinctSameTaskType` | scripts/data_utils.py:15 | two columns with the same set of present values get the same answer |
| `TaskTypeProperties.SameCellsSameDistinct` | scripts/data_utils.py:15 | two columns holding the same cells, in any order and multiplicity, have the same distinct values |
| `TaskTypeProperties.MissingCellIgnored` | scripts/data_utils.py:15 | inserting a missing cell at any position does not change the answer |
| `TaskTypeProperties.PresentCells` | scripts/data_utils.py:15 | the column with its missing cells removed holds only present cells and has the same set of distinct present values as the original |
| `TaskTypeProperties.MissingCellsRemovedIgnored` | scripts/data_utils.py:15 | removing every missing cell does not change the answer |
| `TaskTypeProperties.DuplicateIgnored` | scripts/data_utils.py:15 | repeating any cell at any position does not change the answer |
| `TaskTypeProperties.ReorderIgnored` | scripts/data_utils.py:15 | permuting the rows does not change the answer |
| `TaskTypeProperties.DefaultTargetIsRisk` | scripts/data_utils.py:14-15 | with no target named, the `Risk` column is classified, and a table without it gives `KeyError("Risk")` |
| `TaskTypeProperties.OtherColumnsIgnored` | scripts/data_utils.py:15 | replacing or adding a column other than the target does not change the answer |
| `TaskTypeProperties.BinaryRiskTableIsClassification` | scripts/data_utils.py:14-17 | a table whose `Risk` column reads 0, 1, 0, 1, 0 is a classification table |
| `TaskTypeProperties.DecimalRiskTableIsRegression` | scripts/data_utils.py:14-19 | a table whose `Risk` column holds ten decimal numbers is a regression table |

## Left out

- `DataManager.load_data` and the constructor's call to it (`scripts/data_utils.py:4-12`): reading a CSV file, uploaded or at the default path, is file I/O through pandas' reader; the model starts from the table already read.
- pandas' type coercion on reading: an integer column with missing cells is read as floating point, so its values print as `1.0` and the rule answers regression. The model takes the already-stringified cells and so inherits whatever the reader produced.
- Unicode digits other than `0`-`9` that Python's `isdigit` accepts (superscripts, other scripts): the digit test is restricted to ASCII.
- `RiskModel` (`scripts/model_utils.py`): mean imputation, the train/test split, the random-forest learners and their metrics are floating-point library code outside this repository.
- `DataVisualizer` (`scripts/visualization.py`) and the Streamlit page (`app.py`): presentation only.
