/**
  What the task-type rule promises its callers: the threshold, the digit test,
  the two families of columns that always classify, and the independence of
  the answer from missing cells, duplicates, row order and the other columns.
 */
module TaskTypeProperties {
  import opened Wrappers
  import opened DataUtils

  // ---------------------------------------------------------------------------
  // Regression cases

  /** More than ten distinct present values: regression, whatever they look like. */
  lemma ManyValuesIsRegression(col: Column)
    requires |Distinct(col)| > MaxClasses
    ensures ClassifyColumn(col) == Regression
  {
  }

  /** One present value that is not a digit string is enough for regression. */
  lemma NonDigitValueIsRegression(col: Column, i: nat)
    requires i < |col| && col[i].Some? && !IsDigit(col[i].value)
    ensures ClassifyColumn(col) == Regression
  {
    assert col[i].value in Distinct(col);
  }

  /** A sign or a decimal point in a present value forces regression: `-1`, `1.5`, `1.0`. */
  lemma SignOrPointIsRegression(col: Column, i: nat, j: nat)
    requires i < |col| && col[i].Some?
    requires j < |col[i].value| && col[i].value[j] in {'-', '+', '.'}
    ensures ClassifyColumn(col) == Regression
  {
    SignOrPointIsNotDigit(col[i].value, j);
    NonDigitValueIsRegression(col, i);
  }

  // ---------------------------------------------------------------------------
  // Classification cases

  /** A column whose present values are only `0` and `1` is a classification target. */
  lemma BinaryColumnIsClassification(col: Column)
    requires forall i :: 0 <= i < |col| ==> col[i] in {None, Some("0"), Some("1")}
    ensures ClassifyColumn(col) == Classification
  {
    assert Distinct(col) <= {"0", "1"} by {
      forall v | v in Distinct(col) ensures v in {"0", "1"} {
        var c :| c in col && c.Some? && c.value == v;
        var i :| 0 <= i < |col| && col[i] == c;
      }
    }
    SubsetCount(Distinct(col), {"0", "1"});
    IsDigitExamples();
  }

  /** At most ten present values that are all digit strings: classification. */
  lemma FewDigitValuesIsClassification(col: Column)
    requires |Distinct(col)| <= MaxClasses
    requires forall i :: 0 <= i < |col| && col[i].Some? ==> IsDigit(col[i].value)
    ensures ClassifyColumn(col) == Classification
  {
    forall v | v in Distinct(col) ensures IsDigit(v) {
      var c :| c in col && c.Some? && c.value == v;
      var i :| 0 <= i < |col| && col[i] == c;
    }
  }

  /** A column with no present value is a classification target: no values, none failing. */
  lemma AllMissingIsClassification(col: Column)
    requires forall i :: 0 <= i < |col| ==> col[i].None?
    ensures Distinct(col) == {}
    ensures ClassifyColumn(col) == Classification
  {
    forall c | c in col ensures c.None? {
      var i :| 0 <= i < |col| && col[i] == c;
    }
  }

  // ---------------------------------------------------------------------------
  // What the answer does not depend on

  /** Only the set of distinct present values decides the answer. */
  lemma SameDistinctSameTaskType(a: Column, b: Column)
    requires Distinct(a) == Distinct(b)
    ensures ClassifyColumn(a) == ClassifyColumn(b)
  {
  }

  /** Two columns holding the same cells, whatever their order and multiplicity, agree. */
  lemma SameCellsSameDistinct(a: Column, b: Column)
    requires forall c :: c in a <==> c in b
    ensures Distinct(a) == Distinct(b)
  {
  }

  /** Inserting a missing cell anywhere leaves the answer unchanged. */
  lemma MissingCellIgnored(col: Column, i: nat)
    requires i <= |col|
    ensures ClassifyColumn(col[..i] + [None] + col[i..]) == ClassifyColumn(col)
  {
    var col' := col[..i] + [None] + col[i..];
    assert Distinct(col') == Distinct(col) by {
      assert col == col[..i] + col[i..];
      forall c: Cell | c.Some? ensures c in col' <==> c in col {
      }
    }
  }

  /** The column with every missing cell removed: same distinct values, no missing cell. */
  function PresentCells(col: Column): (r: Column)
    ensures forall i :: 0 <= i < |r| ==> r[i].Some?
    ensures Distinct(r) == Distinct(col)
  {
    var values := DropNa(col);
    var p := seq(|values|, i requires 0 <= i < |values| => Some(values[i]));
    assert Distinct(p) == Distinct(col) by {
      forall v ensures v in Distinct(p) <==> v in Distinct(col) {
        if v in Distinct(col) {
          var c :| c in col && c.Some? && c.value == v;
          assert Some(v) in col;
          var k :| 0 <= k < |values| && values[k] == v;
          assert p[k] == Some(v);
        }
        if v in Distinct(p) {
          var c :| c in p && c.Some? && c.value == v;
          var k :| 0 <= k < |p| && p[k] == c;
          assert values[k] in values;
        }
      }
    }
    p
  }

  /** Removing all the missing cells leaves the answer unchanged. */
  lemma MissingCellsRemovedIgnored(col: Column)
    ensures ClassifyColumn(PresentCells(col)) == ClassifyColumn(col)
  {
  }

  /** Repeating a cell of the column at any position leaves the answer unchanged. */
  lemma DuplicateIgnored(col: Column, i: nat, j: nat)
    requires i < |col| && j <= |col|
    ensures ClassifyColumn(col[..j] + [col[i]] + col[j..]) == ClassifyColumn(col)
  {
    var col' := col[..j] + [col[i]] + col[j..];
    assert col == col[..j] + col[j..];
    SameCellsSameDistinct(col', col);
  }

  /** Reordering the rows leaves the answer unchanged. */
  lemma ReorderIgnored(a: Column, b: Column)
    requires multiset(a) == multiset(b)
    ensures ClassifyColumn(a) == ClassifyColumn(b)
  {
    forall c ensures c in a <==> c in b {
      assert c in a <==> c in multiset(a);
      assert c in b <==> c in multiset(b);
    }
    SameCellsSameDistinct(a, b);
  }

  // ---------------------------------------------------------------------------
  // The data manager

  /** Without a target column named, the `Risk` column is the one classified. */
  lemma DefaultTargetIsRisk(df: Table)
    ensures "Risk" in df ==> DataManager(df).DetectTaskType() == Ok(ClassifyColumn(df["Risk"]))
    ensures "Risk" !in df ==> DataManager(df).DetectTaskType() == Err(KeyError("Risk"))
  {
  }

  /** Columns other than the target do not influence the answer. */
  lemma OtherColumnsIgnored(df: Table, target: string, other: string, col: Column)
    requires other != target
    ensures DataManager(df[other := col]).DetectTaskType(target) == DataManager(df).DetectTaskType(target)
  {
  }

  // ---------------------------------------------------------------------------
  // Two worked tables

  /** Any table whose `Risk` column reads 0, 1, 0, 1, 0 is a classification table. */
  lemma BinaryRiskTableIsClassification(df: Table)
    requires "Risk" in df
    requires df["Risk"] == [Some("0"), Some("1"), Some("0"), Some("1"), Some("0")]
    ensures DataManager(df).DetectTaskType() == Ok(Classification)
  {
    BinaryColumnIsClassification(df["Risk"]);
  }

  /** Any table whose `Risk` column holds decimal numbers is a regression table. */
  lemma DecimalRiskTableIsRegression(df: Table)
    requires "Risk" in df
    requires df["Risk"] == [Some("1.1"), Some("2.3"), Some("0.4"), Some("5.6"), Some("3.3"),
                            Some("2.2"), Some("1.0"), Some("4.4"), Some("3.1"), Some("2.9")]
    ensures DataManager(df).DetectTaskType() == Ok(Regression)
  {
    SignOrPointIsRegression(df["Risk"], 0, 1);
  }
}
