/**
  The task-type rule of the data manager: given a table and the name of its
  target column, decide whether the target describes a classification task
  (a handful of non-negative integer labels) or a regression task.

  A table is a map from column name to column; a column is the sequence of its
  cells, each cell holding the string form of its value, or `None` when the
  cell is missing.
 */
module DataUtils {
  import opened Wrappers

  /** The two answers of the rule. */
  datatype TaskType = Classification | Regression

  /** The failure of looking up a column the table does not have. */
  datatype LookupError = KeyError(column: string)

  type Cell = Option<string>
  type Column = seq<Cell>
  type Table = map<string, Column>

  /** The target column asked for when the caller names none. */
  const DefaultTarget: string := "Risk"

  /** The largest number of distinct values a classification target may have. */
  const MaxClasses: nat := 10

  // ---------------------------------------------------------------------------
  // Strings

  predicate IsDigitChar(c: char) {
    '0' <= c <= '9'
  }

  /** Python's `str.isdigit`, restricted to ASCII: non-empty and all digits. */
  predicate IsDigit(s: string) {
    |s| > 0 && forall i :: 0 <= i < |s| ==> IsDigitChar(s[i])
  }

  lemma IsDigitExamples()
    ensures !IsDigit("")
    ensures !IsDigit("-1") && !IsDigit("1.5") && !IsDigit("1.0") && !IsDigit("+3")
    ensures IsDigit("0") && IsDigit("1") && IsDigit("10")
  {
    assert !IsDigitChar("-1"[0]);
    assert !IsDigitChar("1.5"[1]);
    assert !IsDigitChar("1.0"[1]);
    assert !IsDigitChar("+3"[0]);
  }

  /** A string holding a sign or a decimal point is never a digit string. */
  lemma SignOrPointIsNotDigit(s: string, i: nat)
    requires i < |s| && s[i] in {'-', '+', '.'}
    ensures !IsDigit(s)
  {
    assert !IsDigitChar(s[i]);
  }

  // ---------------------------------------------------------------------------
  // Sequences and their elements

  ghost predicate NoDuplicates<T>(s: seq<T>) {
    forall i, j :: 0 <= i < j < |s| ==> s[i] != s[j]
  }

  function Elements<T>(s: seq<T>): set<T> {
    set x | x in s
  }

  /** A sequence without repetitions has as many elements as it has positions. */
  lemma {:induction false} NoDuplicatesCount<T>(s: seq<T>)
    requires NoDuplicates(s)
    ensures |Elements(s)| == |s|
  {
    if s != [] {
      var init, last := s[..|s| - 1], s[|s| - 1];
      NoDuplicatesCount(init);
      assert Elements(s) == Elements(init) + {last} by {
        assert s == init + [last];
      }
      assert last !in Elements(init);
    }
  }

  /** A subset of a finite set is no larger than it. */
  lemma {:induction false} SubsetCount<T>(a: set<T>, b: set<T>)
    requires a <= b
    ensures |a| <= |b|
    decreases b
  {
    if b != {} {
      var x :| x in b;
      SubsetCount(a - {x}, b - {x});
    }
  }

  // ---------------------------------------------------------------------------
  // pandas `dropna` and `unique`

  /** The present values of a column, in row order (`Series.dropna`). */
  function DropNa(col: Column): (r: seq<string>)
    ensures |r| <= |col|
    ensures forall v :: v in r <==> Some(v) in col
  {
    if col == [] then []
    else
      var rest := DropNa(col[1..]);
      assert forall c :: c in col <==> c == col[0] || c in col[1..];
      match col[0]
      case None => rest
      case Some(v) => [v] + rest
  }

  /** Removing missing cells distributes over concatenation: row order is kept. */
  lemma {:induction false} DropNaAppend(a: Column, b: Column)
    ensures DropNa(a + b) == DropNa(a) + DropNa(b)
  {
    if a != [] {
      assert (a + b)[1..] == a[1..] + b;
      DropNaAppend(a[1..], b);
    } else {
      assert a + b == b;
    }
  }

  /**
    The distinct values of a sequence in order of first appearance
    (`Series.unique`).
   */
  function Unique<T(==)>(xs: seq<T>): (r: seq<T>)
    ensures NoDuplicates(r)
    ensures forall i :: 0 <= i < |r| ==> r[i] in xs
    ensures forall i :: 0 <= i < |xs| ==> xs[i] in r
    ensures |r| <= |xs|
  {
    if xs == [] then []
    else
      var init, last := xs[..|xs| - 1], xs[|xs| - 1];
      var u := Unique(init);
      assert xs == init + [last];
      if last in u then u else u + [last]
  }

  /** A sequence without repetitions is its own `unique()`. */
  lemma {:induction false} UniqueOfNoDuplicates<T>(xs: seq<T>)
    requires NoDuplicates(xs)
    ensures Unique(xs) == xs
  {
    if xs != [] {
      var init, last := xs[..|xs| - 1], xs[|xs| - 1];
      UniqueOfNoDuplicates(init);
      assert last !in init;
    }
  }

  /** Applying `unique()` twice gives what applying it once gives. */
  lemma UniqueIdempotent<T>(xs: seq<T>)
    ensures Unique(Unique(xs)) == Unique(xs)
  {
    UniqueOfNoDuplicates(Unique(xs));
  }

  // ---------------------------------------------------------------------------
  // The rule, on sets: the reference the computed rule is proved against

  /** The set of distinct present values of a column. */
  function Distinct(col: Column): set<string> {
    set c | c in col && c.Some? :: c.value
  }

  /** At most `MaxClasses` values, each of them a digit string. */
  predicate ClassLike(values: set<string>) {
    |values| <= MaxClasses && forall v :: v in values ==> IsDigit(v)
  }

  /** The computed distinct values are exactly the set of present values. */
  lemma UniqueDropNaIsDistinct(col: Column)
    ensures Elements(Unique(DropNa(col))) == Distinct(col)
    ensures |Unique(DropNa(col))| == |Distinct(col)|
  {
    var u := Unique(DropNa(col));
    assert Elements(u) == Distinct(col) by {
      forall v ensures v in Elements(u) <==> v in Distinct(col) {
        if v in Distinct(col) {
          var c :| c in col && c.Some? && c.value == v;
          assert Some(v) == c;
        }
      }
    }
    NoDuplicatesCount(u);
  }

  // ---------------------------------------------------------------------------
  // The rule, as the data manager computes it

  /**
    The task type of one column: drop the missing cells, keep the distinct
    values, and answer classification exactly when there are at most ten of
    them and each is a digit string.
   */
  function ClassifyColumn(col: Column): (r: TaskType)
    ensures r == Classification <==> ClassLike(Distinct(col))
  {
    var riskUnique := Unique(DropNa(col));
    UniqueDropNaIsDistinct(col);
    assert forall x :: x in riskUnique <==> x in Distinct(col);
    if |riskUnique| <= MaxClasses && forall x :: x in riskUnique ==> IsDigit(x) then
      Classification
    else
      Regression
  }

  /**
    The data manager holds the table read at construction (`df`), which is
    never reassigned afterwards.
   */
  datatype DataManager = DataManager(df: Table) {

    /** The task type of the named target column, or a lookup failure. */
    function DetectTaskType(targetCol: string := DefaultTarget): (r: Result<TaskType, LookupError>)
      ensures r.Err? <==> targetCol !in df
      ensures r.Err? ==> r.error == KeyError(targetCol)
      ensures r.Ok? ==> (r.value == Classification <==> ClassLike(Distinct(df[targetCol])))
    {
      if targetCol !in df then Err(KeyError(targetCol))
      else Ok(ClassifyColumn(df[targetCol]))
    }
  }
}
