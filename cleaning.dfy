/**
 * The numeric cleaning shared by the plotting scripts: a positive-finite
 * filter over one column, and a row cleaner that masks every required
 * column with that filter and then drops the rows left with a gap.
 */
module Cleaning {
  import opened Errors
  import opened Frames

  /** What pandas raises when a text entry meets `> 0`. */
  const ComparisonError := Failure(TypeError, Plain("'>' not supported between instances of 'str' and 'int'"))

  /**
   * `validate_numeric_data` / `filter_numeric_data`: the entries that are
   * present, non-zero, positive and finite, in their original order.
   */
  function ValidateNumeric(col: seq<Cell>): (r: Result<seq<Cell>>)
    ensures r.Err? <==> AnyText(col)
    ensures r.Err? ==> r.error == ComparisonError
    ensures r.Ok? ==> forall c :: c in r.value <==> c in col && PositiveFinite(c)
    ensures r.Ok? ==> forall c :: multiset(r.value)[c] == if PositiveFinite(c) then multiset(col)[c] else 0
  {
    if AnyText(col) then Err(ComparisonError)
    else
      var kept := Filter(col, PositiveFinite);
      assert forall c :: multiset(kept)[c] == if PositiveFinite(c) then multiset(col)[c] else 0 by {
        forall c ensures multiset(kept)[c] == if PositiveFinite(c) then multiset(col)[c] else 0 {
          FilterMultiplicity(col, PositiveFinite, c);
        }
      }
      Ok(kept)
  }

  /** The filter only deletes entries, and a second pass changes nothing. */
  lemma ValidateNumericSubsequence(col: seq<Cell>)
    requires !AnyText(col)
    ensures SubsequenceOf(ValidateNumeric(col).value, col)
    ensures ValidateNumeric(ValidateNumeric(col).value) == ValidateNumeric(col)
  {
    var v := Filter(col, PositiveFinite);
    FilterSubsequence(col, PositiveFinite);
    FilterIdempotent(col, PositiveFinite);
    assert !AnyText(v) by {
      forall i | 0 <= i < |v| ensures !v[i].Text? {
        assert v[i] in v;
      }
    }
  }

  /** `[1, 2, 3, None, inf, -inf, 0, -1]` is cleaned to `[1, 2, 3]`. */
  lemma ValidateNumericExample()
    ensures ValidateNumeric([Num(1.0), Num(2.0), Num(3.0), Missing, PosInf, NegInf, Num(0.0), Num(-1.0)])
         == Ok([Num(1.0), Num(2.0), Num(3.0)])
  {
    var good := [Num(1.0), Num(2.0), Num(3.0)];
    var bad := [Missing, PosInf, NegInf, Num(0.0), Num(-1.0)];
    var col := good + bad;
    assert col == [Num(1.0), Num(2.0), Num(3.0), Missing, PosInf, NegInf, Num(0.0), Num(-1.0)];
    assert !AnyText(col) by {
      forall i | 0 <= i < |col| ensures !col[i].Text? { }
    }
    FilterKeepsPrefix(good, bad, PositiveFinite);
  }

  /** Every required column of the row passes the filter. */
  predicate RowValid(r: Row, cols: seq<string>)
  {
    forall c :: c in cols ==> PositiveFinite(Get(r, c))
  }

  /** The rows `clean_data` keeps, in their original order. */
  function KeepValid(rows: seq<Row>, cols: seq<string>): (kept: seq<Row>)
    ensures forall x :: x in kept <==> x in rows && RowValid(x, cols)
  {
    Filter(rows, (x: Row) => RowValid(x, cols))
  }

  /** `col = validate_numeric_data(col)` on one entry: a failing entry becomes NaN. */
  function MaskCell(c: Cell): Cell
  {
    if PositiveFinite(c) then c else Missing
  }

  /** A row after each of `cols` has been overwritten with its filtered value. */
  function MaskRow(r: Row, cols: seq<string>): Row
  {
    if cols == [] then r
    else
      var m := MaskRow(r, cols[..|cols| - 1]);
      var c := cols[|cols| - 1];
      m[c := MaskCell(Get(m, c))]
  }

  function MaskRows(rows: seq<Row>, cols: seq<string>): (m: seq<Row>)
    ensures |m| == |rows|
  {
    seq(|rows|, j requires 0 <= j < |rows| => MaskRow(rows[j], cols))
  }

  /** `frame[c] = validate_numeric_data(frame[c])` over every row. */
  function MaskColumn(rows: seq<Row>, c: string): (m: seq<Row>)
    ensures |m| == |rows|
  {
    seq(|rows|, j requires 0 <= j < |rows| => rows[j][c := MaskCell(Get(rows[j], c))])
  }

  /** `dropna(subset=cols)`: no required column of the row is missing. */
  predicate NoneMissing(r: Row, cols: seq<string>)
  {
    forall c :: c in cols ==> !Get(r, c).Missing?
  }

  lemma {:induction false} MaskRowGet(r: Row, cols: seq<string>, c: string)
    ensures Get(MaskRow(r, cols), c) == if c in cols then MaskCell(Get(r, c)) else Get(r, c)
  {
    if cols != [] {
      var init := cols[..|cols| - 1];
      MaskRowGet(r, init, c);
      assert cols == init + [cols[|cols| - 1]];
    }
  }

  lemma {:induction false} MaskRowValid(r: Row, cols: seq<string>)
    requires RowValid(r, cols)
    ensures MaskRow(r, cols) == r
  {
    if cols != [] {
      var init := cols[..|cols| - 1];
      var c := cols[|cols| - 1];
      assert cols == init + [c];
      MaskRowValid(r, init);
      assert PositiveFinite(Get(r, c));
      assert c in r;
    }
  }

  lemma MaskRowNoneMissing(r: Row, cols: seq<string>)
    ensures NoneMissing(MaskRow(r, cols), cols) <==> RowValid(r, cols)
  {
    forall c | c in cols ensures !Get(MaskRow(r, cols), c).Missing? <==> PositiveFinite(Get(r, c)) {
      MaskRowGet(r, cols, c);
    }
  }

  /** Masking every required column and then dropping gaps keeps exactly the valid rows. */
  lemma {:induction false} MaskThenDrop(rows: seq<Row>, cols: seq<string>)
    ensures Filter(MaskRows(rows, cols), (x: Row) => NoneMissing(x, cols)) == KeepValid(rows, cols)
  {
    if rows != [] {
      MaskThenDrop(rows[1..], cols);
      assert MaskRows(rows, cols)[1..] == MaskRows(rows[1..], cols);
      MaskRowNoneMissing(rows[0], cols);
      if RowValid(rows[0], cols) {
        MaskRowValid(rows[0], cols);
      }
    }
  }

  lemma MaskStep(rows: seq<Row>, cols: seq<string>, c: string)
    ensures MaskColumn(MaskRows(rows, cols), c) == MaskRows(rows, cols + [c])
  {
    assert (cols + [c])[..|cols|] == cols;
  }

  /**
   * Text in column `c` of the masked rows is text of the original column,
   * unless `c` was masked already.
   */
  lemma MaskedText(rows: seq<Row>, cols: seq<string>, c: string)
    ensures AnyText(Column(MaskRows(rows, cols), c)) <==> c !in cols && AnyText(Column(rows, c))
  {
    var m := MaskRows(rows, cols);
    forall j | 0 <= j < |rows| ensures Get(m[j], c) == if c in cols then MaskCell(Get(rows[j], c)) else Get(rows[j], c) {
      MaskRowGet(rows[j], cols, c);
    }
    if AnyText(Column(m, c)) {
      var j :| 0 <= j < |m| && Column(m, c)[j].Text?;
      assert Column(rows, c)[j].Text?;
    }
    if c !in cols && AnyText(Column(rows, c)) {
      var j :| 0 <= j < |rows| && Column(rows, c)[j].Text?;
      assert Column(m, c)[j].Text?;
    }
  }

  /**
   * The first required column that makes the column loop of `clean_data`
   * raise: one that is absent, or one holding text.
   */
  function FirstFailure(f: Frame, cols: seq<string>): (r: Option<Failure>)
    ensures r.None? <==> forall c :: c in cols ==> c in f.columns && !AnyText(Column(f.rows, c))
  {
    if cols == [] then None
    else if cols[0] !in f.columns then
      Some(Failure(DataVisualizationError, Plain("Required column '" + cols[0] + "' not found in data")))
    else if AnyText(Column(f.rows, cols[0])) then Some(ComparisonError)
    else FirstFailure(f, cols[1..])
  }

  const InsufficientData := Failure(DataVisualizationError, Plain("Insufficient valid data points after cleaning"))

  /** `raise DataVisualizationError(f"Error during data cleaning: {e}")` */
  function WrapCleaning(e: Failure): Failure
  {
    Failure(DataVisualizationError, Wrapping("Error during data cleaning: ", e))
  }

  /** What `clean_data` of the visualizer script and of the utilities module returns. */
  function Cleaned(f: Frame, cols: seq<string>): Result<Frame>
  {
    match FirstFailure(f, cols)
    case Some(e) => Err(WrapCleaning(e))
    case None =>
      var kept := KeepValid(f.rows, cols);
      if |kept| < 2 then Err(WrapCleaning(InsufficientData)) else Ok(Frame(f.columns, kept))
  }

  /**
   * `clean_data` (scripts/updated_visualizer.py, src/utils/utils.py,
   * utils/utils.py): overwrite each required column of a copy with its
   * filtered values, then drop the rows with a gap.
   */
  method CleanData(f: Frame, cols: seq<string>) returns (r: Result<Frame>)
    ensures r == Cleaned(f, cols)
  {
    var rows := f.rows;
    var i := 0;
    while i < |cols|
      invariant Masked(f, cols, i, rows)
      invariant FirstFailure(f, cols) == FirstFailure(f, cols[i..])
    {
      var next := MaskNext(f, cols, i, rows);
      if next.Err? {
        return Err(WrapCleaning(next.error));
      }
      rows := next.value;
      i := i + 1;
    }
    assert cols[..i] == cols && cols[i..] == [];
    r := DropGaps(f, cols, rows);
  }

  /** The end of `clean_data`: drop the rows with a gap and insist on two rows. */
  method DropGaps(f: Frame, cols: seq<string>, rows: seq<Row>) returns (r: Result<Frame>)
    requires rows == MaskRows(f.rows, cols) && FirstFailure(f, cols).None?
    ensures r == Cleaned(f, cols)
  {
    MaskThenDrop(f.rows, cols);
    var kept := Filter(rows, (x: Row) => NoneMissing(x, cols));
    if |kept| < 2 {
      return Err(WrapCleaning(InsufficientData));
    }
    return Ok(Frame(f.columns, kept));
  }

  /** The first `i` required columns are checked and masked in `rows`. */
  predicate Masked(f: Frame, cols: seq<string>, i: nat, rows: seq<Row>)
  {
    i <= |cols| && rows == MaskRows(f.rows, cols[..i]) &&
    forall c :: c in cols[..i] ==> c in f.columns && !AnyText(Column(f.rows, c))
  }

  /** One pass of the column loop of `clean_data`: check column `cols[i]`, then mask it. */
  method MaskNext(f: Frame, cols: seq<string>, i: nat, rows: seq<Row>) returns (r: Result<seq<Row>>)
    requires i < |cols| && Masked(f, cols, i, rows)
    requires FirstFailure(f, cols) == FirstFailure(f, cols[i..])
    ensures r.Err? ==> FirstFailure(f, cols) == Some(r.error)
    ensures r.Ok? ==> Masked(f, cols, i + 1, r.value)
    ensures r.Ok? ==> FirstFailure(f, cols) == FirstFailure(f, cols[i + 1..])
  {
    var c := cols[i];
    FirstFailureAt(f, cols, i);
    if c !in f.columns {
      return Err(Failure(DataVisualizationError, Plain("Required column '" + c + "' not found in data")));
    }
    MaskedTextAt(f, cols, i, rows);
    var checked := ValidateNumeric(Column(rows, c));
    if checked.Err? {
      return Err(checked.error);
    }
    MaskedExtend(f, cols, i, rows);
    return Ok(MaskColumn(rows, c));
  }

  lemma FirstFailureAt(f: Frame, cols: seq<string>, i: nat)
    requires i < |cols|
    ensures FirstFailure(f, cols[i..]) ==
      if cols[i] !in f.columns then Some(Failure(DataVisualizationError, Plain("Required column '" + cols[i] + "' not found in data")))
      else if AnyText(Column(f.rows, cols[i])) then Some(ComparisonError)
      else FirstFailure(f, cols[i + 1..])
  {
    assert cols[i..][0] == cols[i] && cols[i..][1..] == cols[i + 1..];
  }

  /** Column `cols[i]` of the partly masked rows holds text exactly when the original does. */
  lemma MaskedTextAt(f: Frame, cols: seq<string>, i: nat, rows: seq<Row>)
    requires i < |cols| && Masked(f, cols, i, rows)
    ensures AnyText(Column(rows, cols[i])) <==> AnyText(Column(f.rows, cols[i]))
  {
    MaskedText(f.rows, cols[..i], cols[i]);
  }

  lemma MaskedExtend(f: Frame, cols: seq<string>, i: nat, rows: seq<Row>)
    requires i < |cols| && Masked(f, cols, i, rows)
    requires cols[i] in f.columns && !AnyText(Column(f.rows, cols[i]))
    ensures Masked(f, cols, i + 1, MaskColumn(rows, cols[i]))
  {
    MaskStep(f.rows, cols[..i], cols[i]);
    assert cols[..i + 1] == cols[..i] + [cols[i]];
  }

  /**
   * `clean_data` succeeds exactly when every required column is present and
   * numeric and at least two rows survive; every error it raises is a
   * `DataVisualizationError` about data cleaning, and an absent first
   * required column is reported by name before anything else.
   */
  lemma CleanedOutcome(f: Frame, cols: seq<string>)
    ensures Cleaned(f, cols).Ok? <==>
      (forall c :: c in cols ==> c in f.columns && !AnyText(Column(f.rows, c))) && |KeepValid(f.rows, cols)| >= 2
    ensures Cleaned(f, cols).Err? ==>
      Cleaned(f, cols).error.kind == DataVisualizationError &&
      Cleaned(f, cols).error.msg.Wrapping? && Cleaned(f, cols).error.msg.prefix == "Error during data cleaning: "
    ensures Cleaned(f, cols).Ok? ==>
      Cleaned(f, cols).value.columns == f.columns && |Cleaned(f, cols).value.rows| >= 2 &&
      SubsequenceOf(Cleaned(f, cols).value.rows, f.rows) &&
      forall x :: x in Cleaned(f, cols).value.rows <==> x in f.rows && RowValid(x, cols)
    ensures cols != [] && cols[0] !in f.columns ==>
      Cleaned(f, cols) == Err(WrapCleaning(Failure(DataVisualizationError, Plain("Required column '" + cols[0] + "' not found in data"))))
  {
    FilterSubsequence(f.rows, (x: Row) => RowValid(x, cols));
  }

  function AB(a: Cell, b: Cell): Row
  {
    map["A" := a, "B" := b]
  }

  /** Valid rows followed by invalid ones, with every column numeric, clean to the valid rows. */
  lemma CleanedKeepsPrefix(cols: seq<string>, good: seq<Row>, bad: seq<Row>)
    requires |good| >= 2
    requires forall i :: 0 <= i < |good| ==> RowValid(good[i], cols)
    requires forall i :: 0 <= i < |bad| ==> !RowValid(bad[i], cols)
    requires forall i, c :: 0 <= i < |bad| && c in cols ==> !Get(bad[i], c).Text?
    ensures Cleaned(Frame(cols, good + bad), cols) == Ok(Frame(cols, good))
  {
    var f := Frame(cols, good + bad);
    forall c | c in cols ensures !AnyText(Column(f.rows, c)) {
      forall i | 0 <= i < |f.rows| ensures !Column(f.rows, c)[i].Text? {
        if i < |good| { assert f.rows[i] == good[i]; } else { assert f.rows[i] == bad[i - |good|]; }
      }
    }
    FilterKeepsPrefix(good, bad, (x: Row) => RowValid(x, cols));
  }

  /**
   * Two columns where only the first three rows are valid in both keep
   * exactly those rows: a missing, an infinite, a zero and a negative `A`
   * each drop their row.
   */
  lemma CleanedExample(good: seq<Row>, bad: seq<Row>)
    requires good == [AB(Num(1.0), Num(1.0)), AB(Num(2.0), Num(2.0)), AB(Num(3.0), Num(3.0))]
    requires bad == [AB(Missing, Num(4.0)), AB(PosInf, Num(5.0)), AB(NegInf, Num(6.0)), AB(Num(0.0), Num(7.0)), AB(Num(-1.0), Num(8.0))]
    ensures Cleaned(Frame(["A", "B"], good + bad), ["A", "B"]) == Ok(Frame(["A", "B"], good))
  {
    ExampleRowsSplit(["A", "B"], good, bad);
    CleanedKeepsPrefix(["A", "B"], good, bad);
  }

  lemma ExampleRowsSplit(cols: seq<string>, good: seq<Row>, bad: seq<Row>)
    requires cols == ["A", "B"]
    requires good == [AB(Num(1.0), Num(1.0)), AB(Num(2.0), Num(2.0)), AB(Num(3.0), Num(3.0))]
    requires bad == [AB(Missing, Num(4.0)), AB(PosInf, Num(5.0)), AB(NegInf, Num(6.0)), AB(Num(0.0), Num(7.0)), AB(Num(-1.0), Num(8.0))]
    ensures forall i :: 0 <= i < |good| ==> RowValid(good[i], cols)
    ensures forall i :: 0 <= i < |bad| ==> !RowValid(bad[i], cols)
    ensures forall i, c :: 0 <= i < |bad| && c in cols ==> !Get(bad[i], c).Text?
  {
    forall i | 0 <= i < |good| ensures RowValid(good[i], cols) { }
    forall i | 0 <= i < |bad| ensures !RowValid(bad[i], cols) {
      assert !PositiveFinite(Get(bad[i], "A"));
    }
    forall i, c | 0 <= i < |bad| && c in cols ensures !Get(bad[i], c).Text? {
      assert c == "A" || c == "B";
    }
  }
}
