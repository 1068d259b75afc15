/**
 * The application's data validator: reports on the summary workbook, the
 * hydrograph workbook and the processed river-mile workbooks, and the
 * consistency between the river miles of the summary and of the processed
 * files. A report is `None` where the validator logs an error and gives up.
 */
module Validator {
  import opened Errors
  import opened Frames
  import opened Paths
  import opened PurePath
  import Loader
  import Processor
  import PyFloat
  import Strings

  const RiverMileCol: string := "River_Mile"
  const Unorderable: Failure := Failure(TypeError, Plain("'<' not supported between instances of 'str' and 'float'"))
  const NanToInt: Failure := Failure(ValueError, Plain("cannot convert float NaN to integer"))
  const InfToInt: Failure := Failure(OverflowError, Plain("cannot convert float infinity to integer"))
  const IntLiteral: string := "invalid literal for int() with base 10: "
  const FloatLiteral: string := "could not convert string to float: "

  // ----- Column minimum and maximum ------------------------------------------

  /**
   * `col.min()`: NaN is skipped and the least other cell in the order
   * `KeyLe` gives is returned, or NaN when there is none. On a column
   * `Orderable` admits this is the numeric minimum, or the least string of
   * a column of text.
   */
  function Least(col: seq<Cell>): (m: Cell)
    ensures m.Missing? <==> forall i :: 0 <= i < |col| ==> col[i].Missing?
    ensures !m.Missing? ==> m in col
  {
    if col == [] then Missing
    else
      var rest := Least(col[1..]);
      assert forall i :: 1 <= i < |col| ==> col[i] == col[1..][i - 1];
      if col[0].Missing? then rest
      else if rest.Missing? || KeyLe(col[0], rest) then col[0]
      else rest
  }

  /** `col.max()`: the greatest cell that is not NaN, or NaN when there is none. */
  function Greatest(col: seq<Cell>): (m: Cell)
    ensures m.Missing? <==> forall i :: 0 <= i < |col| ==> col[i].Missing?
    ensures !m.Missing? ==> m in col
  {
    if col == [] then Missing
    else
      var rest := Greatest(col[1..]);
      assert forall i :: 1 <= i < |col| ==> col[i] == col[1..][i - 1];
      if col[0].Missing? then rest
      else if rest.Missing? || KeyLe(rest, col[0]) then col[0]
      else rest
  }

  /** The minimum is at most every cell that is not NaN. */
  lemma {:induction false} LeastBelow(col: seq<Cell>, i: nat)
    requires i < |col| && !col[i].Missing?
    ensures KeyLe(Least(col), col[i])
  {
    var rest := Least(col[1..]);
    if i > 0 {
      assert col[i] == col[1..][i - 1];
      LeastBelow(col[1..], i - 1);
      if !col[0].Missing? && KeyLe(col[0], rest) {
        KeyLeTransitive(col[0], rest, col[i]);
      }
    } else {
      KeyLeTotal(col[0], col[0]);
      KeyLeTotal(col[0], rest);
    }
  }

  /** The maximum is at least every cell that is not NaN. */
  lemma {:induction false} GreatestAbove(col: seq<Cell>, i: nat)
    requires i < |col| && !col[i].Missing?
    ensures KeyLe(col[i], Greatest(col))
  {
    var rest := Greatest(col[1..]);
    if i > 0 {
      assert col[i] == col[1..][i - 1];
      GreatestAbove(col[1..], i - 1);
      if !col[0].Missing? && KeyLe(rest, col[0]) {
        KeyLeTransitive(col[i], rest, col[0]);
      }
    } else {
      KeyLeTotal(col[0], col[0]);
      KeyLeTotal(col[0], rest);
    }
  }

  /** The least cell is at most the greatest one. */
  lemma LeastBelowGreatest(col: seq<Cell>)
    requires !Least(col).Missing?
    ensures KeyLe(Least(col), Greatest(col))
  {
    assert !Greatest(col).Missing?;
    var k :| 0 <= k < |col| && col[k] == Greatest(col);
    LeastBelow(col, k);
  }

  /**
   * `[col.min(), col.max()]`: text compared with a number or with NaN
   * raises, so only columns without text and columns of text have a span.
   */
  function Span(col: seq<Cell>): (r: Result<(Cell, Cell)>)
    ensures r.Ok? <==> Orderable(col)
    ensures r.Err? ==> r.error == Unorderable
    ensures r.Ok? ==> r.value == (Least(col), Greatest(col))
  {
    if !Orderable(col) then Err(Unorderable) else Ok((Least(col), Greatest(col)))
  }

  /** A column without text spans from its least to its greatest number, or is NaN throughout. */
  lemma NumberSpan(col: seq<Cell>)
    requires !AnyText(col)
    ensures Span(col).Ok?
    ensures var (lo, hi) := Span(col).value;
      (lo.Missing? <==> hi.Missing?) && (lo.Missing? ==> forall i :: 0 <= i < |col| ==> col[i].Missing?) &&
      (!lo.Missing? ==> (IsFloat(lo) && IsFloat(hi) && lo in col && hi in col &&
                         forall i :: 0 <= i < |col| && !col[i].Missing? ==> KeyLe(lo, col[i]) && KeyLe(col[i], hi)))
  {
    forall i | 0 <= i < |col| && !col[i].Missing? ensures KeyLe(Least(col), col[i]) && KeyLe(col[i], Greatest(col)) {
      LeastBelow(col, i);
      GreatestAbove(col, i);
    }
  }

  /** A column of text spans from its least to its greatest string. */
  lemma TextSpan(col: seq<Cell>)
    requires col != [] && AllText(col)
    ensures Span(col).Ok?
    ensures var (lo, hi) := Span(col).value;
      lo.Text? && hi.Text? && lo in col && hi in col &&
      forall i :: 0 <= i < |col| ==> Strings.LessEq(lo.s, col[i].s) && Strings.LessEq(col[i].s, hi.s)
  {
    assert col[0].Text?;
    forall i | 0 <= i < |col| ensures Strings.LessEq(Least(col).s, col[i].s) && Strings.LessEq(col[i].s, Greatest(col).s) {
      LeastBelow(col, i);
      GreatestAbove(col, i);
    }
  }

  /** `int(x)` of a cell `min` or `max` gave. */
  function IntOf(c: Cell): (r: Result<int>)
    ensures c.Num? ==> r == Ok(PyFloat.Trunc(c.v))
    ensures c.Missing? ==> r == Err(NanToInt)
    ensures (c.PosInf? || c.NegInf?) ==> r == Err(InfToInt)
    ensures c.Text? ==> (r.Ok? <==> PyFloat.ParseInt(c.s).Some?)
    ensures c.Text? && r.Ok? ==> r.value == PyFloat.ParseInt(c.s).value
    ensures c.Text? && r.Err? ==> r.error == Failure(ValueError, WithRepr(IntLiteral, c.s))
  {
    match c
    case Num(v) => Ok(PyFloat.Trunc(v))
    case Missing => Err(NanToInt)
    case Text(t) =>
      (match PyFloat.ParseInt(t)
       case Some(i) => Ok(i)
       case None => Err(Failure(ValueError, WithRepr(IntLiteral, t))))
    case _ => Err(InfToInt)
  }

  /** `int` gives back an integer year, whether it was read as a number or as its digits. */
  lemma IntOfPrinted(i: int)
    ensures IntOf(Num(i as real)) == Ok(i)
    ensures IntOf(Text(Strings.IntToString(i))) == Ok(i)
  {
    var x := i as real;
    if x >= 0.0 {
      assert x.Floor == i;
    } else {
      assert (-x).Floor == -i;
    }
    PyFloat.ParseIntToString(i);
  }

  /** `float(x)` of a cell `min` or `max` gave: text is parsed, anything else kept. */
  function FloatOf(c: Cell): (r: Result<Cell>)
    ensures !c.Text? ==> r == Ok(c)
    ensures c.Text? ==> (r.Ok? <==> PyFloat.ParseFloat(c.s).Some?)
    ensures c.Text? && r.Ok? ==> r.value == Num(PyFloat.ParseFloat(c.s).value)
    ensures c.Text? && r.Err? ==> r.error == Failure(ValueError, WithRepr(FloatLiteral, c.s))
  {
    match c
    case Text(t) =>
      (match PyFloat.ParseFloat(t)
       case Some(v) => Ok(Num(v))
       case None => Err(Failure(ValueError, WithRepr(FloatLiteral, t))))
    case _ => Ok(c)
  }

  /** `float` gives back a whole number of seconds written as its digits. */
  lemma FloatOfPrinted(n: nat)
    ensures FloatOf(Text(Strings.NatToString(n))) == Ok(Num(n as real))
  {
    PyFloat.ParseNatToString(n);
  }

  // ----- validate_summary_file -----------------------------------------------

  datatype SummaryReport = SummaryReport(
    file: string,
    columns: seq<string>,
    rows: nat,
    requiredPresent: bool,
    riverMiles: seq<Cell>,
    missingValues: map<string, nat>)

  function IsNaN(c: Cell): bool
  {
    c.Missing?
  }

  /** `df[cols].isna().sum()` */
  function MissingCounts(rows: seq<Row>, cols: seq<string>): (m: map<string, nat>)
    ensures forall c :: c in m <==> c in cols
    ensures forall c :: c in m ==> m[c] == Count(Column(rows, c), IsNaN) && m[c] <= |rows|
  {
    map c | c in cols :: Count(Column(rows, c), IsNaN)
  }

  /**
   * `validate_summary_file`, given whether the file exists and what reading
   * it gives: a report exactly when the loader would accept the table.
   */
  function ValidateSummary(present: bool, file: Path, read: Result<Frame>): (r: Option<SummaryReport>)
    ensures r.Some? <==> Loader.SummaryData(present, file, read).Ok?
    ensures r.Some? ==> (r.value.file == Name(file) && r.value.columns == read.value.columns &&
      r.value.rows == |read.value.rows| && r.value.requiredPresent)
    ensures r.Some? ==> (|r.value.riverMiles| == |read.value.rows| &&
      forall i :: 0 <= i < |read.value.rows| ==> r.value.riverMiles[i] == Get(read.value.rows[i], RiverMileCol))
    ensures r.Some? ==> forall c :: c in r.value.missingValues <==> c in Loader.SummaryRequired
  {
    if !present || read.Err? then None
    else if Loader.ValidateColumns(read.value.columns, Loader.SummaryRequired, Loader.SummaryContext).Some? then None
    else
      var f := read.value;
      Some(SummaryReport(Name(file), f.columns, |f.rows|, true, Column(f.rows, RiverMileCol),
        MissingCounts(f.rows, Loader.SummaryRequired)))
  }

  // ----- validate_hydro_file -------------------------------------------------

  datatype SheetInfo = SheetInfo(
    name: string,
    columns: seq<string>,
    rows: nat,
    requiredPresent: bool,
    years: Option<seq<Cell>>,
    timeRange: Option<(Cell, Cell)>)

  /** Ascending in the order `KeyLe` gives, without repeats. */
  predicate CellsIncreasing(s: seq<Cell>)
  {
    forall i, j :: 0 <= i < j < |s| ==> KeyLe(s[i], s[j]) && s[i] != s[j]
  }

  lemma PrependIncreasing(x: Cell, s: seq<Cell>)
    requires CellsIncreasing(s) && (s != [] ==> KeyLe(x, s[0]) && x != s[0])
    ensures CellsIncreasing([x] + s)
  {
    var r := [x] + s;
    forall i, j | 0 <= i < j < |r| ensures KeyLe(r[i], r[j]) && r[i] != r[j] {
      if i == 0 && j > 1 {
        KeyLeTransitive(x, s[0], s[j - 1]);
        if x == s[j - 1] {
          KeyLeAntisymmetric(x, s[0]);
        }
      }
    }
  }

  lemma HeadBelowRest(s: seq<Cell>)
    requires CellsIncreasing(s) && s != []
    ensures CellsIncreasing(s[1..])
    ensures forall c :: c in s[1..] ==> KeyLe(s[0], c) && s[0] != c
  {
    forall c | c in s[1..] ensures KeyLe(s[0], c) && s[0] != c {
      var k :| 0 <= k < |s[1..]| && s[1..][k] == c;
      assert s[k + 1] == c;
    }
  }

  function InsertCell(x: Cell, s: seq<Cell>): (r: seq<Cell>)
    requires CellsIncreasing(s)
    ensures forall c :: c in r <==> c == x || c in s
    ensures CellsIncreasing(r)
  {
    if s == [] then [x]
    else if x == s[0] then s
    else if KeyLe(x, s[0]) then
      PrependIncreasing(x, s);
      [x] + s
    else
      HeadBelowRest(s);
      KeyLeTotal(x, s[0]);
      var rest := InsertCell(x, s[1..]);
      assert rest[0] in rest;
      PrependIncreasing(s[0], rest);
      assert s == [s[0]] + s[1..];
      [s[0]] + rest
  }

  /** The distinct cells of a column, ascending in the order `KeyLe` gives. */
  function SortedCells(col: seq<Cell>): (r: seq<Cell>)
    ensures forall c :: c in r <==> c in col
    ensures CellsIncreasing(r)
  {
    if col == [] then []
    else
      assert col == [col[0]] + col[1..];
      InsertCell(col[0], SortedCells(col[1..]))
  }

  /**
   * `sorted(df['Year'].unique().tolist())`, when there is a year column:
   * text beside a number or NaN raises; otherwise every distinct value
   * once, ascending, and NaN, the one value `KeyLe` puts after all others,
   * last.
   */
  function SheetYears(f: Frame): (r: Result<Option<seq<Cell>>>)
    ensures YearCol !in f.columns ==> r == Ok(None)
    ensures YearCol in f.columns ==> (r.Ok? <==> Orderable(Column(f.rows, YearCol)))
    ensures r.Err? ==> r.error == Unorderable
    ensures r.Ok? && r.value.Some? ==> (CellsIncreasing(r.value.value) &&
      forall y :: y in r.value.value <==> y in Column(f.rows, YearCol))
  {
    if YearCol !in f.columns then Ok(None)
    else
      var col := Column(f.rows, YearCol);
      if !Orderable(col) then Err(Unorderable) else Ok(Some(SortedCells(col)))
  }

  /** `[min, max]` of the time column, when there is one and the sheet has rows. */
  function TimeRange(f: Frame): (r: Result<Option<(Cell, Cell)>>)
    ensures (TimeSeconds !in f.columns || f.rows == []) ==> r == Ok(None)
    ensures TimeSeconds in f.columns && f.rows != [] ==> (r.Ok? <==> Span(Column(f.rows, TimeSeconds)).Ok?)
    ensures r.Err? ==> r.error == Unorderable
    ensures r.Ok? && r.value.Some? ==> r.value.value == Span(Column(f.rows, TimeSeconds)).value
  {
    if TimeSeconds !in f.columns || f.rows == [] then Ok(None)
    else
      match Span(Column(f.rows, TimeSeconds))
      case Err(e) => Err(e)
      case Ok(s) => Ok(Some(s))
  }

  /** The entry `validate_hydro_file` appends for one `RM_` sheet. */
  function SheetInfoOf(name: string, f: Frame): (r: Result<SheetInfo>)
    ensures r.Ok? <==> SheetYears(f).Ok? && TimeRange(f).Ok?
    ensures r.Ok? ==> r.value.name == name && r.value.columns == f.columns && r.value.rows == |f.rows|
    ensures r.Ok? ==> (r.value.requiredPresent <==> TimeSeconds in f.columns && YearCol in f.columns)
    ensures r.Ok? ==> r.value.years == SheetYears(f).value && r.value.timeRange == TimeRange(f).value
  {
    match SheetYears(f)
    case Err(e) => Err(e)
    case Ok(years) =>
      match TimeRange(f)
      case Err(e) => Err(e)
      case Ok(range) =>
        Ok(SheetInfo(name, f.columns, |f.rows|, TimeSeconds in f.columns && YearCol in f.columns, years, range))
  }

  /** The entries for the `RM_` sheets in order; a sheet that cannot be read or summarised ends it. */
  function SheetInfos(sheets: Loader.Workbook): (r: Result<seq<SheetInfo>>)
    ensures r.Ok? <==> (forall i :: 0 <= i < |sheets| ==>
      sheets[i].1.Ok? && SheetInfoOf(sheets[i].0, sheets[i].1.value).Ok?)
    ensures r.Ok? ==> (|r.value| == |sheets| &&
      forall i :: 0 <= i < |sheets| ==> r.value[i] == SheetInfoOf(sheets[i].0, sheets[i].1.value).value)
  {
    if sheets == [] then Ok([])
    else
      var n := |sheets| - 1;
      var (name, read) := sheets[n];
      assert forall i :: 0 <= i < n ==> sheets[..n][i] == sheets[i];
      match SheetInfos(sheets[..n])
      case Err(e) => Err(e)
      case Ok(infos) =>
        if read.Err? then Err(read.error)
        else
          match SheetInfoOf(name, read.value)
          case Err(e) => Err(e)
          case Ok(info) => Ok(infos + [info])
  }

  /** The sheets of a workbook whose names start with `RM_`, in order. */
  function RmSheets(workbook: Loader.Workbook): (r: Loader.Workbook)
    ensures forall x :: x in r <==> x in workbook && Loader.RiverMileSheet(x.0)
  {
    Filter(workbook, (x: (string, Result<Frame>)) => Loader.RiverMileSheet(x.0))
  }

  function SheetName(x: (string, Result<Frame>)): string
  {
    x.0
  }

  datatype HydroReport = HydroReport(file: string, sheets: seq<SheetInfo>, riverMileSheets: seq<string>)

  /**
   * `validate_hydro_file`, given whether the file exists and what opening
   * it gives: `None` when it is absent, cannot be opened, has no `RM_`
   * sheet, or one of those sheets cannot be read or summarised.
   */
  function ValidateHydro(present: bool, file: Path, workbook: Result<Loader.Workbook>): (r: Option<HydroReport>)
    ensures (!present || workbook.Err?) ==> r.None?
    ensures present && workbook.Ok? && RmSheets(workbook.value) == [] ==> r.None?
    ensures r.Some? <==> (present && workbook.Ok? && RmSheets(workbook.value) != [] &&
                          SheetInfos(RmSheets(workbook.value)).Ok?)
    ensures r.Some? ==> (r.value.file == Name(file) && r.value.riverMileSheets != [] &&
      r.value.riverMileSheets == Map(RmSheets(workbook.value), SheetName) &&
      Some(r.value.sheets) == ValueOf(SheetInfos(RmSheets(workbook.value))))
  {
    if !present || workbook.Err? then None
    else
      var rm := RmSheets(workbook.value);
      if rm == [] then None
      else
        match SheetInfos(rm)
        case Err(_) => None
        case Ok(infos) => Some(HydroReport(Name(file), infos, Map(rm, SheetName)))
  }

  /** The value of a result, if it has one. */
  function ValueOf<T>(r: Result<T>): Option<T>
  {
    if r.Ok? then Some(r.value) else None
  }

  /** `[f(x) for x in s]` */
  function Map<T, U>(s: seq<T>, f: T -> U): (r: seq<U>)
    ensures |r| == |s| && forall i :: 0 <= i < |s| ==> r[i] == f(s[i])
  {
    seq(|s|, i requires 0 <= i < |s| => f(s[i]))
  }

  /** `validate_hydro_file`, summarising the `RM_` sheets one at a time. */
  method ValidateHydroFile(present: bool, file: Path, workbook: Result<Loader.Workbook>) returns (r: Option<HydroReport>)
    ensures r == ValidateHydro(present, file, workbook)
  {
    if !present || workbook.Err? {
      return None;
    }
    var rm := RmSheets(workbook.value);
    if rm == [] {
      return None;
    }
    var sheetInfo: seq<SheetInfo> := [];
    var i := 0;
    while i < |rm|
      invariant 0 <= i <= |rm|
      invariant SheetInfos(rm[..i]) == Ok(sheetInfo)
    {
      assert rm[..i + 1][..i] == rm[..i] && rm[..i + 1][i] == rm[i];
      var (name, read) := rm[i];
      if read.Err? {
        assert !rm[i].1.Ok?;
        return None;
      }
      var info := SheetInfoOf(name, read.value);
      if info.Err? {
        assert !SheetInfoOf(rm[i].0, rm[i].1.value).Ok?;
        return None;
      }
      sheetInfo := sheetInfo + [info.value];
      i := i + 1;
    }
    assert rm[..i] == rm;
    return Some(HydroReport(Name(file), sheetInfo, Map(rm, SheetName)));
  }

  /**
   * A hydrograph report lists the `RM_` sheets of the workbook in order,
   * describes each of them at the same position, and gives each sheet's
   * years ascending and without repeats.
   */
  lemma HydroReportSheets(present: bool, file: Path, workbook: Result<Loader.Workbook>)
    ensures ValidateHydro(present, file, workbook).Some? ==>
      var r := ValidateHydro(present, file, workbook).value;
      |r.sheets| == |r.riverMileSheets| &&
      (forall i :: 0 <= i < |r.sheets| ==> r.sheets[i].name == r.riverMileSheets[i]) &&
      (forall n :: n in r.riverMileSheets <==> Loader.RiverMileSheet(n) && exists x :: x in workbook.value && x.0 == n) &&
      (forall i :: 0 <= i < |r.sheets| && r.sheets[i].years.Some? ==> CellsIncreasing(r.sheets[i].years.value))
  {
    if ValidateHydro(present, file, workbook).Some? {
      RmSheetNames(workbook.value);
    }
  }

  /** The names of the `RM_` sheets are the `RM_` names of the workbook. */
  lemma RmSheetNames(workbook: Loader.Workbook)
    ensures forall n :: n in Map(RmSheets(workbook), SheetName) <==>
      Loader.RiverMileSheet(n) && exists x :: x in workbook && x.0 == n
  {
    var rm := RmSheets(workbook);
    var names := Map(rm, SheetName);
    forall n ensures n in names <==> Loader.RiverMileSheet(n) && exists x :: x in workbook && x.0 == n {
      if n in names {
        var k :| 0 <= k < |rm| && names[k] == n;
        assert rm[k] in rm;
      }
      if Loader.RiverMileSheet(n) && exists x :: x in workbook && x.0 == n {
        var x :| x in workbook && x.0 == n;
        assert x in rm;
        var k :| 0 <= k < |rm| && rm[k] == x;
        assert names[k] == n;
      }
    }
  }

  // ----- validate_processed_files --------------------------------------------

  datatype ProcessedEntry =
    | Checked(
        file: string,
        riverMile: Option<real>,
        columns: seq<string>,
        rows: nat,
        requiredPresent: bool,
        sensorColumns: seq<string>,
        yearRange: Option<(int, int)>,
        timeRange: Option<(Cell, Cell)>)
    | Unreadable(file: string, error: Failure)

  /** `[int(df['Year'].min()), int(df['Year'].max())]`, when there is a year column with rows. */
  function YearRange(f: Frame): (r: Result<Option<(int, int)>>)
    ensures (YearCol !in f.columns || f.rows == []) ==> r == Ok(None)
    ensures YearCol in f.columns && f.rows != [] && !Orderable(Column(f.rows, YearCol)) ==> r == Err(Unorderable)
    ensures YearCol in f.columns && f.rows != [] && Orderable(Column(f.rows, YearCol)) ==>
      var col := Column(f.rows, YearCol);
      (r.Ok? <==> IntOf(Least(col)).Ok? && IntOf(Greatest(col)).Ok?) &&
      (r.Ok? ==> r.value == Some((IntOf(Least(col)).value, IntOf(Greatest(col)).value))) &&
      (r.Err? ==> r.error == if IntOf(Least(col)).Err? then IntOf(Least(col)).error else IntOf(Greatest(col)).error)
  {
    if YearCol !in f.columns || f.rows == [] then Ok(None)
    else
      var col := Column(f.rows, YearCol);
      if !Orderable(col) then Err(Unorderable)
      else
        match IntOf(Least(col))
        case Err(e) => Err(e)
        case Ok(lo) =>
          match IntOf(Greatest(col))
          case Err(e) => Err(e)
          case Ok(hi) => Ok(Some((lo, hi)))
  }

  /** `[float(df['Time (Seconds)'].min()), float(df['Time (Seconds)'].max())]` */
  function FloatRange(f: Frame): (r: Result<Option<(Cell, Cell)>>)
    ensures TimeRange(f).Err? ==> r == TimeRange(f)
    ensures TimeRange(f) == Ok(None) ==> r == Ok(None)
    ensures TimeRange(f).Ok? && TimeRange(f).value.Some? ==>
      var (lo, hi) := TimeRange(f).value.value;
      (r.Ok? <==> FloatOf(lo).Ok? && FloatOf(hi).Ok?) &&
      (r.Ok? ==> r.value == Some((FloatOf(lo).value, FloatOf(hi).value)))
    ensures r.Ok? && r.value.Some? ==> !r.value.value.0.Text? && !r.value.value.1.Text?
  {
    match TimeRange(f)
    case Err(e) => Err(e)
    case Ok(None) => Ok(None)
    case Ok(Some((lo, hi))) =>
      match FloatOf(lo)
      case Err(e) => Err(e)
      case Ok(a) =>
        match FloatOf(hi)
        case Err(e) => Err(e)
        case Ok(b) => Ok(Some((a, b)))
  }

  /** The entry `validate_processed_files` appends for one `RM_*.xlsx` file. */
  function ProcessedEntryOf(name: string, read: Result<Frame>): (e: ProcessedEntry)
    ensures e.file == name
    ensures read.Err? ==> e == Unreadable(name, read.error)
    ensures read.Ok? ==> (e.Checked? <==> YearRange(read.value).Ok? && FloatRange(read.value).Ok?)
    ensures read.Ok? && YearRange(read.value).Err? ==> e == Unreadable(name, YearRange(read.value).error)
    ensures read.Ok? && YearRange(read.value).Ok? && FloatRange(read.value).Err? ==>
      e == Unreadable(name, FloatRange(read.value).error)
    ensures e.Checked? ==> (e.riverMile == MileOf(Paths.Stem(name)) && e.columns == read.value.columns &&
      e.rows == |read.value.rows| &&
      (e.requiredPresent <==> TimeSeconds in read.value.columns && YearCol in read.value.columns) &&
      (forall c :: c in e.sensorColumns <==> c in read.value.columns && Processor.IsSensorColumn(c)) &&
      e.yearRange == YearRange(read.value).value && e.timeRange == FloatRange(read.value).value)
  {
    if read.Err? then Unreadable(name, read.error)
    else
      var f := read.value;
      match YearRange(f)
      case Err(err) => Unreadable(name, err)
      case Ok(years) =>
        match FloatRange(f)
        case Err(err) => Unreadable(name, err)
        case Ok(times) =>
          Checked(name, MileOf(Paths.Stem(name)), f.columns, |f.rows|,
            TimeSeconds in f.columns && YearCol in f.columns,
            Filter(f.columns, Processor.IsSensorColumn), years, times)
  }

  /** A listed file `glob("RM_*.xlsx")` yields. */
  function IsRmFile(x: (string, Result<Frame>)): bool
  {
    MatchesRmXlsx(x.0)
  }

  function EntryOf(x: (string, Result<Frame>)): ProcessedEntry
  {
    ProcessedEntryOf(x.0, x.1)
  }

  /**
   * `validate_processed_files`, given whether the directory exists and each
   * listed name with what reading it gives: one entry per `RM_*.xlsx` file,
   * in listing order, and none when the directory is absent.
   */
  function ValidateProcessed(present: bool, listing: seq<(string, Result<Frame>)>): (r: seq<ProcessedEntry>)
    ensures !present ==> r == []
    ensures present ==> r == Map(Filter(listing, IsRmFile), EntryOf)
  {
    if !present then [] else Map(Filter(listing, IsRmFile), EntryOf)
  }

  /** `validate_processed_files`, appending one entry per file. */
  method ValidateProcessedFiles(present: bool, listing: seq<(string, Result<Frame>)>) returns (results: seq<ProcessedEntry>)
    ensures results == ValidateProcessed(present, listing)
  {
    results := [];
    if !present {
      return;
    }
    var rmFiles := Filter(listing, IsRmFile);
    var i := 0;
    while i < |rmFiles|
      invariant 0 <= i <= |rmFiles|
      invariant results == Map(rmFiles[..i], EntryOf)
    {
      var (name, read) := rmFiles[i];
      results := results + [ProcessedEntryOf(name, read)];
      i := i + 1;
    }
    assert rmFiles[..i] == rmFiles;
  }

  /**
   * Every entry names an `RM_*.xlsx` file of the listing; an entry for a
   * readable file with a parsable name carries the river mile of its stem.
   */
  lemma ProcessedEntries(present: bool, listing: seq<(string, Result<Frame>)>)
    ensures forall e :: e in ValidateProcessed(present, listing) ==>
      MatchesRmXlsx(e.file) && exists x :: x in listing && x.0 == e.file
    ensures forall e :: e in ValidateProcessed(present, listing) && e.Checked? ==>
      e.riverMile == MileOf(Paths.Stem(e.file))
    ensures present ==> |ValidateProcessed(present, listing)| == |Filter(listing, IsRmFile)|
  {
    var r := ValidateProcessed(present, listing);
    var rm := Filter(listing, IsRmFile);
    forall e | e in r
      ensures MatchesRmXlsx(e.file) && (exists x :: x in listing && x.0 == e.file) &&
        (e.Checked? ==> e.riverMile == MileOf(Paths.Stem(e.file)))
    {
      var k :| 0 <= k < |r| && r[k] == e;
      assert rm[k] in rm;
      EntryNamesFile(rm[k]);
    }
  }

  /** An entry names its file and, once checked, carries the mile of the file's stem. */
  lemma EntryNamesFile(x: (string, Result<Frame>))
    ensures EntryOf(x).file == x.0
    ensures EntryOf(x).Checked? ==> EntryOf(x).riverMile == MileOf(Paths.Stem(x.0))
  {
  }

  // ----- run_validation ------------------------------------------------------

  datatype Consistency = Consistency(allSummaryProcessed: bool, missingProcessed: set<Cell>, extraProcessed: set<Cell>)

  datatype ValidationReport = ValidationReport(
    summary: Option<SummaryReport>,
    hydrograph: Option<HydroReport>,
    processed: seq<ProcessedEntry>,
    consistency: Option<Consistency>,
    overallValid: bool)

  /** `set(river_miles)` of the summary. */
  function SummaryRms(s: SummaryReport): (r: set<Cell>)
    ensures forall c :: c in r <==> c in s.riverMiles
  {
    set c | c in s.riverMiles
  }

  /** The river miles of the processed entries, leaving out those that have none. */
  function ProcessedRms(p: seq<ProcessedEntry>): (r: set<Cell>)
    ensures forall c :: c in r <==> exists i :: 0 <= i < |p| && p[i].Checked? && p[i].riverMile.Some? && c == Num(p[i].riverMile.value)
  {
    set i | 0 <= i < |p| && p[i].Checked? && p[i].riverMile.Some? :: Num(p[i].riverMile.value)
  }

  /** `run_validation` over the three reports. */
  function RunValidation(summary: Option<SummaryReport>, hydro: Option<HydroReport>, processed: seq<ProcessedEntry>)
    : (r: ValidationReport)
    ensures r.summary == summary && r.hydrograph == hydro && r.processed == processed
    ensures r.consistency.Some? <==> summary.Some? && processed != []
    ensures r.overallValid <==> summary.Some? && hydro.Some? && |processed| > 0
  {
    var consistency :=
      if summary.Some? && processed != [] then
        var missing := SummaryRms(summary.value) - ProcessedRms(processed);
        Some(Consistency(missing == {}, missing, ProcessedRms(processed) - SummaryRms(summary.value)))
      else None;
    ValidationReport(summary, hydro, processed, consistency, summary.Some? && hydro.Some? && |processed| > 0)
  }

  /** A processed entry carries the summary river mile `c`. */
  predicate ProcessedAs(processed: seq<ProcessedEntry>, c: Cell)
  {
    exists i :: 0 <= i < |processed| && processed[i].Checked? && processed[i].riverMile.Some? &&
      c == Num(processed[i].riverMile.value)
  }

  /**
   * Every summary river mile is processed exactly when `all_summary_rms_processed`
   * holds; the missing ones are the summary miles no entry carries, and the
   * extra ones the entries' miles the summary does not list.
   */
  lemma ConsistencyMeaning(summary: SummaryReport, hydro: Option<HydroReport>, processed: seq<ProcessedEntry>)
    requires processed != []
    ensures var c := RunValidation(Some(summary), hydro, processed).consistency.value;
      (c.allSummaryProcessed <==> forall m :: m in summary.riverMiles ==> ProcessedAs(processed, m)) &&
      (forall m :: m in c.missingProcessed <==> m in summary.riverMiles && !ProcessedAs(processed, m)) &&
      (forall m :: m in c.extraProcessed <==> ProcessedAs(processed, m) && m !in summary.riverMiles)
  {
    var c := RunValidation(Some(summary), hydro, processed).consistency.value;
    assert forall m :: m in ProcessedRms(processed) <==> ProcessedAs(processed, m);
    assert c.missingProcessed == SummaryRms(summary) - ProcessedRms(processed);
    if c.allSummaryProcessed {
      forall m | m in summary.riverMiles ensures ProcessedAs(processed, m) {
        assert m in SummaryRms(summary) && m !in c.missingProcessed;
      }
    } else {
      var m :| m in c.missingProcessed;
      assert m in summary.riverMiles && !ProcessedAs(processed, m);
    }
  }
}
