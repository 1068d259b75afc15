/**
 * The visualization module's variant of the cleaning and chart loop: the
 * numeric filter raises when nothing survives, `clean_data` checks every
 * required column up front, and the chart file carries the title-cased
 * sensor name.
 */
module Visualization {
  import opened Errors
  import opened Frames
  import opened Paths
  import opened Cleaning
  import opened Jobs
  import SensorNames

  const NoValidData := Failure(DataVisualizationError, Plain("No valid numeric data found."))
  const TooFewPoints := Failure(DataVisualizationError, Plain("Insufficient valid data points after cleaning."))

  /** Some entry of the column passes the numeric filter. */
  predicate AnyValid(col: seq<Cell>)
  {
    exists i :: 0 <= i < |col| && PositiveFinite(col[i])
  }

  /**
   * `validate_numeric_data`: the same entries as the lenient filter, but an
   * empty result is an error.
   */
  function ValidateStrict(col: seq<Cell>): (r: Result<seq<Cell>>)
    ensures r.Ok? <==> !AnyText(col) && AnyValid(col)
    ensures r.Ok? ==> r == ValidateNumeric(col) && r.value != []
    ensures r.Err? ==> r.error == if AnyText(col) then ComparisonError else NoValidData
  {
    if AnyText(col) then Err(ComparisonError)
    else
      var kept := Filter(col, PositiveFinite);
      if kept == [] then Err(NoValidData)
      else
        assert kept[0] in col;
        Ok(kept)
  }

  /** The required columns the frame lacks, in the order they were asked for. */
  function MissingColumns(f: Frame, cols: seq<string>): (m: seq<string>)
    ensures forall c :: c in m <==> c in cols && c !in f.columns
    ensures SubsequenceOf(m, cols)
  {
    FilterSubsequence(cols, (c: string) => c !in f.columns);
    Filter(cols, (c: string) => c !in f.columns)
  }

  /** The first required column the filter rejects, with the error it raises. */
  function StrictFailure(f: Frame, cols: seq<string>): (r: Option<Failure>)
    ensures r.None? <==> forall c :: c in cols ==> !AnyText(Column(f.rows, c)) && AnyValid(Column(f.rows, c))
    ensures r.Some? ==> r.value == ComparisonError || r.value == NoValidData
    ensures r == Some(ComparisonError) ==> exists c :: c in cols && AnyText(Column(f.rows, c))
  {
    if cols == [] then None
    else
      assert cols[0] in cols;
      assert forall c :: c in cols[1..] ==> c in cols;
      match ValidateStrict(Column(f.rows, cols[0]))
      case Err(e) => Some(e)
      case Ok(_) => StrictFailure(f, cols[1..])
  }

  /** What `clean_data` of the visualization module returns. */
  function StrictCleaned(f: Frame, cols: seq<string>): Result<Frame>
  {
    var missing := MissingColumns(f, cols);
    if missing != [] then Err(Failure(DataVisualizationError, WithList("Missing required columns: ", missing)))
    else
      match StrictFailure(f, cols)
      case Some(e) => Err(e)
      case None =>
        var kept := KeepValid(f.rows, cols);
        if |kept| < 2 then Err(TooFewPoints) else Ok(Frame(f.columns, kept))
  }

  /**
   * The up-front check reports every missing column, and only text in a
   * required column raises anything but a `DataVisualizationError`.
   */
  lemma StrictCleanedErrors(f: Frame, cols: seq<string>)
    ensures MissingColumns(f, cols) != [] ==>
      StrictCleaned(f, cols) == Err(Failure(DataVisualizationError, WithList("Missing required columns: ", MissingColumns(f, cols))))
    ensures StrictCleaned(f, cols).Err? && StrictCleaned(f, cols).error.kind != DataVisualizationError ==>
      StrictCleaned(f, cols).error == ComparisonError && exists c :: c in cols && AnyText(Column(f.rows, c))
  {
    if MissingColumns(f, cols) == [] && StrictFailure(f, cols).Some? {
      assert StrictCleaned(f, cols) == Err(StrictFailure(f, cols).value);
    }
  }

  /**
   * The two `clean_data` variants accept the same frames and keep the same
   * rows; they differ only in the errors they raise.
   */
  lemma StrictAgreesWithLenient(f: Frame, cols: seq<string>)
    ensures StrictCleaned(f, cols).Ok? <==> Cleaned(f, cols).Ok?
    ensures StrictCleaned(f, cols).Ok? ==> StrictCleaned(f, cols) == Cleaned(f, cols)
  {
    var kept := KeepValid(f.rows, cols);
    if MissingColumns(f, cols) == [] && StrictFailure(f, cols).None? {
      assert forall c :: c in cols ==> c in f.columns && !AnyText(Column(f.rows, c));
      assert FirstFailure(f, cols).None?;
    }
    if FirstFailure(f, cols).None? && |kept| >= 2 {
      assert forall i :: 0 <= i < |cols| ==> cols[i] in f.columns by {
        forall i | 0 <= i < |cols| ensures cols[i] in f.columns {
          assert cols[i] in cols;
        }
      }
      FilterNone(cols, (c: string) => c !in f.columns);
      ValidRowMakesColumnsValid(f.rows, cols, kept[0]);
    }
  }

  /** A valid row gives each required column an entry that passes the filter. */
  lemma ValidRowMakesColumnsValid(rows: seq<Row>, cols: seq<string>, x: Row)
    requires x in rows && RowValid(x, cols)
    ensures forall c :: c in cols ==> AnyValid(Column(rows, c))
  {
    var j :| 0 <= j < |rows| && rows[j] == x;
    forall c | c in cols ensures AnyValid(Column(rows, c)) {
      assert PositiveFinite(Column(rows, c)[j]);
    }
  }

  /** Some entry of a column passes the filter before masking iff one does after. */
  lemma MaskedValidAt(f: Frame, cols: seq<string>, i: nat, rows: seq<Row>)
    requires i < |cols| && Masked(f, cols, i, rows)
    ensures AnyValid(Column(rows, cols[i])) <==> AnyValid(Column(f.rows, cols[i]))
  {
    var c := cols[i];
    forall j | 0 <= j < |rows| ensures PositiveFinite(Column(rows, c)[j]) <==> PositiveFinite(Column(f.rows, c)[j]) {
      MaskRowGet(f.rows[j], cols[..i], c);
    }
    if AnyValid(Column(rows, c)) {
      var j :| 0 <= j < |rows| && PositiveFinite(Column(rows, c)[j]);
      assert PositiveFinite(Column(f.rows, c)[j]);
    }
    if AnyValid(Column(f.rows, c)) {
      var j :| 0 <= j < |f.rows| && PositiveFinite(Column(f.rows, c)[j]);
      assert PositiveFinite(Column(rows, c)[j]);
    }
  }

  lemma StrictFailureAt(f: Frame, cols: seq<string>, i: nat)
    requires i < |cols|
    ensures StrictFailure(f, cols[i..]) ==
      match ValidateStrict(Column(f.rows, cols[i]))
      case Err(e) => Some(e)
      case Ok(_) => StrictFailure(f, cols[i + 1..])
  {
    assert cols[i..][0] == cols[i] && cols[i..][1..] == cols[i + 1..];
  }

  /**
   * `clean_data`: the up-front column check, then each required column of a
   * copy overwritten with its filtered values, then the rows with a gap
   * dropped.
   */
  method StrictCleanData(f: Frame, cols: seq<string>) returns (r: Result<Frame>)
    ensures r == StrictCleaned(f, cols)
  {
    var missing := MissingColumns(f, cols);
    if missing != [] {
      return Err(Failure(DataVisualizationError, WithList("Missing required columns: ", missing)));
    }
    var rows := f.rows;
    var i := 0;
    while i < |cols|
      invariant Masked(f, cols, i, rows)
      invariant StrictFailure(f, cols) == StrictFailure(f, cols[i..])
    {
      var next := StrictNext(f, cols, i, rows);
      if next.Err? {
        return Err(next.error);
      }
      rows := next.value;
      i := i + 1;
    }
    assert cols[..i] == cols && cols[i..] == [];
    MaskThenDrop(f.rows, cols);
    var kept := Filter(rows, (x: Row) => NoneMissing(x, cols));
    if |kept| < 2 {
      return Err(TooFewPoints);
    }
    return Ok(Frame(f.columns, kept));
  }

  /** One pass of the column loop: filter column `cols[i]` and mask it. */
  method StrictNext(f: Frame, cols: seq<string>, i: nat, rows: seq<Row>) returns (r: Result<seq<Row>>)
    requires i < |cols| && Masked(f, cols, i, rows) && MissingColumns(f, cols) == []
    requires StrictFailure(f, cols) == StrictFailure(f, cols[i..])
    ensures r.Err? ==> StrictFailure(f, cols) == Some(r.error)
    ensures r.Ok? ==> Masked(f, cols, i + 1, r.value)
    ensures r.Ok? ==> StrictFailure(f, cols) == StrictFailure(f, cols[i + 1..])
  {
    var c := cols[i];
    assert c in cols;
    StrictFailureAt(f, cols, i);
    MaskedTextAt(f, cols, i, rows);
    MaskedValidAt(f, cols, i, rows);
    var checked := ValidateStrict(Column(rows, c));
    if checked.Err? {
      return Err(checked.error);
    }
    MaskedExtend(f, cols, i, rows);
    return Ok(MaskColumn(rows, c));
  }

  /**
   * `create_visualization` followed by `save_visualization`, given the
   * output path and the cleaned rows: the error raised, if any.
   */
  type Draw = (OutPath, Frame) -> Option<Failure>

  /** `get_project_root() / "output" / f"RM_{rm}" / f"RM_{rm}_Year_{year}_{format_sensor_name(sensor)}.png"` */
  function ChartPath(root: string, rm: real, year: Cell, sensor: string): OutPath
  {
    [Lit(root + "/output/RM_"), Repr(rm), Lit("/RM_"), Repr(rm), Lit("_Year_"), YearPiece(year),
     Lit("_" + SensorNames.TitledName(sensor) + ".png")]
  }

  /** The body of the year loop: a `DataVisualizationError` skips the year, anything else ends the loop. */
  function YearStep(f: Frame, root: string, rm: real, sensor: string, draw: Draw, year: Cell): Step
  {
    match StrictCleaned(YearFrame(f, year), [HydroCol, sensor])
    case Err(e) => if e.kind == DataVisualizationError then Skipped else Aborted
    case Ok(c) =>
      match draw(ChartPath(root, rm, year, sensor), c)
      case None => Charted
      case Some(e) => if e.kind == DataVisualizationError then Skipped else Aborted
  }

  function StepOf(f: Frame, root: string, rm: real, sensor: string, draw: Draw): Cell -> Step
  {
    (y: Cell) => YearStep(f, root, rm, sensor, draw, y)
  }

  predicate HasRequired(f: Frame, sensor: string)
  {
    TimeSeconds in f.columns && HydroCol in f.columns && YearCol in f.columns && sensor in f.columns
  }

  /**
   * What `process_rm_data` returns. `dirMade` says whether `mkdir` made
   * the output directory; when it raises, or when `sorted` cannot order
   * the years, the outer handler returns 0.
   */
  function RmCharts(f: Frame, root: string, dirMade: bool, rm: real, sensor: string, draw: Draw): (n: nat)
    ensures !HasRequired(f, sensor) || !dirMade ==> n == 0
    ensures !Orderable(Column(f.rows, YearCol)) ==> n == 0
    ensures LoopYears(f.rows).Some? ==> n <= |LoopYears(f.rows).value|
  {
    if !HasRequired(f, sensor) || !dirMade then 0
    else
      match LoopYears(f.rows)
      case None => 0
      case Some(years) => Charts(Steps(years, StepOf(f, root, rm, sensor, draw)))
  }

  /** `process_rm_data`: the year loop and its counter. */
  method ProcessRmData(f: Frame, root: string, dirMade: bool, rm: real, sensor: string, draw: Draw) returns (charts: nat)
    ensures charts == RmCharts(f, root, dirMade, rm, sensor, draw)
  {
    if !HasRequired(f, sensor) || !dirMade {
      return 0;
    }
    var sortedYears := LoopYears(f.rows);
    if sortedYears.None? {
      return 0;
    }
    var years := sortedYears.value;
    ghost var steps := Steps(years, StepOf(f, root, rm, sensor, draw));
    charts := 0;
    var i := 0;
    while i < |years|
      invariant 0 <= i <= |years|
      invariant Tally(steps[..i]) == Some(charts)
    {
      var step := RunYear(f, root, rm, sensor, draw, years[i]);
      TallyStep(steps, i, charts);
      if step == Aborted {
        return 0;
      }
      if step == Charted {
        charts := charts + 1;
      }
      i := i + 1;
    }
    TallyDone(steps, charts);
  }

  /** One pass of the year loop. */
  method RunYear(f: Frame, root: string, rm: real, sensor: string, draw: Draw, year: Cell) returns (step: Step)
    ensures step == YearStep(f, root, rm, sensor, draw, year)
  {
    var cleaned := StrictCleanData(YearFrame(f, year), [HydroCol, sensor]);
    if cleaned.Err? {
      return if cleaned.error.kind == DataVisualizationError then Skipped else Aborted;
    }
    var drawn := draw(ChartPath(root, rm, year, sensor), cleaned.value);
    if drawn.None? {
      return Charted;
    }
    return if drawn.value.kind == DataVisualizationError then Skipped else Aborted;
  }

  /**
   * With numeric hydrograph and sensor columns and a renderer that only
   * raises `DataVisualizationError`, the count is the number of years whose
   * rows clean and whose chart is drawn.
   */
  lemma ChartsAreDrawnYears(f: Frame, root: string, rm: real, sensor: string, draw: Draw)
    requires HasRequired(f, sensor) && Orderable(Column(f.rows, YearCol))
    requires NoText(f.rows, HydroCol) && NoText(f.rows, sensor)
    requires forall p, c :: draw(p, c).Some? ==> draw(p, c).value.kind == DataVisualizationError
    ensures RmCharts(f, root, true, rm, sensor, draw) == ChartedCount(LoopYears(f.rows).value, StepOf(f, root, rm, sensor, draw))
    ensures forall y :: YearStep(f, root, rm, sensor, draw, y) == Charted <==>
      StrictCleaned(YearFrame(f, y), [HydroCol, sensor]).Ok? &&
      draw(ChartPath(root, rm, y, sensor), StrictCleaned(YearFrame(f, y), [HydroCol, sensor]).value).None?
  {
    var years := LoopYears(f.rows).value;
    var step := StepOf(f, root, rm, sensor, draw);
    forall y | y in years ensures step(y) != Aborted {
      YearNeverAborts(f, root, rm, sensor, draw, y);
    }
    ChartsWithoutRaise(years, step);
  }

  lemma YearNeverAborts(f: Frame, root: string, rm: real, sensor: string, draw: Draw, year: Cell)
    requires NoText(f.rows, HydroCol) && NoText(f.rows, sensor)
    requires forall p, c :: draw(p, c).Some? ==> draw(p, c).value.kind == DataVisualizationError
    ensures YearStep(f, root, rm, sensor, draw, year) != Aborted
  {
    var yf := YearFrame(f, year);
    var cols := [HydroCol, sensor];
    StrictCleanedErrors(yf, cols);
  }
}
