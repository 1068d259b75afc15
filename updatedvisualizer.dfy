/**
 * The chart loop of the updated visualizer script: for one river mile and
 * one sensor, one chart per distinct year, each drawn from the year's rows
 * once `clean_data` has dropped every row with an unusable hydrograph or
 * sensor value.
 */
module UpdatedVisualizer {
  import opened Errors
  import opened Frames
  import opened Paths
  import opened Cleaning
  import opened Jobs
  import SensorNames
  import Processor

  const HoursCol := "Time_(Hours)"

  /**
   * `create_visualization` followed by `save_visualization`, given the
   * output path and the cleaned rows: `false` when either raised; both
   * wrap every error they meet in a `DataVisualizationError`.
   */
  type Draw = (OutPath, Frame) -> bool

  /** `project_root / "output" / f"RM_{rm}" / f"RM_{rm}_Year_{year}_{format_sensor_name(sensor)}.png"` */
  function ChartPath(root: string, rm: real, year: Cell, sensor: string): OutPath
  {
    [Lit(root + "/output/RM_"), Repr(rm), Lit("/RM_"), Repr(rm), Lit("_Year_"), YearPiece(year),
     Lit("_" + SensorNames.JoinedName(sensor) + ".png")]
  }

  /** Two years of one loop, one before the other, never share a chart file. */
  lemma ChartPathsDiffer(root: string, rm: real, y1: Cell, y2: Cell, sensor: string)
    requires YearBefore(y1, y2)
    ensures ChartPath(root, rm, y1, sensor) != ChartPath(root, rm, y2, sensor)
  {
    assert ChartPath(root, rm, y1, sensor)[5] == YearPiece(y1);
  }

  /** `year_data['Time_(Hours)'] = year_data['Time (Seconds)'] / 3600` */
  function WithHours(f: Frame): (r: Frame)
    requires NoText(f.rows, TimeSeconds)
    ensures r.columns == Processor.AddColumn(f.columns, HoursCol) && |r.rows| == |f.rows|
    ensures forall i :: 0 <= i < |f.rows| ==>
      r.rows[i] == f.rows[i][HoursCol := Divided(Get(f.rows[i], TimeSeconds), 3600.0)]
  {
    Frame(Processor.AddColumn(f.columns, HoursCol),
      seq(|f.rows|, i requires 0 <= i < |f.rows| =>
        assert f.rows[i] in f.rows;
        f.rows[i][HoursCol := Divided(Get(f.rows[i], TimeSeconds), 3600.0)]))
  }

  /**
   * The body of the year loop: a `DataVisualizationError` skips the year;
   * text in the time column makes the division raise past it.
   */
  function YearStep(f: Frame, root: string, rm: real, sensor: string, draw: Draw, year: Cell): Step
  {
    match Cleaned(YearFrame(f, year), [HydroCol, sensor])
    case Err(e) => if e.kind == DataVisualizationError then Skipped else Aborted
    case Ok(c) =>
      if !NoText(c.rows, TimeSeconds) then Aborted
      else if draw(ChartPath(root, rm, year, sensor), WithHours(c)) then Charted
      else Skipped
  }

  /** The year loop's body as a function of the year. */
  function StepOf(f: Frame, root: string, rm: real, sensor: string, draw: Draw): Cell -> Step
  {
    (y: Cell) => YearStep(f, root, rm, sensor, draw, y)
  }

  predicate HasRequired(f: Frame, sensor: string)
  {
    TimeSeconds in f.columns && HydroCol in f.columns && YearCol in f.columns && sensor in f.columns
  }

  /**
   * What `process_rm_data` returns. `rootFound` says whether
   * `get_project_root` found the project directory and `dirMade` whether
   * `mkdir` made the output directory; when either raises, or when
   * `sorted` cannot order the years, the outer handler returns 0.
   */
  function RmCharts(f: Frame, root: string, rootFound: bool, dirMade: bool, rm: real, sensor: string, draw: Draw)
    : (n: nat)
    ensures !HasRequired(f, sensor) || !rootFound || !dirMade ==> n == 0
    ensures !Orderable(Column(f.rows, YearCol)) ==> n == 0
    ensures LoopYears(f.rows).Some? ==> n <= |LoopYears(f.rows).value|
  {
    if !HasRequired(f, sensor) || !rootFound || !dirMade then 0
    else
      match LoopYears(f.rows)
      case None => 0
      case Some(years) => Charts(Steps(years, StepOf(f, root, rm, sensor, draw)))
  }

  /** `process_rm_data`: the year loop and its counter. */
  method ProcessRmData(f: Frame, root: string, rootFound: bool, dirMade: bool, rm: real, sensor: string, draw: Draw)
    returns (charts: nat)
    ensures charts == RmCharts(f, root, rootFound, dirMade, rm, sensor, draw)
  {
    if !HasRequired(f, sensor) || !rootFound || !dirMade {
      return 0;
    }
    var sortedYears := LoopYears(f.rows);
    if sortedYears.None? {
      return 0;
    }
    var years := sortedYears.value;
    ghost var steps := Steps(years, StepOf(f, root, rm, sensor, draw));
    charts := 0;
    var i := 0;
    while i < |years|
      invariant 0 <= i <= |years|
      invariant Tally(steps[..i]) == Some(charts)
    {
      var step := RunYear(f, root, rm, sensor, draw, years[i]);
      TallyStep(steps, i, charts);
      if step == Aborted {
        return 0;
      }
      if step == Charted {
        charts := charts + 1;
      }
      i := i + 1;
    }
    TallyDone(steps, charts);
  }

  /** One pass of the year loop. */
  method RunYear(f: Frame, root: string, rm: real, sensor: string, draw: Draw, year: Cell) returns (step: Step)
    ensures step == YearStep(f, root, rm, sensor, draw, year)
  {
    var yearData := YearFrame(f, year);
    var cleaned := CleanData(yearData, [HydroCol, sensor]);
    if cleaned.Err? {
      return if cleaned.error.kind == DataVisualizationError then Skipped else Aborted;
    }
    if !NoText(cleaned.value.rows, TimeSeconds) {
      return Aborted;
    }
    var withHours := WithHours(cleaned.value);
    step := if draw(ChartPath(root, rm, year, sensor), withHours) then Charted else Skipped;
  }

  /** A year whose data does not clean is skipped, never fatal. */
  lemma UncleanYearSkipped(f: Frame, root: string, rm: real, sensor: string, draw: Draw, year: Cell)
    requires Cleaned(YearFrame(f, year), [HydroCol, sensor]).Err?
    ensures YearStep(f, root, rm, sensor, draw, year) == Skipped
  {
    CleanedOutcome(YearFrame(f, year), [HydroCol, sensor]);
  }

  /**
   * When no time value is text, the count is the number of distinct years
   * whose rows clean and whose chart is drawn and saved.
   */
  lemma ChartsAreDrawnYears(f: Frame, root: string, rm: real, sensor: string, draw: Draw)
    requires HasRequired(f, sensor) && Orderable(Column(f.rows, YearCol)) && NoText(f.rows, TimeSeconds)
    ensures RmCharts(f, root, true, true, rm, sensor, draw) ==
      ChartedCount(LoopYears(f.rows).value, StepOf(f, root, rm, sensor, draw))
  {
    var years := LoopYears(f.rows).value;
    var step := StepOf(f, root, rm, sensor, draw);
    forall y | y in years ensures step(y) != Aborted {
      NeverAborts(f, root, rm, sensor, draw, y);
    }
    ChartsWithoutRaise(years, step);
  }

  /**
   * Without text times, a year is charted exactly when its rows clean and
   * its chart is drawn and saved, and is otherwise skipped.
   */
  lemma NeverAborts(f: Frame, root: string, rm: real, sensor: string, draw: Draw, year: Cell)
    requires NoText(f.rows, TimeSeconds)
    ensures YearStep(f, root, rm, sensor, draw, year) != Aborted
    ensures YearStep(f, root, rm, sensor, draw, year) == Charted <==>
      Cleaned(YearFrame(f, year), [HydroCol, sensor]).Ok? &&
      draw(ChartPath(root, rm, year, sensor), WithHours(Cleaned(YearFrame(f, year), [HydroCol, sensor]).value))
  {
    var yf := YearFrame(f, year);
    var c := Cleaned(yf, [HydroCol, sensor]);
    if c.Err? {
      CleanedOutcome(yf, [HydroCol, sensor]);
    } else {
      CleanedOutcome(yf, [HydroCol, sensor]);
      assert NoText(c.value.rows, TimeSeconds);
    }
  }
}
