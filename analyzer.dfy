/**
 * The `DataAnalyzer` of the sensor-chart scripts (the second-version
 * script and the data-processing package share it line for line): one job
 * per river-mile sheet, `Sensor_` column and distinct year; a job draws
 * only with at least two valid readings and skips a chart whose file
 * already exists. The file system is a value, `Disk`, that the jobs thread
 * through.
 */
module Analyzer {
  import opened Errors
  import opened Strings
  import opened Frames
  import opened Paths
  import opened Jobs
  import Processor
  import PyFloat

  /** One sheet of the workbook: its name and its table. */
  type Sheet = (string, Frame)

  /**
   * `DataProcessor.load_data`: the `RM_` sheets after the first, in
   * workbook order (sheet names are distinct within a workbook, so the
   * dictionary holds each of them once).
   */
  function RiverMileSheets(sheets: seq<Sheet>): (r: seq<Sheet>)
    ensures forall s :: s in r <==> sheets != [] && s in sheets[1..] && StartsWith(s.0, "RM_")
    ensures SubsequenceOf(r, if sheets == [] then [] else sheets[1..])
  {
    if sheets == [] then []
    else
      FilterSubsequence(sheets[1..], IsRmSheet);
      Filter(sheets[1..], IsRmSheet)
  }

  predicate IsRmSheet(s: Sheet)
  {
    StartsWith(s.0, "RM_")
  }

  // ----- Years in order of appearance -----------------------------------------

  /** `Series.unique()`: each value once, in order of first appearance, NaN included once. */
  function Unique(s: seq<Cell>): (r: seq<Cell>)
    ensures forall c :: c in r <==> c in s
    ensures forall i, j :: 0 <= i < j < |r| ==> r[i] != r[j]
    ensures SubsequenceOf(r, s)
  {
    if s == [] then []
    else
      var n := |s| - 1;
      var u := Unique(s[..n]);
      assert s == s[..n] + [s[n]];
      SubsequenceAppend(u, s[..n], s[n]);
      if s[n] in u then u else u + [s[n]]
  }

  lemma {:induction false} SubsequenceAppend<T>(a: seq<T>, b: seq<T>, x: T)
    requires SubsequenceOf(a, b)
    ensures SubsequenceOf(a, b + [x]) && SubsequenceOf(a + [x], b + [x])
    decreases |b|
  {
    if b != [] {
      assert (b + [x])[1..] == b[1..] + [x];
      if a == [] {
        SubsequenceAppend(a, b[1..], x);
      } else {
        assert (a + [x])[1..] == a[1..] + [x];
        if a[0] == b[0] && SubsequenceOf(a[1..], b[1..]) {
          SubsequenceAppend(a[1..], b[1..], x);
        } else {
          SubsequenceAppend(a, b[1..], x);
        }
      }
    } else {
      assert (a + [x])[1..] == [] && (b + [x])[1..] == [];
    }
  }

  // ----- One job ---------------------------------------------------------------

  /** The file system as the jobs see it: the files that exist, the directories made. */
  datatype Disk = Disk(files: set<OutPath>, dirs: set<OutPath>)

  /** What `_process_year_data` is asked to do. */
  datatype Job = Job(riverMile: real, data: Frame, year: Cell, sensor: string)

  /** How a job ended. */
  datatype Outcome =
    | Unreadable    // comparing a text reading with 0 raised
    | Insufficient  // fewer than two valid readings
    | Existing      // the chart file was already there
    | Failed        // drawing or saving raised
    | Rendered      // the chart was drawn and saved

  /**
   * The rest of `create_visualization` and `fig.savefig` for the chart
   * path and the valid rows: whether they returned normally.
   */
  type Draw = (OutPath, Frame) -> bool

  /** `f"{year}"` for a value of the year column. */
  function CellPiece(c: Cell): Piece
  {
    match c
    case Num(v) => Repr(v)
    case PosInf => Lit("inf")
    case NegInf => Lit("-inf")
    case Missing => Lit("nan")
    case Text(s) => Lit(s)
  }

  /** `_create_output_dir`: `output/RM_{river_mile}/sensor_charts/{sensor}` */
  function OutputDir(rm: real, sensor: string): OutPath
  {
    [Lit("output/RM_"), Repr(rm), Lit("/sensor_charts/" + sensor)]
  }

  /** `os.path.join(output_dir, f"RM_{river_mile}_Year_{year}_{sensor}.png")` */
  function ChartPath(j: Job): OutPath
  {
    OutputDir(j.riverMile, j.sensor) + [Lit("/RM_"), Repr(j.riverMile), Lit("_Year_"), CellPiece(j.year), Lit("_" + j.sensor + ".png")]
  }

  /** `data[data["Year"] == year]` */
  function YearRows(j: Job): seq<Row>
  {
    RowsWhere(j.data.rows, YearCol, j.year)
  }

  /** `notna() & (x > 0) & (x != inf)`, for a reading that is not text. */
  function ValidIn(sensor: string): Row -> bool
  {
    (x: Row) => PositiveFinite(Get(x, sensor))
  }

  /** The year's rows whose reading is a positive finite number. */
  function ValidRows(j: Job): (r: seq<Row>)
    ensures forall x :: x in r <==> x in YearRows(j) && PositiveFinite(Get(x, j.sensor))
  {
    Filter(YearRows(j), ValidIn(j.sensor))
  }

  /**
   * The valid rows have a `Time (Seconds)` column without text, so that
   * `create_visualization` can divide it by 60 or by 3600.
   */
  predicate TimesUsable(j: Job)
  {
    TimeSeconds in j.data.columns && NoText(ValidRows(j), TimeSeconds)
  }

  /** How `_process_year_data` ends on a disk. */
  function JobOutcome(d: Disk, j: Job, draw: Draw): (o: Outcome)
    ensures o == Unreadable <==> !NoText(YearRows(j), j.sensor)
    ensures o == Insufficient <==> NoText(YearRows(j), j.sensor) && |ValidRows(j)| < 2
    ensures o == Existing <==> NoText(YearRows(j), j.sensor) && |ValidRows(j)| >= 2 && ChartPath(j) in d.files
    ensures o == Rendered ==> ChartPath(j) !in d.files && TimesUsable(j) && draw(ChartPath(j), Frame(j.data.columns, ValidRows(j)))
  {
    if !NoText(YearRows(j), j.sensor) then Unreadable
    else if |ValidRows(j)| < 2 then Insufficient
    else if ChartPath(j) in d.files then Existing
    else if !TimesUsable(j) then Failed
    else if draw(ChartPath(j), Frame(j.data.columns, ValidRows(j))) then Rendered
    else Failed
  }

  /** What `_process_year_data` returns. */
  predicate Succeeded(o: Outcome)
  {
    o == Existing || o == Rendered
  }

  /** The job reaches `_create_output_dir`. */
  predicate MakesDir(o: Outcome)
  {
    o == Existing || o == Failed || o == Rendered
  }

  /** The disk after the job. */
  function Apply(d: Disk, j: Job, draw: Draw): (r: Disk)
    ensures d.files <= r.files && d.dirs <= r.dirs
  {
    var o := JobOutcome(d, j, draw);
    Disk(if o == Rendered then d.files + {ChartPath(j)} else d.files,
         if MakesDir(o) then d.dirs + {OutputDir(j.riverMile, j.sensor)} else d.dirs)
  }

  /** `_process_year_data`, on the disk `d`. */
  method ProcessYearData(d: Disk, rm: real, data: Frame, year: Cell, sensor: string, draw: Draw)
    returns (ok: bool, after: Disk)
    ensures ok == Succeeded(JobOutcome(d, Job(rm, data, year, sensor), draw))
    ensures after == Apply(d, Job(rm, data, year, sensor), draw)
  {
    ghost var j := Job(rm, data, year, sensor);
    var yearData := RowsWhere(data.rows, YearCol, year);
    if !NoText(yearData, sensor) {
      return false, d;
    }
    var validData := Filter(yearData, ValidIn(sensor));
    if |validData| < 2 {
      return false, d;
    }
    var outputDir := OutputDir(rm, sensor);
    after := d.(dirs := d.dirs + {outputDir});
    var outputPath := outputDir + [Lit("/RM_"), Repr(rm), Lit("_Year_"), CellPiece(year), Lit("_" + sensor + ".png")];
    assert outputPath == ChartPath(j);
    if outputPath in d.files {
      return true, after;
    }
    if TimeSeconds !in data.columns || !NoText(validData, TimeSeconds) {
      return false, after;
    }
    if !draw(outputPath, Frame(data.columns, validData)) {
      return false, after;
    }
    after := after.(files := after.files + {outputPath});
    return true, after;
  }

  /** A job with fewer than two valid readings returns `False` and leaves the disk alone. */
  lemma TooFewPointsSkipped(d: Disk, j: Job, draw: Draw)
    requires NoText(YearRows(j), j.sensor) && |ValidRows(j)| < 2
    ensures !Succeeded(JobOutcome(d, j, draw)) && Apply(d, j, draw) == d
  {
  }

  /**
   * A job whose chart file exists returns `True` without drawing: the
   * files stay as they were.
   */
  lemma ExistingNotRedrawn(d: Disk, j: Job, draw: Draw)
    requires NoText(YearRows(j), j.sensor) && |ValidRows(j)| >= 2 && ChartPath(j) in d.files
    ensures Succeeded(JobOutcome(d, j, draw)) && Apply(d, j, draw).files == d.files
  {
  }

  // ----- Runs of jobs ------------------------------------------------------------

  /** The disk after the jobs, in order. */
  function Run(d: Disk, jobs: seq<Job>, draw: Draw): Disk
    decreases |jobs|
  {
    if jobs == [] then d else Run(Apply(d, jobs[0], draw), jobs[1..], draw)
  }

  lemma {:induction false} RunConcat(d: Disk, a: seq<Job>, b: seq<Job>, draw: Draw)
    ensures Run(d, a + b, draw) == Run(Run(d, a, draw), b, draw)
    decreases |a|
  {
    if a == [] {
      assert a + b == b;
    } else {
      assert (a + b)[0] == a[0] && (a + b)[1..] == a[1..] + b;
      RunConcat(Apply(d, a[0], draw), a[1..], b, draw);
    }
  }

  lemma RunStep(d: Disk, jobs: seq<Job>, i: nat, draw: Draw)
    requires i < |jobs|
    ensures Run(d, jobs[..i + 1], draw) == Apply(Run(d, jobs[..i], draw), jobs[i], draw)
  {
    assert jobs[..i + 1] == jobs[..i] + [jobs[i]];
    RunConcat(d, jobs[..i], [jobs[i]], draw);
  }

  /** A job that can be drawn: readable, at least two valid rows, and a drawing that returns normally. */
  predicate Drawable(j: Job, draw: Draw)
  {
    NoText(YearRows(j), j.sensor) && |ValidRows(j)| >= 2 &&
    TimesUsable(j) && draw(ChartPath(j), Frame(j.data.columns, ValidRows(j)))
  }

  /** A job that reaches `_create_output_dir`. */
  predicate ReachesDir(j: Job)
  {
    NoText(YearRows(j), j.sensor) && |ValidRows(j)| >= 2
  }

  /** A disk on which each of the jobs has nothing left to do. */
  predicate Settled(d: Disk, jobs: seq<Job>, draw: Draw)
  {
    (forall j :: j in jobs && Drawable(j, draw) ==> ChartPath(j) in d.files) &&
    (forall j :: j in jobs && ReachesDir(j) ==> OutputDir(j.riverMile, j.sensor) in d.dirs)
  }

  lemma {:induction false} RunMonotone(d: Disk, jobs: seq<Job>, draw: Draw)
    ensures d.files <= Run(d, jobs, draw).files && d.dirs <= Run(d, jobs, draw).dirs
    decreases |jobs|
  {
    if jobs != [] {
      RunMonotone(Apply(d, jobs[0], draw), jobs[1..], draw);
    }
  }

  /** After a run, every drawable job has its chart and every job past the threshold its directory. */
  lemma {:induction false} RunSettles(d: Disk, jobs: seq<Job>, draw: Draw)
    ensures Settled(Run(d, jobs, draw), jobs, draw)
    decreases |jobs|
  {
    if jobs != [] {
      var d1 := Apply(d, jobs[0], draw);
      RunSettles(d1, jobs[1..], draw);
      RunMonotone(d1, jobs[1..], draw);
      assert forall j :: j in jobs ==> j == jobs[0] || j in jobs[1..];
    }
  }

  /** On a settled disk, the jobs change nothing and draw nothing. */
  lemma {:induction false} SettledRunIsIdle(d: Disk, jobs: seq<Job>, draw: Draw)
    requires Settled(d, jobs, draw)
    ensures Run(d, jobs, draw) == d
    ensures forall j :: j in jobs ==> JobOutcome(d, j, draw) != Rendered
    decreases |jobs|
  {
    if jobs != [] {
      var j := jobs[0];
      assert j in jobs;
      assert Apply(d, j, draw) == d;
      assert forall k :: k in jobs[1..] ==> k in jobs;
      SettledRunIsIdle(d, jobs[1..], draw);
    }
  }

  /**
   * Running the same jobs a second time draws no chart and leaves the
   * disk as the first run left it.
   */
  lemma SecondRunDrawsNothing(d: Disk, jobs: seq<Job>, draw: Draw)
    ensures var d1 := Run(d, jobs, draw);
      Run(d1, jobs, draw) == d1 && forall j :: j in jobs ==> JobOutcome(d1, j, draw) != Rendered
  {
    RunSettles(d, jobs, draw);
    SettledRunIsIdle(Run(d, jobs, draw), jobs, draw);
  }

  // ----- The river-mile and sheet loops --------------------------------------------

  /** The jobs of one sensor: one per distinct year, in order of appearance. */
  function SensorJobs(rm: real, f: Frame, sensor: string): (r: seq<Job>)
    ensures |r| == |Unique(Column(f.rows, YearCol))|
    ensures forall i :: 0 <= i < |r| ==> r[i] == Job(rm, f, Unique(Column(f.rows, YearCol))[i], sensor)
  {
    var years := Unique(Column(f.rows, YearCol));
    seq(|years|, i requires 0 <= i < |years| => Job(rm, f, years[i], sensor))
  }

  function SensorJobsOf(rm: real, f: Frame): string -> seq<Job>
  {
    (s: string) => SensorJobs(rm, f, s)
  }

  /** The jobs of `_process_river_mile`: sensor-major, then year. */
  function RiverMileJobs(rm: real, f: Frame): seq<Job>
  {
    Collect(Processor.SensorColumns(f.columns), SensorJobsOf(rm, f))
  }

  /**
   * There is one job per pair of a `Sensor_` column and a distinct year of
   * the sheet, and no other.
   */
  lemma RiverMileJobsAre(rm: real, f: Frame, j: Job)
    ensures j in RiverMileJobs(rm, f) <==>
      j.riverMile == rm && j.data == f && j.sensor in Processor.SensorColumns(f.columns) &&
      j.year in Column(f.rows, YearCol)
  {
    var g := SensorJobsOf(rm, f);
    CollectMembers(Processor.SensorColumns(f.columns), g);
    var years := Unique(Column(f.rows, YearCol));
    if j.riverMile == rm && j.data == f && j.sensor in Processor.SensorColumns(f.columns) && j.year in Column(f.rows, YearCol) {
      var i :| 0 <= i < |years| && years[i] == j.year;
      assert g(j.sensor)[i] == j;
    }
  }

  /** `float(rm_sheet.split('_')[1])`, failing as Python does. */
  function SheetMile(name: string): (r: Result<real>)
    ensures r.Ok? <==> MileOf(name).Some?
    ensures r.Ok? ==> r.value == MileOf(name).value
  {
    match SecondToken(name)
    case None => Err(Failure(IndexError, Plain("list index out of range")))
    case Some(t) =>
      match PyFloat.ParseFloat(t)
      case None => Err(Failure(ValueError, Plain("could not convert string to float: '" + t + "'")))
      case Some(rm) => Ok(rm)
  }

  /** The jobs of one sheet, or what `process_all_data` re-raises for it. */
  function SheetJobs(item: Sheet): Result<seq<Job>>
  {
    match SheetMile(item.0)
    case Err(e) => Err(e)
    case Ok(rm) => if YearCol !in item.1.columns then Err(Failure(KeyError, Plain(YearCol))) else Ok(RiverMileJobs(rm, item.1))
  }

  /** The jobs `process_all_data` runs, and the exception that ends it. */
  datatype Plan = Plan(jobs: seq<Job>, error: Option<Failure>)

  /** One more sheet: its jobs, or its exception, unless an earlier sheet already raised. */
  function PlanExtend(prev: Plan, item: Sheet): Plan
  {
    if prev.error.Some? then prev
    else
      match SheetJobs(item)
      case Err(e) => Plan(prev.jobs, Some(e))
      case Ok(js) => Plan(prev.jobs + js, None)
  }

  function PlanOf(items: seq<Sheet>): Plan
  {
    if items == [] then Plan([], None) else PlanExtend(PlanOf(items[..|items| - 1]), items[|items| - 1])
  }

  /**
   * The sheets run in order until one fails; the jobs run are those of the
   * sheets before it, and with no failure those of every sheet.
   */
  lemma {:induction false} PlanRunsAllOrStops(items: seq<Sheet>)
    ensures PlanOf(items).error.None? <==> forall s :: s in items ==> SheetJobs(s).Ok?
    ensures PlanOf(items).error.Some? ==> exists s :: s in items && SheetJobs(s) == Err(PlanOf(items).error.value)
  {
    if items != [] {
      var n := |items| - 1;
      assert items == items[..n] + [items[n]];
      assert forall s :: s in items <==> s in items[..n] || s == items[n];
      PlanRunsAllOrStops(items[..n]);
    }
  }

  lemma PlanStep(items: seq<Sheet>, i: nat)
    requires i < |items|
    ensures PlanOf(items[..i + 1]) == PlanExtend(PlanOf(items[..i]), items[i])
  {
    assert items[..i + 1][..i] == items[..i];
  }

  lemma {:induction false} PlanStops(items: seq<Sheet>, i: nat)
    requires i <= |items| && PlanOf(items[..i]).error.Some?
    ensures PlanOf(items) == PlanOf(items[..i])
    decreases |items|
  {
    if i < |items| {
      var n := |items| - 1;
      assert items[..n][..i] == items[..i];
      PlanStops(items[..n], i);
    } else {
      assert items[..i] == items;
    }
  }

  /** `process_all_data` over the loaded sheets, on the disk `d`. */
  method ProcessAllData(d: Disk, items: seq<Sheet>, draw: Draw) returns (e: Option<Failure>, after: Disk)
    ensures e == PlanOf(items).error
    ensures after == Run(d, PlanOf(items).jobs, draw)
  {
    after := d;
    var i := 0;
    while i < |items|
      invariant 0 <= i <= |items|
      invariant PlanOf(items[..i]).error.None?
      invariant after == Run(d, PlanOf(items[..i]).jobs, draw)
    {
      PlanStep(items, i);
      var (name, data) := items[i];
      var parsed := SheetMile(name);
      if parsed.Err? {
        PlanStops(items, i + 1);
        return Some(parsed.error), after;
      }
      if YearCol !in data.columns {
        PlanStops(items, i + 1);
        return Some(Failure(KeyError, Plain(YearCol))), after;
      }
      ghost var before := after;
      after := ProcessRiverMile(after, parsed.value, data, draw);
      RunConcat(d, PlanOf(items[..i]).jobs, RiverMileJobs(parsed.value, data), draw);
      i := i + 1;
    }
    assert items[..i] == items;
    e := None;
  }

  /** `_process_river_mile`, once the year column is known to be there. */
  method ProcessRiverMile(d: Disk, rm: real, data: Frame, draw: Draw) returns (after: Disk)
    ensures after == Run(d, RiverMileJobs(rm, data), draw)
  {
    var sensors := Processor.SensorColumns(data.columns);
    var years := Unique(Column(data.rows, YearCol));
    var g := SensorJobsOf(rm, data);
    after := d;
    var i := 0;
    while i < |sensors|
      invariant 0 <= i <= |sensors|
      invariant after == Run(d, Collect(sensors[..i], g), draw)
    {
      CollectStep(sensors, g, i);
      ghost var start := after;
      ghost var jobs := g(sensors[i]);
      var k := 0;
      while k < |years|
        invariant 0 <= k <= |years|
        invariant after == Run(start, jobs[..k], draw)
      {
        RunStep(start, jobs, k, draw);
        var ok;
        ok, after := ProcessYearData(after, rm, data, years[k], sensors[i], draw);
        k := k + 1;
      }
      assert jobs[..k] == jobs;
      RunConcat(d, Collect(sensors[..i], g), jobs, draw);
      i := i + 1;
    }
    CollectDone(sensors, g);
  }

  // ----- Chart statistics ---------------------------------------------------------

  function Sum(xs: seq<real>): real
  {
    if xs == [] then 0.0 else xs[0] + Sum(xs[1..])
  }

  function MinOf(xs: seq<real>): (m: real)
    requires xs != []
    ensures m in xs && forall x :: x in xs ==> m <= x
  {
    if |xs| == 1 then xs[0]
    else
      var rest := MinOf(xs[1..]);
      assert forall x :: x in xs ==> x == xs[0] || x in xs[1..];
      if xs[0] <= rest then xs[0] else rest
  }

  function MaxOf(xs: seq<real>): (m: real)
    requires xs != []
    ensures m in xs && forall x :: x in xs ==> x <= m
  {
    if |xs| == 1 then xs[0]
    else
      var rest := MaxOf(xs[1..]);
      assert forall x :: x in xs ==> x == xs[0] || x in xs[1..];
      if xs[0] >= rest then xs[0] else rest
  }

  lemma SquareNonNegative(d: real)
    ensures d * d >= 0.0
  {
    if d < 0.0 {
      assert d * d == (-d) * (-d);
    }
  }

  /** The sum of squared deviations from `m`. */
  function SqDev(xs: seq<real>, m: real): (r: real)
    ensures r >= 0.0
  {
    if xs == [] then 0.0
    else
      SquareNonNegative(xs[0] - m);
      (xs[0] - m) * (xs[0] - m) + SqDev(xs[1..], m)
  }

  /**
   * The `stats` dictionary: `mean`, `min`, `max`, and `std` given by its
   * square, the sample variance (pandas divides by n - 1); `std` is NaN
   * below two values, and everything is NaN for none.
   */
  datatype Stats = Stats(mean: real, variance: Option<real>, min: real, max: real)

  function ChartStats(xs: seq<real>): (r: Option<Stats>)
    ensures r.None? <==> xs == []
    ensures r.Some? ==> r.value.min in xs && r.value.max in xs
    ensures r.Some? ==> forall x :: x in xs ==> r.value.min <= x <= r.value.max
    ensures r.Some? ==> r.value.min <= r.value.mean <= r.value.max
    ensures r.Some? ==> (r.value.variance.Some? <==> |xs| >= 2)
    ensures r.Some? && r.value.variance.Some? ==> r.value.variance.value >= 0.0
  {
    if xs == [] then None
    else
      MeanBounds(xs);
      Some(StatsOf(xs))
  }

  function StatsOf(xs: seq<real>): Stats
    requires xs != []
  {
    Stats(Mean(xs), if |xs| >= 2 then Some(SampleVariance(xs, Mean(xs))) else None, MinOf(xs), MaxOf(xs))
  }

  function Mean(xs: seq<real>): real
    requires xs != []
  {
    Sum(xs) / |xs| as real
  }

  /** The squared deviations divided by n - 1. */
  function SampleVariance(xs: seq<real>, m: real): (v: real)
    requires |xs| >= 2
    ensures v >= 0.0
  {
    var k := |xs| - 1;
    QuotientNonNegative(SqDev(xs, m), k);
    SqDev(xs, m) / k as real
  }

  lemma QuotientNonNegative(a: real, k: nat)
    requires a >= 0.0 && k > 0
    ensures a / k as real >= 0.0
  {
    assert (a / k as real) * k as real == a;
  }

  lemma MeanBounds(xs: seq<real>)
    requires xs != []
    ensures MinOf(xs) <= Mean(xs) <= MaxOf(xs)
  {
    var lo, hi := MinOf(xs), MaxOf(xs);
    SumBounds(xs, lo, hi);
    QuotientBounds(Sum(xs), |xs|, lo, hi);
  }

  /** `k` copies of `x` added up. */
  function Times(k: nat, x: real): (r: real)
    ensures r == k as real * x
  {
    if k == 0 then 0.0 else x + Times(k - 1, x)
  }

  lemma QuotientBounds(s: real, k: nat, lo: real, hi: real)
    requires k > 0 && Times(k, lo) <= s <= Times(k, hi)
    ensures lo <= s / k as real <= hi
  {
    var n := k as real;
    assert (s / n) * n == s;
  }

  lemma {:induction false} SumBounds(xs: seq<real>, lo: real, hi: real)
    requires forall x :: x in xs ==> lo <= x <= hi
    ensures Times(|xs|, lo) <= Sum(xs) <= Times(|xs|, hi)
  {
    if xs != [] {
      assert xs[0] in xs;
      assert forall x :: x in xs[1..] ==> x in xs;
      SumBounds(xs[1..], lo, hi);
    }
  }

  /** The sensor readings of rows whose reading is a number. */
  function Readings(rows: seq<Row>, sensor: string): (r: seq<real>)
    requires forall x :: x in rows ==> Get(x, sensor).Num?
    ensures |r| == |rows|
    ensures forall i :: 0 <= i < |rows| ==> r[i] == Get(rows[i], sensor).v
  {
    seq(|rows|, i requires 0 <= i < |rows| => assert rows[i] in rows; Get(rows[i], sensor).v)
  }

  /** The data-processing copy: statistics of the raw readings, in millimetres. */
  function MmStats(valid: seq<Row>, sensor: string): Option<Stats>
    requires forall x :: x in valid ==> Get(x, sensor).Num?
  {
    ChartStats(Readings(valid, sensor))
  }

  /** `plot_data[f'{sensor}_cm'] = plot_data[sensor] / 10` */
  function CmRows(valid: seq<Row>, sensor: string): (r: seq<Row>)
    requires forall x :: x in valid ==> Get(x, sensor).Num?
    ensures |r| == |valid|
    ensures forall i :: 0 <= i < |r| ==> Get(r[i], sensor + "_cm") == Num(Get(valid[i], sensor).v / 10.0)
  {
    seq(|valid|, i requires 0 <= i < |valid| =>
      assert valid[i] in valid;
      valid[i][sensor + "_cm" := Divided(Get(valid[i], sensor), 10.0)])
  }

  const MinutesCol: string := "time_minutes"

  /** `plot_data['time_minutes'] = plot_data['Time (Seconds)'] / 60` (the second version). */
  function MinutesRows(valid: seq<Row>): (r: seq<Row>)
    requires NoText(valid, TimeSeconds)
    ensures |r| == |valid|
    ensures forall i :: 0 <= i < |r| ==> r[i] == valid[i][MinutesCol := Divided(Get(valid[i], TimeSeconds), 60.0)]
  {
    seq(|valid|, i requires 0 <= i < |valid| =>
      assert valid[i] in valid;
      valid[i][MinutesCol := Divided(Get(valid[i], TimeSeconds), 60.0)])
  }

  /** `time_hours = data["Time (Seconds)"] / 3600` (the data-processing copy). */
  function HoursColumn(valid: seq<Row>): (r: seq<Cell>)
    requires NoText(valid, TimeSeconds)
    ensures |r| == |valid|
    ensures forall i :: 0 <= i < |r| ==> r[i] == Divided(Get(valid[i], TimeSeconds), 3600.0)
  {
    seq(|valid|, i requires 0 <= i < |valid| =>
      assert valid[i] in valid;
      Divided(Get(valid[i], TimeSeconds), 3600.0))
  }

  /**
   * The two copies plot the same instants: a reading's minutes are sixty
   * times its hours and its seconds sixty times its minutes, a time that is
   * NaN or infinite stays so on both axes, and both axes keep the order of
   * the seconds.
   */
  lemma TimeAxesAgree(valid: seq<Row>)
    requires NoText(valid, TimeSeconds)
    ensures forall i :: 0 <= i < |valid| ==>
      var (t, m, h) := (Get(valid[i], TimeSeconds), Get(MinutesRows(valid)[i], MinutesCol), HoursColumn(valid)[i]);
      (t.Num? <==> m.Num?) && (t.Num? <==> h.Num?) &&
      (t.Num? ==> m.v * 60.0 == t.v && h.v * 60.0 == m.v) &&
      (!t.Num? ==> m == t && h == t)
    ensures forall i, j :: (0 <= i < |valid| && 0 <= j < |valid| &&
                            Get(valid[i], TimeSeconds).Num? && Get(valid[j], TimeSeconds).Num?) ==>
      (Get(valid[i], TimeSeconds).v <= Get(valid[j], TimeSeconds).v <==>
       Get(MinutesRows(valid)[i], MinutesCol).v <= Get(MinutesRows(valid)[j], MinutesCol).v) &&
      (Get(valid[i], TimeSeconds).v <= Get(valid[j], TimeSeconds).v <==> HoursColumn(valid)[i].v <= HoursColumn(valid)[j].v)
  {
    var ms := MinutesRows(valid);
    var hs := HoursColumn(valid);
    forall i | 0 <= i < |valid|
      ensures Get(ms[i], MinutesCol) == Divided(Get(valid[i], TimeSeconds), 60.0)
    {
      assert MinutesCol in ms[i];
    }
    forall i | 0 <= i < |valid| && Get(valid[i], TimeSeconds).Num?
      ensures hs[i].v * 60.0 == Get(ms[i], MinutesCol).v
    {
      var t := Get(valid[i], TimeSeconds).v;
      assert t / 3600.0 * 60.0 == t / 60.0;
    }
  }

  /** The second-version copy: statistics of the `_cm` column. */
  function CmStats(valid: seq<Row>, sensor: string): Option<Stats>
    requires forall x :: x in valid ==> Get(x, sensor).Num?
  {
    var cm := CmRows(valid, sensor);
    assert forall x :: x in cm ==> Get(x, sensor + "_cm").Num?;
    ChartStats(Readings(cm, sensor + "_cm"))
  }

  /** Each value divided by 10. */
  function Tenths(xs: seq<real>): (r: seq<real>)
    ensures |r| == |xs| && forall i :: 0 <= i < |xs| ==> r[i] == xs[i] / 10.0
  {
    if xs == [] then [] else [xs[0] / 10.0] + Tenths(xs[1..])
  }

  lemma {:induction false} SumTenths(xs: seq<real>)
    ensures Sum(Tenths(xs)) == Sum(xs) / 10.0
  {
    if xs != [] {
      SumTenths(xs[1..]);
    }
  }

  lemma {:induction false} MinTenths(xs: seq<real>)
    requires xs != []
    ensures MinOf(Tenths(xs)) == MinOf(xs) / 10.0
  {
    if |xs| > 1 {
      assert Tenths(xs)[1..] == Tenths(xs[1..]);
      MinTenths(xs[1..]);
    }
  }

  lemma {:induction false} MaxTenths(xs: seq<real>)
    requires xs != []
    ensures MaxOf(Tenths(xs)) == MaxOf(xs) / 10.0
  {
    if |xs| > 1 {
      assert Tenths(xs)[1..] == Tenths(xs[1..]);
      MaxTenths(xs[1..]);
    }
  }

  lemma SquareOfTenth(d: real)
    ensures (d / 10.0) * (d / 10.0) == d * d / 100.0
  {
  }

  lemma {:induction false} SqDevTenths(xs: seq<real>, m: real, mt: real)
    requires mt == m / 10.0
    ensures SqDev(Tenths(xs), mt) == SqDev(xs, m) / 100.0
  {
    if xs != [] {
      assert Tenths(xs)[1..] == Tenths(xs[1..]);
      SqDevTenths(xs[1..], m, mt);
      var d := xs[0] - m;
      assert Tenths(xs)[0] - mt == d / 10.0;
      SquareOfTenth(d);
    }
  }

  lemma QuotientSwap(a: real, k: real, n: real)
    requires k > 0.0 && n > 0.0
    ensures (a / k) / n == (a / n) / k
  {
    var q := a / n;
    assert q * n == a;
    assert (q / k) * n == a / k;
  }

  /** The `_cm` readings are the raw ones divided by 10. */
  lemma CmReadings(valid: seq<Row>, sensor: string)
    requires forall x :: x in valid ==> Get(x, sensor).Num?
    ensures var cm := CmRows(valid, sensor);
      (forall x :: x in cm ==> Get(x, sensor + "_cm").Num?) &&
      Readings(cm, sensor + "_cm") == Tenths(Readings(valid, sensor))
  {
  }

  /** Dividing every value by 10 divides the mean, minimum and maximum by 10 and the variance by 100. */
  lemma TenthsStats(xs: seq<real>)
    ensures ChartStats(Tenths(xs)).Some? <==> ChartStats(xs).Some?
    ensures ChartStats(xs).Some? ==> ScaledStats(ChartStats(xs).value, ChartStats(Tenths(xs)).value)
  {
    if xs != [] {
      StatsOfTenths(xs);
    }
  }

  lemma StatsOfTenths(xs: seq<real>)
    requires xs != []
    ensures ScaledStats(StatsOf(xs), StatsOf(Tenths(xs)))
  {
    MinTenths(xs);
    MaxTenths(xs);
    MeanTenths(xs);
    VarianceStatsTenths(xs);
  }

  lemma VarianceStatsTenths(xs: seq<real>)
    requires xs != []
    ensures StatsOf(Tenths(xs)).variance.Some? <==> StatsOf(xs).variance.Some?
    ensures StatsOf(xs).variance.Some? ==> StatsOf(Tenths(xs)).variance.value == StatsOf(xs).variance.value / 100.0
  {
    if |xs| >= 2 {
      VarianceOfTenths(xs);
    }
  }

  lemma MeanTenths(xs: seq<real>)
    requires xs != []
    ensures Mean(Tenths(xs)) == Mean(xs) / 10.0
  {
    SumTenths(xs);
    QuotientSwap(Sum(xs), 10.0, |xs| as real);
  }

  lemma VarianceOfTenths(xs: seq<real>)
    requires |xs| >= 2
    ensures SampleVariance(Tenths(xs), Mean(Tenths(xs))) == SampleVariance(xs, Mean(xs)) / 100.0
  {
    MeanTenths(xs);
    VarianceTenths(xs, Mean(xs), Mean(Tenths(xs)));
  }

  lemma VarianceTenths(xs: seq<real>, m: real, mt: real)
    requires |xs| >= 2 && mt == m / 10.0
    ensures SampleVariance(Tenths(xs), mt) == SampleVariance(xs, m) / 100.0
  {
    SqDevTenths(xs, m, mt);
    Hundredths(SqDev(xs, m), SqDev(Tenths(xs), mt), |xs| - 1);
  }

  lemma Hundredths(a: real, b: real, k: nat)
    requires b == a / 100.0 && k > 0
    ensures b / k as real == (a / k as real) / 100.0
  {
    QuotientSwap(a, 100.0, k as real);
  }

  /**
   * The two copies report the same readings in different units: the
   * centimetre statistics are the millimetre ones divided by 10, the
   * variance by 100.
   */
  lemma CmStatsAreMmStatsOverTen(valid: seq<Row>, sensor: string)
    requires forall x :: x in valid ==> Get(x, sensor).Num?
    ensures CmStats(valid, sensor).Some? <==> MmStats(valid, sensor).Some?
    ensures MmStats(valid, sensor).Some? ==>
      ScaledStats(MmStats(valid, sensor).value, CmStats(valid, sensor).value)
  {
    CmReadings(valid, sensor);
    TenthsStats(Readings(valid, sensor));
  }

  /** `cm` is `mm` in centimetres. */
  predicate ScaledStats(mm: Stats, cm: Stats)
  {
    cm.mean == mm.mean / 10.0 && cm.min == mm.min / 10.0 && cm.max == mm.max / 10.0 &&
    (cm.variance.Some? <==> mm.variance.Some?) &&
    (mm.variance.Some? ==> cm.variance.value == mm.variance.value / 100.0)
  }

  /** The readings `create_visualization` summarises are the job's valid ones, all numbers. */
  lemma ValidRowsAreNumbers(j: Job)
    ensures forall x :: x in ValidRows(j) ==> Get(x, j.sensor).Num? && Get(x, j.sensor).v > 0.0
  {
  }

  /** The statistics a drawn chart shows: centimetres in the second version, millimetres in the other. */
  function JobStats(j: Job, inCm: bool): (r: Option<Stats>)
    ensures r.None? <==> ValidRows(j) == []
    ensures r.Some? ==> r.value.min > 0.0 && r.value.min <= r.value.mean <= r.value.max
  {
    ValidRowsAreNumbers(j);
    var mm := MmStats(ValidRows(j), j.sensor);
    CmStatsAreMmStatsOverTen(ValidRows(j), j.sensor);
    PositiveMin(Readings(ValidRows(j), j.sensor));
    if inCm then CmStats(ValidRows(j), j.sensor) else mm
  }

  lemma PositiveMin(xs: seq<real>)
    requires forall i :: 0 <= i < |xs| ==> xs[i] > 0.0
    ensures ChartStats(xs).Some? ==> ChartStats(xs).value.min > 0.0
  {
  }
}
