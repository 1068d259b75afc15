/**
 * The standalone sensor-visualization script: per file, per present
 * sensor of `Sensor_1`/`Sensor_2`, per year 1..20, one chart for each year
 * whose sensor readings clean. As written, the script calls two plotting
 * functions it neither defines nor imports and reads the river mile from
 * the whole path; both halves are modelled (see README, "Findings").
 */
module SensorVisualization {
  import opened Errors
  import opened Strings
  import opened Frames
  import opened Paths
  import opened Cleaning
  import opened Jobs
  import PyFloat

  /** `SENSORS` */
  const Sensors := ["Sensor_1", "Sensor_2"]

  const TooFewPoints := Failure(ValueError, Plain("Insufficient valid data points after cleaning"))

  /** Calling `create_sensor_visualization`, a name the script never binds. */
  const Unbound := Failure(NameError, Plain("name 'create_sensor_visualization' is not defined"))

  function SensorNotFound(sensor: string): Failure
  {
    Failure(ValueError, Plain("Sensor column '" + sensor + "' not found in data"))
  }

  /**
   * `clean_data`: the rows whose sensor value passes `filter_numeric_data`;
   * text in the sensor column makes the comparison raise `TypeError`.
   */
  function SensorClean(f: Frame, sensor: string): (r: Result<Frame>)
    ensures sensor !in f.columns ==> r == Err(SensorNotFound(sensor))
    ensures sensor in f.columns && AnyText(Column(f.rows, sensor)) ==> r == Err(ComparisonError)
    ensures r.Ok? <==> sensor in f.columns && !AnyText(Column(f.rows, sensor)) && |KeepValid(f.rows, [sensor])| >= 2
    ensures r.Err? ==> r.error.kind == ValueError || r.error == ComparisonError
    ensures r.Ok? ==> r.value.columns == f.columns && SubsequenceOf(r.value.rows, f.rows)
    ensures r.Ok? ==> forall x :: x in r.value.rows <==> x in f.rows && PositiveFinite(Get(x, sensor))
  {
    if sensor !in f.columns then Err(SensorNotFound(sensor))
    else if AnyText(Column(f.rows, sensor)) then Err(ComparisonError)
    else
      var kept := KeepValid(f.rows, [sensor]);
      FilterSubsequence(f.rows, (x: Row) => RowValid(x, [sensor]));
      if |kept| < 2 then Err(TooFewPoints) else Ok(Frame(f.columns, kept))
  }

  /** `range(1, 21)` */
  function Years(): (ys: seq<int>)
    ensures |ys| == 20 && forall i :: 0 <= i < 20 ==> ys[i] == i + 1
  {
    seq(20, i requires 0 <= i < 20 => i + 1)
  }

  /** `[s for s in SENSORS if s in data.columns]` */
  function PresentSensors(f: Frame): (ss: seq<string>)
    ensures forall s :: s in ss <==> s in Sensors && s in f.columns
  {
    Filter(Sensors, (s: string) => s in f.columns)
  }

  predicate HasRequired(f: Frame, sensor: string)
  {
    TimeSeconds in f.columns && YearCol in f.columns && sensor in f.columns
  }

  /** `data[data["Year"] == year]`, with an integer year. */
  function YearData(f: Frame, year: int): Frame
  {
    YearFrame(f, Num(year as real))
  }

  // ----- As written -----

  /**
   * `_process_year_data` as written: no rows, or a `ValueError` from the
   * cleaning, gives 0; a year that cleans reaches the unbound name.
   */
  function YearAsWritten(f: Frame, year: int, sensor: string): (r: Result<nat>)
    ensures r.Ok? ==> r.value == 0
    ensures SensorClean(YearData(f, year), sensor).Ok? ==> r == Err(Unbound)
  {
    var yd := YearData(f, year);
    if yd.rows == [] then Ok(0)
    else
      match SensorClean(yd, sensor)
      case Err(e) => if e.kind == ValueError then Ok(0) else Err(e)
      case Ok(_) => Err(Unbound)
  }

  function YearAsWrittenOf(f: Frame, sensor: string): int -> Result<nat>
  {
    (y: int) => YearAsWritten(f, y, sensor)
  }

  /** `process_rm_data` as written: 0 without the columns, else the sum over the years. */
  function RmAsWritten(f: Frame, sensor: string): (r: Result<nat>)
    ensures !HasRequired(f, sensor) ==> r == Ok(0)
  {
    if !HasRequired(f, sensor) then Ok(0) else SumOver(Years(), YearAsWrittenOf(f, sensor))
  }

  function RmAsWrittenOf(f: Frame): string -> Result<nat>
  {
    (s: string) => RmAsWritten(f, s)
  }

  /** `int(float(file_path.split("_")[1]))`: the whole path's second `_`-token. */
  function RiverMileAsWritten(path: string): (rm: Option<int>)
    ensures rm.Some? <==> MileOf(path).Some?
  {
    match MileOf(path)
    case None => None
    case Some(x) => Some(PyFloat.Trunc(x))
  }

  /**
   * `process_file` as written. `read` is what `pd.read_excel` gives for the
   * path; any exception in the body is caught and gives 0.
   */
  function FileAsWritten(path: string, read: Result<Frame>): nat
  {
    match RiverMileAsWritten(path)
    case None => 0
    case Some(_) =>
      match read
      case Err(_) => 0
      case Ok(f) =>
        match SumOver(PresentSensors(f), RmAsWrittenOf(f))
        case Err(_) => 0
        case Ok(n) => n
  }

  /** As written, a file never yields a chart. */
  lemma FileAsWrittenAlwaysZero(path: string, read: Result<Frame>)
    ensures FileAsWritten(path, read) == 0
  {
    if RiverMileAsWritten(path).Some? && read.Ok? {
      var f := read.value;
      forall s | s in PresentSensors(f) && RmAsWrittenOf(f)(s).Ok? ensures RmAsWrittenOf(f)(s).value == 0 {
        if HasRequired(f, s) {
          SumOfZeros(Years(), YearAsWrittenOf(f, s));
        }
      }
      SumOfZeros(PresentSensors(f), RmAsWrittenOf(f));
    }
  }

  /** As written, no `RM_<n>.xlsx` name yields a river mile: the token keeps `.xlsx`. */
  lemma WholePathMileFails(n: nat)
    ensures RiverMileAsWritten(RmFileName(n)) == None
  {
    var d := NatToString(n);
    var tail := d + ".xlsx";
    assert '_' !in tail by {
      forall i | 0 <= i < |tail| ensures tail[i] != '_' {
        if i < |d| { assert tail[i] == d[i] && IsDigit(d[i]); }
      }
    }
    assert RmFileName(n) == "RM" + "_" + tail;
    MileOfSingleUnderscore("RM", tail);
    PyFloat.DigitsWithSuffixRejected(d);
    assert MileOf(RmFileName(n)) == None;
  }

  // ----- Corrected -----

  /**
   * `create_sensor_visualization` followed by `save_visualization`, given
   * the output file and the cleaned rows: `None` when the chart was saved,
   * otherwise the exception raised.
   */
  type Draw = (string, Frame) -> Option<Failure>

  /** `output/RM_{int(rm)}/RM_{rm}_Year_{year}_{sensor}.png`, with `rm` already an integer. */
  function ChartFile(rm: int, year: int, sensor: string): string
  {
    "output/RM_" + IntToString(rm) + "/RM_" + IntToString(rm) + "_Year_" + IntToString(year) + "_" + sensor + ".png"
  }

  /** `_process_year_data` with the plotting functions bound: 1 for a saved chart. */
  function YearCorrected(f: Frame, year: int, rm: int, sensor: string, draw: Draw): (r: Result<nat>)
    ensures r.Ok? ==> r.value <= 1
    ensures r == Ok(1) <==>
      SensorClean(YearData(f, year), sensor).Ok? &&
      draw(ChartFile(rm, year, sensor), SensorClean(YearData(f, year), sensor).value).None?
  {
    var yd := YearData(f, year);
    if yd.rows == [] then Ok(0)
    else
      match SensorClean(yd, sensor)
      case Err(e) => if e.kind == ValueError then Ok(0) else Err(e)
      case Ok(c) =>
        match draw(ChartFile(rm, year, sensor), c)
        case None => Ok(1)
        case Some(e) => if e.kind == ValueError then Ok(0) else Err(e)
  }

  function YearCorrectedOf(f: Frame, rm: int, sensor: string, draw: Draw): int -> Result<nat>
  {
    (y: int) => YearCorrected(f, y, rm, sensor, draw)
  }

  function RmCorrected(f: Frame, rm: int, sensor: string, draw: Draw): (r: Result<nat>)
    ensures !HasRequired(f, sensor) ==> r == Ok(0)
  {
    if !HasRequired(f, sensor) then Ok(0) else SumOver(Years(), YearCorrectedOf(f, rm, sensor, draw))
  }

  function RmCorrectedOf(f: Frame, rm: int, draw: Draw): string -> Result<nat>
  {
    (s: string) => RmCorrected(f, rm, s, draw)
  }

  /** The river mile from the file name's stem, as the comment beside it says. */
  function FileMile(path: string): (rm: Option<int>)
    ensures rm.Some? <==> MileOf(Stem(FileName(path))).Some?
  {
    match MileOf(Stem(FileName(path)))
    case None => None
    case Some(x) => Some(PyFloat.Trunc(x))
  }

  /** `process_file` with both corrections. */
  function FileCorrected(path: string, read: Result<Frame>, draw: Draw): nat
  {
    match FileMile(path)
    case None => 0
    case Some(rm) =>
      match read
      case Err(_) => 0
      case Ok(f) =>
        match SumOver(PresentSensors(f), RmCorrectedOf(f, rm, draw))
        case Err(_) => 0
        case Ok(n) => n
  }

  /** Corrected, `RM_<n>.xlsx` names the river mile `n`, in whichever directory it lies. */
  lemma FileMileOfRmName(dir: string, n: nat)
    ensures FileMile(dir + "/" + RmFileName(n)) == Some(n)
  {
    var name := RmFileName(n);
    ExtractFromRmName(n);
    assert MileOf(Stem(name)) == Some(n as real);
    RmNameHasNoSlash(n);
    FileNameAfterSlash(dir, name);
    assert PyFloat.Trunc(n as real) == n;
  }

  /** `RM_<n>.xlsx` */
  function RmFileName(n: nat): string
  {
    "RM_" + NatToString(n) + ".xlsx"
  }

  lemma RmNameHasNoSlash(n: nat)
    ensures '/' !in RmFileName(n)
  {
    var d := NatToString(n);
    var name := "RM_" + d + ".xlsx";
    forall i | 0 <= i < |name| ensures name[i] != '/' {
      if 3 <= i < 3 + |d| { assert name[i] == d[i - 3] && IsDigit(d[i - 3]); }
    }
  }

  lemma FileNameAfterSlash(dir: string, name: string)
    requires '/' !in name
    ensures FileName(dir + "/" + name) == name
  {
    var path := dir + "/" + name;
    assert path[|dir|] == '/';
    forall i | |dir| < i < |path| ensures path[i] != '/' {
      assert path[i] == name[i - |dir| - 1];
    }
    assert RFind(path, '/') == |dir|;
    assert path[|dir| + 1..] == name;
  }

  /** The year qualifies for a chart: at least two valid sensor readings. */
  predicate Cleanable(f: Frame, sensor: string, year: int)
  {
    |KeepValid(YearData(f, year).rows, [sensor])| >= 2
  }

  function CleanableOf(f: Frame, sensor: string): int -> bool
  {
    (y: int) => Cleanable(f, sensor, y)
  }

  /** The years of one sensor that qualify for a chart. */
  function SensorPairs(f: Frame, sensor: string): (n: nat)
    ensures n <= 20
  {
    if HasRequired(f, sensor) then Count(Years(), CleanableOf(f, sensor)) else 0
  }

  function SensorPairsOf(f: Frame): string -> nat
  {
    (s: string) => SensorPairs(f, s)
  }

  /** A year without text readings is charted exactly when it qualifies and its drawing succeeds. */
  lemma YearCorrectedCounts(f: Frame, year: int, rm: int, sensor: string, draw: Draw)
    requires sensor in f.columns && NoText(f.rows, sensor)
    requires forall p, c :: draw(p, c) == None
    ensures YearCorrected(f, year, rm, sensor, draw) == Ok(if Cleanable(f, sensor, year) then 1 else 0)
  {
    var yd := YearData(f, year);
    assert NoText(yd.rows, sensor);
    NoTextColumn(yd.rows, sensor);
  }

  /** With all drawings successful and no text readings, a river mile's count is its qualifying years. */
  lemma RmCorrectedCounts(f: Frame, rm: int, sensor: string, draw: Draw)
    requires NoText(f.rows, sensor)
    requires forall p, c :: draw(p, c) == None
    ensures RmCorrected(f, rm, sensor, draw) == Ok(SensorPairs(f, sensor))
  {
    if HasRequired(f, sensor) {
      forall y | y in Years() ensures YearCorrectedOf(f, rm, sensor, draw)(y) == Ok(if CleanableOf(f, sensor)(y) then 1 else 0) {
        YearCorrectedCounts(f, y, rm, sensor, draw);
      }
      SumCounts(Years(), YearCorrectedOf(f, rm, sensor, draw), CleanableOf(f, sensor));
    }
  }

  /**
   * Corrected, a readable file whose name carries a river mile, with no
   * text sensor readings and every drawing saved, yields one chart per
   * qualifying (sensor, year) pair.
   */
  lemma FileCorrectedCounts(path: string, f: Frame, draw: Draw)
    requires FileMile(path).Some?
    requires forall s :: s in Sensors ==> NoText(f.rows, s)
    requires forall p, c :: draw(p, c) == None
    ensures FileCorrected(path, Ok(f), draw) == Total(PresentSensors(f), SensorPairsOf(f))
  {
    var rm := FileMile(path).value;
    var g := RmCorrectedOf(f, rm, draw);
    forall s | s in PresentSensors(f) ensures g(s) == Ok(SensorPairsOf(f)(s)) {
      RmCorrectedCounts(f, rm, s, draw);
    }
    SumTotal(PresentSensors(f), g, SensorPairsOf(f));
    assert SumOver(PresentSensors(f), g) == Ok(Total(PresentSensors(f), SensorPairsOf(f)));
  }

  /** Where the corrected script makes a chart, the script as written makes none. */
  lemma CorrectedDiffers(path: string, f: Frame, draw: Draw)
    requires FileMile(path).Some?
    requires forall s :: s in Sensors ==> NoText(f.rows, s)
    requires forall p, c :: draw(p, c) == None
    requires Total(PresentSensors(f), SensorPairsOf(f)) > 0
    ensures FileCorrected(path, Ok(f), draw) > 0 && FileAsWritten(path, Ok(f)) == 0
  {
    FileCorrectedCounts(path, f, draw);
    FileAsWrittenAlwaysZero(path, Ok(f));
  }
}
