/**
 * The combined-visualization script: a workbook whose first sheet is a
 * summary and whose `RM_` sheets carrying sensor data are filed by sheet
 * name; each sensor column of each filed sheet is coerced, stripped of
 * missing readings and sorted by time, and charted once over all years.
 */
module Overall {
  import opened Errors
  import opened Strings
  import opened Frames
  import opened Paths
  import opened Jobs
  import Processor
  import PyFloat

  /** One sheet of the workbook: its name and the table read from it. */
  type Sheet = (string, Frame)

  const NoSensorSheets := Failure(ValueError, Plain("No sheets with valid sensor data found"))

  /** `pd.read_excel(excel_file, sheet_name=0)` on a workbook without sheets. */
  const NoFirstSheet := Failure(IndexError, Plain("list index out of range"))

  /** The sheets `load_data` files: named `RM_...` and holding `Sensor_1` or `Sensor_2`. */
  predicate Kept(s: Sheet)
  {
    StartsWith(s.0, "RM_") && ("Sensor_1" in s.1.columns || "Sensor_2" in s.1.columns)
  }

  /** The hydrograph column a validated sheet leaves behind. */
  function HydroOf(f: Frame): (h: Option<string>)
    ensures h.Some? <==> HydroCol in f.columns
    ensures h.Some? ==> h.value == HydroCol
  {
    if HydroCol in f.columns then Some(HydroCol) else None
  }

  /**
   * `_validate_sheet_data`: the error it raises, or the value it gives
   * `self.hydrograph_column`.
   */
  function ValidateSheet(name: string, f: Frame): (r: Result<Option<string>>)
    ensures r.Err? <==> TimeSeconds !in f.columns || YearCol !in f.columns
    ensures r.Err? ==> r.error == Failure(ValueError, Plain("Invalid data structure in " + name))
    ensures r.Ok? ==> r.value == HydroOf(f)
  {
    var missing := Processor.MissingOf({TimeSeconds, YearCol}, f.columns);
    if missing != {} then Err(Failure(ValueError, Plain("Invalid data structure in " + name)))
    else
      assert TimeSeconds !in missing && YearCol !in missing;
      Ok(HydroOf(f))
  }

  // ----- The processor's state ----------------------------------------------

  /** An insertion-ordered `dict`: its entries and the order of its keys. */
  ghost predicate DictValid(data: map<string, Frame>, order: seq<string>)
  {
    (forall k :: k in data <==> k in order) &&
    (forall i, j :: 0 <= i < j < |order| ==> order[i] != order[j])
  }

  /** `river_mile_data` and `hydrograph_column`. */
  datatype Table = Table(data: map<string, Frame>, order: seq<string>, hydrograph: Option<string>)

  /** `self.river_mile_data[k] = v`: a new key goes last, a known key keeps its place. */
  function Put(t: Table, k: string, v: Frame): (r: Table)
    ensures r.data == t.data[k := v] && r.hydrograph == t.hydrograph
    ensures DictValid(t.data, t.order) ==> DictValid(r.data, r.order)
  {
    t.(data := t.data[k := v], order := if k in t.data then t.order else t.order + [k])
  }

  /** The table, the counter `valid_sheets`, and the exception that ended the loop. */
  datatype Scanned = Scanned(table: Table, valid: nat, error: Option<Failure>)

  /** One pass of the sheet loop: the sheet is stored before it is validated. */
  function Visit(prev: Scanned, s: Sheet): Scanned
  {
    if !Kept(s) then prev
    else
      var stored := Put(prev.table, s.0, s.1);
      match ValidateSheet(s.0, s.1)
      case Err(e) => Scanned(stored, prev.valid, Some(e))
      case Ok(h) => Scanned(stored.(hydrograph := h), prev.valid + 1, None)
  }

  /** The sheet loop of `load_data` over `sheets`, from the table `t`. */
  function Scan(t: Table, sheets: seq<Sheet>): Scanned
  {
    if sheets == [] then Scanned(t, 0, None)
    else
      var prev := Scan(t, sheets[..|sheets| - 1]);
      if prev.error.Some? then prev else Visit(prev, sheets[|sheets| - 1])
  }

  lemma ScanStep(t: Table, sheets: seq<Sheet>, i: nat)
    requires i < |sheets| && Scan(t, sheets[..i]).error.None?
    ensures Scan(t, sheets[..i + 1]) == Visit(Scan(t, sheets[..i]), sheets[i])
  {
    assert sheets[..i + 1][..i] == sheets[..i];
  }

  /** Once a sheet fails its validation, the loop is over. */
  lemma {:induction false} ScanStops(t: Table, sheets: seq<Sheet>, i: nat)
    requires i <= |sheets| && Scan(t, sheets[..i]).error.Some?
    ensures Scan(t, sheets) == Scan(t, sheets[..i])
    decreases |sheets|
  {
    if i < |sheets| {
      var n := |sheets| - 1;
      assert sheets[..n][..i] == sheets[..i];
      ScanStops(t, sheets[..n], i);
    } else {
      assert sheets[..i] == sheets;
    }
  }

  /** The dictionary stays a dictionary. */
  lemma {:induction false} ScanValid(t: Table, sheets: seq<Sheet>)
    requires DictValid(t.data, t.order)
    ensures DictValid(Scan(t, sheets).table.data, Scan(t, sheets).table.order)
  {
    if sheets != [] {
      ScanValid(t, sheets[..|sheets| - 1]);
    }
  }

  /**
   * A loop without exception files exactly the kept sheets, each under its
   * own name with the table read from it (a later sheet of the same name
   * replacing an earlier one), and counts them.
   */
  lemma {:induction false} ScanFiles(t: Table, sheets: seq<Sheet>)
    requires Scan(t, sheets).error.None?
    ensures var r := Scan(t, sheets).table;
      (forall k :: k in r.data <==> k in t.data || exists s :: s in sheets && Kept(s) && s.0 == k) &&
      (forall k :: k in r.data ==> (k in t.data && r.data[k] == t.data[k]) || (k, r.data[k]) in sheets)
    ensures Scan(t, sheets).valid == Count(sheets, Kept)
  {
    if sheets != [] {
      var n := |sheets| - 1;
      var init := sheets[..n];
      assert sheets == init + [sheets[n]];
      assert forall s :: s in sheets <==> s in init || s == sheets[n];
      ScanFiles(t, init);
      CountConcat(init, [sheets[n]], Kept);
      assert [sheets[n]][1..] == [];
    }
  }

  /** `s` is a kept sheet of `sheets` that failed, and it is filed. */
  predicate FailedOn(t: Table, sheets: seq<Sheet>, s: Sheet)
  {
    s in sheets && Kept(s) && Scan(t, sheets).error.Some? &&
    ValidateSheet(s.0, s.1) == Err(Scan(t, sheets).error.value) &&
    s.0 in Scan(t, sheets).table.data && Scan(t, sheets).table.data[s.0] == s.1
  }

  /**
   * A loop that raised was ended by a kept sheet that fails its
   * validation, and that sheet had already been filed.
   */
  lemma {:induction false} ScanFailure(t: Table, sheets: seq<Sheet>)
    requires Scan(t, sheets).error.Some?
    ensures exists s :: FailedOn(t, sheets, s)
  {
    var n := |sheets| - 1;
    var init := sheets[..n];
    assert sheets[n] in sheets;
    if Scan(t, init).error.Some? {
      ScanFailure(t, init);
      var s :| FailedOn(t, init, s);
      assert s in sheets;
      assert FailedOn(t, sheets, s);
    } else {
      assert FailedOn(t, sheets, sheets[n]);
    }
  }

  /** The last kept sheet, if any. */
  function LastKept(sheets: seq<Sheet>): (r: Option<Sheet>)
    ensures r.Some? ==> r.value in sheets && Kept(r.value)
    ensures r.None? ==> forall s :: s in sheets ==> !Kept(s)
  {
    if sheets == [] then None
    else
      var n := |sheets| - 1;
      assert forall s :: s in sheets <==> s in sheets[..n] || s == sheets[n] by {
        assert sheets == sheets[..n] + [sheets[n]];
      }
      if Kept(sheets[n]) then Some(sheets[n]) else LastKept(sheets[..n])
  }

  /** `hydrograph_column` is decided by the last kept sheet alone. */
  lemma {:induction false} ScanHydrograph(t: Table, sheets: seq<Sheet>)
    requires Scan(t, sheets).error.None?
    ensures Scan(t, sheets).table.hydrograph ==
      match LastKept(sheets)
      case None => t.hydrograph
      case Some(s) => HydroOf(s.1)
  {
    if sheets != [] {
      ScanHydrograph(t, sheets[..|sheets| - 1]);
    }
  }

  /** What `load_data` leaves: `summary_data`, the table, and the exception it raises. */
  datatype Outcome = Outcome(summary: Option<Frame>, table: Table, error: Option<Failure>)

  /** `load_data`, given the sheets `pd.ExcelFile` reads, or its failure. */
  function Load(summary: Option<Frame>, t: Table, book: Result<seq<Sheet>>): (o: Outcome)
    ensures book.Err? ==> o == Outcome(summary, t, Some(book.error))
    ensures book.Ok? && book.value == [] ==> o == Outcome(summary, t, Some(NoFirstSheet))
    ensures book.Ok? && book.value != [] ==> o.summary == Some(book.value[0].1)
  {
    match book
    case Err(e) => Outcome(summary, t, Some(e))
    case Ok(sheets) =>
      if sheets == [] then Outcome(summary, t, Some(NoFirstSheet))
      else
        var r := Scan(t, sheets[1..]);
        Outcome(Some(sheets[0].1), r.table,
          if r.error.Some? then r.error else if r.valid == 0 then Some(NoSensorSheets) else None)
  }

  /**
   * `load_data` succeeds exactly when no kept sheet fails its validation
   * and at least one sheet after the first is kept; the table then holds
   * exactly those sheets besides what it held before.
   */
  lemma LoadSucceeds(summary: Option<Frame>, t: Table, sheets: seq<Sheet>)
    requires sheets != []
    ensures Load(summary, t, Ok(sheets)).error.None? <==>
      Scan(t, sheets[1..]).error.None? && exists s :: s in sheets[1..] && Kept(s)
    ensures Load(summary, t, Ok(sheets)).error.None? ==>
      forall k :: k in Load(summary, t, Ok(sheets)).table.data <==> k in t.data || exists s :: s in sheets[1..] && Kept(s) && s.0 == k
    ensures Scan(t, sheets[1..]).error.None? && (forall s :: s in sheets[1..] ==> !Kept(s)) ==>
      Load(summary, t, Ok(sheets)).error == Some(NoSensorSheets)
  {
    var rest := sheets[1..];
    if Scan(t, rest).error.None? {
      ScanFiles(t, rest);
      if exists s :: s in rest && Kept(s) {
        var s :| s in rest && Kept(s);
        CountPositive(rest, Kept, s);
      } else {
        CountNone(rest, Kept);
      }
    }
  }

  class CombinedDataProcessor {
    var filePath: string
    var summaryData: Option<Frame>
    var riverMileData: map<string, Frame>
    var sheetOrder: seq<string>
    var hydrographColumn: Option<string>

    ghost predicate Valid()
      reads this
    {
      DictValid(riverMileData, sheetOrder)
    }

    constructor (path: string)
      ensures filePath == path && summaryData == None && hydrographColumn == None
      ensures riverMileData == map[] && sheetOrder == []
      ensures Valid()
    {
      filePath := path;
      summaryData := None;
      riverMileData := map[];
      sheetOrder := [];
      hydrographColumn := None;
    }

    /** `load_data`, given what `pd.ExcelFile` reads from `file_path`. */
    method LoadData(book: Result<seq<Sheet>>) returns (e: Option<Failure>)
      requires Valid()
      modifies this
      ensures Valid() && filePath == old(filePath)
      ensures var o := Load(old(summaryData), Table(old(riverMileData), old(sheetOrder), old(hydrographColumn)), book);
        summaryData == o.summary && riverMileData == o.table.data && sheetOrder == o.table.order &&
        hydrographColumn == o.table.hydrograph && e == o.error
    {
      if book.Err? {
        return Some(book.error);
      }
      var sheets := book.value;
      if sheets == [] {
        return Some(NoFirstSheet);
      }
      summaryData := Some(sheets[0].1);
      var start := Table(riverMileData, sheetOrder, hydrographColumn);
      ScanValid(start, sheets[1..]);
      var r := ScanSheets(start, sheets[1..]);
      riverMileData, sheetOrder, hydrographColumn := r.table.data, r.table.order, r.table.hydrograph;
      if r.error.Some? {
        return r.error;
      }
      if r.valid == 0 {
        return Some(NoSensorSheets);
      }
      return None;
    }
  }

  /** The sheet loop, on a copy of the table. */
  method ScanSheets(t: Table, sheets: seq<Sheet>) returns (r: Scanned)
    ensures r == Scan(t, sheets)
  {
    var table := t;
    var valid := 0;
    var i := 0;
    while i < |sheets|
      invariant 0 <= i <= |sheets|
      invariant Scan(t, sheets[..i]) == Scanned(table, valid, None)
    {
      ScanStep(t, sheets, i);
      var (name, data) := sheets[i];
      if StartsWith(name, "RM_") && ("Sensor_1" in data.columns || "Sensor_2" in data.columns) {
        table := Put(table, name, data);
        var check := ValidateSheet(name, data);
        if check.Err? {
          ScanStops(t, sheets, i + 1);
          return Scanned(table, valid, Some(check.error));
        }
        table := table.(hydrograph := check.value);
        valid := valid + 1;
      }
      i := i + 1;
    }
    assert sheets[..i] == sheets;
    r := Scanned(table, valid, None);
  }

  // ----- process_combined_data ----------------------------------------------

  /** The five counters of `process_combined_data`. */
  datatype CombinedMetrics = CombinedMetrics(originalRows: int, invalidSensorRows: int, invalidHydroRows: int,
                                             zeroValues: int, nullValues: int)

  predicate Present(x: Row, col: string)
  {
    !Get(x, col).Missing?
  }

  function PresentIn(col: string): Row -> bool
  {
    (x: Row) => Present(x, col)
  }

  /** The coerced rows whose sensor reading is a number. */
  function Numeric(f: Frame, sensor: string): seq<Row>
  {
    Filter(Coerced(f.rows, sensor), PresentIn(sensor))
  }

  /**
   * `process_combined_data`: the rows with a numeric reading, sorted by
   * time, or the empty frame when none is left or the sort raised (text
   * times beside numeric ones); only a missing sensor column raises past it.
   */
  function CombinedProcessed(f: Frame, sensor: string): (r: Result<(Frame, CombinedMetrics)>)
    ensures r.Err? <==> sensor !in f.columns
    ensures r.Err? ==> r.error == Failure(KeyError, Plain(sensor))
    ensures r.Ok? ==> r.value.1 == CombinedMetrics(|f.rows|, 0, 0, 0, 0)
    ensures r.Ok? ==> (r.value.0.rows != [] <==>
      Numeric(f, sensor) != [] && TimeSeconds in f.columns && Sortable(Column(Numeric(f, sensor), TimeSeconds)))
    ensures r.Ok? && r.value.0.rows == [] ==> r.value.0 == Frame([], [])
    ensures r.Ok? && r.value.0.rows != [] ==>
      r.value.0.columns == f.columns && SortedBy(r.value.0.rows, TimeSeconds) &&
      multiset(r.value.0.rows) == multiset(Numeric(f, sensor))
  {
    if sensor !in f.columns then Err(Failure(KeyError, Plain(sensor)))
    else
      var metrics := CombinedMetrics(|f.rows|, 0, 0, 0, 0);
      var kept := Numeric(f, sensor);
      if kept == [] || TimeSeconds !in f.columns || !Sortable(Column(kept, TimeSeconds)) then Ok((Frame([], []), metrics))
      else
        var sorted := SortBy(kept, TimeSeconds);
        assert sorted != [] by { assert |multiset(sorted)| == |multiset(kept)|; }
        Ok((Frame(f.columns, sorted), metrics))
  }

  /** A coerced row is numeric exactly when it comes from a row whose reading coerces to a number. */
  lemma NumericMembers(f: Frame, sensor: string)
    ensures forall x :: x in Numeric(f, sensor) <==> exists y :: y in f.rows && Present(CoercedRow(y, sensor), sensor) && x == CoercedRow(y, sensor)
  {
  }

  /** Some reading of the column coerces to a number. */
  predicate AnyNumeric(f: Frame, sensor: string)
  {
    exists y :: y in f.rows && Present(CoercedRow(y, sensor), sensor)
  }

  /** `x` is a row of the input whose reading coerces to a number, coerced. */
  predicate NumericRow(f: Frame, sensor: string, x: Row)
  {
    exists y :: y in f.rows && Present(CoercedRow(y, sensor), sensor) && x == CoercedRow(y, sensor)
  }

  /**
   * There are rows returned exactly when some reading is numeric and the
   * time column can be sorted.
   */
  lemma CombinedNonEmpty(f: Frame, sensor: string)
    requires sensor in f.columns
    ensures CombinedProcessed(f, sensor).value.0.rows != [] <==>
      AnyNumeric(f, sensor) && TimeSeconds in f.columns && Sortable(Column(Numeric(f, sensor), TimeSeconds))
  {
    var kept := Numeric(f, sensor);
    NumericMembers(f, sensor);
    if kept != [] {
      assert kept[0] in kept;
    }
    if AnyNumeric(f, sensor) {
      var y :| y in f.rows && Present(CoercedRow(y, sensor), sensor);
      assert CoercedRow(y, sensor) in kept;
    }
  }

  /** The rows returned are the input rows whose reading is numeric, coerced. */
  lemma CombinedRows(f: Frame, sensor: string)
    requires sensor in f.columns && CombinedProcessed(f, sensor).value.0.rows != []
    ensures forall x :: x in CombinedProcessed(f, sensor).value.0.rows <==> NumericRow(f, sensor, x)
  {
    NumericMembers(f, sensor);
    SameMembers(CombinedProcessed(f, sensor).value.0.rows, Numeric(f, sensor));
  }

  lemma SameMembers<T>(a: seq<T>, b: seq<T>)
    requires multiset(a) == multiset(b)
    ensures forall x :: x in a <==> x in b
  {
    forall x ensures x in a <==> x in b {
      assert x in a <==> x in multiset(a);
      assert x in b <==> x in multiset(b);
    }
  }

  // ----- The chart loop of main ---------------------------------------------

  /**
   * `create_visualization(data, river_mile, year, sensor)`: whether it
   * returned a figure rather than `None`.
   */
  type Visualize = (Frame, real, int, string) -> bool

  /** `fig.savefig(path)`: whether it returned normally. */
  type Save = OutPath -> bool

  /** `output/combined / f"RM_{rm:.1f}" / f"RM_{rm:.1f}_{sensor}.png"` */
  function ChartPath(rm: real, sensor: string): OutPath
  {
    [Lit("output/combined/RM_"), Fixed1(rm), Lit("/RM_"), Fixed1(rm), Lit("_" + sensor + ".png")]
  }

  /** The year passed to every chart. */
  const ChartYear := 1

  /** One sensor of one sheet: its chart, or nothing; every exception is caught. */
  function SensorChart(rm: real, f: Frame, viz: Visualize, save: Save, sensor: string): (r: seq<OutPath>)
    ensures r == [] || r == [ChartPath(rm, sensor)]
  {
    match CombinedProcessed(f, sensor)
    case Err(_) => []
    case Ok((p, _)) =>
      if p.rows != [] && viz(p, rm, ChartYear, sensor) && save(ChartPath(rm, sensor)) then [ChartPath(rm, sensor)] else []
  }

  function SensorChartOf(rm: real, f: Frame, viz: Visualize, save: Save): string -> seq<OutPath>
  {
    (sensor: string) => SensorChart(rm, f, viz, save, sensor)
  }

  /** One filed sheet: nothing when its name gives no river mile, else its sensors in column order. */
  function SheetCharts(viz: Visualize, save: Save, item: Sheet): seq<OutPath>
  {
    match MileOf(item.0)
    case None => []
    case Some(rm) => Collect(Processor.SensorColumns(item.1.columns), SensorChartOf(rm, item.1, viz, save))
  }

  function SheetChartsOf(viz: Visualize, save: Save): Sheet -> seq<OutPath>
  {
    (item: Sheet) => SheetCharts(viz, save, item)
  }

  /** `river_mile_data.items()` in insertion order. */
  function Items(data: map<string, Frame>, order: seq<string>): (r: seq<Sheet>)
    requires DictValid(data, order)
    ensures |r| == |order|
    ensures forall i :: 0 <= i < |order| ==> r[i] == (order[i], data[order[i]])
  {
    seq(|order|, i requires 0 <= i < |order| => assert order[i] in order; (order[i], data[order[i]]))
  }

  /** The chart loop of `main`: the files written, sheet by sheet. */
  function MainCharts(items: seq<Sheet>, viz: Visualize, save: Save): seq<OutPath>
  {
    Collect(items, SheetChartsOf(viz, save))
  }

  /** The chart loop of `main` over a loaded processor. */
  method ChartAll(p: CombinedDataProcessor, viz: Visualize, save: Save) returns (written: seq<OutPath>)
    requires p.Valid()
    ensures written == MainCharts(Items(p.riverMileData, p.sheetOrder), viz, save)
  {
    var items := Items(p.riverMileData, p.sheetOrder);
    var g := SheetChartsOf(viz, save);
    written := [];
    var i := 0;
    while i < |items|
      invariant 0 <= i <= |items|
      invariant written == Collect(items[..i], g)
    {
      CollectStep(items, g, i);
      var one := ChartSheet(items[i], viz, save);
      written := written + one;
      i := i + 1;
    }
    CollectDone(items, g);
  }

  /** One sheet of the loop: the river mile, then the sensor loop. */
  method ChartSheet(item: Sheet, viz: Visualize, save: Save) returns (written: seq<OutPath>)
    ensures written == SheetCharts(viz, save, item)
  {
    var (name, data) := item;
    var parsed := MileOf(name);
    if parsed.None? {
      return [];
    }
    var rm := parsed.value;
    var sensors := Processor.SensorColumns(data.columns);
    var g := SensorChartOf(rm, data, viz, save);
    written := [];
    var i := 0;
    while i < |sensors|
      invariant 0 <= i <= |sensors|
      invariant written == Collect(sensors[..i], g)
    {
      CollectStep(sensors, g, i);
      var processed := CombinedProcessed(data, sensors[i]);
      if processed.Ok? && processed.value.0.rows != [] && viz(processed.value.0, rm, ChartYear, sensors[i]) {
        if save(ChartPath(rm, sensors[i])) {
          written := written + [ChartPath(rm, sensors[i])];
        }
      }
      i := i + 1;
    }
    CollectDone(sensors, g);
  }

  /** A chart of a sheet and a sensor column whose numeric rows were drawn and saved. */
  predicate ChartOf(item: Sheet, sensor: string, p: OutPath, viz: Visualize, save: Save)
  {
    MileOf(item.0).Some? && sensor in Processor.SensorColumns(item.1.columns) &&
    SensorChart(MileOf(item.0).value, item.1, viz, save, sensor) == [p]
  }

  /** One sheet writes exactly the charts of its sensor columns that were drawn and saved. */
  lemma SheetChartsMembers(viz: Visualize, save: Save, item: Sheet, p: OutPath)
    ensures p in SheetCharts(viz, save, item) <==> exists sensor :: ChartOf(item, sensor, p, viz, save)
  {
    if p in SheetCharts(viz, save, item) {
      SheetChartWritten(viz, save, item, p);
    }
    if exists sensor :: ChartOf(item, sensor, p, viz, save) {
      var sensor :| ChartOf(item, sensor, p, viz, save);
      SheetChartListed(viz, save, item, sensor, p);
    }
  }

  lemma SheetChartWritten(viz: Visualize, save: Save, item: Sheet, p: OutPath)
    requires p in SheetCharts(viz, save, item)
    ensures exists sensor :: ChartOf(item, sensor, p, viz, save)
  {
    var rm := MileOf(item.0).value;
    var h := SensorChartOf(rm, item.1, viz, save);
    var sensors := Processor.SensorColumns(item.1.columns);
    CollectMembers(sensors, h);
    var sensor :| sensor in sensors && p in h(sensor);
    assert ChartOf(item, sensor, p, viz, save);
  }

  lemma SheetChartListed(viz: Visualize, save: Save, item: Sheet, sensor: string, p: OutPath)
    requires ChartOf(item, sensor, p, viz, save)
    ensures p in SheetCharts(viz, save, item)
  {
    var rm := MileOf(item.0).value;
    var h := SensorChartOf(rm, item.1, viz, save);
    CollectMembers(Processor.SensorColumns(item.1.columns), h);
    assert p in h(sensor);
  }

  /**
   * The files written are exactly the charts of the filed sheets whose
   * name gives a river mile, one per sensor column whose numeric rows were
   * drawn and saved.
   */
  lemma MainChartsWritten(items: seq<Sheet>, viz: Visualize, save: Save, p: OutPath)
    ensures p in MainCharts(items, viz, save) <==> exists item, sensor :: item in items && ChartOf(item, sensor, p, viz, save)
  {
    var g := SheetChartsOf(viz, save);
    CollectMembers(items, g);
    forall item | item in items
      ensures p in g(item) <==> exists sensor :: ChartOf(item, sensor, p, viz, save)
    {
      SheetChartsMembers(viz, save, item, p);
    }
  }

  /** An `RM_<t>` sheet with no further `_` is charted at river mile `float(t)`. */
  lemma SheetMile(t: string)
    requires '_' !in t
    ensures MileOf("RM_" + t) == PyFloat.ParseFloat(t)
  {
    assert "RM_" + t == "RM" + "_" + t;
    MileOfSingleUnderscore("RM", t);
  }

  /** Two sensors of one sheet never write the same file. */
  lemma ChartPathsDiffer(rm: real, s1: string, s2: string)
    requires s1 != s2
    ensures ChartPath(rm, s1) != ChartPath(rm, s2)
  {
    var a := "_" + s1 + ".png";
    var b := "_" + s2 + ".png";
    assert ChartPath(rm, s1)[4] == Lit(a) && ChartPath(rm, s2)[4] == Lit(b);
    assert a[1..|a| - 4] == s1 && b[1..|b| - 4] == s2;
  }
}
