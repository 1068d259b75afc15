/**
 * The simplified sensor-visualization script: river-mile workbooks found
 * by name, checked for their structure and filed by river mile; each
 * sensor column of each year coerced, stripped of missing and zero
 * readings, made positive and sorted by time; and one chart per
 * (river mile, sensor, year) whose readings are not empty.
 */
module Simplified {
  import opened Errors
  import opened Strings
  import opened Frames
  import opened Paths
  import opened Jobs
  import Processor

  // ----- Finding the workbooks -----------------------------------------------

  /** `RiverMileData(file)` succeeds: the name carries a river mile. */
  predicate NameParses(name: string)
  {
    ExtractRiverMile(name).Ok?
  }

  /**
   * `find_river_mile_files`, given whether the directory exists and its
   * listing: the `RM_*.xlsx` names that carry a river mile, sorted.
   */
  function RiverMileFiles(dirExists: bool, dir: string, listing: seq<string>): (r: Result<seq<string>>)
    ensures !dirExists ==> r == Err(Failure(FileNotFoundError, Plain("Data directory not found: " + dir)))
    ensures dirExists ==> r.Ok? && NamesSorted(r.value)
    ensures dirExists ==> forall n :: n in r.value <==> n in listing && MatchesRmXlsx(n) && NameParses(n)
  {
    if !dirExists then Err(Failure(FileNotFoundError, Plain("Data directory not found: " + dir)))
    else
      var valid := Filter(Filter(listing, MatchesRmXlsx), NameParses);
      var r := SortNames(valid);
      assert forall n :: n in r <==> n in multiset(valid);
      Ok(r)
  }

  /** `find_river_mile_files`: the glob, then the loop that keeps the names that parse. */
  method FindRiverMileFiles(dirExists: bool, dir: string, listing: seq<string>) returns (r: Result<seq<string>>)
    ensures r == RiverMileFiles(dirExists, dir, listing)
  {
    if !dirExists {
      return Err(Failure(FileNotFoundError, Plain("Data directory not found: " + dir)));
    }
    var rmFiles := Filter(listing, MatchesRmXlsx);
    if rmFiles == [] {
      return Ok([]);
    }
    var valid := [];
    var i := 0;
    while i < |rmFiles|
      invariant 0 <= i <= |rmFiles|
      invariant valid == Filter(rmFiles[..i], NameParses)
    {
      FilterPrefixStep(rmFiles, i, NameParses);
      if ExtractRiverMile(rmFiles[i]).Ok? {
        valid := valid + [rmFiles[i]];
      }
      i := i + 1;
    }
    assert rmFiles[..i] == rmFiles;
    return Ok(SortNames(valid));
  }

  // ----- Structure check and loading -----------------------------------------

  /** `_validate_data_structure` on the table read from `name`. */
  function ValidateStructure(name: string, columns: seq<string>): (e: Option<Failure>)
    ensures e.None? <==> Processor.SensorColumns(columns) != [] && TimeSeconds in columns && YearCol in columns
    ensures Processor.SensorColumns(columns) == [] ==>
      e == Some(Failure(ValueError, Plain("No sensor columns found in " + name)))
    ensures Processor.SensorColumns(columns) != [] && e.Some? ==>
      e.value.kind == ValueError && e.value.msg.WithSet? &&
      e.value.msg.prefix == "Missing required columns in " + name + ": " &&
      forall c :: c in e.value.msg.items <==> c in {TimeSeconds, YearCol} && c !in columns
  {
    if Processor.SensorColumns(columns) == [] then Some(Failure(ValueError, Plain("No sensor columns found in " + name)))
    else
      var missing := Processor.MissingOf({TimeSeconds, YearCol}, columns);
      if missing == {} then
        assert TimeSeconds !in missing && YearCol !in missing;
        None
      else Some(Failure(ValueError, WithSet("Missing required columns in " + name + ": ", missing)))
  }

  /**
   * A `RiverMileData` once loaded: the object is made per file, given its
   * table, and never changed after it is filed, so it is kept as a value.
   */
  datatype MileRecord = MileRecord(fileName: string, riverMile: real, data: Frame)

  /** The record a file yields in `load_data`, or `None` when an exception skips it. */
  function Loads(name: string, read: string -> Result<Frame>): (r: Option<MileRecord>)
    ensures r.Some? <==> NameParses(name) && read(name).Ok? && ValidateStructure(name, read(name).value.columns).None?
    ensures r.Some? ==> r.value == MileRecord(name, ExtractRiverMile(name).value, read(name).value)
  {
    if NameParses(name) && read(name).Ok? && ValidateStructure(name, read(name).value.columns).None?
    then Some(MileRecord(name, ExtractRiverMile(name).value, read(name).value))
    else None
  }

  function LoadsOf(read: string -> Result<Frame>): string -> Option<MileRecord>
  {
    (n: string) => Loads(n, read)
  }

  /** The records `load` yields for the files, by river mile; a later file replaces an earlier one. */
  function Filed(files: seq<string>, load: string -> Option<MileRecord>): map<real, MileRecord>
  {
    if files == [] then map[]
    else
      var init := Filed(files[..|files| - 1], load);
      match load(files[|files| - 1])
      case None => init
      case Some(rec) => init[rec.riverMile := rec]
  }

  /** The river-mile table `load_data` builds from the files it found. */
  function LoadedRecords(files: seq<string>, read: string -> Result<Frame>): map<real, MileRecord>
  {
    Filed(files, LoadsOf(read))
  }

  /** Each entry comes from a file filed under its own river mile, and each file that loads is filed. */
  lemma {:induction false} FiledEntries(files: seq<string>, load: string -> Option<MileRecord>, k: real)
    ensures k in Filed(files, load) ==>
      Filed(files, load)[k].riverMile == k && exists n :: n in files && load(n) == Some(Filed(files, load)[k])
    ensures (exists n :: n in files && load(n).Some? && load(n).value.riverMile == k) ==> k in Filed(files, load)
  {
    if files != [] {
      var n := files[|files| - 1];
      var init := files[..|files| - 1];
      assert files == init + [n];
      assert forall m :: m in files <==> m in init || m == n;
      FiledEntries(init, load, k);
      if k in Filed(files, load) && k in Filed(init, load) && Filed(files, load)[k] == Filed(init, load)[k] {
        var m :| m in init && load(m) == Some(Filed(init, load)[k]);
        assert m in files;
      }
      if exists m :: m in files && load(m).Some? && load(m).value.riverMile == k {
        var m :| m in files && load(m).Some? && load(m).value.riverMile == k;
        if m != n { assert m in init; }
      }
    }
  }

  /** The file `n` loads, under river mile `k`. */
  predicate LoadsAs(n: string, read: string -> Result<Frame>, k: real)
  {
    Loads(n, read).Some? && Loads(n, read).value.riverMile == k
  }

  /**
   * Every filed record was loaded from one of the files, passed the
   * structure check and sits under its own river mile; every file that
   * loads has its river mile filed.
   */
  lemma LoadedRecordsEntries(files: seq<string>, read: string -> Result<Frame>, k: real)
    ensures k in LoadedRecords(files, read) ==>
      var rec := LoadedRecords(files, read)[k];
      rec.fileName in files && Loads(rec.fileName, read) == Some(rec) && rec.riverMile == k
    ensures (exists n :: n in files && LoadsAs(n, read, k)) ==> k in LoadedRecords(files, read)
  {
    var load := LoadsOf(read);
    FiledEntries(files, load, k);
    if k in LoadedRecords(files, read) {
      var rec := LoadedRecords(files, read)[k];
      var n :| n in files && load(n) == Some(rec);
      assert Loads(n, read) == Some(rec);
    }
    if exists n :: n in files && LoadsAs(n, read, k) {
      var n :| n in files && LoadsAs(n, read, k);
      assert load(n) == Loads(n, read);
    }
  }

  lemma FiledStep(files: seq<string>, load: string -> Option<MileRecord>, i: nat)
    requires i < |files|
    ensures Filed(files[..i + 1], load) ==
      match load(files[i])
      case None => Filed(files[..i], load)
      case Some(rec) => Filed(files[..i], load)[rec.riverMile := rec]
  {
    assert files[..i + 1][..i] == files[..i];
  }

  /** The keys of a dictionary in insertion order, each once. */
  ghost predicate OrderValid(data: map<real, MileRecord>, order: seq<real>)
  {
    (forall k :: k in data ==> k in order) &&
    (forall i :: 0 <= i < |order| ==> order[i] in data) &&
    (forall i, j :: 0 <= i < j < |order| ==> order[i] != order[j])
  }

  /**
   * The key order after filing the loaded files into a dictionary holding
   * `data` in the order `order`: a new river mile goes last, a river mile
   * filed again keeps its place.
   */
  function FiledOrder(files: seq<string>, load: string -> Option<MileRecord>, data: map<real, MileRecord>, order: seq<real>)
    : (r: seq<real>)
    ensures OrderValid(data, order) ==> OrderValid(data + Filed(files, load), r)
  {
    if files == [] then order
    else
      var n := |files| - 1;
      var init := FiledOrder(files[..n], load, data, order);
      match load(files[n])
      case None => init
      case Some(rec) =>
        if rec.riverMile in data + Filed(files[..n], load) then init else init + [rec.riverMile]
  }

  lemma FiledOrderStep(files: seq<string>, load: string -> Option<MileRecord>, data: map<real, MileRecord>, order: seq<real>, i: nat)
    requires i < |files|
    ensures FiledOrder(files[..i + 1], load, data, order) ==
      match load(files[i])
      case None => FiledOrder(files[..i], load, data, order)
      case Some(rec) =>
        if rec.riverMile in data + Filed(files[..i], load) then FiledOrder(files[..i], load, data, order)
        else FiledOrder(files[..i], load, data, order) + [rec.riverMile]
  {
    assert files[..i + 1][..i] == files[..i];
  }

  /** `river_mile_data.values()`: the record of each key, in insertion order. */
  function Values(data: map<real, MileRecord>, order: seq<real>): (r: seq<MileRecord>)
    requires OrderValid(data, order)
    ensures |r| == |order|
    ensures forall i :: 0 <= i < |order| ==> r[i] == data[order[i]]
  {
    seq(|order|, i requires 0 <= i < |order| => data[order[i]])
  }

  /** Every record of the dictionary is yielded exactly once. */
  lemma ValuesOnce(data: map<real, MileRecord>, order: seq<real>, k: real)
    requires OrderValid(data, order) && k in data
    ensures exists i :: 0 <= i < |order| && order[i] == k && Values(data, order)[i] == data[k]
    ensures forall i, j :: 0 <= i < |order| && 0 <= j < |order| && order[i] == k && order[j] == k ==> i == j
  {
    var i :| 0 <= i < |order| && order[i] == k;
    assert Values(data, order)[i] == data[k];
  }

  class SeatekDataProcessor {
    var dataDir: string
    var riverMileData: map<real, MileRecord>
    var mileOrder: seq<real>

    /** `mileOrder` lists the keys of `riverMileData` in insertion order. */
    ghost predicate Valid()
      reads this
    {
      OrderValid(riverMileData, mileOrder)
    }

    constructor (dir: string)
      ensures dataDir == dir && riverMileData == map[] && mileOrder == []
      ensures Valid()
    {
      dataDir := dir;
      riverMileData := map[];
      mileOrder := [];
    }

    /**
     * `load_data`, given whether the directory exists, its listing and what
     * `read_excel` gives for each name. Errors of the search are re-raised;
     * a file whose reading or structure check fails is skipped.
     */
    method LoadData(dirExists: bool, listing: seq<string>, read: string -> Result<Frame>) returns (e: Option<Failure>)
      requires Valid()
      modifies this
      ensures Valid() && dataDir == old(dataDir)
      ensures !dirExists ==> e == Some(Failure(FileNotFoundError, Plain("Data directory not found: " + dataDir)))
      ensures dirExists && RiverMileFiles(dirExists, dataDir, listing).value == [] ==>
        e == Some(Failure(FileNotFoundError, Plain("No valid river mile files found in " + dataDir)))
      ensures dirExists && RiverMileFiles(dirExists, dataDir, listing).value != [] ==> e.None?
      ensures e.Some? ==> riverMileData == old(riverMileData) && mileOrder == old(mileOrder)
      ensures e.None? ==> riverMileData == old(riverMileData) + LoadedRecords(RiverMileFiles(dirExists, dataDir, listing).value, read)
      ensures e.None? ==>
        mileOrder == FiledOrder(RiverMileFiles(dirExists, dataDir, listing).value, LoadsOf(read), old(riverMileData), old(mileOrder))
    {
      var found := FindRiverMileFiles(dirExists, dataDir, listing);
      if found.Err? {
        return Some(found.error);
      }
      var files := found.value;
      if files == [] {
        return Some(Failure(FileNotFoundError, Plain("No valid river mile files found in " + dataDir)));
      }
      riverMileData, mileOrder := FileAll(files, read, riverMileData, mileOrder);
      return None;
    }
  }

  lemma UnionUpdate(a: map<real, MileRecord>, b: map<real, MileRecord>, k: real, v: MileRecord)
    ensures a + b[k := v] == (a + b)[k := v]
  {
  }

  /** The loop of `load_data`, over the table built so far. */
  method FileAll(files: seq<string>, read: string -> Result<Frame>, start: map<real, MileRecord>, startOrder: seq<real>)
    returns (table: map<real, MileRecord>, order: seq<real>)
    ensures table == start + LoadedRecords(files, read)
    ensures order == FiledOrder(files, LoadsOf(read), start, startOrder)
  {
    var load := LoadsOf(read);
    table, order := start, startOrder;
    var i := 0;
    while i < |files|
      invariant 0 <= i <= |files|
      invariant table == start + Filed(files[..i], load)
      invariant order == FiledOrder(files[..i], load, start, startOrder)
    {
      FiledStep(files, load, i);
      FiledOrderStep(files, load, start, startOrder, i);
      var rec := load(files[i]);
      if rec.Some? {
        if rec.value.riverMile !in table {
          order := order + [rec.value.riverMile];
        }
        UnionUpdate(start, Filed(files[..i], load), rec.value.riverMile, rec.value);
        table := table[rec.value.riverMile := rec.value];
      }
      i := i + 1;
    }
    assert files[..i] == files;
  }

  // ----- process_sensor_data -------------------------------------------------

  /** The four counters of `process_sensor_data`. */
  datatype SensorMetrics = SensorMetrics(originalRows: int, invalidRows: int, zeroValues: int, nullValues: int)

  /** `abs()` on one cell. */
  function AbsCell(c: Cell): (r: Cell)
    requires !c.Text?
    ensures c.Num? ==> r == Num(if c.v < 0.0 then -c.v else c.v)
    ensures c.PosInf? || c.NegInf? ==> r == PosInf
    ensures c.Missing? ==> r == Missing
  {
    match c
    case Num(v) => Num(if v < 0.0 then -v else v)
    case Missing => Missing
    case _ => PosInf
  }

  /** One row with its (numeric) reading made positive. */
  function AbsRow(x: Row, sensor: string): Row
    requires !Get(x, sensor).Text?
  {
    x[sensor := AbsCell(Get(x, sensor))]
  }

  /** `processed[sensor] = processed[sensor].abs()` */
  function Absolute(rows: seq<Row>, sensor: string): (r: seq<Row>)
    requires NoText(rows, sensor)
    ensures |r| == |rows|
    ensures forall x :: x in r <==> exists z :: z in rows && x == AbsRow(z, sensor)
  {
    var r := seq(|rows|, i requires 0 <= i < |rows| => assert rows[i] in rows; AbsRow(rows[i], sensor));
    assert forall x :: x in r <==> exists z :: z in rows && x == AbsRow(z, sensor) by {
      forall x ensures x in r <==> exists z :: z in rows && x == AbsRow(z, sensor) {
        if x in r {
          var i :| 0 <= i < |r| && r[i] == x;
          assert rows[i] in rows;
        }
        if exists z :: z in rows && x == AbsRow(z, sensor) {
          var z :| z in rows && x == AbsRow(z, sensor);
          var i :| 0 <= i < |rows| && rows[i] == z;
          assert r[i] == x;
        }
      }
    }
    r
  }

  /** The counted, filtered, made-positive readings, before the sort. */
  function Readings(f: Frame, sensor: string): (r: seq<Row>)
  {
    var coerced := Coerced(f.rows, sensor);
    CoercedNoText(f.rows, sensor);
    Absolute(Processor.Valid(coerced, sensor), sensor)
  }

  lemma CoercedNoText(rows: seq<Row>, sensor: string)
    ensures NoText(Processor.Valid(Coerced(rows, sensor), sensor), sensor)
  {
  }

  /** What `process_sensor_data` returns for a table and a sensor column. */
  function SensorProcessed(f: Frame, sensor: string): (r: Result<(Frame, SensorMetrics)>)
    ensures sensor !in f.columns ==> r == Err(Failure(KeyError, Plain(sensor)))
    ensures r.Ok? ==> r.value.0.columns == f.columns && SortedBy(r.value.0.rows, TimeSeconds)
    ensures r.Ok? ==> r.value.1.originalRows == |f.rows|
    ensures r.Ok? ==> |r.value.0.rows| == r.value.1.originalRows - r.value.1.invalidRows
    ensures r.Ok? <==> (sensor in f.columns && TimeSeconds in f.columns &&
                        Sortable(Column(Readings(f, sensor), TimeSeconds)))
    ensures r.Err? && sensor in f.columns && TimeSeconds in f.columns ==> r.error == Unorderable
  {
    if sensor !in f.columns then Err(Failure(KeyError, Plain(sensor)))
    else
      var coerced := Coerced(f.rows, sensor);
      var kept := Readings(f, sensor);
      var metrics := SensorMetrics(|f.rows|, |f.rows| - |kept|,
        Processor.ZeroCount(coerced, sensor), Processor.NullCount(coerced, sensor));
      if TimeSeconds !in f.columns then Err(Failure(KeyError, Plain(TimeSeconds)))
      else if !Sortable(Column(kept, TimeSeconds)) then Err(Unorderable)
      else
        var sorted := SortBy(kept, TimeSeconds);
        assert |sorted| == |kept| by { assert |multiset(sorted)| == |multiset(kept)|; }
        Ok((Frame(f.columns, sorted), metrics))
  }

  /**
   * `process_sensor_data`: the metrics dictionary is filled in as the
   * column is coerced, filtered and made positive; the result is sorted in
   * place.
   */
  method ProcessSensorData(f: Frame, sensor: string) returns (r: Result<(Frame, SensorMetrics)>)
    ensures r == SensorProcessed(f, sensor)
  {
    var metrics := SensorMetrics(|f.rows|, 0, 0, 0);
    if sensor !in f.columns {
      return Err(Failure(KeyError, Plain(sensor)));
    }
    var processed := Coerced(f.rows, sensor);
    metrics := metrics.(nullValues := Processor.NullCount(processed, sensor));
    metrics := metrics.(zeroValues := Processor.ZeroCount(processed, sensor));
    var kept := Processor.Valid(processed, sensor);
    CoercedNoText(f.rows, sensor);
    kept := Absolute(kept, sensor);
    metrics := metrics.(invalidRows := metrics.originalRows - |kept|);
    if TimeSeconds !in f.columns {
      return Err(Failure(KeyError, Plain(TimeSeconds)));
    }
    if !Sortable(Column(kept, TimeSeconds)) {
      return Err(Unorderable);
    }
    var sorted := SortBy(kept, TimeSeconds);
    return Ok((Frame(f.columns, sorted), metrics));
  }

  /** A row of the input whose reading survives: present after coercion and not zero. */
  predicate Readable(x: Row, sensor: string)
  {
    NonNullNonZero(ToNumeric(Get(x, sensor)))
  }

  /** The row with its reading coerced and made positive. */
  function Positive(x: Row, sensor: string): Row
  {
    x[sensor := AbsCell(ToNumeric(Get(x, sensor)))]
  }

  /** Coercing and then taking the absolute value is `Positive`. */
  lemma CoercedThenAbs(y: Row, sensor: string)
    ensures Get(CoercedRow(y, sensor), sensor) == ToNumeric(Get(y, sensor))
    ensures AbsRow(CoercedRow(y, sensor), sensor) == Positive(y, sensor)
  {
    var z := CoercedRow(y, sensor);
    assert z[sensor] == ToNumeric(Get(y, sensor));
  }

  /** The readings kept are the readable input rows, made positive. */
  lemma ReadingsMembers(f: Frame, sensor: string)
    ensures forall x :: x in Readings(f, sensor) <==> exists y :: y in f.rows && Readable(y, sensor) && x == Positive(y, sensor)
  {
    forall x | x in Readings(f, sensor) ensures exists y :: y in f.rows && Readable(y, sensor) && x == Positive(y, sensor) {
      ReadingFrom(f, sensor, x);
    }
    forall y | y in f.rows && Readable(y, sensor) ensures Positive(y, sensor) in Readings(f, sensor) {
      ReadingOf(f, sensor, y);
    }
  }

  lemma ReadingFrom(f: Frame, sensor: string, x: Row)
    requires x in Readings(f, sensor)
    ensures exists y :: y in f.rows && Readable(y, sensor) && x == Positive(y, sensor)
  {
    var coerced := Coerced(f.rows, sensor);
    var valid := Processor.Valid(coerced, sensor);
    CoercedNoText(f.rows, sensor);
    var z :| z in valid && x == AbsRow(z, sensor);
    var y :| y in f.rows && z == CoercedRow(y, sensor);
    CoercedThenAbs(y, sensor);
  }

  lemma ReadingOf(f: Frame, sensor: string, y: Row)
    requires y in f.rows && Readable(y, sensor)
    ensures Positive(y, sensor) in Readings(f, sensor)
  {
    var coerced := Coerced(f.rows, sensor);
    var valid := Processor.Valid(coerced, sensor);
    CoercedNoText(f.rows, sensor);
    var z := CoercedRow(y, sensor);
    CoercedThenAbs(y, sensor);
    assert z in coerced;
    assert z in valid;
  }

  /** Every reading kept is a positive number or `inf`. */
  lemma ReadingsPositive(f: Frame, sensor: string)
    ensures forall x :: x in Readings(f, sensor) ==> Get(x, sensor).PosInf? || (Get(x, sensor).Num? && Get(x, sensor).v > 0.0)
  {
    var coerced := Coerced(f.rows, sensor);
    var valid := Processor.Valid(coerced, sensor);
    CoercedNoText(f.rows, sensor);
    forall x | x in Readings(f, sensor) ensures Get(x, sensor).PosInf? || (Get(x, sensor).Num? && Get(x, sensor).v > 0.0) {
      var z :| z in valid && x == AbsRow(z, sensor);
      assert Get(x, sensor) == AbsCell(Get(z, sensor));
    }
  }

  /**
   * The rows returned are the readable input rows, with their reading made
   * positive: every reading is a positive number or `inf`, and the dropped
   * rows are exactly the missing and the zero readings.
   */
  lemma SensorProcessedRows(f: Frame, sensor: string)
    requires SensorProcessed(f, sensor).Ok?
    ensures var (out, m) := SensorProcessed(f, sensor).value;
      m.invalidRows == m.nullValues + m.zeroValues &&
      (forall x :: x in out.rows ==> Get(x, sensor).PosInf? || (Get(x, sensor).Num? && Get(x, sensor).v > 0.0)) &&
      (forall x :: x in out.rows <==> exists y :: y in f.rows && Readable(y, sensor) && x == Positive(y, sensor))
  {
    var kept := Readings(f, sensor);
    var out := SensorProcessed(f, sensor).value.0;
    Processor.ReadingsPartition(Coerced(f.rows, sensor), sensor);
    assert multiset(out.rows) == multiset(kept);
    assert forall x :: x in out.rows <==> x in kept by {
      forall x ensures x in out.rows <==> x in kept {
        assert x in out.rows <==> x in multiset(out.rows);
      }
    }
    ReadingsMembers(f, sensor);
    ReadingsPositive(f, sensor);
  }

  // ----- process_river_mile_data ---------------------------------------------

  /**
   * The drawing collaborators: `figure` is `create_visualization` for the
   * output path and the processed rows, `false` where it returned `None`;
   * `save` is the `mkdir` of the river mile's directory followed by
   * `savefig`, `None` when both return and otherwise the exception, which
   * nothing in `process_river_mile_data` catches.
   */
  datatype Render = Render(figure: (OutPath, Frame) -> bool, save: OutPath -> Option<Failure>)

  /** `output_base / f"RM_{rm:.1f}" / f"RM_{rm:.1f}_Year_{year}_{sensor}.png"` */
  function ChartPath(base: string, rm: real, year: Cell, sensor: string): OutPath
  {
    [Lit(base + "/RM_"), Fixed1(rm), Lit("/RM_"), Fixed1(rm), Lit("_Year_"), YearPiece(year), Lit("_" + sensor + ".png")]
  }

  /** `process_sensor_data` on the rows of one year. */
  function YearProduct(rec: MileRecord, sensor: string, year: Cell): Result<(Frame, SensorMetrics)>
  {
    SensorProcessed(YearFrame(rec.data, year), sensor)
  }

  /** The year's readings are not empty and their chart was made. */
  predicate Drawn(rec: MileRecord, sensor: string, year: Cell, base: string, render: Render)
  {
    YearProduct(rec, sensor, year).Ok? && YearProduct(rec, sensor, year).value.0.rows != [] &&
    render.figure(ChartPath(base, rec.riverMile, year, sensor), YearProduct(rec, sensor, year).value.0)
  }

  /**
   * The chart files one year writes: none, or the one chart once it is
   * saved; a failed save ends the whole run.
   */
  function YearCharts(rec: MileRecord, sensor: string, base: string, render: Render, year: Cell): (r: Result<seq<OutPath>>)
    ensures r.Ok? <==> (YearProduct(rec, sensor, year).Ok? &&
                        (Drawn(rec, sensor, year, base, render) ==> render.save(ChartPath(base, rec.riverMile, year, sensor)).None?))
    ensures r.Ok? ==> r.value == if Drawn(rec, sensor, year, base, render) then [ChartPath(base, rec.riverMile, year, sensor)] else []
    ensures r.Err? && YearProduct(rec, sensor, year).Ok? ==>
      Drawn(rec, sensor, year, base, render) && render.save(ChartPath(base, rec.riverMile, year, sensor)) == Some(r.error)
  {
    match YearProduct(rec, sensor, year)
    case Err(e) => Err(e)
    case Ok((processed, _)) =>
      var chart := ChartPath(base, rec.riverMile, year, sensor);
      if processed.rows != [] && render.figure(chart, processed) then
        match render.save(chart)
        case Some(e) => Err(e)
        case None => Ok([chart])
      else Ok([])
  }

  function YearChartsOf(rec: MileRecord, sensor: string, base: string, render: Render): Cell -> Result<seq<OutPath>>
  {
    (y: Cell) => YearCharts(rec, sensor, base, render, y)
  }

  /** `sorted` or `sort_values` meeting text next to numbers. */
  const Unorderable := Failure(TypeError, Plain("'<' not supported between instances of 'str' and 'float'"))

  /**
   * The year loop of one sensor: the distinct years in ascending order, by
   * value or, for a column of text, in string order; `sorted` raises on
   * text beside a number or NaN.
   */
  function SensorCharts(rec: MileRecord, base: string, render: Render, sensor: string): (r: Result<seq<OutPath>>)
    ensures YearCol !in rec.data.columns ==> r == Err(Failure(KeyError, Plain(YearCol)))
    ensures YearCol in rec.data.columns && !Orderable(Column(rec.data.rows, YearCol)) ==> r == Err(Unorderable)
    ensures YearCol in rec.data.columns && Orderable(Column(rec.data.rows, YearCol)) ==>
      r == Gather(LoopYears(rec.data.rows).value, YearChartsOf(rec, sensor, base, render))
  {
    if YearCol !in rec.data.columns then Err(Failure(KeyError, Plain(YearCol)))
    else
      match LoopYears(rec.data.rows)
      case None => Err(Unorderable)
      case Some(years) => Gather(years, YearChartsOf(rec, sensor, base, render))
  }

  function SensorChartsOf(rec: MileRecord, base: string, render: Render): string -> Result<seq<OutPath>>
  {
    (s: string) => SensorCharts(rec, base, render, s)
  }

  /** The sensor loop of one river mile: its `Sensor_` columns in column order. */
  function RecordCharts(base: string, render: Render, rec: MileRecord): Result<seq<OutPath>>
  {
    Gather(Processor.SensorColumns(rec.data.columns), SensorChartsOf(rec, base, render))
  }

  function RecordChartsOf(base: string, render: Render): MileRecord -> Result<seq<OutPath>>
  {
    (rec: MileRecord) => RecordCharts(base, render, rec)
  }

  /**
   * `process_river_mile_data` over the loaded records in the order the
   * dictionary yields them: the chart files written, or the exception that
   * ended the loop.
   */
  function RiverMileCharts(records: seq<MileRecord>, base: string, render: Render): Result<seq<OutPath>>
  {
    Gather(records, RecordChartsOf(base, render))
  }

  method ProcessRiverMileData(processor: SeatekDataProcessor, base: string, render: Render) returns (r: Result<seq<OutPath>>)
    requires processor.Valid()
    ensures r == RiverMileCharts(Values(processor.riverMileData, processor.mileOrder), base, render)
  {
    var records := Values(processor.riverMileData, processor.mileOrder);
    var g := RecordChartsOf(base, render);
    var written := [];
    var i := 0;
    while i < |records|
      invariant 0 <= i <= |records|
      invariant Gather(records[..i], g) == Ok(written)
    {
      var one := ProcessRecord(records[i], base, render);
      if one.Err? {
        GatherFirstError(records, g, i);
        return Err(one.error);
      }
      GatherStep(records, g, i, written);
      written := written + one.value;
      i := i + 1;
    }
    GatherDone(records, g, written);
    return Ok(written);
  }

  /** The sensor loop. */
  method ProcessRecord(rec: MileRecord, base: string, render: Render) returns (r: Result<seq<OutPath>>)
    ensures r == RecordCharts(base, render, rec)
  {
    var sensors := Processor.SensorColumns(rec.data.columns);
    var g := SensorChartsOf(rec, base, render);
    var written := [];
    var i := 0;
    while i < |sensors|
      invariant 0 <= i <= |sensors|
      invariant Gather(sensors[..i], g) == Ok(written)
    {
      var one := ProcessSensor(rec, base, render, sensors[i]);
      if one.Err? {
        GatherFirstError(sensors, g, i);
        return Err(one.error);
      }
      GatherStep(sensors, g, i, written);
      written := written + one.value;
      i := i + 1;
    }
    GatherDone(sensors, g, written);
    return Ok(written);
  }

  /** The year loop. */
  method ProcessSensor(rec: MileRecord, base: string, render: Render, sensor: string) returns (r: Result<seq<OutPath>>)
    ensures r == SensorCharts(rec, base, render, sensor)
  {
    if YearCol !in rec.data.columns {
      return Err(Failure(KeyError, Plain(YearCol)));
    }
    var loopYears := LoopYears(rec.data.rows);
    if loopYears.None? {
      return Err(Unorderable);
    }
    var years := loopYears.value;
    var g := YearChartsOf(rec, sensor, base, render);
    var written := [];
    var i := 0;
    while i < |years|
      invariant 0 <= i <= |years|
      invariant Gather(years[..i], g) == Ok(written)
    {
      var one := ProcessYear(rec, base, render, sensor, years[i]);
      if one.Err? {
        GatherFirstError(years, g, i);
        return Err(one.error);
      }
      GatherStep(years, g, i, written);
      written := written + one.value;
      i := i + 1;
    }
    GatherDone(years, g, written);
    return Ok(written);
  }

  /** One year of one sensor: its readings processed and, when there are any, drawn. */
  method ProcessYear(rec: MileRecord, base: string, render: Render, sensor: string, year: Cell)
    returns (r: Result<seq<OutPath>>)
    ensures r == YearCharts(rec, sensor, base, render, year)
  {
    var processed := ProcessSensorData(YearFrame(rec.data, year), sensor);
    if processed.Err? {
      return Err(processed.error);
    }
    var chart := ChartPath(base, rec.riverMile, year, sensor);
    if processed.value.0.rows != [] && render.figure(chart, processed.value.0) {
      var saved := render.save(chart);
      if saved.Some? {
        return Err(saved.value);
      }
      return Ok([chart]);
    }
    return Ok([]);
  }

  /** `p` is the chart of a job of `rec`: a sensor column, one of its years, drawn. */
  predicate ChartOf(rec: MileRecord, sensor: string, year: Cell, base: string, render: Render, p: OutPath)
  {
    sensor in Processor.SensorColumns(rec.data.columns) &&
    LoopYears(rec.data.rows).Some? && year in LoopYears(rec.data.rows).value &&
    Drawn(rec, sensor, year, base, render) && p == ChartPath(base, rec.riverMile, year, sensor)
  }

  /**
   * The files written are exactly the charts of the (record, sensor column,
   * year) jobs whose readings were not empty and whose chart was made.
   */
  lemma RiverMileChartsWritten(records: seq<MileRecord>, base: string, render: Render, out: seq<OutPath>, p: OutPath)
    requires RiverMileCharts(records, base, render) == Ok(out)
    ensures p in out <==> exists rec, sensor, year :: rec in records && ChartOf(rec, sensor, year, base, render, p)
  {
    GatherMembers(records, RecordChartsOf(base, render), out);
    if p in out {
      var rec :| rec in records && p in RecordChartsOf(base, render)(rec).value;
      var sensor, year := RecordChartsWritten(rec, base, render, p);
    }
    if exists rec, sensor, year :: rec in records && ChartOf(rec, sensor, year, base, render, p) {
      var rec, sensor, year :| rec in records && ChartOf(rec, sensor, year, base, render, p);
      RecordChartsComplete(rec, base, render, sensor, year, p);
    }
  }

  lemma RecordChartsWritten(rec: MileRecord, base: string, render: Render, p: OutPath) returns (sensor: string, year: Cell)
    requires RecordCharts(base, render, rec).Ok? && p in RecordCharts(base, render, rec).value
    ensures ChartOf(rec, sensor, year, base, render, p)
  {
    var sensors := Processor.SensorColumns(rec.data.columns);
    var g := SensorChartsOf(rec, base, render);
    GatherMembers(sensors, g, RecordCharts(base, render, rec).value);
    sensor :| sensor in sensors && p in g(sensor).value;
    year := SensorChartsWritten(rec, base, render, sensor, p);
  }

  lemma SensorChartsWritten(rec: MileRecord, base: string, render: Render, sensor: string, p: OutPath) returns (year: Cell)
    requires SensorCharts(rec, base, render, sensor).Ok? && p in SensorCharts(rec, base, render, sensor).value
    ensures LoopYears(rec.data.rows).Some? && year in LoopYears(rec.data.rows).value
    ensures Drawn(rec, sensor, year, base, render)
    ensures p == ChartPath(base, rec.riverMile, year, sensor)
  {
    assert YearCol in rec.data.columns && Orderable(Column(rec.data.rows, YearCol));
    var years := LoopYears(rec.data.rows).value;
    var g := YearChartsOf(rec, sensor, base, render);
    var all := Gather(years, g);
    assert SensorCharts(rec, base, render, sensor) == all;
    GatherMembers(years, g, all.value);
    year :| year in years && p in g(year).value;
    assert g(year) == YearCharts(rec, sensor, base, render, year);
    YearChartWritten(rec, sensor, base, render, year, p);
  }

  /** A file one year writes is that year's chart, and its figure was made. */
  lemma YearChartWritten(rec: MileRecord, sensor: string, base: string, render: Render, year: Cell, p: OutPath)
    requires YearCharts(rec, sensor, base, render, year).Ok? && p in YearCharts(rec, sensor, base, render, year).value
    ensures Drawn(rec, sensor, year, base, render) && p == ChartPath(base, rec.riverMile, year, sensor)
  {
  }

  lemma RecordChartsComplete(rec: MileRecord, base: string, render: Render, sensor: string, year: Cell, p: OutPath)
    requires RecordCharts(base, render, rec).Ok?
    requires ChartOf(rec, sensor, year, base, render, p)
    ensures p in RecordCharts(base, render, rec).value
  {
    var sensors := Processor.SensorColumns(rec.data.columns);
    var years := LoopYears(rec.data.rows).value;
    var g := YearChartsOf(rec, sensor, base, render);
    assert SensorChartsOf(rec, base, render)(sensor).Ok?;
    GatherMembers(years, g, SensorCharts(rec, base, render, sensor).value);
    assert p in g(year).value;
    GatherMembers(sensors, SensorChartsOf(rec, base, render), RecordCharts(base, render, rec).value);
  }
}
