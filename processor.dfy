/**
 * The Seatek processor: one `RiverMileData` per `RM_*.xlsx` workbook, and a
 * `SeatekDataProcessor` that converts a sensor column to NAVD88 elevation,
 * filters the sensor and hydrograph streams independently and joins them
 * on the time column with a full outer join.
 */
module Processor {
  import opened Errors
  import opened Strings
  import opened Frames
  import Paths

  const RiverMileCol := "River_Mile"
  const YOffsetCol := "Y_Offset"
  const SensorPrefix := "Sensor_"

  /** The counters `process_data` reports. */
  datatype Metrics = Metrics(originalRows: int, invalidRows: int, zeroValues: int, nullValues: int, validRows: int)

  function Started(n: int): (m: Metrics)
    ensures m.originalRows == n
    ensures m.invalidRows == 0 && m.zeroValues == 0 && m.nullValues == 0 && m.validRows == 0
  {
    Metrics(n, 0, 0, 0, 0)
  }

  /** What `process_data` returns: the merged table and its metrics. */
  datatype Outcome = Outcome(frame: Frame, metrics: Metrics)

  /** A sensor name the join can keep apart from the time and hydrograph columns. */
  predicate SeparateSensor(sensor: string)
  {
    sensor != TimeSeconds && sensor != HydroCol && sensor != TimeMinutes
  }

  // ----- RiverMileData -------------------------------------------------------

  /** The required columns a workbook lacks. */
  function MissingOf(required: set<string>, columns: seq<string>): (m: set<string>)
    ensures forall c :: c in m <==> c in required && c !in columns
  {
    set c | c in required && c !in columns
  }

  /** `_validate_data`: the time and year columns must both be present. */
  function ValidateColumns(columns: seq<string>): (e: Option<Failure>)
    ensures e.None? <==> TimeSeconds in columns && YearCol in columns
    ensures e.Some? ==> e.value.kind == ValueError && e.value.msg.WithSet?
    ensures e.Some? ==> e.value.msg.prefix == "Missing required columns: "
    ensures e.Some? ==> forall c :: c in e.value.msg.items <==> c in {TimeSeconds, YearCol} && c !in columns
  {
    var missing := MissingOf({TimeSeconds, YearCol}, columns);
    if missing == {} then
      assert TimeSeconds !in missing && YearCol !in missing;
      None
    else Some(Failure(ValueError, WithSet("Missing required columns: ", missing)))
  }

  predicate IsSensorColumn(c: string)
  {
    StartsWith(c, SensorPrefix)
  }

  /** `_setup_sensors`: the `Sensor_` columns, in column order. */
  function SensorColumns(columns: seq<string>): (r: seq<string>)
    ensures forall c :: c in r <==> c in columns && IsSensorColumn(c)
    ensures SubsequenceOf(r, columns)
  {
    FilterSubsequence(columns, IsSensorColumn);
    Filter(columns, IsSensorColumn)
  }

  const NoSensorColumns := Failure(ValueError, Plain("No sensor columns found"))

  /** The outcome of `RiverMileData.load_data` once the workbook has been read. */
  function LoadCheck(columns: seq<string>): (e: Option<Failure>)
    ensures e.None? <==> TimeSeconds in columns && YearCol in columns && SensorColumns(columns) != []
    ensures e == Some(NoSensorColumns) <==> ValidateColumns(columns).None? && SensorColumns(columns) == []
  {
    var v := ValidateColumns(columns);
    if v.Some? then v
    else if SensorColumns(columns) == [] then Some(NoSensorColumns)
    else None
  }

  class RiverMileData {
    var fileName: string
    var riverMile: real
    var data: Option<Frame>
    var yOffset: real
    var sensors: seq<string>

    /** `__init__` once the river mile has been read from the name. */
    constructor (name: string, rm: real)
      ensures fileName == name && riverMile == rm
      ensures data == None && yOffset == 0.0 && sensors == []
    {
      fileName := name;
      riverMile := rm;
      data := None;
      yOffset := 0.0;
      sensors := [];
    }

    /**
     * `load_data`, given what `read_excel` produced. The table is stored
     * before it is validated, so a workbook that fails validation still
     * leaves its table behind.
     */
    method LoadData(table: Result<Frame>) returns (e: Option<Failure>)
      modifies this
      ensures fileName == old(fileName) && riverMile == old(riverMile) && yOffset == old(yOffset)
      ensures table.Err? ==> e == Some(table.error) && data == old(data) && sensors == old(sensors)
      ensures table.Ok? ==> data == Some(table.value) && e == LoadCheck(table.value.columns)
      ensures table.Ok? && ValidateColumns(table.value.columns).None? ==> sensors == SensorColumns(table.value.columns)
      ensures table.Ok? && ValidateColumns(table.value.columns).Some? ==> sensors == old(sensors)
    {
      if table.Err? {
        return Some(table.error);
      }
      data := Some(table.value);
      var v := ValidateColumns(table.value.columns);
      if v.Some? {
        return v;
      }
      sensors := SensorColumns(table.value.columns);
      if sensors == [] {
        return Some(NoSensorColumns);
      }
      return None;
    }
  }

  /** `RiverMileData(path)`: fails when the name carries no river mile. */
  method NewRiverMileData(name: string) returns (r: Result<RiverMileData>)
    ensures r.Ok? <==> Paths.ExtractRiverMile(name).Ok?
    ensures r.Err? ==> r.error == Paths.ExtractRiverMile(name).error
    ensures r.Ok? ==> fresh(r.value) && r.value.fileName == name && r.value.data == None
    ensures r.Ok? ==> r.value.riverMile == Paths.ExtractRiverMile(name).value && r.value.sensors == []
  {
    var rm := Paths.ExtractRiverMile(name);
    if rm.Err? {
      return Err(rm.error);
    }
    var d := new RiverMileData(name, rm.value);
    return Ok(d);
  }

  // ----- Offsets -------------------------------------------------------------

  /**
   * `set_index('River_Mile')['Y_Offset'].to_dict()`: each river mile to
   * its offset; when a river mile is listed twice, the later row wins.
   */
  function OffsetsOf(rows: seq<Row>): map<Cell, Cell>
  {
    if rows == [] then map[]
    else OffsetsOf(rows[..|rows| - 1])[Get(rows[|rows| - 1], RiverMileCol) := Get(rows[|rows| - 1], YOffsetCol)]
  }

  /** Every river mile of the summary, and nothing else, has an offset. */
  lemma {:induction false} OffsetsKeys(rows: seq<Row>, k: Cell)
    ensures k in OffsetsOf(rows) <==> exists i :: 0 <= i < |rows| && Get(rows[i], RiverMileCol) == k
  {
    if rows != [] {
      var n := |rows| - 1;
      OffsetsKeys(rows[..n], k);
      if k in OffsetsOf(rows[..n]) && k != Get(rows[n], RiverMileCol) {
        var i :| 0 <= i < n && Get(rows[..n][i], RiverMileCol) == k;
        assert Get(rows[i], RiverMileCol) == k;
      }
      if exists i :: 0 <= i < |rows| && Get(rows[i], RiverMileCol) == k {
        var i :| 0 <= i < |rows| && Get(rows[i], RiverMileCol) == k;
        if i < n {
          assert Get(rows[..n][i], RiverMileCol) == k;
        }
      }
    }
  }

  /** A river mile listed more than once takes the offset of its last row. */
  lemma {:induction false} OffsetsLastWins(rows: seq<Row>, i: int)
    requires 0 <= i < |rows| && LastWith(rows, i)
    ensures Get(rows[i], RiverMileCol) in OffsetsOf(rows)
    ensures OffsetsOf(rows)[Get(rows[i], RiverMileCol)] == Get(rows[i], YOffsetCol)
  {
    var n := |rows| - 1;
    if i < n {
      assert rows[..n][i] == rows[i];
      assert LastWith(rows[..n], i) by {
        forall j | i < j < n ensures Get(rows[..n][j], RiverMileCol) != Get(rows[..n][i], RiverMileCol) {
          assert rows[..n][j] == rows[j];
        }
      }
      OffsetsLastWins(rows[..n], i);
      assert Get(rows[n], RiverMileCol) != Get(rows[i], RiverMileCol);
    }
  }

  /** No later row repeats row `i`'s river mile. */
  predicate LastWith(rows: seq<Row>, i: int)
    requires 0 <= i < |rows|
  {
    forall j :: i < j < |rows| ==> Get(rows[j], RiverMileCol) != Get(rows[i], RiverMileCol)
  }

  /** `_setup_offsets` on the summary table. */
  function SetupOffsets(summary: Frame): (r: Result<map<Cell, Cell>>)
    ensures r.Ok? <==> RiverMileCol in summary.columns && YOffsetCol in summary.columns && YOffsetCol != RiverMileCol
    ensures r.Ok? ==> r.value == OffsetsOf(summary.rows)
    ensures r.Err? ==> r.error.kind == KeyError
  {
    if RiverMileCol !in summary.columns then Err(Failure(KeyError, Plain("None of ['River_Mile'] are in the columns")))
    else if YOffsetCol !in summary.columns then Err(Failure(KeyError, Plain(YOffsetCol)))
    else Ok(OffsetsOf(summary.rows))
  }

  /** `offsets.get(river_mile, 0)` */
  function OffsetFor(offsets: map<Cell, Cell>, rm: real): (c: Cell)
    ensures Num(rm) in offsets ==> c == offsets[Num(rm)]
    ensures Num(rm) !in offsets ==> c == Num(0.0)
  {
    if Num(rm) in offsets then offsets[Num(rm)] else Num(0.0)
  }

  // ----- NAVD88 conversion ---------------------------------------------------

  const Scale: real := 400.0 / 30.48

  /** `-(raw + 1.9 - 0.32) * (400 / 30.48) + offset` on finite numbers. */
  function Navd(raw: real, offset: real): real
  {
    -(raw + 1.9 - 0.32) * Scale + offset
  }

  /** The raw reading that converts to elevation `e`. */
  function RawOf(e: real, offset: real): real
  {
    (offset - e) / Scale - 1.9 + 0.32
  }

  lemma NavdRoundTrip(raw: real, offset: real)
    ensures RawOf(Navd(raw, offset), offset) == raw
    ensures Navd(RawOf(raw, offset), offset) == raw
  {
  }

  /** A larger reading is a lower elevation. */
  lemma NavdDecreasing(a: real, b: real, offset: real)
    requires a < b
    ensures Navd(b, offset) < Navd(a, offset)
  {
    assert Navd(a, offset) - Navd(b, offset) == (b - a) * Scale;
  }

  /** `-(x + 1.9 - 0.32) * (400 / 30.48)` under floating-point rules: an infinity changes sign. */
  function Shifted(x: Cell): (r: Cell)
    requires !x.Text?
    ensures r.Missing? <==> x.Missing?
    ensures !r.Text?
  {
    match x
    case Num(v) => Num(Navd(v, 0.0))
    case PosInf => NegInf
    case NegInf => PosInf
    case Missing => Missing
  }

  /** `x + y` under floating-point rules; `inf + -inf` is NaN. */
  function Plus(x: Cell, y: Cell): (r: Cell)
    requires !x.Text? && !y.Text?
    ensures !r.Text?
    ensures x.Num? && y.Num? ==> r == Num(x.v + y.v)
    ensures (x.Missing? || y.Missing?) ==> r.Missing?
  {
    match (x, y)
    case (Missing, _) => Missing
    case (_, Missing) => Missing
    case (Num(a), Num(b)) => Num(a + b)
    case (Num(_), _) => y
    case (_, Num(_)) => x
    case (PosInf, PosInf) => PosInf
    case (NegInf, NegInf) => NegInf
    case _ => Missing
  }

  /** One sensor cell after `to_numeric(..., errors='coerce')` and the conversion. */
  function ConvertCell(raw: Cell, offset: Cell): (r: Cell)
    requires !offset.Text?
    ensures !r.Text?
    ensures ToNumeric(raw).Num? && offset.Num? ==> r == Num(Navd(ToNumeric(raw).v, offset.v))
    ensures ToNumeric(raw).Missing? || offset.Missing? ==> r.Missing?
  {
    Plus(Shifted(ToNumeric(raw)), offset)
  }

  /** `t / 60.0` on one time cell. */
  function Minutes(t: Cell): (r: Cell)
    requires !t.Text?
    ensures t.Num? ==> r == Num(t.v / 60.0)
    ensures !t.Num? ==> r == t
  {
    Divided(t, 60.0)
  }

  /** One row after `convert_to_navd88`. */
  function ConvertRow(x: Row, sensor: string, offset: Cell): (y: Row)
    requires !Get(x, TimeSeconds).Text? && !offset.Text?
  {
    x[TimeMinutes := Minutes(Get(x, TimeSeconds))][sensor := ConvertCell(Get(x, sensor), offset)]
  }

  function ConvertRows(rows: seq<Row>, sensor: string, offset: Cell): (r: seq<Row>)
    requires NoText(rows, TimeSeconds) && !offset.Text?
    ensures |r| == |rows|
    ensures forall i :: 0 <= i < |rows| ==> r[i] == ConvertRow(rows[i], sensor, offset)
  {
    if rows == [] then []
    else [ConvertRow(rows[0], sensor, offset)] + ConvertRows(rows[1..], sensor, offset)
  }

  function AddColumn(columns: seq<string>, c: string): (r: seq<string>)
    ensures forall d :: d in r <==> d in columns || d == c
  {
    if c in columns then columns else columns + [c]
  }

  /**
   * `convert_to_navd88`: a missing time or sensor column is a `KeyError`;
   * text in the time column, or a text offset, is a `TypeError`.
   */
  function ConvertToNavd88(f: Frame, sensor: string, offset: Cell): (r: Result<Frame>)
    ensures r.Ok? <==> TimeSeconds in f.columns && NoText(f.rows, TimeSeconds) && sensor in f.columns && !offset.Text?
    ensures r.Ok? ==> |r.value.rows| == |f.rows| && NoText(r.value.rows, TimeSeconds)
    ensures r.Ok? ==> forall d :: d in r.value.columns <==> d in f.columns || d == TimeMinutes
    ensures r.Ok? ==> forall i :: 0 <= i < |f.rows| ==>
      Get(r.value.rows[i], sensor) == ConvertCell(Get(f.rows[i], sensor), offset) &&
      (sensor != TimeMinutes ==> Get(r.value.rows[i], TimeMinutes) == Minutes(Get(f.rows[i], TimeSeconds))) &&
      (forall d :: d != sensor && d != TimeMinutes ==> Get(r.value.rows[i], d) == Get(f.rows[i], d))
    ensures r.Err? && TimeSeconds !in f.columns ==> r.error.kind == KeyError
    ensures r.Err? && TimeSeconds in f.columns && !NoText(f.rows, TimeSeconds) ==> r.error.kind == TypeError
  {
    if TimeSeconds !in f.columns then Err(Failure(KeyError, Plain(TimeSeconds)))
    else if !NoText(f.rows, TimeSeconds) then Err(Failure(TypeError, Plain("unsupported operand type(s) for /: 'str' and 'float'")))
    else if sensor !in f.columns then Err(Failure(KeyError, Plain(sensor)))
    else if offset.Text? then Err(Failure(TypeError, Plain("unsupported operand type(s) for +: 'float' and 'str'")))
    else Ok(Frame(AddColumn(f.columns, TimeMinutes), ConvertRows(f.rows, sensor, offset)))
  }

  // ----- The two streams and their join --------------------------------------

  /** The rows whose cell in `col` is `notna() & (x != 0)`. */
  function Valid(rows: seq<Row>, col: string): (r: seq<Row>)
    ensures forall x :: x in r <==> x in rows && NonNullNonZero(Get(x, col))
    ensures |r| == Count(rows, (x: Row) => NonNullNonZero(Get(x, col)))
  {
    FilterCount(rows, (x: Row) => NonNullNonZero(Get(x, col)));
    Filter(rows, (x: Row) => NonNullNonZero(Get(x, col)))
  }

  /** `hydro_df.loc[:, 'Hydrograph (Lagged)'] = 0` */
  function ForceZero(rows: seq<Row>): (r: seq<Row>)
    ensures |r| == |rows|
    ensures forall i :: 0 <= i < |rows| ==> r[i] == rows[i][HydroCol := Num(0.0)]
  {
    if rows == [] then [] else [rows[0][HydroCol := Num(0.0)]] + ForceZero(rows[1..])
  }

  /** One row of a two-column selection `df[['Time (Seconds)', col]]`. */
  datatype Point = Point(time: Cell, value: Cell)

  function Points(rows: seq<Row>, col: string): (ps: seq<Point>)
    ensures |ps| == |rows|
    ensures forall i :: 0 <= i < |rows| ==> ps[i] == Point(Get(rows[i], TimeSeconds), Get(rows[i], col))
  {
    if rows == [] then [] else [Point(Get(rows[0], TimeSeconds), Get(rows[0], col))] + Points(rows[1..], col)
  }

  /** One row of the merged table. */
  function Joined(sensor: string, t: Cell, s: Cell, h: Cell): Row
  {
    map[sensor := s, HydroCol := h, TimeSeconds := t]
  }

  /** The points whose time is `t`; `merge` pairs missing times with each other too. */
  function Matching(t: Cell, ps: seq<Point>): (m: seq<Point>)
    ensures forall q :: q in m <==> q in ps && q.time == t
    ensures |m| == Count(ps, (q: Point) => q.time == t)
  {
    FilterCount(ps, (q: Point) => q.time == t);
    Filter(ps, (q: Point) => q.time == t)
  }

  /** A left point paired with each of its matches. */
  function Pairs(sensor: string, l: Point, m: seq<Point>): (r: seq<Row>)
    ensures |r| == |m|
    ensures forall i :: 0 <= i < |m| ==> r[i] == Joined(sensor, l.time, l.value, m[i].value)
  {
    if m == [] then [] else [Joined(sensor, l.time, l.value, m[0].value)] + Pairs(sensor, l, m[1..])
  }

  /** The rows an outer join produces for the left points, in left order. */
  function LeftRows(sensor: string, ls: seq<Point>, rs: seq<Point>): seq<Row>
  {
    if ls == [] then []
    else
      var m := Matching(ls[0].time, rs);
      (if m == [] then [Joined(sensor, ls[0].time, ls[0].value, Missing)] else Pairs(sensor, ls[0], m))
      + LeftRows(sensor, ls[1..], rs)
  }

  /** The rows for right points that match no left point. */
  function RightOnly(sensor: string, ls: seq<Point>, rs: seq<Point>): seq<Row>
  {
    if rs == [] then []
    else
      (if Matching(rs[0].time, ls) == [] then [Joined(sensor, rs[0].time, Missing, rs[0].value)] else [])
      + RightOnly(sensor, ls, rs[1..])
  }

  /** `pd.merge(left, right, on='Time (Seconds)', how='outer')`, before sorting. */
  function OuterJoin(sensor: string, ls: seq<Point>, rs: seq<Point>): seq<Row>
  {
    LeftRows(sensor, ls, rs) + RightOnly(sensor, ls, rs)
  }

  /** `merged['Time (Minutes)'] = merged['Time (Seconds)'] / 60.0` */
  function WithMinutes(rows: seq<Row>): (r: seq<Row>)
    requires NoText(rows, TimeSeconds)
    ensures |r| == |rows|
    ensures forall i :: 0 <= i < |rows| ==> r[i] == rows[i][TimeMinutes := Minutes(Get(rows[i], TimeSeconds))]
  {
    if rows == [] then []
    else [rows[0][TimeMinutes := Minutes(Get(rows[0], TimeSeconds))]] + WithMinutes(rows[1..])
  }

  /** The merged, time-sorted table built from the sensor and hydrograph streams. */
  function Merged(sensor: string, sensorRows: seq<Row>, hydroRows: seq<Row>): (r: seq<Row>)
    requires NoText(sensorRows, TimeSeconds) && NoText(hydroRows, TimeSeconds)
    ensures SortedBy(r, TimeMinutes)
  {
    var ls, rs := Points(sensorRows, sensor), Points(hydroRows, HydroCol);
    JoinNoText(sensor, sensorRows, hydroRows);
    SortBy(WithMinutes(OuterJoin(sensor, ls, rs)), TimeMinutes)
  }

  lemma {:induction false} LeftKey(sensor: string, ls: seq<Point>, rs: seq<Point>, x: Row)
    requires x in LeftRows(sensor, ls, rs)
    ensures exists k :: 0 <= k < |ls| && ls[k].time == Get(x, TimeSeconds)
  {
    var m := Matching(ls[0].time, rs);
    var head := if m == [] then [Joined(sensor, ls[0].time, ls[0].value, Missing)] else Pairs(sensor, ls[0], m);
    if x in head {
      assert Get(x, TimeSeconds) == ls[0].time;
    } else {
      LeftKey(sensor, ls[1..], rs, x);
      var k :| 0 <= k < |ls[1..]| && ls[1..][k].time == Get(x, TimeSeconds);
      assert ls[k + 1].time == Get(x, TimeSeconds);
    }
  }

  lemma {:induction false} RightKey(sensor: string, ls: seq<Point>, rs: seq<Point>, x: Row)
    requires x in RightOnly(sensor, ls, rs)
    ensures exists k :: 0 <= k < |rs| && rs[k].time == Get(x, TimeSeconds)
  {
    var head := if Matching(rs[0].time, ls) == [] then [Joined(sensor, rs[0].time, Missing, rs[0].value)] else [];
    if x in head {
      assert Get(x, TimeSeconds) == rs[0].time;
    } else {
      RightKey(sensor, ls, rs[1..], x);
      var k :| 0 <= k < |rs[1..]| && rs[1..][k].time == Get(x, TimeSeconds);
      assert rs[k + 1].time == Get(x, TimeSeconds);
    }
  }

  /** The join introduces no time that neither stream has. */
  lemma {:induction false} JoinKey(sensor: string, sensorRows: seq<Row>, hydroRows: seq<Row>, x: Row)
    requires x in OuterJoin(sensor, Points(sensorRows, sensor), Points(hydroRows, HydroCol))
    ensures (exists i :: 0 <= i < |sensorRows| && Get(sensorRows[i], TimeSeconds) == Get(x, TimeSeconds)) ||
            (exists i :: 0 <= i < |hydroRows| && Get(hydroRows[i], TimeSeconds) == Get(x, TimeSeconds))
  {
    var ls, rs := Points(sensorRows, sensor), Points(hydroRows, HydroCol);
    if x in LeftRows(sensor, ls, rs) {
      LeftKey(sensor, ls, rs, x);
      var k :| 0 <= k < |ls| && ls[k].time == Get(x, TimeSeconds);
      assert Get(sensorRows[k], TimeSeconds) == Get(x, TimeSeconds);
    } else {
      assert x in RightOnly(sensor, ls, rs);
      RightKey(sensor, ls, rs, x);
      var k :| 0 <= k < |rs| && rs[k].time == Get(x, TimeSeconds);
      assert Get(hydroRows[k], TimeSeconds) == Get(x, TimeSeconds);
    }
  }

  lemma {:induction false} JoinNoText(sensor: string, sensorRows: seq<Row>, hydroRows: seq<Row>)
    requires NoText(sensorRows, TimeSeconds) && NoText(hydroRows, TimeSeconds)
    ensures NoText(OuterJoin(sensor, Points(sensorRows, sensor), Points(hydroRows, HydroCol)), TimeSeconds)
  {
    forall x | x in OuterJoin(sensor, Points(sensorRows, sensor), Points(hydroRows, HydroCol))
      ensures !Get(x, TimeSeconds).Text?
    {
      JoinKey(sensor, sensorRows, hydroRows, x);
      if exists i :: 0 <= i < |sensorRows| && Get(sensorRows[i], TimeSeconds) == Get(x, TimeSeconds) {
        var i :| 0 <= i < |sensorRows| && Get(sensorRows[i], TimeSeconds) == Get(x, TimeSeconds);
        assert sensorRows[i] in sensorRows;
      } else {
        var i :| 0 <= i < |hydroRows| && Get(hydroRows[i], TimeSeconds) == Get(x, TimeSeconds);
        assert hydroRows[i] in hydroRows;
      }
    }
  }

  lemma {:induction false} LeftValues(sensor: string, ls: seq<Point>, rs: seq<Point>, x: Row)
    requires SeparateSensor(sensor)
    requires x in LeftRows(sensor, ls, rs)
    ensures exists k :: 0 <= k < |ls| && ls[k].time == Get(x, TimeSeconds) && ls[k].value == Get(x, sensor)
    ensures (exists j :: 0 <= j < |rs| && rs[j].time == Get(x, TimeSeconds) && rs[j].value == Get(x, HydroCol)) ||
            (Get(x, HydroCol) == Missing && Matching(Get(x, TimeSeconds), rs) == [])
  {
    var l := ls[0];
    var m := Matching(l.time, rs);
    var head := if m == [] then [Joined(sensor, l.time, l.value, Missing)] else Pairs(sensor, l, m);
    if x in head {
      LeftHeadValues(sensor, l, rs, x);
      assert ls[0].time == Get(x, TimeSeconds) && ls[0].value == Get(x, sensor);
    } else {
      LeftValues(sensor, ls[1..], rs, x);
      var k :| 0 <= k < |ls[1..]| && ls[1..][k].time == Get(x, TimeSeconds) && ls[1..][k].value == Get(x, sensor);
      assert ls[k + 1] == ls[1..][k];
    }
  }

  /** The rows the join makes for one sensor point carry its time and value. */
  lemma LeftHeadValues(sensor: string, l: Point, rs: seq<Point>, x: Row)
    requires SeparateSensor(sensor)
    requires (x in if Matching(l.time, rs) == [] then [Joined(sensor, l.time, l.value, Missing)]
      else Pairs(sensor, l, Matching(l.time, rs)))
    ensures l.time == Get(x, TimeSeconds) && l.value == Get(x, sensor)
    ensures (exists j :: 0 <= j < |rs| && rs[j].time == Get(x, TimeSeconds) && rs[j].value == Get(x, HydroCol)) ||
            (Get(x, HydroCol) == Missing && Matching(Get(x, TimeSeconds), rs) == [])
  {
    var m := Matching(l.time, rs);
    if m == [] {
      assert x == Joined(sensor, l.time, l.value, Missing);
      GetJoined(sensor, l.time, l.value, Missing);
    } else {
      var head := Pairs(sensor, l, m);
      var i :| 0 <= i < |m| && head[i] == x;
      assert m[i] in m;
      var j :| 0 <= j < |rs| && rs[j] == m[i];
      assert x == Joined(sensor, l.time, l.value, rs[j].value);
      GetJoined(sensor, l.time, l.value, rs[j].value);
    }
  }

  lemma {:induction false} RightValues(sensor: string, ls: seq<Point>, rs: seq<Point>, x: Row)
    requires SeparateSensor(sensor)
    requires x in RightOnly(sensor, ls, rs)
    ensures Get(x, sensor) == Missing && Matching(Get(x, TimeSeconds), ls) == []
    ensures exists j :: 0 <= j < |rs| && rs[j].time == Get(x, TimeSeconds) && rs[j].value == Get(x, HydroCol)
  {
    var head := if Matching(rs[0].time, ls) == [] then [Joined(sensor, rs[0].time, Missing, rs[0].value)] else [];
    if x in head {
      assert x == Joined(sensor, rs[0].time, Missing, rs[0].value);
      assert rs[0].time == Get(x, TimeSeconds) && rs[0].value == Get(x, HydroCol);
    } else {
      RightValues(sensor, ls, rs[1..], x);
      var j :| 0 <= j < |rs[1..]| && rs[1..][j].time == Get(x, TimeSeconds) && rs[1..][j].value == Get(x, HydroCol);
      assert rs[j + 1] == rs[1..][j];
    }
  }

  /** Each left point reaches the join, paired with each of its matches or with a missing value. */
  lemma {:induction false} LeftComplete(sensor: string, ls: seq<Point>, rs: seq<Point>, k: int, q: Option<Point>)
    requires 0 <= k < |ls|
    requires q.None? ==> Matching(ls[k].time, rs) == []
    requires q.Some? ==> q.value in Matching(ls[k].time, rs)
    ensures Joined(sensor, ls[k].time, ls[k].value, if q.Some? then q.value.value else Missing) in LeftRows(sensor, ls, rs)
  {
    if k == 0 {
      LeftCompleteFirst(sensor, ls, rs, q);
    } else {
      assert ls[1..][k - 1] == ls[k];
      LeftComplete(sensor, ls[1..], rs, k - 1, q);
      var head := LeftHead(sensor, ls, rs);
      var rest := LeftRows(sensor, ls[1..], rs);
      InAppendRight(head, rest, Joined(sensor, ls[k].time, ls[k].value, if q.Some? then q.value.value else Missing));
    }
  }

  /** The first left point's rows are at the front of the join. */
  lemma LeftCompleteFirst(sensor: string, ls: seq<Point>, rs: seq<Point>, q: Option<Point>)
    requires 0 < |ls|
    requires q.None? ==> Matching(ls[0].time, rs) == []
    requires q.Some? ==> q.value in Matching(ls[0].time, rs)
    ensures Joined(sensor, ls[0].time, ls[0].value, if q.Some? then q.value.value else Missing) in LeftRows(sensor, ls, rs)
  {
    var head := LeftHead(sensor, ls, rs);
    var rest := LeftRows(sensor, ls[1..], rs);
    var i := 0;
    if q.Some? {
      var m := Matching(ls[0].time, rs);
      i :| 0 <= i < |m| && m[i] == q.value;
    }
    assert head[i] == Joined(sensor, ls[0].time, ls[0].value, if q.Some? then q.value.value else Missing);
    InAppendLeft(head, rest, i);
  }

  /** The rows of the first left point, in front of the rest. */
  lemma LeftHead(sensor: string, ls: seq<Point>, rs: seq<Point>) returns (head: seq<Row>)
    requires ls != []
    ensures head == if Matching(ls[0].time, rs) == [] then [Joined(sensor, ls[0].time, ls[0].value, Missing)]
      else Pairs(sensor, ls[0], Matching(ls[0].time, rs))
    ensures LeftRows(sensor, ls, rs) == head + LeftRows(sensor, ls[1..], rs)
  {
    var m := Matching(ls[0].time, rs);
    head := if m == [] then [Joined(sensor, ls[0].time, ls[0].value, Missing)] else Pairs(sensor, ls[0], m);
  }

  lemma {:induction false} RightComplete(sensor: string, ls: seq<Point>, rs: seq<Point>, j: int)
    requires 0 <= j < |rs| && Matching(rs[j].time, ls) == []
    ensures Joined(sensor, rs[j].time, Missing, rs[j].value) in RightOnly(sensor, ls, rs)
  {
    if j > 0 {
      assert rs[1..][j - 1] == rs[j];
      RightComplete(sensor, ls, rs[1..], j - 1);
    }
  }

  /** No row of `rows` has time `t` exactly when no point of theirs matches `t`. */
  lemma NoMatch(t: Cell, rows: seq<Row>, col: string)
    ensures Matching(t, Points(rows, col)) == [] <==> forall i :: 0 <= i < |rows| ==> Get(rows[i], TimeSeconds) != t
  {
    var ps := Points(rows, col);
    if Matching(t, ps) != [] {
      var q := Matching(t, ps)[0];
      assert q in Matching(t, ps);
      var i :| 0 <= i < |ps| && ps[i] == q;
      assert Get(rows[i], TimeSeconds) == t;
    }
    if exists i :: 0 <= i < |rows| && Get(rows[i], TimeSeconds) == t {
      var i :| 0 <= i < |rows| && Get(rows[i], TimeSeconds) == t;
      assert ps[i] in Matching(t, ps);
    }
  }

  /** The rows of the merged table are the joined rows, each with its minutes. */
  lemma {:induction false} MergedRows(sensor: string, sensorRows: seq<Row>, hydroRows: seq<Row>, x: Row)
    requires NoText(sensorRows, TimeSeconds) && NoText(hydroRows, TimeSeconds)
    ensures NoText(OuterJoin(sensor, Points(sensorRows, sensor), Points(hydroRows, HydroCol)), TimeSeconds)
    ensures x in Merged(sensor, sensorRows, hydroRows) <==>
      exists y :: y in OuterJoin(sensor, Points(sensorRows, sensor), Points(hydroRows, HydroCol)) &&
        x == y[TimeMinutes := Minutes(Get(y, TimeSeconds))]
  {
    JoinNoText(sensor, sensorRows, hydroRows);
    var j := OuterJoin(sensor, Points(sensorRows, sensor), Points(hydroRows, HydroCol));
    var w := WithMinutes(j);
    assert multiset(Merged(sensor, sensorRows, hydroRows)) == multiset(w);
    assert x in Merged(sensor, sensorRows, hydroRows) <==> x in w by {
      assert x in multiset(Merged(sensor, sensorRows, hydroRows)) <==> x in multiset(w);
    }
    if x in w {
      var i :| 0 <= i < |w| && w[i] == x;
      assert j[i] in j;
    }
    if exists y :: y in j && x == y[TimeMinutes := Minutes(Get(y, TimeSeconds))] {
      var y :| y in j && x == y[TimeMinutes := Minutes(Get(y, TimeSeconds))];
      var i :| 0 <= i < |j| && j[i] == y;
      assert w[i] == x;
    }
  }

  lemma ConstantsDistinct()
    ensures TimeSeconds != TimeMinutes && TimeSeconds != HydroCol && HydroCol != TimeMinutes
  {
    assert TimeSeconds[6] == 'S' && TimeMinutes[6] == 'M';
    assert |HydroCol| != |TimeSeconds| && |HydroCol| != |TimeMinutes|;
  }

  lemma GetJoined(sensor: string, t: Cell, s: Cell, h: Cell)
    requires SeparateSensor(sensor)
    ensures Get(Joined(sensor, t, s, h), TimeSeconds) == t
    ensures Get(Joined(sensor, t, s, h), sensor) == s
    ensures Get(Joined(sensor, t, s, h), HydroCol) == h
  {
    ConstantsDistinct();
  }

  lemma GetWithMinutes(y: Row, c: string, m: Cell)
    requires c != TimeMinutes
    ensures Get(y[TimeMinutes := m], c) == Get(y, c)
  {
  }

  /** What `NothingFabricated` states, for the join before minutes are added. */
  lemma {:induction false} JoinProvenance(sensor: string, sensorRows: seq<Row>, hydroRows: seq<Row>, y: Row)
    requires SeparateSensor(sensor)
    requires y in OuterJoin(sensor, Points(sensorRows, sensor), Points(hydroRows, HydroCol))
    ensures (exists i :: 0 <= i < |sensorRows| && Get(sensorRows[i], TimeSeconds) == Get(y, TimeSeconds)) ||
            (exists i :: 0 <= i < |hydroRows| && Get(hydroRows[i], TimeSeconds) == Get(y, TimeSeconds))
    ensures (exists i :: 0 <= i < |sensorRows| && Get(sensorRows[i], TimeSeconds) == Get(y, TimeSeconds) &&
                         Get(sensorRows[i], sensor) == Get(y, sensor)) ||
            (Get(y, sensor) == Missing && forall i :: 0 <= i < |sensorRows| ==> Get(sensorRows[i], TimeSeconds) != Get(y, TimeSeconds))
    ensures (exists i :: 0 <= i < |hydroRows| && Get(hydroRows[i], TimeSeconds) == Get(y, TimeSeconds) &&
                         Get(hydroRows[i], HydroCol) == Get(y, HydroCol)) ||
            (Get(y, HydroCol) == Missing && forall i :: 0 <= i < |hydroRows| ==> Get(hydroRows[i], TimeSeconds) != Get(y, TimeSeconds))
  {
    var ls, rs := Points(sensorRows, sensor), Points(hydroRows, HydroCol);
    var t := Get(y, TimeSeconds);
    JoinKey(sensor, sensorRows, hydroRows, y);
    NoMatch(t, sensorRows, sensor);
    NoMatch(t, hydroRows, HydroCol);
    if y in LeftRows(sensor, ls, rs) {
      LeftValues(sensor, ls, rs, y);
      var k :| 0 <= k < |ls| && ls[k].time == t && ls[k].value == Get(y, sensor);
      assert Get(sensorRows[k], TimeSeconds) == t && Get(sensorRows[k], sensor) == Get(y, sensor);
      if exists j :: 0 <= j < |rs| && rs[j].time == t && rs[j].value == Get(y, HydroCol) {
        var j :| 0 <= j < |rs| && rs[j].time == t && rs[j].value == Get(y, HydroCol);
        assert Get(hydroRows[j], TimeSeconds) == t && Get(hydroRows[j], HydroCol) == Get(y, HydroCol);
      }
    } else {
      assert y in RightOnly(sensor, ls, rs);
      RightValues(sensor, ls, rs, y);
      var j :| 0 <= j < |rs| && rs[j].time == t && rs[j].value == Get(y, HydroCol);
      assert Get(hydroRows[j], TimeSeconds) == t && Get(hydroRows[j], HydroCol) == Get(y, HydroCol);
    }
  }

  /**
   * Every merged row has its minutes, carries the time of a row of one of
   * the two streams, and takes each value from a row of that stream with
   * the same time, or is missing it because that stream has no such time.
   */
  lemma {:induction false} NothingFabricated(sensor: string, sensorRows: seq<Row>, hydroRows: seq<Row>, x: Row)
    requires SeparateSensor(sensor)
    requires NoText(sensorRows, TimeSeconds) && NoText(hydroRows, TimeSeconds)
    requires x in Merged(sensor, sensorRows, hydroRows)
    ensures !Get(x, TimeSeconds).Text? && Get(x, TimeMinutes) == Minutes(Get(x, TimeSeconds))
    ensures (exists i :: 0 <= i < |sensorRows| && Get(sensorRows[i], TimeSeconds) == Get(x, TimeSeconds)) ||
            (exists i :: 0 <= i < |hydroRows| && Get(hydroRows[i], TimeSeconds) == Get(x, TimeSeconds))
    ensures (exists i :: 0 <= i < |sensorRows| && Get(sensorRows[i], TimeSeconds) == Get(x, TimeSeconds) &&
                         Get(sensorRows[i], sensor) == Get(x, sensor)) ||
            (Get(x, sensor) == Missing && forall i :: 0 <= i < |sensorRows| ==> Get(sensorRows[i], TimeSeconds) != Get(x, TimeSeconds))
    ensures (exists i :: 0 <= i < |hydroRows| && Get(hydroRows[i], TimeSeconds) == Get(x, TimeSeconds) &&
                         Get(hydroRows[i], HydroCol) == Get(x, HydroCol)) ||
            (Get(x, HydroCol) == Missing && forall i :: 0 <= i < |hydroRows| ==> Get(hydroRows[i], TimeSeconds) != Get(x, TimeSeconds))
  {
    MergedRows(sensor, sensorRows, hydroRows, x);
    var y :| y in OuterJoin(sensor, Points(sensorRows, sensor), Points(hydroRows, HydroCol)) &&
      x == y[TimeMinutes := Minutes(Get(y, TimeSeconds))];
    ConstantsDistinct();
    GetWithMinutes(y, TimeSeconds, Minutes(Get(y, TimeSeconds)));
    GetWithMinutes(y, sensor, Minutes(Get(y, TimeSeconds)));
    GetWithMinutes(y, HydroCol, Minutes(Get(y, TimeSeconds)));
    JoinProvenance(sensor, sensorRows, hydroRows, y);
  }

  /** Each joined row reaches the merged table, with its time and values. */
  lemma {:induction false} JoinedInMerged(sensor: string, sensorRows: seq<Row>, hydroRows: seq<Row>, y: Row)
    requires SeparateSensor(sensor)
    requires NoText(sensorRows, TimeSeconds) && NoText(hydroRows, TimeSeconds)
    requires y in OuterJoin(sensor, Points(sensorRows, sensor), Points(hydroRows, HydroCol))
    ensures exists x :: (x in Merged(sensor, sensorRows, hydroRows) && Get(x, TimeSeconds) == Get(y, TimeSeconds) &&
      Get(x, sensor) == Get(y, sensor) && Get(x, HydroCol) == Get(y, HydroCol))
  {
    JoinNoText(sensor, sensorRows, hydroRows);
    var m := Minutes(Get(y, TimeSeconds));
    var x := y[TimeMinutes := m];
    MergedRows(sensor, sensorRows, hydroRows, x);
    ConstantsDistinct();
    GetWithMinutes(y, TimeSeconds, m);
    GetWithMinutes(y, sensor, m);
    GetWithMinutes(y, HydroCol, m);
  }

  /** Every reading of the sensor stream survives the join, with its time. */
  lemma {:induction false} KeepsSensorReadings(sensor: string, sensorRows: seq<Row>, hydroRows: seq<Row>, i: int)
    requires SeparateSensor(sensor)
    requires NoText(sensorRows, TimeSeconds) && NoText(hydroRows, TimeSeconds)
    requires 0 <= i < |sensorRows|
    ensures exists x :: (x in Merged(sensor, sensorRows, hydroRows) &&
      Get(x, TimeSeconds) == Get(sensorRows[i], TimeSeconds) && Get(x, sensor) == Get(sensorRows[i], sensor))
  {
    var ls, rs := Points(sensorRows, sensor), Points(hydroRows, HydroCol);
    var m := Matching(ls[i].time, rs);
    var q := if m == [] then None else Some(m[0]);
    if q.Some? { assert m[0] in m; }
    LeftComplete(sensor, ls, rs, i, q);
    var y := Joined(sensor, ls[i].time, ls[i].value, if q.Some? then q.value.value else Missing);
    GetJoined(sensor, ls[i].time, ls[i].value, if q.Some? then q.value.value else Missing);
    JoinedInMerged(sensor, sensorRows, hydroRows, y);
  }

  /** Every reading of the hydrograph stream survives the join, with its time. */
  lemma {:induction false} KeepsHydroReadings(sensor: string, sensorRows: seq<Row>, hydroRows: seq<Row>, j: int)
    requires SeparateSensor(sensor)
    requires NoText(sensorRows, TimeSeconds) && NoText(hydroRows, TimeSeconds)
    requires 0 <= j < |hydroRows|
    ensures exists x :: (x in Merged(sensor, sensorRows, hydroRows) &&
      Get(x, TimeSeconds) == Get(hydroRows[j], TimeSeconds) && Get(x, HydroCol) == Get(hydroRows[j], HydroCol))
  {
    var ls, rs := Points(sensorRows, sensor), Points(hydroRows, HydroCol);
    var y: Row;
    if Matching(rs[j].time, ls) == [] {
      RightComplete(sensor, ls, rs, j);
      y := Joined(sensor, rs[j].time, Missing, rs[j].value);
      GetJoined(sensor, rs[j].time, Missing, rs[j].value);
    } else {
      var l := Matching(rs[j].time, ls)[0];
      assert l in Matching(rs[j].time, ls);
      var k :| 0 <= k < |ls| && ls[k] == l;
      assert rs[j] in Matching(ls[k].time, rs);
      LeftComplete(sensor, ls, rs, k, Some(rs[j]));
      y := Joined(sensor, ls[k].time, ls[k].value, rs[j].value);
      GetJoined(sensor, ls[k].time, ls[k].value, rs[j].value);
    }
    JoinedInMerged(sensor, sensorRows, hydroRows, y);
  }

  /** With no sensor readings and a zeroed hydrograph, every merged row is a zero with no reading. */
  lemma {:induction false} ZeroedWithoutReadings(sensor: string, hydroRows: seq<Row>, x: Row)
    requires SeparateSensor(sensor) && NoText(hydroRows, TimeSeconds)
    requires forall i :: 0 <= i < |hydroRows| ==> Get(hydroRows[i], HydroCol) == Num(0.0)
    requires x in Merged(sensor, [], hydroRows)
    ensures Get(x, HydroCol) == Num(0.0) && Get(x, sensor) == Missing
  {
    NothingFabricated(sensor, [], hydroRows, x);
  }

  // ----- Each time appears once ----------------------------------------------

  /** How many rows have time `t`. */
  function TimeCount(rows: seq<Row>, t: Cell): nat
  {
    Count(rows, (x: Row) => Get(x, TimeSeconds) == t)
  }

  function PointCount(ps: seq<Point>, t: Cell): nat
  {
    Count(ps, (p: Point) => p.time == t)
  }

  lemma {:induction false} PointsCount(rows: seq<Row>, col: string, t: Cell)
    ensures PointCount(Points(rows, col), t) == TimeCount(rows, t)
  {
    if rows != [] {
      PointsCount(rows[1..], col, t);
      assert Points(rows, col)[1..] == Points(rows[1..], col);
    }
  }

  lemma {:induction false} PairsCount(sensor: string, l: Point, m: seq<Point>, t: Cell)
    ensures TimeCount(Pairs(sensor, l, m), t) == if l.time == t then |m| else 0
  {
    if m != [] {
      PairsCount(sensor, l, m[1..], t);
      assert Pairs(sensor, l, m)[1..] == Pairs(sensor, l, m[1..]);
      assert Get(Pairs(sensor, l, m)[0], TimeSeconds) == l.time;
    }
  }

  lemma {:induction false} LeftCount(sensor: string, ls: seq<Point>, rs: seq<Point>, t: Cell)
    requires PointCount(rs, t) <= 1
    ensures TimeCount(LeftRows(sensor, ls, rs), t) == PointCount(ls, t)
  {
    if ls != [] {
      var l := ls[0];
      var m := Matching(l.time, rs);
      var head := if m == [] then [Joined(sensor, l.time, l.value, Missing)] else Pairs(sensor, l, m);
      CountConcat(head, LeftRows(sensor, ls[1..], rs), (x: Row) => Get(x, TimeSeconds) == t);
      LeftCount(sensor, ls[1..], rs, t);
      if m == [] {
        assert head[1..] == [];
        assert Get(head[0], TimeSeconds) == l.time;
      } else {
        PairsCount(sensor, l, m, t);
      }
    }
  }

  lemma {:induction false} RightCount(sensor: string, ls: seq<Point>, rs: seq<Point>, t: Cell)
    ensures TimeCount(RightOnly(sensor, ls, rs), t) == if PointCount(ls, t) == 0 then PointCount(rs, t) else 0
  {
    if rs != [] {
      var q := rs[0];
      var head := if Matching(q.time, ls) == [] then [Joined(sensor, q.time, Missing, q.value)] else [];
      CountConcat(head, RightOnly(sensor, ls, rs[1..]), (x: Row) => Get(x, TimeSeconds) == t);
      RightCount(sensor, ls, rs[1..], t);
      if head != [] {
        assert head[1..] == [];
        assert Get(head[0], TimeSeconds) == q.time;
      }
    }
  }

  lemma {:induction false} WithMinutesCount(rows: seq<Row>, t: Cell)
    requires NoText(rows, TimeSeconds)
    ensures TimeCount(WithMinutes(rows), t) == TimeCount(rows, t)
  {
    if rows != [] {
      WithMinutesCount(rows[1..], t);
      assert WithMinutes(rows)[1..] == WithMinutes(rows[1..]);
      ConstantsDistinct();
      GetWithMinutes(rows[0], TimeSeconds, Minutes(Get(rows[0], TimeSeconds)));
    }
  }

  /**
   * When neither stream repeats time `t`, the merged table has exactly one
   * row at `t` if either stream has one, and none otherwise.
   */
  lemma {:induction false} UniqueTimes(sensor: string, sensorRows: seq<Row>, hydroRows: seq<Row>, t: Cell)
    requires NoText(sensorRows, TimeSeconds) && NoText(hydroRows, TimeSeconds)
    requires TimeCount(sensorRows, t) <= 1 && TimeCount(hydroRows, t) <= 1
    ensures TimeCount(Merged(sensor, sensorRows, hydroRows), t) ==
      if TimeCount(sensorRows, t) + TimeCount(hydroRows, t) > 0 then 1 else 0
  {
    var ls, rs := Points(sensorRows, sensor), Points(hydroRows, HydroCol);
    PointsCount(sensorRows, sensor, t);
    PointsCount(hydroRows, HydroCol, t);
    JoinCount(sensor, ls, rs, t);
    var j := OuterJoin(sensor, ls, rs);
    JoinNoText(sensor, sensorRows, hydroRows);
    WithMinutesCount(j, t);
    CountPermutation(Merged(sensor, sensorRows, hydroRows), WithMinutes(j), (x: Row) => Get(x, TimeSeconds) == t);
  }

  /** The outer join has one row at `t` when either side has one point there, and none otherwise. */
  lemma JoinCount(sensor: string, ls: seq<Point>, rs: seq<Point>, t: Cell)
    requires PointCount(ls, t) <= 1 && PointCount(rs, t) <= 1
    ensures TimeCount(OuterJoin(sensor, ls, rs), t) == if PointCount(ls, t) + PointCount(rs, t) > 0 then 1 else 0
  {
    LeftCount(sensor, ls, rs, t);
    RightCount(sensor, ls, rs, t);
    CountConcat(LeftRows(sensor, ls, rs), RightOnly(sensor, ls, rs), (x: Row) => Get(x, TimeSeconds) == t);
  }

  // ----- process_data ----------------------------------------------------------

  /** `data[data['Year'] == year]` */
  function YearRows(f: Frame, year: int): (r: seq<Row>)
    ensures forall x :: x in r <==> x in f.rows && Get(x, YearCol) == Num(year as real)
  {
    RowsWhere(f.rows, YearCol, Num(year as real))
  }

  /** The sensor stream: the converted rows with a usable reading. */
  function SensorStream(conv: Frame, sensor: string): seq<Row>
  {
    Valid(conv.rows, sensor)
  }

  /** The hydrograph stream, zeroed when the sensor stream is empty. */
  function HydroStream(conv: Frame, sensor: string): (r: seq<Row>)
    ensures SensorStream(conv, sensor) != [] ==> r == Valid(conv.rows, HydroCol)
    ensures SensorStream(conv, sensor) == [] ==> |r| == |Valid(conv.rows, HydroCol)|
    ensures SensorStream(conv, sensor) == [] ==> forall i :: 0 <= i < |r| ==> Get(r[i], HydroCol) == Num(0.0)
  {
    var h := Valid(conv.rows, HydroCol);
    if SensorStream(conv, sensor) == [] && h != [] then ForceZero(h) else h
  }

  lemma HydroStreamIs(conv: Frame, sensor: string)
    ensures HydroStream(conv, sensor) ==
      if SensorStream(conv, sensor) == [] && Valid(conv.rows, HydroCol) != [] then ForceZero(Valid(conv.rows, HydroCol))
      else Valid(conv.rows, HydroCol)
  {
  }

  lemma StreamsNoText(conv: Frame, sensor: string)
    requires NoText(conv.rows, TimeSeconds)
    ensures NoText(SensorStream(conv, sensor), TimeSeconds) && NoText(HydroStream(conv, sensor), TimeSeconds)
  {
    var h := Valid(conv.rows, HydroCol);
    if SensorStream(conv, sensor) == [] && h != [] {
      ConstantsDistinct();
      forall x | x in ForceZero(h) ensures !Get(x, TimeSeconds).Text? {
        var i :| 0 <= i < |h| && ForceZero(h)[i] == x;
        assert h[i] in h;
      }
    }
  }

  /** `isna().sum()` */
  function NullCount(rows: seq<Row>, col: string): nat
  {
    Count(rows, (x: Row) => Get(x, col).Missing?)
  }

  /** `(x == 0).sum()` */
  function ZeroCount(rows: seq<Row>, col: string): nat
  {
    Count(rows, (x: Row) => Get(x, col) == Num(0.0))
  }

  /** Each row is missing its reading, reads zero, or enters the stream. */
  lemma {:induction false} ReadingsPartition(rows: seq<Row>, col: string)
    ensures NullCount(rows, col) + ZeroCount(rows, col) + |Valid(rows, col)| == |rows|
  {
    if rows != [] {
      ReadingsPartition(rows[1..], col);
    }
  }

  const MissingHydroSelection :=
    Failure(KeyError, Plain("None of [Index(['Time (Seconds)', 'Hydrograph (Lagged)'], dtype='object')] are in the [columns]"))

  function MergedColumns(sensor: string): seq<string>
  {
    [TimeSeconds, sensor, HydroCol, TimeMinutes]
  }

  /** `convert_to_navd88` on the rows of one year. */
  function Converted(f: Frame, year: int, sensor: string, offset: Cell): Result<Frame>
  {
    ConvertToNavd88(Frame(f.columns, YearRows(f, year)), sensor, offset)
  }

  /**
   * `process_data` on a loaded table: the rows of one year are converted,
   * split into the two streams, and joined back on their time.
   */
  function Processed(f: Frame, year: int, sensor: string, offset: Cell): (r: Result<Outcome>)
    ensures YearCol !in f.columns ==> r.Err? && r.error.kind == KeyError
    ensures YearCol in f.columns && YearRows(f, year) == [] ==> r == Ok(Outcome(Frame([], []), Started(0)))
    ensures r.Ok? && YearRows(f, year) != [] ==> HydroCol in f.columns && r.value.frame.columns == MergedColumns(sensor)
    ensures r.Ok? ==> r.value.metrics.originalRows == |YearRows(f, year)| && r.value.metrics.invalidRows == 0
    ensures r.Ok? ==> r.value.metrics.validRows == |r.value.frame.rows|
    ensures r.Ok? ==> r.value.metrics.nullValues + r.value.metrics.zeroValues <= r.value.metrics.originalRows
    ensures r.Ok? ==> SortedBy(r.value.frame.rows, TimeMinutes)
  {
    if YearCol !in f.columns then Err(Failure(KeyError, Plain(YearCol)))
    else
      var rows := YearRows(f, year);
      if rows == [] then Ok(Outcome(Frame([], []), Started(0)))
      else
        match Converted(f, year, sensor, offset)
        case Err(e) => Err(e)
        case Ok(conv) => MergeStreamsFacts(conv, sensor, |rows|); MergeStreams(conv, sensor, |rows|)
  }

  /**
   * The part of `process_data` after the conversion: the two streams, the
   * zero fallback, the join and the metrics, for a year of `n` rows.
   */
  function MergeStreams(conv: Frame, sensor: string, n: int): Result<Outcome>
    requires NoText(conv.rows, TimeSeconds)
  {
    if HydroCol !in conv.columns then Err(MissingHydroSelection)
    else Ok(MergedOutcome(conv, sensor, n))
  }

  /** The merged streams of one year and the metrics counted on the way. */
  function MergedOutcome(conv: Frame, sensor: string, n: int): Outcome
    requires NoText(conv.rows, TimeSeconds)
  {
    StreamsNoText(conv, sensor);
    var merged := Merged(sensor, SensorStream(conv, sensor), HydroStream(conv, sensor));
    Outcome(Frame(MergedColumns(sensor), merged),
      Metrics(n, n - |conv.rows|, ZeroCount(conv.rows, sensor), NullCount(conv.rows, sensor), |merged|))
  }

  /** What the merge of one year promises, the error case included. */
  lemma MergeStreamsFacts(conv: Frame, sensor: string, n: int)
    requires NoText(conv.rows, TimeSeconds)
    ensures MergeStreams(conv, sensor, n).Ok? <==> HydroCol in conv.columns
    ensures MergeStreams(conv, sensor, n).Err? ==> MergeStreams(conv, sensor, n).error == MissingHydroSelection
    ensures MergeStreams(conv, sensor, n).Ok? ==>
      var o := MergeStreams(conv, sensor, n).value;
      o.frame.columns == MergedColumns(sensor) && o.metrics.validRows == |o.frame.rows| &&
      o.metrics.originalRows == n && o.metrics.invalidRows == n - |conv.rows| &&
      o.metrics.nullValues + o.metrics.zeroValues + |SensorStream(conv, sensor)| == |conv.rows| &&
      SortedBy(o.frame.rows, TimeMinutes)
  {
    if HydroCol in conv.columns {
      ReadingsPartition(conv.rows, sensor);
    }
  }

  /** Every usable reading of the year reaches the result, at its own time. */
  lemma ProcessedKeepsReadings(f: Frame, year: int, sensor: string, offset: Cell, i: int)
    requires SeparateSensor(sensor)
    requires Processed(f, year, sensor, offset).Ok? && YearRows(f, year) != []
    requires Converted(f, year, sensor, offset).Ok?
    requires 0 <= i < |SensorStream(Converted(f, year, sensor, offset).value, sensor)|
    ensures exists x :: (x in Processed(f, year, sensor, offset).value.frame.rows &&
      Get(x, TimeSeconds) == Get(SensorStream(Converted(f, year, sensor, offset).value, sensor)[i], TimeSeconds) &&
      Get(x, sensor) == Get(SensorStream(Converted(f, year, sensor, offset).value, sensor)[i], sensor))
  {
    var conv := Converted(f, year, sensor, offset).value;
    StreamsNoText(conv, sensor);
    KeepsSensorReadings(sensor, SensorStream(conv, sensor), HydroStream(conv, sensor), i);
  }

  /** Every usable hydrograph value of the year reaches the result, at its own time. */
  lemma ProcessedKeepsHydrograph(f: Frame, year: int, sensor: string, offset: Cell, j: int)
    requires SeparateSensor(sensor)
    requires Processed(f, year, sensor, offset).Ok? && YearRows(f, year) != []
    requires Converted(f, year, sensor, offset).Ok?
    requires 0 <= j < |HydroStream(Converted(f, year, sensor, offset).value, sensor)|
    ensures exists x :: (x in Processed(f, year, sensor, offset).value.frame.rows &&
      Get(x, TimeSeconds) == Get(HydroStream(Converted(f, year, sensor, offset).value, sensor)[j], TimeSeconds) &&
      Get(x, HydroCol) == Get(HydroStream(Converted(f, year, sensor, offset).value, sensor)[j], HydroCol))
  {
    var conv := Converted(f, year, sensor, offset).value;
    StreamsNoText(conv, sensor);
    KeepsHydroReadings(sensor, SensorStream(conv, sensor), HydroStream(conv, sensor), j);
  }

  /**
   * A year without a usable reading yields only hydrograph rows, each
   * forced to zero and without a reading.
   */
  lemma ProcessedZeroFallback(f: Frame, year: int, sensor: string, offset: Cell, x: Row)
    requires SeparateSensor(sensor)
    requires Processed(f, year, sensor, offset).Ok? && YearRows(f, year) != []
    requires Converted(f, year, sensor, offset).Ok?
    requires SensorStream(Converted(f, year, sensor, offset).value, sensor) == []
    requires x in Processed(f, year, sensor, offset).value.frame.rows
    ensures Get(x, HydroCol) == Num(0.0) && Get(x, sensor) == Missing
  {
    var conv := Converted(f, year, sensor, offset).value;
    StreamsNoText(conv, sensor);
    ZeroedWithoutReadings(sensor, HydroStream(conv, sensor), x);
  }

  /** Null readings, zero readings and the sensor stream account for every row of the year. */
  lemma ProcessedMetrics(f: Frame, year: int, sensor: string, offset: Cell)
    requires Processed(f, year, sensor, offset).Ok? && YearRows(f, year) != []
    requires Converted(f, year, sensor, offset).Ok?
    ensures Processed(f, year, sensor, offset).value.metrics.nullValues +
            Processed(f, year, sensor, offset).value.metrics.zeroValues +
            |SensorStream(Converted(f, year, sensor, offset).value, sensor)| ==
            Processed(f, year, sensor, offset).value.metrics.originalRows
  {
    ReadingsPartition(Converted(f, year, sensor, offset).value.rows, sensor);
  }

  /** When neither stream repeats a time, the result has that time once, or not at all. */
  lemma ProcessedUniqueTimes(f: Frame, year: int, sensor: string, offset: Cell, t: Cell)
    requires Processed(f, year, sensor, offset).Ok? && YearRows(f, year) != []
    requires Converted(f, year, sensor, offset).Ok?
    requires TimeCount(SensorStream(Converted(f, year, sensor, offset).value, sensor), t) <= 1
    requires TimeCount(HydroStream(Converted(f, year, sensor, offset).value, sensor), t) <= 1
    ensures TimeCount(Processed(f, year, sensor, offset).value.frame.rows, t) ==
      if TimeCount(SensorStream(Converted(f, year, sensor, offset).value, sensor), t) +
         TimeCount(HydroStream(Converted(f, year, sensor, offset).value, sensor), t) > 0 then 1 else 0
  {
    var conv := Converted(f, year, sensor, offset).value;
    StreamsNoText(conv, sensor);
    UniqueTimes(sensor, SensorStream(conv, sensor), HydroStream(conv, sensor), t);
  }

  /** Without a hydrograph column, a year with rows cannot be merged. */
  lemma MissingHydrographRaises(f: Frame, year: int, sensor: string, offset: Cell)
    requires YearCol in f.columns && YearRows(f, year) != []
    requires Converted(f, year, sensor, offset).Ok? && HydroCol !in f.columns
    ensures Processed(f, year, sensor, offset) == Err(MissingHydroSelection)
  {
    ConstantsDistinct();
  }

  // ----- SeatekDataProcessor -------------------------------------------------

  /** The `RM_*.xlsx` names of a directory listing, sorted. */
  function RmFiles(listing: seq<string>): (r: seq<string>)
    ensures forall n :: n in r <==> n in listing && Paths.MatchesRmXlsx(n)
  {
    var m := Filter(listing, Paths.MatchesRmXlsx);
    var r := Paths.SortNames(m);
    assert forall n :: n in r <==> n in multiset(m);
    r
  }

  /** A file that yields a loaded `RiverMileData`. */
  predicate Loadable(name: string, read: string -> Result<Frame>)
  {
    Paths.ExtractRiverMile(name).Ok? && read(name).Ok? && LoadCheck(read(name).value.columns).None?
  }

  /** The river mile a file is loaded under, if it loads. */
  function FileKey(read: string -> Result<Frame>): string -> Option<real>
  {
    n => if Loadable(n, read) then Some(Paths.ExtractRiverMile(n).value) else None
  }

  /** For each key, the last of `files` that carries it. */
  function LastByKey(files: seq<string>, key: string -> Option<real>): map<real, string>
  {
    if files == [] then map[]
    else
      var n := files[|files| - 1];
      var init := LastByKey(files[..|files| - 1], key);
      if key(n).Some? then init[key(n).value := n] else init
  }

  /** For each river mile, the last of `files` that loads and carries it. */
  function Loaded(files: seq<string>, read: string -> Result<Frame>): map<real, string>
  {
    LastByKey(files, FileKey(read))
  }

  /** Each key that some file carries maps to the last such file, and no other key appears. */
  lemma {:induction false} LastByKeyEntries(files: seq<string>, key: string -> Option<real>, k: real)
    ensures k in LastByKey(files, key) <==> exists n :: n in files && key(n) == Some(k)
    ensures k in LastByKey(files, key) ==>
      var n := LastByKey(files, key)[k];
      n in files && key(n) == Some(k)
  {
    if files != [] {
      var n := files[|files| - 1];
      var init := files[..|files| - 1];
      assert files == init + [n];
      LastByKeyEntries(init, key, k);
      if exists m :: m in files && key(m) == Some(k) {
        var m :| m in files && key(m) == Some(k);
        if m != n { assert m in init; }
      }
    }
  }

  /** One step of the loading loop. */
  lemma LastByKeyStep(files: seq<string>, key: string -> Option<real>, i: int)
    requires 0 <= i < |files|
    ensures LastByKey(files[..i + 1], key) ==
      if key(files[i]).Some? then LastByKey(files[..i], key)[key(files[i]).value := files[i]] else LastByKey(files[..i], key)
  {
    assert files[..i + 1][..i] == files[..i];
  }

  const NoRiverMileFiles := Failure(FileNotFoundError, Plain("No valid river mile files found"))

  class SeatekDataProcessor {
    var dataDir: string
    var summary: Frame
    var riverMileData: map<real, RiverMileData>
    var offsets: map<Cell, Cell>

    constructor (dir: string, summaryData: Frame, offs: map<Cell, Cell>)
      ensures dataDir == dir && summary == summaryData && riverMileData == map[] && offsets == offs
    {
      dataDir := dir;
      summary := summaryData;
      riverMileData := map[];
      offsets := offs;
    }

    /** `process_data` */
    method ProcessData(rm: real, year: int, sensor: string) returns (r: Result<Outcome>)
      ensures rm !in riverMileData ==> r == Err(Failure(ValueError, WithValue("No data loaded for River Mile ", rm)))
      ensures rm in riverMileData && riverMileData[rm].data.Some? ==>
        r == Processed(riverMileData[rm].data.value, year, sensor, OffsetFor(offsets, rm))
      ensures rm in riverMileData && riverMileData[rm].data.None? ==> r.Err? && r.error.kind == TypeError
    {
      if rm !in riverMileData {
        return Err(Failure(ValueError, WithValue("No data loaded for River Mile ", rm)));
      }
      var d := riverMileData[rm];
      if d.data.None? {
        return Err(Failure(TypeError, Plain("'NoneType' object is not subscriptable")));
      }
      r := ProcessYear(d.data.value, year, sensor, OffsetFor(offsets, rm));
    }

    /**
     * `load_data`, given whether the directory exists, its listing and what
     * `read_excel` gives for each name. A file that fails to load is
     * skipped; a later file with the same river mile replaces an earlier one.
     */
    method LoadData(dirExists: bool, listing: seq<string>, read: string -> Result<Frame>) returns (e: Option<Failure>)
      modifies this
      ensures dataDir == old(dataDir) && summary == old(summary) && offsets == old(offsets)
      ensures !dirExists ==> e == Some(Failure(FileNotFoundError, Plain("Data directory not found: " + dataDir)))
      ensures dirExists && RmFiles(listing) == [] ==> e == Some(NoRiverMileFiles)
      ensures e.Some? ==> riverMileData == old(riverMileData)
      ensures dirExists && RmFiles(listing) != [] ==> e.None?
      ensures e.None? ==> forall k :: k in riverMileData <==> k in old(riverMileData) || k in Loaded(RmFiles(listing), read)
      ensures e.None? ==> forall k :: k in old(riverMileData) && k !in Loaded(RmFiles(listing), read) ==>
        riverMileData[k] == old(riverMileData[k])
      ensures e.None? ==> forall k :: k in Loaded(RmFiles(listing), read) ==>
        Stored(riverMileData[k], Loaded(RmFiles(listing), read)[k], k, read)
    {
      if !dirExists {
        return Some(Failure(FileNotFoundError, Plain("Data directory not found: " + dataDir)));
      }
      var files := RmFiles(listing);
      if files == [] {
        return Some(NoRiverMileFiles);
      }
      var table := LoadAll(files, read, riverMileData);
      riverMileData := table;
      return None;
    }
  }

  /** The body of `process_data` once the table and the offset are known, step by step. */
  method ProcessYear(f: Frame, year: int, sensor: string, offset: Cell) returns (r: Result<Outcome>)
    ensures r == Processed(f, year, sensor, offset)
  {
    if YearCol !in f.columns {
      return Err(Failure(KeyError, Plain(YearCol)));
    }
    var rows := YearRows(f, year);
    var metrics := Started(|rows|);
    if rows == [] {
      return Ok(Outcome(Frame([], []), metrics));
    }
    var converted := Converted(f, year, sensor, offset);
    if converted.Err? {
      return Err(converted.error);
    }
    r := MergeYear(converted.value, sensor, metrics);
  }

  /** `process_data` from the converted rows on: the metrics are filled in one by one. */
  method MergeYear(conv: Frame, sensor: string, started: Metrics) returns (r: Result<Outcome>)
    requires NoText(conv.rows, TimeSeconds)
    requires started == Started(started.originalRows)
    ensures r == MergeStreams(conv, sensor, started.originalRows)
  {
    var metrics := CountReadings(conv, sensor, started);
    if HydroCol !in conv.columns {
      MergeStreamsMissing(conv, sensor, started.originalRows);
      return Err(MissingHydroSelection);
    }
    r := MergeFound(conv, sensor, metrics, started.originalRows);
  }

  /** `process_data` once the hydrograph column is known to be there. */
  method MergeFound(conv: Frame, sensor: string, counted: Metrics, ghost n: int) returns (r: Result<Outcome>)
    requires NoText(conv.rows, TimeSeconds) && HydroCol in conv.columns
    requires counted == Metrics(n, 0, ZeroCount(conv.rows, sensor), NullCount(conv.rows, sensor), 0)
    ensures r == MergeStreams(conv, sensor, n)
  {
    var metrics := counted;
    var sensorRows := SensorStream(conv, sensor);
    var hydroRows := SelectHydro(conv, sensor, sensorRows);
    MergeStreamsIs(conv, sensor, n);
    var merged := Merged(sensor, sensorRows, hydroRows);
    metrics := metrics.(validRows := |merged|);
    metrics := metrics.(invalidRows := metrics.originalRows - |conv.rows|);
    assert metrics == Metrics(n, n - |conv.rows|, ZeroCount(conv.rows, sensor), NullCount(conv.rows, sensor), |merged|);
    return Ok(Outcome(Frame(MergedColumns(sensor), merged), metrics));
  }

  /** The null and zero counts of the sensor column enter the metrics. */
  method CountReadings(conv: Frame, sensor: string, started: Metrics) returns (metrics: Metrics)
    ensures metrics == started.(nullValues := NullCount(conv.rows, sensor), zeroValues := ZeroCount(conv.rows, sensor))
  {
    metrics := started;
    metrics := metrics.(nullValues := NullCount(conv.rows, sensor));
    metrics := metrics.(zeroValues := ZeroCount(conv.rows, sensor));
  }

  /** The hydrograph rows with data, zeroed when the sensor has no readings. */
  method SelectHydro(conv: Frame, sensor: string, sensorRows: seq<Row>) returns (hydroRows: seq<Row>)
    requires sensorRows == SensorStream(conv, sensor)
    ensures hydroRows == HydroStream(conv, sensor)
  {
    var valid := Valid(conv.rows, HydroCol);
    hydroRows := valid;
    if sensorRows == [] && valid != [] {
      hydroRows := ForceZero(valid);
    }
    HydroStreamIs(conv, sensor);
  }

  lemma MergeStreamsMissing(conv: Frame, sensor: string, n: int)
    requires NoText(conv.rows, TimeSeconds) && HydroCol !in conv.columns
    ensures MergeStreams(conv, sensor, n) == Err(MissingHydroSelection)
  {
  }

  lemma MergeStreamsIs(conv: Frame, sensor: string, n: int)
    requires NoText(conv.rows, TimeSeconds) && HydroCol in conv.columns
    ensures NoText(SensorStream(conv, sensor), TimeSeconds) && NoText(HydroStream(conv, sensor), TimeSeconds)
    ensures MergeStreams(conv, sensor, n) == Ok(MergedOutcome(conv, sensor, n))
    ensures (MergedOutcome(conv, sensor, n) ==
      var merged := Merged(sensor, SensorStream(conv, sensor), HydroStream(conv, sensor));
      Outcome(Frame(MergedColumns(sensor), merged),
        Metrics(n, n - |conv.rows|, ZeroCount(conv.rows, sensor), NullCount(conv.rows, sensor), |merged|)))
  {
    StreamsNoText(conv, sensor);
  }

  /** `d` holds the table read from `name`, under river mile `rm`. */
  ghost predicate Stored(d: RiverMileData, name: string, rm: real, read: string -> Result<Frame>)
    reads d
  {
    d.fileName == name && d.riverMile == rm && d.data.Some? && read(name) == Ok(d.data.value) &&
    d.sensors == SensorColumns(d.data.value.columns)
  }

  /**
   * `table` holds what `start` held, refiled under the keys of `entries`
   * with each of those entries loaded from its file.
   */
  ghost predicate Filed(table: map<real, RiverMileData>, start: map<real, RiverMileData>,
                        entries: map<real, string>, read: string -> Result<Frame>)
    reads table.Values
  {
    (forall k :: k in table <==> k in start || k in entries) &&
    (forall k :: k in start && k !in entries ==> table[k] == start[k]) &&
    (forall k :: k in entries ==> k in table && Stored(table[k], entries[k], k, read))
  }

  /**
   * The loop of `load_data`: each file that loads is filed under its river
   * mile, over whatever `table` held before.
   */
  method LoadAll(files: seq<string>, read: string -> Result<Frame>, start: map<real, RiverMileData>)
    returns (table: map<real, RiverMileData>)
    ensures forall k :: k in table <==> k in start || k in Loaded(files, read)
    ensures forall k :: k in start && k !in Loaded(files, read) ==> table[k] == start[k]
    ensures forall k :: k in Loaded(files, read) ==> Stored(table[k], Loaded(files, read)[k], k, read)
  {
    var key := FileKey(read);
    ghost var entries: map<real, string> := map[];
    table := start;
    var i := 0;
    while i < |files|
      invariant 0 <= i <= |files|
      invariant entries == LastByKey(files[..i], key)
      invariant Filed(table, start, entries, read)
    {
      LastByKeyStep(files, key, i);
      table := FileOne(table, start, entries, files[i], read);
      if key(files[i]).Some? {
        entries := entries[key(files[i]).value := files[i]];
      }
      i := i + 1;
    }
    assert files[..i] == files;
  }

  /** One pass of the loading loop, on the table built so far. */
  method FileOne(table: map<real, RiverMileData>, ghost start: map<real, RiverMileData>,
                 ghost entries: map<real, string>, name: string, read: string -> Result<Frame>)
    returns (next: map<real, RiverMileData>)
    requires Filed(table, start, entries, read)
    ensures FileKey(read)(name).None? ==> next == table
    ensures Filed(next, start, if FileKey(read)(name).Some? then entries[FileKey(read)(name).value := name] else entries, read)
  {
    var loaded := LoadOne(name, read);
    if loaded.Some? {
      var d := loaded.value;
      FiledAdd(table, start, entries, name, read, d);
      next := table[d.riverMile := d];
    } else {
      next := table;
    }
  }

  /** Filing a loaded file under its river mile keeps `Filed`, with the entry for that mile replaced. */
  lemma FiledAdd(table: map<real, RiverMileData>, start: map<real, RiverMileData>, entries: map<real, string>,
                 name: string, read: string -> Result<Frame>, d: RiverMileData)
    requires Filed(table, start, entries, read) && Stored(d, name, d.riverMile, read)
    ensures Filed(table[d.riverMile := d], start, entries[d.riverMile := name], read)
  {
  }

  /** One pass of the loading loop: a loaded `RiverMileData`, or nothing if the file fails. */
  method LoadOne(name: string, read: string -> Result<Frame>) returns (d: Option<RiverMileData>)
    ensures d.Some? <==> FileKey(read)(name).Some?
    ensures d.Some? ==> fresh(d.value) && d.value.riverMile == FileKey(read)(name).value && d.value.fileName == name
    ensures d.Some? ==> d.value.data.Some? && read(name) == Ok(d.value.data.value)
    ensures d.Some? ==> d.value.sensors == SensorColumns(d.value.data.value.columns)
  {
    var made := NewRiverMileData(name);
    if made.Err? {
      return None;
    }
    var failure := made.value.LoadData(read(name));
    if failure.Some? {
      return None;
    }
    return Some(made.value);
  }

  /** `SeatekDataProcessor(data_dir, summary_data)`: the summary must have both offset columns. */
  method NewProcessor(dir: string, summaryData: Frame) returns (r: Result<SeatekDataProcessor>)
    ensures r.Ok? <==> SetupOffsets(summaryData).Ok?
    ensures r.Err? ==> r.error == SetupOffsets(summaryData).error
    ensures r.Ok? ==> fresh(r.value) && r.value.dataDir == dir && r.value.summary == summaryData
    ensures r.Ok? ==> r.value.riverMileData == map[] && r.value.offsets == OffsetsOf(summaryData.rows)
  {
    var offs := SetupOffsets(summaryData);
    if offs.Err? {
      return Err(offs.error);
    }
    var p := new SeatekDataProcessor(dir, summaryData, offs.value);
    return Ok(p);
  }
}
