/**
 * `process_data`: the wide sheet (one hydrograph and one column per sensor
 * for each of twenty years) turned into one long table, one block per
 * year and sensor, each block a copy of the time, hydrograph, sensor and
 * river-mile columns tagged with its year and sensor.
 */
module Reshape {
  import opened Errors
  import opened Strings
  import opened Frames

  const LastYear: nat := 20
  const RmCol: string := "RM"
  const HydroOut: string := "Hydrograph"
  const SensorValueCol: string := "Sensor_Value"
  const SensorCol: string := "Sensor"
  const HydroPrefix: string := "Hydrograph (Lagged) for Y"
  const SensorPrefix: string := "Sensor "
  const YearInfix: string := " for Y"
  const NoObjects: string := "No objects to concatenate"
  const OutOfRange: string := "list index out of range"
  const NotInIndex: string := "not in index"

  /** The columns of every block, in the order the block has them. */
  const BlockColumns: seq<string> := [TimeSeconds, HydroOut, SensorValueCol, RmCol, YearCol, SensorCol]

  /** `f"Hydrograph (Lagged) for Y{year:02d}"` */
  function HydroColumn(year: nat): string
  {
    HydroPrefix + Pad2(year)
  }

  /** `f"Sensor {sensor} for Y{year:02d}"` */
  function SensorColumn(id: string, year: nat): string
  {
    SensorPrefix + id + YearInfix + Pad2(year)
  }

  /** `col.startswith("Sensor")` */
  predicate IsSensorColumn(col: string)
  {
    StartsWith(col, SensorCol)
  }

  /** `col.split()[1]`, or the `IndexError` a one-word column raises. */
  function SecondWord(col: string): (r: Result<string>)
    ensures r.Ok? <==> |SplitWhitespace(col)| >= 2
    ensures r.Ok? ==> r.value == SplitWhitespace(col)[1]
    ensures r.Err? ==> r.error == Failure(IndexError, Plain(OutOfRange))
  {
    var words := SplitWhitespace(col);
    if |words| < 2 then Err(Failure(IndexError, Plain(OutOfRange))) else Ok(words[1])
  }

  /**
   * A list comprehension with a condition whose element expression may
   * raise: `[get(x) for x in xs if keep(x)]`, stopping at the first raise.
   */
  function Collect<T(!new), U>(xs: seq<T>, keep: T -> bool, get: T -> Result<U>): (r: Result<seq<U>>)
    ensures r.Ok? <==> forall i :: 0 <= i < |xs| && keep(xs[i]) ==> get(xs[i]).Ok?
    ensures r.Ok? ==> |r.value| == |Filter(xs, keep)|
    ensures r.Ok? ==> forall k :: 0 <= k < |r.value| ==> get(Filter(xs, keep)[k]) == Ok(r.value[k])
  {
    if xs == [] then Ok([])
    else
      var init := xs[..|xs| - 1];
      var last := xs[|xs| - 1];
      assert xs == init + [last];
      assert forall i :: 0 <= i < |init| ==> init[i] == xs[i];
      FilterConcat(init, [last], keep);
      match Collect(init, keep, get)
      case Err(e) => Err(e)
      case Ok(ys) =>
        if !keep(last) then
          assert Filter([last], keep) == [];
          Ok(ys)
        else
          assert Filter([last], keep) == [last];
          match get(last)
          case Err(e) => Err(e)
          case Ok(y) => Ok(ys + [y])
  }

  /**
   * `[col.split()[1] for col in df.columns if col.startswith("Sensor")]`:
   * one id per sensor column, in column order; the first sensor column with
   * a single word raises.
   */
  function SensorIds(columns: seq<string>): (r: Result<seq<string>>)
  {
    Collect(columns, IsSensorColumn, SecondWord)
  }

  /** One id per sensor column, each its second word; an `IndexError` exactly when a sensor column has one word. */
  lemma SensorIdsMeaning(columns: seq<string>)
    ensures SensorIds(columns).Ok? <==>
      forall i :: 0 <= i < |columns| && IsSensorColumn(columns[i]) ==> |SplitWhitespace(columns[i])| >= 2
    ensures SensorIds(columns).Err? ==> SensorIds(columns).error == Failure(IndexError, Plain(OutOfRange))
    ensures SensorIds(columns).Ok? ==> (|SensorIds(columns).value| == Count(columns, IsSensorColumn) &&
      forall k :: 0 <= k < |SensorIds(columns).value| ==>
        SensorIds(columns).value[k] == SplitWhitespace(Filter(columns, IsSensorColumn)[k])[1])
  {
    FilterCount(columns, IsSensorColumn);
    CollectError(columns, IsSensorColumn, SecondWord, Failure(IndexError, Plain(OutOfRange)));
  }

  /** When every raise is the same exception, the comprehension raises that one. */
  lemma {:induction false} CollectError<T(!new), U>(xs: seq<T>, keep: T -> bool, get: T -> Result<U>, e: Failure)
    requires forall x :: get(x).Err? ==> get(x).error == e
    ensures Collect(xs, keep, get).Err? ==> Collect(xs, keep, get).error == e
    decreases |xs|
  {
    if xs != [] {
      CollectError(xs[..|xs| - 1], keep, get, e);
    }
  }

  /** The four columns a block selects, in selection order. */
  function Selected(year: nat, id: string): seq<string>
  {
    [TimeSeconds, HydroColumn(year), SensorColumn(id, year), RmCol]
  }

  /** One row of a block: the selected cells under their new names, then the year and the sensor. */
  function BlockRow(x: Row, year: nat, id: string): Row
  {
    map[TimeSeconds := Get(x, TimeSeconds), HydroOut := Get(x, HydroColumn(year)),
        SensorValueCol := Get(x, SensorColumn(id, year)), RmCol := Get(x, RmCol),
        YearCol := Num(year as real), SensorCol := Text(id)]
  }

  /** The selected columns the frame lacks, in selection order. */
  function Absent(f: Frame, year: nat, id: string): seq<string>
  {
    Filter(Selected(year, id), c => c !in f.columns)
  }

  /** The block for one year and sensor, or the `KeyError` naming its missing columns. */
  function Block(f: Frame, year: nat, id: string): (r: Result<seq<Row>>)
    ensures r.Ok? <==> Absent(f, year, id) == []
    ensures r.Err? ==> r.error == Failure(KeyError, WithList(NotInIndex, Absent(f, year, id)))
    ensures r.Ok? ==> |r.value| == |f.rows|
  {
    var missing := Absent(f, year, id);
    if missing != [] then Err(Failure(KeyError, WithList(NotInIndex, missing)))
    else Ok(seq(|f.rows|, i requires 0 <= i < |f.rows| => BlockRow(f.rows[i], year, id)))
  }

  /**
   * The selection succeeds exactly when the frame has all four selected
   * columns; otherwise the error lists the selected columns it lacks.
   */
  lemma BlockColumnsPresent(f: Frame, year: nat, id: string)
    ensures Block(f, year, id).Ok? <==> forall c :: c in Selected(year, id) ==> c in f.columns
    ensures forall c :: c in Absent(f, year, id) <==> c in Selected(year, id) && c !in f.columns
  {
    var missing := Absent(f, year, id);
    if missing != [] {
      assert missing[0] in missing;
    }
  }

  /** A block has one row per input row, each the input row renamed and tagged. */
  lemma BlockRows(f: Frame, year: nat, id: string)
    requires Block(f, year, id).Ok?
    ensures |Block(f, year, id).value| == |f.rows|
    ensures forall i :: 0 <= i < |f.rows| ==> Block(f, year, id).value[i] == BlockRow(f.rows[i], year, id)
  {
  }

  /** The blocks of one year, in sensor order. */
  function YearPairs(ids: seq<string>, year: nat): (p: seq<(nat, string)>)
    ensures |p| == |ids| && forall k :: 0 <= k < |ids| ==> p[k] == (year, ids[k])
  {
    seq(|ids|, k requires 0 <= k < |ids| => (year, ids[k]))
  }

  /** `a * b` by repeated addition: the row offsets below stay linear for the solver. */
  function Times(a: nat, b: nat): nat
    decreases a
  {
    if a == 0 then 0 else Times(a - 1, b) + b
  }

  lemma {:induction false} TimesIsProduct(a: nat, b: nat)
    ensures Times(a, b) == a * b
    decreases a
  {
    if a > 0 {
      TimesIsProduct(a - 1, b);
    }
  }

  /** An offset inside an earlier stripe of width `b` lies before stripe `c`. */
  lemma {:induction false} TimesBelow(a: nat, c: nat, b: nat, k: nat)
    requires a < c && k < b
    ensures Times(a, b) + k < Times(c, b)
    decreases c
  {
    if a + 1 < c {
      TimesBelow(a, c - 1, b, k);
    }
  }

  /** The (year, sensor) pairs of the nested loops for years 1..n: year-major, then sensor order. */
  function Pairs(ids: seq<string>, n: nat): (p: seq<(nat, string)>)
    ensures |p| == Times(n, |ids|)
    decreases n
  {
    if n == 0 then [] else Pairs(ids, n - 1) + YearPairs(ids, n)
  }

  /** Block `(y - 1) * |ids| + k` is year `y` and sensor `ids[k]`. */
  lemma {:induction false} PairsAt(ids: seq<string>, n: nat, y: nat, k: nat)
    requires 1 <= y <= n && k < |ids|
    ensures Times(y - 1, |ids|) + k < |Pairs(ids, n)|
    ensures Pairs(ids, n)[Times(y - 1, |ids|) + k] == (y, ids[k])
    decreases n
  {
    TimesBelow(y - 1, n, |ids|, k);
    if y < n {
      PairsAt(ids, n - 1, y, k);
      TimesBelow(y - 1, n - 1, |ids|, k);
    }
  }

  /** The loops up to year `n` are those up to the year before, then year `n`'s. */
  lemma PairsStep(ids: seq<string>, n: nat)
    requires 1 <= n
    ensures Pairs(ids, n) == Pairs(ids, n - 1) + YearPairs(ids, n)
  {
  }

  /** The loops up to year `a` are a prefix of the loops up to a later year. */
  lemma {:induction false} PairsPrefix(ids: seq<string>, a: nat, b: nat)
    requires a <= b
    ensures Pairs(ids, a) <= Pairs(ids, b)
    decreases b - a
  {
    if a < b {
      PairsPrefix(ids, a, b - 1);
    }
  }

  /** A loop that appends `make(p)` for each `p`, stopping at the first raise. */
  function Appended<P, B>(pairs: seq<P>, make: P -> Result<B>): (r: Result<seq<B>>)
    ensures r.Ok? ==> |r.value| == |pairs|
  {
    if pairs == [] then Ok([])
    else
      match Appended(pairs[..|pairs| - 1], make)
      case Err(e) => Err(e)
      case Ok(bs) =>
        match make(pairs[|pairs| - 1])
        case Err(e) => Err(e)
        case Ok(b) => Ok(bs + [b])
  }

  /** A loop that ran to the end holds, at position `k`, what step `k` made. */
  lemma {:induction false} AppendedAt<P, B>(pairs: seq<P>, make: P -> Result<B>, k: nat)
    requires Appended(pairs, make).Ok? && k < |pairs|
    ensures make(pairs[k]) == Ok(Appended(pairs, make).value[k])
    decreases |pairs|
  {
    var init := pairs[..|pairs| - 1];
    if k < |init| {
      AppendedAt(init, make, k);
      assert init[k] == pairs[k];
    }
  }

  /** The loop fails exactly when one step fails, and then with the first failing step's error. */
  lemma {:induction false} AppendedFails<P, B>(pairs: seq<P>, make: P -> Result<B>)
    ensures Appended(pairs, make).Err? <==> exists k :: 0 <= k < |pairs| && make(pairs[k]).Err?
    ensures Appended(pairs, make).Err? ==> exists k :: (0 <= k < |pairs| &&
      make(pairs[k]) == Err(Appended(pairs, make).error) && forall j :: 0 <= j < k ==> make(pairs[j]).Ok?)
  {
    if pairs != [] {
      var init := pairs[..|pairs| - 1];
      AppendedFails(init, make);
      assert forall j :: 0 <= j < |init| ==> init[j] == pairs[j];
      if Appended(init, make).Ok? {
        assert forall j :: 0 <= j < |init| ==> make(pairs[j]).Ok?;
      }
    }
  }

  /** One more step of the loop: its block is appended, or its failure ends the loop. */
  lemma AppendedSnoc<P, B>(p: seq<P>, x: P, make: P -> Result<B>)
    requires Appended(p, make).Ok?
    ensures make(x).Ok? ==> Appended(p + [x], make) == Ok(Appended(p, make).value + [make(x).value])
    ensures make(x).Err? ==> Appended(p + [x], make) == Err(make(x).error)
  {
    assert (p + [x])[..|p|] == p;
  }

  /** Once a prefix of the loop fails, the rest of the loop never runs. */
  lemma {:induction false} AppendedErrStays<P, B>(p: seq<P>, q: seq<P>, make: P -> Result<B>)
    requires Appended(p, make).Err?
    ensures Appended(p + q, make) == Appended(p, make)
    decreases |q|
  {
    if q == [] {
      assert p + q == p;
    } else {
      var q' := q[..|q| - 1];
      AppendedErrStays(p, q', make);
      assert (p + q)[..|p + q| - 1] == p + q';
    }
  }

  /** A loop that fails on a prefix fails the same way when run longer. */
  lemma AppendedPrefixErr<P, B>(p: seq<P>, q: seq<P>, make: P -> Result<B>)
    requires p <= q && Appended(p, make).Err?
    ensures Appended(q, make) == Appended(p, make)
  {
    var rest := q[|p|..];
    assert q == p + rest;
    AppendedErrStays(p, rest, make);
  }

  /** The block of one loop step. */
  function BlockFor(f: Frame): ((nat, string)) -> Result<seq<Row>>
  {
    (p: (nat, string)) => Block(f, p.0, p.1)
  }

  /** `processed_data` after the loops over `pairs`, or the first error. */
  function Blocks(f: Frame, pairs: seq<(nat, string)>): Result<seq<seq<Row>>>
  {
    Appended(pairs, BlockFor(f))
  }

  /** `pd.concat(processed_data, ignore_index=True)`: the blocks' rows one after another. */
  function Concat<T>(blocks: seq<seq<T>>): (rows: seq<T>)
  {
    if blocks == [] then [] else Concat(blocks[..|blocks| - 1]) + blocks[|blocks| - 1]
  }

  /** Blocks of equal height `h`: block `b`'s row `i` is at `b * h + i`. */
  lemma {:induction false} ConcatAt<T>(blocks: seq<seq<T>>, h: nat, b: nat, i: nat)
    requires forall k :: 0 <= k < |blocks| ==> |blocks[k]| == h
    requires b < |blocks| && i < h
    ensures Times(b, h) + i < |Concat(blocks)| && Concat(blocks)[Times(b, h) + i] == blocks[b][i]
    decreases |blocks|
  {
    ConcatHeight(blocks, h);
    var init := blocks[..|blocks| - 1];
    assert forall k :: 0 <= k < |init| ==> init[k] == blocks[k];
    ConcatHeight(init, h);
    if b < |blocks| - 1 {
      ConcatAt(init, h, b, i);
      TimesBelow(b, |blocks| - 1, h, i);
    }
  }

  /** A row known to be row `i` of block `b` is row `b * h + i` of the concatenation. */
  lemma ConcatRowAt<T>(blocks: seq<seq<T>>, h: nat, b: nat, i: nat, x: T)
    requires forall k :: 0 <= k < |blocks| ==> |blocks[k]| == h
    requires b < |blocks| && i < h && blocks[b][i] == x
    ensures Times(b, h) + i < |Concat(blocks)| && Concat(blocks)[Times(b, h) + i] == x
  {
    ConcatAt(blocks, h, b, i);
  }

  /** Blocks of equal height `h` concatenate to `|blocks| * h` rows. */
  lemma {:induction false} ConcatHeight<T>(blocks: seq<seq<T>>, h: nat)
    requires forall k :: 0 <= k < |blocks| ==> |blocks[k]| == h
    ensures |Concat(blocks)| == Times(|blocks|, h)
    decreases |blocks|
  {
    if blocks != [] {
      var init := blocks[..|blocks| - 1];
      assert forall k :: 0 <= k < |init| ==> init[k] == blocks[k];
      ConcatHeight(init, h);
    }
  }

  /** `processed_data` after both loops, or the first error raised in them. */
  function Loops(f: Frame): Result<seq<seq<Row>>>
  {
    match SensorIds(f.columns)
    case Err(e) => Err(e)
    case Ok(ids) => Blocks(f, Pairs(ids, LastYear))
  }

  /** `process_data`'s result as a value. */
  function Processed(f: Frame): (r: Result<Frame>)
  {
    match Loops(f)
    case Err(e) => Err(e)
    case Ok(blocks) =>
      if blocks == [] then Err(Failure(ValueError, Plain(NoObjects)))
      else Ok(Frame(BlockColumns, Concat(blocks)))
  }

  /** `process_data`: for each year, for each sensor id, append the block; then concatenate. */
  method ProcessData(f: Frame) returns (r: Result<Frame>)
    ensures r == Processed(f)
  {
    var loops := RunLoops(f);
    if loops.Err? {
      return Err(loops.error);
    }
    if |loops.value| == 0 {
      return Err(Failure(ValueError, Plain(NoObjects)));
    }
    r := Ok(Frame(BlockColumns, Concat(loops.value)));
  }

  /** The two loops of `process_data`, the id list recomputed for every year as the source does. */
  method RunLoops(f: Frame) returns (r: Result<seq<seq<Row>>>)
    ensures r == Loops(f)
  {
    var processed: seq<seq<Row>> := [];
    var year: nat := 1;
    ghost var ids0 := SensorIds(f.columns);
    while year <= LastYear
      invariant 1 <= year <= LastYear + 1
      invariant ids0.Ok? || year == 1
      invariant ids0.Ok? ==> Blocks(f, Pairs(ids0.value, year - 1)) == Ok(processed)
    {
      var ids := SensorIds(f.columns);
      if ids.Err? {
        return Err(ids.error);
      }
      var next := AppendYear(f, year, ids.value, processed);
      if next.Err? {
        LoopErr(f, year);
        return Err(next.error);
      }
      processed := next.value;
      assert Blocks(f, Pairs(ids0.value, year)) == Ok(processed);
      year := year + 1;
    }
    assert year - 1 == LastYear && ids0.Ok?;
    r := Ok(processed);
  }

  /** A failure in the loops of year `year` is the result of both loops. */
  lemma LoopErr(f: Frame, year: nat)
    requires 1 <= year <= LastYear && SensorIds(f.columns).Ok?
    requires Blocks(f, Pairs(SensorIds(f.columns).value, year)).Err?
    ensures Loops(f) == Err(Blocks(f, Pairs(SensorIds(f.columns).value, year)).error)
  {
    LoopErrAt(f, SensorIds(f.columns).value, year, LastYear);
  }

  /** A failure within year `year` is the result of the loops up to any later year `n`. */
  lemma LoopErrAt(f: Frame, ids: seq<string>, year: nat, n: nat)
    requires 1 <= year <= n && Blocks(f, Pairs(ids, year)).Err?
    ensures Blocks(f, Pairs(ids, n)) == Blocks(f, Pairs(ids, year))
  {
    PairsPrefix(ids, year, n);
    AppendedPrefixErr(Pairs(ids, year), Pairs(ids, n), BlockFor(f));
  }

  /** The inner loop for one year: a block per sensor id, appended in id order. */
  method AppendYear(f: Frame, year: nat, ids: seq<string>, processed: seq<seq<Row>>)
    returns (r: Result<seq<seq<Row>>>)
    requires 1 <= year && Blocks(f, Pairs(ids, year - 1)) == Ok(processed)
    ensures r == Blocks(f, Pairs(ids, year))
  {
    YearPrefixEnds(ids, year);
    var acc := processed;
    var k := 0;
    while k < |ids|
      invariant 0 <= k <= |ids|
      invariant Blocks(f, YearPrefix(ids, year, k)) == Ok(acc)
    {
      var block := Block(f, year, ids[k]);
      YearStep(f, year, ids, k);
      if block.Err? {
        return Err(block.error);
      }
      acc := acc + [block.value];
      k := k + 1;
    }
    r := Ok(acc);
  }

  /** The loop steps before sensor `k` of year `year`. */
  ghost function YearPrefix(ids: seq<string>, year: nat, k: nat): seq<(nat, string)>
    requires 1 <= year && k <= |ids|
  {
    Pairs(ids, year - 1) + YearPairs(ids, year)[..k]
  }

  lemma YearPrefixEnds(ids: seq<string>, year: nat)
    requires 1 <= year
    ensures YearPrefix(ids, year, 0) == Pairs(ids, year - 1)
    ensures YearPrefix(ids, year, |ids|) == Pairs(ids, year)
  {
    PairsStep(ids, year);
    assert YearPairs(ids, year)[..|ids|] == YearPairs(ids, year);
  }

  /** Sensor `k` of year `year`: its block is appended, or its failure is the result of the year. */
  lemma YearStep(f: Frame, year: nat, ids: seq<string>, k: nat)
    requires 1 <= year && k < |ids| && Blocks(f, YearPrefix(ids, year, k)).Ok?
    ensures (Block(f, year, ids[k]).Ok? ==>
      Blocks(f, YearPrefix(ids, year, k + 1)) == Ok(Blocks(f, YearPrefix(ids, year, k)).value + [Block(f, year, ids[k]).value]))
    ensures Block(f, year, ids[k]).Err? ==> Blocks(f, Pairs(ids, year)) == Err(Block(f, year, ids[k]).error)
  {
    PairsStep(ids, year);
    assert BlockFor(f)(YearPairs(ids, year)[k]) == Block(f, year, ids[k]);
    AppendedStep(Pairs(ids, year - 1), YearPairs(ids, year), k, BlockFor(f));
  }

  /**
   * Step `k` of a loop over `q` run after `p`: its block is appended, or its
   * failure is the result of the whole loop.
   */
  lemma AppendedStep<P, B>(p: seq<P>, q: seq<P>, k: nat, make: P -> Result<B>)
    requires k < |q| && Appended(p + q[..k], make).Ok?
    ensures make(q[k]).Ok? ==>
      Appended(p + q[..k + 1], make) == Ok(Appended(p + q[..k], make).value + [make(q[k]).value])
    ensures make(q[k]).Err? ==> Appended(p + q, make) == Err(make(q[k]).error)
  {
    assert p + q[..k + 1] == (p + q[..k]) + [q[k]];
    AppendedSnoc(p + q[..k], q[k], make);
    if make(q[k]).Err? {
      var rest := q[k + 1..];
      assert q == q[..k + 1] + rest;
      Assoc(p, q[..k + 1], rest);
      AppendedErrStays(p + q[..k + 1], rest, make);
    }
  }

  /** Each block of the loop is as tall as the input. */
  lemma BlocksHeight(f: Frame, pairs: seq<(nat, string)>)
    requires Blocks(f, pairs).Ok?
    ensures |Blocks(f, pairs).value| == |pairs|
    ensures forall j :: 0 <= j < |pairs| ==> |Blocks(f, pairs).value[j]| == |f.rows|
  {
    var blocks := Blocks(f, pairs).value;
    forall j | 0 <= j < |pairs| ensures |blocks[j]| == |f.rows| {
      AppendedAt(pairs, BlockFor(f), j);
      assert BlockFor(f)(pairs[j]) == Ok(blocks[j]);
    }
  }

  /** A successful result is the concatenation of the blocks of all twenty years. */
  lemma ProcessedBlocks(f: Frame)
    requires Processed(f).Ok?
    ensures SensorIds(f.columns).Ok?
    ensures Blocks(f, Pairs(SensorIds(f.columns).value, LastYear)).Ok?
    ensures Processed(f).value == Frame(BlockColumns, Concat(Blocks(f, Pairs(SensorIds(f.columns).value, LastYear)).value))
  {
  }

  /** Twenty blocks per sensor id, each as tall as the input: 20 × ids × rows rows in all. */
  lemma ProcessedRows(f: Frame)
    requires Processed(f).Ok?
    ensures SensorIds(f.columns).Ok?
    ensures |Processed(f).value.rows| == LastYear * |SensorIds(f.columns).value| * |f.rows|
    ensures Processed(f).value.columns == BlockColumns
  {
    ProcessedBlocks(f);
    var ids := SensorIds(f.columns).value;
    var pairs := Pairs(ids, LastYear);
    BlocksHeight(f, pairs);
    ConcatHeight(Blocks(f, pairs).value, |f.rows|);
    TimesIsProduct(LastYear, |ids|);
    TimesIsProduct(|pairs|, |f.rows|);
  }

  /**
   * Row `i` of the block for year `y` and the `k`-th sensor id, block
   * number `b = (y - 1) * |ids| + k` of the loops, sits at `b * |rows| + i`
   * and is the input's row `i` with the hydrograph and sensor columns of that
   * year renamed, tagged with the year and the id.
   */
  lemma ProcessedRowAt(f: Frame, y: nat, k: nat, b: nat, i: nat)
    requires Processed(f).Ok? && 1 <= y <= LastYear && i < |f.rows|
    requires SensorIds(f.columns).Ok? && k < |SensorIds(f.columns).value|
    requires b == Times(y - 1, |SensorIds(f.columns).value|) + k
    ensures Times(b, |f.rows|) + i < |Processed(f).value.rows|
    ensures Processed(f).value.rows[Times(b, |f.rows|) + i] == BlockRow(f.rows[i], y, SensorIds(f.columns).value[k])
  {
    PairsAt(SensorIds(f.columns).value, LastYear, y, k);
    ProcessedBlockRow(f, b, i);
  }

  /** Row `i` of block `b` sits at `b * |rows| + i`. */
  lemma ProcessedBlockRow(f: Frame, b: nat, i: nat)
    requires Processed(f).Ok? && i < |f.rows|
    requires SensorIds(f.columns).Ok? && b < |Pairs(SensorIds(f.columns).value, LastYear)|
    ensures Times(b, |f.rows|) + i < |Processed(f).value.rows|
    ensures (Processed(f).value.rows[Times(b, |f.rows|) + i] ==
      BlockRow(f.rows[i], Pairs(SensorIds(f.columns).value, LastYear)[b].0, Pairs(SensorIds(f.columns).value, LastYear)[b].1))
  {
    ProcessedBlocks(f);
    BlocksRowAt(f, Pairs(SensorIds(f.columns).value, LastYear), b, i);
  }

  /** After any loop, row `i` of block `b` sits at `b * |rows| + i` of the concatenation. */
  lemma BlocksRowAt(f: Frame, pairs: seq<(nat, string)>, b: nat, i: nat)
    requires Blocks(f, pairs).Ok? && b < |pairs| && i < |f.rows|
    ensures Times(b, |f.rows|) + i < |Concat(Blocks(f, pairs).value)|
    ensures Concat(Blocks(f, pairs).value)[Times(b, |f.rows|) + i] == BlockRow(f.rows[i], pairs[b].0, pairs[b].1)
  {
    var blocks := Blocks(f, pairs).value;
    BlocksHeight(f, pairs);
    BlocksRow(f, pairs, b, i);
    var x := blocks[b][i];
    ConcatRowAt(blocks, |f.rows|, b, i, x);
    assert Concat(blocks)[Times(b, |f.rows|) + i] == x;
    assert x == BlockRow(f.rows[i], pairs[b].0, pairs[b].1);
  }

  /** Row `i` of block `b` of the loop is the input's row `i` renamed and tagged for that step. */
  lemma BlocksRow(f: Frame, pairs: seq<(nat, string)>, b: nat, i: nat)
    requires Blocks(f, pairs).Ok? && b < |pairs| && i < |f.rows|
    ensures |Blocks(f, pairs).value| == |pairs| && |Blocks(f, pairs).value[b]| == |f.rows|
    ensures Blocks(f, pairs).value[b][i] == BlockRow(f.rows[i], pairs[b].0, pairs[b].1)
  {
    BlocksBlock(f, pairs, b, i);
    BlockRows(f, pairs[b].0, pairs[b].1);
  }

  lemma BlocksBlock(f: Frame, pairs: seq<(nat, string)>, b: nat, i: nat)
    requires Blocks(f, pairs).Ok? && b < |pairs| && i < |f.rows|
    ensures |Blocks(f, pairs).value| == |pairs| && |Blocks(f, pairs).value[b]| == |f.rows|
    ensures Block(f, pairs[b].0, pairs[b].1).Ok?
    ensures Blocks(f, pairs).value[b][i] == Block(f, pairs[b].0, pairs[b].1).value[i]
  {
    AppendedAt(pairs, BlockFor(f), b);
    assert BlockFor(f)(pairs[b]) == Ok(Blocks(f, pairs).value[b]);
  }

  /** A block row keeps the selected cells under their new names and adds the year and the sensor id. */
  lemma BlockRowMeaning(x: Row, year: nat, id: string)
    ensures BlockRow(x, year, id).Keys == set c | c in BlockColumns
    ensures BlockRow(x, year, id)[HydroOut] == Get(x, HydroColumn(year))
    ensures BlockRow(x, year, id)[SensorValueCol] == Get(x, SensorColumn(id, year))
    ensures BlockRow(x, year, id)[TimeSeconds] == Get(x, TimeSeconds)
    ensures BlockRow(x, year, id)[RmCol] == Get(x, RmCol)
    ensures BlockRow(x, year, id)[YearCol] == Num(year as real) && BlockRow(x, year, id)[SensorCol] == Text(id)
  {
  }

  /** Every loop step is a year from 1 to `n` and one of the ids. */
  lemma {:induction false} PairsMembers(ids: seq<string>, n: nat)
    ensures forall p :: p in Pairs(ids, n) ==> 1 <= p.0 <= n && p.1 in ids
    decreases n
  {
    if n > 0 {
      PairsMembers(ids, n - 1);
      forall p | p in Pairs(ids, n) ensures 1 <= p.0 <= n && p.1 in ids {
        if p !in Pairs(ids, n - 1) {
          assert p in YearPairs(ids, n);
          var k :| 0 <= k < |ids| && YearPairs(ids, n)[k] == p;
        }
      }
    }
  }

  /** Every column the loops select, for every year and sensor id, is present. */
  predicate AllSelected(f: Frame, ids: seq<string>)
  {
    forall y: nat, id, c :: 1 <= y <= LastYear && id in ids && c in Selected(y, id) ==> c in f.columns
  }

  /**
   * `process_data` succeeds exactly when every sensor column has an id,
   * there is at least one sensor column, and every column the loops select
   * is present.
   */
  lemma ProcessedOk(f: Frame)
    ensures Processed(f).Ok? <==>
      SensorIds(f.columns).Ok? && SensorIds(f.columns).value != [] && AllSelected(f, SensorIds(f.columns).value)
  {
    if SensorIds(f.columns).Ok? {
      var ids := SensorIds(f.columns).value;
      TimesIsProduct(LastYear, |ids|);
      if Blocks(f, Pairs(ids, LastYear)).Ok? {
        BlocksSelected(f, ids);
      }
      if AllSelected(f, ids) {
        SelectedBlocks(f, ids);
      }
    }
  }

  /** Loops that run to the end found every selected column. */
  lemma BlocksSelected(f: Frame, ids: seq<string>)
    requires Blocks(f, Pairs(ids, LastYear)).Ok?
    ensures AllSelected(f, ids)
  {
    SelectedUpTo(f, ids, LastYear);
  }

  /** Loops over `n` years that run to the end found every selected column. */
  lemma SelectedUpTo(f: Frame, ids: seq<string>, n: nat)
    requires Blocks(f, Pairs(ids, n)).Ok?
    ensures forall y: nat, id, c :: 1 <= y <= n && id in ids && c in Selected(y, id) ==> c in f.columns
  {
    forall y: nat, id, c | 1 <= y <= n && id in ids && c in Selected(y, id) ensures c in f.columns {
      var k :| 0 <= k < |ids| && ids[k] == id;
      PairsAt(ids, n, y, k);
      StepBlockOk(f, Pairs(ids, n), Times(y - 1, |ids|) + k);
      BlockColumnsPresent(f, y, id);
    }
  }

  /** Loops that run to the end made the block of every step. */
  lemma StepBlockOk(f: Frame, pairs: seq<(nat, string)>, j: nat)
    requires Blocks(f, pairs).Ok? && j < |pairs|
    ensures Block(f, pairs[j].0, pairs[j].1).Ok?
  {
    AppendedAt(pairs, BlockFor(f), j);
  }

  /** With every selected column present the loops run to the end. */
  lemma SelectedBlocks(f: Frame, ids: seq<string>)
    requires AllSelected(f, ids)
    ensures Blocks(f, Pairs(ids, LastYear)).Ok?
  {
    var pairs := Pairs(ids, LastYear);
    AppendedFails(pairs, BlockFor(f));
    PairsMembers(ids, LastYear);
    forall j | 0 <= j < |pairs| ensures BlockFor(f)(pairs[j]).Ok? {
      assert pairs[j] in pairs;
      BlockColumnsPresent(f, pairs[j].0, pairs[j].1);
    }
  }

  /** With no sensor columns there is nothing to concatenate. */
  lemma NoSensorsFails(f: Frame)
    requires Count(f.columns, IsSensorColumn) == 0
    ensures Processed(f) == Err(Failure(ValueError, Plain(NoObjects)))
  {
    FilterCount(f.columns, IsSensorColumn);
    assert Filter(f.columns, IsSensorColumn) == [];
    assert SensorIds(f.columns) == Ok([]);
    TimesIsProduct(LastYear, 0);
    assert Blocks(f, Pairs([], LastYear)) == Ok([]);
  }

  /** The year suffix of the column names is always two digits for years 1 to 20. */
  lemma YearSuffix(year: nat)
    requires 1 <= year <= LastYear
    ensures |Pad2(year)| == 2
    ensures year < 10 ==> Pad2(year) == ['0', DigitChar(year)]
  {
  }
}
