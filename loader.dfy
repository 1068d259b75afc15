/**
 * The two copies of the application's data loader: the summary table with
 * its required columns, the hydrograph workbook reduced to its valid
 * `RM_` sheets, and the sorted river miles of the processed workbooks.
 * Reading a file is an input: whether it exists, and what reading it gives.
 */
module Loader {
  import opened Errors
  import opened Strings
  import opened Frames
  import opened Paths
  import opened PurePath
  import Processor

  const SummaryRequired: seq<string> := ["River_Mile", "Y_Offset", "Num_Sensors"]
  const HydroRequired: seq<string> := [TimeSeconds, YearCol]
  const MissingPrefix: string := "Missing required columns in "
  const SummaryContext: string := "summary data"
  const NoValidSheets: string := "No valid hydrograph data sheets found"
  const SummaryNotFound: string := "Summary file not found: "
  const HydroNotFound: string := "Hydrograph file not found: "
  const ProcessedNotFound: string := "Processed data directory not found: "

  /** A workbook as `pd.ExcelFile` lists it: each sheet's name and what reading it gives. */
  type Workbook = seq<(string, Result<Frame>)>

  /** The hydrograph data: the frames of the kept sheets, by sheet name. */
  type SheetTable = map<string, Frame>

  // ----- _validate_columns ---------------------------------------------------

  /** The required names `columns` lacks, in the order they are required. */
  function MissingColumns(columns: seq<string>, required: seq<string>): (m: seq<string>)
    ensures SubsequenceOf(m, required)
    ensures forall c :: c in m <==> c in required && c !in columns
  {
    var absent := (c: string) => c !in columns;
    FilterSubsequence(required, absent);
    Filter(required, absent)
  }

  /** `_validate_columns(df, required, context)`: the `ValueError` it raises, if any. */
  function ValidateColumns(columns: seq<string>, required: seq<string>, context: string): (e: Option<Failure>)
    ensures e.None? <==> forall c :: c in required ==> c in columns
    ensures e.Some? ==> e.value.kind == ValueError && e.value.msg.WithList?
    ensures e.Some? ==> e.value.msg.prefix == MissingPrefix + context + ": "
    ensures e.Some? ==> e.value.msg.names == MissingColumns(columns, required)
  {
    var missing := MissingColumns(columns, required);
    if missing == [] then
      None
    else
      assert missing[0] in missing;
      Some(Failure(ValueError, WithList(MissingPrefix + context + ": ", missing)))
  }

  // ----- Summary data --------------------------------------------------------

  /**
   * `_load_summary_data` of the application package: the file must exist,
   * and the table read from it must have the three summary columns.
   */
  function SummaryData(present: bool, file: Path, read: Result<Frame>): (r: Result<Frame>)
    ensures !present ==> r == Err(Failure(FileNotFoundError, Plain(SummaryNotFound + Str(file))))
    ensures present && read.Err? ==> r == read
    ensures present && read.Ok? ==> (r.Ok? <==> forall c :: c in SummaryRequired ==> c in read.value.columns)
    ensures present && r.Ok? ==> r == read
    ensures present && read.Ok? && r.Err? ==>
      r.error == ValidateColumns(read.value.columns, SummaryRequired, SummaryContext).value
  {
    if !present then Err(Failure(FileNotFoundError, Plain(SummaryNotFound + Str(file))))
    else if read.Err? then read
    else
      match ValidateColumns(read.value.columns, SummaryRequired, SummaryContext)
      case Some(e) => Err(e)
      case None => read
  }

  /** The summary columns as the second copy names them, a set. */
  const SummaryRequiredSet: set<string> := {"River_Mile", "Y_Offset", "Num_Sensors"}

  /**
   * `_load_summary_data` of the second copy: whatever reading gives, and
   * a `ValueError` naming the set of missing columns.
   */
  function SummaryDataUtils(read: Result<Frame>): (r: Result<Frame>)
    ensures read.Err? ==> r == read
    ensures read.Ok? ==> (r.Ok? <==> forall c :: c in SummaryRequiredSet ==> c in read.value.columns)
    ensures r.Ok? ==> r == read
    ensures read.Ok? && r.Err? ==> (r.error.kind == ValueError && r.error.msg.WithSet? &&
      r.error.msg.prefix == MissingPrefix + SummaryContext + ": " &&
      forall c :: c in r.error.msg.items <==> c in SummaryRequiredSet && c !in read.value.columns)
  {
    if read.Err? then read
    else
      var missing := Processor.MissingOf(SummaryRequiredSet, read.value.columns);
      if missing == {} then
        read
      else
        Err(Failure(ValueError, WithSet(MissingPrefix + SummaryContext + ": ", missing)))
  }

  /**
   * On a file that exists, the two copies accept the same tables, and when
   * they refuse one they name the same missing columns.
   */
  lemma SummaryCopiesAgree(file: Path, read: Result<Frame>)
    ensures SummaryData(true, file, read).Ok? <==> SummaryDataUtils(read).Ok?
    ensures SummaryData(true, file, read).Ok? ==> SummaryData(true, file, read) == SummaryDataUtils(read)
    ensures read.Ok? && SummaryData(true, file, read).Err? ==>
      forall c :: c in SummaryData(true, file, read).error.msg.names <==> c in SummaryDataUtils(read).error.msg.items
  {
    assert forall c :: c in SummaryRequired <==> c in SummaryRequiredSet;
  }

  // ----- Hydrograph data -----------------------------------------------------

  /** A sheet the loop reads: its name starts with `RM_`. */
  predicate RiverMileSheet(name: string)
  {
    StartsWith(name, "RM_")
  }

  /**
   * The loop of `_load_hydro_data` over the sheets, with the check a read
   * sheet must pass to be kept: sheets are taken in order, a sheet whose
   * reading fails ends the loop with that error, and a kept sheet is stored
   * under its name.
   */
  function KeptSheets(sheets: Workbook, accept: (string, Frame) -> bool): Result<SheetTable>
  {
    if sheets == [] then Ok(map[])
    else
      var (name, read) := sheets[|sheets| - 1];
      match KeptSheets(sheets[..|sheets| - 1], accept)
      case Err(e) => Err(e)
      case Ok(m) =>
        if !RiverMileSheet(name) then Ok(m)
        else if read.Err? then Err(read.error)
        else if accept(name, read.value) then Ok(m[name := read.value])
        else Ok(m)
  }

  /** The first `RM_` sheet whose reading fails is at `i`. */
  predicate FirstUnreadable(sheets: Workbook, i: int)
  {
    0 <= i < |sheets| && RiverMileSheet(sheets[i].0) && sheets[i].1.Err? &&
    forall j :: 0 <= j < i ==> !(RiverMileSheet(sheets[j].0) && sheets[j].1.Err?)
  }

  /**
   * The loop fails exactly when an `RM_` sheet cannot be read, with the
   * error of the first such sheet.
   */
  lemma {:induction false} KeptSheetsFails(sheets: Workbook, accept: (string, Frame) -> bool)
    ensures KeptSheets(sheets, accept).Err? <==>
      exists i :: 0 <= i < |sheets| && RiverMileSheet(sheets[i].0) && sheets[i].1.Err?
    ensures KeptSheets(sheets, accept).Err? ==>
      exists i :: FirstUnreadable(sheets, i) && KeptSheets(sheets, accept).error == sheets[i].1.error
  {
    if sheets != [] {
      var n := |sheets| - 1;
      var init := sheets[..n];
      var (name, read) := sheets[n];
      KeptSheetsFails(init, accept);
      if KeptSheets(init, accept).Err? {
        var i :| FirstUnreadable(init, i) && KeptSheets(init, accept).error == init[i].1.error;
        assert FirstUnreadable(sheets, i) by {
          assert forall j :: 0 <= j <= i ==> init[j] == sheets[j];
        }
      } else if RiverMileSheet(name) && read.Err? {
        assert FirstUnreadable(sheets, n) by {
          assert forall j :: 0 <= j < n ==> init[j] == sheets[j];
        }
      } else {
        forall i | 0 <= i < |sheets| ensures !(RiverMileSheet(sheets[i].0) && sheets[i].1.Err?) {
          if i < n { assert sheets[i] == init[i]; }
        }
      }
    }
  }

  /**
   * When the loop succeeds, each stored frame is an accepted `RM_` sheet
   * under its name, and every such sheet is stored.
   */
  lemma {:induction false} KeptSheetsKeeps(sheets: Workbook, accept: (string, Frame) -> bool)
    ensures KeptSheets(sheets, accept).Ok? ==> forall k :: k in KeptSheets(sheets, accept).value ==>
      RiverMileSheet(k) && accept(k, KeptSheets(sheets, accept).value[k]) &&
      (k, Ok(KeptSheets(sheets, accept).value[k])) in sheets
    ensures KeptSheets(sheets, accept).Ok? ==> forall i ::
      (0 <= i < |sheets| && RiverMileSheet(sheets[i].0) && sheets[i].1.Ok? && accept(sheets[i].0, sheets[i].1.value)) ==>
      sheets[i].0 in KeptSheets(sheets, accept).value
  {
    if sheets != [] {
      var n := |sheets| - 1;
      var init := sheets[..n];
      KeptSheetsKeeps(init, accept);
      if KeptSheets(sheets, accept).Ok? {
        var (name, read) := sheets[n];
        var m := KeptSheets(init, accept).value;
        var r := KeptSheets(sheets, accept).value;
        assert forall x :: x in init ==> x in sheets;
        assert sheets[n] in sheets;
        forall k | k in r
          ensures RiverMileSheet(k) && accept(k, r[k]) && (k, Ok(r[k])) in sheets
        {
          if k == name && RiverMileSheet(name) && read.Ok? && accept(name, read.value) {
            assert r[k] == read.value;
          } else {
            assert k in m && r[k] == m[k];
          }
        }
        forall i | 0 <= i < n ensures sheets[i] == init[i] { }
      }
    }
  }

  /** Two checks that agree on every sheet keep the same sheets. */
  lemma {:induction false} KeptSheetsSame(sheets: Workbook, p: (string, Frame) -> bool, q: (string, Frame) -> bool)
    requires forall n, f :: p(n, f) == q(n, f)
    ensures KeptSheets(sheets, p) == KeptSheets(sheets, q)
  {
    if sheets != [] {
      var (name, read) := sheets[|sheets| - 1];
      KeptSheetsSame(sheets[..|sheets| - 1], p, q);
      if read.Ok? {
        assert p(name, read.value) == q(name, read.value);
      }
    }
  }

  lemma KeptSheetsStep(sheets: Workbook, accept: (string, Frame) -> bool, i: nat)
    requires i < |sheets|
    ensures KeptSheets(sheets[..i + 1], accept) ==
      match KeptSheets(sheets[..i], accept)
      case Err(e) => Err(e)
      case Ok(m) =>
        if !RiverMileSheet(sheets[i].0) then Ok(m)
        else if sheets[i].1.Err? then Err(sheets[i].1.error)
        else if accept(sheets[i].0, sheets[i].1.value) then Ok(m[sheets[i].0 := sheets[i].1.value])
        else Ok(m)
  {
    assert sheets[..i + 1][..i] == sheets[..i];
  }

  /** A failure of the first sheets is the failure of the whole workbook. */
  lemma {:induction false} KeptSheetsErrStays(sheets: Workbook, accept: (string, Frame) -> bool, i: nat)
    requires i <= |sheets| && KeptSheets(sheets[..i], accept).Err?
    ensures KeptSheets(sheets, accept) == KeptSheets(sheets[..i], accept)
    decreases |sheets| - i
  {
    if i < |sheets| {
      KeptSheetsStep(sheets, accept, i);
      KeptSheetsErrStays(sheets, accept, i + 1);
    } else {
      assert sheets[..i] == sheets;
    }
  }

  /** The loop of `_load_hydro_data`, filling the dictionary sheet by sheet. */
  method FillHydroData(sheets: Workbook, accept: (string, Frame) -> bool) returns (r: Result<SheetTable>)
    ensures r == KeptSheets(sheets, accept)
  {
    var hydroData: SheetTable := map[];
    var i := 0;
    while i < |sheets|
      invariant 0 <= i <= |sheets|
      invariant KeptSheets(sheets[..i], accept) == Ok(hydroData)
    {
      KeptSheetsStep(sheets, accept, i);
      var (name, read) := sheets[i];
      if RiverMileSheet(name) {
        if read.Err? {
          KeptSheetsErrStays(sheets, accept, i + 1);
          return Err(read.error);
        }
        if accept(name, read.value) {
          hydroData := hydroData[name := read.value];
        }
      }
      i := i + 1;
    }
    assert sheets[..i] == sheets;
    return Ok(hydroData);
  }

  /** The application package keeps a sheet when `_validate_columns` raises nothing for it. */
  function AcceptsSheet(name: string, f: Frame): bool
  {
    ValidateColumns(f.columns, HydroRequired, "sheet " + name).None?
  }

  /** The second copy keeps a sheet that has both columns of its required set. */
  function AcceptsSheetUtils(name: string, f: Frame): bool
  {
    forall c :: c in {TimeSeconds, YearCol} ==> c in f.columns
  }

  /** What the loop's dictionary leads to: an empty one is a `ValueError`. */
  function Nonempty(kept: Result<SheetTable>): (r: Result<SheetTable>)
    ensures kept.Err? ==> r == kept
    ensures kept.Ok? && kept.value == map[] ==> r == Raise(ValueError, NoValidSheets)
    ensures kept.Ok? && kept.value != map[] ==> r == kept
  {
    if kept.Err? then kept
    else if kept.value == map[] then Raise(ValueError, NoValidSheets)
    else kept
  }

  /**
   * `_load_hydro_data` of the application package: the file must exist and
   * open, and at least one `RM_` sheet must have the time and year columns.
   */
  function HydroData(present: bool, file: Path, workbook: Result<Workbook>): (r: Result<SheetTable>)
    ensures !present ==> r == Err(Failure(FileNotFoundError, Plain(HydroNotFound + Str(file))))
    ensures present && workbook.Err? ==> r == Err(workbook.error)
    ensures present && workbook.Ok? ==> r == Nonempty(KeptSheets(workbook.value, AcceptsSheet))
  {
    if !present then Err(Failure(FileNotFoundError, Plain(HydroNotFound + Str(file))))
    else if workbook.Err? then Err(workbook.error)
    else Nonempty(KeptSheets(workbook.value, AcceptsSheet))
  }

  /** `_load_hydro_data` of the second copy, which does not look for the file first. */
  function HydroDataUtils(workbook: Result<Workbook>): (r: Result<SheetTable>)
    ensures workbook.Err? ==> r == Err(workbook.error)
    ensures workbook.Ok? ==> r == Nonempty(KeptSheets(workbook.value, AcceptsSheetUtils))
  {
    if workbook.Err? then Err(workbook.error)
    else Nonempty(KeptSheets(workbook.value, AcceptsSheetUtils))
  }

  /** `_load_hydro_data` of the application package, with its loop. */
  method LoadHydroData(present: bool, file: Path, workbook: Result<Workbook>) returns (r: Result<SheetTable>)
    ensures r == HydroData(present, file, workbook)
  {
    if !present {
      return Err(Failure(FileNotFoundError, Plain(HydroNotFound + Str(file))));
    }
    if workbook.Err? {
      return Err(workbook.error);
    }
    var kept := FillHydroData(workbook.value, AcceptsSheet);
    if kept.Ok? && kept.value == map[] {
      return Raise(ValueError, NoValidSheets);
    }
    return kept;
  }

  /** `_load_hydro_data` of the second copy, with its loop. */
  method LoadHydroDataUtils(workbook: Result<Workbook>) returns (r: Result<SheetTable>)
    ensures r == HydroDataUtils(workbook)
  {
    if workbook.Err? {
      return Err(workbook.error);
    }
    var kept := FillHydroData(workbook.value, AcceptsSheetUtils);
    if kept.Ok? && kept.value == map[] {
      return Raise(ValueError, NoValidSheets);
    }
    return kept;
  }

  /** The two sheet checks agree: both accept exactly the sheets with a time and a year column. */
  lemma AcceptsSheetsAgree(name: string, f: Frame)
    ensures AcceptsSheet(name, f) == AcceptsSheetUtils(name, f)
    ensures AcceptsSheet(name, f) <==> TimeSeconds in f.columns && YearCol in f.columns
  {
    assert forall c :: c in HydroRequired <==> c in {TimeSeconds, YearCol};
  }

  /**
   * On a file that exists the two copies give the same hydrograph data or
   * the same error: the list check and the set check keep the same sheets.
   */
  lemma HydroCopiesAgree(file: Path, workbook: Result<Workbook>)
    ensures HydroData(true, file, workbook) == HydroDataUtils(workbook)
  {
    forall n, f ensures AcceptsSheet(n, f) == AcceptsSheetUtils(n, f) {
      AcceptsSheetsAgree(n, f);
    }
    if workbook.Ok? {
      KeptSheetsSame(workbook.value, AcceptsSheet, AcceptsSheetUtils);
    }
  }

  /**
   * What `_load_hydro_data` returns holds only `RM_` sheets that have the
   * time and year columns, each read from the workbook under its own name.
   */
  lemma HydroDataSheets(present: bool, file: Path, workbook: Result<Workbook>)
    ensures HydroData(present, file, workbook).Ok? ==>
      HydroData(present, file, workbook).value != map[] &&
      forall k :: k in HydroData(present, file, workbook).value ==>
        var f := HydroData(present, file, workbook).value[k];
        RiverMileSheet(k) && TimeSeconds in f.columns && YearCol in f.columns && (k, Ok(f)) in workbook.value
  {
    var r := HydroData(present, file, workbook);
    if present && workbook.Ok? && r.Ok? {
      KeptSheetsKeeps(workbook.value, AcceptsSheet);
      forall k | k in r.value
        ensures TimeSeconds in r.value[k].columns && YearCol in r.value[k].columns
      {
        AcceptsSheetsAgree(k, r.value[k]);
      }
    }
  }

  // ----- load_all_data -------------------------------------------------------

  /** `load_all_data`: the summary is loaded first, and its error wins. */
  function LoadAllData(summary: Result<Frame>, hydro: Result<SheetTable>): (r: Result<(Frame, SheetTable)>)
    ensures r.Ok? <==> summary.Ok? && hydro.Ok?
    ensures r.Ok? ==> r.value == (summary.value, hydro.value)
    ensures summary.Err? ==> r == Err(summary.error)
    ensures summary.Ok? && hydro.Err? ==> r == Err(hydro.error)
  {
    if summary.Err? then Err(summary.error)
    else if hydro.Err? then Err(hydro.error)
    else Ok((summary.value, hydro.value))
  }

  // ----- get_available_river_miles -------------------------------------------

  predicate NonDecreasing(s: seq<real>)
  {
    forall i, j :: 0 <= i < j < |s| ==> s[i] <= s[j]
  }

  /** `sorted(xs)`: the same numbers, duplicates kept, in ascending order. */
  function SortReals(xs: seq<real>): (r: seq<real>)
    ensures multiset(r) == multiset(xs)
    ensures NonDecreasing(r)
  {
    if xs == [] then []
    else
      assert xs == [xs[0]] + xs[1..];
      InsertSorted(xs[0], SortReals(xs[1..]))
  }

  function InsertSorted(x: real, s: seq<real>): (r: seq<real>)
    requires NonDecreasing(s)
    ensures multiset(r) == multiset(s) + multiset{x}
    ensures NonDecreasing(r)
    ensures r[0] == x || (s != [] && r[0] == s[0])
  {
    if s == [] || x <= s[0] then
      PrependLeast(x, s);
      [x] + s
    else
      var t := InsertSorted(x, s[1..]);
      assert s == [s[0]] + s[1..];
      PrependLeast(s[0], t);
      [s[0]] + t
  }

  lemma PrependLeast(x: real, s: seq<real>)
    requires NonDecreasing(s) && (s != [] ==> x <= s[0])
    ensures NonDecreasing([x] + s)
  {
    var r := [x] + s;
    forall i, j | 0 <= i < j < |r| ensures r[i] <= r[j] {
      if i > 0 { assert r[i] == s[i - 1] && r[j] == s[j - 1]; }
      else { assert r[j] == s[j - 1]; }
    }
  }

  /** The river mile a processed workbook's name carries, if its stem's second token parses. */
  function NameMile(name: string): Option<real>
  {
    MileOf(Paths.Stem(name))
  }

  /** The river mile of an `RM_*.xlsx` name, if it carries one. */
  function RmMile(name: string): Option<real>
  {
    if MatchesRmXlsx(name) then NameMile(name) else None
  }

  /** The values `pick` gives for the names, in order; names it gives nothing for are skipped. */
  function Picked<T>(names: seq<string>, pick: string -> Option<T>): (r: seq<T>)
    ensures |r| <= |names|
  {
    if names == [] then []
    else
      var init := Picked(names[..|names| - 1], pick);
      match pick(names[|names| - 1])
      case None => init
      case Some(v) => init + [v]
  }

  /** Each picked value comes from a name, and each name that gives a value gives it. */
  lemma {:induction false} PickedMembers<T>(names: seq<string>, pick: string -> Option<T>)
    ensures forall m :: m in Picked(names, pick) <==> exists n :: n in names && pick(n) == Some(m)
  {
    if names != [] {
      var init := names[..|names| - 1];
      var last := names[|names| - 1];
      PickedMembers(init, pick);
      assert names == init + [last];
      forall m ensures m in Picked(names, pick) <==> exists n :: n in names && pick(n) == Some(m) {
        if exists n :: n in names && pick(n) == Some(m) {
          var n :| n in names && pick(n) == Some(m);
          if n != last { assert n in init; }
        }
      }
    }
  }

  /** The river miles of the `RM_*.xlsx` names, in listing order; names that do not parse are skipped. */
  function ListedMiles(names: seq<string>): (r: seq<real>)
    ensures |r| <= |names|
  {
    Picked(names, RmMile)
  }

  /**
   * `get_available_river_miles`, given whether the directory exists and
   * the names `glob("RM_*.xlsx")` yields.
   */
  function AvailableRiverMiles(present: bool, dir: Path, listing: seq<string>): (r: Result<seq<real>>)
    ensures !present ==> r == Err(Failure(FileNotFoundError, Plain(ProcessedNotFound + Str(dir))))
    ensures present ==> r.Ok? && NonDecreasing(r.value) && multiset(r.value) == multiset(ListedMiles(listing))
  {
    if !present then Err(Failure(FileNotFoundError, Plain(ProcessedNotFound + Str(dir))))
    else Ok(SortReals(ListedMiles(listing)))
  }

  /** The loop of `get_available_river_miles`, then the sort. */
  method GetAvailableRiverMiles(present: bool, dir: Path, listing: seq<string>) returns (r: Result<seq<real>>)
    ensures r == AvailableRiverMiles(present, dir, listing)
  {
    if !present {
      return Err(Failure(FileNotFoundError, Plain(ProcessedNotFound + Str(dir))));
    }
    var riverMiles: seq<real> := [];
    var i := 0;
    while i < |listing|
      invariant 0 <= i <= |listing|
      invariant riverMiles == Picked(listing[..i], RmMile)
    {
      assert listing[..i + 1][..i] == listing[..i];
      assert listing[..i + 1][i] == listing[i];
      var name := listing[i];
      if MatchesRmXlsx(name) {
        var mile := NameMile(name);
        if mile.Some? {
          riverMiles := riverMiles + [mile.value];
        }
      }
      i := i + 1;
    }
    assert listing[..i] == listing;
    return Ok(SortReals(riverMiles));
  }

  /**
   * The river miles found are ascending, and a mile is among them exactly
   * when some `RM_*.xlsx` name carries it.
   */
  lemma AvailableRiverMilesSpec(dir: Path, listing: seq<string>)
    ensures AvailableRiverMiles(true, dir, listing).Ok?
    ensures NonDecreasing(AvailableRiverMiles(true, dir, listing).value)
    ensures forall m :: m in AvailableRiverMiles(true, dir, listing).value <==>
      exists n :: n in listing && MatchesRmXlsx(n) && NameMile(n) == Some(m)
  {
    PickedMembers(listing, RmMile);
    var r := AvailableRiverMiles(true, dir, listing).value;
    assert forall m :: m in r <==> m in multiset(r);
    assert forall m :: m in ListedMiles(listing) <==> m in multiset(ListedMiles(listing));
  }
}
