/**
 * The path utilities of the visualization package: the file-type, size and
 * workbook-structure checks, the search for the project root, the project
 * directories, the data paths and the backup name. What the file system
 * says about a path is an input.
 */
module PathSetup {
  import opened Errors
  import opened Strings
  import opened Frames
  import opened PurePath
  import Paths

  const MaxFileSize: nat := 1024 * 1024 * 100
  const AllowedExtensions: set<string> := {".xlsx", ".xls"}
  const DataDir: string := "data"
  const ProcessedDir: string := "data/processed"
  const RawDir: string := "data/raw"
  const OutputDir: string := "output"
  const RequiredDirectories: seq<string> := [DataDir, ProcessedDir, RawDir, OutputDir]
  const Markers: seq<string> := [".git", "pyproject.toml", "setup.py"]

  const MissingPrefix: string := "Missing "
  const TypePrefix: string := "Invalid file type for "
  const SizePrefix: string := "File too large: "
  const StructurePrefix: string := "Invalid Excel structure: "
  const NoRoot: string := "Could not find project root directory"
  const RootPrefix: string := "Error finding project root: "
  const SetupPrefix: string := "Failed to setup project structure: "

  // ----- Single-file checks --------------------------------------------------

  /** `validate_file_type`: the lower-cased suffix is `.xlsx` or `.xls`. */
  function ValidateFileType(p: Path): (ok: bool)
    ensures ok <==> Lower(Suffix(p)) == ".xlsx" || Lower(Suffix(p)) == ".xls"
  {
    Lower(Suffix(p)) in AllowedExtensions
  }

  /** An `RM_*.xlsx` name has the suffix `.xlsx`. */
  lemma RmNameSuffix(n: string)
    requires Paths.MatchesRmXlsx(n)
    ensures Paths.Suffix(n) == ".xlsx"
  {
    var k := |n| - 5;
    assert n[k..] == ".xlsx";
    assert n[k] == '.';
    assert forall i :: k < i < |n| ==> n[i] != '.' by {
      forall i | k < i < |n| ensures n[i] != '.' {
        assert n[i] == n[k..][i - k];
      }
    }
    assert Strings.RFind(n, '.') == k by {
      var j := Strings.RFind(n, '.');
      assert n[k] == '.' ==> j >= k;
    }
  }

  /** Every processed `RM_*.xlsx` workbook passes the type check. */
  lemma RmWorkbookType(dir: Path, n: string)
    requires Paths.MatchesRmXlsx(n)
    ensures ValidateFileType(Child(dir, n))
  {
    RmNameSuffix(n);
    assert Lower(".xlsx") == ".xlsx";
  }

  /** `check_file_size`, given the size `stat` reports, or `None` when `stat` fails. */
  function CheckFileSize(size: Option<nat>): (ok: bool)
    ensures ok <==> size.Some? && size.value <= 104857600
  {
    match size
    case None => false
    case Some(n) => n <= MaxFileSize
  }

  /** An opened workbook: each sheet's name and what reading its header row gives. */
  type Excel = Result<seq<(string, Result<seq<string>>)>>

  /** `validate_excel_structure`: the first sheet has a time and a year column; any failure is `False`. */
  function ValidateExcelStructure(excel: Excel): (ok: bool)
    ensures ok ==> excel.Ok? && excel.value != [] && excel.value[0].1.Ok?
    ensures excel.Ok? && excel.value != [] && excel.value[0].1.Ok? ==>
      (ok <==> TimeSeconds in excel.value[0].1.value && YearCol in excel.value[0].1.value)
  {
    if excel.Err? || excel.value == [] then false
    else
      match excel.value[0].1
      case Err(_) => false
      case Ok(columns) => forall c :: c in {TimeSeconds, YearCol} ==> c in columns
  }

  // ----- verify_files_exist --------------------------------------------------

  const CheckingPrefix: string := "Error checking "

  /** What the file system says about one path; `isFile` is an error when `is_file` raises. */
  datatype FileFacts = FileFacts(isFile: Result<bool>, size: Option<nat>, excel: Excel)

  /** All four checks pass. */
  predicate Passes(p: Path, facts: FileFacts)
  {
    facts.isFile == Ok(true) && ValidateFileType(p) && CheckFileSize(facts.size) &&
    ValidateExcelStructure(facts.excel)
  }

  /** The one error `verify_files_exist` records for a file: the first check it fails. */
  function FileError(p: Path, description: string, facts: FileFacts): (e: Option<Message>)
    ensures e.None? <==> Passes(p, facts)
    ensures facts.isFile.Err? ==> e == Some(Wrapping(CheckingPrefix + description + ": ", facts.isFile.error))
    ensures facts.isFile == Ok(false) ==> e == Some(Plain(MissingPrefix + description))
    ensures facts.isFile == Ok(true) && !ValidateFileType(p) ==> e == Some(Plain(TypePrefix + description))
    ensures facts.isFile == Ok(true) && ValidateFileType(p) && !CheckFileSize(facts.size) ==>
      e == Some(Plain(SizePrefix + description))
  {
    match facts.isFile
    case Err(x) => Some(Wrapping(CheckingPrefix + description + ": ", x))
    case Ok(isFile) =>
      if !isFile then Some(Plain(MissingPrefix + description))
      else if !ValidateFileType(p) then Some(Plain(TypePrefix + description))
      else if !CheckFileSize(facts.size) then Some(Plain(SizePrefix + description))
      else if !ValidateExcelStructure(facts.excel) then Some(Plain(StructurePrefix + description))
      else None
  }

  /** The files that fail, in order, each with its error. */
  function FileErrors(required: seq<(Path, string)>, fs: Path -> FileFacts): seq<Message>
  {
    if required == [] then []
    else
      var last := required[|required| - 1];
      var e := FileError(last.0, last.1, fs(last.0));
      FileErrors(required[..|required| - 1], fs) + (if e.Some? then [e.value] else [])
  }

  /** At most one error per file, and none exactly when every file passes. */
  lemma {:induction false} FileErrorsMeaning(required: seq<(Path, string)>, fs: Path -> FileFacts)
    ensures |FileErrors(required, fs)| <= |required|
    ensures FileErrors(required, fs) == [] <==> forall i :: 0 <= i < |required| ==> Passes(required[i].0, fs(required[i].0))
    decreases |required|
  {
    if required != [] {
      var n := |required| - 1;
      var init := required[..n];
      FileErrorsMeaning(init, fs);
      var e := FileErrorsLast(required, fs);
      if FileErrors(required, fs) == [] {
        AllPassSnoc(required, init, fs);
      } else if FileErrors(init, fs) != [] {
        var i :| 0 <= i < |init| && !Passes(init[i].0, fs(init[i].0));
        assert required[i] == init[i];
      }
    }
  }

  /** The last file's error, if any, follows those of the files before it. */
  lemma FileErrorsLast(required: seq<(Path, string)>, fs: Path -> FileFacts) returns (e: Option<Message>)
    requires required != []
    ensures e.None? <==> Passes(required[|required| - 1].0, fs(required[|required| - 1].0))
    ensures FileErrors(required, fs) == FileErrors(required[..|required| - 1], fs) + (if e.Some? then [e.value] else [])
  {
    var last := required[|required| - 1];
    e := FileError(last.0, last.1, fs(last.0));
  }

  /** Every file passes when those before the last one do and the last one does. */
  lemma AllPassSnoc(required: seq<(Path, string)>, init: seq<(Path, string)>, fs: Path -> FileFacts)
    requires required != [] && init == required[..|required| - 1]
    requires forall i :: 0 <= i < |init| ==> Passes(init[i].0, fs(init[i].0))
    requires Passes(required[|required| - 1].0, fs(required[|required| - 1].0))
    ensures forall i :: 0 <= i < |required| ==> Passes(required[i].0, fs(required[i].0))
  {
    forall i | 0 <= i < |init| ensures Passes(required[i].0, fs(required[i].0)) {
      assert init[i] == required[i];
    }
  }

  /** `verify_files_exist`: success and the errors, one per failing file. */
  method VerifyFilesExist(required: seq<(Path, string)>, fs: Path -> FileFacts) returns (success: bool, errors: seq<Message>)
    ensures errors == FileErrors(required, fs)
    ensures success <==> errors == []
    ensures success <==> forall i :: 0 <= i < |required| ==> Passes(required[i].0, fs(required[i].0))
  {
    errors := [];
    var i := 0;
    while i < |required|
      invariant 0 <= i <= |required|
      invariant errors == FileErrors(required[..i], fs)
    {
      assert required[..i + 1][..i] == required[..i];
      var e := FileError(required[i].0, required[i].1, fs(required[i].0));
      if e.Some? {
        errors := errors + [e.value];
      }
      i := i + 1;
    }
    assert required[..i] == required;
    FileErrorsMeaning(required, fs);
    success := |errors| == 0;
  }

  // ----- find_project_root ---------------------------------------------------

  /** One of the marker files is in `dir`. */
  predicate HasMarker(dir: Path, present: Path -> bool)
  {
    present(MarkerFile(dir, Markers[0])) || present(MarkerFile(dir, Markers[1])) || present(MarkerFile(dir, Markers[2]))
  }

  /** `dir / marker`, written out as the path one name below `dir`. */
  function MarkerFile(dir: Path, marker: string): Path
  {
    Path(dir.absolute, dir.names + [marker])
  }

  /** The marker file is the child of the directory of that name. */
  lemma MarkerFileIsChild(dir: Path, marker: string)
    ensures MarkerFile(dir, marker) == Child(dir, marker)
    ensures Parent(MarkerFile(dir, marker)) == dir && Name(MarkerFile(dir, marker)) == marker
  {
  }

  /** `dir` with only its first `k` names. */
  function Ancestor(dir: Path, k: nat): Path
    requires k <= |dir.names|
  {
    Path(dir.absolute, dir.names[..k])
  }

  /**
   * The walk up from `Ancestor(dir, k)`: the length of the first directory
   * with a name that holds a marker. A name-less directory ends the walk.
   */
  function RootAt(dir: Path, k: nat, present: Path -> bool): (r: Option<nat>)
    requires k <= |dir.names|
    ensures r.Some? ==> 0 < r.value <= k && HasMarker(Ancestor(dir, r.value), present)
    ensures r.Some? ==> forall j :: r.value < j <= k ==> !HasMarker(Ancestor(dir, j), present)
    decreases k
  {
    if k == 0 || dir.names[k - 1] == "" then None
    else if HasMarker(Ancestor(dir, k), present) then Some(k)
    else RootAt(dir, k - 1, present)
  }

  /** On a well-formed path the walk fails only when no directory above holds a marker. */
  lemma {:induction false} RootAtNone(dir: Path, k: nat, present: Path -> bool)
    requires k <= |dir.names| && WellFormed(dir)
    ensures RootAt(dir, k, present).None? <==> forall j :: 0 < j <= k ==> !HasMarker(Ancestor(dir, j), present)
    decreases k
  {
    if k > 0 {
      assert dir.names[k - 1] in dir.names;
      if HasMarker(Ancestor(dir, k), present) {
        assert RootAt(dir, k, present) == Some(k);
      } else {
        assert RootAt(dir, k, present) == RootAt(dir, k - 1, present);
        RootAtNone(dir, k - 1, present);
        match RootAt(dir, k - 1, present)
        case Some(r) =>
          assert HasMarker(Ancestor(dir, r), present);
        case None =>
          forall j | 0 < j <= k ensures !HasMarker(Ancestor(dir, j), present) {
            if j < k {
              assert 0 < j <= k - 1;
            }
          }
      }
    }
  }

  /** Past a named directory without a marker the walk goes on one level up. */
  lemma RootAtStep(dir: Path, k: nat, present: Path -> bool)
    requires 0 < k <= |dir.names| && dir.names[k - 1] != "" && !HasMarker(Ancestor(dir, k), present)
    ensures RootAt(dir, k, present) == RootAt(dir, k - 1, present)
  {
  }

  /** The name of `Ancestor(dir, k)` and its parent. */
  lemma AncestorStep(dir: Path, k: nat)
    requires 0 < k <= |dir.names|
    ensures Name(Ancestor(dir, k)) == dir.names[k - 1]
    ensures Parent(Ancestor(dir, k)) == Ancestor(dir, k - 1)
  {
    assert dir.names[..k][..k - 1] == dir.names[..k - 1];
  }

  /** The walk from the whole of `dir`, as a directory. */
  function RootFrom(dir: Path, present: Path -> bool): Option<Path>
  {
    match RootAt(dir, |dir.names|, present)
    case Some(k) => Some(Ancestor(dir, k))
    case None => None
  }

  /** `find_project_root`, starting three levels above the resolved module path. */
  function ProjectRoot(script: Path, present: Path -> bool): (r: Result<Path>)
  {
    match RootFrom(Parent(Parent(Parent(script))), present)
    case Some(root) => Ok(root)
    case None => Err(Failure(PathSetupError, Wrapping(RootPrefix, Failure(PathSetupError, Plain(NoRoot)))))
  }

  /** `find_project_root`: the loop that reassigns `current_dir`. */
  method FindProjectRoot(script: Path, present: Path -> bool) returns (r: Result<Path>)
    ensures r == ProjectRoot(script, present)
  {
    var start := Parent(Parent(Parent(script)));
    var current := start;
    ghost var k: nat := |start.names|;
    assert Ancestor(start, k) == start;
    while Name(current) != ""
      invariant k <= |start.names| && current == Ancestor(start, k)
      invariant RootAt(start, |start.names|, present) == RootAt(start, k, present)
      decreases k
    {
      AncestorStep(start, k);
      if HasMarker(current, present) {
        return Ok(current);
      }
      if Parent(current) == current {
        break;
      }
      RootAtStep(start, k, present);
      current := Parent(current);
      k := k - 1;
    }
    if k > 0 {
      AncestorStep(start, k);
    }
    r := Err(Failure(PathSetupError, Wrapping(RootPrefix, Failure(PathSetupError, Plain(NoRoot)))));
  }

  /** The walk finds the nearest marked directory at or above the start, and fails only when there is none. */
  lemma ProjectRootMeaning(script: Path, present: Path -> bool)
    requires WellFormed(script)
    ensures var start := Parent(Parent(Parent(script)));
      var r := ProjectRoot(script, present);
      (r.Ok? ==> exists k :: (0 < k <= |start.names| && r.value == Ancestor(start, k) &&
        HasMarker(r.value, present) && forall j :: k < j <= |start.names| ==> !HasMarker(Ancestor(start, j), present))) &&
      (r.Err? <==> forall j :: 0 < j <= |start.names| ==> !HasMarker(Ancestor(start, j), present))
  {
    var start := Parent(Parent(Parent(script)));
    RootAtNone(start, |start.names|, present);
  }

  /** A failed search is a `PathSetupError` wrapping the "not found" one. */
  lemma ProjectRootError(script: Path, present: Path -> bool)
    ensures ProjectRoot(script, present).Err? ==>
      ProjectRoot(script, present).error == Failure(PathSetupError, Wrapping(RootPrefix, Failure(PathSetupError, Plain(NoRoot))))
  {
  }

  // ----- setup_project_structure ---------------------------------------------

  /**
   * The loop over the required directories: each is joined to the root and
   * created, and a failed `mkdir` ends the loop with its error.
   */
  function Directories(root: Path, names: seq<string>, mkdir: Path -> Option<Failure>): (r: Result<map<string, Path>>)
    ensures r.Ok? ==> r.value.Keys == set n | n in names
    ensures r.Ok? ==> forall n :: n in r.value ==> r.value[n] == Div(root, n)
    ensures r.Ok? <==> forall i :: 0 <= i < |names| ==> mkdir(Div(root, names[i])).None?
  {
    if names == [] then Ok(map[])
    else
      var init := names[..|names| - 1];
      var last := names[|names| - 1];
      assert names == init + [last];
      assert forall i :: 0 <= i < |init| ==> init[i] == names[i];
      match Directories(root, init, mkdir)
      case Err(e) => Err(e)
      case Ok(m) =>
        var d := Div(root, last);
        match mkdir(d)
        case Some(e) => Err(e)
        case None => Ok(m[last := d])
  }

  /** `setup_project_structure`'s result as a value. */
  function ProjectStructure(script: Path, present: Path -> bool, mkdir: Path -> Option<Failure>): (r: Result<map<string, Path>>)
  {
    match ProjectRoot(script, present)
    case Err(e) => Err(Failure(PathSetupError, Wrapping(SetupPrefix, e)))
    case Ok(root) =>
      match Directories(root, RequiredDirectories, mkdir)
      case Err(e) => Err(Failure(PathSetupError, Wrapping(SetupPrefix, e)))
      case Ok(m) => Ok(m)
  }

  /**
   * `setup_project_structure`: the directories below the project root,
   * keyed by their relative names; any failure is re-raised as a
   * `PathSetupError`.
   */
  method SetupProjectStructure(script: Path, present: Path -> bool, mkdir: Path -> Option<Failure>)
    returns (r: Result<map<string, Path>>)
    ensures r == ProjectStructure(script, present, mkdir)
  {
    var root := FindProjectRoot(script, present);
    if root.Err? {
      return Err(Failure(PathSetupError, Wrapping(SetupPrefix, root.error)));
    }
    var directories := MakeDirectories(root.value, RequiredDirectories, mkdir);
    if directories.Err? {
      return Err(Failure(PathSetupError, Wrapping(SetupPrefix, directories.error)));
    }
    r := directories;
  }

  /** The loop of `setup_project_structure` that fills `directories`. */
  method MakeDirectories(root: Path, names: seq<string>, mkdir: Path -> Option<Failure>)
    returns (r: Result<map<string, Path>>)
    ensures r == Directories(root, names, mkdir)
  {
    var directories: map<string, Path> := map[];
    var i := 0;
    while i < |names|
      invariant 0 <= i <= |names|
      invariant Directories(root, names[..i], mkdir) == Ok(directories)
    {
      assert names[..i + 1][..i] == names[..i];
      var dirPath := Div(root, names[i]);
      var failed := mkdir(dirPath);
      if failed.Some? {
        DirectoriesErrStays(root, names, i + 1, mkdir);
        return Err(failed.value);
      }
      directories := directories[names[i] := dirPath];
      i := i + 1;
    }
    assert names[..i] == names;
    r := Ok(directories);
  }

  /** Once the loop over a prefix fails, the whole loop fails with the same error. */
  lemma {:induction false} DirectoriesErrStays(root: Path, names: seq<string>, i: nat, mkdir: Path -> Option<Failure>)
    requires i <= |names| && Directories(root, names[..i], mkdir).Err?
    ensures Directories(root, names, mkdir) == Directories(root, names[..i], mkdir)
    decreases |names| - i
  {
    if i < |names| {
      var longer := names[..i + 1];
      assert longer[..|longer| - 1] == names[..i];
      DirectoriesErrSnoc(root, longer, mkdir);
      DirectoriesErrStays(root, names, i + 1, mkdir);
    } else {
      assert names[..i] == names;
    }
  }

  /** A failure before the last name is the failure of the whole loop. */
  lemma DirectoriesErrSnoc(root: Path, names: seq<string>, mkdir: Path -> Option<Failure>)
    requires names != [] && Directories(root, names[..|names| - 1], mkdir).Err?
    ensures Directories(root, names, mkdir) == Directories(root, names[..|names| - 1], mkdir)
  {
  }

  /** The directory map has exactly the four required names, each below the root. */
  lemma ProjectStructureKeys(script: Path, present: Path -> bool, mkdir: Path -> Option<Failure>)
    ensures var r := ProjectStructure(script, present, mkdir);
      r.Ok? ==> (ProjectRoot(script, present).Ok? && Below(ProjectRoot(script, present).value, r.value))
  {
  }

  /** `dirs` holds exactly the required directories, each joined to `root`. */
  ghost predicate Below(root: Path, dirs: map<string, Path>)
  {
    (forall n :: n in dirs <==> n in RequiredDirectories) &&
    forall n :: n in dirs ==> dirs[n] == Div(root, n)
  }

  // ----- get_data_paths ------------------------------------------------------

  const RmWorkbook: string := "RM_54.0.xlsx"
  const SummaryWorkbook: string := "Data_Summary.xlsx"
  const HydroWorkbook: string := "Hydrograph_Seatek_Data.xlsx"
  const RmDescription: string := "River Mile data file"
  const SummaryDescription: string := "Summary data file"
  const HydroDescription: string := "Hydrograph data file"

  /** The three data files, in the order `get_data_paths` returns them. */
  function DataFiles(dirs: map<string, Path>): (r: Option<(Path, Path, Path)>)
    ensures r.Some? <==> ProcessedDir in dirs && RawDir in dirs
  {
    if ProcessedDir in dirs && RawDir in dirs then
      Some((Child(dirs[ProcessedDir], RmWorkbook), Child(dirs[RawDir], SummaryWorkbook),
        Child(dirs[RawDir], HydroWorkbook)))
    else None
  }

  /** The three files with the descriptions `verify_files_exist` reports them by. */
  function Described(files: (Path, Path, Path)): seq<(Path, string)>
  {
    [(files.0, RmDescription), (files.1, SummaryDescription), (files.2, HydroDescription)]
  }

  /** What `get_data_paths` does with the directory map, or with the failure to make it. */
  function DataPathsFrom(directories: Result<map<string, Path>>, fs: Path -> FileFacts, accessible: Path -> bool)
    : (r: Option<(Path, Path, Path)>)
  {
    match directories
    case Err(_) => None
    case Ok(dirs) =>
      match DataFiles(dirs)
      case None => None
      case Some(files) =>
        if FileErrors(Described(files), fs) != [] then None
        else if !accessible(files.0) || !accessible(files.1) || !accessible(files.2) then None
        else Some(files)
  }

  /** `get_data_paths` as a value; `accessible` stands for `check_file_accessibility`. */
  function DataPaths(script: Path, present: Path -> bool, mkdir: Path -> Option<Failure>, fs: Path -> FileFacts,
                     accessible: Path -> bool): (r: Option<(Path, Path, Path)>)
  {
    DataPathsFrom(ProjectStructure(script, present, mkdir), fs, accessible)
  }

  /** `get_data_paths`: the three files, or `None` when any step fails. */
  method GetDataPaths(script: Path, present: Path -> bool, mkdir: Path -> Option<Failure>, fs: Path -> FileFacts,
                      accessible: Path -> bool) returns (r: Option<(Path, Path, Path)>)
    ensures r == DataPaths(script, present, mkdir, fs, accessible)
  {
    var directories := SetupProjectStructure(script, present, mkdir);
    r := CheckDataFiles(directories, fs, accessible);
  }

  /** The part of `get_data_paths` after the directories are set up: the file checks, then the access loop. */
  method CheckDataFiles(directories: Result<map<string, Path>>, fs: Path -> FileFacts, accessible: Path -> bool)
    returns (r: Option<(Path, Path, Path)>)
    ensures r == DataPathsFrom(directories, fs, accessible)
  {
    if directories.Err? {
      return None;
    }
    var files := DataFiles(directories.value);
    if files.None? {
      return None;
    }
    var success, errors := VerifyFilesExist(Described(files.value), fs);
    if !success {
      return None;
    }
    var order := [files.value.0, files.value.1, files.value.2];
    var readable := AllAccessible(order, accessible);
    if !readable {
      ghost var j :| 0 <= j < |order| && !accessible(order[j]);
      assert j == 0 || j == 1 || j == 2;
      return None;
    }
    assert accessible(order[0]) && accessible(order[1]) && accessible(order[2]);
    r := files;
  }

  /** The access loop of `get_data_paths`: it stops at the first file that cannot be read. */
  method AllAccessible(order: seq<Path>, accessible: Path -> bool) returns (ok: bool)
    ensures ok <==> forall j :: 0 <= j < |order| ==> accessible(order[j])
  {
    var i := 0;
    while i < |order|
      invariant 0 <= i <= |order|
      invariant forall j :: 0 <= j < i ==> accessible(order[j])
    {
      if !accessible(order[i]) {
        return false;
      }
      i := i + 1;
    }
    return true;
  }

  /** A result means every check passed: the directories, the four file checks and access, in that order. */
  lemma DataPathsMeaning(script: Path, present: Path -> bool, mkdir: Path -> Option<Failure>, fs: Path -> FileFacts,
                         accessible: Path -> bool)
    ensures var r := DataPaths(script, present, mkdir, fs, accessible);
      r.Some? <==> (ProjectStructure(script, present, mkdir).Ok? &&
        DataFiles(ProjectStructure(script, present, mkdir).value).Some? &&
        var files := DataFiles(ProjectStructure(script, present, mkdir).value).value;
        (forall i :: 0 <= i < 3 ==> Passes(Described(files)[i].0, fs(Described(files)[i].0))) &&
        accessible(files.0) && accessible(files.1) && accessible(files.2) && r == Some(files))
  {
    var r := DataPaths(script, present, mkdir, fs, accessible);
    var s := ProjectStructure(script, present, mkdir);
    if s.Ok? && DataFiles(s.value).Some? {
      FileErrorsMeaning(Described(DataFiles(s.value).value), fs);
    }
  }

  const DataName: string := "data"
  const ProcessedName: string := "processed"
  const RawName: string := "raw"

  /** `root / "data/processed"` is `root / "data" / "processed"`. */
  lemma ProcessedBelow(root: Path, dirs: map<string, Path>)
    requires Below(root, dirs)
    ensures ProcessedDir in dirs && dirs[ProcessedDir] == Child(Child(root, DataName), ProcessedName)
  {
    assert RequiredDirectories[1] == ProcessedDir;
    assert ProcessedDir == DataName + "/" + ProcessedName;
    DivTwo(root, DataName, ProcessedName);
  }

  /** `root / "data/raw"` is `root / "data" / "raw"`. */
  lemma RawBelow(root: Path, dirs: map<string, Path>)
    requires Below(root, dirs)
    ensures RawDir in dirs && dirs[RawDir] == Child(Child(root, DataName), RawName)
  {
    assert RequiredDirectories[2] == RawDir;
    assert RawDir == DataName + "/" + RawName;
    DivTwo(root, DataName, RawName);
  }

  /** The data files of a directory map with the required layout sit in the processed and raw directories. */
  lemma DataFilesBelow(root: Path, dirs: map<string, Path>)
    requires Below(root, dirs)
    ensures DataFiles(dirs).Some?
    ensures DataFiles(dirs).value.0 == Child(Child(Child(root, DataName), ProcessedName), RmWorkbook)
    ensures DataFiles(dirs).value.1 == Child(Child(Child(root, DataName), RawName), SummaryWorkbook)
    ensures DataFiles(dirs).value.2 == Child(Child(Child(root, DataName), RawName), HydroWorkbook)
  {
    ProcessedBelow(root, dirs);
    RawBelow(root, dirs);
    WorkbookNames();
    DivName(dirs[ProcessedDir], RmWorkbook);
    DivName(dirs[RawDir], SummaryWorkbook);
    DivName(dirs[RawDir], HydroWorkbook);
  }

  /** The paths `get_data_paths` returns sit in the processed and raw data directories below the project root. */
  lemma DataPathsLayout(script: Path, present: Path -> bool, mkdir: Path -> Option<Failure>, fs: Path -> FileFacts,
                        accessible: Path -> bool)
    requires DataPaths(script, present, mkdir, fs, accessible).Some?
    ensures ProjectRoot(script, present).Ok?
    ensures var files := DataPaths(script, present, mkdir, fs, accessible).value;
      var root := ProjectRoot(script, present).value;
      files.0 == Child(Child(Child(root, DataName), ProcessedName), RmWorkbook) &&
      files.1 == Child(Child(Child(root, DataName), RawName), SummaryWorkbook) &&
      files.2 == Child(Child(Child(root, DataName), RawName), HydroWorkbook)
  {
    ProjectStructureKeys(script, present, mkdir);
    DataFilesBelow(ProjectRoot(script, present).value, ProjectStructure(script, present, mkdir).value);
  }

  /** The workbook names are single path components. */
  lemma WorkbookNames()
    ensures IsName(RmWorkbook) && '/' !in RmWorkbook
    ensures IsName(SummaryWorkbook) && '/' !in SummaryWorkbook
    ensures IsName(HydroWorkbook) && '/' !in HydroWorkbook
  {
  }

  // ----- create_backup -------------------------------------------------------

  /** `create_backup`'s target: `{stem}_backup{suffix}` beside the file. */
  function BackupPath(p: Path): Path
  {
    Div(Parent(p), Stem(p) + "_backup" + Suffix(p))
  }

  /** The backup sits in the same directory, is named `{stem}_backup{suffix}`, and never replaces the file itself. */
  lemma BackupNaming(p: Path)
    requires WellFormed(p)
    ensures Parent(BackupPath(p)) == Parent(p)
    ensures Name(BackupPath(p)) == Stem(p) + "_backup" + Suffix(p)
    ensures BackupPath(p) != p
  {
    var n := Stem(p) + "_backup" + Suffix(p);
    Paths.StemThenSuffix(Name(p));
    assert '/' !in n by {
      if p.names != [] {
        assert Name(p) in p.names;
        assert forall c :: c in Stem(p) ==> c in Name(p);
        assert forall c :: c in Suffix(p) ==> c in Name(p);
      }
    }
    assert n[0] in n;
    DivName(Parent(p), n);
    assert |n| == |Name(p)| + 7;
  }

  /** `create_backup`: the backup path when the copy succeeds, else `None`. */
  function CreateBackup(p: Path, copied: bool): (r: Option<Path>)
    ensures r.Some? <==> copied
    ensures r.Some? ==> r.value == BackupPath(p)
  {
    if copied then Some(BackupPath(p)) else None
  }
}
