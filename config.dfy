/**
 * The configuration records of the application package: the NAVD88
 * conversion constants, the chart settings, the directory layout derived
 * from a base directory, and `Config.from_dict`, which pops its three keys
 * out of the caller's dictionary.
 */
module Configuration {
  import opened Errors
  import opened Strings
  import opened PurePath

  /**
   * A value in a configuration dictionary. Dataclasses do not check the
   * types of their fields, so a record keeps whatever value it is given.
   */
  datatype Value =
    | Float(x: real)
    | Int(n: int)
    | Str(s: string)
    | IntPair(a: int, b: int)
    | Kwargs(args: map<string, Value>)
    | NoneValue

  /** Python truthiness: zero, empty and `None` are false; a pair never is. */
  predicate Truthy(v: Value)
  {
    match v
    case Float(x) => x != 0.0
    case Int(n) => n != 0
    case Str(s) => s != ""
    case IntPair(_, _) => true
    case Kwargs(args) => args != map[]
    case NoneValue => false
  }

  /** `type(v).__name__` */
  function TypeName(v: Value): string
  {
    match v
    case Float(_) => "float"
    case Int(_) => "int"
    case Str(_) => "str"
    case IntPair(_, _) => "tuple"
    case Kwargs(_) => "dict"
    case NoneValue => "NoneType"
  }

  datatype NavdConstants = NavdConstants(offsetA: Value, offsetB: Value, scaleFactor: Value)

  datatype ChartSettings = ChartSettings(dpi: Value, figureSize: Value, fontFamily: Value, fontSize: Value)

  const DefaultNavd := NavdConstants(Float(1.9), Float(0.32), Float(400.0 / 30.48))

  const DefaultChart := ChartSettings(Int(300), IntPair(12, 8), Str("Arial"), Int(11))

  const NavdFields: set<string> := {"offset_a", "offset_b", "scale_factor"}

  const ChartFields: set<string> := {"dpi", "figure_size", "font_family", "font_size"}

  const NavdUnexpected: string := "NavdConstants.__init__() got an unexpected keyword argument "
  const ChartUnexpected: string := "ChartSettings.__init__() got an unexpected keyword argument "
  const NavdNotMapping: string := "NavdConstants() argument after ** must be a mapping, not "
  const ChartNotMapping: string := "ChartSettings() argument after ** must be a mapping, not "
  const NotPathLike: string := "expected str, bytes or os.PathLike object, not "

  /** A keyword argument, or the field's default when it is not given. */
  function Arg(args: map<string, Value>, key: string, default: Value): (v: Value)
    ensures key in args ==> v == args[key]
    ensures key !in args ==> v == default
  {
    if key in args then args[key] else default
  }

  /** The names among `args` that are not fields. */
  function Unexpected(args: map<string, Value>, fields: set<string>): (u: set<string>)
    ensures forall k :: k in u <==> k in args && k !in fields
  {
    set k | k in args && k !in fields
  }

  /** `NavdConstants(**args)` */
  function NavdWith(args: map<string, Value>): (r: Result<NavdConstants>)
    ensures r.Ok? <==> forall k :: k in args ==> k in NavdFields
    ensures r.Err? ==> (r.error.kind == TypeError &&
      r.error.msg == WithSet(NavdUnexpected, Unexpected(args, NavdFields)))
    ensures r.Ok? ==> r.value.offsetA == Arg(args, "offset_a", DefaultNavd.offsetA)
    ensures r.Ok? ==> r.value.offsetB == Arg(args, "offset_b", DefaultNavd.offsetB)
    ensures r.Ok? ==> r.value.scaleFactor == Arg(args, "scale_factor", DefaultNavd.scaleFactor)
  {
    var u := Unexpected(args, NavdFields);
    if u != {} then
      Err(Failure(TypeError, WithSet(NavdUnexpected, u)))
    else
      Ok(NavdConstants(Arg(args, "offset_a", DefaultNavd.offsetA), Arg(args, "offset_b", DefaultNavd.offsetB),
        Arg(args, "scale_factor", DefaultNavd.scaleFactor)))
  }

  /** `ChartSettings(**args)` */
  function ChartWith(args: map<string, Value>): (r: Result<ChartSettings>)
    ensures r.Ok? <==> forall k :: k in args ==> k in ChartFields
    ensures r.Err? ==> (r.error.kind == TypeError &&
      r.error.msg == WithSet(ChartUnexpected, Unexpected(args, ChartFields)))
    ensures r.Ok? ==> r.value.dpi == Arg(args, "dpi", DefaultChart.dpi)
    ensures r.Ok? ==> r.value.figureSize == Arg(args, "figure_size", DefaultChart.figureSize)
    ensures r.Ok? ==> r.value.fontFamily == Arg(args, "font_family", DefaultChart.fontFamily)
    ensures r.Ok? ==> r.value.fontSize == Arg(args, "font_size", DefaultChart.fontSize)
  {
    var u := Unexpected(args, ChartFields);
    if u != {} then
      Err(Failure(TypeError, WithSet(ChartUnexpected, u)))
    else
      Ok(ChartSettings(Arg(args, "dpi", DefaultChart.dpi), Arg(args, "figure_size", DefaultChart.figureSize),
        Arg(args, "font_family", DefaultChart.fontFamily), Arg(args, "font_size", DefaultChart.fontSize)))
  }

  /** `Cls(**v)` applied to a popped value: a false one gives the defaults. */
  function Navd(v: Value): (r: Result<NavdConstants>)
    ensures !Truthy(v) ==> r == Ok(DefaultNavd)
    ensures Truthy(v) && !v.Kwargs? ==>
      r == Err(Failure(TypeError, Plain(NavdNotMapping + TypeName(v))))
    ensures Truthy(v) && v.Kwargs? ==> r == NavdWith(v.args)
  {
    if !Truthy(v) then Ok(DefaultNavd)
    else if !v.Kwargs? then Err(Failure(TypeError, Plain(NavdNotMapping + TypeName(v))))
    else NavdWith(v.args)
  }

  function Chart(v: Value): (r: Result<ChartSettings>)
    ensures !Truthy(v) ==> r == Ok(DefaultChart)
    ensures Truthy(v) && !v.Kwargs? ==>
      r == Err(Failure(TypeError, Plain(ChartNotMapping + TypeName(v))))
    ensures Truthy(v) && v.Kwargs? ==> r == ChartWith(v.args)
  {
    if !Truthy(v) then Ok(DefaultChart)
    else if !v.Kwargs? then Err(Failure(TypeError, Plain(ChartNotMapping + TypeName(v))))
    else ChartWith(v.args)
  }

  /** `Path(base_dir)` for a true `base_dir`, or the working directory for a false one. */
  function BaseDir(v: Value, cwd: Path): (r: Result<Path>)
    ensures !Truthy(v) ==> r == Ok(cwd)
    ensures Truthy(v) && v.Str? ==> r == Ok(Parse(v.s))
    ensures Truthy(v) && !v.Str? ==>
      r == Err(Failure(TypeError, Plain(NotPathLike + TypeName(v))))
  {
    if !Truthy(v) then Ok(cwd)
    else if v.Str? then Ok(Parse(v.s))
    else Err(Failure(TypeError, Plain(NotPathLike + TypeName(v))))
  }

  /** A `Config` after `__post_init__`. */
  datatype Config = Config(
    baseDir: Path,
    dataDir: Path,
    rawDataDir: Path,
    processedDir: Path,
    outputDir: Path,
    summaryFile: Path,
    hydroFile: Path,
    navd: NavdConstants,
    chart: ChartSettings)

  /**
   * `Config(base_dir, navd88_constants, chart_settings)`: the data
   * directories below the base, the charts below `output`, and the two
   * workbooks in the raw data directory.
   */
  function MakeConfig(base: Path, navd: NavdConstants, chart: ChartSettings): (c: Config)
    ensures c.baseDir == base && c.navd == navd && c.chart == chart
    ensures Parent(c.dataDir) == base && Parent(c.rawDataDir) == c.dataDir && Parent(c.processedDir) == c.dataDir
    ensures Parent(c.summaryFile) == c.rawDataDir && Parent(c.hydroFile) == c.rawDataDir
    ensures Name(c.summaryFile) == "Data_Summary.xlsx" && Name(c.hydroFile) == "Hydrograph_Seatek_Data.xlsx"
    ensures Name(c.outputDir) == "charts" && Parent(Parent(c.outputDir)) == base
  {
    var data := Child(base, "data");
    var raw := Child(data, "raw");
    Config(base, data, raw, Child(data, "processed"), Child(Child(base, "output"), "charts"),
      Child(raw, "Data_Summary.xlsx"), Child(raw, "Hydrograph_Seatek_Data.xlsx"), navd, chart)
  }

  /** `Config()`: the base is `HYDROGRAPH_BASE_DIR` when it is set, else the working directory. */
  function DefaultConfig(env: Option<string>, cwd: Path): (c: Config)
    ensures env.Some? ==> c.baseDir == Parse(env.value)
    ensures env.None? ==> c.baseDir == cwd
    ensures c.navd == DefaultNavd && c.chart == DefaultChart
  {
    MakeConfig(if env.Some? then Parse(env.value) else cwd, DefaultNavd, DefaultChart)
  }

  /** `d.pop(key, NoneValue)`'s value. */
  function Popped(entries: map<string, Value>, key: string, default: Value): Value
  {
    if key in entries then entries[key] else default
  }

  /**
   * `from_dict`: the configuration, or the exception it raises, and the
   * caller's dictionary afterwards. The keys are popped one at a time, so a
   * failure leaves the keys after the failing one in place.
   */
  function FromDictOf(entries: map<string, Value>, cwd: Path): (r: (Result<Config>, map<string, Value>))
  {
    var e1 := entries - {"navd88_constants"};
    match Navd(Popped(entries, "navd88_constants", Kwargs(map[])))
    case Err(e) => (Err(e), e1)
    case Ok(navd) =>
      var e2 := e1 - {"chart_settings"};
      match Chart(Popped(entries, "chart_settings", Kwargs(map[])))
      case Err(e) => (Err(e), e2)
      case Ok(chart) =>
        var e3 := e2 - {"base_dir"};
        assert e3 == entries - {"navd88_constants", "chart_settings", "base_dir"};
        match BaseDir(Popped(entries, "base_dir", NoneValue), cwd)
        case Err(e) => (Err(e), e3)
        case Ok(base) => (Ok(MakeConfig(base, navd, chart)), e3)
  }
}
