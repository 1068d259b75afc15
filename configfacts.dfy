/**
 * `Config.from_dict` on the caller's dictionary, and the facts about the
 * configuration that follow from `Config`'s definitions.
 */
module ConfigFacts {
  import opened Errors
  import opened PurePath
  import opened Configuration

  /** `base / "data"` */
  lemma DataDirLayout(base: Path, navd: NavdConstants, chart: ChartSettings)
    ensures MakeConfig(base, navd, chart).dataDir == Div(base, "data")
  {
    DivName(base, "data");
  }

  /** `base / "data/raw"` */
  lemma RawDataDirLayout(base: Path, navd: NavdConstants, chart: ChartSettings)
    ensures MakeConfig(base, navd, chart).rawDataDir == Div(base, "data/raw")
  {
    assert "data" + "/" + "raw" == "data/raw";
    DivTwo(base, "data", "raw");
  }

  /** `base / "data/processed"` */
  lemma ProcessedDirLayout(base: Path, navd: NavdConstants, chart: ChartSettings)
    ensures MakeConfig(base, navd, chart).processedDir == Div(base, "data/processed")
  {
    assert "data" + "/" + "processed" == "data/processed";
    DivTwo(base, "data", "processed");
  }

  /** `base / "output/charts"` */
  lemma OutputDirLayout(base: Path, navd: NavdConstants, chart: ChartSettings)
    ensures MakeConfig(base, navd, chart).outputDir == Div(base, "output/charts")
  {
    assert "output" + "/" + "charts" == "output/charts";
    DivTwo(base, "output", "charts");
  }

  /**
   * `from_dict` succeeds exactly when its three values are usable; it then
   * takes each part from its own key and removes exactly the three keys. A
   * bad `navd88_constants` fails with only that key popped.
   */
  lemma FromDictResult(entries: map<string, Value>, cwd: Path)
    ensures Navd(Popped(entries, "navd88_constants", Kwargs(map[]))).Err? ==>
      FromDictOf(entries, cwd) == (Err(Navd(Popped(entries, "navd88_constants", Kwargs(map[]))).error), entries - {"navd88_constants"})
    ensures FromDictOf(entries, cwd).0.Ok? <==>
      Navd(Popped(entries, "navd88_constants", Kwargs(map[]))).Ok? &&
      Chart(Popped(entries, "chart_settings", Kwargs(map[]))).Ok? &&
      BaseDir(Popped(entries, "base_dir", NoneValue), cwd).Ok?
    ensures FromDictOf(entries, cwd).0.Ok? ==> (FromDictOf(entries, cwd) ==
      (Ok(MakeConfig(BaseDir(Popped(entries, "base_dir", NoneValue), cwd).value,
                     Navd(Popped(entries, "navd88_constants", Kwargs(map[]))).value,
                     Chart(Popped(entries, "chart_settings", Kwargs(map[]))).value)),
       entries - {"navd88_constants", "chart_settings", "base_dir"}))
  {
    var e1 := entries - {"navd88_constants"};
    var e2 := e1 - {"chart_settings"};
    assert e2 - {"base_dir"} == entries - {"navd88_constants", "chart_settings", "base_dir"};
  }

  /** The dictionary the caller hands to `from_dict`, which it changes. */
  class ConfigDict {
    var entries: map<string, Value>

    constructor (entries: map<string, Value>)
      ensures this.entries == entries
    {
      this.entries := entries;
    }

    /** `d.pop(key, default)` */
    method Pop(key: string, default: Value) returns (v: Value)
      modifies this
      ensures v == Popped(old(entries), key, default)
      ensures entries == old(entries) - {key}
    {
      v := if key in entries then entries[key] else default;
      entries := entries - {key};
    }
  }

  /** `Config.from_dict(d)`, popping its keys out of `d` in order. */
  method FromDict(d: ConfigDict, cwd: Path) returns (r: Result<Config>)
    modifies d
    ensures (r, d.entries) == FromDictOf(old(d.entries), cwd)
  {
    ghost var e0 := d.entries;
    var navdValue := d.Pop("navd88_constants", Kwargs(map[]));
    var navd := Navd(navdValue);
    if navd.Err? {
      return Err(navd.error);
    }
    var chartValue := d.Pop("chart_settings", Kwargs(map[]));
    var chart := Chart(chartValue);
    if chart.Err? {
      return Err(chart.error);
    }
    var baseValue := d.Pop("base_dir", NoneValue);
    var base := BaseDir(baseValue, cwd);
    if base.Err? {
      return Err(base.error);
    }
    assert (Ok(MakeConfig(base.value, navd.value, chart.value)), d.entries) == FromDictOf(e0, cwd);
    return Ok(MakeConfig(base.value, navd.value, chart.value));
  }

  /**
   * A dictionary without the three keys gives the defaults and the working
   * directory, and is left as it was.
   */
  lemma FromDictDefaults(entries: map<string, Value>, cwd: Path)
    requires "navd88_constants" !in entries && "chart_settings" !in entries && "base_dir" !in entries
    ensures FromDictOf(entries, cwd) == (Ok(MakeConfig(cwd, DefaultNavd, DefaultChart)), entries)
  {
    assert !Truthy(Kwargs(map[])) && !Truthy(NoneValue);
    assert Navd(Popped(entries, "navd88_constants", Kwargs(map[]))) == Ok(DefaultNavd);
    assert Chart(Popped(entries, "chart_settings", Kwargs(map[]))) == Ok(DefaultChart);
    assert BaseDir(Popped(entries, "base_dir", NoneValue), cwd) == Ok(cwd);
    FromDictResult(entries, cwd);
    assert entries - {"navd88_constants", "chart_settings", "base_dir"} == entries;
  }

  /** Empty sections give the defaults; given keys override their fields and keep the others. */
  lemma FromDictOverrides(navdArgs: map<string, Value>, base: string, cwd: Path)
    requires navdArgs != map[] && navdArgs.Keys <= NavdFields && base != ""
    ensures var entries := map["navd88_constants" := Kwargs(navdArgs), "chart_settings" := Kwargs(map[]), "base_dir" := Str(base)];
      var r := FromDictOf(entries, cwd);
      r.0.Ok? && r.1 == map[] &&
      r.0.value.baseDir == Parse(base) && r.0.value.chart == DefaultChart &&
      r.0.value.navd.offsetA == Arg(navdArgs, "offset_a", Float(1.9)) &&
      r.0.value.navd.offsetB == Arg(navdArgs, "offset_b", Float(0.32)) &&
      r.0.value.navd.scaleFactor == Arg(navdArgs, "scale_factor", Float(400.0 / 30.48))
  {
    var entries := map["navd88_constants" := Kwargs(navdArgs), "chart_settings" := Kwargs(map[]), "base_dir" := Str(base)];
    assert entries - {"navd88_constants", "chart_settings", "base_dir"} == map[];
    assert Truthy(Kwargs(navdArgs));
  }

  /** A wrong section fails before the later keys are popped. */
  lemma FromDictStopsAtNavd(entries: map<string, Value>, cwd: Path)
    requires "navd88_constants" in entries && entries["navd88_constants"] == Int(1)
    requires "chart_settings" in entries
    ensures FromDictOf(entries, cwd).0.Err?
    ensures "chart_settings" in FromDictOf(entries, cwd).1
    ensures "navd88_constants" !in FromDictOf(entries, cwd).1
  {
  }
}
