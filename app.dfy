/**
 * The packaged application: `Application.process_data` runs one chart job
 * per river mile, sensor and year and counts successes and errors, `run`
 * chains setup, loading and processing and stops at the first stage that
 * fails, and `main` turns the outcome into an exit status. The river-mile
 * processor, the chart generator and the file system are collaborators
 * given as functions.
 */
module App {
  import opened Errors
  import opened Frames
  import opened Paths
  import opened Jobs

  /** What the processor holds for one river mile: `river_mile`, `sensors`, `data`. */
  datatype RmData = RmData(riverMile: real, sensors: seq<string>, data: Frame)

  /** One job of `process_data`. */
  datatype AppJob = AppJob(riverMile: real, year: Cell, sensor: string)

  const YearsUnorderable := Failure(TypeError, Plain("'<' not supported between instances of 'str' and 'int'"))

  /** `sorted(rm_data.data['Year'].unique())`, or what it raises. */
  function YearsOf(rm: RmData): (r: Result<seq<Cell>>)
    ensures r.Ok? <==> YearCol in rm.data.columns && Orderable(Column(rm.data.rows, YearCol))
    ensures YearCol !in rm.data.columns ==> r == Err(Failure(KeyError, Plain(YearCol)))
    ensures r.Err? && YearCol in rm.data.columns ==> r.error == YearsUnorderable
    ensures r.Ok? ==> YearsIncreasing(r.value)
    ensures r.Ok? ==> forall y :: y in r.value <==> y in Column(rm.data.rows, YearCol) && (y.Num? || y.Text?)
  {
    if YearCol !in rm.data.columns then Err(Failure(KeyError, Plain(YearCol)))
    else
      match LoopYears(rm.data.rows)
      case None => Err(YearsUnorderable)
      case Some(ys) => Ok(ys)
  }

  /** The jobs of one sensor: its years in ascending order. */
  function SensorJobs(rm: RmData, years: seq<Cell>, sensor: string): (r: seq<AppJob>)
    ensures |r| == |years| && forall i :: 0 <= i < |years| ==> r[i] == AppJob(rm.riverMile, years[i], sensor)
  {
    seq(|years|, i requires 0 <= i < |years| => AppJob(rm.riverMile, years[i], sensor))
  }

  function SensorJobsOf(rm: RmData, years: seq<Cell>): string -> seq<AppJob>
  {
    (s: string) => SensorJobs(rm, years, s)
  }

  /**
   * The jobs of one river mile, sensor-major. The years are computed inside
   * the sensor loop, so a river mile without sensors never reads them.
   */
  function RmJobs(rm: RmData): Result<seq<AppJob>>
  {
    if rm.sensors == [] then Ok([])
    else
      match YearsOf(rm)
      case Err(e) => Err(e)
      case Ok(years) => Ok(Collect(rm.sensors, SensorJobsOf(rm, years)))
  }

  function RmJobsOf(): RmData -> Result<seq<AppJob>>
  {
    (rm: RmData) => RmJobs(rm)
  }

  /** Every job of `process_data`, or the exception that ends it. */
  function AppJobs(rms: seq<RmData>): Result<seq<AppJob>>
  {
    Gather(rms, RmJobsOf())
  }

  /**
   * A job exists for exactly each river mile, each of its sensors and each
   * of its distinct years.
   */
  lemma AppJobsAre(rms: seq<RmData>, jobs: seq<AppJob>, j: AppJob)
    requires AppJobs(rms) == Ok(jobs)
    ensures j in jobs <==> exists rm :: rm in rms && JobOf(rm, j)
  {
    GatherMembers(rms, RmJobsOf(), jobs);
    forall rm | rm in rms
      ensures j in RmJobs(rm).value <==> JobOf(rm, j)
    {
      RmJobsAre(rm, j);
    }
  }

  /** `j` is one of the jobs of `rm`. */
  predicate JobOf(rm: RmData, j: AppJob)
  {
    j.riverMile == rm.riverMile && j.sensor in rm.sensors && YearsOf(rm).Ok? && j.year in YearsOf(rm).value
  }

  lemma RmJobsAre(rm: RmData, j: AppJob)
    requires RmJobs(rm).Ok?
    ensures j in RmJobs(rm).value <==> JobOf(rm, j)
  {
    if rm.sensors != [] {
      var years := YearsOf(rm).value;
      var g := SensorJobsOf(rm, years);
      CollectMembers(rm.sensors, g);
      if JobOf(rm, j) {
        var i :| 0 <= i < |years| && years[i] == j.year;
        assert g(j.sensor)[i] == j;
      }
    }
  }

  // ----- One job -------------------------------------------------------------------

  /** `self.processor.process_data(river_mile, year, sensor)`: a frame, or an exception. */
  datatype Processed = ProcessRaised | ProcessedFrame(frame: Frame)

  /** `create_chart`: a figure, `None`, or an exception. */
  datatype Chart = CreateRaised | NoChart | Figure(id: nat)

  /** `save_chart`: `True`, `False`, or an exception. */
  datatype Saved = SaveRaised | NotSaved | SavedOk

  /** The collaborators of `process_data`. */
  datatype Services = Services(
    process: AppJob -> Processed,
    create: (Frame, AppJob) -> Chart,
    save: (nat, OutPath) -> Saved)

  /** `output_dir / f"RM_{river_mile:.1f}" / f"Year_{year}_{sensor}.png"` */
  function ChartPath(outputDir: string, j: AppJob): OutPath
  {
    [Lit(outputDir + "/RM_"), Fixed1(j.riverMile), Lit("/Year_"), YearPiece(j.year), Lit("_" + j.sensor + ".png")]
  }

  /** `DataFrame.empty`: no rows or no columns. */
  predicate EmptyFrame(f: Frame)
  {
    f.rows == [] || f.columns == []
  }

  datatype Outcome = NoData | Succeeded | Errored

  function JobOutcome(svc: Services, outputDir: string, j: AppJob): Outcome
  {
    match svc.process(j)
    case ProcessRaised => Errored
    case ProcessedFrame(f) =>
      if EmptyFrame(f) then NoData
      else
        match svc.create(f, j)
        case CreateRaised => Errored
        case NoChart => Errored
        case Figure(id) => if svc.save(id, ChartPath(outputDir, j)) == SavedOk then Succeeded else Errored
  }

  function IsSuccess(svc: Services, outputDir: string): AppJob -> bool
  {
    (j: AppJob) => JobOutcome(svc, outputDir, j) == Succeeded
  }

  function IsError(svc: Services, outputDir: string): AppJob -> bool
  {
    (j: AppJob) => JobOutcome(svc, outputDir, j) == Errored
  }

  /** What `process_data` returns when the processor holds `loaded`. */
  function ProcessResult(loaded: Option<seq<RmData>>, svc: Services, outputDir: string): bool
  {
    loaded.Some? && AppJobs(loaded.value).Ok? && Count(AppJobs(loaded.value).value, IsError(svc, outputDir)) == 0
  }

  /**
   * `process_data` returns `True` iff a processor is loaded, every river
   * mile's years can be listed, and no job ends in an error; a job whose
   * processed frame is empty counts as neither.
   */
  lemma ProcessResultIff(loaded: Option<seq<RmData>>, svc: Services, outputDir: string)
    ensures ProcessResult(loaded, svc, outputDir) <==>
      loaded.Some? && AppJobs(loaded.value).Ok? &&
      forall j :: j in AppJobs(loaded.value).value ==> JobOutcome(svc, outputDir, j) != Errored
  {
    if loaded.Some? && AppJobs(loaded.value).Ok? {
      var jobs := AppJobs(loaded.value).value;
      var p := IsError(svc, outputDir);
      if Count(jobs, p) == 0 {
        forall j | j in jobs ensures JobOutcome(svc, outputDir, j) != Errored {
          if p(j) {
            CountPositive(jobs, p, j);
          }
        }
      } else {
        if forall j :: j in jobs ==> !p(j) {
          CountNone(jobs, p);
        }
      }
    }
  }

  /** Successes, errors and skipped jobs add up to the number of jobs. */
  lemma CountsAddUp(jobs: seq<AppJob>, svc: Services, outputDir: string)
    ensures Count(jobs, IsSuccess(svc, outputDir)) + Count(jobs, IsError(svc, outputDir)) <= |jobs|
    ensures Count(jobs, IsSuccess(svc, outputDir)) + Count(jobs, IsError(svc, outputDir)) +
      Count(jobs, (j: AppJob) => JobOutcome(svc, outputDir, j) == NoData) == |jobs|
  {
    var s, e := IsSuccess(svc, outputDir), IsError(svc, outputDir);
    CountSplit(jobs, s, e);
    CountSame(jobs, x => !s(x) && !e(x), (j: AppJob) => JobOutcome(svc, outputDir, j) == NoData);
  }

  // ----- The application --------------------------------------------------------------

  /** How `load_data` ends. */
  datatype LoadStage =
    | LoaderRaised                            // `load_all_data` or the processor's constructor raised
    | ProcessorLoadRaised(partial: seq<RmData>)  // the new processor's `load_data` raised
    | Loaded(rms: seq<RmData>)

  /** The processor after `load_data`, starting from `before`. */
  function AfterLoad(before: Option<seq<RmData>>, stage: LoadStage): Option<seq<RmData>>
  {
    match stage
    case LoaderRaised => before
    case ProcessorLoadRaised(partial) => Some(partial)
    case Loaded(rms) => Some(rms)
  }

  /** `setup`: the directories are made and the output directory is there and is a directory. */
  function SetupResult(mkdirsOk: bool, outputExists: bool, outputIsDir: bool): (ok: bool)
    ensures ok <==> mkdirsOk && outputExists && outputIsDir
  {
    mkdirsOk && outputExists && outputIsDir
  }

  /** What `run` returns. */
  function RunResult(setupOk: bool, before: Option<seq<RmData>>, stage: LoadStage, svc: Services, outputDir: string): bool
  {
    setupOk && stage.Loaded? && ProcessResult(AfterLoad(before, stage), svc, outputDir)
  }

  /** `main`: 0 when the pipeline succeeded, 1 when it did not or when setting up logging raised. */
  function ExitCode(loggingOk: bool, runOk: bool): (code: int)
    ensures code == 0 || code == 1
    ensures code == 0 <==> loggingOk && runOk
  {
    if loggingOk && runOk then 0 else 1
  }

  class Application {
    /** `self.output_dir` of the configuration. */
    var outputDir: string
    /** `self.processor`: its river-mile data once loaded. */
    var processor: Option<seq<RmData>>

    constructor (outputDir: string)
      ensures this.outputDir == outputDir && processor == None
    {
      this.outputDir := outputDir;
      processor := None;
    }

    /** `load_data` */
    method LoadData(stage: LoadStage) returns (ok: bool)
      modifies this
      ensures ok == stage.Loaded?
      ensures processor == AfterLoad(old(processor), stage) && outputDir == old(outputDir)
    {
      match stage
      case LoaderRaised =>
        ok := false;
      case ProcessorLoadRaised(partial) =>
        processor := Some(partial);
        ok := false;
      case Loaded(rms) =>
        processor := Some(rms);
        ok := true;
    }

    /**
     * `process_data`: the result, and the two counters it logs, which
     * count the jobs that succeeded and that failed.
     */
    method ProcessData(svc: Services) returns (ok: bool, successes: nat, errors: nat)
      ensures ok == ProcessResult(processor, svc, outputDir)
      ensures processor.Some? && AppJobs(processor.value).Ok? ==>
                (successes == Count(AppJobs(processor.value).value, IsSuccess(svc, outputDir)) &&
                 errors == Count(AppJobs(processor.value).value, IsError(svc, outputDir)))
    {
      successes, errors := 0, 0;
      if processor.None? {
        return false, successes, errors;
      }
      var rms := processor.value;
      ghost var done: seq<AppJob>;
      var failure;
      failure, done, successes, errors := RunAll(rms, svc, outputDir);
      ok := failure.None? && errors == 0;
    }

    /** `run`: setup, then loading, then processing, each only after the one before succeeded. */
    method Run(setupOk: bool, stage: LoadStage, svc: Services) returns (ok: bool)
      modifies this
      ensures ok == RunResult(setupOk, old(processor), stage, svc, outputDir)
      ensures processor == (if setupOk then AfterLoad(old(processor), stage) else old(processor))
      ensures outputDir == old(outputDir)
    {
      if !setupOk {
        return false;
      }
      var loaded := LoadData(stage);
      if !loaded {
        return false;
      }
      var processed, s, e := ProcessData(svc);
      ok := processed;
    }
  }

  /** The triple loop of `process_data`, on the loaded river miles. */
  method RunAll(rms: seq<RmData>, svc: Services, outputDir: string)
    returns (failure: Option<Failure>, ghost done: seq<AppJob>, successes: nat, errors: nat)
    ensures failure.None? <==> AppJobs(rms).Ok?
    ensures failure.None? ==> done == AppJobs(rms).value
    ensures successes == Count(done, IsSuccess(svc, outputDir)) && errors == Count(done, IsError(svc, outputDir))
  {
    var g := RmJobsOf();
    var s, e := IsSuccess(svc, outputDir), IsError(svc, outputDir);
    successes, errors, done := 0, 0, [];
    var i := 0;
    while i < |rms|
      invariant 0 <= i <= |rms|
      invariant Gather(rms[..i], g) == Ok(done)
      invariant successes == Count(done, s) && errors == Count(done, e)
    {
      var rm := rms[i];
      var rmFailure;
      ghost var ran;
      rmFailure, ran, successes, errors := RunRiverMile(rm, svc, outputDir, done, successes, errors);
      if rmFailure.Some? {
        GatherFirstError(rms, g, i);
        assert done + ran == done;
        return rmFailure, done, successes, errors;
      }
      GatherStep(rms, g, i, done);
      done := done + ran;
      i := i + 1;
    }
    GatherDone(rms, g, done);
    failure := None;
  }

  /** The sensor and year loops of one river mile, continuing the counters. */
  method RunRiverMile(rm: RmData, svc: Services, outputDir: string, ghost before: seq<AppJob>, s0: nat, e0: nat)
    returns (failure: Option<Failure>, ghost ran: seq<AppJob>, successes: nat, errors: nat)
    requires s0 == Count(before, IsSuccess(svc, outputDir)) && e0 == Count(before, IsError(svc, outputDir))
    ensures failure.None? <==> RmJobs(rm).Ok?
    ensures failure.Some? ==> RmJobs(rm) == Err(failure.value) && ran == []
    ensures failure.None? ==> ran == RmJobs(rm).value
    ensures successes == Count(before + ran, IsSuccess(svc, outputDir)) && errors == Count(before + ran, IsError(svc, outputDir))
  {
    var s, e := IsSuccess(svc, outputDir), IsError(svc, outputDir);
    successes, errors := s0, e0;
    if rm.sensors == [] {
      assert before + [] == before;
      return None, [], successes, errors;
    }
    var years := YearsOf(rm);
    if years.Err? {
      assert before + [] == before;
      return Some(years.error), [], successes, errors;
    }
    ghost var g := SensorJobsOf(rm, years.value);
    ghost var acc: seq<AppJob> := [];
    var k := 0;
    while k < |rm.sensors|
      invariant 0 <= k <= |rm.sensors|
      invariant acc == Collect(rm.sensors[..k], g)
      invariant successes == Count(before + acc, s) && errors == Count(before + acc, e)
    {
      var sensor := rm.sensors[k];
      var ys := YearsOf(rm);
      ghost var jobs := g(sensor);
      successes, errors := RunSensor(rm, ys.value, sensor, svc, outputDir, before + acc, successes, errors);
      CollectStep(rm.sensors, g, k);
      AppendAssoc(before, acc, jobs);
      acc := acc + jobs;
      k := k + 1;
    }
    CollectDone(rm.sensors, g);
    failure, ran := None, acc;
  }

  /** The year loop of one sensor, continuing the counters. */
  method RunSensor(rm: RmData, years: seq<Cell>, sensor: string, svc: Services, outputDir: string,
                   ghost before: seq<AppJob>, s0: nat, e0: nat)
    returns (successes: nat, errors: nat)
    requires s0 == Count(before, IsSuccess(svc, outputDir)) && e0 == Count(before, IsError(svc, outputDir))
    ensures successes == Count(before + SensorJobs(rm, years, sensor), IsSuccess(svc, outputDir))
    ensures errors == Count(before + SensorJobs(rm, years, sensor), IsError(svc, outputDir))
  {
    ghost var s, e := IsSuccess(svc, outputDir), IsError(svc, outputDir);
    ghost var jobs := SensorJobs(rm, years, sensor);
    successes, errors := s0, e0;
    assert before + jobs[..0] == before;
    var t := 0;
    while t < |years|
      invariant 0 <= t <= |years|
      invariant successes == Count(before + jobs[..t], s) && errors == Count(before + jobs[..t], e)
    {
      var job := AppJob(rm.riverMile, years[t], sensor);
      var outcome := RunJob(svc, outputDir, job);
      CountStep(before, jobs, t, s);
      CountStep(before, jobs, t, e);
      if outcome == Succeeded {
        successes := successes + 1;
      } else if outcome == Errored {
        errors := errors + 1;
      }
      t := t + 1;
    }
    assert jobs[..t] == jobs;
  }

  lemma AppendAssoc<T>(a: seq<T>, b: seq<T>, c: seq<T>)
    ensures a + b + c == a + (b + c)
  {
  }

  lemma CountStep(prefix: seq<AppJob>, jobs: seq<AppJob>, t: nat, p: AppJob -> bool)
    requires t < |jobs|
    ensures Count(prefix + jobs[..t + 1], p) == Count(prefix + jobs[..t], p) + (if p(jobs[t]) then 1 else 0)
  {
    assert prefix + jobs[..t + 1] == (prefix + jobs[..t]) + [jobs[t]];
    CountConcat(prefix + jobs[..t], [jobs[t]], p);
    assert [jobs[t]][1..] == [];
  }

  /** The body of the year loop: process, chart and save one job. */
  method RunJob(svc: Services, outputDir: string, j: AppJob) returns (o: Outcome)
    ensures o == JobOutcome(svc, outputDir, j)
  {
    var processed := svc.process(j);
    if processed.ProcessRaised? {
      return Errored;
    }
    var frame := processed.frame;
    if frame.rows == [] || frame.columns == [] {
      return NoData;
    }
    var chart := svc.create(frame, j);
    if !chart.Figure? {
      return Errored;
    }
    var outputPath := ChartPath(outputDir, j);
    if svc.save(chart.id, outputPath) == SavedOk {
      o := Succeeded;
    } else {
      o := Errored;
    }
  }
}
