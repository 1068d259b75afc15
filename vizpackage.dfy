/**
 * The visualization package's shared pieces: the processing error and its
 * text, the plot configuration and the matplotlib parameters derived from
 * it, the input checks of `Visualizer.create_visualization`, and the
 * seconds-to-hours conversion.
 */
module VizPackage {
  import opened Errors
  import opened Strings
  import opened Frames

  // ----- HydrographProcessingError -------------------------------------------

  /**
   * A `HydrographProcessingError`: its message and its context. Context
   * values are kept as their printed text; `repr` stands for Python's
   * rendering of the whole dictionary.
   */
  datatype ProcessingError = ProcessingError(message: string, context: map<string, string>)

  const ContextSeparator: string := " | Context: "

  /** `HydrographProcessingError(message, context)`: a missing or empty context becomes `{}`. */
  function NewProcessingError(message: string, context: Option<map<string, string>>): (e: ProcessingError)
    ensures e.message == message
    ensures context.None? ==> e.context == map[]
    ensures context.Some? ==> e.context == context.value
  {
    ProcessingError(message, if context.Some? && context.value != map[] then context.value else map[])
  }

  /** `__str__`: the message, then the context after a separator when there is any. */
  function ErrorText(e: ProcessingError, repr: map<string, string> -> string): (s: string)
    ensures e.context == map[] ==> s == e.message
    ensures e.context != map[] ==> s == e.message + ContextSeparator + repr(e.context)
  {
    if e.context != map[] then e.message + ContextSeparator + repr(e.context) else e.message
  }

  /** The text always starts with the message, and is longer than it exactly when there is a context. */
  lemma ErrorTextMessage(e: ProcessingError, repr: map<string, string> -> string)
    ensures StartsWith(ErrorText(e, repr), e.message)
    ensures |ErrorText(e, repr)| > |e.message| <==> e.context != map[]
  {
    var s := ErrorText(e, repr);
    assert s[..|e.message|] == e.message;
  }

  /** `to_dict`: `{'message': str(self), 'context': context}`. */
  datatype ErrorDict = ErrorDict(message: string, context: map<string, string>)

  function ToDict(e: ProcessingError, repr: map<string, string> -> string): (d: ErrorDict)
    ensures d.context == e.context
    ensures d.message == ErrorText(e, repr)
  {
    ErrorDict(ErrorText(e, repr), e.context)
  }

  /** The dictionary's message carries the context suffix exactly when the context is non-empty. */
  lemma ToDictMessage(e: ProcessingError, repr: map<string, string> -> string)
    ensures ToDict(e, repr).message == e.message <==> e.context == map[]
  {
    ErrorTextMessage(e, repr);
  }

  // ----- PlotConfig ----------------------------------------------------------

  datatype PlotConfig = PlotConfig(
    dpi: int,
    figsize: (int, int),
    fontFamily: string,
    fontSize: int,
    titleSize: int,
    labelSize: int,
    gridAlpha: real,
    scatterAlpha: real,
    scatterSize: int)

  const DefaultPlotConfig := PlotConfig(100, (12, 8), "sans-serif", 10, 16, 12, 0.3, 0.7, 50)

  /** A matplotlib parameter value. */
  datatype RcValue = RcInt(n: int) | RcText(s: string) | RcTexts(items: seq<string>) | RcPair(a: int, b: int)

  const FontFamilyKey: string := "font.family"
  const SansSerifKey: string := "font.sans-serif"
  const FontSizeKey: string := "font.size"
  const TitleWeightKey: string := "axes.titleweight"
  const AxesTitleKey: string := "axes.titlesize"
  const LabelSizeKey: string := "axes.labelsize"
  const FigureTitleKey: string := "figure.titlesize"
  const DpiKey: string := "figure.dpi"
  const BboxKey: string := "savefig.bbox"
  const FigsizeKey: string := "figure.figsize"

  /** The entries of `rcparams` that do not depend on the configuration. */
  const FixedParams: map<string, RcValue> := map[
    FontFamilyKey := RcText("sans-serif"),
    SansSerifKey := RcTexts(["Arial"]),
    TitleWeightKey := RcText("bold"),
    BboxKey := RcText("tight")]

  /** `PlotConfig.rcparams` */
  function RcParams(c: PlotConfig): map<string, RcValue>
  {
    FixedParams[FontSizeKey := RcInt(c.fontSize)][AxesTitleKey := RcInt(c.titleSize)]
      [LabelSizeKey := RcInt(c.labelSize)][FigureTitleKey := RcInt(c.titleSize)][DpiKey := RcInt(c.dpi)]
      [FigsizeKey := RcPair(c.figsize.0, c.figsize.1)]
  }

  /** The configured entries: both title sizes come from `title_size`. */
  lemma RcParamsValues(c: PlotConfig)
    ensures RcParams(c)[FontSizeKey] == RcInt(c.fontSize)
    ensures RcParams(c)[AxesTitleKey] == RcParams(c)[FigureTitleKey] == RcInt(c.titleSize)
    ensures RcParams(c)[LabelSizeKey] == RcInt(c.labelSize)
    ensures RcParams(c)[DpiKey] == RcInt(c.dpi)
    ensures RcParams(c)[FigsizeKey] == RcPair(c.figsize.0, c.figsize.1)
  {
  }

  /**
   * Two configurations give the same parameters exactly when they agree on
   * the font, title and label sizes, the resolution and the figure size; the
   * font family, grid and scatter settings never reach `rcparams`.
   */
  lemma RcParamsDetermined(a: PlotConfig, b: PlotConfig)
    ensures RcParams(a) == RcParams(b) <==>
      (a.fontSize == b.fontSize && a.titleSize == b.titleSize && a.labelSize == b.labelSize &&
       a.dpi == b.dpi && a.figsize == b.figsize)
  {
    if RcParams(a) == RcParams(b) {
      RcParamsValues(a);
      RcParamsValues(b);
    }
  }

  // ----- Visualizer ----------------------------------------------------------

  const NoTimeColumn: string := "Missing required 'Time (Seconds)' column"
  const NoSensorPrefix: string := "Missing required sensor column: "
  const TooFewPoints: string := "Insufficient data points for visualization"

  /** `_validate_data`: the time column, then the sensor column, then at least two rows. */
  function ValidateData(f: Frame, sensor: string): (e: Option<Failure>)
    ensures e.None? <==> TimeSeconds in f.columns && sensor in f.columns && |f.rows| >= 2
    ensures TimeSeconds !in f.columns ==> e == Some(Failure(ValueError, Plain(NoTimeColumn)))
    ensures TimeSeconds in f.columns && sensor !in f.columns ==>
      e == Some(Failure(ValueError, Plain(NoSensorPrefix + sensor)))
    ensures TimeSeconds in f.columns && sensor in f.columns && |f.rows| < 2 ==>
      e == Some(Failure(ValueError, Plain(TooFewPoints)))
  {
    if TimeSeconds !in f.columns then Some(Failure(ValueError, Plain(NoTimeColumn)))
    else if sensor !in f.columns then Some(Failure(ValueError, Plain(NoSensorPrefix + sensor)))
    else if |f.rows| < 2 then Some(Failure(ValueError, Plain(TooFewPoints)))
    else None
  }

  const TextOverFloat: string := "unsupported operand type(s) for /: 'str' and 'float'"

  /** `_convert_time_to_hours`: every cell divided by 3600; a text cell makes the division fail. */
  function ToHours(col: seq<Cell>): (r: Result<seq<Cell>>)
    ensures r.Err? <==> AnyText(col)
    ensures r.Err? ==> r.error == Failure(TypeError, Plain(TextOverFloat))
    ensures r.Ok? ==> |r.value| == |col| && forall i :: 0 <= i < |col| ==> r.value[i] == Divided(col[i], 3600.0)
  {
    if AnyText(col) then Err(Failure(TypeError, Plain(TextOverFloat)))
    else Ok(seq(|col|, i requires 0 <= i < |col| => Divided(col[i], 3600.0)))
  }

  /** Hours times 3600 give the seconds back, and the conversion keeps the order of the times. */
  lemma ToHoursInverse(col: seq<Cell>, i: nat, j: nat)
    requires ToHours(col).Ok? && i < |col| && j < |col|
    ensures col[i].Num? ==> ToHours(col).value[i].Num? && ToHours(col).value[i].v * 3600.0 == col[i].v
    ensures col[i].Num? && col[j].Num? ==> (ToHours(col).value[i].v <= ToHours(col).value[j].v <==> col[i].v <= col[j].v)
    ensures !col[i].Num? ==> ToHours(col).value[i] == col[i]
  {
  }

  /**
   * `create_visualization` up to the plot: the data is checked first, so
   * invalid data gives its `ValueError` whatever plotting would do; after
   * that the time column is converted and `plot` stands for the drawing, a
   * failure of which becomes a `VisualizationError`.
   */
  function CreateVisualization<T>(f: Frame, sensor: string, plot: seq<Cell> -> Result<T>, context: string)
    : (r: Result<T>)
    ensures ValidateData(f, sensor).Some? ==> r == Err(ValidateData(f, sensor).value)
    ensures ValidateData(f, sensor).None? && ToHours(Column(f.rows, TimeSeconds)).Ok? ==>
      (plot(ToHours(Column(f.rows, TimeSeconds)).value).Ok? ==> r == plot(ToHours(Column(f.rows, TimeSeconds)).value))
    ensures ValidateData(f, sensor).None? && ToHours(Column(f.rows, TimeSeconds)).Err? ==>
      r == Err(Failure(VisualizationError, Wrapping(context, ToHours(Column(f.rows, TimeSeconds)).error)))
    ensures (ValidateData(f, sensor).None? && ToHours(Column(f.rows, TimeSeconds)).Ok? &&
             plot(ToHours(Column(f.rows, TimeSeconds)).value).Err?) ==>
      r == Err(Failure(VisualizationError, Wrapping(context, plot(ToHours(Column(f.rows, TimeSeconds)).value).error)))
    ensures r.Err? && ValidateData(f, sensor).None? ==> r.error.kind == VisualizationError
  {
    match ValidateData(f, sensor)
    case Some(e) => Err(e)
    case None =>
      match ToHours(Column(f.rows, TimeSeconds))
      case Err(e) => Err(Failure(VisualizationError, Wrapping(context, e)))
      case Ok(hours) =>
        match plot(hours)
        case Err(e) => Err(Failure(VisualizationError, Wrapping(context, e)))
        case Ok(v) => Ok(v)
  }
}
