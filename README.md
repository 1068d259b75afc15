# Hydrograph versus Seatek sensors, modelled in Dafny

This project models the data logic of a pipeline that compares Seatek
sensor readings with a lagged river hydrograph. For each river mile, the
readings sit in an Excel workbook named `RM_<mile>.xlsx` or in an `RM_`
sheet of a shared workbook. The pipeline:

- cleans the readings;
- converts the readings to NAVD88 elevations with a fixed linear formula
  and a per-river-mile offset;
- merges the sensor and hydrograph streams on their time column;
- draws one chart per river mile, sensor and year.

Around this sit the correlation that describes each chart, the checks on
the input workbooks and directories, the configuration records, a
wide-to-long reshape of the raw sheets, and a helper that writes commit
messages.

Tables are values. A `Frame` is a list of columns and a sequence of rows.
A row maps column names to cells, and a cell is missing (NaN), a finite
number, an infinity or text. Reading a workbook, the file system, drawing
and saving are never performed. They enter as parameters: what a read
gives, which files exist, whether a draw or a save succeeds. Where the
source changes state step by step, the model does too:

- classes with fields and `modifies` clauses (`Processor.RiverMileData`,
  `Processor.SeatekDataProcessor`, `Simplified.SeatekDataProcessor`,
  `Overall.CombinedDataProcessor`, `App.Application`,
  `ConfigFacts.ConfigDict`);
- methods with loops, each proved equal to a function that states the
  loop's meaning.

The chart scripts come in several near-copies, and each copy has its own
module:

- `Cleaning` covers `scripts/updated_visualizer.py`, `src/utils/utils.py`,
  and `utils/utils.py`, which is byte-for-byte the same as
  `src/utils/utils.py`. `UpdatedVisualizer` covers the chart loop of
  `scripts/updated_visualizer.py`.
- `Visualization` covers `src/visualization/visualization.py`.
- `SensorVisualization` covers `src/sensor-visualization.py`.
- `Simplified` covers `src/visualization/simplified_sensor_visualization.py`.
- `Overall` covers `src/visualization/overall_visualization.py`.
- `Analyzer` covers `src/sensor_visualization_v2.py` and
  `src/data_processing/__init__.py`.
- `App` covers `src/hydrograph_seatek_analysis/app.py`.

Other modules:

- `Processor` covers `utils/processor.py`.
- `Correlation` covers `scripts/correlation-explanation.py`.
- `SensorNames` covers the `format_sensor_name` copies.
- `Loader` covers both data loaders.
- `Validator` covers the application's validator.
- `Configuration` and `ConfigFacts` cover its configuration.
- `PathSetup` covers `src/visualization/path_setup.py`.
- `VizPackage` covers `src/visualization/__init__.py`.
- `Reshape` covers `scripts/data_processor.py`.
- `CommitMessage` covers `scripts/generate_commit_message.py`.

Shared helper modules model the Python and pandas operations the sources
rely on:

- `Errors` holds exceptions as values.
- `Strings` holds string operations.
- `PyFloat` models `float(str)`, `int(str)` and `int(float)`.
- `Frames` holds tables, coercion, filters, sorting and `unique`.
- `Paths` models file names and the `RM_*.xlsx` pattern.
- `PurePath` models POSIX `pathlib` paths.
- `Jobs` holds the shapes of the chart loops.

## Model

| member | source | states |
|---|---|---|
| Cleaning.ValidateNumeric | scripts/updated_visualizer.py:46-62 | keeps exactly the entries that are present, positive and finite, each as often as the column holds it; a text entry makes the comparison raise a `TypeError` |
| Cleaning.ValidateNumericSubsequence | src/utils/utils.py:19-27 | the filtered column is a subsequence of the input, and filtering it again changes nothing |
| Cleaning.ValidateNumericExample | src/utils/utils.py:19-27 | `[1, 2, 3, None, inf, -inf, 0, -1]` filters to `[1, 2, 3]` |
| Cleaning.KeepValid | scripts/updated_visualizer.py:83-89 | a row is kept iff every required column of it passes the filter |
| Cleaning.MaskThenDrop | scripts/updated_visualizer.py:86-89 | overwriting each required column with its filtered values and then dropping rows with a gap keeps exactly the valid rows, in order |
| Cleaning.FirstFailure | scripts/updated_visualizer.py:83-86 | the column loop raises nothing iff every required column is present and holds no text |
| Cleaning.CleanData | scripts/updated_visualizer.py:79-98 | the column loop over a copy followed by the gap drop returns what `Cleaned` describes |
| Cleaning.MaskNext | scripts/updated_visualizer.py:83-86 | one pass of the column loop either raises the first failure of the remaining columns or masks one more column |
| Cleaning.DropGaps | scripts/updated_visualizer.py:89-95 | dropping gaps from the masked rows and insisting on two rows completes `clean_data` |
| Cleaning.CleanedOutcome | scripts/updated_visualizer.py:79-98 | success iff every required column is present and numeric and at least two rows survive; the result keeps the columns and exactly the valid rows in order; every error is a `DataVisualizationError` prefixed "Error during data cleaning: ", and an absent first required column is reported by name |
| Cleaning.CleanedKeepsPrefix | src/utils/utils.py:33-41 | valid rows followed by invalid numeric rows clean to exactly the valid rows |
| Cleaning.CleanedExample | src/utils/utils.py:33-41 | a two-column frame in which a missing, an infinite, a zero and a negative entry each drop their row keeps the first three rows |
| SensorNames.JoinedName | scripts/updated_visualizer.py:158-168 | splitting on `_` and joining with spaces replaces every `_` by a space |
| SensorNames.SpacedName | src/visualization/simplified_sensor_visualization.py:260-262 | same length, no `_` left, each `_` becomes a space and every other character is kept |
| SensorNames.TitledName | src/utils/utils.py:48-50 | the title-casing of the spaced name: each `_` becomes a space, every other uncased character is kept, a letter is upper case at the start or after an uncased character and lower case after a letter; the result is already title-cased |
| SensorNames.JoinedIsSpaced | scripts/updated_visualizer.py:168 | the split-and-join spelling equals the replace spelling for every name |
| SensorNames.SensorOneExample | src/utils/utils.py:48-50 | `'Sensor_1'` becomes `'Sensor 1'` in all three variants |
| SensorNames.SensorXExample | src/visualization/visualization.py:113-118 | `'sensor_x'` becomes `'Sensor X'` |
| UpdatedVisualizer.ChartPathsDiffer | scripts/updated_visualizer.py:342-362 | two years the loop visits one after the other never share a chart file |
| UpdatedVisualizer.WithHours | scripts/updated_visualizer.py:355 | adds `Time_(Hours)` as seconds divided by 3600 to every row, leaving the row count and all other columns unchanged |
| UpdatedVisualizer.RmCharts | scripts/updated_visualizer.py:321-376 | 0 when a required column is missing, the project root is not found, the output directory cannot be made, or the year column mixes text with numbers or NaN; never more than the number of loop years |
| UpdatedVisualizer.ProcessRmData | scripts/updated_visualizer.py:309-376 | the year loop and its counter return `RmCharts` |
| UpdatedVisualizer.RunYear | scripts/updated_visualizer.py:349-370 | one pass of the year loop computes the year's step: charted, skipped or aborting |
| UpdatedVisualizer.UncleanYearSkipped | scripts/updated_visualizer.py:368-370 | a year whose rows fail to clean is skipped, not fatal |
| UpdatedVisualizer.ChartsAreDrawnYears | scripts/updated_visualizer.py:345-372 | with a year column `sorted` can order and no text times, the count is the number of loop years, ascending by value or in string order, whose step charts |
| UpdatedVisualizer.NeverAborts | scripts/updated_visualizer.py:349-370 | without text times no year aborts the loop, and a year is charted iff its rows clean and its chart is drawn and saved |
| Visualization.ValidateStrict | src/visualization/visualization.py:41-53 | the same entries as the lenient filter; raises "No valid numeric data found." when nothing survives |
| Visualization.MissingColumns | src/visualization/visualization.py:63-64 | exactly the required columns the frame lacks, in required order |
| Visualization.StrictFailure | src/visualization/visualization.py:70-71 | the column loop raises nothing iff every required column is numeric with at least one valid entry |
| Visualization.StrictCleanedErrors | src/visualization/visualization.py:63-76 | all missing columns are reported together before any cleaning; the only error that is not a `DataVisualizationError` is the comparison error on text |
| Visualization.StrictAgreesWithLenient | src/visualization/visualization.py:56-78 | this `clean_data` succeeds on exactly the frames the lenient one accepts, with the same result |
| Visualization.StrictCleanData | src/visualization/visualization.py:56-78 | the up-front check, the column loop over a copy and the gap drop return `StrictCleaned` |
| Visualization.StrictNext | src/visualization/visualization.py:70-71 | one pass of the column loop raises the first failure of the remaining columns or masks one more column |
| Visualization.RmCharts | src/visualization/visualization.py:133-184 | 0 when a required column is missing, the output directory cannot be made, or the year column mixes text with numbers or NaN; never more than the number of loop years |
| Visualization.ProcessRmData | src/visualization/visualization.py:121-184 | the year loop and its counter return `RmCharts` |
| Visualization.RunYear | src/visualization/visualization.py:159-178 | one pass of the year loop computes the year's step |
| Visualization.ChartsAreDrawnYears | src/visualization/visualization.py:154-180 | with a year column `sorted` can order, numeric columns and a renderer raising only `DataVisualizationError`, the count is the number of loop years whose rows clean and whose chart is drawn, and a year is charted exactly then |
| Visualization.YearNeverAborts | src/visualization/visualization.py:176-178 | under the same conditions no year ends the loop |
| Correlation.BandOf | scripts/correlation-explanation.py:80-89 | the strength band of an absolute coefficient: at least 0.9, 0.7, 0.5, 0.3, or below 0.3, each band exactly its interval |
| Correlation.BandMonotone | scripts/updated_visualizer.py:144-153 | a larger absolute coefficient never falls in a weaker band |
| Correlation.InterpretNegated | scripts/updated_visualizer.py:141-155 | a positive coefficient reads "<band> positive <noun>" and its negation "<band> negative <noun>": negation flips only the direction |
| Correlation.Deviations | scripts/correlation-explanation.py:44-49 | one deviation from the mean per input value |
| Correlation.InterpretRatioExact | scripts/correlation-explanation.py:60-63 | the square-free interpretation of `num` over `den2` equals `interpret_correlation(num / s)` for `s` the positive root of `den2` |
| Correlation.CoefficientOf | scripts/correlation-explanation.py:40-60 | fails with numpy's broadcast `ValueError` iff the lengths differ and neither is 1; a non-zero coefficient has equal lengths and a positive squared denominator |
| Correlation.Calculate | scripts/correlation-explanation.py:12-65 | the coefficient with "No correlation (insufficient variation in data)" when the guard fires, otherwise with the interpretation of the ratio ending in "correlation" |
| Correlation.FromDeviations | scripts/correlation-explanation.py:53-60 | a ratio is only returned with a positive denominator |
| Correlation.CauchySchwarz | scripts/correlation-explanation.py:20-24 | (x·y)² ≤ (x·x)(y·y) for vectors of equal length |
| Correlation.CoefficientBounded | scripts/correlation-explanation.py:20-24 | every computed coefficient lies in [−1, 1], stated as num² ≤ den2 |
| Correlation.DeviationsBounded | scripts/correlation-explanation.py:53-60 | the guarded coefficient of any two deviation vectors lies in [−1, 1] |
| Correlation.DescriptionIsInterpretation | scripts/correlation-explanation.py:60-65 | in the non-degenerate case the description is exactly `interpret_correlation(num / s)` |
| Correlation.ConstantSeriesIsZero | scripts/correlation-explanation.py:56-58 | a constant series returns `(0, "No correlation (insufficient variation in data)")` |
| Correlation.DocumentedExample | scripts/correlation-explanation.py:33-37 | `[1..5]` against `[2, 4, 6, 8, 10]` gives 20 over the root of 400, described as "Very strong positive correlation" |
| Correlation.DocumentedCoefficientIsOne | scripts/correlation-explanation.py:37 | 20 divided by the positive root of 400 is exactly 1 |
| Correlation.MismatchedLengthsFail | scripts/correlation-explanation.py:48-53 | lengths 2 and 3 do not broadcast and raise `ValueError` |
| Processor.Started | utils/processor.py:18-25 | fresh metrics count the given original rows and zero everywhere else |
| Processor.MissingOf | utils/processor.py:69-70 | exactly the required columns the workbook lacks |
| Processor.ValidateColumns | utils/processor.py:67-72 | passes iff both `Time (Seconds)` and `Year` are present; otherwise a `ValueError` naming exactly the absent ones |
| Processor.SensorColumns | utils/processor.py:74-76 | exactly the `Sensor_`-prefixed columns, in column order |
| Processor.LoadCheck | utils/processor.py:59-62 | validation then sensor setup pass iff time, year and at least one sensor column are present; "No sensor columns found" exactly when only the sensors are lacking |
| Processor.RiverMileData.constructor | utils/processor.py:42-47 | a new record holds the file name and river mile, no table, offset 0 and no sensors |
| Processor.RiverMileData.LoadData | utils/processor.py:57-65 | the table read is stored before it is validated; the error is the read error or the validation result; sensors are set only once the columns validate |
| Processor.NewRiverMileData | utils/processor.py:42-55 | construction fails iff the name carries no river mile, with that error; otherwise the record starts empty under the parsed river mile |
| Processor.OffsetsKeys | utils/processor.py:100-102 | the offset map has exactly the river miles of the summary as keys |
| Processor.OffsetsLastWins | utils/processor.py:102 | a river mile listed more than once takes the offset of its last row |
| Processor.SetupOffsets | utils/processor.py:100-102 | succeeds iff both `River_Mile` and `Y_Offset` are columns, giving the offset map; otherwise a `KeyError` |
| Processor.OffsetFor | utils/processor.py:114 | the summary offset of the river mile, or 0 when it is unknown |
| Processor.NavdRoundTrip | utils/processor.py:121-122 | the affine conversion and its inverse undo each other |
| Processor.NavdDecreasing | utils/processor.py:122 | a larger raw reading converts to a strictly lower elevation |
| Processor.Shifted | utils/processor.py:122 | the negated, scaled reading is missing exactly when the reading is |
| Processor.Plus | utils/processor.py:122 | float addition: two numbers add, a missing operand gives missing |
| Processor.ConvertCell | utils/processor.py:119-122 | a coerced numeric reading becomes `-(v + 1.9 - 0.32) * (400/30.48) + offset`; a reading or offset that is missing gives missing |
| Processor.Minutes | utils/processor.py:116 | a numeric time becomes seconds over 60; anything else stays as it is |
| Processor.ConvertRows | utils/processor.py:113-122 | one converted row per input row, in order |
| Processor.AddColumn | utils/processor.py:116 | the columns after assigning a column: the old ones and the new one |
| Processor.ConvertToNavd88 | utils/processor.py:104-124 | succeeds iff the time and sensor columns exist and no time or offset is text; keeps the row count, adds `Time (Minutes)`, converts the sensor and leaves every other column unchanged; the two errors are `KeyError` and `TypeError` |
| Processor.Valid | utils/processor.py:160-171 | exactly the rows whose value in the column is non-missing and non-zero, counted as such |
| Processor.ForceZero | utils/processor.py:178-179 | every hydrograph value set to 0, nothing else changed |
| Processor.Points | utils/processor.py:184-185 | the join's input: one time/value pair per row, in order |
| Processor.Matching | utils/processor.py:183-188 | exactly the points of the other side with the same time |
| Processor.Pairs | utils/processor.py:183-188 | a left point paired with each of its matches, one row per match |
| Processor.WithMinutes | utils/processor.py:191 | `Time (Minutes)` recomputed from the seconds on every merged row |
| Processor.Merged | utils/processor.py:183-194 | the merged table is sorted non-decreasing by `Time (Minutes)` |
| Processor.JoinKey | utils/processor.py:183-188 | the join introduces no time that neither stream has |
| Processor.JoinNoText | utils/processor.py:183-191 | the joined times are never text, so recomputing the minutes cannot fail |
| Processor.LeftValues | utils/processor.py:183-188 | a row from a sensor point carries that point's time and reading, and either a hydrograph value at the same time or missing because there is none |
| Processor.RightValues | utils/processor.py:183-188 | a hydrograph-only row has no reading, no sensor point at its time, and the value of a hydrograph point at that time |
| Processor.LeftComplete | utils/processor.py:183-188 | every sensor point reaches the join, paired with each of its matches, or with missing when it has none |
| Processor.RightComplete | utils/processor.py:183-188 | every hydrograph point with no sensor match reaches the join with a missing reading |
| Processor.MergedRows | utils/processor.py:183-194 | the merged rows are exactly the joined rows, each with its minutes |
| Processor.NothingFabricated | utils/processor.py:181-194 | every merged row has its minutes and the time of a row of one stream; each value comes from a row of that stream with that time, or is missing because that stream has no such time |
| Processor.JoinedInMerged | utils/processor.py:183-194 | every joined row reaches the merged table with its time and values |
| Processor.KeepsSensorReadings | utils/processor.py:181-188 | every reading of the sensor stream survives the merge, at its own time |
| Processor.KeepsHydroReadings | utils/processor.py:181-188 | every value of the hydrograph stream survives the merge, at its own time |
| Processor.ZeroedWithoutReadings | utils/processor.py:177-188 | with no sensor readings and a zeroed hydrograph, every merged row is a 0 without a reading |
| Processor.LeftCount | utils/processor.py:183-188 | with at most one match per time, each sensor point yields one joined row at its time |
| Processor.RightCount | utils/processor.py:183-188 | hydrograph-only rows appear at a time exactly when no sensor point has it |
| Processor.UniqueTimes | utils/processor.py:183-194 | when neither stream repeats a time, the merged table has that time exactly once if either stream has it, and not at all otherwise |
| Processor.JoinCount | utils/processor.py:183-188 | the same count for the join before minutes and sorting |
| Processor.YearRows | utils/processor.py:150 | exactly the rows whose `Year` equals the year |
| Processor.HydroStream | utils/processor.py:159-179 | the valid hydrograph rows, or the same number of rows forced to 0 when the sensor stream is empty |
| Processor.HydroStreamIs | utils/processor.py:177-179 | the hydrograph stream is zeroed exactly when the sensor stream is empty and the hydrograph stream is not |
| Processor.ReadingsPartition | utils/processor.py:169-175 | null readings, zero readings and the sensor stream account for every converted row |
| Processor.Processed | utils/processor.py:146-200 | a missing `Year` is a `KeyError`; a year with no rows gives an empty frame with zero original rows; otherwise the merged columns, `original_rows` the year's row count, `invalid_rows` 0, `valid_rows` the merged length, null plus zero counts within the original rows, sorted by minutes |
| Processor.MergeStreamsFacts | utils/processor.py:159-197 | the merge succeeds iff the hydrograph column exists; its metrics account for every row and its rows are sorted by minutes |
| Processor.ProcessedKeepsReadings | utils/processor.py:168-188 | every usable reading of the year is in the result, at its own time |
| Processor.ProcessedKeepsHydrograph | utils/processor.py:159-188 | every usable hydrograph value of the year is in the result, at its own time |
| Processor.ProcessedZeroFallback | utils/processor.py:177-179 | a year without a usable reading yields only hydrograph rows, forced to 0 and without a reading |
| Processor.ProcessedMetrics | utils/processor.py:173-175 | `null_values + zero_values` plus the usable readings equal `original_rows` |
| Processor.ProcessedUniqueTimes | utils/processor.py:183-194 | with unique times per stream, each time of either stream appears exactly once in the result |
| Processor.MissingHydrographRaises | utils/processor.py:165-185 | without `Hydrograph (Lagged)` a year with rows fails at the column selection |
| Processor.RmFiles | utils/processor.py:222-227 | exactly the `RM_*.xlsx` names of the listing, sorted |
| Processor.LastByKeyEntries | utils/processor.py:210-214 | each river mile that some loaded file carries maps to the last such file, and no other key appears |
| Processor.LastByKeyStep | utils/processor.py:210-214 | one loop step files the current name under its river mile, or changes nothing |
| Processor.SeatekDataProcessor.constructor | utils/processor.py:94-98 | a new processor holds the directory, summary and offsets and no river-mile data |
| Processor.SeatekDataProcessor.ProcessData | utils/processor.py:146-200 | an unknown river mile is a `ValueError`; otherwise `Processed` for the stored table with that river mile's offset |
| Processor.SeatekDataProcessor.LoadData | utils/processor.py:202-227 | a missing directory or no `RM_*.xlsx` file is a `FileNotFoundError` and changes nothing; otherwise every river mile of a file that loads is filed, the last such file winning, and every other entry is kept |
| Processor.ProcessYear | utils/processor.py:149-200 | the statements of `process_data` compute `Processed` |
| Processor.MergeYear | utils/processor.py:159-200 | the stream filters, fallback and merge compute `MergeStreams` |
| Processor.MergeFound | utils/processor.py:183-200 | the join, sort and final metrics compute `MergeStreams` once the hydrograph column is known |
| Processor.CountReadings | utils/processor.py:173-175 | the null and zero counts of the sensor column enter the metrics |
| Processor.SelectHydro | utils/processor.py:177-179 | the hydrograph stream after the zero fallback |
| Processor.MergeStreamsMissing | utils/processor.py:165-185 | the missing hydrograph column makes the selection fail |
| Processor.MergeStreamsIs | utils/processor.py:181-197 | the successful merge is the sorted join of the two streams with the counted metrics |
| Processor.LoadAll | utils/processor.py:210-217 | the loading loop files every file that loads under its river mile, over what the table held before |
| Processor.FileOne | utils/processor.py:211-217 | one loop pass files the file if it loads and otherwise leaves the table as it was |
| Processor.FiledAdd | utils/processor.py:214 | filing a loaded file under its river mile keeps the table consistent, with that mile's entry replaced |
| Processor.LoadOne | utils/processor.py:211-213 | a record is produced iff the file's name parses and its table validates; it holds the table read and its sensor columns |
| Processor.NewProcessor | utils/processor.py:94-102 | construction succeeds iff the offsets can be set up, with the offset map and no river-mile data |
| Paths.ExtractRiverMile | utils/processor.py:49-55 | succeeds iff the token after the first `_` of the stem parses as a float, giving that number; otherwise `ValueError("Invalid river mile file name: <name>")` |
| Paths.MileOfSingleUnderscore | utils/processor.py:52-53 | with a single `_`, the parsed text is everything after it |
| Paths.ExtractFromRmName | utils/processor.py:49-53 | `RM_<n>.xlsx` matches `RM_*.xlsx` and names river mile `n` |
| Paths.SortNames | utils/processor.py:226-227 | a sorted permutation of the names, ordered as Python orders strings |
| Simplified.RiverMileFiles | src/visualization/simplified_sensor_visualization.py:90-119 | a missing directory is a `FileNotFoundError`; otherwise exactly the `RM_*.xlsx` names whose river mile parses, sorted |
| Simplified.FindRiverMileFiles | src/visualization/simplified_sensor_visualization.py:100-119 | the glob and the loop keeping the names that parse compute `RiverMileFiles` |
| Simplified.ValidateStructure | src/visualization/simplified_sensor_visualization.py:151-177 | passes iff there is a `Sensor_` column and both `Time (Seconds)` and `Year`; the sensor check comes first and each error is a `ValueError` naming the file and, for columns, exactly the absent ones |
| Simplified.Loads | src/visualization/simplified_sensor_visualization.py:137-145 | a file yields a record iff its name parses, it reads and its structure validates; the record holds the name, its river mile and the table |
| Simplified.FiledEntries | src/visualization/simplified_sensor_visualization.py:136-141 | each entry comes from one of the files and sits under its own river mile, and each file that loads has its river mile filed |
| Simplified.LoadedRecordsEntries | src/visualization/simplified_sensor_visualization.py:136-145 | every filed record was loaded from one of the files and passed the structure check; every file that loads has its river mile filed |
| Simplified.FiledStep | src/visualization/simplified_sensor_visualization.py:141 | one loop step files the record under its river mile, replacing an earlier one, or skips the file |
| Simplified.SeatekDataProcessor.constructor | src/visualization/simplified_sensor_visualization.py:80-88 | a new processor holds the directory and no river-mile data, with an empty key order |
| Simplified.SeatekDataProcessor.LoadData | src/visualization/simplified_sensor_visualization.py:121-149 | a missing directory or no usable file is a `FileNotFoundError` and leaves the table and its key order unchanged; otherwise the loaded records are added over the old table and the key order becomes `FiledOrder`; the order always lists each key once |
| Simplified.FiledOrder | src/visualization/simplified_sensor_visualization.py:136-141 | after filing, the key order still lists every key of the dictionary exactly once: a new river mile goes last, one filed again keeps its place |
| Simplified.FiledOrderStep | src/visualization/simplified_sensor_visualization.py:141 | one loop step appends the river mile only when the dictionary does not hold it yet |
| Simplified.FileAll | src/visualization/simplified_sensor_visualization.py:136-145 | the file loop adds exactly the loaded records to the table and keeps the dictionary's key order |
| Simplified.Values | src/visualization/simplified_sensor_visualization.py:347 | `river_mile_data.values()` yields one record per key, in insertion order, the i-th being the record of the i-th key |
| Simplified.ValuesOnce | src/visualization/simplified_sensor_visualization.py:347 | every record of the dictionary is yielded, at exactly one position |
| Simplified.AbsCell | src/visualization/simplified_sensor_visualization.py:212 | `abs` of a reading: the magnitude of a number, `inf` for either infinity, missing for missing |
| Simplified.Absolute | src/visualization/simplified_sensor_visualization.py:212 | one made-positive row per input row |
| Simplified.SensorProcessed | src/visualization/simplified_sensor_visualization.py:190-218 | a missing sensor or time column is a `KeyError`, and kept times that mix text with numbers a `TypeError` from the sort; otherwise the columns are kept, the rows sorted by `Time (Seconds)`, `original_rows` is the input length and the rows kept are `original_rows - invalid_rows` |
| Simplified.ProcessSensorData | src/visualization/simplified_sensor_visualization.py:195-218 | the metrics filled in step by step and the in-place sort compute `SensorProcessed` |
| Simplified.CoercedThenAbs | src/visualization/simplified_sensor_visualization.py:203-212 | coercing and then taking `abs` makes the reading positive |
| Simplified.ReadingsMembers | src/visualization/simplified_sensor_visualization.py:208-212 | the rows kept are exactly the input rows with a present, non-zero reading, made positive |
| Simplified.ReadingsPositive | src/visualization/simplified_sensor_visualization.py:212 | every kept reading is a positive number or `inf` |
| Simplified.SensorProcessedRows | src/visualization/simplified_sensor_visualization.py:205-215 | `invalid_rows == null_values + zero_values`; every output reading is positive; the output rows are exactly the readable input rows made positive |
| Simplified.YearCharts | src/visualization/simplified_sensor_visualization.py:355-378 | a year writes its chart `RM_{rm:.1f}/RM_{rm:.1f}_Year_{year}_{sensor}.png` iff its readings are not empty, a figure was made and the `mkdir` and `savefig` return; an exception from them ends the run; nothing is written otherwise |
| Simplified.SensorCharts | src/visualization/simplified_sensor_visualization.py:354 | a `KeyError` without a year column; a `TypeError` when text years meet numbers or NaN; otherwise the year loop over the loop years, ascending by value or in string order |
| Simplified.ProcessRiverMileData | src/visualization/simplified_sensor_visualization.py:334-380 | the triple loop over the processor's records, in the dictionary's insertion order, computes `RiverMileCharts` |
| Simplified.ProcessRecord | src/visualization/simplified_sensor_visualization.py:348-353 | the sensor loop over the `Sensor_` columns in column order |
| Simplified.ProcessSensor | src/visualization/simplified_sensor_visualization.py:354 | the year loop over the distinct years in ascending order |
| Simplified.ProcessYear | src/visualization/simplified_sensor_visualization.py:355-378 | one year's readings processed and drawn when there are any |
| Simplified.RiverMileChartsWritten | src/visualization/simplified_sensor_visualization.py:347-378 | when no exception ends the run, a file is written iff it is the chart of a (record, sensor column, year) job whose readings were not empty and whose figure was made |
| Simplified.RecordChartsWritten | src/visualization/simplified_sensor_visualization.py:353-378 | every chart of a river mile belongs to one of its jobs |
| Simplified.SensorChartsWritten | src/visualization/simplified_sensor_visualization.py:354-378 | every chart of a sensor is for one of its distinct years that was drawn, at that year's path |
| Simplified.RecordChartsComplete | src/visualization/simplified_sensor_visualization.py:353-378 | every drawn job of a river mile writes its chart |
| Overall.HydroOf | src/visualization/overall_visualization.py:133-139 | `Hydrograph (Lagged)` when the sheet has it, `None` otherwise |
| Overall.ValidateSheet | src/visualization/overall_visualization.py:93-139 | a `ValueError` ("Invalid data structure in <sheet>") iff `Time (Seconds)` or `Year` is missing; otherwise the hydrograph column the sheet leaves behind |
| Overall.Put | src/visualization/overall_visualization.py:74 | storing a sheet updates that key only and keeps the dictionary's key order consistent |
| Overall.ScanStep | src/visualization/overall_visualization.py:66-76 | the sheet loop visits the sheets one at a time |
| Overall.ScanStops | src/visualization/overall_visualization.py:75 | once a sheet fails validation the loop is over |
| Overall.ScanValid | src/visualization/overall_visualization.py:66-76 | the dictionary stays consistent with its key order |
| Overall.ScanFiles | src/visualization/overall_visualization.py:66-76 | a loop without exception files exactly the `RM_` sheets with `Sensor_1` or `Sensor_2`, each under its name with its own table, and counts them |
| Overall.ScanFailure | src/visualization/overall_visualization.py:73-75 | a loop that raised was ended by a kept sheet that fails validation, and that sheet had already been stored |
| Overall.LastKept | src/visualization/overall_visualization.py:66-76 | the last kept sheet, or none when no sheet is kept |
| Overall.ScanHydrograph | src/visualization/overall_visualization.py:133-139 | `hydrograph_column` is decided by the last kept sheet alone |
| Overall.Load | src/visualization/overall_visualization.py:56-90 | a failing workbook raises its error; a workbook without sheets raises `IndexError`; otherwise the summary is the first sheet |
| Overall.LoadSucceeds | src/visualization/overall_visualization.py:66-90 | `load_data` succeeds iff no kept sheet after the first fails validation and at least one is kept, the table then holding exactly those sheets besides what it held; no kept sheet is "No sheets with valid sensor data found" |
| Overall.CombinedDataProcessor.constructor | src/visualization/overall_visualization.py:43-53 | a new processor holds the path, no summary, no sheets and no hydrograph column |
| Overall.CombinedDataProcessor.LoadData | src/visualization/overall_visualization.py:56-90 | the new summary, sheets, order, hydrograph column and error are those `Load` gives from the old state |
| Overall.ScanSheets | src/visualization/overall_visualization.py:65-79 | the sheet loop computes `Scan` |
| Overall.CombinedProcessed | src/visualization/overall_visualization.py:141-186 | only a missing sensor column raises; `original_rows` is the input length and every other counter 0; rows are returned iff some reading is numeric and the times can be sorted, that is the kept times do not mix text with numbers, and then they are the numeric rows sorted by `Time (Seconds)`; otherwise the empty frame |
| Overall.NumericMembers | src/visualization/overall_visualization.py:164-171 | the numeric rows are exactly the input rows whose reading coerces to a number, coerced |
| Overall.CombinedNonEmpty | src/visualization/overall_visualization.py:170-186 | rows are returned exactly when some reading is numeric, there is a time column and the kept times do not mix text with numbers |
| Overall.CombinedRows | src/visualization/overall_visualization.py:164-178 | the rows returned are the input rows with a numeric reading, coerced |
| Overall.SensorChart | src/visualization/overall_visualization.py:419-447 | one sensor writes its chart `RM_{rm:.1f}/RM_{rm:.1f}_{sensor}.png` or nothing |
| Overall.Items | src/visualization/overall_visualization.py:404 | the sheets in insertion order, each with its table |
| Overall.ChartAll | src/visualization/overall_visualization.py:404-447 | the chart loop of `main` computes `MainCharts` |
| Overall.ChartSheet | src/visualization/overall_visualization.py:405-447 | one sheet: its river mile from the name, then its `Sensor_` columns in order |
| Overall.SheetChartsMembers | src/visualization/overall_visualization.py:405-447 | one sheet writes exactly the charts of its sensor columns whose numeric rows were drawn |
| Overall.SheetChartWritten | src/visualization/overall_visualization.py:412-447 | every chart of a sheet belongs to one of its sensor columns |
| Overall.SheetChartListed | src/visualization/overall_visualization.py:412-447 | every drawn sensor column of a sheet writes its chart |
| Overall.MainChartsWritten | src/visualization/overall_visualization.py:404-447 | a file is written iff it is the chart of a filed sheet and sensor column that were drawn |
| Overall.SheetMile | src/visualization/overall_visualization.py:406 | an `RM_<t>` sheet with no further `_` is charted at river mile `float(t)` |
| Overall.ChartPathsDiffer | src/visualization/overall_visualization.py:443 | two sensors of one sheet never write the same file |
| SensorVisualization.SensorClean | src/sensor-visualization.py:16-30 | an absent sensor column is a `ValueError` naming it; text readings raise the comparison `TypeError`; success iff at least two rows have a positive finite reading, and then exactly those rows, in order, with every column kept |
| SensorVisualization.Years | src/sensor-visualization.py:66 | the years 1 to 20, in order |
| SensorVisualization.PresentSensors | src/sensor-visualization.py:8-77 | exactly those of `Sensor_1` and `Sensor_2` that are columns |
| SensorVisualization.YearAsWritten | src/sensor-visualization.py:40-56 | as written, a year returns 0 or raises; a year whose rows clean reaches the unbound name `create_sensor_visualization` |
| SensorVisualization.RmAsWritten | src/sensor-visualization.py:59-67 | 0 unless `Time (Seconds)`, `Year` and the sensor are all present |
| SensorVisualization.RiverMileAsWritten | src/sensor-visualization.py:73 | a river mile exists iff the second `_`-token of the whole path parses as a float |
| SensorVisualization.FileAsWrittenAlwaysZero | src/sensor-visualization.py:70-82 | as written, every file yields 0 charts |
| SensorVisualization.WholePathMileFails | src/sensor-visualization.py:73 | as written, no `RM_<n>.xlsx` name yields a river mile, because the token keeps `.xlsx` |
| SensorVisualization.YearCorrected | src/sensor-visualization.py:40-56 | with the plotting bound, a year gives 1 iff its rows clean and its chart `RM_{rm}_Year_{year}_{sensor}.png` is saved, and otherwise at most 0 |
| SensorVisualization.RmCorrected | src/sensor-visualization.py:59-67 | 0 unless the three columns are present |
| SensorVisualization.FileMile | src/sensor-visualization.py:73 | the river mile taken from the stem of the file name |
| SensorVisualization.FileMileOfRmName | src/sensor-visualization.py:73 | corrected, `<dir>/RM_<n>.xlsx` names river mile `n` in whichever directory it lies |
| SensorVisualization.SensorPairs | src/sensor-visualization.py:66 | at most 20 qualifying years per sensor |
| SensorVisualization.YearCorrectedCounts | src/sensor-visualization.py:40-56 | a year without text readings is charted exactly when it qualifies and its drawing succeeds |
| SensorVisualization.RmCorrectedCounts | src/sensor-visualization.py:59-67 | a river mile's count is the number of its qualifying years in 1..20 |
| SensorVisualization.FileCorrectedCounts | src/sensor-visualization.py:70-82 | corrected, a readable file yields one chart per qualifying (present sensor, year) pair |
| SensorVisualization.CorrectedDiffers | src/sensor-visualization.py:49-82 | wherever the corrected script makes a chart, the script as written makes none |
| Analyzer.RiverMileSheets | src/sensor_visualization_v2.py:26-46 | exactly the `RM_` sheets after the first, in workbook order |
| Analyzer.Unique | src/sensor_visualization_v2.py:191 | each year value once, in order of first appearance |
| Analyzer.ValidRows | src/sensor_visualization_v2.py:207-214 | exactly the year's rows whose reading is present, positive and not `inf` |
| Analyzer.JobOutcome | src/sensor_visualization_v2.py:197-258 | a text reading ends the job with an exception; fewer than two valid rows is the threshold skip; an existing chart file is the skip-if-exists; a rendered chart did not exist before, had a `Time (Seconds)` column without text to convert to minutes or hours, and was drawn from the valid rows |
| Analyzer.Apply | src/sensor_visualization_v2.py:224-244 | a job only adds files and directories |
| Analyzer.ProcessYearData | src/sensor_visualization_v2.py:197-258 | the early returns give `True` exactly for an existing or a saved chart, and the disk afterwards is `Apply` |
| Analyzer.TooFewPointsSkipped | src/sensor_visualization_v2.py:216-221 | fewer than two valid readings returns `False` and leaves the disk alone |
| Analyzer.ExistingNotRedrawn | src/sensor_visualization_v2.py:230-235 | an existing chart returns `True` without drawing and the files stay as they were |
| Analyzer.RunConcat | src/sensor_visualization_v2.py:193-195 | running two lists of jobs is running the first and then the second |
| Analyzer.RunStep | src/sensor_visualization_v2.py:193-195 | the job loop applies one job at a time |
| Analyzer.RunMonotone | src/sensor_visualization_v2.py:193-195 | a run never removes a file or a directory |
| Analyzer.RunSettles | src/sensor_visualization_v2.py:193-258 | after a run every drawable job has its chart and every job past the threshold its directory |
| Analyzer.SettledRunIsIdle | src/sensor_visualization_v2.py:230-235 | on a settled disk the jobs change nothing and draw nothing |
| Analyzer.SecondRunDrawsNothing | src/sensor_visualization_v2.py:230-235 | running the same jobs again draws no chart and leaves the disk as the first run left it |
| Analyzer.SensorJobs | src/sensor_visualization_v2.py:194-195 | one job per distinct year of the sheet, in order of appearance |
| Analyzer.RiverMileJobsAre | src/sensor_visualization_v2.py:188-195 | the jobs are exactly the pairs of a `Sensor_` column and a year value of the sheet |
| Analyzer.SheetMile | src/sensor_visualization_v2.py:181 | the float of the sheet name's token after the first `_`, failing when there is none or it does not parse |
| Analyzer.PlanRunsAllOrStops | src/sensor_visualization_v2.py:177-186 | the run covers every sheet iff none fails; otherwise the error is that of a failing sheet |
| Analyzer.PlanStep | src/sensor_visualization_v2.py:180-182 | the sheet loop adds one sheet's jobs at a time |
| Analyzer.PlanStops | src/sensor_visualization_v2.py:184-186 | once a sheet raises, nothing after it runs |
| Analyzer.ProcessAllData | src/sensor_visualization_v2.py:177-186 | raises the planned error, after running exactly the planned jobs on the disk |
| Analyzer.ProcessRiverMile | src/sensor_visualization_v2.py:188-195 | the sensor and year loops run the river mile's jobs in order |
| Analyzer.MinOf | src/sensor_visualization_v2.py:124 | the smallest reading, which is one of them |
| Analyzer.MaxOf | src/sensor_visualization_v2.py:125 | the largest reading, which is one of them |
| Analyzer.ChartStats | src/sensor_visualization_v2.py:121-126 | statistics exist iff there are readings; min and max are readings bounding every reading and the mean; a spread exists iff there are at least two readings and is never negative |
| Analyzer.SampleVariance | src/sensor_visualization_v2.py:123 | the sample variance is never negative |
| Analyzer.MeanBounds | src/sensor_visualization_v2.py:122-125 | the mean lies between the minimum and the maximum |
| Analyzer.SumBounds | src/sensor_visualization_v2.py:122 | readings between two bounds sum to between `n` times each bound |
| Analyzer.CmRows | src/sensor_visualization_v2.py:94 | the `_cm` column is each reading divided by 10 |
| Analyzer.MinutesRows | src/sensor_visualization_v2.py:93 | adds `time_minutes` to every row, the seconds divided by 60, NaN and infinities kept |
| Analyzer.HoursColumn | src/data_processing/__init__.py:88 | one hour value per row, the seconds divided by 3600, NaN and infinities kept |
| Analyzer.TimeAxesAgree | src/sensor_visualization_v2.py:93 | the minutes are sixty times the hours and a sixtieth of the seconds, a non-number time stays the same on both axes, and both axes keep the order of the seconds |
| Analyzer.SumTenths | src/sensor_visualization_v2.py:94-122 | tenths sum to a tenth of the sum |
| Analyzer.MinTenths | src/sensor_visualization_v2.py:94-124 | the minimum of the tenths is a tenth of the minimum |
| Analyzer.MaxTenths | src/sensor_visualization_v2.py:94-125 | the maximum of the tenths is a tenth of the maximum |
| Analyzer.SqDevTenths | src/sensor_visualization_v2.py:94-123 | squared deviations of tenths are a hundredth of the squared deviations |
| Analyzer.CmReadings | src/sensor_visualization_v2.py:94 | the `_cm` readings are the raw ones divided by 10 |
| Analyzer.TenthsStats | src/sensor_visualization_v2.py:121-126 | dividing every reading by 10 divides the mean, min and max by 10 and the variance by 100 |
| Analyzer.StatsOfTenths | src/sensor_visualization_v2.py:121-126 | the same for non-empty readings |
| Analyzer.VarianceStatsTenths | src/sensor_visualization_v2.py:123 | the variance of the tenths is a hundredth of the variance |
| Analyzer.MeanTenths | src/sensor_visualization_v2.py:122 | the mean of the tenths is a tenth of the mean |
| Analyzer.VarianceOfTenths | src/sensor_visualization_v2.py:123 | the sample variance of the tenths is a hundredth of the sample variance |
| Analyzer.CmStatsAreMmStatsOverTen | src/data_processing/__init__.py:101-106 | the two copies report the same readings in different units: the centimetre statistics are the millimetre ones over 10, the variance over 100 |
| Analyzer.ValidRowsAreNumbers | src/data_processing/__init__.py:182-196 | every reading the chart summarises is a positive number |
| Analyzer.JobStats | src/data_processing/__init__.py:101-106 | statistics exist iff there is a valid reading, and then the minimum is positive and bounds the mean with the maximum |
| Analyzer.PositiveMin | src/data_processing/__init__.py:101-106 | positive readings have a positive minimum |
| Analyzer.Readings | src/sensor_visualization_v2.py:207-214 | the sensor's number in each valid row, in row order |
| Analyzer.Tenths | src/sensor_visualization_v2.py:94 | every reading divided by 10, in order |
| App.YearsOf | src/hydrograph_seatek_analysis/app.py:125 | a `KeyError` without a `Year` column and a `TypeError` when text years meet numbers or NaN; otherwise the years strictly increasing by value or in string order, exactly the numbers or texts of the column |
| App.SensorJobs | src/hydrograph_seatek_analysis/app.py:124-125 | one job per listed year for the sensor, in ascending year order |
| App.AppJobsAre | src/hydrograph_seatek_analysis/app.py:123-125 | when the loops complete, a job exists for exactly each river mile, each of its sensors and each of its distinct years |
| App.RmJobsAre | src/hydrograph_seatek_analysis/app.py:124-125 | the jobs of one river mile are exactly its sensor and year pairs |
| App.ProcessResultIff | src/hydrograph_seatek_analysis/app.py:113-179 | `process_data` is `True` iff a processor is loaded, all year lists can be made and no job errs; an empty processed frame counts as neither success nor error |
| App.CountsAddUp | src/hydrograph_seatek_analysis/app.py:134-171 | successes, errors and empty-frame skips add up to the number of jobs |
| App.SetupResult | src/hydrograph_seatek_analysis/app.py:46-74 | setup succeeds exactly when the directories were made and the output path exists and is a directory |
| App.ExitCode | src/hydrograph_seatek_analysis/app.py:204-237 | the exit code is 0 or 1, and 0 exactly when logging was set up and the run succeeded |
| App.Application.constructor | src/hydrograph_seatek_analysis/app.py:30-37 | a new application has no processor |
| App.Application.LoadData | src/hydrograph_seatek_analysis/app.py:76-104 | succeeds exactly when loading completed, and the processor is then the loaded one; a failure leaves it as `AfterLoad` says |
| App.Application.ProcessData | src/hydrograph_seatek_analysis/app.py:106-179 | the result is `ProcessResult`, and the two counters count the successful and the failed jobs |
| App.Application.Run | src/hydrograph_seatek_analysis/app.py:181-201 | setup, loading and processing run in turn, each only after the one before succeeded; the processor changes only when setup succeeded |
| App.RunAll | src/hydrograph_seatek_analysis/app.py:123-175 | the triple loop finishes iff all year lists can be made; then it ran exactly the planned jobs and the counters count their successes and errors |
| App.RunRiverMile | src/hydrograph_seatek_analysis/app.py:124-172 | one river mile's loops run exactly its jobs, or stop with its year-listing error having run none, continuing the counters |
| App.RunSensor | src/hydrograph_seatek_analysis/app.py:125-172 | one sensor's year loop continues the counters over its jobs |
| App.RunJob | src/hydrograph_seatek_analysis/app.py:126-172 | the year loop's body ends in the job's outcome: no data, success or error |
| Loader.MissingColumns | src/hydrograph_seatek_analysis/data/data_loader.py:133 | the required names the table lacks, each of them and only them, in required order |
| Loader.ValidateColumns | src/hydrograph_seatek_analysis/data/data_loader.py:121-135 | no error iff every required column is present; otherwise a `ValueError` naming the context and exactly the missing columns |
| Loader.SummaryData | src/hydrograph_seatek_analysis/data/data_loader.py:46-73 | a missing file raises `FileNotFoundError`; a read error passes through; the table is returned iff it has the three summary columns, else the missing ones are named |
| Loader.SummaryDataUtils | utils/data_loader.py:30-46 | a read error passes through; the table is returned iff it has the three summary columns, else a `ValueError` names the missing set |
| Loader.SummaryCopiesAgree | utils/data_loader.py:30-46 | on an existing file both copies accept the same tables and name the same missing columns |
| Loader.KeptSheetsFails | src/hydrograph_seatek_analysis/data/data_loader.py:97-101 | the sheet loop fails iff some `RM_` sheet cannot be read, with the first such sheet's error |
| Loader.KeptSheetsKeeps | src/hydrograph_seatek_analysis/data/data_loader.py:97-109 | on success each stored frame is an accepted `RM_` sheet under its own name, and every accepted one is stored |
| Loader.KeptSheetsSame | utils/data_loader.py:55-67 | two checks that agree on every sheet keep the same sheets |
| Loader.KeptSheetsStep | src/hydrograph_seatek_analysis/data/data_loader.py:97-109 | the loop handles one sheet at a time, in workbook order |
| Loader.KeptSheetsErrStays | src/hydrograph_seatek_analysis/data/data_loader.py:101 | once a sheet read fails, later sheets change nothing |
| Loader.FillHydroData | src/hydrograph_seatek_analysis/data/data_loader.py:94-109 | the loop fills the dictionary exactly as `KeptSheets` says |
| Loader.Nonempty | src/hydrograph_seatek_analysis/data/data_loader.py:111-114 | an empty dictionary raises `ValueError` "No valid hydrograph data sheets found"; otherwise it is returned |
| Loader.HydroData | src/hydrograph_seatek_analysis/data/data_loader.py:75-118 | a missing file raises `FileNotFoundError`, an unopenable one its error, otherwise the kept sheets or the empty-dictionary error |
| Loader.HydroDataUtils | utils/data_loader.py:48-76 | the second copy opens the file unchecked, then keeps sheets the same way |
| Loader.LoadHydroData | src/hydrograph_seatek_analysis/data/data_loader.py:87-118 | the method with its loop gives `HydroData` |
| Loader.LoadHydroDataUtils | utils/data_loader.py:50-76 | the method with its loop gives `HydroDataUtils` |
| Loader.AcceptsSheetsAgree | utils/data_loader.py:60-64 | the list check and the set check accept exactly the sheets with a time and a year column |
| Loader.HydroCopiesAgree | utils/data_loader.py:48-76 | on an existing file both copies give the same sheets or the same error |
| Loader.HydroDataSheets | src/hydrograph_seatek_analysis/data/data_loader.py:97-114 | the result holds only `RM_` sheets with the time and year columns, each read from the workbook under its own name |
| Loader.LoadAllData | src/hydrograph_seatek_analysis/data/data_loader.py:36-44 | both loads succeed for a result; the summary's error wins over the hydrograph's |
| Loader.SortReals | src/hydrograph_seatek_analysis/data/data_loader.py:164 | `sorted` returns the same numbers, duplicates kept, ascending |
| Loader.InsertSorted | src/hydrograph_seatek_analysis/data/data_loader.py:164 | inserting into an ascending list keeps it ascending and adds exactly the one number |
| Loader.Picked | src/hydrograph_seatek_analysis/data/data_loader.py:157-162 | at most one value per name |
| Loader.PickedMembers | src/hydrograph_seatek_analysis/data/data_loader.py:157-162 | a value is picked iff some name gives it |
| Loader.ListedMiles | src/hydrograph_seatek_analysis/data/data_loader.py:157-162 | at most one river mile per listed name |
| Loader.AvailableRiverMiles | src/hydrograph_seatek_analysis/data/data_loader.py:151-164 | a missing directory raises `FileNotFoundError`; otherwise the parsed miles, ascending, with their multiplicities |
| Loader.GetAvailableRiverMiles | src/hydrograph_seatek_analysis/data/data_loader.py:151-164 | the loop and the sort give `AvailableRiverMiles` |
| Loader.AvailableRiverMilesSpec | src/hydrograph_seatek_analysis/data/data_loader.py:154-164 | the result is ascending and holds a mile exactly when some `RM_*.xlsx` stem's second token parses to it |
| Validator.Least | src/hydrograph_seatek_analysis/data/validator.py:116 | `min` skipping NaN: NaN iff every cell is NaN, otherwise a cell of the column |
| Validator.Greatest | src/hydrograph_seatek_analysis/data/validator.py:116 | `max` skipping NaN: NaN iff every cell is NaN, otherwise a cell of the column |
| Validator.LeastBelow | src/hydrograph_seatek_analysis/data/validator.py:116 | the minimum is at most every cell that is not NaN |
| Validator.GreatestAbove | src/hydrograph_seatek_analysis/data/validator.py:116 | the maximum is at least every cell that is not NaN |
| Validator.LeastBelowGreatest | src/hydrograph_seatek_analysis/data/validator.py:116 | the minimum is at most the maximum |
| Validator.Span | src/hydrograph_seatek_analysis/data/validator.py:116 | the pair of minimum and maximum, failing with a `TypeError` iff text meets a number or NaN |
| Validator.NumberSpan | src/hydrograph_seatek_analysis/data/validator.py:116 | a column without text spans from a least to a greatest number of the column, or is NaN at both ends exactly when it is NaN throughout |
| Validator.TextSpan | src/hydrograph_seatek_analysis/data/validator.py:116 | a non-empty column of text spans from its least to its greatest string |
| Validator.IntOf | src/hydrograph_seatek_analysis/data/validator.py:170 | `int` truncates a number, raises on NaN and the infinities, and parses a string of digits or raises "invalid literal for int() with base 10: " with its repr |
| Validator.IntOfPrinted | src/hydrograph_seatek_analysis/data/validator.py:170 | an integer year gives itself back, read as a number or as its digits |
| PyFloat.ParseIntToString | src/hydrograph_seatek_analysis/data/validator.py:170 | `int` of an integer's decimal text is that integer |
| Validator.FloatOf | src/hydrograph_seatek_analysis/data/validator.py:173 | `float` keeps a number, NaN or infinity, and parses a string or raises "could not convert string to float: " with its repr |
| Validator.FloatOfPrinted | src/hydrograph_seatek_analysis/data/validator.py:173 | a whole number of seconds written as digits is read back as that number |
| Validator.MissingCounts | src/hydrograph_seatek_analysis/data/validator.py:62 | one count per required column, the number of its NaN cells, at most the number of rows |
| Validator.ValidateSummary | src/hydrograph_seatek_analysis/data/validator.py:28-77 | a report exactly when the loader would accept the table, with the file's name, its columns, rows, river miles and a missing-value count per required column |
| Validator.SheetYears | src/hydrograph_seatek_analysis/data/validator.py:115 | `None` without a year column; otherwise a `TypeError` iff text meets a number or NaN, and else every distinct value of the column once, strictly increasing |
| Validator.InsertCell | src/hydrograph_seatek_analysis/data/validator.py:115 | inserting into a strictly increasing list keeps it so and adds exactly the new cell |
| Validator.SortedCells | src/hydrograph_seatek_analysis/data/validator.py:115 | `sorted(unique())`: exactly the column's values, strictly increasing, each once |
| Validator.TimeRange | src/hydrograph_seatek_analysis/data/validator.py:116-117 | `None` without a time column or without rows; otherwise the column's span, a `TypeError` iff text meets a number or NaN |
| Validator.SheetInfoOf | src/hydrograph_seatek_analysis/data/validator.py:104-118 | an entry iff the years and the time range can be computed, naming the sheet, its columns, rows and whether both required columns are present |
| Validator.SheetInfos | src/hydrograph_seatek_analysis/data/validator.py:103-118 | entries for all sheets iff each can be read and summarised, one per sheet in order |
| Validator.RmSheets | src/hydrograph_seatek_analysis/data/validator.py:95 | exactly the workbook's sheets whose names start with `RM_` |
| Validator.ValidateHydro | src/hydrograph_seatek_analysis/data/validator.py:79-128 | `None` when the file is absent, unopenable, has no `RM_` sheet or one of them fails; a report names the file and a non-empty sheet list |
| Validator.Map | src/hydrograph_seatek_analysis/data/validator.py:110 | the list comprehension: same length, element by element |
| Validator.ValidateHydroFile | src/hydrograph_seatek_analysis/data/validator.py:86-128 | the loop over the sheets gives `ValidateHydro` |
| Validator.HydroReportSheets | src/hydrograph_seatek_analysis/data/validator.py:95-124 | a report lists the `RM_` sheets in order, describes each at the same position, and gives years ascending without repeats |
| Validator.RmSheetNames | src/hydrograph_seatek_analysis/data/validator.py:95 | the listed names are exactly the workbook's `RM_` names |
| Validator.YearRange | src/hydrograph_seatek_analysis/data/validator.py:169-170 | `None` without a year column or rows; text beside a number or NaN raises; otherwise `int` of the minimum and of the maximum, or the first error `int` raises |
| Validator.FloatRange | src/hydrograph_seatek_analysis/data/validator.py:172-173 | `float` of both ends of the time range, or the first error; a range it gives holds no text |
| Validator.ProcessedEntryOf | src/hydrograph_seatek_analysis/data/validator.py:147-191 | an unreadable file gives the error entry; a readable one is checked iff its year range and its float time range can be computed, and otherwise carries the first error; a checked entry has the stem's river mile, its columns, rows and sensor columns |
| Validator.ValidateProcessed | src/hydrograph_seatek_analysis/data/validator.py:137-193 | nothing when the directory is absent; otherwise one entry per `RM_*.xlsx` name, in listing order |
| Validator.ValidateProcessedFiles | src/hydrograph_seatek_analysis/data/validator.py:137-193 | the loop gives `ValidateProcessed` |
| Validator.ProcessedEntries | src/hydrograph_seatek_analysis/data/validator.py:144-191 | every entry names a listed `RM_*.xlsx` file, checked entries carry their stem's mile, and there is exactly one per such file |
| Validator.EntryNamesFile | src/hydrograph_seatek_analysis/data/validator.py:147-191 | each entry names its own file, and a checked entry carries that file's river mile |
| Validator.SummaryRms | src/hydrograph_seatek_analysis/data/validator.py:213 | the set of the summary's river miles |
| Validator.ProcessedRms | src/hydrograph_seatek_analysis/data/validator.py:214-217 | the set of the river miles the checked entries carry |
| Validator.RunValidation | src/hydrograph_seatek_analysis/data/validator.py:195-239 | the three reports unchanged; a consistency record iff there is a summary and a processed entry; overall valid iff summary and hydrograph reports exist and some file was processed |
| Validator.ConsistencyMeaning | src/hydrograph_seatek_analysis/data/validator.py:220-227 | all summary miles are processed iff none is missing; missing are exactly the summary miles no entry carries, extra exactly the entries' miles the summary lacks |
| Configuration.Arg | src/hydrograph_seatek_analysis/core/config.py:9-23 | a given keyword argument wins, otherwise the field's default |
| Configuration.Unexpected | src/hydrograph_seatek_analysis/core/config.py:77 | exactly the given names that are not fields |
| Configuration.NavdWith | src/hydrograph_seatek_analysis/core/config.py:9-14 | succeeds iff every keyword is a field, each field then the given value or its default (1.9, 0.32, 400/30.48); otherwise a `TypeError` |
| Configuration.ChartWith | src/hydrograph_seatek_analysis/core/config.py:17-23 | succeeds iff every keyword is a field, each field then the given value or its default (300, (12, 8), Arial, 11); otherwise a `TypeError` |
| Configuration.Navd | src/hydrograph_seatek_analysis/core/config.py:76-77 | a false popped value gives the defaults, a mapping is unpacked, anything else is a `TypeError` |
| Configuration.Chart | src/hydrograph_seatek_analysis/core/config.py:80-81 | a false popped value gives the defaults, a mapping is unpacked, anything else is a `TypeError` |
| Configuration.BaseDir | src/hydrograph_seatek_analysis/core/config.py:84-90 | a false value gives the working directory, a string its path, anything else a `TypeError` |
| Configuration.MakeConfig | src/hydrograph_seatek_analysis/core/config.py:48-60 | `data` below the base, `raw` and `processed` below it, the two workbooks in `raw`, `charts` two levels below the base |
| Configuration.DefaultConfig | src/hydrograph_seatek_analysis/core/config.py:31-46 | the base is `HYDROGRAPH_BASE_DIR` when set, else the working directory, with the default constants and settings |
| ConfigFacts.DataDirLayout | src/hydrograph_seatek_analysis/core/config.py:50 | the data directory is `base / "data"` |
| ConfigFacts.RawDataDirLayout | src/hydrograph_seatek_analysis/core/config.py:51 | the raw directory is `base / "data/raw"` |
| ConfigFacts.ProcessedDirLayout | src/hydrograph_seatek_analysis/core/config.py:52 | the processed directory is `base / "data/processed"` |
| ConfigFacts.OutputDirLayout | src/hydrograph_seatek_analysis/core/config.py:53 | the output directory is `base / "output/charts"` |
| ConfigFacts.FromDictResult | src/hydrograph_seatek_analysis/core/config.py:73-93 | succeeds iff the three popped values are usable, each part from its own key, with exactly the three keys removed; a bad `navd88_constants` fails with only that key popped |
| ConfigFacts.ConfigDict.constructor | src/hydrograph_seatek_analysis/core/config.py:73 | a dictionary holding the given entries |
| ConfigFacts.ConfigDict.Pop | src/hydrograph_seatek_analysis/core/config.py:76 | `pop` returns the value or the default and removes exactly that key |
| ConfigFacts.FromDict | src/hydrograph_seatek_analysis/core/config.py:73-93 | popping the keys in order gives `FromDictOf`, both the result and the dictionary left behind |
| ConfigFacts.FromDictDefaults | src/hydrograph_seatek_analysis/core/config.py:76-93 | a dictionary without the three keys gives the defaults and the working directory and is left unchanged |
| ConfigFacts.FromDictOverrides | src/hydrograph_seatek_analysis/core/config.py:76-90 | given NAVD88 keys override their fields and keep the others; an empty chart section gives the default settings |
| ConfigFacts.FromDictStopsAtNavd | src/hydrograph_seatek_analysis/core/config.py:76-80 | a non-mapping `navd88_constants` fails before `chart_settings` is popped |
| PathSetup.ValidateFileType | src/visualization/path_setup.py:59-69 | allowed iff the lower-cased suffix is `.xlsx` or `.xls` |
| PathSetup.RmNameSuffix | src/visualization/path_setup.py:31 | an `RM_*.xlsx` name has the suffix `.xlsx` |
| PathSetup.RmWorkbookType | src/visualization/path_setup.py:69 | every processed `RM_*.xlsx` workbook passes the type check |
| PathSetup.CheckFileSize | src/visualization/path_setup.py:72-85 | acceptable iff `stat` succeeds and the size is at most 100 MiB (104857600 bytes) |
| PathSetup.ValidateExcelStructure | src/visualization/path_setup.py:88-111 | valid only when the file opens and has a readable first sheet, and then iff that sheet has the time and year columns |
| PathSetup.FileError | src/visualization/path_setup.py:175-194 | no error iff the file passes all four checks; otherwise the message of the first check it fails, or the "Error checking" text of an exception |
| PathSetup.FileErrorsMeaning | src/visualization/path_setup.py:173-196 | at most one error per file, and none exactly when every file passes |
| PathSetup.FileErrorsLast | src/visualization/path_setup.py:175-194 | the last file's error follows those of the files before it |
| PathSetup.VerifyFilesExist | src/visualization/path_setup.py:163-196 | the errors are one per failing file, in order, and success iff there are none, iff every file passes |
| PathSetup.MarkerFileIsChild | src/visualization/path_setup.py:127 | `current_dir / marker` is the child of the directory with that name |
| PathSetup.RootAt | src/visualization/path_setup.py:126-132 | a found root holds a marker and no directory walked before it does |
| PathSetup.RootAtNone | src/visualization/path_setup.py:126-134 | the walk fails iff no named directory at or above the start holds a marker; the nameless filesystem root is never examined |
| PathSetup.RootAtStep | src/visualization/path_setup.py:130-132 | past a named directory without a marker the walk goes one level up |
| PathSetup.FindProjectRoot | src/visualization/path_setup.py:114-136 | the loop that reassigns `current_dir` gives `ProjectRoot` |
| PathSetup.ProjectRootMeaning | src/visualization/path_setup.py:124-134 | starting three levels above the module, the result is the nearest marked directory, and it fails only when there is none |
| PathSetup.ProjectRootError | src/visualization/path_setup.py:134-136 | a failed search is a `PathSetupError` wrapping the "Could not find project root directory" one |
| PathSetup.Directories | src/visualization/path_setup.py:153-156 | the map has a key per required name, each joined to the root, and is made iff no `mkdir` fails |
| PathSetup.SetupProjectStructure | src/visualization/path_setup.py:139-160 | the root search, then the directory loop, failures wrapped in `PathSetupError` |
| PathSetup.MakeDirectories | src/visualization/path_setup.py:151-158 | the loop fills the map as `Directories` says |
| PathSetup.DirectoriesErrStays | src/visualization/path_setup.py:153-156 | once a `mkdir` fails, later names change nothing |
| PathSetup.DirectoriesErrSnoc | src/visualization/path_setup.py:153-156 | a failure before the last name is the failure of the whole loop |
| PathSetup.ProjectStructureKeys | src/visualization/path_setup.py:32 | a result has exactly the four keys `data`, `data/processed`, `data/raw` and `output`, each below the root |
| PathSetup.DataFiles | src/visualization/path_setup.py:238-240 | the three files exist iff the processed and raw directories are in the map |
| PathSetup.GetDataPaths | src/visualization/path_setup.py:227-263 | the three paths, or `None` as `DataPaths` says |
| PathSetup.CheckDataFiles | src/visualization/path_setup.py:238-259 | after the directories: the file checks, then the access loop |
| PathSetup.AllAccessible | src/visualization/path_setup.py:253-257 | the loop succeeds iff every file is accessible |
| PathSetup.DataPathsMeaning | src/visualization/path_setup.py:235-259 | a result means the directories were made, every file passed the four checks and every file is accessible |
| PathSetup.ProcessedBelow | src/visualization/path_setup.py:32 | `root / "data/processed"` is `root / "data" / "processed"` |
| PathSetup.RawBelow | src/visualization/path_setup.py:32 | `root / "data/raw"` is `root / "data" / "raw"` |
| PathSetup.DataFilesBelow | src/visualization/path_setup.py:238-240 | `RM_54.0.xlsx` sits in the processed directory, the two workbooks in the raw one |
| PathSetup.DataPathsLayout | src/visualization/path_setup.py:236-259 | the returned paths sit below the project root in the processed and raw directories |
| PathSetup.WorkbookNames | src/visualization/path_setup.py:238-240 | the three workbook names are single path components |
| PathSetup.BackupNaming | src/visualization/path_setup.py:292 | the backup is `{stem}_backup{suffix}` in the same directory and never the file itself |
| PathSetup.CreateBackup | src/visualization/path_setup.py:291-297 | the backup path iff the copy succeeds |
| VizPackage.NewProcessingError | src/visualization/__init__.py:26-28 | the message is kept, and a missing context becomes empty |
| VizPackage.ErrorText | src/visualization/__init__.py:30-34 | the message alone without a context, otherwise the message, " \| Context: " and the context |
| VizPackage.ErrorTextMessage | src/visualization/__init__.py:30-34 | the text starts with the message and is longer than it exactly when there is a context |
| VizPackage.ToDict | src/visualization/__init__.py:40-45 | the dictionary holds the error's text and its context |
| VizPackage.ToDictMessage | src/visualization/__init__.py:40-45 | the dictionary's message is the bare message exactly when the context is empty |
| VizPackage.RcParamsValues | src/visualization/__init__.py:62-76 | font, title, label, dpi and figure size come from the configuration, both title sizes from `title_size` |
| VizPackage.RcParamsDetermined | src/visualization/__init__.py:62-76 | two configurations give the same parameters iff they agree on font, title and label sizes, dpi and figure size |
| VizPackage.ValidateData | src/visualization/__init__.py:152-159 | no error iff the time column and the sensor column exist and there are at least two rows; otherwise the first failing check's `ValueError` |
| VizPackage.ToHours | src/visualization/__init__.py:161-164 | fails iff a cell is text; otherwise every cell divided by 3600, in order |
| VizPackage.ToHoursInverse | src/visualization/__init__.py:161-164 | hours times 3600 give the seconds back, the order of times is kept, and non-numbers stay as they were |
| VizPackage.CreateVisualization | src/visualization/__init__.py:127-150 | invalid data gives its `ValueError` before plotting; a successful plot is the result; a failed time conversion or plot after valid data is a `VisualizationError` wrapping that failure with the given context |
| Reshape.SecondWord | scripts/data_processor.py:10 | the second whitespace-separated word, or an `IndexError` exactly when there is none |
| Reshape.Collect | scripts/data_processor.py:9-11 | the comprehension succeeds iff every kept element converts, one value per kept element in order |
| Reshape.SensorIdsMeaning | scripts/data_processor.py:9-11 | one id per column starting with "Sensor", each its second word; an `IndexError` exactly when such a column has one word |
| Reshape.CollectError | scripts/data_processor.py:9-11 | when every failure is the same exception, the comprehension raises that one |
| Reshape.Block | scripts/data_processor.py:12-27 | the block exists iff the four selected columns are present, otherwise a `KeyError` naming the missing ones; one row per input row |
| Reshape.BlockColumnsPresent | scripts/data_processor.py:12-19 | the block exists iff every selected column is present, and the missing ones are exactly the selected columns the frame lacks |
| Reshape.BlockRows | scripts/data_processor.py:12-27 | each block row is the input row renamed and tagged |
| Reshape.YearPairs | scripts/data_processor.py:9-11 | the inner loop visits the sensor ids of one year in column order |
| Reshape.Pairs | scripts/data_processor.py:8-11 | years 1 to n, each with every sensor id, year-major |
| Reshape.PairsAt | scripts/data_processor.py:8-11 | step `(y - 1) * ids + k` of the loops is year `y` and sensor `ids[k]` |
| Reshape.PairsStep | scripts/data_processor.py:8 | the loops up to year n are those up to the year before, then year n's |
| Reshape.PairsPrefix | scripts/data_processor.py:8 | the loops up to an earlier year are a prefix of those up to a later one |
| Reshape.Appended | scripts/data_processor.py:28 | a completed loop holds one block per step |
| Reshape.AppendedAt | scripts/data_processor.py:28 | a completed loop holds at position k what step k made |
| Reshape.AppendedFails | scripts/data_processor.py:8-28 | the loop fails iff some step fails, with the first failing step's error |
| Reshape.AppendedErrStays | scripts/data_processor.py:8-28 | once a step fails the rest of the loop never runs |
| Reshape.ConcatAt | scripts/data_processor.py:29 | with blocks of equal height h, block b's row i is row `b * h + i` of the concatenation |
| Reshape.ConcatHeight | scripts/data_processor.py:29 | blocks of equal height h concatenate to `blocks * h` rows |
| Reshape.TimesIsProduct | scripts/data_processor.py:29 | the repeated-addition offset is the product |
| Reshape.ProcessData | scripts/data_processor.py:6-29 | the loops, then the concatenation, give `Processed` |
| Reshape.RunLoops | scripts/data_processor.py:8-28 | both loops, recomputing the sensor ids each year, give `Loops` |
| Reshape.LoopErr | scripts/data_processor.py:8-28 | an error within year `year`'s loop is the result of both loops |
| Reshape.AppendYear | scripts/data_processor.py:9-28 | the inner loop appends one block per sensor id, in id order |
| Reshape.BlocksHeight | scripts/data_processor.py:12-28 | one block per step, each as tall as the input |
| Reshape.ProcessedBlocks | scripts/data_processor.py:6-29 | a result is the concatenation of the blocks of all twenty years |
| Reshape.ProcessedRows | scripts/data_processor.py:8-29 | a result has 20 × ids × rows rows and the six output columns |
| Reshape.ProcessedRowAt | scripts/data_processor.py:8-29 | row `((y - 1) * ids + k) * rows + i` of the result is input row i renamed for year y and sensor k |
| Reshape.BlocksRow | scripts/data_processor.py:12-28 | row i of block b is the input's row i renamed and tagged for that step |
| Reshape.BlockRowMeaning | scripts/data_processor.py:12-27 | a block row has exactly the six output columns: the hydrograph and sensor cells of the year under their new names, time and RM unchanged, the year and the sensor id added |
| Reshape.NoSensorsFails | scripts/data_processor.py:29 | without sensor columns the concatenation raises "No objects to concatenate" |
| Reshape.PairsMembers | scripts/data_processor.py:8-9 | every loop step is a year from 1 to 20 and one of the sensor ids |
| Reshape.BlocksSelected | scripts/data_processor.py:8-27 | loops that run to the end found every selected column of every year and id |
| Reshape.SelectedBlocks | scripts/data_processor.py:8-27 | with every selected column present the loops run to the end |
| Reshape.ProcessedOk | scripts/data_processor.py:6-29 | `process_data` succeeds exactly when every sensor column has an id, there is at least one, and every column the loops select is present |
| Reshape.YearSuffix | scripts/data_processor.py:15-16 | the year suffix is always two digits for years 1 to 20 |
| CommitMessage.MessageType | scripts/generate_commit_message.py:7-19 | "fix" iff the lower-cased diff contains "fix"; "feat" iff not that but "add"; "refactor" iff neither but "refactor"; "chore" iff none of the three |
| CommitMessage.MessageTypeIgnoresCase | scripts/generate_commit_message.py:11 | lower-casing the diff first changes nothing |
| CommitMessage.AnyCaseFix | scripts/generate_commit_message.py:11-13 | any casing of "fix" anywhere in the diff makes it a fix |
| CommitMessage.FixStaysFix | scripts/generate_commit_message.py:11-13 | more diff text never turns a fix into anything else |
| CommitMessage.LowerContains | scripts/generate_commit_message.py:11 | an occurrence survives lower-casing of both texts |
| CommitMessage.StagedFiles | scripts/generate_commit_message.py:21-28 | at least one name, none holding a newline, and joining them with newlines gives the stripped output back; empty output gives one empty name |
| CommitMessage.GenerateMessage | scripts/generate_commit_message.py:30-46 | the fixed notice exactly without a diff; otherwise the type, ": Update " and the staged names joined by ", " |
| CommitMessage.TypeReadBack | scripts/generate_commit_message.py:41-46 | the type is the text before the message's first colon |
| CommitMessage.TypeLacksColon | scripts/generate_commit_message.py:13-19 | no type holds a colon |
| CommitMessage.OneFile | scripts/generate_commit_message.py:42-46 | with one staged name the message names exactly that file |
| Jobs.Steps | scripts/updated_visualizer.py:348 | one step per job, in the order the loop visits them |
| Jobs.Tally | scripts/updated_visualizer.py:345-370 | the counter survives iff no job raised past the per-job handler, and then counts the charted jobs |
| Jobs.Charts | scripts/updated_visualizer.py:345-376 | at most one chart per job: the charted count without a raise, and 0 once a job raised |
| Jobs.TallyStep | scripts/updated_visualizer.py:349-370 | one more job moves the counter by one for a chart and stops it at a raise |
| Jobs.TallyDone | scripts/updated_visualizer.py:372 | after the last job the counter is what the loop returns |
| Jobs.ChartedCount | scripts/updated_visualizer.py:366 | at most one chart per job |
| Jobs.CountSteps | scripts/updated_visualizer.py:366 | the charts counted are the jobs whose step is a chart |
| Jobs.ChartsWithoutRaise | scripts/updated_visualizer.py:345-372 | a loop in which no job raises counts exactly its charted jobs |
| Jobs.SumOver | src/sensor-visualization.py:66 | `sum` over a generator succeeds iff every call returns, and otherwise raises the exception of one of them |
| Jobs.SumTotal | src/sensor-visualization.py:66 | a sum whose calls all return is the total of their values |
| Jobs.SumOfZeros | src/sensor-visualization.py:66-78 | a sum of calls each giving 0 or raising is 0 whenever it returns |
| Jobs.SumCounts | src/sensor-visualization.py:66 | a sum of calls giving 1 where a condition holds and 0 elsewhere counts that condition |
| Jobs.Gather | src/hydrograph_seatek_analysis/app.py:123-125 | the loop gathers everything iff no job raises |
| Jobs.GatherStep | src/hydrograph_seatek_analysis/app.py:123-125 | one more job that returns appends its items |
| Jobs.GatherFirstError | src/hydrograph_seatek_analysis/app.py:123-125 | a job that raises after normal ones ends the loop with its exception |
| Jobs.GatherDone | src/hydrograph_seatek_analysis/app.py:123-125 | after the last job the accumulator is the loop's result |
| Jobs.GatherMembers | src/hydrograph_seatek_analysis/app.py:123-125 | what the loop returns is exactly what its jobs produced |
| Jobs.CollectStep | src/visualization/overall_visualization.py:404-430 | a loop that catches every exception appends each job's items in turn |
| Jobs.CollectDone | src/visualization/overall_visualization.py:404-430 | after the last job the accumulator is the loop's result |
| Jobs.CollectMembers | src/visualization/overall_visualization.py:404-430 | each collected item comes from some job, and every job's items are there |
| Frames.Column | utils/processor.py:119 | one cell per row, the row's entry for the column |
| Frames.ToNumeric | utils/processor.py:119 | `to_numeric(errors='coerce')` leaves no text and keeps every non-text cell |
| Frames.Coerced | src/visualization/simplified_sensor_visualization.py:203 | one coerced row per row, in order |
| Frames.Divided | scripts/updated_visualizer.py:355 | division keeps NaN and the infinities and divides numbers |
| Frames.SortBy | src/visualization/simplified_sensor_visualization.py:215 | `sort_values` reorders the rows so the key never decreases, keeping every row with its multiplicity |
| Frames.Distinct | src/visualization/overall_visualization.py:130 | `unique()`: the same values, each once |
| Frames.SortedDistinct | scripts/updated_visualizer.py:348 | `sorted(set(...))`: the same numbers, strictly increasing |
| Frames.LoopYears | scripts/updated_visualizer.py:348 | the loop has years iff `sorted` can order the column (no text, or only text); they are strictly increasing by value or in string order, and exactly the numbers, or the texts, of the year column |
| Frames.LoopYearIn | scripts/updated_visualizer.py:348-351 | a loop year is never NaN and is the year of some row |
| Frames.Texts | scripts/updated_visualizer.py:348 | exactly the strings of the column |
| Frames.SortedTexts | scripts/updated_visualizer.py:348 | `sorted(set(...))` for strings: the same strings, strictly increasing in string order |
| Frames.LessEqAntisymmetric | scripts/updated_visualizer.py:348 | two strings each at most the other are equal |
| Frames.KeyLeAntisymmetric | src/visualization/simplified_sensor_visualization.py:215 | two cells each at most the other in the sort order are equal |
| Frames.FilterMultiplicity | src/utils/utils.py:19-27 | a boolean selection keeps each passing value as often as it occurs and drops the rest |
| Frames.RowsWhere | scripts/updated_visualizer.py:351 | a boolean selection keeps exactly the rows whose cell equals the value |
| Frames.YearFrame | scripts/updated_visualizer.py:351 | the columns kept and exactly the rows whose year equals the given year (none for NaN, which equals nothing) |
| Paths.Suffix | utils/processor.py:52 | empty, or a dot followed by at least one character |
| Paths.Stem | utils/processor.py:52 | a prefix of the name |
| Paths.StemThenSuffix | utils/processor.py:52 | stem and suffix put back together give the name |
| Paths.SuffixHasOneDot | utils/processor.py:52 | the suffix's only dot is its first character |
| Paths.FileName | src/hydrograph_seatek_analysis/data/validator.py:176 | the part after the last `/`, a suffix of the path holding no `/` |
| Paths.SecondToken | utils/processor.py:52 | exists iff the text has a `_`, and holds none itself |
| Paths.MileOf | utils/processor.py:52-53 | a mile only when there is a second token and `float` parses it to that mile |
| Paths.InsertName | utils/processor.py:226-227 | inserting into a sorted list keeps it sorted and adds exactly that name |
| Paths.LessEqTotal | utils/processor.py:226-227 | any two names are ordered one way or the other |
| Paths.LessEqTransitive | utils/processor.py:226-227 | the name order is transitive |

## Left out

- Rendering: figures, axes, scatter and trend lines, colour bars, legends, `tight_layout`, `savefig` and `plt.close`. Whether a figure is drawn is a parameter. Where the source catches a failed draw or save, the failure is a parameter's result. In src/visualization/simplified_sensor_visualization.py:370-377 the `mkdir` and `savefig` are outside any handler; `Simplified.Render.save` stands for them, and a failure it returns ends the run.
- Global plot style: `Visualizer.setup_plot_style` (`sns.set_style`, `plt.rcParams.update`). Only the `rcparams` dictionary itself is modelled.
- The statistics and text of the chart titles and annotations, except the statistics dictionary of the data-processing package's `create_visualization`, the `_cm` readings and the `time_minutes` and `time_hours` axes (`Analyzer.MinutesRows`, `Analyzer.HoursColumn`). The trend lines, `np.polyfit`, are not modelled.
- Reading workbooks and the file system. `read_excel`, `ExcelFile`, `glob`, `exists`, `is_file`, `stat`, `mkdir`, `os.access`, `open`, `shutil.copy2` and `shutil.rmtree` are inputs or parameters. The `mkdir` of the output directory in src/visualization/visualization.py:154 and scripts/updated_visualizer.py:343 is the `dirMade` parameter. When a job loop depends on which files exist, that state is the value `Analyzer.Disk`.
- Analyzer: the `os.makedirs(sensor_dir, exist_ok=True)` of src/sensor_visualization_v2.py:266 and src/data_processing/__init__.py:242 is taken to succeed; an `OSError` from it is not modelled.
- SensorVisualization.RmAsWritten and SensorVisualization.RmCorrected: the `os.makedirs(output_path, exist_ok=True)` of `setup_output_dir_for_sensor` (src/sensor-visualization.py:36) is taken to succeed. A failure would reach `process_file`'s `except Exception` and give 0 for the whole file, which the model does not capture.
- `normalize_path`, `Path.resolve()` and `Path.absolute()`: paths are taken as already resolved.
- `cleanup_output_directory` only deletes and recreates a directory.
- `check_file_accessibility` is the `accessible` parameter of `PathSetup.GetDataPaths`.
- `Config._ensure_directories`, the `mkdir` calls made by `Config.__post_init__`: `Configuration.MakeConfig` derives the paths only.
- The two `git diff` calls of the commit-message helper: their outputs are inputs.
- Logging, and the checks that only log: the `is_numeric_dtype` warnings and the missing-value warning of `validate_summary_file`, the unique-value logging of the combined script, the per-job warnings.
- Concurrency, logging setup, packaging, command-line entry points and the housekeeping scripts.
- src/hydrograph_seatek_analysis/data/processor.py is not part of this model. `App.Services` stands for the processor and chart generator of the application.
- Floating point: arithmetic is on `real`, so rounding is not modelled. NaN and the infinities are kept as cells where the source filters or compares them.
- Correlation.Calculate: the coefficient is kept as a numerator and the square of its denominator. The square root is never taken, so every bound on the coefficient is stated in squared form.
- Analyzer.ChartStats: reports the sample variance where the source reports `std`, its square root.
- `str(float)` and `:.1f` in output paths are symbolic pieces. Two paths are equal when their pieces are, so path equality is as fine as the pieces, not the printed text.
- Frames.YearPiece: `Paths.Repr(v)` stands for the printed text of a numeric year. Python prints a year read into an integer column as `2020` and one read into a float column as `2020.0`; the column's dtype is not tracked, so one piece stands for both.
- `float(str)` accepts decimal literals with a sign, a point, an exponent and surrounding whitespace. The literals `inf`, `infinity` and `nan`, and digit-group underscores, are treated as parse failures. `int(str)` (`PyFloat.ParseInt`) accepts ASCII digits with a sign and surrounding whitespace; digit-group underscores are treated as parse failures. Both `float()` and `int()` also accept non-ASCII decimal digits (`float('١٢')` is 12.0); the model accepts ASCII digits only and treats other digits as parse failures.
- Case mapping in `Strings.Lower` and in title-casing covers the ASCII letters only. `Strings.IsSpace` covers only the six ASCII whitespace characters (space, tab, newline, carriage return, vertical tab, form feed). Python's `split()` and `strip()` also split on `\x1c`–`\x1f`, `\x85`, `\xa0` and the other Unicode spaces, so names containing those split or strip differently.
- Frames.LoopYears: the loops over `sorted(df['Year'].unique())` visit the distinct finite numeric years in ascending order, or, for a year column of text only, the distinct strings in string order. Text beside a number or NaN makes `sorted` raise a `TypeError`. A NaN year selects no rows in the source and is not listed. An infinite year is not listed either, so a chart for an infinite year is not modelled. When a NaN is present, Python's `sorted` does not sort at all: every comparison with NaN is false, so `sorted([2.0, nan, 1.0])` is `[2.0, nan, 1.0]`. The model visits the numeric years in ascending order, so with a NaN present the order in which every year is visited (and charts are written) may differ from the source's. This affects the `sorted` calls at validator.py:115, updated_visualizer.py:348, visualization.py:158, simplified_sensor_visualization.py:354 and app.py:125.
- Validator.SheetYears: NaN is placed after every other value, and the other values ascend. With a NaN in the column, Python's `sorted` does not produce a sorted list (`sorted([2.0, nan, 1.0])` is `[2.0, nan, 1.0]`), so the order of every listed year may differ, not only the position of NaN. The set of listed years is the same.
- Reshape.Block: the `KeyError` that pandas raises for missing selected columns is given as the list of those columns, not pandas' exact wording.
- Exception texts that come from Python itself, such as comparison, division and unpacking `TypeError`s, are fixed constants close to CPython's wording. They are not derived from the operands, except the `int()` and `float()` parse errors, which carry the text, and the unexpected keyword arguments of the two settings classes.
- Configuration.NavdWith: the `TypeError` for unexpected keyword arguments carries the whole set of unexpected names, whereas CPython's message names only the first.
- Configuration.ChartWith: the `TypeError` for unexpected keyword arguments carries the whole set of unexpected names, whereas CPython's message names only the first.
- Processor.Merged: pandas' order of the outer join's rows, and its order among rows with equal `Time (Minutes)` after the sort, are not modelled. The contracts state which rows there are, how many rows share a time, and that the result is sorted.
- Processor.NothingFabricated: requires the sensor column to differ from `Time (Seconds)`, `Hydrograph (Lagged)` and `Time (Minutes)` (`Processor.SeparateSensor`); a sensor with one of those names would collide with that column in the merged frame.
- Processor.KeepsSensorReadings: requires `Processor.SeparateSensor`, for the same reason.
- Processor.KeepsHydroReadings: requires `Processor.SeparateSensor`, for the same reason.
- Processor.ZeroedWithoutReadings: requires `Processor.SeparateSensor`, for the same reason.
- Processor.JoinedInMerged: requires `Processor.SeparateSensor`, for the same reason.
- Processor.ProcessedKeepsReadings: requires `Processor.SeparateSensor`, for the same reason.
- Processor.ProcessedKeepsHydrograph: requires `Processor.SeparateSensor`, for the same reason.
- Processor.ProcessedZeroFallback: requires `Processor.SeparateSensor`, for the same reason.
- Reshape.ProcessedRowAt: the row position is written with `Reshape.Times`, repeated addition; `Reshape.TimesIsProduct` proves it is the product.
- PathSetup.VerifyFilesExist: takes the required files as a list of pairs. The source's dictionary cannot hold the same path twice; the list can.
- `PurePath`: a POSIX path beginning with exactly two slashes, which `pathlib` keeps as `//`, is read as a path from the single root.
- The `KeyError` handler of `clean_data` in src/utils/utils.py:42-43 is unreachable: inside the loop (src/utils/utils.py:34-36) each required column is checked before it is used, and a missing one raises `DataVisualizationError` first. The handler has no counterpart in the model.

## Findings

| source | as written | input that shows it | evidently intended | confidence | as-written member | corrected member |
|---|---|---|---|---|---|---|
| src/sensor-visualization.py:49-51 | `_process_year_data` calls `create_sensor_visualization` and `save_visualization`, which the script neither defines nor imports; the `NameError` escapes the `ValueError` handler, ends the `sum` and is caught by `process_file`, which returns 0 | a readable file `RM_54_1.xlsx`, in a directory whose path holds no `_`, with a `Sensor_1` column, a `Time (Seconds)` and a `Year` column, and two positive readings in year 1 (its token `54` parses at line 73, so the year loop is reached; a plain `RM_<n>.xlsx` name stops at line 73 instead) | one chart per (present sensor, year) pair whose readings clean and whose drawing succeeds | not executed | SensorVisualization.FileAsWrittenAlwaysZero | SensorVisualization.FileCorrectedCounts |
| src/sensor-visualization.py:73 | the river mile is `float(file_path.split("_")[1])` on the whole path, so for `RM_54.xlsx` the token is `54.xlsx` and `float` raises | `RM_54.xlsx` | the token after `RM_` in the file's stem, 54 | not executed | SensorVisualization.WholePathMileFails | SensorVisualization.FileMileOfRmName |
