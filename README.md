# Credit-risk assessment: a verified model of the scoring dashboard and the preprocessing pipeline

This project models the deterministic core of a small credit-default
application in Dafny. It has two parts:

- **The assessment dashboard** (`src/dashboard.py`). The dashboard collects six
  applicant fields and builds a one-row feature frame. That frame is all zeros
  except for the six written fields, with education and marital status
  encoded as 1/2/3. The dashboard turns the classifier's default probability
  `p` into the score `int((1 - p) * 1000)`. It buckets the score into
  Low (>= 700), Medium (>= 500) or High, and shows the level's prewritten
  summary and a badge styled by level.
- **The preprocessing pipeline** (`src/data_preprocessing.py`):
  - `remove_outliers_iqr` keeps the rows whose value lies within
    [Q1 - 1.5 IQR, Q3 + 1.5 IQR]. The quartiles use pandas' linear
    interpolation.
  - `engineer_features` adds the row mean, the sample standard deviation and
    (except for payment amounts) the row maximum of the repayment-status,
    bill-amount and payment-amount series. It writes these columns into the
    frame in place.
  - `clean_and_engineer` filters on LIMIT_BAL, then on AGE. It then adds
    `log_limit_bal = log1p(LIMIT_BAL)` and engineers the aggregates.

The files:

- `frames.dfy` (module `Frames`) models the part of a pandas DataFrame the
  code relies on:
  - The value `Frame` is an ordered list of distinct labels, a column per
    label and a row count.
  - The class `Table` is the object that `df[label] = ...` updates in place.
    Assigning to an existing label overwrites that column where it stands;
    assigning to a new label appends the column.
- `stats.dfy` (module `Stats`) holds the numeric reductions: sum, mean,
  maximum, sample variance, sorting, and the interpolated quantile.
- `scoring.dfy` (module `Scoring`) models the dashboard.
- `preprocessing.dfy` (module `Preprocessing`) models the pipeline.

Three behaviours of the code that the model keeps:

- Assigning a value to a label the feature list lacks appends a new column
  (pandas' behaviour). `Scoring.UserFrameContents` states the resulting
  columns.
- A filter that keeps no rows raises nothing; the pipeline goes on and
  returns the empty frame. The model also proves that a non-empty input
  never filters down to nothing (`Preprocessing.FilteredRows`).
- A missing column raises pandas' `KeyError` naming it. `engineer_features`
  updates its frame in place, so the blocks that ran before the failing one
  keep their columns (`Preprocessing.EngineeredPartial`).

## Model

| member | source | states |
|---|---|---|
| Frames.Column | src/data_preprocessing.py:8 | `df[column]` on a well-formed frame is a series with one value per row |
| Frames.WithColumn | src/data_preprocessing.py:50 | assignment keeps the row count and every other column; an existing label keeps its place, a new label is appended; distinct labels and equal column lengths are preserved |
| Frames.ZeroFrame | src/dashboard.py:37 | the zero frame has exactly the feature labels, in order, one row, and 0 in every column |
| Frames.Table.Zeros | src/dashboard.py:37 | the new table holds the one-row zero frame over the feature labels |
| Frames.Table.Assign | src/data_preprocessing.py:21 | assigning a column updates the object to exactly the frame `WithColumn` describes and keeps it well formed |
| Frames.ExtendsWithColumn | src/data_preprocessing.py:21 | one column assignment keeps a well-formed frame well formed, keeps its rows and old columns in order, adds exactly the written label and leaves every other column unchanged |
| Frames.ExtendsTrans | src/data_preprocessing.py:21-23 | assignments done one after another add the union of their labels and leave every column neither of them names unchanged |
| Frames.Table.AssignScalar | src/dashboard.py:40 | assigning a scalar broadcasts it to every row of the column |
| Frames.Broadcast | src/dashboard.py:40 | a broadcast scalar is a series of the frame's length holding that value in every row |
| Stats.Mean | src/data_preprocessing.py:21 | the row mean lies between the row's minimum and maximum |
| Stats.SampleVariance | src/data_preprocessing.py:22 | the variance behind `std` (divisor n - 1) is never negative |
| Stats.MaxOf | src/data_preprocessing.py:23 | the row maximum is one of the row's values and bounds all of them |
| Stats.ConstantSeries | src/data_preprocessing.py:21-23 | a row of equal values has that value as mean and maximum, and zero variance |
| Stats.SortAsc | src/data_preprocessing.py:8-9 | the values the quantile reads are sorted and are a permutation of the column |
| Stats.Quantile | src/data_preprocessing.py:8-9 | the linearly interpolated quantile lies between the column's minimum and maximum |
| Stats.SortedIsFixed | src/data_preprocessing.py:8-9 | sorting values already in ascending order leaves them as they are |
| Stats.QuartilesOfFive | src/data_preprocessing.py:8-9 | with five values Q1 and Q3 are exactly the second and fourth sorted value |
| Stats.QuartilesOfFour | src/data_preprocessing.py:8-9 | with four values Q1 and Q3 interpolate three quarters and one quarter of the way between neighbouring sorted values |
| Stats.QuantileMonotone | src/data_preprocessing.py:8-9 | Q1 never exceeds Q3, so the IQR is never negative |
| Scoring.EncodeEducation | src/dashboard.py:44 | the education code is 1, 2 or 3 |
| Scoring.EncodeMarital | src/dashboard.py:45 | the marital code is 1, 2 or 3 |
| Scoring.EncodingTables | src/dashboard.py:44-45 | Graduate/University/High School are 1/2/3; Married is 1, Single 2, Others 3; each encoding is one-to-one on its options |
| Scoring.WrittenValues | src/dashboard.py:40-45 | the form writes one value per written label |
| Scoring.BuildUserData | src/dashboard.py:37-45 | the zero fill and the six in-place writes produce exactly the frame `UserFrame` describes |
| Scoring.ApplyWritesShape | src/dashboard.py:40-45 | scalar writes keep the row count and the existing columns in order, keep the frame well formed, and add exactly the written labels |
| Scoring.ApplyWritesWellFormed | src/dashboard.py:40-45 | scalar writes keep the frame well formed and keep its row count |
| Scoring.ApplyWritesPrefix | src/dashboard.py:40-45 | scalar writes keep the existing columns first and in order |
| Scoring.ApplyWritesLabels | src/dashboard.py:40-45 | scalar writes add exactly the written labels to the column labels |
| Scoring.ApplyWritesKeepsColumns | src/dashboard.py:40-45 | writes to labels that all exist leave the column list unchanged |
| Scoring.ApplyWritesValues | src/dashboard.py:40-45 | after distinct writes, each written label holds its value in every row and every other column is unchanged |
| Scoring.ApplyWritesKeys | src/dashboard.py:40-45 | scalar writes keep the row count and add exactly the written labels as keys |
| Scoring.ApplyWritesWritten | src/dashboard.py:40-45 | after distinct writes every written label holds its value in every row |
| Scoring.ApplyWritesOthers | src/dashboard.py:40-45 | scalar writes leave every column they do not name as it was |
| Scoring.UserFrameIsWrites | src/dashboard.py:37-45 | the dashboard's six writes are the generic write sequence over six distinct labels |
| Scoring.WritesOnZeros | src/dashboard.py:37-45 | distinct writes on a zero frame leave one row: written labels hold their values and other features stay 0 |
| Scoring.UserFrameContents | src/dashboard.py:37-45 | the classifier's input has one row; the feature list comes first, in order, followed by any written labels it lacks; written labels hold the form's values and every other feature is 0 |
| Scoring.DefaultForm | src/dashboard.py:28-45 | the form's default values (35, 50000, 10000, 60000, Graduate, Single) lie within the widgets' ranges and give a row with AGE 35, LIMIT_BAL 50000, avg_pay_amt 10000, max_bill_amt 60000, EDUCATION 1, MARRIAGE 2 and 0 in every other feature |
| Scoring.UserFrameNoExtraColumns | src/dashboard.py:37-45 | when the feature list holds the six written labels, the input has exactly the feature list's columns |
| Scoring.Truncate | src/dashboard.py:49 | `int()` truncates toward zero on both signs |
| Scoring.RiskScore | src/dashboard.py:49 | a probability in [0, 1] gives a score in [0, 1000], the floor of (1 - p) * 1000 |
| Scoring.ScoreEndpoints | src/dashboard.py:49 | probability 0 scores 1000 and probability 1 scores 0 |
| Scoring.ScoreAntitone | src/dashboard.py:49 | a higher default probability never gives a higher score |
| Scoring.Bucket | src/dashboard.py:51-56 | Low exactly when the score is at least 700, Medium exactly for 500 to 699, High exactly below 500 |
| Scoring.BucketBoundaries | src/dashboard.py:51-56 | the levels at the boundary scores 700/699 and 500/499 |
| Scoring.BucketMonotone | src/dashboard.py:51-56 | a higher score never gives a riskier level |
| Scoring.LevelByProbability | src/dashboard.py:48-56 | through the score, the level is Low exactly for p <= 0.3, Medium for 0.3 < p <= 0.5, High above |
| Scoring.Summary | src/dashboard.py:59-63 | the summary lookup never misses, and no two levels share a text |
| Scoring.BadgeByLevel | src/dashboard.py:68-73 | Low shows a success badge, Medium a warning, High an error |
| Scoring.Assess | src/dashboard.py:49-77 | the panel's score is floor((1 - p) * 1000), in [0, 1000] for a valid probability; its level is the bucket of that score, and its summary and badge are the level's |
| Preprocessing.Pick | src/data_preprocessing.py:13 | selecting positions yields the values at those positions, in order; applied to positions, it maps a selection of a selection back to the original |
| Preprocessing.SelectRows | src/data_preprocessing.py:13 | a mask selection keeps the columns and takes every column's values at the selected positions |
| Preprocessing.SelectionCompose | src/data_preprocessing.py:46-47 | filtering a filtered frame is one selection of the original rows, in order |
| Preprocessing.IqrFences | src/data_preprocessing.py:8-12 | the fences lie 1.5 IQR outside the quartiles, so they are 4 IQR apart and enclose both quartiles |
| Preprocessing.MaskFrom | src/data_preprocessing.py:13 | the kept positions from a start on are increasing, in range, and exactly those whose value lies within the fences |
| Preprocessing.MaskPositions | src/data_preprocessing.py:13 | a position is kept exactly when its value satisfies both comparisons of the mask |
| Preprocessing.RemoveOutliersIqr | src/data_preprocessing.py:4-13 | KeyError exactly when the column is missing; otherwise the columns are kept and the rows are exactly those within the fences, in order; every kept value lies within the fences |
| Preprocessing.ThirdQuartileValueWithin | src/data_preprocessing.py:8-12 | the sorted value at Q3's position always lies within the fences |
| Preprocessing.ThirdQuartileBelowUpper | src/data_preprocessing.py:8-12 | the sorted value at Q3's position is at most the upper fence Q3 + 1.5 IQR |
| Preprocessing.ThirdQuartileAboveLower | src/data_preprocessing.py:8-12 | the sorted value at Q3's position is at least the lower fence Q1 - 1.5 IQR |
| Preprocessing.RemoveOutliersKeepsARow | src/data_preprocessing.py:4-13 | outlier removal never empties a non-empty frame |
| Preprocessing.MissingColumn | src/data_preprocessing.py:21 | selecting `df[cols]` fails exactly when some listed column is missing, and names a missing one |
| Preprocessing.RowValues | src/data_preprocessing.py:21 | a row of `df[cols]` holds that row's value in each listed column, in order |
| Preprocessing.Series | src/data_preprocessing.py:21-23 | the row-wise reduction has one value per row, each the reduction of that row's values |
| Preprocessing.SameSeries | src/data_preprocessing.py:21-23 | a row-wise reduction reads only its source columns |
| Preprocessing.WithAggregates | src/data_preprocessing.py:20-23 | a block keeps the rows, keeps the columns first and in order, adds exactly its labels and leaves every other column unchanged |
| Preprocessing.AggregateStep | src/data_preprocessing.py:20-23 | a block fails exactly when a source column is missing, then writes nothing and names that column; otherwise it performs all its writes |
| Preprocessing.AddAggregates | src/data_preprocessing.py:20-23 | the in-place block leaves the object as `AggregateStep` describes and reports the same error |
| Preprocessing.EngineerFeatures | src/data_preprocessing.py:15-36 | the in-place function leaves the object as `Engineered` describes and reports the same error |
| Preprocessing.EngineeredIsRun | src/data_preprocessing.py:19-34 | the three straight-line blocks equal running the block list in order |
| Preprocessing.AfterPayIsRun | src/data_preprocessing.py:25-34 | the bill and payment-amount blocks equal running those two blocks in order |
| Preprocessing.SourcesApart | src/data_preprocessing.py:20-34 | no block writes one of its own sources or a later block's |
| Preprocessing.LabelsApart | src/data_preprocessing.py:21-34 | the blocks write eight different labels, and `max_pay_amt` is not one of them |
| Preprocessing.BlocksIndependent | src/data_preprocessing.py:19-34 | the three blocks are independent and together write exactly the eight aggregate labels |
| Preprocessing.RunBlocksShape | src/data_preprocessing.py:15-36 | running blocks keeps the rows and the existing columns, first and in order, and keeps the frame well formed |
| Preprocessing.RunBlocksLabels | src/data_preprocessing.py:15-36 | running blocks adds only block labels, and all of them when no KeyError occurs |
| Preprocessing.RunBlocksKeeps | src/data_preprocessing.py:15-36 | running blocks leaves every column outside the block labels unchanged |
| Preprocessing.RunBlocksError | src/data_preprocessing.py:15-36 | a run fails exactly when some block's source is missing from the input, and names a missing source |
| Preprocessing.AggregatesPerRow | src/data_preprocessing.py:21-23 | each output row holds the mean, sqrt of the sample variance and (where present) the maximum of that row's source values |
| Preprocessing.WithAggregatesValues | src/data_preprocessing.py:20-23 | a block's mean, std and max columns are the reductions of the sources as they were before the block ran |
| Preprocessing.RunBlocksFirst | src/data_preprocessing.py:19-34 | once the first block's sources exist, its aggregates survive the later blocks, a KeyError included |
| Preprocessing.RunBlocksValues | src/data_preprocessing.py:15-36 | after a successful run, every block's aggregates are those of the input frame's sources |
| Preprocessing.EngineeredShape | src/data_preprocessing.py:15-36 | `engineer_features` keeps the rows, columns and non-aggregate values; it adds only the eight labels, all of them on success, and never `max_pay_amt` |
| Preprocessing.EngineeredError | src/data_preprocessing.py:15-36 | `engineer_features` raises KeyError exactly when one of the eighteen sources is missing, and names a missing one |
| Preprocessing.EngineeredValues | src/data_preprocessing.py:15-36 | on success each row holds the mean, std and (except for payment amounts) the max of its own six values in each series |
| Preprocessing.EngineeredPartial | src/data_preprocessing.py:19-34 | with the repayment columns present, their aggregates stay in the frame even when a later block raises, and the error names a bill or payment-amount column |
| Preprocessing.Filtered | src/data_preprocessing.py:46-47 | the two passes fail exactly when LIMIT_BAL or AGE is missing; otherwise the columns are kept |
| Preprocessing.FilteredRows | src/data_preprocessing.py:46-47 | the two passes keep the rows at some increasing list of input positions, and keep at least one row of a non-empty input |
| Preprocessing.MaskFromPrefix | src/data_preprocessing.py:13 | when exactly the first m values lie within the fences, the mask holds at positions 0 to m - 1 |
| Preprocessing.PassKeepsPrefix | src/data_preprocessing.py:4-13 | when exactly the first m values lie within the fences, one pass keeps the first m rows of every column |
| Preprocessing.FencesOfFive | src/data_preprocessing.py:8-12 | the fences of five sorted values come from the second and fourth value |
| Preprocessing.FencesOfFour | src/data_preprocessing.py:8-12 | the fences of four sorted values come from the interpolated quartiles |
| Preprocessing.FilterOrderMatters | src/data_preprocessing.py:46-47 | the order of the passes matters: with LIMIT_BAL [0, 0, 0, 0, 100] and AGE [0, 0, 0, 10, 1000], LIMIT_BAL then AGE keeps 3 rows, AGE then LIMIT_BAL keeps 4 |
| Preprocessing.LogLimit | src/data_preprocessing.py:50 | each row's `log_limit_bal` is log1p of that row's LIMIT_BAL |
| Preprocessing.Prepared | src/data_preprocessing.py:46-50 | after the filters and the log column, the frame has the filtered rows, one added label, the log values, and every other column unchanged |
| Preprocessing.LogLabelIsNew | src/data_preprocessing.py:50 | `log_limit_bal` is neither an aggregate source nor an aggregate label |
| Preprocessing.CleanAndEngineer | src/data_preprocessing.py:38-55 | the step-by-step pipeline, with its in-place writes, returns exactly the result `CleanedAndEngineered` describes |
| Preprocessing.CleanAndEngineerError | src/data_preprocessing.py:38-55 | the pipeline fails exactly when one of the twenty columns it reads is missing from its input, and names a missing one |
| Preprocessing.CleanAndEngineerResult | src/data_preprocessing.py:38-55 | on success: the filtered rows, the input's columns first, plus only `log_limit_bal` and the eight aggregate labels; log1p of LIMIT_BAL per row; every kept column unchanged; each block's aggregates of each row's own series |

## Left out

- The Streamlit page: layout, widgets, metric and chart rendering. The form's values are an `Applicant` parameter.
- Loading the classifier, the explainer and the feature list from files. The feature list is a parameter of the dashboard functions.
- `predict_proba`: the default probability is an input of `Scoring.Assess` and `Scoring.RiskScore`.
- The SHAP explanation and its bar chart (src/dashboard.py:79-85). They are rendering of a foreign model's output.
- Floating-point arithmetic and NaN. Values are exact reals. `np.log1p` and the square root inside `std` are uninterpreted function parameters.
- Scoring.FormRanges: records the ranges the number inputs enforce, but not the credit-limit step of 10000. The widgets enforce these ranges, not the scoring code; only `Scoring.DefaultForm` refers to them.
- Preprocessing.MissingColumn: names only the first missing column. pandas lists every missing label in its KeyError message.
- Duplicate column labels are not modelled; a well-formed frame has distinct labels.
- Column dtypes (integer versus float) are not modelled.
- Row index labels are not modelled. A selection is described by the positions it keeps, in order.
- The selections in `clean_and_engineer` produce a new frame, and the model treats them so. pandas' copy-versus-view warnings are not modelled.
- The command-line or notebook code that calls the pipeline and writes datasets is not part of this model.
