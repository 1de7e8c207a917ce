# Sales forecasting pipeline and experiment agent: a Dafny model

This project models the core of a small Ruby sales-forecasting repository.

`forecast.rb` reads a sales CSV. The file may have a bad encoding or stray carriage returns.
When the first read fails, `ensure_utf8_csv` runs a fallback chain:

- it tries the candidate encodings UTF-8, Windows-1252, ISO-8859-1 and ASCII in order;
- it normalises newlines and scrubs control characters from each decoded text;
- it keeps the first text that parses;
- if no candidate parses, it ends in a last-resort decode.

`load_and_aggregate` then:

- checks that the date and sales columns exist;
- drops the rows whose date does not parse;
- sums the sales per date, counting an unparsable amount as 0.0;
- emits the dates in ascending order with their totals.

After aggregation the script:

- turns the daily series into lag features (`create_lags`);
- cuts a temporal train/test split, aborting on a degenerate one;
- asks a random forest for predictions;
- computes the mean absolute error;
- writes dated forecast rows in which each row pairs a date with the actual value at the same series index.

`forecast_agent.rb` is the experiment loop. It asks a language model for one JSON action per iteration, on the current parameter state. The actions are `train`, `eval`, `set_param`, `increase_trees`, `decrease_trees`, `save` and `stop`. The loop stops on invalid JSON, on a disallowed action, on `stop`, or after the 6th iteration.

Files:

- `wrappers.dfy`: `Option` and `Result`.
- `text_cleanup.dfy`: the two newline passes and the control-character scrub, as pure functions, with their algebra.
- `encoding_repair.dfy`: the fallback chain.
  - The reference function `TryFrom` describes it.
  - The method `EnsureUtf8Csv` runs the chain as the source's loop with an early return.
  - Transcoding, CSV parsing and the last-resort decode are function-typed parameters.
- `aggregation.dfy`: the aggregation.
  - The method `LoadAndAggregate` keeps a hash and its insertion order, as the source's loop does.
  - The method `SortKeys` sorts the keys.
  - Both are specified against the reference definitions `DatesIn` and `DayTotal`.
- `lag_features.dfy`: `create_lags` as a loop.
  - Ruby's array indexing is modelled exactly: a negative index counts from the end, and an index out of range gives nil, which becomes 0.0.
- `forecast.dfy`: the top-level script from `create_lags` to the written artifacts.
  - The random forest is a `Predictor` parameter.
- `agent.dfy`: the agent loop.
  - Replies are the values of a function `llm(iteration, state)`; `None` means the reply is not valid JSON.
  - The reference functions `Dispatch`, `Iteration` and `Loop` describe the loop, and the methods `Perform`, `RunIteration` and `RunAgent` carry it out on a mutable state.
  - JSON values are a `Value` datatype, so the cases where Ruby's `+` or `-` raise are explicit.
  - A reply's `params` is the list of pairs `params.each` walks, or `None` when it has no `each`, so the `set_param` crash is explicit too.

## Model

| member | source | states |
|---|---|---|
| TextCleanup.NormalizeNewlines | forecast.rb:57 | the result has no CR and is no longer than the input |
| TextCleanup.NormalizeCrlf | forecast.rb:57 | each CRLF becomes exactly one LF, and the text on each side of it is normalised on its own |
| TextCleanup.NormalizeLoneCr | forecast.rb:57 | a CR not followed by LF becomes exactly one LF, and the text on each side of it is normalised on its own |
| TextCleanup.NormalizeKeepsCrFree | forecast.rb:57 | text without CR comes back unchanged |
| TextCleanup.NormalizeIdempotent | forecast.rb:57 | normalising twice is the same as normalising once |
| TextCleanup.Scrub | forecast.rb:58 | same length; LF, TAB and code points from 32 up are kept in place; every other character becomes a space |
| TextCleanup.ScrubIdempotent | forecast.rb:58 | scrubbing twice is the same as scrubbing once |
| TextCleanup.Clean | forecast.rb:57-58 | a cleaned candidate text has no CR and only allowed characters |
| TextCleanup.CleanIdempotent | forecast.rb:57-58 | cleaning a cleaned text changes nothing |
| EncodingRepair.EnsureUtf8Csv | forecast.rb:39-79 | missing file → abort; first read parses → original path; first read raises an unrescued error → crash; first read rejected → the fallback chain over the four candidates in order |
| EncodingRepair.FirstDecisiveWins | forecast.rb:54-71 | the first candidate that is not skipped decides: its cleaned text is accepted under its name, or its unrescued error ends the run |
| EncodingRepair.AllSkippedFallsBack | forecast.rb:54-78 | when every candidate is skipped, the chain ends in the last-resort step |
| EncodingRepair.CleanedTextIsWellFormed | forecast.rb:56-64 | an accepted candidate is one of the candidates; its text is the cleaned decoding under it; that text parsed, has no CR and holds only allowed characters |
| EncodingRepair.FallbackTextHasNoCr | forecast.rb:73-78 | a fallback result means every candidate was skipped; its text is the newline-normalised last-resort decoding and has no CR |
| EncodingRepair.FallbackAsWrittenRaises | forecast.rb:73 | as written, once all four candidates are skipped the run crashes instead of falling back |
| EncodingRepair.FallbackWithTotalDecodeAccepts | forecast.rb:73-78 | with a decode that never raises, and parses that raise nothing unrescued, the chain never crashes; it falls back exactly when every candidate is skipped, with the normalised decoding |
| Aggregation.KeepDated | forecast.rb:100 | every kept row has a parsed date |
| Aggregation.KeepDatedKeepsTotals | forecast.rb:91-110 | dropping the undated rows changes neither the set of dates nor any date's total |
| Aggregation.AbsentDateTotalsZero | forecast.rb:101-109 | a date no row parses to totals 0.0, the hash's default |
| Aggregation.SortKeys | forecast.rb:112 | the distinct hash keys come out strictly increasing, with the same length and the same elements |
| Aggregation.LoadAndAggregate | forecast.rb:86-114 | abort exactly when a named column is missing; otherwise the dates are strictly increasing and are exactly the parsed dates of the rows, and each value is the sum of the coerced amounts of that date's rows |
| LagFeatures.CreateLags | forecast.rb:117-126 | the rows and targets are exactly `LagRows`/`LagTargets`: max(n - lags, 0) rows, each of width max(lags, 0); for lags ≥ 0, row j targets `series[j + lags]` and holds the `lags` values before it, most recent first |
| LagFeatures.LagRowIsReversedWindow | forecast.rb:121 | a lag row is the reversed window of the `lags` values preceding its target |
| Forecast.SplitSamples | forecast.rb:155-165 | abort exactly when `train_size` is not strictly between 0 and `n_samples`, with those two numbers; otherwise the train part is the first `train_size` rows and targets and the test part the rest, and train ++ test gives back both |
| Forecast.AbsErrorSum | forecast.rb:139 | the zipped sum of absolute errors is non-negative, and zero exactly when every actual value equals its prediction |
| Forecast.Mae | forecast.rb:138-139 | the MAE is non-negative, and zero exactly when every prediction is exact |
| Forecast.ForecastRows | forecast.rb:177-183 | one record per test target: the date at `LAGS + train_size + i` (nil past the end), the actual value and the prediction |
| Forecast.TestTargetsAlign | forecast.rb:177-181 | test target i is the series value at `LAGS + train_size + i` |
| Forecast.RunForecast | forecast.rb:149-192 | abort exactly when there are no lag rows (with `NotEnoughData`) or the split is degenerate (with `InvalidTrainFrac(train_size, n_samples)`); otherwise the predictions are the predictor's output for the configured hyperparameters, trained on the first `train_size` lag rows and targets only and applied to the remaining rows; the MAE is `Mae` of the actual and predicted columns, ≥ 0 and zero exactly when every row is exact; counts and model parameters are as configured; each row's date and actual value come from the same series index |
| ForecastAgent.InitialState | forecast_agent.rb:60-63 | the state holds exactly the four parameter keys |
| ForecastAgent.AllowedActionByName | forecast_agent.rb:80-83 | a reply's action is accepted exactly when it is a string in `ALLOWED_ACTIONS`, and it selects the action of that name |
| ForecastAgent.Perform | forecast_agent.rb:85-104 | the in-place `case action` body has exactly the effect `Dispatch` describes |
| ForecastAgent.IncreaseTreesAddsFifty | forecast_agent.rb:93-95 | `increase_trees` adds 50 to an integer or float count, nil and false count as 200, and no other key changes; it raises exactly for a string, `true` or a composite value |
| ForecastAgent.DecreaseTreesFloorsAtTen | forecast_agent.rb:96-98 | `decrease_trees` gives `max(v - 50, 10)` for an integer or float count (a float below the floor becomes the integer 10), 150 for nil or false, and no other key changes; it raises exactly for a string, `true` or a composite value |
| ForecastAgent.TrainEvalSaveKeepState | forecast_agent.rb:86-103 | `train` and `eval` launch with exactly the four state values and change nothing; `save` changes nothing; `stop` halts |
| ForecastAgent.SetParamCrashesWithoutPairs | forecast_agent.rb:78-91 | `set_param` crashes exactly when `params` has no `each` (a JSON string, number or `true`); otherwise it goes on without a launch, adds no key, and each existing key ends with the value of the last pair naming it |
| ForecastAgent.SetParamsLastWins | forecast_agent.rb:90-92 | `set_param` never adds a key; each existing key ends with the value of the last parameter naming it, or keeps its value |
| ForecastAgent.DispatchKeepsKeys | forecast_agent.rb:85-104 | an action that lets the loop go on keeps the state's key set |
| ForecastAgent.Iteration | forecast_agent.rb:67-106 | invalid JSON, a disallowed action or `stop` ends the iteration at once with the state and launches unchanged, and each of those halts implies its reply; the loop goes on only before the 6th iteration; at most one launch is recorded and the earlier ones stay |
| ForecastAgent.RunIteration | forecast_agent.rb:67-106 | the imperative loop body ends exactly as `Iteration` describes |
| ForecastAgent.RunAgent | forecast_agent.rb:60-108 | the loop ends in the state, iteration count, launches and reason that `Loop` gives from the initial state, after 1 to 6 iterations |
| ForecastAgent.LoopBounds | forecast_agent.rb:65-108 | the loop runs at most 6 iterations, and it stops at the cap only after the 6th |
| ForecastAgent.LoopKeepsRuns | forecast_agent.rb:86-89 | launches already made stay in order, and each remaining iteration adds at most one |
| ForecastAgent.IterationKeepsKeys | forecast_agent.rb:85-104 | one iteration keeps the state's key set, whether the loop goes on or ends |
| ForecastAgent.LoopKeepsKeys | forecast_agent.rb:90-98 | whatever the replies, the final state has exactly the four parameter keys |
| ForecastAgent.EarlyStopKeepsState | forecast_agent.rb:72-103 | a reply that is invalid JSON, names a disallowed action or is `stop` ends the loop at that iteration with the state and launches unchanged; conversely, when the loop ends for one of these reasons, the reply at the final iteration, on the final state, is the one that caused it |

## Left out

- File I/O is not modelled:
  - the existence check, the `File.binread` bytes and the first `Daru::DataFrame.from_csv` outcome are inputs;
  - the side files written under `OUT_DIR`, the logging and `warn` are left out;
  - the CSV and JSON text of the artifacts is left out, and the model stops at the values written.
- Library calls are parameters:
  - the transcoding, `CSV.parse`, `Date.parse` and `Float()` are partial functions;
  - the Daru table is a header plus rows of cell strings, and Daru's own type coercion of numeric columns is folded into the `Float()` parser.
- Floating point is modelled by reals: no rounding and no NaN.
  - The RMSE and `Math.sqrt` are not modelled.
  - The `round(4)` of the printed metrics is not modelled.
- Dates are day numbers; `Date.parse` maps a cell to one.
- Forecast.Mae: requires a non-empty test set. The source divides by zero there and gets NaN, but a degenerate split aborts before that.
- Forecast.RunForecast: requires that the predictor returns one prediction per test row. This is the random forest's contract, which the script relies on without checking it.
- The random forest itself (training, `random_seed: 1`) is an opaque `Predictor` parameter.
- Agent effects are not modelled:
  - the HTTP call to the language model, its errors (`raise` when the key is missing or the response is not a success), `Open3` and the subprocess's exit status, `sleep` and the log file;
  - a reply is already parsed;
  - a reply is a `Command` or invalid JSON, so the replies that crash the agent at forecast_agent.rb:77 are not modelled: `obj["action"]` raises TypeError for a JSON array or integer and NoMethodError for a JSON float or boolean, and nothing rescues either;
  - a JSON `null` reply is modelled as invalid JSON, as the `obj.nil?` test at forecast_agent.rb:73 treats it, and a JSON string reply as a `Command` whose action is not allowed, since `String#[]` gives nil or the substring "action".
- The environment strings the subprocess receives are modelled as the state values (`RunEnv`), not as their `to_s` text. The start-up `to_i`/`to_f` parsing of the environment is left out: `InitialState` takes the parsed numbers.
- `forecast_service.py` and `call_arima.rb` are not part of this model.
- Behaviour of the code that the model keeps as written:
  - `load_and_aggregate` does not reject an empty series; the `features.empty?` check at forecast.rb:150 catches it later, except with a negative `LAGS`, where Ruby's indexing yields rows anyway and the model keeps that indexing;
  - forecast.rb:73 always raises (see Findings);
  - the script never checks that the predictor returns one value per test row.

## Findings

| source | as written | input that shows it | evidently intended | confidence | as-written member | corrected member |
|---|---|---|---|---|---|---|
| forecast.rb:73 | `raw.decode('utf-8', invalid: :replace, undef: :replace)`: Ruby's `String` has no `decode` method, so the last-resort step raises NoMethodError | a file whose first read is rejected and whose four candidate decodings all fail to transcode or fail to parse | `raw.encode('UTF-8', invalid: :replace, undef: :replace)`: a decode that replaces what it cannot convert and never raises, so the chain always ends in an accepted text | high (not executed) | EncodingRepair.FallbackAsWrittenRaises | EncodingRepair.FallbackWithTotalDecodeAccepts |
