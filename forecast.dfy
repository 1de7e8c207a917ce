/**
 * The top-level script of `forecast.rb` from the aggregated series on: lag rows, the temporal
 * train/test split, the model's predictions (a foreign library, so a parameter), the MAE, and
 * the dated forecast rows.
 */
module Forecast {
  import opened Wrappers
  import opened LagFeatures
  import Aggregation

  type Date = Aggregation.Date

  /** The run's configuration, read once from the environment. */
  datatype Config = Config(lags: int, trainFrac: real, nEstimators: int, maxDepth: int)

  /** The random forest's fit-and-predict: hyperparameters, train rows and targets, test rows. */
  type Predictor = (int, int, seq<seq<real>>, seq<real>, seq<seq<real>>) -> seq<real>

  /** The fatal errors of the script after aggregation. */
  datatype Abort = NotEnoughData(lags: int) | InvalidTrainFrac(trainSize: int, samples: nat)

  /** Feature rows and targets cut at the train/test boundary. */
  datatype Split = Split(xTrain: seq<seq<real>>, yTrain: seq<real>, xTest: seq<seq<real>>, yTest: seq<real>)

  /** One line of the forecast table; the date is nil when the index falls outside `dates`. */
  datatype ForecastRecord = ForecastRecord(date: Option<Date>, actual: real, predicted: real)

  /** What the run writes: the forecast table and the metrics summary. */
  datatype Report = Report(nEstimators: int, maxDepth: int, lags: int, mae: real,
                           rows: nat, trainSize: nat, testSize: nat, forecast: seq<ForecastRecord>)

  /** `(TRAIN_FRAC * n_samples).floor`. */
  function TrainSize(frac: real, n: nat): int {
    (frac * n as real).Floor
  }

  /**
   * Lines 155-165: abort unless 0 < train_size < n_samples; otherwise the train part is the
   * first train_size rows and the test part the rest, both in their original order.
   */
  function SplitSamples(features: seq<seq<real>>, targets: seq<real>, frac: real): (r: Result<Split, Abort>)
    requires |features| == |targets|
    ensures r.Success? <==> 0 < TrainSize(frac, |features|) < |features|
    ensures r.Failure? ==> r.error == InvalidTrainFrac(TrainSize(frac, |features|), |features|)
    ensures r.Success? ==>
              && |r.value.xTrain| == |r.value.yTrain| == TrainSize(frac, |features|)
              && |r.value.xTest| == |r.value.yTest| == |features| - TrainSize(frac, |features|)
              && r.value.xTrain + r.value.xTest == features
              && r.value.yTrain + r.value.yTest == targets
              && r.value.xTrain == features[..TrainSize(frac, |features|)]
              && r.value.yTrain == targets[..TrainSize(frac, |features|)]
              && r.value.xTest == features[TrainSize(frac, |features|)..]
  {
    var n := |features|;
    var ts := TrainSize(frac, n);
    if ts <= 0 || ts >= n then Failure(InvalidTrainFrac(ts, n))
    else
      assert features[..ts] + features[ts..] == features;
      assert targets[..ts] + targets[ts..] == targets;
      Success(Split(features[..ts], targets[..ts], features[ts..], targets[ts..]))
  }

  function Abs(x: real): real {
    if x < 0.0 then -x else x
  }

  /** `y_true.zip(y_pred).map { |a, p| (a - p).abs }.sum`: zip stops at the actuals' length. */
  function AbsErrorSum(actual: seq<real>, preds: seq<real>): (s: real)
    requires |actual| <= |preds|
    ensures s >= 0.0
    ensures s == 0.0 <==> forall i :: 0 <= i < |actual| ==> actual[i] == preds[i]
    decreases |actual|
  {
    if actual == [] then 0.0
    else
      var rest := AbsErrorSum(actual[1..], preds[1..]);
      assert rest == 0.0 <==> forall i :: 1 <= i < |actual| ==> actual[i] == preds[i] by {
        assert forall i :: 1 <= i < |actual| ==> actual[1..][i - 1] == actual[i] && preds[1..][i - 1] == preds[i];
      }
      Abs(actual[0] - preds[0]) + rest
  }

  /** The MAE of `metrics`: non-negative, and zero exactly when every prediction is exact. */
  function Mae(actual: seq<real>, preds: seq<real>): (m: real)
    requires 0 < |actual| <= |preds|
    ensures m >= 0.0
    ensures m == 0.0 <==> forall i :: 0 <= i < |actual| ==> actual[i] == preds[i]
  {
    AbsErrorSum(actual, preds) / (|actual| as real)
  }

  /** Lines 177-183: the test rows, dated from `LAGS + train_size` on, with their predictions. */
  method ForecastRows(dates: seq<Date>, start: int, yTest: seq<real>, preds: seq<real>)
    returns (records: seq<ForecastRecord>)
    requires |yTest| <= |preds|
    ensures |records| == |yTest|
    ensures forall i :: 0 <= i < |records| ==>
              records[i] == ForecastRecord(Fetch(dates, start + i), yTest[i], preds[i])
  {
    records := [];
    for i := 0 to |yTest|
      invariant |records| == i
      invariant forall k :: 0 <= k < i ==> records[k] == ForecastRecord(Fetch(dates, start + k), yTest[k], preds[k])
    {
      records := records + [ForecastRecord(Fetch(dates, start + i), yTest[i], preds[i])];
    }
  }

  /** The `actual` column of the forecast table. */
  function Actuals(records: seq<ForecastRecord>): (a: seq<real>)
    ensures |a| == |records|
  {
    seq(|records|, i requires 0 <= i < |records| => records[i].actual)
  }

  /** The `predicted` column of the forecast table. */
  function Predictions(records: seq<ForecastRecord>): (p: seq<real>)
    ensures |p| == |records|
  {
    seq(|records|, i requires 0 <= i < |records| => records[i].predicted)
  }

  /** The test targets are the series values from `LAGS + train_size` on. */
  lemma TestTargetsAlign(series: seq<real>, lags: nat, targets: seq<real>, s: Split)
    requires lags + |targets| <= |series|
    requires forall j :: 0 <= j < |targets| ==> targets[j] == series[j + lags]
    requires s.yTrain + s.yTest == targets
    ensures forall i :: 0 <= i < |s.yTest| ==> s.yTest[i] == series[lags + |s.yTrain| + i]
  {
    forall i | 0 <= i < |s.yTest|
      ensures s.yTest[i] == series[lags + |s.yTrain| + i]
    {
      assert s.yTest[i] == targets[|s.yTrain| + i];
    }
  }

  /**
   * The script from `create_lags` to the artifacts. It aborts when there are no lag rows or the
   * split is degenerate. Otherwise each forecast row i carries the date and the actual value at
   * the same series index `LAGS + train_size + i`, the MAE is zero exactly when every row's
   * prediction equals its actual value, and the counts are those of the series and the split.
   */
  method RunForecast(dates: seq<Date>, series: seq<real>, cfg: Config, predict: Predictor)
    returns (r: Result<Report, Abort>)
    requires |dates| == |series|
    requires forall e, d, xa, ya, xb :: |predict(e, d, xa, ya, xb)| == |xb|
    ensures r.Failure? <==>
              || |series| <= cfg.lags
              || !(0 < TrainSize(cfg.trainFrac, |series| - cfg.lags) < |series| - cfg.lags)
    ensures r.Failure? && |series| <= cfg.lags ==> r.error == NotEnoughData(cfg.lags)
    ensures r.Failure? && |series| > cfg.lags ==>
              var n := |series| - cfg.lags;
              r.error == InvalidTrainFrac(TrainSize(cfg.trainFrac, n), n)
    ensures r.Success? ==>
              var n := |series| - cfg.lags;
              var ts := TrainSize(cfg.trainFrac, n);
              && r.value.rows == |series|
              && r.value.trainSize == ts
              && r.value.testSize == n - ts == |r.value.forecast|
              && (r.value.nEstimators, r.value.maxDepth, r.value.lags) == (cfg.nEstimators, cfg.maxDepth, cfg.lags)
              && r.value.mae >= 0.0
              && r.value.mae == Mae(Actuals(r.value.forecast), Predictions(r.value.forecast))
              && (var rows, targets := LagRows(series, cfg.lags), LagTargets(series, cfg.lags);
                  Predictions(r.value.forecast)
                    == predict(cfg.nEstimators, cfg.maxDepth, rows[..ts], targets[..ts], rows[ts..]))
              && (r.value.mae == 0.0 <==> forall i :: 0 <= i < |r.value.forecast| ==>
                    r.value.forecast[i].actual == r.value.forecast[i].predicted)
              && (cfg.lags >= 0 ==> forall i :: 0 <= i < |r.value.forecast| ==>
                    && r.value.forecast[i].date == Some(dates[cfg.lags + ts + i])
                    && r.value.forecast[i].actual == series[cfg.lags + ts + i])
  {
    var features, targets := CreateLags(series, cfg.lags);
    if |features| == 0 {
      return Failure(NotEnoughData(cfg.lags));
    }
    var split := SplitSamples(features, targets, cfg.trainFrac);
    if split.Failure? {
      return Failure(split.error);
    }
    var s := split.value;
    var trainSize := |s.yTrain|;
    var preds := predict(cfg.nEstimators, cfg.maxDepth, s.xTrain, s.yTrain, s.xTest);
    var mae := Mae(s.yTest, preds);
    var records := ForecastRows(dates, cfg.lags + trainSize, s.yTest, preds);
    assert Actuals(records) == s.yTest;
    assert Predictions(records) == preds;
    if cfg.lags >= 0 {
      TestTargetsAlign(series, cfg.lags, targets, s);
    }
    return Success(Report(cfg.nEstimators, cfg.maxDepth, cfg.lags, mae, |series|, trainSize, |s.yTest|, records));
  }
}
