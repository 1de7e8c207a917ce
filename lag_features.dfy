/** `create_lags`: the scalar series as fixed-width feature rows and their targets. */
module LagFeatures {
  import opened Wrappers

  /**
   * Ruby's `Array#[]` with an integer index: a negative index counts from the end and an index
   * outside the array gives nil.
   */
  function Fetch<T>(s: seq<T>, i: int): Option<T> {
    if 0 <= i < |s| then Some(s[i])
    else if -|s| <= i < 0 then Some(s[|s| + i])
    else None
  }

  /** `series[i].to_f`: nil becomes 0.0. */
  function ValueAt(series: seq<real>, i: int): real {
    Fetch(series, i).GetOr(0.0)
  }

  /** `(1..lags).map { |lag| series[i - lag].to_f }`: most recent value first; empty when lags < 1. */
  function LagRow(series: seq<real>, i: int, lags: int): seq<real> {
    seq(if lags > 0 then lags else 0, k requires 0 <= k => ValueAt(series, i - (k + 1)))
  }

  /** The window in reverse chronological order. */
  function Reversed(s: seq<real>): (r: seq<real>)
    ensures |r| == |s|
  {
    seq(|s|, k requires 0 <= k < |s| => s[|s| - 1 - k])
  }

  /** Number of rows `create_lags` produces for a series of length n. */
  function RowCount(n: nat, lags: int): nat {
    if n > lags then n - lags else 0
  }

  /** All the lag rows of the series, one per target index from `lags` on. */
  function LagRows(series: seq<real>, lags: int): seq<seq<real>> {
    seq(RowCount(|series|, lags), j requires 0 <= j => LagRow(series, lags + j, lags))
  }

  /** All the targets of the series: `series[i].to_f` for each index i from `lags` on. */
  function LagTargets(series: seq<real>, lags: int): seq<real> {
    seq(RowCount(|series|, lags), j requires 0 <= j => ValueAt(series, lags + j))
  }

  /**
   * `create_lags`: one row per index i from `lags` up to the end. For lags >= 0, row j targets
   * `series[j + lags]` and holds exactly the `lags` values before it, most recent first: no value
   * at or after the target's position.
   */
  method CreateLags(series: seq<real>, lags: int) returns (features: seq<seq<real>>, targets: seq<real>)
    ensures |features| == |targets| == RowCount(|series|, lags)
    ensures forall j :: 0 <= j < |features| ==> |features[j]| == if lags > 0 then lags else 0
    ensures lags >= 0 ==> forall j :: 0 <= j < |targets| ==> targets[j] == series[j + lags]
    ensures lags >= 0 ==> forall j :: 0 <= j < |features| ==> features[j] == Reversed(series[j..j + lags])
    ensures features == LagRows(series, lags) && targets == LagTargets(series, lags)
  {
    features, targets := [], [];
    var i := lags;
    while i < |series|
      invariant |features| == |targets| == i - lags
      invariant lags <= i
      invariant i <= |series| || i == lags
      invariant forall j :: 0 <= j < |features| ==> features[j] == LagRow(series, lags + j, lags)
      invariant forall j :: 0 <= j < |targets| ==> targets[j] == ValueAt(series, lags + j)
    {
      features := features + [LagRow(series, i, lags)];
      targets := targets + [ValueAt(series, i)];
      i := i + 1;
    }
    if lags >= 0 {
      forall j | 0 <= j < |features| ensures features[j] == Reversed(series[j..j + lags]) {
        LagRowIsReversedWindow(series, j, lags);
      }
    }
  }

  /** For lags >= 0 and a target inside the series, the lag row is the reversed preceding window. */
  lemma LagRowIsReversedWindow(series: seq<real>, j: nat, lags: nat)
    requires j + lags <= |series|
    ensures LagRow(series, j + lags, lags) == Reversed(series[j..j + lags])
  {
    var row, w := LagRow(series, j + lags, lags), Reversed(series[j..j + lags]);
    forall k | 0 <= k < lags ensures row[k] == w[k] {
      assert row[k] == ValueAt(series, j + lags - (k + 1));
    }
  }
}
