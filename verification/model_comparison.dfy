/**
 * The model comparison report: one result record per configured regressor
 * (metrics and a count of negative predictions, or the error that stopped
 * its evaluation), the recommendation of the best business-safe model, and
 * the rows of the markdown table.
 *
 * Loading the models, predicting on the test set and computing MAE, RMSE
 * and R² are taken as given: each configured model comes with an
 * `Evaluation` holding what those steps produced.
 */
module ModelComparison {
  import opened Wrappers

  // ---------------------------------------------------------------------
  // Configuration and evaluation outcomes
  // ---------------------------------------------------------------------

  datatype ModelConfig = ModelConfig(name: string, path: string, kind: string)

  /** The two regressors the report compares. */
  const ModelConfigs: seq<ModelConfig> := [
    ModelConfig("Linear Regression", "E:/AI_learning/models/california_housing_pipeline_v1_linear.joblib", "regressor"),
    ModelConfig("Random Forest", "E:/AI_learning/models/california_housing_pipeline_v1_rf.joblib", "regressor")
  ]

  /** What loading the model, predicting and scoring produced, or the message of what it raised. */
  datatype Run =
    | Completed(mae: real, rmse: real, r2: real, predictions: seq<real>)
    | Raised(message: string)

  /** Whether the model file exists, and what running it produced. */
  datatype Evaluation = Evaluation(fileExists: bool, run: Run)

  datatype EvalError = FileNotFound(path: string) | EvaluationFailed(message: string)

  /** A report entry: the metrics of a model, or the error that replaced them. */
  datatype ResultRecord =
    | MetricRecord(modelName: string, mae: real, rmse: real, r2: real,
                   negativePredictions: nat, isBusinessSafe: bool)
    | ErrorRecord(modelName: string, error: EvalError)

  // ---------------------------------------------------------------------
  // Negative predictions and the safety flag
  // ---------------------------------------------------------------------

  /** The number of predictions strictly below zero. */
  function NegativeCount(predictions: seq<real>): (n: nat)
    ensures n <= |predictions|
  {
    if |predictions| == 0 then 0
    else (if predictions[0] < 0.0 then 1 else 0) + NegativeCount(predictions[1..])
  }

  /** No prediction is counted exactly when every prediction is non-negative. */
  lemma {:induction false} NoNegativesIff(predictions: seq<real>)
    ensures NegativeCount(predictions) == 0 <==> forall i :: 0 <= i < |predictions| ==> predictions[i] >= 0.0
  {
    if |predictions| > 0 {
      NoNegativesIff(predictions[1..]);
      assert forall i :: 1 <= i < |predictions| ==> predictions[i] == predictions[1..][i - 1];
    }
  }

  /** Every prediction is counted exactly when every prediction is negative. */
  lemma {:induction false} AllNegativeIff(predictions: seq<real>)
    ensures NegativeCount(predictions) == |predictions| <==> forall i :: 0 <= i < |predictions| ==> predictions[i] < 0.0
  {
    if |predictions| > 0 {
      AllNegativeIff(predictions[1..]);
      assert forall i :: 1 <= i < |predictions| ==> predictions[i] == predictions[1..][i - 1];
    }
  }

  /** The count over a concatenation is the sum of the counts. */
  lemma {:induction false} NegativeCountAppend(a: seq<real>, b: seq<real>)
    ensures NegativeCount(a + b) == NegativeCount(a) + NegativeCount(b)
  {
    if |a| > 0 {
      assert (a + b)[1..] == a[1..] + b;
      NegativeCountAppend(a[1..], b);
    } else {
      assert a + b == b;
    }
  }

  // ---------------------------------------------------------------------
  // One result record per configured model
  // ---------------------------------------------------------------------

  /**
   * The body of the evaluation loop for one model: a missing file raises
   * before anything is loaded, an exception during loading or scoring is
   * caught, and otherwise the metrics are recorded with the number of
   * negative predictions and the safety flag.
   */
  function Evaluate(config: ModelConfig, ev: Evaluation): (r: ResultRecord)
    ensures r.modelName == config.name
    ensures !ev.fileExists ==> r == ErrorRecord(config.name, FileNotFound(config.path))
    ensures ev.fileExists && ev.run.Raised? ==> r == ErrorRecord(config.name, EvaluationFailed(ev.run.message))
    ensures r.MetricRecord? <==> ev.fileExists && ev.run.Completed?
    ensures r.MetricRecord? ==>
      r.mae == ev.run.mae && r.rmse == ev.run.rmse && r.r2 == ev.run.r2 &&
      r.negativePredictions == NegativeCount(ev.run.predictions) &&
      (r.isBusinessSafe <==> forall i :: 0 <= i < |ev.run.predictions| ==> ev.run.predictions[i] >= 0.0)
  {
    if !ev.fileExists then
      ErrorRecord(config.name, FileNotFound(config.path))
    else
      match ev.run
      case Raised(message) => ErrorRecord(config.name, EvaluationFailed(message))
      case Completed(mae, rmse, r2, predictions) =>
        var negatives := NegativeCount(predictions);
        NoNegativesIff(predictions);
        MetricRecord(config.name, mae, rmse, r2, negatives, negatives == 0)
  }

  /** The evaluation loop: appends one record per configuration, in order. */
  method EvaluateAll(configs: seq<ModelConfig>, evaluate: ModelConfig -> Evaluation)
    returns (results: seq<ResultRecord>)
    ensures |results| == |configs|
    ensures forall i :: 0 <= i < |configs| ==> results[i] == Evaluate(configs[i], evaluate(configs[i]))
    ensures forall i :: 0 <= i < |configs| ==> results[i].modelName == configs[i].name
    ensures forall i :: 0 <= i < |configs| && !evaluate(configs[i]).fileExists ==> results[i].ErrorRecord?
  {
    results := [];
    for i := 0 to |configs|
      invariant |results| == i
      invariant forall j :: 0 <= j < i ==> results[j] == Evaluate(configs[j], evaluate(configs[j]))
    {
      results := results + [Evaluate(configs[i], evaluate(configs[i]))];
    }
  }

  /** The report on the configured regressors holds a linear-regression record, then a random-forest one. */
  lemma ConfiguredModelRecords(evaluate: ModelConfig -> Evaluation)
    ensures |ModelConfigs| == 2
    ensures Evaluate(ModelConfigs[0], evaluate(ModelConfigs[0])).modelName == "Linear Regression"
    ensures Evaluate(ModelConfigs[1], evaluate(ModelConfigs[1])).modelName == "Random Forest"
  {
  }

  // ---------------------------------------------------------------------
  // Recommendation
  // ---------------------------------------------------------------------

  /** The safety flag of a record, read with `False` as the default: an error record has none. */
  function IsSafe(r: ResultRecord): (safe: bool)
    ensures r.ErrorRecord? ==> !safe
  {
    r.MetricRecord? && r.isBusinessSafe
  }

  /** An evaluated model is safe exactly when it completed without a single negative prediction. */
  lemma SafeIffCompletedWithoutNegatives(config: ModelConfig, ev: Evaluation)
    ensures IsSafe(Evaluate(config, ev)) <==>
      ev.fileExists && ev.run.Completed? &&
      forall i :: 0 <= i < |ev.run.predictions| ==> ev.run.predictions[i] >= 0.0
  {
  }

  /**
   * The index of the recommended model: filtering the safe records and taking
   * the maximum by R², as one left fold where a later record replaces the
   * current best only when its R² is strictly greater. `None` when no
   * record is safe.
   */
  function Recommend(results: seq<ResultRecord>): (best: Option<nat>)
    ensures best.None? <==> forall j :: 0 <= j < |results| ==> !IsSafe(results[j])
    ensures best.Some? ==>
      best.value < |results| && IsSafe(results[best.value]) &&
      (forall j :: 0 <= j < |results| && IsSafe(results[j]) ==> results[j].r2 <= results[best.value].r2) &&
      (forall j :: 0 <= j < best.value && IsSafe(results[j]) ==> results[j].r2 < results[best.value].r2)
    decreases |results|
  {
    if |results| == 0 then None
    else
      var last := |results| - 1;
      var earlier := Recommend(results[..last]);
      if !IsSafe(results[last]) then earlier
      else if earlier.None? || results[last].r2 > results[earlier.value].r2 then Some(last)
      else earlier
  }

  /** `b` is a safe record with the greatest R² among safe records, and the first such. */
  predicate IsFirstSafeMaximum(results: seq<ResultRecord>, b: nat) {
    b < |results| && IsSafe(results[b]) &&
    (forall j :: 0 <= j < |results| && IsSafe(results[j]) ==> results[j].r2 <= results[b].r2) &&
    (forall j :: 0 <= j < b && IsSafe(results[j]) ==> results[j].r2 < results[b].r2)
  }

  /** The recommendation is the only first safe maximum. */
  lemma RecommendIsUniqueFirstSafeMaximum(results: seq<ResultRecord>, b: nat)
    requires IsFirstSafeMaximum(results, b)
    ensures Recommend(results) == Some(b)
  {
    assert Recommend(results).Some?;
  }

  /** `results` with `r` inserted at position `k`. */
  function InsertAt(results: seq<ResultRecord>, k: nat, r: ResultRecord): (inserted: seq<ResultRecord>)
    requires k <= |results|
    ensures |inserted| == |results| + 1 && inserted[k] == r
    ensures forall j :: 0 <= j < |results| ==> inserted[if j < k then j else j + 1] == results[j]
  {
    results[..k] + [r] + results[k..]
  }

  /** Every other index of the inserted sequence comes from `results`. */
  lemma InsertAtElsewhere(results: seq<ResultRecord>, k: nat, r: ResultRecord, j: nat)
    requires k <= |results| && j <= |results| && j != k
    ensures InsertAt(results, k, r)[j] == results[if j < k then j else j - 1]
  {
  }

  /** An index into `results` moved to its place once a record is inserted at `k`. */
  function ShiftPast(index: Option<nat>, k: nat): (shifted: Option<nat>)
    ensures shifted.Some? <==> index.Some?
    ensures shifted.Some? ==> shifted.value == if index.value < k then index.value else index.value + 1
  {
    match index
    case None => None
    case Some(i) => Some(if i < k then i else i + 1)
  }

  /**
   * Only the safe records matter: inserting a record that is not safe anywhere
   * recommends the same record, its index shifted past the insertion point.
   */
  lemma UnsafeRecordDoesNotChangeRecommendation(results: seq<ResultRecord>, k: nat, r: ResultRecord)
    requires k <= |results| && !IsSafe(r)
    ensures Recommend(InsertAt(results, k, r)) == ShiftPast(Recommend(results), k)
  {
    match Recommend(results)
    case None =>
      InsertUnsafeIntoNoneSafe(results, k, r);
    case Some(b) =>
      InsertUnsafeKeepsBest(results, k, r, b);
  }

  /** The recommended record stays recommended, at its shifted index. */
  lemma InsertUnsafeKeepsBest(results: seq<ResultRecord>, k: nat, r: ResultRecord, b: nat)
    requires k <= |results| && !IsSafe(r)
    requires Recommend(results) == Some(b)
    ensures Recommend(InsertAt(results, k, r)) == Some(if b < k then b else b + 1)
  {
    InsertUnsafeBeforeOrAfterBest(results, k, r, b);
    RecommendIsUniqueFirstSafeMaximum(InsertAt(results, k, r), if b < k then b else b + 1);
  }

  /** With no safe record, inserting an unsafe one still leaves none. */
  lemma InsertUnsafeIntoNoneSafe(results: seq<ResultRecord>, k: nat, r: ResultRecord)
    requires k <= |results| && !IsSafe(r)
    requires forall j :: 0 <= j < |results| ==> !IsSafe(results[j])
    ensures Recommend(InsertAt(results, k, r)) == None
  {
    var inserted := InsertAt(results, k, r);
    forall j | 0 <= j < |inserted| ensures !IsSafe(inserted[j]) {
      if j != k {
        InsertAtElsewhere(results, k, r, j);
      }
    }
  }

  /** The first safe maximum keeps its place among the safe records when an unsafe record is inserted. */
  lemma InsertUnsafeBeforeOrAfterBest(results: seq<ResultRecord>, k: nat, r: ResultRecord, b: nat)
    requires k <= |results| && !IsSafe(r)
    requires IsFirstSafeMaximum(results, b)
    ensures IsFirstSafeMaximum(InsertAt(results, k, r), if b < k then b else b + 1)
  {
    var inserted := InsertAt(results, k, r);
    var shifted := if b < k then b else b + 1;
    assert inserted[shifted] == results[b];
    forall j | 0 <= j < |inserted| && IsSafe(inserted[j])
      ensures inserted[j].r2 <= inserted[shifted].r2
      ensures j < shifted ==> inserted[j].r2 < inserted[shifted].r2
    {
      InsertAtElsewhere(results, k, r, j);
    }
  }

  // ---------------------------------------------------------------------
  // Markdown report
  // ---------------------------------------------------------------------

  /** A line of the markdown report: fixed text, or a table row with its cell values. */
  datatype MarkdownLine =
    | Text(text: string)
    | Row(modelName: string, mae: real, rmse: real, r2: real, negatives: nat, safeIcon: string)

  const SafeIcon := "✅"
  const UnsafeIcon := "❌"

  const Title := "# 📊 Day 14 模型 A/B 测试报告\n"
  const ColumnNames := "| 模型 | MAE ($k) | RMSE ($k) | R² | 负预测数 | 安全 |"
  const Divider := "|------|----------|-----------|-----|----------|------|"

  /** The three fixed lines that open the report: title, column names, separator; none is a table row. */
  function Header(): (lines: seq<MarkdownLine>)
    ensures |lines| == 3 && lines[0] == Text(Title)
    ensures forall k :: 0 <= k < |lines| ==> lines[k].Text?
  {
    [Text(Title), Text(ColumnNames), Text(Divider)]
  }

  /** The table row of a successful record. */
  function RowOf(r: ResultRecord): (line: MarkdownLine)
    requires r.MetricRecord?
    ensures line.Row? && line.modelName == r.modelName && line.r2 == r.r2
    ensures line.mae == r.mae && line.rmse == r.rmse && line.negatives == r.negativePredictions
    ensures line.safeIcon == SafeIcon <==> r.isBusinessSafe
    ensures line.safeIcon == UnsafeIcon <==> !r.isBusinessSafe
  {
    Row(r.modelName, r.mae, r.rmse, r.r2, r.negativePredictions,
        if r.isBusinessSafe then SafeIcon else UnsafeIcon)
  }

  /** The table rows: one per record without an error, in record order. */
  function Rows(results: seq<ResultRecord>): (rows: seq<MarkdownLine>)
    ensures |rows| <= |results|
    ensures forall k :: 0 <= k < |rows| ==> rows[k].Row?
  {
    if |results| == 0 then []
    else
      var last := |results| - 1;
      Rows(results[..last]) + (if results[last].MetricRecord? then [RowOf(results[last])] else [])
  }

  /** Rows of a concatenation are the rows of each part, in order. */
  lemma {:induction false} RowsAppend(a: seq<ResultRecord>, b: seq<ResultRecord>)
    ensures Rows(a + b) == Rows(a) + Rows(b)
    decreases |b|
  {
    if |b| == 0 {
      assert a + b == a;
    } else {
      var last := |b| - 1;
      assert (a + b)[..|a + b| - 1] == a + b[..last];
      RowsAppend(a, b[..last]);
    }
  }

  /** Each successful record has its row, and each row comes from a successful record. */
  lemma {:induction false} RowsMatchSuccessfulRecords(results: seq<ResultRecord>)
    ensures forall j :: 0 <= j < |results| && results[j].MetricRecord? ==> RowOf(results[j]) in Rows(results)
    ensures forall line :: line in Rows(results) ==>
      exists j :: 0 <= j < |results| && results[j].MetricRecord? && line == RowOf(results[j])
  {
    if |results| > 0 {
      var last := |results| - 1;
      var prefix := results[..last];
      RowsMatchSuccessfulRecords(prefix);
      forall line | line in Rows(results)
        ensures exists j :: 0 <= j < |results| && results[j].MetricRecord? && line == RowOf(results[j])
      {
        if line in Rows(prefix) {
          var j :| 0 <= j < |prefix| && prefix[j].MetricRecord? && line == RowOf(prefix[j]);
          assert results[j] == prefix[j];
        } else {
          assert results[last].MetricRecord? && line == RowOf(results[last]);
        }
      }
      forall j | 0 <= j < |results| && results[j].MetricRecord?
        ensures RowOf(results[j]) in Rows(results)
      {
        if j < last {
          assert results[j] == prefix[j];
        }
      }
    }
  }

  /** Error records produce no row: the table has as many rows as there are successful records. */
  lemma {:induction false} RowCountIsSuccessCount(results: seq<ResultRecord>)
    ensures |Rows(results)| == |results| - ErrorCount(results)
  {
    if |results| > 0 {
      RowCountIsSuccessCount(results[..|results| - 1]);
    }
  }

  /** The number of error records. */
  function ErrorCount(results: seq<ResultRecord>): (n: nat)
    ensures n <= |results|
  {
    if |results| == 0 then 0
    else ErrorCount(results[..|results| - 1]) + (if results[|results| - 1].ErrorRecord? then 1 else 0)
  }

  /** The markdown loop: the three header lines, then a row per successful record. */
  method MarkdownReport(results: seq<ResultRecord>) returns (lines: seq<MarkdownLine>)
    ensures lines == Header() + Rows(results)
    ensures |lines| == 3 + |results| - ErrorCount(results)
  {
    lines := [Text(Title)];
    lines := lines + [Text(ColumnNames)];
    lines := lines + [Text(Divider)];
    for i := 0 to |results|
      invariant lines == Header() + Rows(results[..i])
    {
      assert results[..i + 1][..i] == results[..i];
      if results[i].MetricRecord? {
        lines := lines + [RowOf(results[i])];
      }
    }
    assert results[..|results|] == results;
    RowCountIsSuccessCount(results);
  }
}
