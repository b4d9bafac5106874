# Unified prediction API and model comparison report, modelled in Dafny

This project models the core of a small inference service. It also models a
script that compares two candidate housing regressors and recommends one.

**Prediction endpoint** (`prediction_api.dfy`, module `PredictionApi`).
At startup the service loads two predictors: an iris classifier and a
California-housing regressor. A single `POST /predict` call then routes on
`task_type`. For `"iris"` it checks that the classifier is loaded (500
otherwise) and that exactly 4 features were sent (400 otherwise). It then
decodes the class index through the fixed list `setosa, versicolor,
virginica`, and the reply carries the species as both `prediction` and
`label`. For `"housing"` it performs the same two checks with 8 features. It
clamps the regressor's output at zero, rounds it to 2 decimals and replies
with that number and no label. Any other task type is a 400.

The predictors are opaque functions: `seq<real> -> int` for the classifier
and `seq<real> -> real` for the regressor. The registry is a value built by
`Startup` from what each artifact load produced. `Predict` is a function of
the registry and the request, so identical inputs give identical replies by
construction. The Python field `label` is called `labelText`, because
`label` is a Dafny keyword.

**Model comparison** (`model_comparison.dfy`, module `ModelComparison`).
For each configured regressor, the evaluation loop appends one record. A
missing file or any exception gives an error record. Otherwise the record
holds MAE, RMSE, R², the number of negative predictions and the flag
`is_business_safe`, which is set when that number is zero. The script then
recommends the safe model with the highest R². It also emits a markdown
table: three header lines, then one row per record without an error.

`wrappers.dfy` holds the `Option` datatype used by both modules.

Three behaviours worth knowing:

- One broken artifact disables both tasks. `api/main.py` loads both models in
  one `try` block and sets both to `None` on any failure
  (`HousingLoadFailureDisablesIris`).
- Features are not checked for NaN or infinity; the code has no such check,
  and features are reals here.
- Class-index decoding is the one place where `Predict` does not follow the
  code as written. Python list indexing makes class indices -3..-1 decode to a
  species with status 200. `Predict` uses the corrected decoding
  `DecodeSpecies`, under which those indices give a 500 `ClassIndexOutOfRange`.
  The as-written lookup is kept as `PyLabelAt`; see "## Findings".

## Model

| member | source | states |
|---|---|---|
| `PredictionApi.Startup` | api/main.py:30-52 | All or nothing: the classifier is loaded iff the regressor is. Both are loaded iff both artifact loads succeeded, and then they hold the loaded predictors. |
| `PredictionApi.HousingLoadFailureDisablesIris` | api/main.py:30-52 | A regressor load failure makes every iris request a 500 "model not loaded". |
| `PredictionApi.PyLabelAt` | api/main.py:102-103 | The lookup as written (Python list indexing) yields a species exactly for indices -3..2. |
| `PredictionApi.PyLabelAtAcceptsNegativeIndex` | api/main.py:102-103 | As written, class index -1 decodes to "virginica" instead of failing. |
| `PredictionApi.DecodeSpecies` | api/main.py:102-103 | Corrected decoding: a species exactly for indices 0..2, namely the name at that position of the label list. |
| `PredictionApi.DecodeSpeciesAgreesAndIsInjective` | api/main.py:102-103 | On every valid index the corrected decoder agrees with the list lookup, and distinct indices give distinct species. |
| `PredictionApi.Clamp` | api/main.py:127 | `max(0.0, x)`: at least 0 and at least x, and equal to one of them. |
| `PredictionApi.Round2` | api/main.py:130 | Rounding to 2 decimals gives a whole number of hundredths within half a hundredth of x. It is non-negative for non-negative x. |
| `PredictionApi.NormalizePrice` | api/main.py:126-130 | Clamping before rounding makes the price non-negative and a whole number of hundredths. A non-positive raw value gives 0, and a positive one gives a price within 0.005 of it. |
| `PredictionApi.Predict` | api/main.py:77-140 | An Ok reply echoes the task type. Iris: the prediction is one of the three species and the label equals it. Housing: the prediction is a non-negative number of hundredths with no label. An error is 400 iff it is a client error (wrong count, unknown task), otherwise 500. |
| `PredictionApi.UnloadedModelIsServerError` | api/main.py:85-121 | For either task, an unloaded model gives 500 whatever the features. Availability is checked before the feature count. |
| `PredictionApi.WrongCountIsClientError` | api/main.py:90-121 | With the model loaded, a feature count other than 4 (iris) or 8 (housing) gives 400 with the expected and received counts. |
| `PredictionApi.ChecksPrecedeInvocation` | api/main.py:85-124 | When a check fails, the reply is an error that is the same for any predictors with the same load status, so the model is never invoked. |
| `PredictionApi.IrisReply` | api/main.py:97-110 | With a loaded classifier and 4 features, under the corrected decoding (see Findings), the reply is Ok exactly when the class index i is in 0..2. It is then `{iris, species i, species i}`, and otherwise a 500 naming the index. |
| `PredictionApi.HousingReply` | api/main.py:123-136 | With a loaded regressor and 8 features, the reply is always Ok: `{housing, clamped-and-rounded price, no label}`, with the price at least 0. |
| `PredictionApi.UnknownTaskIsClientError` | api/main.py:138-140 | Any task type other than "iris" and "housing" gives 400 whatever the registry. |
| `PredictionApi.SetosaExample` | api/main.py:99-110 | Features `[5.1, 3.5, 1.4, 0.2]` classified as index 0 reply `{iris, setosa, setosa}`. |
| `PredictionApi.ShortIrisExample` | api/main.py:91-95 | Two iris features give 400 with expected 4 and received 2. |
| `ModelComparison.NegativeCount` | day14_compare_models.py:80 | The number of predictions strictly below 0 is at most the number of predictions. |
| `ModelComparison.NoNegativesIff` | day14_compare_models.py:80-88 | The count is 0 iff every prediction is at least 0. |
| `ModelComparison.AllNegativeIff` | day14_compare_models.py:80 | The count equals the number of predictions iff every prediction is below 0. |
| `ModelComparison.NegativeCountAppend` | day14_compare_models.py:80 | The count over a concatenation is the sum of the counts. |
| `ModelComparison.Evaluate` | day14_compare_models.py:69-98 | The record carries the config's name. A missing file always gives a file-not-found error record. An exception gives an error record holding its message. A metric record exists iff the file exists and the run completed, and then it holds the given metrics, the negative count and `is_business_safe` iff no prediction is negative. |
| `ModelComparison.ConfiguredModelRecords` | day14_compare_models.py:53-64 | The two configured models give a "Linear Regression" record, then a "Random Forest" record. |
| `ModelComparison.EvaluateAll` | day14_compare_models.py:67-98 | Exactly one record per configuration, in configuration order, each the evaluation of that configuration. Names align, and a missing file gives an error record. |
| `ModelComparison.IsSafe` | day14_compare_models.py:108 | The safety flag read with `False` as the default, so an error record is never safe. |
| `ModelComparison.SafeIffCompletedWithoutNegatives` | day14_compare_models.py:80-108 | An evaluated model is safe iff its file exists, its run completed, and no prediction is negative. |
| `ModelComparison.Recommend` | day14_compare_models.py:107-113 | None iff no record is safe. Otherwise the index of a safe record whose R² is the maximum among safe records and strictly above every earlier safe record's, so the first maximum wins. |
| `ModelComparison.RecommendIsUniqueFirstSafeMaximum` | day14_compare_models.py:108-110 | Any first safe maximum by R² is the recommendation, so the recommendation is unique. |
| `ModelComparison.UnsafeRecordDoesNotChangeRecommendation` | day14_compare_models.py:108 | Putting a record that is not safe (an error record included) at any position k of the records, with the later records moved up by one, recommends the same record. Its index shifts by one when it is at or past k. |
| `ModelComparison.Header` | day14_compare_models.py:116-118 | The report opens with three fixed text lines, the title first; none of them is a table row. |
| `ModelComparison.RowOf` | day14_compare_models.py:122-125 | A row carries the record's name, MAE, RMSE, R² and negative count. Its icon is ✅ iff the record is business-safe and ❌ iff it is not. |
| `ModelComparison.Rows` | day14_compare_models.py:120-125 | At most one row per record, and every line is a table row. |
| `ModelComparison.RowsAppend` | day14_compare_models.py:120-125 | The rows of a concatenation are the rows of each part, in order, so rows follow record order. |
| `ModelComparison.RowsMatchSuccessfulRecords` | day14_compare_models.py:120-125 | Every record without an error has its row, and every row comes from such a record. |
| `ModelComparison.RowCountIsSuccessCount` | day14_compare_models.py:120-121 | The number of rows is the number of records minus the number of error records. |
| `ModelComparison.MarkdownReport` | day14_compare_models.py:116-125 | The lines are the three header lines followed by the rows of the records, 3 + (successes) lines in all. |

## Left out

- FastAPI and pydantic wiring (the app object, the route decorator, the response model). Pydantic's own check of `task_type` answers 422 before `predict` runs. Here `task_type` is a plain string, and the `else` branch of `predict` (400) is modelled.
- `joblib.load`, the model directory path and the startup diagnostics are I/O. Only their outcome is modelled (loaded, file missing, other error).
- The trained predictors are opaque function parameters.
- `PredictionApi.Round2`: does not model Python's `round(x, 2)` on binary doubles, which rounds halves to even and works on the nearest double. Halves are rounded up here. Only the properties the endpoint relies on are stated: whole hundredths, within half a hundredth, non-negative for non-negative input.
- Non-finite features (NaN, infinities) are not modelled, since the code does not check for them and features are reals here.
- The error details are kinds carrying the counts, the task or the index, not the formatted messages.
- In the comparison script: dataset fetching and the simulated-data fallback (lines 12-46); the sklearn metric computations and the model's predictions, which are given inputs; rounding of the metrics to 4 places; the number formatting inside table rows; the JSON and markdown file writes; and the printed messages. The script's exception messages are carried as given strings.
- `ModelComparison.Recommend`: returns the index of the recommended record rather than the record itself. The record is `results[k]`.
- `ModelComparison.Recommend`: `Completed.r2` stands for the value already rounded to 4 places by `round(r2, 4)`. The rounding itself is not modelled, so the tie-break applies to the rounded values.
- `ModelConfig.kind` carries the configuration's `type` entry, which the script never reads.

## Findings

| source | as written | input that shows it | evidently intended | confidence | as-written member | corrected member |
|---|---|---|---|---|---|---|
| api/main.py:102-103 | `species_map[int(pred_class_index)]` uses Python list indexing, so indices -1, -2 and -3 silently decode to "virginica", "versicolor" and "setosa" | a classifier returning -1 | Only class indices 0..2 decode. Anything else is an internal error, not a plausible label (the comment on line 99 expects 0, 1 or 2). | low: the trained classifier only emits 0..2; not executed | `PredictionApi.PyLabelAtAcceptsNegativeIndex` | `PredictionApi.DecodeSpecies` |
