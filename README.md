# Evaluation metrics for GLUE-style tasks

A Dafny model of `src/transformers/data/metrics/__init__.py`, the module that
scores a model's predictions on a benchmark task. Given a task name and two
equal-length sequences (predictions and gold labels), `glue_compute_metrics`
walks a chain of task names and returns one of four result dictionaries:

- `{"mcc"}`: Matthews correlation, for CoLA;
- `{"acc"}`: plain accuracy, for SST-2, MNLI and most other tasks;
- `{"acc", "f1", "acc_and_f1"}`: accuracy, F1 and their mean, for MRPC and QQP;
- `{"pearson", "spearmanr", "corr"}`: two correlations and their mean, for STS-B.

`xnli_compute_metrics` does the same for the single task `xnli`. Both check
first that the two sequences have the same length (an `AssertionError`
otherwise). They raise `KeyError(task_name)` for a name they do not list.

Everything is in one module, `Metrics` (`metrics.dfy`):

- `Score` is a floating-point metric value. It is either `Finite(r)`, with `r`
  an exact real, or `NaN`.
- `Backend<T>` holds the four foreign scorers from scikit-learn and SciPy as
  arbitrary functions: `f1_score`, `matthews_corrcoef`, and the coefficients
  of `pearsonr` and `spearmanr`. Every metric takes the backend as a
  parameter, and each scorer gets its arguments in the order the source
  passes them. In particular the ground truth (labels) comes first for F1 and
  MCC.
- `simple_accuracy` is `(preds == labels).mean()`. The model builds the same
  thing: the elementwise mask `EqualMask`, the recursive count `CountTrue`,
  and the mean `MaskMean`. NumPy's mean of an empty array is NaN, and the
  model keeps that. So the dispatchers need no precondition beyond what the
  source checks.
- The `if`/`elif` chain is a table of `(name, MetricKind)` pairs searched
  first-match by `Lookup`, in the source's order. Five leading entries cover
  lines 55-64. The 124 accuracy-only names of lines 65-312 follow in source
  order. They are built as the source spells them: seven benchmark names,
  ten `<probe>_control` names, the 25 ambiguity probes suffixed `_namb`,
  then `_001`, `_003` and `_01`, and seven probing/annotated sets.
  `GlueTableLayout` pins the size and both ends of that list.

## Model

| member | source | states |
|---|---|---|
| `Metrics.Average` | src/transformers/data/metrics/__init__.py:41 | `(a + b) / 2` is finite exactly when both operands are (NaN propagates). Twice it is the sum, and it lies between the two operands. |
| `Metrics.EqualMask` | src/transformers/data/metrics/__init__.py:33 | The elementwise comparison `preds == labels` has one entry per position, and entry `i` is `True` exactly when `preds[i] == labels[i]`. |
| `Metrics.MaskMean` | src/transformers/data/metrics/__init__.py:33 | `.mean()` of a boolean array is NaN exactly when the array is empty. Otherwise mean × length = the number of `True` entries. |
| `Metrics.CountTrue` | src/transformers/data/metrics/__init__.py:33 | The number of matching positions never exceeds the length. |
| `Metrics.CountTrueIsCardinality` | src/transformers/data/metrics/__init__.py:33 | The recursive count equals the size of the set of `True` positions. |
| `Metrics.CountTrueAllIff` | src/transformers/data/metrics/__init__.py:33 | The count equals the length if and only if every entry is `True`. |
| `Metrics.CountTrueNoneIff` | src/transformers/data/metrics/__init__.py:33 | The count is zero if and only if no entry is `True`. |
| `Metrics.SimpleAccuracy` | src/transformers/data/metrics/__init__.py:32-33 | NaN exactly on empty input. Otherwise accuracy × length = the number of positions `i` with `preds[i] == labels[i]`. |
| `Metrics.AccuracyInUnitInterval` | src/transformers/data/metrics/__init__.py:32-33 | On non-empty input the accuracy is finite and lies in [0, 1]. |
| `Metrics.AccuracyOneIffIdentical` | src/transformers/data/metrics/__init__.py:32-33 | On non-empty input the accuracy is 1 if and only if the predictions equal the labels. |
| `Metrics.AccuracyZeroIffNoMatch` | src/transformers/data/metrics/__init__.py:32-33 | On non-empty input the accuracy is 0 if and only if no position matches. |
| `Metrics.ThreeOfFourAgree` | src/transformers/data/metrics/__init__.py:32-33 | Predictions `[1,0,1,1]` against labels `[1,0,0,1]` give accuracy 0.75. |
| `Metrics.AccAndF1` | src/transformers/data/metrics/__init__.py:35-42 | Keys are exactly `acc`, `f1` and `acc_and_f1`. `acc` is the simple accuracy and `f1` is `f1_score(y_true=labels, y_pred=preds)`. `acc_and_f1` is finite iff both are, and then 2 × it = `acc + f1`. |
| `Metrics.PearsonAndSpearman` | src/transformers/data/metrics/__init__.py:44-51 | Keys are exactly `pearson`, `spearmanr` and `corr`. The first two are `pearsonr(preds, labels)[0]` and `spearmanr(preds, labels)[0]`. `corr` is finite iff both are, and then 2 × `corr` = `pearson + spearmanr`. |
| `Metrics.KindMetrics` | src/transformers/data/metrics/__init__.py:55-64 | The map a task of each kind returns has exactly that kind's key set. |
| `Metrics.Lookup` | src/transformers/data/metrics/__init__.py:55-314 | First-match lookup finds a kind if and only if the name is listed, and the pair it finds is in the table. |
| `Metrics.LookupAppend` | src/transformers/data/metrics/__init__.py:55-314 | Looking a name up in two chained tables consults the second only when the first does not list the name. |
| `Metrics.LookupTagged` | src/transformers/data/metrics/__init__.py:65-312 | A run of names that all get the same kind yields that kind for exactly the names in the run. |
| `Metrics.ComputeMetrics` | src/transformers/data/metrics/__init__.py:53-54 | The length check comes first: `AssertFail` iff the lengths differ, whatever the name. `KeyErr(name)`, carrying the same name, iff the lengths agree and the name is unlisted. Otherwise the result has one of the four key sets. |
| `Metrics.LeadingNamesNotRelisted` | src/transformers/data/metrics/__init__.py:55-312 | None of `cola`, `sst-2`, `mrpc`, `sts-b`, `qqp` reappears among the later, accuracy-only names. |
| `Metrics.GlueLookup` | src/transformers/data/metrics/__init__.py:55-314 | The chain selects MCC for `cola` only and accuracy+F1 for `mrpc` and `qqp` only. It selects the correlations for `sts-b` only and accuracy alone for `sst-2` and the 124 later names. Every other name finds nothing. |
| `Metrics.GlueTableLayout` | src/transformers/data/metrics/__init__.py:55-312 | The chain lists 129 names. The sixth is `mnli` and the last is `reflexives_annotated`, both scored by accuracy. |
| `Metrics.GlueComputeMetrics` | src/transformers/data/metrics/__init__.py:53-314 | `AssertFail` iff the lengths differ, even for an unknown name. A `KeyErr` carries the requested name. Results have one of the four key sets. |
| `Metrics.GlueUnknownTask` | src/transformers/data/metrics/__init__.py:313-314 | With equal lengths, the result is `KeyErr(name)` if and only if the name is not one of the 129 listed. |
| `Metrics.GlueCola` | src/transformers/data/metrics/__init__.py:55-56 | `cola` returns exactly `{"mcc": matthews_corrcoef(labels, preds)}`, with the labels as ground truth. |
| `Metrics.GlueAccAndF1Tasks` | src/transformers/data/metrics/__init__.py:59-64 | `mrpc` and `qqp` return exactly the `acc_and_f1` result. |
| `Metrics.GlueStsB` | src/transformers/data/metrics/__init__.py:61-62 | `sts-b` returns exactly the `pearson_and_spearman` result. |
| `Metrics.GlueAccuracyOnlyTasks` | src/transformers/data/metrics/__init__.py:57-312 | `sst-2` and each of the 124 later names return exactly `{"acc": simple_accuracy(preds, labels)}`, with no other key. |
| `Metrics.XnliIsNotAGlueTask` | src/transformers/data/metrics/__init__.py:313-314 | The GLUE dispatcher raises `KeyError("xnli")`. |
| `Metrics.UnknownTaskExample` | src/transformers/data/metrics/__init__.py:313-314 | `unknown_task_xyz` raises `KeyError("unknown_task_xyz")` on equal-length input. |
| `Metrics.MrpcExample` | src/transformers/data/metrics/__init__.py:59-60 | `mrpc` on predictions `[1,0,1,1]` and labels `[1,0,0,1]` returns the three keys with `acc` = 0.75 and `f1` computed with the labels as truth. If that F1 is the binary 0.8, `acc_and_f1` = 0.775. |
| `Metrics.XnliComputeMetrics` | src/transformers/data/metrics/__init__.py:316-321 | `AssertFail` iff the lengths differ. Otherwise `KeyErr(name)` for every name but `xnli`, and `{"acc": simple_accuracy(preds, labels)}` for `xnli`. |

## Left out

- The optional-import probe, `_has_sklearn` and `is_sklearn_available` (lines 17-30), are not modelled. They are import machinery. The model assumes the backend is present and passes it in as a `Backend` value.
- The internals of `f1_score`, `matthews_corrcoef`, `pearsonr` and `spearmanr` are not modelled. They are foreign library code on floating point, so each is an arbitrary function returning a `Score`.
- Floating point is not modelled: finite values are exact reals, NaN is a single value, and infinities are not represented. So `(acc + f1) / 2` is exact.
- `Metrics.SimpleAccuracy` requires equal lengths, and so do `Metrics.AccAndF1` and `Metrics.KindMetrics`. Called directly on arrays of different lengths, NumPy would broadcast or fail in its own way, and the model does not capture that. The dispatchers check the length themselves, as the source does.
- `Metrics.PearsonAndSpearman` keeps only the coefficient of `pearsonr`/`spearmanr`. The p-value, the other element of the returned pair, is never used by the source.
- The result is a `map`, so the insertion order of the Python dictionary is not modelled. Element types are any type with equality, so NumPy dtypes and duck typing are not modelled either.
- Assertions are assumed to be enabled. Under `python -O` the length checks at lines 54 and 317 are removed. A length mismatch then reaches the name lookup: an unknown name raises `KeyError`, and a known name passes the mismatched arrays on to NumPy or the library scorers. The model's `AssertFail` does not capture this.
- Exceptions raised inside the library scorers are not modelled, because each scorer is a total function returning a `Score`. Examples: `f1_score` raises `ValueError` on a multiclass target under its default `average='binary'`, and `pearsonr` rejects inputs shorter than 2. `Outcome` has no case for them.
- `preds` and `labels` are assumed to be NumPy arrays. With plain Python lists, `preds == labels` at line 33 is a single `bool`, and `.mean()` raises `AttributeError`.
- Element equality is assumed to be reflexive. In a float array that holds NaN, NumPy's `==` is `False` at those positions. So for such inputs the "identical sequences give accuracy 1" direction of `Metrics.AccuracyOneIffIdentical` does not hold.
