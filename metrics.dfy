/**
 * Evaluation metrics for the GLUE family of benchmark tasks (and XNLI),
 * selected by task name.
 *
 * The statistics backend (scikit-learn's `f1_score` and `matthews_corrcoef`,
 * SciPy's `pearsonr` and `spearmanr`) is foreign code: it is a `Backend`
 * record of arbitrary functions that every metric takes as a parameter.
 * Metric values are `Score`s: an exact real standing for a finite float,
 * or NaN.
 */
module Metrics {

  // ---------------------------------------------------------------------
  // Scores
  // ---------------------------------------------------------------------

  /** A floating-point metric value: finite (an exact real here) or NaN. */
  datatype Score = Finite(value: real) | NaN

  datatype Option<T> = None | Some(value: T)

  function Min(x: real, y: real): real { if x <= y then x else y }
  function Max(x: real, y: real): real { if x <= y then y else x }

  /** `(a + b) / 2` on floats: NaN if either operand is NaN. */
  function Average(a: Score, b: Score): (r: Score)
    ensures r.Finite? <==> a.Finite? && b.Finite?
    ensures r.Finite? ==> r.value + r.value == a.value + b.value
    ensures r.Finite? ==> Min(a.value, b.value) <= r.value <= Max(a.value, b.value)
  {
    if a.Finite? && b.Finite? then Finite((a.value + b.value) / 2.0) else NaN
  }

  /**
   * The foreign scorers. Each takes its two arguments in the order the
   * library call receives them; only the first component of `pearsonr`
   * and `spearmanr` (the coefficient) is used, so that is all they return.
   */
  datatype Backend<-T> = Backend(
    f1Score: (seq<T>, seq<T>) -> Score,          // f1_score(y_true, y_pred)
    matthewsCorrcoef: (seq<T>, seq<T>) -> Score, // matthews_corrcoef(y_true, y_pred)
    pearsonr: (seq<T>, seq<T>) -> Score,         // pearsonr(x, y)[0]
    spearmanr: (seq<T>, seq<T>) -> Score)        // spearmanr(a, b)[0]

  // ---------------------------------------------------------------------
  // simple_accuracy: (preds == labels).mean()
  // ---------------------------------------------------------------------

  /** The boolean array `preds == labels` (elementwise, equal lengths). */
  function EqualMask<T(==)>(preds: seq<T>, labels: seq<T>): (m: seq<bool>)
    requires |preds| == |labels|
    ensures |m| == |preds|
    ensures forall i :: 0 <= i < |m| ==> (m[i] <==> preds[i] == labels[i])
  {
    seq(|preds|, i requires 0 <= i < |preds| => preds[i] == labels[i])
  }

  /** Number of `True` entries of a boolean array, counted from the back. */
  function CountTrue(m: seq<bool>): (k: nat)
    ensures k <= |m|
  {
    if |m| == 0 then 0
    else CountTrue(m[..|m| - 1]) + (if m[|m| - 1] then 1 else 0)
  }

  /** `mask.mean()` of a boolean array; the mean of an empty array is NaN. */
  function MaskMean(m: seq<bool>): (r: Score)
    ensures r.Finite? <==> |m| > 0
    ensures r.Finite? ==> r.value * (|m| as real) == CountTrue(m) as real
  {
    if |m| == 0 then NaN else Finite((CountTrue(m) as real) / (|m| as real))
  }

  /** The positions at which a boolean array holds `True`. */
  ghost function TruePositions(m: seq<bool>): set<nat>
  {
    set i: nat | i < |m| && m[i]
  }

  /** The positions at which the prediction equals the label. */
  ghost function MatchPositions<T>(preds: seq<T>, labels: seq<T>): set<nat>
    requires |preds| == |labels|
  {
    set i: nat | i < |preds| && preds[i] == labels[i]
  }

  lemma {:induction false} CountTrueIsCardinality(m: seq<bool>)
    ensures CountTrue(m) == |TruePositions(m)|
  {
    if |m| == 0 {
      assert TruePositions(m) == {};
    } else {
      var n := |m| - 1;
      var front := m[..n];
      CountTrueIsCardinality(front);
      assert n !in TruePositions(front);
      if m[n] {
        assert TruePositions(m) == TruePositions(front) + {n};
      } else {
        assert TruePositions(m) == TruePositions(front);
      }
    }
  }

  lemma {:induction false} CountTrueAllIff(m: seq<bool>)
    ensures CountTrue(m) == |m| <==> forall i :: 0 <= i < |m| ==> m[i]
  {
    if |m| > 0 {
      var n := |m| - 1;
      CountTrueAllIff(m[..n]);
      assert forall i :: 0 <= i < n ==> m[..n][i] == m[i];
    }
  }

  lemma {:induction false} CountTrueNoneIff(m: seq<bool>)
    ensures CountTrue(m) == 0 <==> forall i :: 0 <= i < |m| ==> !m[i]
  {
    if |m| > 0 {
      var n := |m| - 1;
      CountTrueNoneIff(m[..n]);
      assert forall i :: 0 <= i < n ==> m[..n][i] == m[i];
    }
  }

  /**
   * The fraction of positions where the prediction equals the label:
   * NaN on empty input, otherwise (number of matching positions) / length.
   */
  function SimpleAccuracy<T(==)>(preds: seq<T>, labels: seq<T>): (r: Score)
    requires |preds| == |labels|
    ensures r.Finite? <==> |preds| > 0
    ensures r.Finite? ==> r.value * (|preds| as real) == |MatchPositions(preds, labels)| as real
  {
    var m := EqualMask(preds, labels);
    CountTrueIsCardinality(m);
    assert TruePositions(m) == MatchPositions(preds, labels);
    MaskMean(m)
  }

  lemma AccuracyInUnitInterval<T>(preds: seq<T>, labels: seq<T>)
    requires |preds| == |labels| > 0
    ensures SimpleAccuracy(preds, labels).Finite?
    ensures 0.0 <= SimpleAccuracy(preds, labels).value <= 1.0
  {}

  lemma AccuracyOneIffIdentical<T>(preds: seq<T>, labels: seq<T>)
    requires |preds| == |labels| > 0
    ensures SimpleAccuracy(preds, labels) == Finite(1.0) <==> preds == labels
  {
    var m := EqualMask(preds, labels);
    CountTrueAllIff(m);
    var k, n := CountTrue(m) as real, |m| as real;
    assert k / n == 1.0 <==> k == n;
    if preds != labels {
      var i :| 0 <= i < |preds| && preds[i] != labels[i];
      assert !m[i];
    }
  }

  lemma AccuracyZeroIffNoMatch<T>(preds: seq<T>, labels: seq<T>)
    requires |preds| == |labels| > 0
    ensures SimpleAccuracy(preds, labels) == Finite(0.0)
        <==> forall i :: 0 <= i < |preds| ==> preds[i] != labels[i]
  {
    var m := EqualMask(preds, labels);
    CountTrueNoneIff(m);
    var k, n := CountTrue(m) as real, |m| as real;
    assert k / n == 0.0 <==> k == 0.0;
  }

  // ---------------------------------------------------------------------
  // acc_and_f1 and pearson_and_spearman
  // ---------------------------------------------------------------------

  /** Accuracy, F1 (labels as ground truth) and their mean. */
  function AccAndF1<T(==)>(b: Backend<T>, preds: seq<T>, labels: seq<T>): (r: map<string, Score>)
    requires |preds| == |labels|
    ensures r.Keys == {"acc", "f1", "acc_and_f1"}
    ensures r["acc"] == SimpleAccuracy(preds, labels)
    ensures r["f1"] == b.f1Score(labels, preds)
    ensures r["acc_and_f1"].Finite? <==> |preds| > 0 && r["f1"].Finite?
    ensures r["acc_and_f1"].Finite? ==>
      2.0 * r["acc_and_f1"].value == r["acc"].value + r["f1"].value
  {
    var acc := SimpleAccuracy(preds, labels);
    var f1 := b.f1Score(labels, preds);
    map["acc" := acc, "f1" := f1, "acc_and_f1" := Average(acc, f1)]
  }

  /** Pearson and Spearman coefficients of (preds, labels) and their mean. */
  function PearsonAndSpearman<T>(b: Backend<T>, preds: seq<T>, labels: seq<T>): (r: map<string, Score>)
    ensures r.Keys == {"pearson", "spearmanr", "corr"}
    ensures r["pearson"] == b.pearsonr(preds, labels)
    ensures r["spearmanr"] == b.spearmanr(preds, labels)
    ensures r["corr"].Finite? <==> r["pearson"].Finite? && r["spearmanr"].Finite?
    ensures r["corr"].Finite? ==>
      2.0 * r["corr"].value == r["pearson"].value + r["spearmanr"].value
  {
    var pearsonCorr := b.pearsonr(preds, labels);
    var spearmanCorr := b.spearmanr(preds, labels);
    map["pearson" := pearsonCorr, "spearmanr" := spearmanCorr,
        "corr" := Average(pearsonCorr, spearmanCorr)]
  }

  // ---------------------------------------------------------------------
  // Task dispatch
  // ---------------------------------------------------------------------

  /** The four shapes of metric a task can ask for. */
  datatype MetricKind = MatthewsOnly | AccuracyOnly | AccuracyAndF1 | PearsonAndSpearmanKind

  /** The keys of the result map of each kind. */
  function KindKeys(kind: MetricKind): set<string>
  {
    match kind
    case MatthewsOnly => {"mcc"}
    case AccuracyOnly => {"acc"}
    case AccuracyAndF1 => {"acc", "f1", "acc_and_f1"}
    case PearsonAndSpearmanKind => {"pearson", "spearmanr", "corr"}
  }

  /** The four key sets a result map can have. */
  const MetricShapes: set<set<string>> :=
    {{"mcc"}, {"acc"}, {"acc", "f1", "acc_and_f1"}, {"pearson", "spearmanr", "corr"}}

  /** The result map that a task of the given kind returns. */
  function KindMetrics<T(==)>(kind: MetricKind, b: Backend<T>, preds: seq<T>, labels: seq<T>)
    : (r: map<string, Score>)
    requires |preds| == |labels|
    ensures r.Keys == KindKeys(kind)
  {
    match kind
    case MatthewsOnly => map["mcc" := b.matthewsCorrcoef(labels, preds)]
    case AccuracyOnly => map["acc" := SimpleAccuracy(preds, labels)]
    case AccuracyAndF1 => AccAndF1(b, preds, labels)
    case PearsonAndSpearmanKind => PearsonAndSpearman(b, preds, labels)
  }

  /** What a dispatcher returns or raises. */
  datatype Outcome =
    | AssertFail                          // `assert len(preds) == len(labels)` failed
    | KeyErr(name: string)                // `raise KeyError(task_name)`
    | Metrics(scores: map<string, Score>) // the returned dict

  type TaskTable = seq<(string, MetricKind)>

  /** The task names a table lists. */
  function Names(table: TaskTable): set<string>
  {
    set e | e in table :: e.0
  }

  /** Tags every name with the same kind, keeping the order. */
  function Tagged(names: seq<string>, kind: MetricKind): (t: TaskTable)
    ensures |t| == |names|
    ensures forall i :: 0 <= i < |t| ==> t[i] == (names[i], kind)
  {
    seq(|names|, i requires 0 <= i < |names| => (names[i], kind))
  }

  /** First-match lookup, as the `if`/`elif` chain tests the names in order. */
  function Lookup(table: TaskTable, name: string): (k: Option<MetricKind>)
    ensures k.Some? <==> name in Names(table)
    ensures k.Some? ==> (name, k.value) in table
  {
    if |table| == 0 then None
    else if table[0].0 == name then Some(table[0].1)
    else
      assert Names(table) == {table[0].0} + Names(table[1..]) by {
        assert table == [table[0]] + table[1..];
      }
      Lookup(table[1..], name)
  }

  lemma {:induction false} LookupAppend(t1: TaskTable, t2: TaskTable, name: string)
    ensures Lookup(t1 + t2, name)
         == if name in Names(t1) then Lookup(t1, name) else Lookup(t2, name)
  {
    if |t1| > 0 {
      assert (t1 + t2)[0] == t1[0];
      assert (t1 + t2)[1..] == t1[1..] + t2;
      LookupAppend(t1[1..], t2, name);
      assert Names(t1) == {t1[0].0} + Names(t1[1..]) by {
        assert t1 == [t1[0]] + t1[1..];
      }
    } else {
      assert t1 + t2 == t2;
    }
  }

  lemma LookupTagged(names: seq<string>, kind: MetricKind, name: string)
    ensures Lookup(Tagged(names, kind), name) == if name in names then Some(kind) else None
  {}

  /**
   * The common shape of both dispatchers: the length assertion first,
   * then the name lookup, then the metric of the task's kind.
   */
  function ComputeMetrics<T(==)>(table: TaskTable, b: Backend<T>, name: string,
                                 preds: seq<T>, labels: seq<T>): (r: Outcome)
    ensures r.AssertFail? <==> |preds| != |labels|
    ensures r.KeyErr? <==> |preds| == |labels| && name !in Names(table)
    ensures r.KeyErr? ==> r.name == name
    ensures r.Metrics? ==> exists kind :: (name, kind) in table && r.scores.Keys == KindKeys(kind)
    ensures r.Metrics? ==> r.scores.Keys in MetricShapes
  {
    if |preds| != |labels| then AssertFail
    else match Lookup(table, name)
      case None => KeyErr(name)
      case Some(kind) => Metrics(KindMetrics(kind, b, preds, labels))
  }

  lemma ComputeMetricsFound<T>(table: TaskTable, kind: MetricKind, b: Backend<T>, name: string,
                                  preds: seq<T>, labels: seq<T>)
    requires |preds| == |labels| && Lookup(table, name) == Some(kind)
    ensures ComputeMetrics(table, b, name, preds, labels) == Metrics(KindMetrics(kind, b, preds, labels))
  {
  }

  // ---------------------------------------------------------------------
  // The task tables
  // ---------------------------------------------------------------------

  /** The GLUE tasks tested before the first accuracy-only run of names. */
  const GlueLeadingTasks: TaskTable := [
    ("cola", MatthewsOnly),
    ("sst-2", AccuracyOnly),
    ("mrpc", AccuracyAndF1),
    ("sts-b", PearsonAndSpearmanKind),
    ("qqp", AccuracyAndF1)
  ]

  /** Appends the same suffix to every name, keeping the order. */
  function Suffixed(bases: seq<string>, suffix: string): (r: seq<string>)
    ensures |r| == |bases|
    ensures forall i :: 0 <= i < |r| ==> r[i] == bases[i] + suffix
  {
    seq(|bases|, i requires 0 <= i < |bases| => bases[i] + suffix)
  }

  /** GLUE, HANS and BoolQ tasks scored by accuracy alone. */
  const BenchmarkTasks: seq<string> :=
    ["mnli", "mnli-mm", "qnli", "rte", "wnli", "hans", "boolq"]

  /** The probes that have a `_control` task. */
  const ControlProbes: seq<string> := [
    "length", "syntactic_category", "irregular_form", "antonyms", "control_raising",
    "absolute_token_position", "lexical_content_the", "relative_position", "title_case",
    "main_verb"
  ]

  /** The probes that have one task per ambiguity level (`_namb`, `_001`, `_003`, `_01`). */
  const AmbiguityProbes: seq<string> := [
    "antonyms_absolute_token_position", "antonyms_length", "antonyms_lexical_content_the",
    "antonyms_relative_position", "antonyms_title_case",
    "control_raising_absolute_token_position", "control_raising_length",
    "control_raising_lexical_content_the", "control_raising_relative_token_position",
    "control_raising_title_case",
    "irregular_form_absolute_token_position", "irregular_form_length",
    "irregular_form_lexical_content_the", "irregular_form_relative_token_position",
    "irregular_form_title_case",
    "main_verb_absolute_token_position", "main_verb_length", "main_verb_lexical_content_the",
    "main_verb_relative_token_position", "main_verb_title_case",
    "syntactic_category_absolute_position", "syntactic_category_length",
    "syntactic_category_lexical_content_the", "syntactic_category_relative_position",
    "syntactic_category_title_case"
  ]

  /** The probing and annotated evaluation sets at the end of the chain. */
  const AnnotatedTasks: seq<string> := [
    "test_pair", "main_verb", "subject_aux_inversion", "cogsci_paper",
    "subj_aux_annotated", "main_verb_annotated", "reflexives_annotated"
  ]

  /** Every later task name of `glue_compute_metrics`, in the order it tests them. */
  const GlueAccuracyTasks: seq<string> :=
    BenchmarkTasks
    + Suffixed(ControlProbes, "_control")
    + Suffixed(AmbiguityProbes, "_namb")
    + Suffixed(AmbiguityProbes, "_001")
    + Suffixed(AmbiguityProbes, "_003")
    + Suffixed(AmbiguityProbes, "_01")
    + AnnotatedTasks

  /** The whole `glue_compute_metrics` chain, in the order it tests the names. */
  const GlueTable: TaskTable := GlueLeadingTasks + Tagged(GlueAccuracyTasks, AccuracyOnly)

  /** The chain has 129 names: 5 leading ones, then 124 scored by accuracy alone. */
  lemma GlueTableLayout()
    ensures |GlueAccuracyTasks| == 124 && |GlueTable| == 129
    ensures GlueTable[5] == ("mnli", AccuracyOnly)
    ensures GlueTable[128] == ("reflexives_annotated", AccuracyOnly)
  {}

  /** The one task of `xnli_compute_metrics`. */
  const XnliTable: TaskTable := [("xnli", AccuracyOnly)]

  /** Every name `glue_compute_metrics` accepts. */
  const GlueTaskNames: set<string> :=
    {"cola", "sst-2", "mrpc", "sts-b", "qqp"} + set n | n in GlueAccuracyTasks

  lemma SuffixedHoldUnderscore(bases: seq<string>, suffix: string)
    requires |suffix| > 0 && suffix[0] == '_'
    ensures forall n :: n in Suffixed(bases, suffix) ==> '_' in n
  {}

  /** A name without the suffix is not among the suffixed names. */
  lemma NotSuffixed(n: string, bases: seq<string>, suffix: string)
    requires |n| < |suffix| || n[|n| - |suffix|..] != suffix
    ensures n !in Suffixed(bases, suffix)
  {}

  /** Every accuracy-only name is a GLUE/HANS/BoolQ name or holds an underscore. */
  lemma AccuracyTaskShapes(n: string)
    requires n in GlueAccuracyTasks
    ensures n in BenchmarkTasks || '_' in n
  {
    SuffixedHoldUnderscore(ControlProbes, "_control");
    SuffixedHoldUnderscore(AmbiguityProbes, "_namb");
    SuffixedHoldUnderscore(AmbiguityProbes, "_001");
    SuffixedHoldUnderscore(AmbiguityProbes, "_003");
    SuffixedHoldUnderscore(AmbiguityProbes, "_01");
    assert forall m :: m in AnnotatedTasks ==> '_' in m;
  }

  lemma LeadingNames()
    ensures Names(GlueLeadingTasks) == {"cola", "sst-2", "mrpc", "sts-b", "qqp"}
  {}

  /** None of the leading names is listed again among the accuracy-only ones. */
  lemma LeadingNamesNotRelisted(n: string)
    requires n in GlueAccuracyTasks
    ensures n !in Names(GlueLeadingTasks)
  {
    LeadingNames();
    AccuracyTaskShapes(n);
    assert forall m :: m in BenchmarkTasks ==> m !in {"cola", "sst-2", "mrpc", "sts-b", "qqp"};
    assert forall m :: m in {"cola", "sst-2", "mrpc", "sts-b", "qqp"} ==> '_' !in m;
  }

  /** The kind of metric the GLUE chain selects for each name. */
  lemma GlueLookup(name: string)
    ensures Lookup(GlueTable, name)
         == if name == "cola" then Some(MatthewsOnly)
            else if name == "mrpc" || name == "qqp" then Some(AccuracyAndF1)
            else if name == "sts-b" then Some(PearsonAndSpearmanKind)
            else if name == "sst-2" || name in GlueAccuracyTasks then Some(AccuracyOnly)
            else None
  {
    LookupAppend(GlueLeadingTasks, Tagged(GlueAccuracyTasks, AccuracyOnly), name);
    LookupTagged(GlueAccuracyTasks, AccuracyOnly, name);
    LeadingNames();
    if name in GlueAccuracyTasks {
      LeadingNamesNotRelisted(name);
    }
  }

  /** `glue_compute_metrics(task_name, preds, labels)`. */
  function GlueComputeMetrics<T(==)>(b: Backend<T>, name: string, preds: seq<T>, labels: seq<T>)
    : (r: Outcome)
    ensures r.AssertFail? <==> |preds| != |labels|
    ensures r.KeyErr? ==> r.name == name
    ensures r.Metrics? ==> r.scores.Keys in MetricShapes
  {
    ComputeMetrics(GlueTable, b, name, preds, labels)
  }

  /** `KeyError` for exactly the names outside the chain, once the lengths agree. */
  lemma GlueUnknownTask<T>(b: Backend<T>, name: string, preds: seq<T>, labels: seq<T>)
    requires |preds| == |labels|
    ensures GlueComputeMetrics(b, name, preds, labels) == KeyErr(name) <==> name !in GlueTaskNames
  {}

  lemma GlueCola<T>(b: Backend<T>, preds: seq<T>, labels: seq<T>)
    requires |preds| == |labels|
    ensures GlueComputeMetrics(b, "cola", preds, labels)
         == Metrics(map["mcc" := b.matthewsCorrcoef(labels, preds)])
  {}

  lemma GlueAccAndF1Tasks<T>(b: Backend<T>, name: string, preds: seq<T>, labels: seq<T>)
    requires |preds| == |labels|
    requires name == "mrpc" || name == "qqp"
    ensures GlueComputeMetrics(b, name, preds, labels) == Metrics(AccAndF1(b, preds, labels))
  {
    GlueLookup(name);
  }

  lemma GlueStsB<T>(b: Backend<T>, preds: seq<T>, labels: seq<T>)
    requires |preds| == |labels|
    ensures GlueComputeMetrics(b, "sts-b", preds, labels)
         == Metrics(PearsonAndSpearman(b, preds, labels))
  {
    GlueLookup("sts-b");
  }

  lemma GlueAccuracyOnlyTasks<T>(b: Backend<T>, name: string, preds: seq<T>, labels: seq<T>)
    requires |preds| == |labels|
    requires name == "sst-2" || name in GlueAccuracyTasks
    ensures GlueComputeMetrics(b, name, preds, labels)
         == Metrics(map["acc" := SimpleAccuracy(preds, labels)])
  {
    GlueLookup(name);
    if name in GlueAccuracyTasks {
      LeadingNames();
      LeadingNamesNotRelisted(name);
    }
    ComputeMetricsFound(GlueTable, AccuracyOnly, b, name, preds, labels);
  }

  /** The GLUE dispatcher does not know the XNLI task. */
  lemma XnliIsNotAGlueTask<T>(b: Backend<T>, preds: seq<T>, labels: seq<T>)
    requires |preds| == |labels|
    ensures GlueComputeMetrics(b, "xnli", preds, labels) == KeyErr("xnli")
  {
    if "xnli" in GlueAccuracyTasks {
      AccuracyTaskShapes("xnli");
      assert "xnli" !in BenchmarkTasks;
      assert '_' !in "xnli";
    }
  }

  lemma UnknownTaskExample<T>(b: Backend<T>, preds: seq<T>, labels: seq<T>)
    requires |preds| == |labels|
    ensures GlueComputeMetrics(b, "unknown_task_xyz", preds, labels) == KeyErr("unknown_task_xyz")
  {
    var n := "unknown_task_xyz";
    assert n !in BenchmarkTasks && n !in AnnotatedTasks;
    NotSuffixed(n, ControlProbes, "_control");
    NotSuffixed(n, AmbiguityProbes, "_namb");
    NotSuffixed(n, AmbiguityProbes, "_001");
    NotSuffixed(n, AmbiguityProbes, "_003");
    NotSuffixed(n, AmbiguityProbes, "_01");
    assert n !in GlueAccuracyTasks;
    assert n !in GlueTaskNames;
    GlueUnknownTask(b, n, preds, labels);
  }

  lemma ThreeOfFourAgree()
    ensures SimpleAccuracy([1, 0, 1, 1], [1, 0, 0, 1]) == Finite(0.75)
  {
    var m := EqualMask([1, 0, 1, 1], [1, 0, 0, 1]);
    assert m == [true, true, false, true];
    assert m[..3] == [true, true, false] && m[..3][..2] == [true, true];
    assert m[..3][..2][..1] == [true] && m[..3][..2][..1][..0] == [];
    assert CountTrue(m[..3][..2][..1]) == 1;
    assert CountTrue(m[..3][..2]) == 2;
    assert CountTrue(m[..3]) == 2;
    assert CountTrue(m) == 3;
  }

  /**
   * MRPC on four examples of which three agree: accuracy 0.75; with the
   * binary F1 of labels [1, 0, 0, 1] against predictions [1, 0, 1, 1]
   * (precision 2/3, recall 1, so 0.8) the combined score is 0.775.
   */
  lemma MrpcExample(b: Backend<int>)
    ensures var r := GlueComputeMetrics(b, "mrpc", [1, 0, 1, 1], [1, 0, 0, 1]);
      && r.Metrics?
      && r.scores.Keys == {"acc", "f1", "acc_and_f1"}
      && r.scores["acc"] == Finite(0.75)
      && r.scores["f1"] == b.f1Score([1, 0, 0, 1], [1, 0, 1, 1])
      && (r.scores["f1"] == Finite(0.8) ==> r.scores["acc_and_f1"] == Finite(0.775))
  {
    var preds, labels := [1, 0, 1, 1], [1, 0, 0, 1];
    GlueAccAndF1Tasks(b, "mrpc", preds, labels);
    ThreeOfFourAgree();
  }

  /** `xnli_compute_metrics(task_name, preds, labels)`. */
  function XnliComputeMetrics<T(==)>(b: Backend<T>, name: string, preds: seq<T>, labels: seq<T>)
    : (r: Outcome)
    ensures r.AssertFail? <==> |preds| != |labels|
    ensures r.KeyErr? <==> |preds| == |labels| && name != "xnli"
    ensures r.KeyErr? ==> r.name == name
    ensures r.Metrics? ==> r.scores == map["acc" := SimpleAccuracy(preds, labels)]
  {
    assert Names(XnliTable) == {"xnli"} by {
      assert XnliTable[0] in XnliTable;
    }
    ComputeMetrics(XnliTable, b, name, preds, labels)
  }
}
