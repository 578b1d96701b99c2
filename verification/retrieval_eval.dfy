/** The retrieval-evaluation decorator: it runs the named retrieval metrics on
    what a retrieval function returns and lays the results out as one table.
    The metric functions themselves are a parameter. */
module RetrievalEval {
  import opened Wrappers
  import opened Frames
  import opened PySeq

  datatype Metric = Recall | Precision | F1

  /** The key under which each metric function is registered. */
  function MetricName(m: Metric): string {
    match m
    case Recall => "recall"
    case Precision => "precision"
    case F1 => "f1"
  }

  /** `metric_funcs.get(name)`: the metric registered under `name`. */
  function MetricFunc(name: string): (m: Option<Metric>)
    ensures m.Some? <==> name in ["recall", "precision", "f1"]
    ensures m.Some? ==> MetricName(m.value) == name
  {
    if name == "recall" then Some(Recall)
    else if name == "precision" then Some(Precision)
    else if name == "f1" then Some(F1)
    else None
  }

  /** Every metric is found under its own name, and under no other. */
  lemma MetricRegistryRoundTrip(m: Metric, name: string)
    ensures MetricFunc(MetricName(m)) == Some(m)
    ensures MetricFunc(name) == Some(m) ==> name == MetricName(m)
  {
  }

  /** The metric functions: per-row scores of a metric, given `retrieval_gt` and the retrieved ids. */
  type MetricImpl = (Metric, seq<Value>, seq<Value>) -> seq<real>

  /** What the decorated retrieval function returns, read as (contents, scores, pred_ids). */
  datatype Retrieved = Retrieved(contents: seq<Value>, scores: seq<Value>, predIds: seq<Value>)

  /** The `metric_scores` dict: its keys in insertion order, and the per-row scores under each. */
  datatype ScoreDict = ScoreDict(keys: seq<string>, scores: map<string, seq<real>>)

  /** The position of the first requested metric that is not registered, or `|metrics|`. */
  function FirstUnsupported(metrics: seq<string>): (k: nat)
    ensures k <= |metrics|
    ensures forall j :: 0 <= j < k ==> MetricFunc(metrics[j]).Some?
    ensures k < |metrics| ==> MetricFunc(metrics[k]).None?
  {
    if metrics == [] then 0
    else if MetricFunc(metrics[0]).None? then 0
    else 1 + FirstUnsupported(metrics[1..])
  }

  /** The loop that fills `metric_scores`: one entry per distinct requested name, in
      first-request order, each computed from the same `retrieval_gt` and `pred_ids`;
      a name that is not registered raises KeyError (after a warning that is not modelled). */
  method ComputeMetricScores(retrievalGt: seq<Value>, metrics: seq<string>, predIds: seq<Value>, impl: MetricImpl)
    returns (r: Result<ScoreDict>)
    ensures r.Err? <==> FirstUnsupported(metrics) < |metrics|
    ensures r.Err? ==> r.error == KeyError(metrics[FirstUnsupported(metrics)])
    ensures r.Ok? ==> r.value.keys == Dedup(metrics)
    ensures r.Ok? ==> forall k :: k in r.value.scores <==> k in r.value.keys
    ensures r.Ok? ==> forall k :: k in r.value.keys ==>
                        MetricFunc(k).Some? && r.value.scores[k] == impl(MetricFunc(k).value, retrievalGt, predIds)
  {
    var keys: seq<string> := [];
    var scores: map<string, seq<real>> := map[];
    for i := 0 to |metrics|
      invariant keys == Dedup(metrics[..i])
      invariant forall k :: k in scores <==> k in keys
      invariant forall k :: k in keys ==> MetricFunc(k).Some? && scores[k] == impl(MetricFunc(k).value, retrievalGt, predIds)
      invariant forall j :: 0 <= j < i ==> MetricFunc(metrics[j]).Some?
    {
      assert metrics[..i + 1][..i] == metrics[..i];
      var metric := MetricFunc(metrics[i]);
      if metric.None? {
        assert FirstUnsupported(metrics) == i;
        return Err(KeyError(metrics[i]));
      }
      if metrics[i] !in scores {
        keys := keys + [metrics[i]];
      }
      scores := scores[metrics[i] := impl(metric.value, retrievalGt, predIds)];
    }
    assert metrics[..|metrics|] == metrics;
    return Ok(ScoreDict(keys, scores));
  }

  /** Whether every metric's score list has `n` entries. */
  predicate ScoresOfLength(d: ScoreDict, n: nat) {
    forall k :: k in d.keys ==> k in d.scores && |d.scores[k]| == n
  }

  /** The metric columns, one per key, in key order. */
  function MetricColumns(d: ScoreDict): (cols: seq<(string, seq<Value>)>)
    requires forall k :: k in d.keys ==> k in d.scores
    ensures |cols| == |d.keys|
    ensures forall i :: 0 <= i < |cols| ==> cols[i] == (d.keys[i], Nums(d.scores[d.keys[i]]))
  {
    seq(|d.keys|, i requires 0 <= i < |d.keys| => (d.keys[i], Nums(d.scores[d.keys[i]])))
  }

  /** The names of the columns the decorator always emits, before the metric columns. */
  const ResultColumns: seq<string> := ["contents", "scores", "pred_ids", "retrieval_gt"]

  /** The four columns every result table starts with. */
  function ExecutedColumns(retrievalGt: seq<Value>, out: Retrieved): seq<(string, seq<Value>)> {
    [("contents", out.contents), ("scores", out.scores), ("pred_ids", out.predIds), ("retrieval_gt", retrievalGt)]
  }

  lemma ExecutedLengths(retrievalGt: seq<Value>, out: Retrieved)
    ensures SameLengths(ExecutedColumns(retrievalGt, out))
            <==> |out.contents| == |out.scores| == |out.predIds| == |retrievalGt|
  {
    var executed := ExecutedColumns(retrievalGt, out);
    assert executed[1].1 == out.scores && executed[2].1 == out.predIds && executed[3].1 == retrievalGt;
  }

  lemma MetricLengths(d: ScoreDict)
    requires forall k :: k in d.keys ==> k in d.scores
    ensures SameLengths(MetricColumns(d))
            <==> (forall i, j :: 0 <= i < |d.keys| && 0 <= j < |d.keys| ==> |d.scores[d.keys[i]]| == |d.scores[d.keys[j]]|)
  {
  }

  /** Side by side, the executed part with `n` rows and metric columns of `n` entries each
      keep their own columns in order. */
  lemma ResultLayout(exec: Table, scored: Table, keys: seq<string>, n: nat)
    requires exec.rows == n && |exec.columns| == 4 && |scored.columns| == |keys|
    requires keys == [] ==> scored.rows == 0
    requires keys != [] ==> scored.rows == n
    ensures Concat(exec, scored).rows == n
    ensures Concat(exec, scored).columns[..4] == exec.columns
    ensures forall i :: 0 <= i < |keys| ==> Concat(exec, scored).columns[4 + i] == scored.columns[i]
  {
    var result := Concat(exec, scored);
    if keys != [] {
      assert result.columns[4..] == scored.columns;
      forall i | 0 <= i < |keys|
        ensures result.columns[4 + i] == scored.columns[i]
      {
        assert result.columns[4 + i] == result.columns[4..][i];
      }
    }
  }

  /** The result table: `contents`, `scores`, `pred_ids`, `retrieval_gt`, then one column
      per metric, concatenated side by side; each of the two parts must have
      lists of one length. */
  function ResultTable(retrievalGt: seq<Value>, out: Retrieved, d: ScoreDict): (r: Result<Table>)
    requires forall k :: k in d.keys ==> k in d.scores
    ensures r.Ok? <==> (|out.contents| == |out.scores| == |out.predIds| == |retrievalGt|
                        && (forall i, j :: 0 <= i < |d.keys| && 0 <= j < |d.keys| ==>
                              |d.scores[d.keys[i]]| == |d.scores[d.keys[j]]|))
    ensures r.Ok? ==> Names(r.value.columns) == ResultColumns + d.keys
    ensures r.Ok? && ScoresOfLength(d, |retrievalGt|) ==>
              r.value.rows == |retrievalGt|
              && r.value.columns[..4] == [Column("contents", out.contents), Column("scores", out.scores),
                                          Column("pred_ids", out.predIds), Column("retrieval_gt", retrievalGt)]
              && forall i :: 0 <= i < |d.keys| ==>
                   r.value.columns[4 + i] == Column(d.keys[i], Nums(d.scores[d.keys[i]]))
  {
    ExecutedLengths(retrievalGt, out);
    MetricLengths(d);
    var exec :- FromColumns(ExecutedColumns(retrievalGt, out));
    var scored :- FromColumns(MetricColumns(d));
    assert Names(exec.columns) == ResultColumns;
    assert Names(scored.columns) == d.keys;
    if ScoresOfLength(d, |retrievalGt|) then
      ResultLayout(exec, scored, d.keys, |retrievalGt|);
      Ok(Concat(exec, scored))
    else
      Ok(Concat(exec, scored))
  }

  /** Whether the registered metrics among `names` all give score lists of one length. */
  predicate ScoreLengthsAgree(names: seq<string>, retrievalGt: seq<Value>, predIds: seq<Value>, impl: MetricImpl) {
    forall i, j :: 0 <= i < |names| && 0 <= j < |names| && MetricFunc(names[i]).Some? && MetricFunc(names[j]).Some? ==>
      |impl(MetricFunc(names[i]).value, retrievalGt, predIds)| == |impl(MetricFunc(names[j]).value, retrievalGt, predIds)|
  }

  /** What the result table holds once every requested metric is registered and scored:
      it exists exactly when the four leading lists and the score lists have a length each,
      and with score lists as long as `retrieval_gt` it holds the inputs, then the scores. */
  lemma ScoredTable(retrievalGt: seq<Value>, metrics: seq<string>, out: Retrieved, impl: MetricImpl, d: ScoreDict)
    requires d.keys == Dedup(metrics)
    requires forall k :: k in d.scores <==> k in d.keys
    requires forall k :: k in d.keys ==> MetricFunc(k).Some? && d.scores[k] == impl(MetricFunc(k).value, retrievalGt, out.predIds)
    ensures ResultTable(retrievalGt, out, d).Ok?
            <==> (|out.contents| == |out.scores| == |out.predIds| == |retrievalGt|
                  && ScoreLengthsAgree(Dedup(metrics), retrievalGt, out.predIds, impl))
    ensures (|out.contents| == |out.scores| == |out.predIds| == |retrievalGt|
             && forall m :: |impl(m, retrievalGt, out.predIds)| == |retrievalGt|) ==>
              var r := ResultTable(retrievalGt, out, d);
              r.Ok? && r.value.rows == |retrievalGt|
              && r.value.columns[..4] == [Column("contents", out.contents), Column("scores", out.scores),
                                          Column("pred_ids", out.predIds), Column("retrieval_gt", retrievalGt)]
              && forall i :: 0 <= i < |d.keys| ==>
                   var name := d.keys[i];
                   MetricFunc(name).Some?
                   && r.value.columns[4 + i] == Column(name, Nums(impl(MetricFunc(name).value, retrievalGt, out.predIds)))
  {
    forall i | 0 <= i < |d.keys|
      ensures MetricFunc(d.keys[i]).Some?
              && d.scores[d.keys[i]] == impl(MetricFunc(d.keys[i]).value, retrievalGt, out.predIds)
    {
      assert d.keys[i] in d.keys;
    }
    if forall m :: |impl(m, retrievalGt, out.predIds)| == |retrievalGt| {
      assert ScoresOfLength(d, |retrievalGt|);
    }
  }

  /** The decorated function: score the retrieval output `out` against `retrievalGt`
      with each requested metric and return the result table. */
  method EvaluateRetrieval(retrievalGt: seq<Value>, metrics: seq<string>, out: Retrieved, impl: MetricImpl)
    returns (r: Result<Table>)
    ensures FirstUnsupported(metrics) < |metrics| ==> r == Err(KeyError(metrics[FirstUnsupported(metrics)]))
    ensures r.Ok? <==> (FirstUnsupported(metrics) == |metrics|
                        && |out.contents| == |out.scores| == |out.predIds| == |retrievalGt|
                        && ScoreLengthsAgree(Dedup(metrics), retrievalGt, out.predIds, impl))
    ensures r.Ok? ==> Names(r.value.columns) == ResultColumns + Dedup(metrics)
    ensures (FirstUnsupported(metrics) == |metrics| && |out.contents| == |out.scores| == |out.predIds| == |retrievalGt|
             && forall m :: |impl(m, retrievalGt, out.predIds)| == |retrievalGt|) ==>
              r.Ok? && r.value.rows == |retrievalGt|
              && r.value.columns[..4] == [Column("contents", out.contents), Column("scores", out.scores),
                                          Column("pred_ids", out.predIds), Column("retrieval_gt", retrievalGt)]
              && forall i :: 0 <= i < |Dedup(metrics)| ==>
                   var name := Dedup(metrics)[i];
                   MetricFunc(name).Some?
                   && r.value.columns[4 + i] == Column(name, Nums(impl(MetricFunc(name).value, retrievalGt, out.predIds)))
  {
    var d := ComputeMetricScores(retrievalGt, metrics, out.predIds, impl);
    if d.Err? {
      return Err(d.error);
    }
    ScoredTable(retrievalGt, metrics, out, impl, d.value);
    r := ResultTable(retrievalGt, out, d.value);
  }
}
