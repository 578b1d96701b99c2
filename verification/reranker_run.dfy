/** The passage-reranker node runner: every candidate module is run on the
    previous node's result and timed, its output is scored with the requested
    metrics and saved, a summary row is made for each module, the modules too
    slow for the speed threshold are set aside, the best of the rest is picked,
    flagged in the summary, and merged onto the previous result.

    The helpers the runner imports but which are not part of this model are
    given the concrete rules documented in README.md: `measure_speed` and the
    modules are the `Runner` parameter, `evaluate_retrieval_node` the
    `Evaluator` parameter, and `make_module_file_name`, `filter_by_threshold`
    and `select_best_average` are defined below. */
module RerankerRun {
  import opened Wrappers
  import opened Frames
  import opened PySeq
  import opened PyText
  import opened FileStore

  /** The `strategies` dict: `metrics` and `speed_threshold`, each possibly absent (or None). */
  datatype Strategies = Strategies(metrics: Option<seq<string>>, speedThreshold: Option<real>)

  /** What `measure_speed` returns for one module: the module's output and the seconds it took. */
  datatype Measured = Measured(output: Table, elapsed: real)

  /** `measure_speed(module, previous_result=..., **params)`, for the module called `name`. */
  type Runner = (string, seq<Param>, Table) -> Result<Measured>

  /** `evaluate_retrieval_node(result, retrieval_gt, metrics)`. */
  type Evaluator = (Table, seq<Value>, seq<string>) -> Result<Table>

  /** A module returns one row per row of the previous result. */
  ghost predicate PreservesRows(run: Runner) {
    forall name, params, previous :: run(name, params, previous).Ok? ==>
      run(name, params, previous).value.output.rows == previous.rows
  }

  /** Scoring adds columns and keeps the rows. */
  ghost predicate KeepsRows(evaluate: Evaluator) {
    forall t, gt, metrics :: evaluate(t, gt, metrics).Ok? ==> evaluate(t, gt, metrics).value.rows == t.rows
  }

  const NodeName: string := "passage_reranker"
  const MetricPrefix: string := "passage_reranker_"
  const SummaryFile: string := "summary.parquet"
  const DroppedColumns: seq<string> := ["retrieved_contents", "retrieved_ids", "retrieve_scores"]

  // ---------------------------------------------------------------- file names

  /** `"-".join(f"{key}_{value}" ...)` over the module's parameters. */
  function ParamsText(ps: seq<Param>): string {
    JoinWith("-", seq(|ps|, i requires 0 <= i < |ps| => ps[i].key + "_" + ps[i].shown))
  }

  /** `make_module_file_name(name, params)`. */
  function MakeModuleFileName(name: string, ps: seq<Param>): string {
    name + "=>" + ParamsText(ps) + ".parquet"
  }

  /** `os.path.join(node_line_dir, "passage_reranker")`. */
  function SaveDir(nodeLineDir: string): string {
    JoinPath(nodeLineDir, NodeName)
  }

  /** `data/qa.parquet` under the project directory, two levels above the node line directory. */
  function QaPath(nodeLineDir: string): string {
    JoinPath(JoinPath(Parent(Parent(nodeLineDir)), "data"), "qa.parquet")
  }

  /** Where each module's scored result is written. */
  function ModuleFilePaths(saveDir: string, pairs: seq<(string, seq<Param>)>): (r: seq<string>)
    ensures |r| == |pairs|
    ensures forall i :: 0 <= i < |pairs| ==> r[i] == JoinPath(saveDir, MakeModuleFileName(pairs[i].0, pairs[i].1))
  {
    seq(|pairs|, i requires 0 <= i < |pairs| => JoinPath(saveDir, MakeModuleFileName(pairs[i].0, pairs[i].1)))
  }

  /** `os.path.basename` of each path. */
  function Basenames(paths: seq<string>): (r: seq<string>)
    ensures |r| == |paths| && forall i :: 0 <= i < |paths| ==> r[i] == LastSegment(paths[i])
  {
    seq(|paths|, i requires 0 <= i < |paths| => LastSegment(paths[i]))
  }

  /** The best result's path: `best_` + the selected file name without its extension + `.parquet`. */
  function BestFilePath(saveDir: string, selected: string): string {
    JoinPath(saveDir, "best_" + SplitExtRoot(selected) + ".parquet")
  }

  // ---------------------------------------------------------------- running and scoring

  /** The `retrieval_gt` column of the project's QA data. */
  function ReadRetrievalGt(files: map<string, Table>, nodeLineDir: string): (r: Result<seq<Value>>)
    ensures r.Ok? <==> QaPath(nodeLineDir) in files && "retrieval_gt" in Names(files[QaPath(nodeLineDir)].columns)
  {
    var qa :- ReadParquet(files, QaPath(nodeLineDir));
    var gt :- Lookup(qa, "retrieval_gt");
    Ok(gt.cells)
  }

  /** Each module run on the previous result, in order; the first exception stops the run. */
  function RunModules(pairs: seq<(string, seq<Param>)>, previous: Table, run: Runner): Result<seq<Measured>> {
    MapResults(pairs, (p: (string, seq<Param>)) => run(p.0, p.1, previous))
  }

  /** Each module's time per row: its elapsed time divided by the row count of the first
      module's output, so that a first output without rows divides by zero. */
  function AverageTimes(measured: seq<Measured>): (r: Result<seq<real>>)
    requires |measured| > 0
    ensures r.Ok? <==> measured[0].output.rows > 0
    ensures r.Err? ==> r.error == ZeroDivisionError
    ensures r.Ok? ==> |r.value| == |measured|
    ensures r.Ok? ==> forall i :: 0 <= i < |measured| ==>
                        r.value[i] * (measured[0].output.rows as real) == measured[i].elapsed
  {
    var n := measured[0].output.rows;
    if n == 0 then Err(ZeroDivisionError)
    else Ok(seq(|measured|, i requires 0 <= i < |measured| => measured[i].elapsed / (n as real)))
  }

  /** What the runner knows once every module has run and been scored. */
  datatype Evaluated = Evaluated(
    pairs: seq<(string, seq<Param>)>,
    metrics: seq<string>,
    results: seq<Table>,
    averages: seq<real>)

  predicate AllHaveRows(results: seq<Table>) {
    forall i :: 0 <= i < |results| ==> results[i].rows > 0
  }

  /** Reading the ground truth, running and timing every module, checking that metrics
      were requested, and scoring every module's output. */
  function EvaluateModules(files: map<string, Table>, nodeLineDir: string, modules: seq<string>,
                           moduleParams: seq<seq<Param>>, previous: Table, strategies: Strategies,
                           run: Runner, evaluate: Evaluator): (r: Result<Evaluated>)
    requires PreservesRows(run) && KeepsRows(evaluate)
    ensures r.Ok? ==> r.value.pairs == Zip(modules, moduleParams) && |r.value.pairs| > 0
    ensures r.Ok? ==> |r.value.results| == |r.value.averages| == |r.value.pairs|
    ensures r.Ok? ==> strategies.metrics == Some(r.value.metrics)
    ensures r.Ok? ==> AllHaveRows(r.value.results) && forall i :: 0 <= i < |r.value.results| ==> r.value.results[i].rows == previous.rows
    ensures r.Ok? ==> ReadRetrievalGt(files, nodeLineDir).Ok? && RunModules(r.value.pairs, previous, run).Ok?
                      && var gt := ReadRetrievalGt(files, nodeLineDir).value;
                         var measured := RunModules(r.value.pairs, previous, run).value;
                         |measured| == |r.value.pairs| && AverageTimes(measured) == Ok(r.value.averages)
                         && forall i :: 0 <= i < |measured| ==>
                              evaluate(measured[i].output, gt, r.value.metrics) == Ok(r.value.results[i])
  {
    var gt :- ReadRetrievalGt(files, nodeLineDir);
    var pairs := Zip(modules, moduleParams);
    if pairs == [] then Err(ValueError("not enough values to unpack"))
    else
      var measured :- RunModules(pairs, previous, run);
      assert forall i :: 0 <= i < |measured| ==> measured[i].output.rows == previous.rows by {
        forall i | 0 <= i < |measured| ensures measured[i].output.rows == previous.rows {
          assert run(pairs[i].0, pairs[i].1, previous).Ok?;
        }
      }
      var averages :- AverageTimes(measured);
      if strategies.metrics.None? then Err(ValueError("at least one metric is required"))
      else
        var metrics := strategies.metrics.value;
        var results :- MapResults(measured, (m: Measured) => evaluate(m.output, gt, metrics));
        assert forall i :: 0 <= i < |results| ==> results[i].rows == previous.rows by {
          forall i | 0 <= i < |results| ensures results[i].rows == previous.rows {
            assert evaluate(measured[i].output, gt, metrics).Ok?;
          }
        }
        Ok(Evaluated(pairs, metrics, results, averages))
  }

  // ---------------------------------------------------------------- summary

  /** A column of strings. */
  function Strs(xs: seq<string>): (r: seq<Value>)
    ensures |r| == |xs| && forall i :: 0 <= i < |xs| ==> r[i] == Str(xs[i])
  {
    seq(|xs|, i requires 0 <= i < |xs| => Str(xs[i]))
  }

  /** A column of parameter dicts. */
  function ParamDicts(ps: seq<seq<Param>>): (r: seq<Value>)
    ensures |r| == |ps| && forall i :: 0 <= i < |ps| ==> r[i] == ParamDict(ps[i])
  {
    seq(|ps|, i requires 0 <= i < |ps| => ParamDict(ps[i]))
  }

  /** `[result[metric].mean() for result in results]`. */
  function MetricMeans(results: seq<Table>, metric: string): (r: Result<seq<real>>)
    requires AllHaveRows(results)
    ensures r.Ok? <==> forall i :: 0 <= i < |results| ==> ColumnMean(results[i], metric).Ok?
    ensures r.Ok? ==> |r.value| == |results|
    ensures r.Ok? ==> forall i :: 0 <= i < |results| ==> ColumnMean(results[i], metric) == Ok(r.value[i])
  {
    if results == [] then Ok([])
    else
      assert forall i :: 1 <= i < |results| ==> results[i] == results[1..][i - 1];
      var first :- ColumnMean(results[0], metric);
      var rest :- MetricMeans(results[1..], metric);
      ConsIndex(first, rest);
      Ok([first] + rest)
  }

  /** Whether every result has every metric as a numeric column. */
  predicate AllMeansDefined(results: seq<Table>, metrics: seq<string>)
    requires AllHaveRows(results)
  {
    forall j, i :: 0 <= j < |metrics| && 0 <= i < |results| ==> ColumnMean(results[i], metrics[j]).Ok?
  }

  /** A column holding, for each result in order, its mean of the metric. */
  predicate MeansColumn(results: seq<Table>, metric: string, cells: seq<Value>)
    requires AllHaveRows(results)
  {
    |cells| == |results|
    && forall i :: 0 <= i < |results| ==> cells[i].Num? && ColumnMean(results[i], metric) == Ok(cells[i].x)
  }

  /** The summary's metric columns: `passage_reranker_<metric>` holding each module's mean
      of that metric, for each distinct requested metric in first-request order. */
  function SummaryMetricColumns(results: seq<Table>, metrics: seq<string>): (r: Result<seq<(string, seq<Value>)>>)
    requires AllHaveRows(results)
    ensures r.Ok? <==> AllMeansDefined(results, metrics)
    ensures r.Ok? ==> |r.value| == |metrics|
    ensures r.Ok? ==> forall j :: 0 <= j < |metrics| ==>
              r.value[j].0 == MetricPrefix + metrics[j] && MeansColumn(results, metrics[j], r.value[j].1)
  {
    if metrics == [] then Ok([])
    else
      var means := MetricMeans(results, metrics[0]);
      var rest := SummaryMetricColumns(results, metrics[1..]);
      AllMeansDefinedCons(results, metrics);
      if means.Err? then Err(means.error)
      else if rest.Err? then Err(rest.error)
      else
        MetricColumnsCons(results, metrics, means.value, rest.value);
        Ok([(MetricPrefix + metrics[0], Nums(means.value))] + rest.value)
  }

  lemma AllMeansDefinedCons(results: seq<Table>, metrics: seq<string>)
    requires AllHaveRows(results) && metrics != []
    ensures AllMeansDefined(results, metrics) <==>
              (forall i :: 0 <= i < |results| ==> ColumnMean(results[i], metrics[0]).Ok?)
              && AllMeansDefined(results, metrics[1..])
  {
    assert forall j :: 1 <= j < |metrics| ==> metrics[j] == metrics[1..][j - 1];
  }

  lemma MetricColumnsCons(results: seq<Table>, metrics: seq<string>, means: seq<real>, rest: seq<(string, seq<Value>)>)
    requires AllHaveRows(results) && metrics != []
    requires |means| == |results| && forall i :: 0 <= i < |results| ==> ColumnMean(results[i], metrics[0]) == Ok(means[i])
    requires |rest| == |metrics| - 1
    requires forall j :: 0 <= j < |rest| ==>
               rest[j].0 == MetricPrefix + metrics[1..][j] && MeansColumn(results, metrics[1..][j], rest[j].1)
    ensures var cols := [(MetricPrefix + metrics[0], Nums(means))] + rest;
            |cols| == |metrics|
            && forall j :: 0 <= j < |metrics| ==> cols[j].0 == MetricPrefix + metrics[j] && MeansColumn(results, metrics[j], cols[j].1)
  {
    var head := (MetricPrefix + metrics[0], Nums(means));
    assert MeansColumn(results, metrics[0], head.1);
    ConsIndex(head, rest);
    ConsIndex(metrics[0], metrics[1..]);
    assert [metrics[0]] + metrics[1..] == metrics;
  }

  /** The summary's columns, as the dict handed to `pd.DataFrame`: file names, module names,
      parameters and times, then the metric columns. */
  function SummaryDict(filenames: seq<string>, modules: seq<string>, moduleParams: seq<seq<Param>>,
                       averages: seq<real>, metricCols: seq<(string, seq<Value>)>): (cols: seq<(string, seq<Value>)>)
    ensures |cols| == 4 + |metricCols|
    ensures cols[..4] == [("filename", Strs(filenames)), ("module_name", Strs(modules)),
                          ("module_params", ParamDicts(moduleParams)), ("execution_time", Nums(averages))]
    ensures cols[4..] == metricCols
    ensures (forall j :: 0 <= j < |metricCols| ==> |metricCols[j].1| == |filenames|) && |averages| == |filenames| ==>
              (SameLengths(cols) <==> |modules| == |moduleParams| == |filenames|)
  {
    var cols := [("filename", Strs(filenames)), ("module_name", Strs(modules)),
                 ("module_params", ParamDicts(moduleParams)), ("execution_time", Nums(averages))] + metricCols;
    assert cols[1].1 == Strs(modules) && cols[2].1 == ParamDicts(moduleParams) && cols[3].1 == Nums(averages);
    assert forall j :: 0 <= j < |metricCols| ==> cols[4 + j] == metricCols[j];
    cols
  }

  /** The summary table, one row per module in module order, built before any filtering:
      the file name, module name, parameters and time per row of each module, then for each
      distinct requested metric, `passage_reranker_<metric>` holding each module's mean. */
  function BuildSummary(filenames: seq<string>, modules: seq<string>, moduleParams: seq<seq<Param>>,
                        averages: seq<real>, results: seq<Table>, metrics: seq<string>): (r: Result<Table>)
    requires |filenames| == |averages| == |results|
    requires AllHaveRows(results)
    ensures r.Ok? ==> |modules| == |moduleParams| == |filenames|
    ensures r.Ok? ==> r.value.rows == |filenames| && |r.value.columns| == 4 + |Dedup(metrics)|
    ensures r.Ok? ==> r.value.columns[..4] == [Column("filename", Strs(filenames)), Column("module_name", Strs(modules)),
                                                Column("module_params", ParamDicts(moduleParams)),
                                                Column("execution_time", Nums(averages))]
    ensures r.Ok? ==> forall j :: 0 <= j < |Dedup(metrics)| ==> r.value.columns[4 + j].name == MetricPrefix + Dedup(metrics)[j]
    ensures r.Ok? ==> "is_best" !in Names(r.value.columns)
    ensures r.Ok? ==> forall j, i :: 0 <= j < |Dedup(metrics)| && 0 <= i < |filenames| ==>
              r.value.columns[4 + j].cells[i].Num?
              && ColumnMean(results[i], Dedup(metrics)[j]) == Ok(r.value.columns[4 + j].cells[i].x)
  {
    var distinct := Dedup(metrics);
    var metricCols :- SummaryMetricColumns(results, distinct);
    var cols := SummaryDict(filenames, modules, moduleParams, averages, metricCols);
    var summary :- FromColumns(cols);
    SummaryLayout(filenames, modules, moduleParams, averages, metricCols, cols, summary);
    NoIsBestColumn(summary, distinct);
    Ok(summary)
  }

  /** Once every mean is computed, module and parameter lists of another length than the
      module outputs make `pd.DataFrame` raise ValueError. */
  lemma SummaryRejectsMismatch(filenames: seq<string>, modules: seq<string>, moduleParams: seq<seq<Param>>,
                               averages: seq<real>, results: seq<Table>, metrics: seq<string>)
    requires |filenames| == |averages| == |results| && AllHaveRows(results)
    requires forall j, i :: 0 <= j < |metrics| && 0 <= i < |results| ==> ColumnMean(results[i], metrics[j]).Ok?
    requires |modules| != |filenames| || |moduleParams| != |filenames|
    ensures var r := BuildSummary(filenames, modules, moduleParams, averages, results, metrics);
            r.Err? && r.error.ValueError?
  {
    var distinct := Dedup(metrics);
    assert forall j :: 0 <= j < |distinct| ==> distinct[j] in metrics;
    var metricCols := SummaryMetricColumns(results, distinct);
    assert metricCols.Ok?;
    var cols := SummaryDict(filenames, modules, moduleParams, averages, metricCols.value);
    assert !SameLengths(cols);
  }

  /** The summary's first four columns, from the dict handed to `pd.DataFrame` and the table made from it. */
  lemma SummaryLayout(filenames: seq<string>, modules: seq<string>, moduleParams: seq<seq<Param>>,
                      averages: seq<real>, metricCols: seq<(string, seq<Value>)>,
                      cols: seq<(string, seq<Value>)>, summary: Table)
    requires |cols| == 4 + |metricCols| && cols[4..] == metricCols
    requires cols[..4] == [("filename", Strs(filenames)), ("module_name", Strs(modules)),
                           ("module_params", ParamDicts(moduleParams)), ("execution_time", Nums(averages))]
    requires |summary.columns| == |cols| && forall i :: 0 <= i < |cols| ==> summary.columns[i] == Column(cols[i].0, cols[i].1)
    requires SameLengths(cols)
    ensures |modules| == |moduleParams| == |filenames|
    ensures |summary.columns| == 4 + |metricCols|
    ensures summary.columns[..4] == [Column("filename", Strs(filenames)), Column("module_name", Strs(modules)),
                                     Column("module_params", ParamDicts(moduleParams)),
                                     Column("execution_time", Nums(averages))]
    ensures forall j :: 0 <= j < |metricCols| ==> summary.columns[4 + j] == Column(metricCols[j].0, metricCols[j].1)
    ensures summary.columns[0].name == "filename" && summary.columns[1].name == "module_name"
    ensures summary.columns[2].name == "module_params" && summary.columns[3].name == "execution_time"
  {
    assert cols[0] == ("filename", Strs(filenames)) && cols[1] == ("module_name", Strs(modules));
    assert cols[2] == ("module_params", ParamDicts(moduleParams)) && cols[3] == ("execution_time", Nums(averages));
    assert |cols[1].1| == |cols[0].1| && |cols[2].1| == |cols[0].1|;
    assert forall j :: 0 <= j < |metricCols| ==> cols[4 + j] == cols[4..][j];
  }

  // ---------------------------------------------------------------- filtering and selection

  /** The positions whose value is within the threshold, in increasing order. */
  function Kept(values: seq<real>, threshold: real): (k: seq<nat>)
    ensures forall j :: 0 <= j < |k| ==> k[j] < |values| && values[k[j]] <= threshold
    ensures forall j, l :: 0 <= j < l < |k| ==> k[j] < k[l]
    ensures forall i :: 0 <= i < |values| && values[i] <= threshold ==> i in k
  {
    if values == [] then []
    else
      var n := |values| - 1;
      var k := Kept(values[..n], threshold);
      assert forall i :: 0 <= i < n ==> values[..n][i] == values[i];
      if values[n] <= threshold then k + [n] else k
  }

  /** The elements at the given positions. */
  function Pick<T>(xs: seq<T>, positions: seq<nat>): (r: seq<T>)
    requires forall j :: 0 <= j < |positions| ==> positions[j] < |xs|
    ensures |r| == |positions| && forall j :: 0 <= j < |r| ==> r[j] == xs[positions[j]]
  {
    seq(|positions|, j requires 0 <= j < |positions| => xs[positions[j]])
  }

  /** `filter_by_threshold(results, values, threshold, metadatas)`: the results, and their
      metadata, whose value is at most the threshold, in their order; none raises ValueError. */
  function FilterByThreshold<R, M>(results: seq<R>, values: seq<real>, threshold: real, metas: seq<M>)
    : (r: Result<(seq<R>, seq<M>)>)
    requires |results| == |values| == |metas|
    ensures r.Ok? <==> exists i :: 0 <= i < |values| && values[i] <= threshold
    ensures r.Err? ==> r.error.ValueError?
    ensures r.Ok? ==> r.value == (Pick(results, Kept(values, threshold)), Pick(metas, Kept(values, threshold)))
  {
    var k := Kept(values, threshold);
    if k == [] then Err(ValueError("not enough values to unpack"))
    else
      assert values[k[0]] <= threshold;
      Ok((Pick(results, k), Pick(metas, k)))
  }

  /** Every result the filter keeps is within the threshold and kept with its own metadata. */
  lemma FilterKeepsOnlyTheFast<R, M>(results: seq<R>, values: seq<real>, threshold: real, metas: seq<M>)
    requires |results| == |values| == |metas|
    requires FilterByThreshold(results, values, threshold, metas).Ok?
    ensures var kept := FilterByThreshold(results, values, threshold, metas).value;
            |kept.0| == |kept.1|
            && forall j :: 0 <= j < |kept.0| ==>
                 exists i :: 0 <= i < |values| && values[i] <= threshold && kept.0[j] == results[i] && kept.1[j] == metas[i]
  {
    var k := Kept(values, threshold);
    var kept := FilterByThreshold(results, values, threshold, metas).value;
    forall j | 0 <= j < |kept.0|
      ensures exists i :: 0 <= i < |values| && values[i] <= threshold && kept.0[j] == results[i] && kept.1[j] == metas[i]
    {
      assert kept.0[j] == results[k[j]] && kept.1[j] == metas[k[j]];
    }
  }

  /** Every result within the threshold is kept, with its own metadata. */
  lemma FilterKeepsAllTheFast<R, M>(results: seq<R>, values: seq<real>, threshold: real, metas: seq<M>)
    requires |results| == |values| == |metas|
    requires FilterByThreshold(results, values, threshold, metas).Ok?
    ensures var kept := FilterByThreshold(results, values, threshold, metas).value;
            forall i :: 0 <= i < |values| && values[i] <= threshold ==>
              exists j :: 0 <= j < |kept.0| && kept.0[j] == results[i] && kept.1[j] == metas[i]
  {
    var k := Kept(values, threshold);
    var kept := FilterByThreshold(results, values, threshold, metas).value;
    forall i | 0 <= i < |values| && values[i] <= threshold
      ensures exists j :: 0 <= j < |kept.0| && kept.0[j] == results[i] && kept.1[j] == metas[i]
    {
      var j :| 0 <= j < |k| && k[j] == i;
      assert kept.0[j] == results[i] && kept.1[j] == metas[i];
    }
  }

  /** Whether the module at position `i` passes the speed threshold. */
  predicate Eligible(averages: seq<real>, threshold: Option<real>, i: int)
    requires 0 <= i < |averages|
  {
    threshold.None? || averages[i] <= threshold.value
  }

  /** The modules still in the running: those within the speed threshold when one is set, else all;
      a threshold that no module meets raises ValueError. */
  function Candidates(results: seq<Table>, averages: seq<real>, filenames: seq<string>, threshold: Option<real>)
    : (r: Result<(seq<Table>, seq<string>)>)
    requires |results| == |averages| == |filenames|
    ensures threshold.None? ==> r == Ok((results, filenames))
    ensures threshold.Some? ==> (r.Ok? <==> exists i :: 0 <= i < |averages| && Eligible(averages, threshold, i))
    ensures r.Err? ==> r.error.ValueError?
    ensures r.Ok? ==> |r.value.0| == |r.value.1|
    ensures r.Ok? && AllHaveRows(results) ==> AllHaveRows(r.value.0)
  {
    if threshold.Some? then
      assert forall i :: 0 <= i < |averages| ==> (Eligible(averages, threshold, i) <==> averages[i] <= threshold.value);
      FilterByThreshold(results, averages, threshold.value, filenames)
    else Ok((results, filenames))
  }

  /** The position of the first largest value. */
  function ArgMaxFirst(xs: seq<real>): (k: nat)
    requires |xs| > 0
    ensures k < |xs|
    ensures forall i :: 0 <= i < |xs| ==> xs[i] <= xs[k]
    ensures forall i :: 0 <= i < k ==> xs[i] < xs[k]
  {
    if |xs| == 1 then 0
    else
      var n := |xs| - 1;
      var k := ArgMaxFirst(xs[..n]);
      assert forall i :: 0 <= i < n ==> xs[..n][i] == xs[i];
      if xs[n] > xs[k] then n else k
  }

  /** Each metric's mean in one result table. */
  function TableMeans(t: Table, metrics: seq<string>): (r: Result<seq<real>>)
    requires t.rows > 0
    ensures r.Ok? <==> forall j :: 0 <= j < |metrics| ==> ColumnMean(t, metrics[j]).Ok?
    ensures r.Ok? ==> |r.value| == |metrics| && forall j :: 0 <= j < |metrics| ==> ColumnMean(t, metrics[j]) == Ok(r.value[j])
  {
    if metrics == [] then Ok([])
    else
      var first := ColumnMean(t, metrics[0]);
      var rest := TableMeans(t, metrics[1..]);
      assert forall j :: 1 <= j < |metrics| ==> metrics[j] == metrics[1..][j - 1];
      if first.Err? then Err(first.error)
      else if rest.Err? then Err(rest.error)
      else
        TableMeansCons(t, metrics, first.value, rest.value);
        Ok([first.value] + rest.value)
  }

  lemma TableMeansCons(t: Table, metrics: seq<string>, first: real, rest: seq<real>)
    requires t.rows > 0 && metrics != []
    requires ColumnMean(t, metrics[0]) == Ok(first)
    requires |rest| == |metrics| - 1 && forall j :: 0 <= j < |rest| ==> ColumnMean(t, metrics[1..][j]) == Ok(rest[j])
    ensures |[first] + rest| == |metrics|
    ensures forall j :: 0 <= j < |metrics| ==> ColumnMean(t, metrics[j]) == Ok(([first] + rest)[j])
  {
    ConsIndex(first, rest);
    ConsIndex(metrics[0], metrics[1..]);
    assert [metrics[0]] + metrics[1..] == metrics;
  }

  /** A result's composite score: the mean of its per-metric means (0 with no metric,
      where every candidate ties). */
  function Composite(t: Table, metrics: seq<string>): (r: Result<real>)
    requires t.rows > 0
    ensures r.Ok? <==> TableMeans(t, metrics).Ok?
    ensures r.Ok? && metrics != [] ==> r.value == Mean(TableMeans(t, metrics).value)
  {
    var means :- TableMeans(t, metrics);
    if means == [] then Ok(0.0) else Ok(Mean(means))
  }

  /** The composite score of every result, in order. */
  function Composites(results: seq<Table>, metrics: seq<string>): (r: Result<seq<real>>)
    requires AllHaveRows(results)
    ensures r.Ok? <==> forall i :: 0 <= i < |results| ==> Composite(results[i], metrics).Ok?
    ensures r.Ok? ==> |r.value| == |results| && forall i :: 0 <= i < |results| ==> Composite(results[i], metrics) == Ok(r.value[i])
  {
    if results == [] then Ok([])
    else
      assert forall i :: 1 <= i < |results| ==> results[i] == results[1..][i - 1];
      var first :- Composite(results[0], metrics);
      var rest :- Composites(results[1..], metrics);
      ConsIndex(first, rest);
      Ok([first] + rest)
  }

  /** `select_best_average(results, metrics, metadatas)`: the result with the highest
      composite score and its metadata, the earliest on a tie; no result raises ValueError. */
  function SelectBestAverage(results: seq<Table>, metrics: seq<string>, metas: seq<string>): (r: Result<(Table, string)>)
    requires |results| == |metas| && AllHaveRows(results)
    ensures results == [] ==> r.Err? && r.error.ValueError?
    ensures r.Ok? ==> Composites(results, metrics).Ok? && results != []
    ensures r.Ok? ==>
              var scores := Composites(results, metrics).value;
              var k := ArgMaxFirst(scores);
              r.value == (results[k], metas[k])
  {
    var scores :- Composites(results, metrics);
    if scores == [] then Err(ValueError("max() arg is an empty sequence"))
    else
      var k := ArgMaxFirst(scores);
      Ok((results[k], metas[k]))
  }

  /** Module `w` passes the threshold and is the first best among the modules that pass it:
      none of them scores higher, and every one before it scores lower. */
  predicate FirstBestEligible(results: seq<Table>, averages: seq<real>, metrics: seq<string>,
                              threshold: Option<real>, w: nat)
    requires |results| == |averages| && AllHaveRows(results) && w < |results|
  {
    Eligible(averages, threshold, w) && Composite(results[w], metrics).Ok?
    && (forall i :: 0 <= i < |results| && Eligible(averages, threshold, i) ==>
          Composite(results[i], metrics).Ok? && Composite(results[i], metrics).value <= Composite(results[w], metrics).value)
    && (forall i :: 0 <= i < w && Eligible(averages, threshold, i) ==>
          Composite(results[i], metrics).value < Composite(results[w], metrics).value)
  }

  /** The selection picks the first best module among those within the threshold. */
  lemma {:induction false} SelectionIsFirstBestEligible(results: seq<Table>, averages: seq<real>, filenames: seq<string>,
                                                       metrics: seq<string>, threshold: Option<real>)
    requires |results| == |averages| == |filenames| && AllHaveRows(results)
    requires Candidates(results, averages, filenames, threshold).Ok?
    requires var c := Candidates(results, averages, filenames, threshold).value;
             SelectBestAverage(c.0, metrics, c.1).Ok?
    ensures var c := Candidates(results, averages, filenames, threshold).value;
            exists w :: 0 <= w < |results| && SelectBestAverage(c.0, metrics, c.1).value == (results[w], filenames[w])
                        && FirstBestEligible(results, averages, metrics, threshold, w)
  {
    var c := Candidates(results, averages, filenames, threshold).value;
    if threshold.None? {
      assert c == (results, filenames);
      var k := ArgMaxFirst(Composites(results, metrics).value);
      assert SelectBestAverage(c.0, metrics, c.1).value == (results[k], filenames[k]);
      assert FirstBestEligible(results, averages, metrics, threshold, k);
    } else {
      var w := FilteredWinner(results, averages, filenames, metrics, threshold.value);
      assert SelectBestAverage(c.0, metrics, c.1).value == (results[w], filenames[w]);
    }
  }

  /** With a threshold, the winner's position among all modules: the position of the first
      best among the kept ones. */
  lemma FilteredWinner(results: seq<Table>, averages: seq<real>, filenames: seq<string>, metrics: seq<string>, t: real)
    returns (w: nat)
    requires |results| == |averages| == |filenames| && AllHaveRows(results)
    requires Candidates(results, averages, filenames, Some(t)).Ok?
    requires var c := Candidates(results, averages, filenames, Some(t)).value;
             SelectBestAverage(c.0, metrics, c.1).Ok?
    ensures w < |results|
    ensures var c := Candidates(results, averages, filenames, Some(t)).value;
            SelectBestAverage(c.0, metrics, c.1).value == (results[w], filenames[w])
    ensures FirstBestEligible(results, averages, metrics, Some(t), w)
  {
    var c := Candidates(results, averages, filenames, Some(t)).value;
    var kept := Kept(averages, t);
    assert c == (Pick(results, kept), Pick(filenames, kept));
    var scores := Composites(c.0, metrics).value;
    var k := ArgMaxFirst(scores);
    w := kept[k];
    assert results[w] == c.0[k] && filenames[w] == c.1[k];
    assert forall j :: 0 <= j < |kept| ==> Composite(results[kept[j]], metrics) == Ok(scores[j]) by {
      forall j | 0 <= j < |kept| ensures Composite(results[kept[j]], metrics) == Ok(scores[j]) {
        assert c.0[j] == results[kept[j]];
      }
    }
    FirstBestAmongKept(results, averages, metrics, t, kept, scores, k);
  }

  /** The first best of the kept modules' scores is the first best eligible module. */
  lemma FirstBestAmongKept(results: seq<Table>, averages: seq<real>, metrics: seq<string>, t: real,
                           kept: seq<nat>, scores: seq<real>, k: nat)
    requires |results| == |averages| && AllHaveRows(results)
    requires kept == Kept(averages, t)
    requires |scores| == |kept| && forall j :: 0 <= j < |kept| ==> Composite(results[kept[j]], metrics) == Ok(scores[j])
    requires k < |scores| && (forall j :: 0 <= j < |scores| ==> scores[j] <= scores[k])
    requires forall j :: 0 <= j < k ==> scores[j] < scores[k]
    ensures FirstBestEligible(results, averages, metrics, Some(t), kept[k])
  {
    var w := kept[k];
    forall i | 0 <= i < |results| && Eligible(averages, Some(t), i)
      ensures Composite(results[i], metrics).Ok? && Composite(results[i], metrics).value <= scores[k]
      ensures i < w ==> Composite(results[i], metrics).value < scores[k]
    {
      var j := KeptRank(averages, t, kept, k, i);
    }
  }

  /** A position within the threshold is kept, and it comes before the `k`-th kept position
      exactly when its rank among the kept ones is below `k`. */
  lemma KeptRank(averages: seq<real>, t: real, kept: seq<nat>, k: nat, i: nat) returns (j: nat)
    requires kept == Kept(averages, t) && k < |kept|
    requires i < |averages| && averages[i] <= t
    ensures j < |kept| && kept[j] == i && (j < k <==> i < kept[k])
  {
    j :| 0 <= j < |kept| && kept[j] == i;
    assert j < k ==> kept[j] < kept[k];
    assert k < j ==> kept[k] < kept[j];
  }

  /** The previous result with the selected result's columns beside it, without the three
      per-passage columns; a missing one of these raises KeyError. */
  function MergeBest(previous: Table, selected: Table): (r: Result<Table>)
    ensures r.Ok? <==> forall n :: n in DroppedColumns ==> n in Names(previous.columns) + Names(selected.columns)
    ensures r.Ok? && selected.rows == previous.rows ==> r.value.rows == previous.rows
    ensures r.Ok? && selected.rows == previous.rows ==>
              forall c :: c in r.value.columns <==> (c in previous.columns || c in selected.columns) && c.name !in DroppedColumns
    ensures r.Ok? && selected.rows == previous.rows ==>
              r.value.columns == KeepColumns(previous.columns, DroppedColumns) + KeepColumns(selected.columns, DroppedColumns)
  {
    var merged := Concat(previous, selected);
    assert selected.rows == previous.rows ==> forall c :: c in merged.columns <==> c in previous.columns || c in selected.columns;
    KeepColumnsAppend(previous.columns, selected.columns, DroppedColumns);
    Drop(merged, DroppedColumns)
  }

  /** `summary_df['filename'] == selected_filename`. */
  function IsBestFlags(filenames: seq<string>, selected: string): (r: seq<Value>)
    ensures |r| == |filenames| && forall i :: 0 <= i < |filenames| ==> r[i] == Bool(filenames[i] == selected)
  {
    seq(|filenames|, i requires 0 <= i < |filenames| => Bool(filenames[i] == selected))
  }

  // ---------------------------------------------------------------- the node run

  /** What the runner produces once all modules are scored and saved. */
  datatype Conclusion = Conclusion(summary: Table, best: Table, selected: string)

  /** The summary, the filtering, the selection, the merge and the `is_best` column. */
  function Conclude(ev: Evaluated, filenames: seq<string>, modules: seq<string>, moduleParams: seq<seq<Param>>,
                    previous: Table, threshold: Option<real>): (r: Result<Conclusion>)
    requires |filenames| == |ev.results| == |ev.averages|
    requires AllHaveRows(ev.results)
    ensures r.Ok? ==> var summary := BuildSummary(filenames, modules, moduleParams, ev.averages, ev.results, ev.metrics);
                      summary.Ok? && r.value.summary == SetColumn(summary.value, "is_best", IsBestFlags(filenames, r.value.selected)).value
    ensures r.Ok? ==> var candidates := Candidates(ev.results, ev.averages, filenames, threshold);
                      candidates.Ok? && SelectBestAverage(candidates.value.0, ev.metrics, candidates.value.1).Ok?
                      && var selected := SelectBestAverage(candidates.value.0, ev.metrics, candidates.value.1).value;
                         r.value.selected == selected.1 && MergeBest(previous, selected.0) == Ok(r.value.best)
  {
    var summary :- BuildSummary(filenames, modules, moduleParams, ev.averages, ev.results, ev.metrics);
    var candidates :- Candidates(ev.results, ev.averages, filenames, threshold);
    var selected :- SelectBestAverage(candidates.0, ev.metrics, candidates.1);
    var best :- MergeBest(previous, selected.0);
    var marked := SetColumn(summary, "is_best", IsBestFlags(filenames, selected.1)).value;
    Ok(Conclusion(marked, best, selected.1))
  }

  /** A concluded run's summary is the summary of every module, those beyond the threshold
      included, with an `is_best` column added last that is true exactly on the rows of the
      selected file name. */
  lemma ConcludedSummary(ev: Evaluated, filenames: seq<string>, modules: seq<string>, moduleParams: seq<seq<Param>>,
                         previous: Table, threshold: Option<real>)
    requires |filenames| == |ev.results| == |ev.averages| && AllHaveRows(ev.results)
    requires Conclude(ev, filenames, modules, moduleParams, previous, threshold).Ok?
    ensures var c := Conclude(ev, filenames, modules, moduleParams, previous, threshold).value;
            var summary := BuildSummary(filenames, modules, moduleParams, ev.averages, ev.results, ev.metrics);
            summary.Ok? && c.summary.rows == |filenames|
            && c.summary.columns == summary.value.columns + [Column("is_best", IsBestFlags(filenames, c.selected))]
  {
  }

  /** No summary column is called `is_best`: the four fixed names differ from it, and every
      metric column's name starts with `passage_reranker_`. */
  lemma NoIsBestColumn(summary: Table, d: seq<string>)
    requires |summary.columns| == 4 + |d|
    requires summary.columns[0].name == "filename" && summary.columns[1].name == "module_name"
    requires summary.columns[2].name == "module_params" && summary.columns[3].name == "execution_time"
    requires forall j :: 0 <= j < |d| ==> summary.columns[4 + j].name == MetricPrefix + d[j]
    ensures "is_best" !in Names(summary.columns)
  {
    var names := Names(summary.columns);
    forall k | 0 <= k < |names| ensures names[k] != "is_best" {
      if k >= 4 {
        assert summary.columns[4 + (k - 4)].name == MetricPrefix + d[k - 4];
        assert |names[k]| > 7;
      }
    }
  }

  /** A concluded run selected the first best module among those within the threshold, and its
      best result is the previous result merged with that module's scored output. */
  lemma ConcludedSelection(ev: Evaluated, filenames: seq<string>, modules: seq<string>, moduleParams: seq<seq<Param>>,
                           previous: Table, threshold: Option<real>)
    requires |filenames| == |ev.results| == |ev.averages| && AllHaveRows(ev.results)
    requires Conclude(ev, filenames, modules, moduleParams, previous, threshold).Ok?
    ensures var c := Conclude(ev, filenames, modules, moduleParams, previous, threshold).value;
            exists w :: 0 <= w < |filenames| && filenames[w] == c.selected
              && MergeBest(previous, ev.results[w]) == Ok(c.best)
              && FirstBestEligible(ev.results, ev.averages, ev.metrics, threshold, w)
  {
    SelectionIsFirstBestEligible(ev.results, ev.averages, filenames, ev.metrics, threshold);
  }

  /** With distinct file names, exactly one summary row is flagged best. */
  lemma {:induction false} ExactlyOneBest(filenames: seq<string>, selected: string)
    requires forall i, j :: 0 <= i < j < |filenames| ==> filenames[i] != filenames[j]
    requires selected in filenames
    ensures exists w :: 0 <= w < |filenames| && IsBestFlags(filenames, selected)[w] == Bool(true)
              && forall i :: 0 <= i < |filenames| && IsBestFlags(filenames, selected)[i] == Bool(true) ==> i == w
  {
    var w :| 0 <= w < |filenames| && filenames[w] == selected;
    assert IsBestFlags(filenames, selected)[w] == Bool(true);
  }

  /** The runner's return value, the files it writes in order, and the directories it creates. */
  datatype Outcome = Outcome(result: Result<Table>, writes: seq<(string, Table)>, made: set<string>)

  /** The directories the run creates: the node line directory, and the reranker's own
      directory once every module has been scored, each when nothing exists at its path. */
  function DirsMade(files: map<string, Table>, dirs: set<string>, nodeLineDir: string, scored: bool): set<string> {
    var first := if nodeLineDir in files || nodeLineDir in dirs then {} else {nodeLineDir};
    var saveDir := SaveDir(nodeLineDir);
    first + if !scored || saveDir in files || saveDir in dirs + first then {} else {saveDir}
  }

  /** The files written once a run is concluded: the flagged summary, then the best result. */
  function FinalWrites(saveDir: string, concluded: Result<Conclusion>): seq<(string, Table)> {
    if concluded.Err? then []
    else [(JoinPath(saveDir, SummaryFile), concluded.value.summary)]
         + [(BestFilePath(saveDir, concluded.value.selected), concluded.value.best)]
  }

  /** The whole node run against the files `files` and directories `dirs` present before it. */
  function NodeRun(files: map<string, Table>, dirs: set<string>, modules: seq<string>, moduleParams: seq<seq<Param>>,
                   previous: Table, nodeLineDir: string, strategies: Strategies, run: Runner, evaluate: Evaluator): Outcome
    requires PreservesRows(run) && KeepsRows(evaluate)
  {
    match EvaluateModules(files, nodeLineDir, modules, moduleParams, previous, strategies, run, evaluate)
    case Err(e) => Outcome(Err(e), [], DirsMade(files, dirs, nodeLineDir, false))
    case Ok(ev) =>
      var saveDir := SaveDir(nodeLineDir);
      var filenames := Basenames(ModuleFilePaths(saveDir, ev.pairs));
      var concluded := Conclude(ev, filenames, modules, moduleParams, previous, strategies.speedThreshold);
      Outcome(if concluded.Err? then Err(concluded.error) else Ok(concluded.value.best),
              Zip(ModuleFilePaths(saveDir, ev.pairs), ev.results) + FinalWrites(saveDir, concluded),
              DirsMade(files, dirs, nodeLineDir, true))
  }

  /** The files after the writes, in order. */
  function ApplyWrites(files: map<string, Table>, writes: seq<(string, Table)>): map<string, Table> {
    if writes == [] then files
    else ApplyWrites(files, writes[..|writes| - 1])[writes[|writes| - 1].0 := writes[|writes| - 1].1]
  }

  lemma ApplyTwo(files: map<string, Table>, x: (string, Table), y: (string, Table))
    ensures ApplyWrites(files, [x] + [y]) == files[x.0 := x.1][y.0 := y.1]
  {
    assert ([x] + [y])[..1] == [x];
    assert [x][..0] == [];
    assert ApplyWrites(files, [x]) == files[x.0 := x.1];
  }

  /** After writes ending with `x` then `y` at different paths, both files hold what was written last. */
  lemma LastTwoWrites(files: map<string, Table>, w: seq<(string, Table)>, x: (string, Table), y: (string, Table))
    requires x.0 != y.0
    ensures var after := ApplyWrites(files, w + ([x] + [y]));
            x.0 in after && after[x.0] == x.1 && y.0 in after && after[y.0] == y.1
  {
    ApplyWritesAppend(files, w, [x] + [y]);
    ApplyTwo(ApplyWrites(files, w), x, y);
  }

  /** Writing `a` then `b` is writing `a + b`. */
  lemma {:induction false} ApplyWritesAppend(files: map<string, Table>, a: seq<(string, Table)>, b: seq<(string, Table)>)
    ensures ApplyWrites(files, a + b) == ApplyWrites(ApplyWrites(files, a), b)
    decreases |b|
  {
    if b == [] {
      assert a + b == a;
    } else {
      var n := |b| - 1;
      assert (a + b)[..|a + b| - 1] == a + b[..n];
      ApplyWritesAppend(files, a, b[..n]);
    }
  }

  /** Saving every module's scored result at its path, in module order. */
  method SaveModuleResults(store: Store, paths: seq<string>, results: seq<Table>)
    modifies store
    ensures store.files == ApplyWrites(old(store.files), Zip(paths, results)) && store.dirs == old(store.dirs)
  {
    var writes := Zip(paths, results);
    for i := 0 to |writes|
      invariant store.files == ApplyWrites(old(store.files), writes[..i]) && store.dirs == old(store.dirs)
    {
      assert writes[..i + 1][..i] == writes[..i];
      store.WriteParquet(writes[i].0, writes[i].1);
    }
    assert writes[..|writes|] == writes;
  }

  /** Concluding the run, then saving the flagged summary and the best result. */
  method ConcludeAndSave(store: Store, saveDir: string, ev: Evaluated, filenames: seq<string>, modules: seq<string>,
                         moduleParams: seq<seq<Param>>, previous: Table, threshold: Option<real>)
    returns (r: Result<Table>)
    requires |filenames| == |ev.results| == |ev.averages|
    requires AllHaveRows(ev.results)
    modifies store
    ensures var c := Conclude(ev, filenames, modules, moduleParams, previous, threshold);
            r == (if c.Err? then Err(c.error) else Ok(c.value.best))
            && store.files == ApplyWrites(old(store.files), FinalWrites(saveDir, c))
            && store.dirs == old(store.dirs)
  {
    var concluded := Conclude(ev, filenames, modules, moduleParams, previous, threshold);
    if concluded.Err? {
      return Err(concluded.error);
    }
    var c := concluded.value;
    ApplyTwo(store.files, (JoinPath(saveDir, SummaryFile), c.summary), (BestFilePath(saveDir, c.selected), c.best));
    store.WriteParquet(JoinPath(saveDir, SummaryFile), c.summary);
    store.WriteParquet(BestFilePath(saveDir, c.selected), c.best);
    return Ok(c.best);
  }

  /** `run_passage_reranker_node(modules, module_params, previous_result, node_line_dir, strategies)`. */
  method RunPassageRerankerNode(store: Store, modules: seq<string>, moduleParams: seq<seq<Param>>,
                                previous: Table, nodeLineDir: string, strategies: Strategies,
                                run: Runner, evaluate: Evaluator) returns (r: Result<Table>)
    requires PreservesRows(run) && KeepsRows(evaluate)
    modifies store
    ensures var o := NodeRun(old(store.files), old(store.dirs), modules, moduleParams, previous, nodeLineDir,
                             strategies, run, evaluate);
            r == o.result && store.files == ApplyWrites(old(store.files), o.writes) && store.dirs == old(store.dirs) + o.made
  {
    ghost var files0, dirs0 := store.files, store.dirs;
    if !store.Exists(nodeLineDir) {
      store.MakeDirs(nodeLineDir);
    }
    var ev := EvaluateModules(store.files, nodeLineDir, modules, moduleParams, previous, strategies, run, evaluate);
    if ev.Err? {
      return Err(ev.error);
    }
    var saveDir := SaveDir(nodeLineDir);
    if !store.Exists(saveDir) {
      store.MakeDirs(saveDir);
    }
    assert store.dirs == dirs0 + DirsMade(files0, dirs0, nodeLineDir, true);
    r := SaveAndConclude(store, saveDir, ev.value, modules, moduleParams, previous, strategies.speedThreshold);
  }

  /** Every module's result saved under its file name, then the run concluded and its
      summary and best result saved. */
  method SaveAndConclude(store: Store, saveDir: string, ev: Evaluated, modules: seq<string>,
                         moduleParams: seq<seq<Param>>, previous: Table, threshold: Option<real>)
    returns (r: Result<Table>)
    requires |ev.results| == |ev.averages| == |ev.pairs|
    requires AllHaveRows(ev.results)
    modifies store
    ensures var paths := ModuleFilePaths(saveDir, ev.pairs);
            var c := Conclude(ev, Basenames(paths), modules, moduleParams, previous, threshold);
            r == (if c.Err? then Err(c.error) else Ok(c.value.best))
            && store.files == ApplyWrites(old(store.files), Zip(paths, ev.results) + FinalWrites(saveDir, c))
            && store.dirs == old(store.dirs)
  {
    ghost var files0 := store.files;
    var paths := ModuleFilePaths(saveDir, ev.pairs);
    SaveModuleResults(store, paths, ev.results);
    var filenames := Basenames(paths);
    ghost var concluded := Conclude(ev, filenames, modules, moduleParams, previous, threshold);
    r := ConcludeAndSave(store, saveDir, ev, filenames, modules, moduleParams, previous, threshold);
    ApplyWritesAppend(files0, Zip(paths, ev.results), FinalWrites(saveDir, concluded));
  }

  // ---------------------------------------------------------------- properties of the run

  /** A module without parameters is saved as `<name>=>.parquet`. */
  lemma FileNameWithoutParams(name: string)
    ensures MakeModuleFileName(name, []) == name + "=>.parquet"
  {
    assert ParamsText([]) == "";
    assert "=>" + "" + ".parquet" == "=>.parquet";
  }

  /** A module's file name holds no '/' when its name and parameters hold none, and its
      extension is `.parquet`. */
  lemma FileNameParts(name: string, ps: seq<Param>)
    requires '/' !in name && '/' !in ParamsText(ps)
    ensures '/' !in name + "=>" + ParamsText(ps)
    ensures '/' !in MakeModuleFileName(name, ps)
    ensures SplitExtRoot(MakeModuleFileName(name, ps)) == name + "=>" + ParamsText(ps)
  {
    var stem := name + "=>" + ParamsText(ps);
    NotInConcat('/', name, "=>");
    NotInConcat('/', name + "=>", ParamsText(ps));
    NotInConcat('/', stem, ".parquet");
    assert stem[|name|] == '=';
    SplitExtRootOfSuffix(stem, ".parquet");
  }

  lemma BestFileBasename(saveDir: string, stem: string)
    requires '/' !in stem
    ensures LastSegment(JoinPath(saveDir, "best_" + stem + ".parquet")) == "best_" + stem + ".parquet"
  {
    NotInConcat('/', "best_", stem);
    NotInConcat('/', "best_" + stem, ".parquet");
    BasenameOfJoin(saveDir, "best_" + stem + ".parquet");
  }

  /** A module's file is named after the module and its parameters; the summary lists that
      name, and the best result's file is named `best_` + that name without `.parquet`, + `.parquet`. */
  lemma ModuleFileNaming(saveDir: string, name: string, ps: seq<Param>)
    requires '/' !in name && '/' !in ParamsText(ps)
    ensures LastSegment(JoinPath(saveDir, MakeModuleFileName(name, ps))) == MakeModuleFileName(name, ps)
    ensures LastSegment(BestFilePath(saveDir, MakeModuleFileName(name, ps)))
              == "best_" + (name + "=>" + ParamsText(ps)) + ".parquet"
  {
    FileNameParts(name, ps);
    BasenameOfJoin(saveDir, MakeModuleFileName(name, ps));
    BestFileBasename(saveDir, name + "=>" + ParamsText(ps));
  }

  /** The order in which a run fails: a missing QA file or `retrieval_gt` column first, then an
      empty module list, then the first module that raises, then a first output without rows,
      and only then missing metrics: every module runs before the metrics are checked. */
  lemma ErrorOrder(files: map<string, Table>, nodeLineDir: string, modules: seq<string>, moduleParams: seq<seq<Param>>,
                   previous: Table, strategies: Strategies, run: Runner, evaluate: Evaluator)
    requires PreservesRows(run) && KeepsRows(evaluate)
    ensures var gt := ReadRetrievalGt(files, nodeLineDir);
            var pairs := Zip(modules, moduleParams);
            var runs := RunModules(pairs, previous, run);
            var r := EvaluateModules(files, nodeLineDir, modules, moduleParams, previous, strategies, run, evaluate);
            (gt.Err? ==> r == Err(gt.error))
            && (gt.Ok? && pairs == [] ==> r.Err? && r.error.ValueError?)
            && (gt.Ok? && pairs != [] && runs.Err? ==> r == Err(runs.error))
            && (gt.Ok? && pairs != [] && runs.Ok? && previous.rows == 0 ==> r == Err(ZeroDivisionError))
            && (gt.Ok? && pairs != [] && runs.Ok? && previous.rows > 0 && strategies.metrics.None? ==>
                  r.Err? && r.error.ValueError?)
  {
    var pairs := Zip(modules, moduleParams);
    var runs := RunModules(pairs, previous, run);
    if pairs != [] && runs.Ok? {
      assert runs.value[0] == run(pairs[0].0, pairs[0].1, previous).value;
    }
  }

  /** A run whose modules were scored as `ev` and concluded as `c` returns the best result
      after writing every module's result, the flagged summary and the best result. */
  lemma ConcludedRunOutcome(files: map<string, Table>, dirs: set<string>, modules: seq<string>,
                            moduleParams: seq<seq<Param>>, previous: Table, nodeLineDir: string,
                            strategies: Strategies, run: Runner, evaluate: Evaluator, ev: Evaluated, c: Conclusion)
    requires PreservesRows(run) && KeepsRows(evaluate)
    requires EvaluateModules(files, nodeLineDir, modules, moduleParams, previous, strategies, run, evaluate) == Ok(ev)
    requires Conclude(ev, Basenames(ModuleFilePaths(SaveDir(nodeLineDir), ev.pairs)), modules, moduleParams, previous,
                      strategies.speedThreshold) == Ok(c)
    ensures var o := NodeRun(files, dirs, modules, moduleParams, previous, nodeLineDir, strategies, run, evaluate);
            o.result == Ok(c.best)
            && o.writes == Zip(ModuleFilePaths(SaveDir(nodeLineDir), ev.pairs), ev.results) + FinalWrites(SaveDir(nodeLineDir), Ok(c))
  {
  }

  /** The best result has one row per row of the previous result. */
  lemma BestKeepsRows(ev: Evaluated, filenames: seq<string>, modules: seq<string>, moduleParams: seq<seq<Param>>,
                      previous: Table, threshold: Option<real>)
    requires |filenames| == |ev.results| == |ev.averages| && AllHaveRows(ev.results)
    requires forall i :: 0 <= i < |ev.results| ==> ev.results[i].rows == previous.rows
    requires Conclude(ev, filenames, modules, moduleParams, previous, threshold).Ok?
    ensures Conclude(ev, filenames, modules, moduleParams, previous, threshold).value.best.rows == previous.rows
  {
    ConcludedSelection(ev, filenames, modules, moduleParams, previous, threshold);
  }

  /** A run whose modules were scored as `ev` and concluded as `c` returns the best result,
      which has one row per row of the previous result, and leaves the flagged summary at
      `summary.parquet` and the best result at the best file's path. */
  lemma SuccessfulRunSaves(files: map<string, Table>, dirs: set<string>, modules: seq<string>,
                           moduleParams: seq<seq<Param>>, previous: Table, nodeLineDir: string,
                           strategies: Strategies, run: Runner, evaluate: Evaluator, ev: Evaluated, c: Conclusion)
    requires PreservesRows(run) && KeepsRows(evaluate)
    requires EvaluateModules(files, nodeLineDir, modules, moduleParams, previous, strategies, run, evaluate) == Ok(ev)
    requires Conclude(ev, Basenames(ModuleFilePaths(SaveDir(nodeLineDir), ev.pairs)), modules, moduleParams, previous,
                      strategies.speedThreshold) == Ok(c)
    ensures var o := NodeRun(files, dirs, modules, moduleParams, previous, nodeLineDir, strategies, run, evaluate);
            var after := ApplyWrites(files, o.writes);
            o.result == Ok(c.best) && c.best.rows == previous.rows
            && JoinPath(SaveDir(nodeLineDir), SummaryFile) in after
            && after[JoinPath(SaveDir(nodeLineDir), SummaryFile)] == c.summary
            && BestFilePath(SaveDir(nodeLineDir), c.selected) in after
            && after[BestFilePath(SaveDir(nodeLineDir), c.selected)] == c.best
  {
    var saveDir := SaveDir(nodeLineDir);
    var filenames := Basenames(ModuleFilePaths(saveDir, ev.pairs));
    ConcludedRunOutcome(files, dirs, modules, moduleParams, previous, nodeLineDir, strategies, run, evaluate, ev, c);
    BestKeepsRows(ev, filenames, modules, moduleParams, previous, strategies.speedThreshold);
    JoinPathDistinct(saveDir, SummaryFile, "best_" + SplitExtRoot(c.selected) + ".parquet");
    LastTwoWrites(files, Zip(ModuleFilePaths(saveDir, ev.pairs), ev.results),
                  (JoinPath(saveDir, SummaryFile), c.summary), (BestFilePath(saveDir, c.selected), c.best));
  }
}
