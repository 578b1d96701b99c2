# A verified model of AutoRAG's reranker node runner, retrieval evaluation, CLOVA OCR parser, query-expansion base and Jina reranker

This project models five pieces of AutoRAG, the RAG pipeline optimiser, in Dafny and proves properties about them.

- **Passage-reranker node runner** (`reranker_run.dfy`, module `RerankerRun`). This is `run_passage_reranker_node`. It:
  1. runs every candidate module on the previous node's result and times it;
  2. scores each output with the requested retrieval metrics and saves it as a parquet file;
  3. builds a summary table with one row per module;
  4. sets aside modules slower than the speed threshold;
  5. picks the best remaining module by average metric score;
  6. flags that module in the summary (`is_best`);
  7. saves the summary and the best result;
  8. returns the previous result merged with the winner's columns.

  The method `RunPassageRerankerNode` changes a file store (`FileStore.Store`, a class over a map from paths to tables and a set of directories). It is proved equal to the pure function `NodeRun`, and the lemmas are stated about `NodeRun`.
- **Retrieval evaluation decorator** (`retrieval_eval.dfy`, module `RetrievalEval`). This is the wrapper made by `evaluate_retrieval`. Its loop fills the metric-score dict, then the result table is assembled from `contents`, `scores`, `pred_ids`, `retrieval_gt` and one column per metric.
- **CLOVA OCR parser**:
  - `clova_table.dfy` (module `ClovaTable`) is `json_to_html_table`. It lays the OCR table cells onto a two-dimensional array (later cells overwrite earlier ones, and positions under a span are covered) and accumulates the HTML row by row.
  - `clova_ocr.dfy` (module `ClovaOcr`) covers:
    - credential resolution;
    - `pdf_to_images` (page names);
    - `extract_text_from_fields`;
    - reading a service answer (`clova_ocr_pure`);
    - `clova_ocr` itself, which flattens every page of every file in order.
- **Query-expansion base** (`query_expansion.dfy`, module `QueryExpansion`):
  - `check_expanded_query` and `_check_expanded_query`;
  - `make_generator_callable_param`, over a dict class updated in place;
  - `cast_to_run`.
- **Jina reranker** (`jina_reranker.dfy`, module `JinaReranker`):
  - API key fallback;
  - one task per query;
  - reading the ranking back into reordered contents, ids and service scores.

Shared modules:

- **`Wrappers`**: `Option`, `Result` and the Python exceptions the code raises.
- **`PySeq`**: `zip`, `itertools.chain`, dict key order, Python indexing with negative indices, and in-order batch running.
- **`PyText`**: `str.strip`, `str(int)`, `str.split("/")[-1]`, `os.path.join`, `PurePath.parent`, `os.path.splitext`.
- **`Frames`**: the pandas DataFrame operations used.
- **`FileStore`**: parquet files and directories.

The network services, the PDF renderer, the environment, the candidate modules and the metric implementations are parameters (function values or maps).

The runner calls helpers that are not part of this model. Each one is given these rules:

- **`measure_speed(module, ...)`**: the `Runner` parameter. It returns the module's output table and elapsed seconds. The model assumes that a reranker module returns one row per row of its input; `run.py` does not check it.
- **`evaluate_retrieval_node(result, retrieval_gt, metrics)`**: the `Evaluator` parameter. Scoring keeps the rows.
- **`make_module_file_name(name, params)`**: `<name>=>` + `"-".join("<key>_<value>")` + `.parquet`.
- **`filter_by_threshold(results, values, threshold, metadatas)`**: keeps, in order, the results whose value is at most the threshold, with their metadata. It raises ValueError when none is kept.
- **`select_best_average(results, metrics, metadatas)`**:
  - Scores each result by the mean of its per-metric column means (0 when no metric was requested).
  - Picks the first result with the highest score.
  - Raises ValueError on an empty list.
- **`process_batch(tasks, batch)`**: runs the tasks one after another, in order. The first exception is raised.

## Model

| member | source | states |
|---|---|---|
| RetrievalEval.MetricFunc | autorag/evaluate/retrieval.py:25-29 | Exactly `recall`, `precision` and `f1` are registered, each under its own name |
| RetrievalEval.MetricRegistryRoundTrip | autorag/evaluate/retrieval.py:25-29 | Every metric is found under its name and under no other name |
| RetrievalEval.ComputeMetricScores | autorag/evaluate/retrieval.py:31-37 | KeyError for the first unregistered name (the warning does not skip it). Otherwise the keys are the distinct requested names in first-request order, and each maps to its metric applied to the same `retrieval_gt` and `pred_ids` |
| RetrievalEval.MetricColumns | autorag/evaluate/retrieval.py:39 | One column per dict key, in key order, holding that key's scores |
| RetrievalEval.ResultTable | autorag/evaluate/retrieval.py:39-46 | Succeeds iff the four output lists have one length and the metric lists have one length. Columns are `contents`, `scores`, `pred_ids`, `retrieval_gt`, then the metric columns. When lengths agree, the rows are aligned and each cell is the given value |
| RetrievalEval.EvaluateRetrieval | autorag/evaluate/retrieval.py:22-47 | Unregistered metric gives KeyError. Succeeds iff every metric is registered, the three returned lists and the ground truth have one length, and the metric score lists have one length. Column names are the four fixed ones plus the distinct metric names. With matching lengths, one row per ground-truth entry, the leading columns hold the returned contents, scores, ids and the ground truth, and each metric column holds that metric's scores of the predicted ids |
| RetrievalEval.ScoredTable | autorag/evaluate/retrieval.py:32-46 | With every requested metric scored, the result table exists exactly when the leading lists and the score lists each agree in length, and then holds the inputs followed by each metric's scores |
| FileStore.ReadParquet | autorag/nodes/passagereranker/run.py:24 | Reading succeeds iff the file exists and returns its table; FileNotFoundError otherwise |
| FileStore.Store.MakeDirs | autorag/nodes/passagereranker/run.py:21-22 | Adds the directory and leaves the files alone |
| FileStore.Store.WriteParquet | autorag/nodes/passagereranker/run.py:41 | The path now holds the table; everything else is unchanged |
| Frames.Lookup | autorag/nodes/passagereranker/run.py:24 | `df[name]` succeeds iff a column has that name; KeyError otherwise |
| Frames.SetColumn | autorag/nodes/passagereranker/run.py:61 | Assignment succeeds iff the list length is the row count (or the frame is empty). A new name is appended as the last column; an existing name keeps the column order |
| Frames.Concat | autorag/nodes/passagereranker/run.py:57 | Side-by-side concatenation: the first frame's names, then the second's. With equal row counts the columns are exactly both lists |
| Frames.Drop | autorag/nodes/passagereranker/run.py:58 | Succeeds iff every named column exists, otherwise KeyError for the first missing one. Keeps the rows and the unnamed columns in their order (`KeepColumns`) |
| Frames.KeepColumnsAppend | autorag/nodes/passagereranker/run.py:57-58 | Dropping from two frames side by side drops from each and keeps the left frame's columns before the right's |
| Frames.FromColumns | autorag/nodes/passagereranker/run.py:44-51 | `pd.DataFrame(dict)` succeeds iff all lists have one length, otherwise ValueError. Column i is the i-th key with its list |
| Frames.ColumnMean | autorag/nodes/passagereranker/run.py:49 | `df[m].mean()` succeeds iff the column exists and is numeric, and is then the arithmetic mean |
| PySeq.Zip | autorag/nodes/passagereranker/run.py:26-27 | Pairs positionally up to the shorter length |
| PySeq.Flatten | autorag/data/parse/clova_ocr.py:40-41 | Total length is the sum of the lengths; the first list comes first |
| PySeq.Dedup | autorag/evaluate/retrieval.py:31-37 | Dict keys are the distinct elements, each once, with no others |
| PySeq.MapResults | autorag/data/parse/clova_ocr.py:47-48 | In-order batch results: succeeds iff no task fails, with one result per task in order; otherwise the first failure's exception |
| PySeq.PyAt | autorag/nodes/passagereranker/jina.py:59-60 | `xs[i]` succeeds iff `-len <= i < len`, gives the element Python's index denotes, and otherwise raises IndexError |
| PyText.Strip | autorag/data/parse/clova_ocr.py:120 | The result has no outer whitespace and is the input with only whitespace removed at both ends |
| PyText.StripEmptyIffBlank | autorag/nodes/queryexpansion/base.py:55-57 | A string strips to "" iff it is all whitespace |
| PyText.NatToStringRoundTrip | autorag/data/parse/clova_ocr.py:161-164 | The decimal digits of a number read back as the number |
| PyText.NatToStringInjective | autorag/data/parse/clova_ocr.py:106 | Different numbers have different decimal renderings |
| PyText.LastSegment | autorag/data/parse/clova_ocr.py:95 | The segment after the last '/', which holds no '/' |
| PyText.BasenameOfJoin | autorag/nodes/passagereranker/run.py:39-42 | The basename of a joined path is the joined name |
| PyText.JoinPathDistinct | autorag/nodes/passagereranker/run.py:64-65 | Names starting differently join to different paths |
| PyText.SplitExtRootOfSuffix | autorag/nodes/passagereranker/run.py:65 | `splitext` removes exactly a final `.parquet`-style extension |
| RerankerRun.ModuleFilePaths | autorag/nodes/passagereranker/run.py:39-40 | One path per module, in module order: the save directory joined with the module's file name |
| RerankerRun.Basenames | autorag/nodes/passagereranker/run.py:42 | One basename per path, in order |
| RerankerRun.ReadRetrievalGt | autorag/nodes/passagereranker/run.py:23-24 | Succeeds iff `data/qa.parquet` two levels above the node line directory exists and has a `retrieval_gt` column |
| RerankerRun.AverageTimes | autorag/nodes/passagereranker/run.py:28 | ZeroDivisionError iff the first output has no rows. Otherwise each module's average times the first output's row count is its elapsed time |
| RerankerRun.EvaluateModules | autorag/nodes/passagereranker/run.py:23-33 | On success, modules are paired with parameters positionally (non-empty), the metrics were requested, and every scored result has the previous result's rows. The ground truth was read and every module ran; each result is the evaluator's scoring of that module's output against the ground truth with the requested metrics, and the averages are AverageTimes of the measured runs |
| RerankerRun.MetricMeans | autorag/nodes/passagereranker/run.py:49 | Succeeds iff every result has the metric as a numeric column, and gives each result's mean in order |
| RerankerRun.SummaryMetricColumns | autorag/nodes/passagereranker/run.py:49-50 | One `passage_reranker_<metric>` column per metric, each cell the corresponding module's mean of that metric |
| RerankerRun.SummaryDict | autorag/nodes/passagereranker/run.py:44-51 | The dict's first four entries are filename, module_name, module_params and execution_time, followed by the metric columns. Its lists have one length iff modules, params and filenames agree in length |
| RerankerRun.BuildSummary | autorag/nodes/passagereranker/run.py:44-51 | The summary has one row per module, all modules included. Its first four columns hold file names, module names, params and times. Then comes one `passage_reranker_<metric>` column per distinct metric, each cell that module's mean of that metric. No column is called `is_best` |
| RerankerRun.SummaryRejectsMismatch | autorag/nodes/passagereranker/run.py:44-51 | Module or parameter lists of another length than the outputs make the summary raise ValueError |
| RerankerRun.SummaryLayout | autorag/nodes/passagereranker/run.py:44-48 | A summary built from the dict has its four fixed columns first and the metric columns after |
| RerankerRun.Kept | autorag/nodes/passagereranker/run.py:55 | Increasing positions, each within the threshold, and every position within the threshold is listed |
| RerankerRun.FilterByThreshold | autorag/nodes/passagereranker/run.py:55 | Succeeds iff some value is within the threshold, otherwise ValueError. Keeps exactly those results with their metadata, in order |
| RerankerRun.FilterKeepsOnlyTheFast | autorag/nodes/passagereranker/run.py:55 | Every kept result is within the threshold and comes with its own file name |
| RerankerRun.FilterKeepsAllTheFast | autorag/nodes/passagereranker/run.py:55 | Every result within the threshold is kept with its own file name |
| RerankerRun.Candidates | autorag/nodes/passagereranker/run.py:54-55 | Without a threshold nothing is filtered. With one, it succeeds iff some module is within it, otherwise ValueError |
| RerankerRun.ArgMaxFirst | autorag/nodes/passagereranker/run.py:56 | The position of a maximum, with every earlier value strictly smaller |
| RerankerRun.TableMeans | autorag/nodes/passagereranker/run.py:56 | Each metric's column mean in one result, or the first failure |
| RerankerRun.Composite | autorag/nodes/passagereranker/run.py:56 | With metrics, a result's score is the mean of its metric means |
| RerankerRun.Composites | autorag/nodes/passagereranker/run.py:56 | Every result's score, in order |
| RerankerRun.SelectBestAverage | autorag/nodes/passagereranker/run.py:56 | ValueError on no results. Otherwise the result with the first highest score, together with its own file name |
| RerankerRun.SelectionIsFirstBestEligible | autorag/nodes/passagereranker/run.py:54-56 | The winner is within the threshold. No module within the threshold scores higher, and every earlier one within the threshold scores strictly lower |
| RerankerRun.FilteredWinner | autorag/nodes/passagereranker/run.py:55-56 | With a threshold, the selected result and file name are those of one module among all, and that module is the first best within the threshold |
| RerankerRun.FirstBestAmongKept | autorag/nodes/passagereranker/run.py:55-56 | The first highest score among the kept modules belongs to the first best module within the threshold |
| RerankerRun.KeptRank | autorag/nodes/passagereranker/run.py:55 | A module within the threshold is kept, and filtering preserves the module order |
| RerankerRun.MergeBest | autorag/nodes/passagereranker/run.py:57-58 | Succeeds iff the three per-passage columns are present. Keeps the previous result's rows, and keeps exactly the previous and selected columns other than those three: the previous result's remaining columns in order, then the selected result's |
| RerankerRun.IsBestFlags | autorag/nodes/passagereranker/run.py:61 | True exactly on the rows whose file name is the selected one |
| RerankerRun.Conclude | autorag/nodes/passagereranker/run.py:44-61 | The concluded summary is the full summary with `is_best` set. The selected file name and best result come from selecting among the modules that pass the threshold and merging the winner onto the previous result |
| RerankerRun.ConcludedSummary | autorag/nodes/passagereranker/run.py:44-61 | The saved summary is every module's row (including filtered-out modules) with `is_best` appended as its last column |
| RerankerRun.NoIsBestColumn | autorag/nodes/passagereranker/run.py:44-61 | No summary column is called `is_best`: the four fixed names differ from it, and every metric column's name starts with `passage_reranker_`. So flagging adds a new last column |
| RerankerRun.ConcludedSelection | autorag/nodes/passagereranker/run.py:54-58 | Some module within the threshold is selected. It is the first with the highest score among those within the threshold, and the best result is the previous result merged with its output |
| RerankerRun.ExactlyOneBest | autorag/nodes/passagereranker/run.py:61 | With distinct file names, exactly one summary row is flagged best |
| RerankerRun.ApplyTwo | autorag/nodes/passagereranker/run.py:64-65 | Two writes in a row leave the second over the first |
| RerankerRun.LastTwoWrites | autorag/nodes/passagereranker/run.py:64-65 | After writing the summary and then the best result to different paths, both files hold what was written |
| RerankerRun.ApplyWritesAppend | autorag/nodes/passagereranker/run.py:41 | Writing one batch and then another equals writing them together |
| RerankerRun.SaveModuleResults | autorag/nodes/passagereranker/run.py:41 | Every scored result is written at its module's path, in module order |
| RerankerRun.ConcludeAndSave | autorag/nodes/passagereranker/run.py:54-66 | Returns the best result or the first exception. On success it writes the summary and then the best result, and nothing else |
| RerankerRun.SaveAndConclude | autorag/nodes/passagereranker/run.py:39-66 | Writes every module's result, in module order, then the summary and the best result. Returns the best result or the first exception |
| RerankerRun.RunPassageRerankerNode | autorag/nodes/passagereranker/run.py:15-66 | Returns what `NodeRun` returns, performs its file writes in order, and creates exactly its directories (node line and save directory, when absent) |
| RerankerRun.FileNameWithoutParams | autorag/nodes/passagereranker/run.py:39 | A module without parameters is saved as `<name>=>.parquet` |
| RerankerRun.FileNameParts | autorag/nodes/passagereranker/run.py:39-65 | A module file name has no '/', and removing its extension gives `<name>=>` followed by the parameter text |
| RerankerRun.BestFileBasename | autorag/nodes/passagereranker/run.py:65 | The best file's basename is `best_<stem>.parquet` |
| RerankerRun.ModuleFileNaming | autorag/nodes/passagereranker/run.py:39-65 | The summary lists each module's own file name, and the best file is `best_` + the winner's file stem + `.parquet` |
| RerankerRun.ErrorOrder | autorag/nodes/passagereranker/run.py:21-33 | Failure order: 1. a missing QA file or `retrieval_gt` column; 2. no modules (ValueError); 3. the first module that raises; 4. a previous result without rows (ZeroDivisionError when averaging the times); 5. no metrics in the strategies (ValueError). Every module runs before the metrics are checked |
| RerankerRun.ConcludedRunOutcome | autorag/nodes/passagereranker/run.py:41-66 | A concluded run returns the best result and writes every module's result, then the summary, then the best result |
| RerankerRun.BestKeepsRows | autorag/nodes/passagereranker/run.py:57-58 | The best result has one row per row of the previous result |
| RerankerRun.SuccessfulRunSaves | autorag/nodes/passagereranker/run.py:63-66 | After a successful run, `summary.parquet` holds the flagged summary and the best file holds the returned best result |
| ClovaTable.MaxRow | autorag/data/parse/clova_ocr.py:127 | The row count is the largest `rowIndex + rowSpan`: it bounds every cell and is reached by one |
| ClovaTable.MaxCol | autorag/data/parse/clova_ocr.py:128 | The column count is the largest `columnIndex + columnSpan` |
| ClovaTable.InitGrid | autorag/data/parse/clova_ocr.py:130 | The grid has that many rows, each of that many untouched positions |
| ClovaTable.Write | autorag/data/parse/clova_ocr.py:145-150 | `table[r][c] = s` succeeds iff both Python indices are in range and changes exactly that position; IndexError otherwise |
| ClovaTable.TableHtml | autorag/data/parse/clova_ocr.py:123-169 | ValueError for no cells. Otherwise it succeeds iff every write is in range, and only IndexError can fail it. The output always starts with `<table border="1">\n` and ends with `</table>` |
| ClovaTable.PlaceCellsErrors | autorag/data/parse/clova_ocr.py:132-150 | Placing the cells can only fail with IndexError |
| ClovaTable.CoverFromErrors | autorag/data/parse/clova_ocr.py:147-150 | The marking loops can only fail with IndexError |
| ClovaTable.LastCover | autorag/data/parse/clova_ocr.py:132-150 | The last cell whose span holds a position: no later cell's span holds it |
| ClovaTable.CoverFromEffect | autorag/data/parse/clova_ocr.py:147-150 | For an in-bounds cell, the marking loops never fail and cover every span position they still have to visit, except the origin |
| ClovaTable.PlaceCellEffect | autorag/data/parse/clova_ocr.py:133-150 | Placing an in-bounds cell puts it at its origin, covers the rest of its span and changes nothing else |
| ClovaTable.LaterCellsWin | autorag/data/parse/clova_ocr.py:132-150 | Later writes win. Each position holds the footprint of the last cell whose span holds it, or stays untouched if no span holds it |
| ClovaTable.InBoundsCellsNeverFail | autorag/data/parse/clova_ocr.py:127-150 | Cells with non-negative indices and positive spans never raise: the grid is sized to hold every span |
| ClovaTable.SpanAttrReadsBack | autorag/data/parse/clova_ocr.py:160-165 | A `rowspan`/`colspan` attribute appears iff the span exceeds 1, and its quoted digits read back as the span |
| ClovaTable.WriteSlot | autorag/data/parse/clova_ocr.py:145-150 | The array write does what `Write` specifies, or raises the same IndexError |
| ClovaTable.CoverSpan | autorag/data/parse/clova_ocr.py:147-150 | The nested marking loops on the array do what the span-marking specification does |
| ClovaTable.LayCell | autorag/data/parse/clova_ocr.py:133-150 | One cell-loop iteration places the cell as specified |
| ClovaTable.LayCells | autorag/data/parse/clova_ocr.py:132-150 | The cell loop places every cell in list order as specified, stopping at the first IndexError |
| ClovaTable.RenderRow | autorag/data/parse/clova_ocr.py:154-166 | For one array row: a covered position emits nothing, an untouched one emits `<td></td>`, and an origin emits its text with spans above 1 |
| ClovaTable.RowsHtmlSnoc | autorag/data/parse/clova_ocr.py:152-167 | Emitting one more row appends exactly that row's `<tr>` element |
| ClovaTable.RenderTable | autorag/data/parse/clova_ocr.py:152-168 | The header, one `<tr>` element per grid row in order, then `</table>` |
| ClovaTable.JsonToHtmlTable | autorag/data/parse/clova_ocr.py:123-169 | The imperative serialiser returns exactly `TableHtml(cells)` |
| ClovaOcr.Setting | autorag/data/parse/clova_ocr.py:23-30 | A given value overrides the environment variable, which is used only when no value is given |
| ClovaOcr.Credentials | autorag/data/parse/clova_ocr.py:23-35 | Succeeds iff both URL and key resolve. A missing URL is reported (KeyError) before a missing key |
| ClovaOcr.ExplicitCredentialsWin | autorag/data/parse/clova_ocr.py:23-35 | A given URL and key are used whatever the environment holds |
| ClovaOcr.PageNames | autorag/data/parse/clova_ocr.py:106 | One name per page, `<pdf>_<k>.png` for page k counted from 1 |
| ClovaOcr.PdfToImages | autorag/data/parse/clova_ocr.py:93-109 | The images in page order, and the names of the pages after the path's last '/'-segment |
| ClovaOcr.PageNamesDistinct | autorag/data/parse/clova_ocr.py:106 | Different pages of one PDF get different names |
| ClovaOcr.PageNameIsBasename | autorag/data/parse/clova_ocr.py:95-106 | A page name contains no '/' |
| ClovaOcr.ExtractTextFromFields | autorag/data/parse/clova_ocr.py:112-120 | The stripped concatenation of each field's text and its separator; "" for no fields |
| ClovaOcr.FieldsTextIsChain | autorag/data/parse/clova_ocr.py:113-119 | The accumulated text is each field's text followed by "\n" (line break) or " ", one after another |
| ClovaOcr.FlattenAppend | autorag/data/parse/clova_ocr.py:113-119 | Appending one more piece extends the concatenation by it |
| ClovaOcr.SingleFieldText | autorag/data/parse/clova_ocr.py:112-120 | One field without outer whitespace reads back as its own text |
| ClovaOcr.ReadResponse | autorag/data/parse/clova_ocr.py:77-90 | An answer without `images` raises RuntimeError with its `detail`, or KeyError if it has none. A successful read returns the image name unchanged |
| ClovaOcr.TableAlwaysAppended | autorag/data/parse/clova_ocr.py:83-87 | Every page read successfully is its stripped text, the `table html` marker and the first table's HTML: the suffix is never skipped |
| ClovaOcr.ClovaOcrPure | autorag/data/parse/clova_ocr.py:54-90 | Each OCR call returns the name of the image it was given |
| ClovaOcr.ClovaOcrParse | autorag/data/parse/clova_ocr.py:15-51 | Credential errors come first. On success there are as many texts as names, and at least one |
| ClovaOcr.ParseKeepsPageOrder | autorag/data/parse/clova_ocr.py:37-51 | One text per page of every file, in file order then page order. Each text is under its own page name and is the service's reading of that page's image |
| QueryExpansion.CheckOne | autorag/nodes/queryexpansion/base.py:55-58 | A blank expansion becomes the query as given; any other becomes its non-empty stripped form |
| QueryExpansion.CheckExpandedQuery | autorag/nodes/queryexpansion/base.py:53-59 | Same length as the expansions, each cleaned in place |
| QueryExpansion.CheckExpandedQueries | autorag/nodes/queryexpansion/base.py:41-50 | Each query is paired positionally with its expansion list; the tail of the longer list is dropped |
| QueryExpansion.CheckedBlankOnlyFromQuery | autorag/nodes/queryexpansion/base.py:53-59 | A cleaned expansion is blank only if the expansion and the query were both blank |
| QueryExpansion.CheckOneIdempotent | autorag/nodes/queryexpansion/base.py:55-58 | Cleaning twice gives the same as cleaning once, for a query that is stripped or blank |
| QueryExpansion.CheckExpandedQueryIdempotent | autorag/nodes/queryexpansion/base.py:53-59 | Cleaning a list twice gives the same as once, under the same condition |
| QueryExpansion.PyDict.Pop | autorag/nodes/queryexpansion/base.py:69 | `d.pop(key)` returns the value and removes the key, or raises KeyError leaving the dict unchanged |
| QueryExpansion.PyDict.PopOr | autorag/nodes/queryexpansion/base.py:34 | `d.pop(key, default)` returns the value or the default; the key is absent afterwards |
| QueryExpansion.GeneratorParams | autorag/nodes/queryexpansion/base.py:62-72 | The params never hold `generator_module_type`. With it, every other key is kept unchanged. Without it, the caller's keys are dropped for the `llama_index_llm` / `openai` / `gpt-4o-mini` default |
| QueryExpansion.MakeGeneratorCallableParam | autorag/nodes/queryexpansion/base.py:62-72 | With the key present, it is popped from the caller's own dict, which becomes the params. Without it, a fresh default dict is used and the caller's dict is untouched |
| QueryExpansion.CastToRun | autorag/nodes/queryexpansion/base.py:24-38 | AssertionError without a `query` column. Otherwise: the queries in row order; `prompt`, defaulting to ""; and the generator settings from the other arguments |
| QueryExpansion.RunArgsKeepOtherArguments | autorag/nodes/queryexpansion/base.py:34-71 | The generator params never carry `prompt` or the module type, and keep every other argument |
| JinaReranker.ApiKey | autorag/nodes/passagereranker/jina.py:20-24 | The given key wins, then `JINAAI_API_KEY`; ValueError when neither exists |
| JinaReranker.Indices | autorag/nodes/passagereranker/jina.py:57 | Each ranking entry's index, in order |
| JinaReranker.Scores | autorag/nodes/passagereranker/jina.py:58 | Each ranking entry's relevance score, in order |
| JinaReranker.ReadRanking | autorag/nodes/passagereranker/jina.py:52-60 | Without `results` it raises RuntimeError (or KeyError without `detail`). Otherwise it succeeds iff every index is valid for both lists, else IndexError. The i-th content and id are those at entry i's index, the i-th score is the service's, and all three lists have one entry per ranking entry |
| JinaReranker.JinaRerankerPure | autorag/nodes/passagereranker/jina.py:37-63 | The three output lists have equal length |
| JinaReranker.RerankKeepsPairs | autorag/nodes/passagereranker/jina.py:56-60 | When ids and contents are paired, each output content comes with the id of the same passage, and its score is the service's |
| JinaReranker.InputScoresIgnored | autorag/nodes/passagereranker/jina.py:37-63 | The scores passed in have no effect on the result |
| JinaReranker.Tasks | autorag/nodes/passagereranker/jina.py:26-28 | One task per query, taken positionally from the four lists and stopping at the shortest |
| JinaReranker.JinaRerank | autorag/nodes/passagereranker/jina.py:14-34 | API key errors come first. On success there is at least one task, and the three lists have one entry per query in query order, each that query's reranking |
| JinaReranker.RerankedListsAligned | autorag/nodes/passagereranker/jina.py:30-34 | Each query's contents, ids and scores have one entry per entry of its ranking |

## Left out

- Network calls (aiohttp sessions, HTTP headers, closing sessions), base64 encoding, JSON serialisation, PDF rendering with fitz, environment reads and parquet encoding are outside the model.
  - The services are function parameters from a request to a decoded answer.
  - The renderer is a function from a path to page images.
  - The environment is a map.
  - Files are a map from paths to tables.
  - A request carries the image's bytes where the source sends their base64 text.
- Concurrency: `process_batch` and the event loop are modelled as in-order sequential execution, and the `batch` size is dropped. Bounded concurrency only affects timing, and `autorag/utils/util.py` is not part of this model.
- `measure_speed`, `evaluate_retrieval_node`, `make_module_file_name`, `filter_by_threshold` and `select_best_average` are not part of this model; they get the rules listed above. The metric implementations (`retrieval_recall` and the rest) are a parameter.
- RerankerRun.EvaluateModules: requires every module to return one row per row of the previous result, and scoring to keep rows. A reranker module returns one row per row of its input, and `run.py` does not check it; the assumption is what makes the metric means well defined.
- RerankerRun.BuildSummary: requires every module output to have rows. This follows from the module interface above once the first output has rows.
- Frames.ColumnMean: a column holding a missing value or a non-number raises TypeError here. pandas would skip NaN, and that floating-point behaviour is not modelled.
- Times and scores are `real`s, not IEEE floats.
- `validate_qa_dataset` and `get_support_modules` are not part of this model.
  - `CastToRun` does not run the QA-dataset validation.
  - `CastToRun` returns the generator module type as given, not the callable it names.
- `pathlib.PurePath(...).parent` is modelled textually (the part before the last '/'). Path normalisation of `.`/`..` segments and repeated slashes is not modelled.
- Frames.Lookup: of several columns with one name, the first is returned. pandas would return all of them as a frame.
- `tests/autorag/nodes/passagereranker/test_passage_reranker_run.py` expects different column names from those `run.py` writes. The model follows `run.py`.
- Missing keys in the cell and field objects of an OCR answer (`rowIndex`, `inferText`, …) are not modelled: a cell or field always has all of its keys. Missing top-level keys (`images`, `tables`, `cells`, `fields`, `detail`, `results`) are modelled.
- Python `bool`/`int` mixing is out: spans and indices are integers and `lineBreak` is a boolean.
- Logging and the unsupported-metric warning are not modelled. The KeyError that follows the warning is.
- Three behaviours of `run.py` that a reader might expect otherwise, followed as written:
  - The summary lists every module, including those the speed threshold filters out.
  - Every module's scored result is written before filtering.
  - An unregistered metric fails when it is looked up, not before any module runs.
