/** The shared part of the query-expansion modules: reading the queries and the
    generator settings out of a module's arguments, and cleaning the expanded
    queries a module produced. */
module QueryExpansion {
  import opened Wrappers
  import opened Frames
  import opened PySeq
  import opened PyText

  // ---------------------------------------------------------------- expanded queries

  /** One expansion, stripped, or the original query when nothing is left. */
  function CheckOne(query: string, expansion: string): (r: string)
    ensures IsBlank(expansion) ==> r == query
    ensures !IsBlank(expansion) ==> r == Strip(expansion) && r != ""
  {
    var stripped := Strip(expansion);
    StripEmptyIffBlank(expansion);
    if stripped != "" then stripped else query
  }

  /** `check_expanded_query(query, expanded)`: every expansion with its outer whitespace
      stripped, and a blank one replaced by the original query as given. */
  function CheckExpandedQuery(query: string, expanded: seq<string>): (r: seq<string>)
    ensures |r| == |expanded|
    ensures forall i :: 0 <= i < |r| ==> r[i] == CheckOne(query, expanded[i])
  {
    seq(|expanded|, i requires 0 <= i < |expanded| => CheckOne(query, expanded[i]))
  }

  /** `_check_expanded_query(queries, expanded_queries)`: each query with its own list of
      expansions, positionally; the tail of the longer list is dropped. */
  function CheckExpandedQueries(queries: seq<string>, expanded: seq<seq<string>>): (r: seq<seq<string>>)
    ensures |r| == Min(|queries|, |expanded|)
    ensures forall i :: 0 <= i < |r| ==> r[i] == CheckExpandedQuery(queries[i], expanded[i])
  {
    var pairs := Zip(queries, expanded);
    seq(|pairs|, i requires 0 <= i < |pairs| => CheckExpandedQuery(pairs[i].0, pairs[i].1))
  }

  /** An expansion comes out blank only where it was blank and the query itself is blank. */
  lemma CheckedBlankOnlyFromQuery(query: string, expanded: seq<string>, i: nat)
    requires i < |expanded|
    requires IsBlank(CheckExpandedQuery(query, expanded)[i])
    ensures IsBlank(expanded[i]) && IsBlank(query)
  {
    if !IsBlank(expanded[i]) {
      StripEmptyIffBlank(Strip(expanded[i]));
    }
  }

  /** Cleaning twice changes nothing more, when the query has no outer whitespace or is blank. */
  lemma CheckOneIdempotent(query: string, expansion: string)
    requires Strip(query) == query || IsBlank(query)
    ensures CheckOne(query, CheckOne(query, expansion)) == CheckOne(query, expansion)
  {
    if IsBlank(expansion) {
      assert CheckOne(query, expansion) == query;
      if !IsBlank(query) {
        assert CheckOne(query, query) == Strip(query);
      }
    } else {
      var s := Strip(expansion);
      assert CheckOne(query, expansion) == s && s != [];
      StripUnchanged(s);
      StripEmptyIffBlank(s);
      assert !IsBlank(s);
      assert CheckOne(query, s) == Strip(s);
    }
  }

  lemma CheckExpandedQueryIdempotent(query: string, expanded: seq<string>)
    requires Strip(query) == query || IsBlank(query)
    ensures CheckExpandedQuery(query, CheckExpandedQuery(query, expanded)) == CheckExpandedQuery(query, expanded)
  {
    var once := CheckExpandedQuery(query, expanded);
    forall i | 0 <= i < |once|
      ensures CheckOne(query, once[i]) == once[i]
    {
      CheckOneIdempotent(query, expanded[i]);
    }
  }

  // ---------------------------------------------------------------- module arguments

  /** A Python dict of keyword arguments, updated in place. */
  class PyDict {
    var entries: map<string, Value>

    constructor (entries: map<string, Value>)
      ensures this.entries == entries
    {
      this.entries := entries;
    }

    /** `d.pop(key)`: KeyError when the key is missing. */
    method Pop(key: string) returns (r: Result<Value>)
      modifies this
      ensures key in old(entries) ==> r == Ok(old(entries)[key]) && entries == old(entries) - {key}
      ensures key !in old(entries) ==> r == Err(KeyError(key)) && entries == old(entries)
    {
      if key !in entries {
        return Err(KeyError(key));
      }
      r := Ok(entries[key]);
      entries := entries - {key};
    }

    /** `d.pop(key, default)`. */
    method PopOr(key: string, default: Value) returns (v: Value)
      modifies this
      ensures v == if key in old(entries) then old(entries)[key] else default
      ensures entries == old(entries) - {key}
    {
      if key in entries {
        v := entries[key];
      } else {
        v := default;
      }
      entries := entries - {key};
    }
  }

  const GeneratorKey: string := "generator_module_type"

  /** The generator settings used when none are given. */
  const DefaultGenerator: map<string, Value> :=
    map[GeneratorKey := Str("llama_index_llm"), "llm" := Str("openai"), "model" := Str("gpt-4o-mini")]

  /** The generator module type and its parameters, read from keyword arguments: without a
      module type every given argument is discarded for the defaults; the parameters are the
      arguments without the module type. */
  function GeneratorParams(d: map<string, Value>): (r: (Value, map<string, Value>))
    ensures GeneratorKey !in r.1
    ensures GeneratorKey in d ==> r.0 == d[GeneratorKey]
                                  && forall k :: k != GeneratorKey ==> (k in r.1 <==> k in d) && (k in d ==> r.1[k] == d[k])
    ensures GeneratorKey !in d ==> r.0 == Str("llama_index_llm")
                                   && r.1 == map["llm" := Str("openai"), "model" := Str("gpt-4o-mini")]
  {
    var g := if GeneratorKey in d then d else DefaultGenerator;
    assert g == DefaultGenerator ==> g - {GeneratorKey} == map["llm" := Str("openai"), "model" := Str("gpt-4o-mini")];
    (g[GeneratorKey], g - {GeneratorKey})
  }

  /** `make_generator_callable_param(d)`: pops the module type from the caller's dict, which
      then serves as the parameters; without a module type a fresh default dict does and the
      caller's dict is left alone. */
  method MakeGeneratorCallableParam(d: PyDict) returns (moduleType: Value, params: PyDict)
    modifies d
    ensures (moduleType, params.entries) == GeneratorParams(old(d.entries))
    ensures GeneratorKey in old(d.entries) ==> params == d
    ensures GeneratorKey !in old(d.entries) ==> fresh(params) && d.entries == old(d.entries)
  {
    var g := d;
    if GeneratorKey !in d.entries {
      g := new PyDict(DefaultGenerator);
    }
    var popped := g.Pop(GeneratorKey);
    moduleType := popped.value;
    params := g;
  }

  /** What `cast_to_run` hands to a module: the queries, the prompt, the generator module type
      and its parameters. */
  datatype RunArgs = RunArgs(queries: seq<Value>, prompt: Value, generatorType: Value, generatorParams: map<string, Value>)

  const NoQueryColumn: string := "previous_result must have query column."

  /** `cast_to_run(previous_result, **kwargs)`: AssertionError without a `query` column;
      otherwise the queries in row order, the `prompt` argument (default ""), and the generator
      settings read from the remaining arguments. */
  method CastToRun(previous: Table, kwargs: map<string, Value>) returns (r: Result<RunArgs>)
    ensures "query" !in Names(previous.columns) ==> r == Err(AssertionError(NoQueryColumn))
    ensures "query" in Names(previous.columns) ==> r.Ok?
    ensures r.Ok? ==> r.value.queries == Lookup(previous, "query").value.cells
                      && |r.value.queries| == previous.rows
    ensures r.Ok? ==> r.value.prompt == if "prompt" in kwargs then kwargs["prompt"] else Str("")
    ensures r.Ok? ==> (r.value.generatorType, r.value.generatorParams) == GeneratorParams(kwargs - {"prompt"})
  {
    var column := Lookup(previous, "query");
    if column.Err? {
      return Err(AssertionError(NoQueryColumn));
    }
    var queries := column.value.cells;
    var args := new PyDict(kwargs);
    var prompt := args.PopOr("prompt", Str(""));
    var generatorType, generatorParams := MakeGeneratorCallableParam(args);
    return Ok(RunArgs(queries, prompt, generatorType, generatorParams.entries));
  }

  /** The generator parameters never carry `prompt` or the module type, and keep every other
      argument unchanged when a module type is given. */
  lemma RunArgsKeepOtherArguments(kwargs: map<string, Value>, k: string)
    requires GeneratorKey in kwargs && k != GeneratorKey && k != "prompt"
    ensures var p := GeneratorParams(kwargs - {"prompt"}).1;
            "prompt" !in p && GeneratorKey !in p && (k in p <==> k in kwargs) && (k in kwargs ==> p[k] == kwargs[k])
  {
  }
}
