/** `ma_logger/filters.py`: `OTelContextFilter`, which attaches an
    `otel_ctx` dict to every log record, built from environment variables,
    a static context and a context read from named environment variables.
    The environment is an explicit map from variable names to values. */
module Filters {
  import opened Wrappers
  import opened Values

  /** The filter's settings after `__init__`. `fallbackValue` is whatever
      the caller passed, so it is a value rather than a string. */
  datatype FilterConfig = FilterConfig(
    traceIdEnvVars: seq<string>,
    executionIdEnvVars: seq<string>,
    taskIdEnvVars: seq<string>,
    additionalContext: map<string, Value>,
    additionalEnvContext: map<string, string>,
    fallbackValue: Value)

  const DefaultTraceIdEnvVars: seq<string> := ["TRACING_ID", "CORRELATION_ID"]
  const DefaultExecutionIdEnvVars: seq<string> := ["KESTRA_EXECUTION_ID", "EXECUTION_ID"]
  const DefaultTaskIdEnvVars: seq<string> := ["KESTRA_TASK_ID", "TASK_ID"]
  const DefaultFallback: Value := Str("N/A")

  /** The three keys every `otel_ctx` starts with. */
  const TraceIdKey := "trace_id"
  const ExecutionIdKey := "execution_id"
  const TaskIdKey := "task_id"
  const IdKeys: set<string> := {TraceIdKey, ExecutionIdKey, TaskIdKey}

  /** Python's `x or default` for an optional list: a missing or empty list
      gives the default. */
  function ListOr(x: Option<seq<string>>, default: seq<string>): (r: seq<string>)
    ensures x.Some? && |x.value| > 0 ==> r == x.value
    ensures x.None? || |x.value| == 0 ==> r == default
  {
    if x.Some? && |x.value| > 0 then x.value else default
  }

  /** `OTelContextFilter(...)`. An omitted or empty argument takes its
      default; `additional_context or {}` is the given dict either way. */
  function NewFilter(traceIdEnvVars: Option<seq<string>>, executionIdEnvVars: Option<seq<string>>,
                     taskIdEnvVars: Option<seq<string>>, additionalContext: Option<map<string, Value>>,
                     additionalEnvContext: Option<map<string, string>>, fallbackValue: Value): (r: FilterConfig)
    ensures r.traceIdEnvVars == ListOr(traceIdEnvVars, DefaultTraceIdEnvVars)
    ensures r.executionIdEnvVars == ListOr(executionIdEnvVars, DefaultExecutionIdEnvVars)
    ensures r.taskIdEnvVars == ListOr(taskIdEnvVars, DefaultTaskIdEnvVars)
    ensures additionalContext.None? ==> r.additionalContext == map[]
    ensures additionalContext.Some? ==> r.additionalContext == additionalContext.value
    ensures additionalEnvContext.None? ==> r.additionalEnvContext == map[]
    ensures additionalEnvContext.Some? ==> r.additionalEnvContext == additionalEnvContext.value
    ensures r.fallbackValue == fallbackValue
  {
    FilterConfig(
      ListOr(traceIdEnvVars, DefaultTraceIdEnvVars),
      ListOr(executionIdEnvVars, DefaultExecutionIdEnvVars),
      ListOr(taskIdEnvVars, DefaultTaskIdEnvVars),
      additionalContext.GetOr(map[]),
      additionalEnvContext.GetOr(map[]),
      fallbackValue)
  }

  /** `x or default` cannot tell an empty argument from an omitted one: an
      empty variable list, static context or dynamic context configures the
      filter exactly as leaving it out does. */
  lemma EmptyArgumentsActAsOmitted(traceIdEnvVars: Option<seq<string>>, executionIdEnvVars: Option<seq<string>>,
                                   taskIdEnvVars: Option<seq<string>>, additionalContext: Option<map<string, Value>>,
                                   additionalEnvContext: Option<map<string, string>>, fallbackValue: Value)
    ensures NewFilter(Some([]), executionIdEnvVars, taskIdEnvVars, additionalContext, additionalEnvContext, fallbackValue)
            == NewFilter(None, executionIdEnvVars, taskIdEnvVars, additionalContext, additionalEnvContext, fallbackValue)
    ensures NewFilter(traceIdEnvVars, Some([]), taskIdEnvVars, additionalContext, additionalEnvContext, fallbackValue)
            == NewFilter(traceIdEnvVars, None, taskIdEnvVars, additionalContext, additionalEnvContext, fallbackValue)
    ensures NewFilter(traceIdEnvVars, executionIdEnvVars, Some([]), additionalContext, additionalEnvContext, fallbackValue)
            == NewFilter(traceIdEnvVars, executionIdEnvVars, None, additionalContext, additionalEnvContext, fallbackValue)
    ensures NewFilter(traceIdEnvVars, executionIdEnvVars, taskIdEnvVars, Some(map[]), additionalEnvContext, fallbackValue)
            == NewFilter(traceIdEnvVars, executionIdEnvVars, taskIdEnvVars, None, additionalEnvContext, fallbackValue)
    ensures NewFilter(traceIdEnvVars, executionIdEnvVars, taskIdEnvVars, additionalContext, Some(map[]), fallbackValue)
            == NewFilter(traceIdEnvVars, executionIdEnvVars, taskIdEnvVars, additionalContext, None, fallbackValue)
  {
  }

  /** A non-empty argument is kept as given, so two filters built from
      different non-empty variable lists differ. */
  lemma NonEmptyListsAreKept(traceIdEnvVars: seq<string>, other: seq<string>)
    requires |traceIdEnvVars| > 0 && |other| > 0 && traceIdEnvVars != other
    ensures NewFilter(Some(traceIdEnvVars), None, None, None, None, DefaultFallback)
            != NewFilter(Some(other), None, None, None, None, DefaultFallback)
  {
    assert NewFilter(Some(traceIdEnvVars), None, None, None, None, DefaultFallback).traceIdEnvVars == traceIdEnvVars;
  }

  /** The zero-configuration filter. */
  const DefaultFilter := NewFilter(None, None, None, None, None, DefaultFallback)

  /** `os.getenv(name)` is truthy: the variable exists and is non-empty. */
  predicate IsSet(env: map<string, string>, name: string) {
    name in env && env[name] != ""
  }

  /** `_get_env_value(names)`: the value of the first listed variable that is
      set and non-empty, else the fallback. */
  function GetEnvValue(env: map<string, string>, names: seq<string>, fallback: Value): (r: Value)
    ensures (forall i :: 0 <= i < |names| ==> !IsSet(env, names[i])) ==> r == fallback
    ensures forall i :: 0 <= i < |names| && IsSet(env, names[i]) && (forall j :: 0 <= j < i ==> !IsSet(env, names[j])) ==>
              r == Str(env[names[i]])
    ensures r == fallback || exists i :: 0 <= i < |names| && IsSet(env, names[i]) && r == Str(env[names[i]])
    decreases |names|
  {
    if |names| == 0 then fallback
    else if IsSet(env, names[0]) then Str(env[names[0]])
    else
      var r := GetEnvValue(env, names[1..], fallback);
      assert forall i :: 1 <= i < |names| ==> names[1..][i - 1] == names[i];
      r
  }

  /** The dynamic context: each key whose variable is set, with its value. */
  function EnvContext(cfg: FilterConfig, env: map<string, string>): (r: map<string, Value>)
    ensures forall k :: k in r <==> k in cfg.additionalEnvContext && IsSet(env, cfg.additionalEnvContext[k])
    ensures forall k :: k in r ==>
              k in cfg.additionalEnvContext && IsSet(env, cfg.additionalEnvContext[k])
              && r[k] == Str(env[cfg.additionalEnvContext[k]])
  {
    map k | k in cfg.additionalEnvContext && IsSet(env, cfg.additionalEnvContext[k])
      :: Str(env[cfg.additionalEnvContext[k]])
  }

  /** `filter(record)`: always keeps the record, and returns the `otel_ctx`
      it attaches: the three IDs, then `dict.update` with the static context,
      then each dynamic key whose variable is set. */
  function Filter(cfg: FilterConfig, env: map<string, string>): (r: (bool, map<string, Value>))
    ensures r.0
    ensures r.1.Keys == IdKeys + cfg.additionalContext.Keys + EnvContext(cfg, env).Keys
  {
    var base := map[
      TraceIdKey := GetEnvValue(env, cfg.traceIdEnvVars, cfg.fallbackValue),
      ExecutionIdKey := GetEnvValue(env, cfg.executionIdEnvVars, cfg.fallbackValue),
      TaskIdKey := GetEnvValue(env, cfg.taskIdEnvVars, cfg.fallbackValue)];
    (true, base + cfg.additionalContext + EnvContext(cfg, env))
  }

  /** The ID a key of `otel_ctx` starts with, if it is one of the three. */
  function BaseId(cfg: FilterConfig, env: map<string, string>, k: string): Option<Value> {
    if k == TraceIdKey then Some(GetEnvValue(env, cfg.traceIdEnvVars, cfg.fallbackValue))
    else if k == ExecutionIdKey then Some(GetEnvValue(env, cfg.executionIdEnvVars, cfg.fallbackValue))
    else if k == TaskIdKey then Some(GetEnvValue(env, cfg.taskIdEnvVars, cfg.fallbackValue))
    else None
  }

  /** The documented precedence, key by key: a set dynamic variable beats
      the static context, which beats the environment IDs. */
  function ContextValue(cfg: FilterConfig, env: map<string, string>, k: string): Option<Value> {
    if k in cfg.additionalEnvContext && IsSet(env, cfg.additionalEnvContext[k]) then
      Some(Str(env[cfg.additionalEnvContext[k]]))
    else if k in cfg.additionalContext then Some(cfg.additionalContext[k])
    else BaseId(cfg, env, k)
  }

  /** The context the filter attaches is exactly the precedence lookup. */
  lemma FilterFollowsPrecedence(cfg: FilterConfig, env: map<string, string>, k: string)
    ensures k in Filter(cfg, env).1 <==> ContextValue(cfg, env, k).Some?
    ensures k in Filter(cfg, env).1 ==> Filter(cfg, env).1[k] == ContextValue(cfg, env, k).value
  {
    var dynamic := EnvContext(cfg, env);
    if k !in dynamic && k !in cfg.additionalContext {
      assert k in Filter(cfg, env).1 <==> k in IdKeys;
    }
  }

  /** The variable list an ID is read from. */
  function IdEnvVars(cfg: FilterConfig, k: string): seq<string>
    requires k in IdKeys
  {
    if k == TraceIdKey then cfg.traceIdEnvVars
    else if k == ExecutionIdKey then cfg.executionIdEnvVars
    else cfg.taskIdEnvVars
  }

  /** With none of its variables set, each of the three IDs takes the
      fallback value (`"N/A"` unless configured), unless the static context
      or a set dynamic variable replaces it. */
  lemma UnsetIdTakesFallback(cfg: FilterConfig, env: map<string, string>, k: string)
    requires k in IdKeys
    requires forall i :: 0 <= i < |IdEnvVars(cfg, k)| ==> !IsSet(env, IdEnvVars(cfg, k)[i])
    requires k !in cfg.additionalContext
    requires !(k in cfg.additionalEnvContext && IsSet(env, cfg.additionalEnvContext[k]))
    ensures k in Filter(cfg, env).1 && Filter(cfg, env).1[k] == cfg.fallbackValue
  {
    var names := IdEnvVars(cfg, k);
    assert BaseId(cfg, env, k) == Some(GetEnvValue(env, names, cfg.fallbackValue));
    assert GetEnvValue(env, names, cfg.fallbackValue) == cfg.fallbackValue;
    FilterFollowsPrecedence(cfg, env, k);
  }

  /** The first listed variable that is set wins: with the defaults,
      `TRACING_ID` beats `CORRELATION_ID`, which is used only when
      `TRACING_ID` is missing or empty. */
  lemma FirstListedVariableWins(env: map<string, string>)
    ensures IsSet(env, "TRACING_ID") ==> Filter(DefaultFilter, env).1[TraceIdKey] == Str(env["TRACING_ID"])
    ensures !IsSet(env, "TRACING_ID") && IsSet(env, "CORRELATION_ID") ==>
              Filter(DefaultFilter, env).1[TraceIdKey] == Str(env["CORRELATION_ID"])
    ensures !IsSet(env, "TRACING_ID") && !IsSet(env, "CORRELATION_ID") ==>
              Filter(DefaultFilter, env).1[TraceIdKey] == Str("N/A")
  {
    var names := DefaultTraceIdEnvVars;
    assert names[0] == "TRACING_ID" && names[1] == "CORRELATION_ID";
    FilterFollowsPrecedence(DefaultFilter, env, TraceIdKey);
  }

  /** The zero-configuration context has exactly the three ID keys. */
  lemma DefaultContextKeys(env: map<string, string>)
    ensures Filter(DefaultFilter, env).1.Keys == IdKeys
  {
  }

  /** A static key overrides an ID of the same name, and a set dynamic
      variable overrides both. */
  lemma StaticThenDynamicOverride(cfg: FilterConfig, env: map<string, string>, k: string)
    requires k in cfg.additionalContext
    ensures !(k in cfg.additionalEnvContext && IsSet(env, cfg.additionalEnvContext[k])) ==>
              Filter(cfg, env).1[k] == cfg.additionalContext[k]
    ensures k in cfg.additionalEnvContext && IsSet(env, cfg.additionalEnvContext[k]) ==>
              Filter(cfg, env).1[k] == Str(env[cfg.additionalEnvContext[k]])
  {
    FilterFollowsPrecedence(cfg, env, k);
  }

  /** A dynamic key whose variable is missing or empty is left out: no
      fallback value is substituted for it. */
  lemma UnsetDynamicKeyIsAbsent(cfg: FilterConfig, env: map<string, string>, k: string)
    requires k in cfg.additionalEnvContext && !IsSet(env, cfg.additionalEnvContext[k])
    requires k !in cfg.additionalContext && k !in IdKeys
    ensures k !in Filter(cfg, env).1
  {
    FilterFollowsPrecedence(cfg, env, k);
  }

  /** The context holds only values `json.dumps` accepts when the fallback
      and the static values do: everything read from the environment is a
      string. */
  lemma EncodableContext(cfg: FilterConfig, env: map<string, string>)
    requires Encodable(cfg.fallbackValue)
    requires forall k :: k in cfg.additionalContext ==> Encodable(cfg.additionalContext[k])
    ensures forall k :: k in Filter(cfg, env).1 ==> Encodable(Filter(cfg, env).1[k])
  {
    var ctx := Filter(cfg, env).1;
    forall k | k in ctx
      ensures Encodable(ctx[k])
    {
      FilterFollowsPrecedence(cfg, env, k);
      ContextValueIsEncodable(cfg, env, k);
    }
  }

  /** Each precedence source yields a value `json.dumps` accepts. */
  lemma ContextValueIsEncodable(cfg: FilterConfig, env: map<string, string>, k: string)
    requires Encodable(cfg.fallbackValue)
    requires forall k :: k in cfg.additionalContext ==> Encodable(cfg.additionalContext[k])
    ensures ContextValue(cfg, env, k).Some? ==> Encodable(ContextValue(cfg, env, k).value)
  {
    var ids := [cfg.traceIdEnvVars, cfg.executionIdEnvVars, cfg.taskIdEnvVars];
    forall names | names in ids
      ensures Encodable(GetEnvValue(env, names, cfg.fallbackValue))
    {
      var v := GetEnvValue(env, names, cfg.fallbackValue);
      assert v == cfg.fallbackValue || v.Str?;
    }
  }
}
