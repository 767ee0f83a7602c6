/** The path of a trace event through the logging setup: the `trace`
    wrapper logs it, `OTelContextFilter` attaches `otel_ctx`, and
    `OTelJsonFormatter` renders it. The wrapper hands its details to the
    logger as `extra["trace_data"]`, while the formatter exports only a
    record's `data` attribute, so no trace event ever carries
    `attributes`. */
module Pipeline {
  import opened Wrappers
  import opened Values
  import opened Runtime
  import opened Decorators
  import opened Filters
  import opened Formatters

  /** The `LogRecord` `logging` builds for a trace event emitted at line
      `lineno`, after the filter has attached `ctx`. The `trace_data` extra
      becomes an attribute the formatter never reads, so `data` is absent;
      `exc_info=True` gives the traceback of the exception being handled. */
  function EventRecord(ev: Event, lineno: int, ctx: map<string, Value>): (r: LogRecord)
    ensures r.levelname == ev.level && r.message == ev.message && r.name == ev.channel
    ensures r.data.None?
    ensures r.excText.Some? <==> ev.excInfo.Some?
    ensures ev.excInfo.Some? ==> r.excText.value == ev.excInfo.value.traceback
  {
    LogRecord(ev.level, ev.message, ev.channel, lineno, Some(ctx),
              None, if ev.excInfo.Some? then Some(ev.excInfo.value.traceback) else None)
  }

  /** The JSON objects the handler writes for one traced call. */
  function TraceOutput(f: Callable, ignoreParams: Option<seq<string>>, host: Host,
                       callee: Callee,
                       args: seq<Value>, kwargs: map<string, Value>, start: nat, end: nat,
                       filter: FilterConfig, formatter: FormatterConfig,
                       env: map<string, string>, clock: Clock, lineno: int): (r: seq<map<string, Value>>)
    requires ValidCallable(f) && start <= end
    ensures |r| == |Trace(f, ignoreParams, host, callee, args, kwargs, start, end).1|
    ensures forall i :: 0 <= i < |r| ==> r[i] == Format(formatter,
              EventRecord(Trace(f, ignoreParams, host, callee, args, kwargs, start, end).1[i], lineno, Filter(filter, env).1),
              env, clock)
  {
    var events := Trace(f, ignoreParams, host, callee, args, kwargs, start, end).1;
    seq(|events|, i requires 0 <= i < |events| =>
      Format(formatter, EventRecord(events[i], lineno, Filter(filter, env).1), env, clock))
  }

  /** Neither context source defines `k` and no ID field is renamed to
      it. */
  predicate ContextAvoids(filter: FilterConfig, formatter: FormatterConfig, k: string) {
    && k !in filter.additionalContext && k !in filter.additionalEnvContext
    && k != formatter.traceIdField && k != formatter.executionIdField && k != formatter.taskIdField
  }

  /** The filter's context writes nothing to `k` in the formatter. */
  lemma AvoidedKeyIsLeft(filter: FilterConfig, formatter: FormatterConfig, env: map<string, string>,
                         ev: Event, lineno: int, k: string)
    requires ContextAvoids(filter, formatter, k) && k !in Filters.IdKeys
    ensures ContextLeaves(formatter, EventRecord(ev, lineno, Filter(filter, env).1), k)
  {
    FilterFollowsPrecedence(filter, env, k);
  }

  /** A traced call never produces `attributes`, whether it succeeds or
      fails: the parameters, duration and result stay out of the JSON
      output. */
  lemma TraceOutputHasNoAttributes(f: Callable, ignoreParams: Option<seq<string>>, host: Host,
                                   callee: Callee,
                                   args: seq<Value>, kwargs: map<string, Value>, start: nat, end: nat,
                                   filter: FilterConfig, formatter: FormatterConfig,
                                   env: map<string, string>, clock: Clock, lineno: int)
    requires ValidCallable(f) && start <= end
    requires ContextAvoids(filter, formatter, AttributesKey)
    ensures forall i :: 0 <= i < |TraceOutput(f, ignoreParams, host, callee, args, kwargs, start, end, filter, formatter, env, clock, lineno)| ==>
              AttributesKey !in TraceOutput(f, ignoreParams, host, callee, args, kwargs, start, end, filter, formatter, env, clock, lineno)[i]
  {
    var events := Trace(f, ignoreParams, host, callee, args, kwargs, start, end).1;
    forall i | 0 <= i < |events|
      ensures AttributesKey !in Format(formatter, EventRecord(events[i], lineno, Filter(filter, env).1), env, clock)
    {
      AvoidedKeyIsLeft(filter, formatter, env, events[i], lineno, AttributesKey);
      AttributesAndStacktraceFollowRecord(formatter, EventRecord(events[i], lineno, Filter(filter, env).1), env, clock);
    }
  }

  /** A call that raises an `Exception` produces one object, with the
      exception's traceback as `exception.stacktrace`; a call that returns
      produces one object without it; a `BaseException` produces none. */
  lemma TraceOutputStacktraceIffRaised(f: Callable, ignoreParams: Option<seq<string>>, host: Host,
                                       callee: Callee,
                                       args: seq<Value>, kwargs: map<string, Value>, start: nat, end: nat,
                                       filter: FilterConfig, formatter: FormatterConfig,
                                       env: map<string, string>, clock: Clock, lineno: int)
    requires ValidCallable(f) && start <= end
    requires ContextAvoids(filter, formatter, StacktraceKey)
    ensures var out := TraceOutput(f, ignoreParams, host, callee, args, kwargs, start, end, filter, formatter, env, clock, lineno);
            && (callee(args, kwargs).outcome.Fatal? <==> |out| == 0)
            && (!callee(args, kwargs).outcome.Fatal? ==> |out| == 1 && (StacktraceKey in out[0] <==> callee(args, kwargs).outcome.Raised?))
            && (callee(args, kwargs).outcome.Raised? ==> out[0][StacktraceKey] == Str(callee(args, kwargs).outcome.exc.traceback))
  {
    var events := Trace(f, ignoreParams, host, callee, args, kwargs, start, end).1;
    if |events| > 0 {
      var rec := EventRecord(events[0], lineno, Filter(filter, env).1);
      AvoidedKeyIsLeft(filter, formatter, env, events[0], lineno, StacktraceKey);
      AttributesAndStacktraceFollowRecord(formatter, rec, env, clock);
    }
  }

  /** The object's `message` names the resolved module, the qualified name
      and the result, as `trace complete: mod.f [success]` or
      `[error]`, unless the filter's context or an ID field name supplies
      `message`. */
  lemma TraceOutputMessage(f: Callable, ignoreParams: Option<seq<string>>, host: Host,
                           callee: Callee,
                           args: seq<Value>, kwargs: map<string, Value>, start: nat, end: nat,
                           filter: FilterConfig, formatter: FormatterConfig,
                           env: map<string, string>, clock: Clock, lineno: int)
    requires ValidCallable(f) && start <= end
    requires !callee(args, kwargs).outcome.Fatal?
    requires ContextAvoids(filter, formatter, MessageKey)
    ensures var out := TraceOutput(f, ignoreParams, host, callee, args, kwargs, start, end, filter, formatter, env, clock, lineno);
            out[0][MessageKey]
            == Str("trace complete: " + ResolveModuleName(f, host) + "." + f.qualname
                   + (if callee(args, kwargs).outcome.Raised? then " [error]" else " [success]"))
  {
    var events := Trace(f, ignoreParams, host, callee, args, kwargs, start, end).1;
    var rec := EventRecord(events[0], lineno, Filter(filter, env).1);
    AvoidedKeyIsLeft(filter, formatter, env, events[0], lineno, MessageKey);
    FormatIsLastWrite(formatter, rec, env, clock, MessageKey);
  }

  /** The default formatter on a record whose context holds exactly the
      three IDs and which has no `data`. */
  lemma DefaultIdRecordKeys(rec: LogRecord, env: map<string, string>, clock: Clock)
    requires rec.otelCtx.Some? && rec.otelCtx.value.Keys == CtxIds && rec.data.None?
    ensures Format(DefaultFormatter, rec, env, clock).Keys
            == {TimestampKey, LevelKey, MessageKey, ServiceNameKey, LoggerKey, LineKey,
                CtxTraceId, CtxExecutionId, CtxTaskId}
               + (if rec.excText.Some? then {StacktraceKey} else {})
  {
    var ctx := rec.otelCtx.value;
    FormatKeys(DefaultFormatter, rec, env, clock);
    assert ExtraContext(ctx).Keys == {};
    assert IdFields(DefaultFormatter, ctx) == {CtxTraceId, CtxExecutionId, CtxTaskId};
  }

  /** With the default filter and formatter, a traced call's object holds
      the base and optional fields and the three IDs, plus the stack trace
      when the call raised. */
  lemma DefaultTraceOutputKeys(f: Callable, ignoreParams: Option<seq<string>>, host: Host,
                               callee: Callee,
                               args: seq<Value>, kwargs: map<string, Value>, start: nat, end: nat,
                               env: map<string, string>, clock: Clock, lineno: int)
    requires ValidCallable(f) && start <= end
    requires !callee(args, kwargs).outcome.Fatal?
    ensures var out := TraceOutput(f, ignoreParams, host, callee, args, kwargs, start, end,
                                   DefaultFilter, DefaultFormatter, env, clock, lineno);
            out[0].Keys == {TimestampKey, LevelKey, MessageKey, ServiceNameKey, LoggerKey, LineKey,
                            CtxTraceId, CtxExecutionId, CtxTaskId}
                           + (if callee(args, kwargs).outcome.Raised? then {StacktraceKey} else {})
  {
    var events := Trace(f, ignoreParams, host, callee, args, kwargs, start, end).1;
    var ctx := Filter(DefaultFilter, env).1;
    DefaultContextKeys(env);
    DefaultIdRecordKeys(EventRecord(events[0], lineno, ctx), env, clock);
  }

  /** With a fallback and static context that `json.dumps` accepts, every
      object of a traced call is written: the wrapper's own details never
      reach the formatter, so nothing opaque does. */
  lemma TraceOutputIsWritten(f: Callable, ignoreParams: Option<seq<string>>, host: Host,
                             callee: Callee,
                             args: seq<Value>, kwargs: map<string, Value>, start: nat, end: nat,
                             filter: FilterConfig, formatter: FormatterConfig,
                             env: map<string, string>, clock: Clock, lineno: int)
    requires ValidCallable(f) && start <= end
    requires Encodable(filter.fallbackValue)
    requires forall k :: k in filter.additionalContext ==> Encodable(filter.additionalContext[k])
    ensures var events := Trace(f, ignoreParams, host, callee, args, kwargs, start, end).1;
            forall i :: 0 <= i < |events| ==>
              FormatOutput(formatter, EventRecord(events[i], lineno, Filter(filter, env).1), env, clock).Some?
  {
    var events := Trace(f, ignoreParams, host, callee, args, kwargs, start, end).1;
    EncodableContext(filter, env);
    forall i | 0 <= i < |events|
      ensures FormatOutput(formatter, EventRecord(events[i], lineno, Filter(filter, env).1), env, clock).Some?
    {
      EncodableRecordIsWritten(formatter, EventRecord(events[i], lineno, Filter(filter, env).1), env, clock);
    }
  }
}
