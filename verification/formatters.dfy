/** `ma_logger/formatters.py`: `OTelJsonFormatter`, which turns a log
    record into a JSON object with OpenTelemetry field names. The object is
    modelled as the dict handed to `json.dumps`; later writes to a key
    replace earlier ones, as in the source. */
module Formatters {
  import opened Wrappers
  import opened Values

  /** The formatter's settings after `__init__`. */
  datatype FormatterConfig = FormatterConfig(
    traceIdField: string,
    executionIdField: string,
    taskIdField: string,
    timestampFormat: string,
    includeServiceName: bool,
    includeLoggerName: bool,
    includeLineNumber: bool)

  /** `OTelJsonFormatter()` with every argument left at its default. */
  const DefaultFormatter := FormatterConfig("trace_id", "execution_id", "task_id", "iso", true, true, true)

  /** The formatter with every optional field switched off. */
  const MinimalFormatter := DefaultFormatter.(includeServiceName := false, includeLoggerName := false,
                                              includeLineNumber := false)

  /** What `format` reads from a `logging.LogRecord`: the level name, the
      message `getMessage()` returns, the logger name, the line number, the
      `otel_ctx` attribute a filter may have set, the `data` attribute from
      `extra={"data": ...}`, and the text `formatException` renders when
      `exc_info` is set. */
  datatype LogRecord = LogRecord(
    levelname: string,
    message: string,
    name: string,
    lineno: int,
    otelCtx: Option<map<string, Value>>,
    data: Option<Value>,
    excText: Option<string>)

  /** One reading of `datetime.utcnow()`: its `isoformat()` text and its
      `timestamp()`. The reading is naive, so `timestamp()` takes the UTC
      wall time as local time: it is seconds since the epoch shifted by the
      host's UTC offset, and equals true epoch seconds only on a host whose
      local zone is UTC. The caller supplies both numbers. */
  datatype Clock = Clock(iso: string, unix: real)

  const TimestampKey := "timestamp"
  const LevelKey := "level"
  const MessageKey := "message"
  const ServiceNameKey := "service.name"
  const LoggerKey := "log.logger"
  const LineKey := "log.origin.file.line"
  const AttributesKey := "attributes"
  const StacktraceKey := "exception.stacktrace"

  /** The context keys the formatter maps to configurable field names. */
  const CtxTraceId := "trace_id"
  const CtxExecutionId := "execution_id"
  const CtxTaskId := "task_id"
  const CtxIds: set<string> := {CtxTraceId, CtxExecutionId, CtxTaskId}

  /** The variable read for `service.name`, and its default. */
  const ServiceNameVar := "SERVICE_NAME"
  const UnknownService := "unknown-service"

  /** `os.getenv("SERVICE_NAME", "unknown-service")`: the default applies
      only when the variable is missing, not when it is empty. */
  function ServiceName(env: map<string, string>): (r: string)
    ensures ServiceNameVar in env ==> r == env[ServiceNameVar]
    ensures ServiceNameVar !in env ==> r == UnknownService
  {
    if ServiceNameVar in env then env[ServiceNameVar] else UnknownService
  }

  /** The timestamp: the clock's `timestamp()` float for `"unix"`, and its
      ISO 8601 text with a `Z` suffix for any other format name. */
  function Timestamp(cfg: FormatterConfig, clock: Clock): (r: Value)
    ensures cfg.timestampFormat == "unix" ==> r == Float(clock.unix)
    ensures cfg.timestampFormat != "unix" ==>
              r.Str? && |r.s| == |clock.iso| + 1 && r.s[..|clock.iso|] == clock.iso && r.s[|clock.iso|] == 'Z'
  {
    if cfg.timestampFormat == "unix" then Float(clock.unix) else Str(clock.iso + "Z")
  }

  /** The context keys copied under their own names: all but the three IDs. */
  function ExtraContext(ctx: map<string, Value>): (r: map<string, Value>)
    ensures forall k :: k in r <==> k in ctx && k !in CtxIds
    ensures forall k :: k in r ==> k in ctx && r[k] == ctx[k]
  {
    map k | k in ctx && k !in CtxIds :: ctx[k]
  }

  /** The base and optional fields, before any context is added. */
  function Fields(cfg: FormatterConfig, rec: LogRecord, env: map<string, string>, clock: Clock): map<string, Value> {
    var base := map[TimestampKey := Timestamp(cfg, clock), LevelKey := Str(rec.levelname),
                    MessageKey := Str(rec.message)];
    var m1 := if cfg.includeServiceName then base[ServiceNameKey := Str(ServiceName(env))] else base;
    var m2 := if cfg.includeLoggerName then m1[LoggerKey := Str(rec.name)] else m1;
    if cfg.includeLineNumber then m2[LineKey := Int(rec.lineno)] else m2
  }

  /** The IDs written under their configured field names, in order
      trace, execution, task. */
  function WithIds(m: map<string, Value>, cfg: FormatterConfig, ctx: map<string, Value>): map<string, Value> {
    var m1 := if CtxTraceId in ctx then m[cfg.traceIdField := ctx[CtxTraceId]] else m;
    var m2 := if CtxExecutionId in ctx then m1[cfg.executionIdField := ctx[CtxExecutionId]] else m1;
    if CtxTaskId in ctx then m2[cfg.taskIdField := ctx[CtxTaskId]] else m2
  }

  /** `format(record)`, as the dict passed to `json.dumps`: the base fields,
      the switched-on optional fields, the context IDs under their field
      names, the other context keys, `attributes` and the stack trace, each
      write replacing any earlier value of its key. */
  function Format(cfg: FormatterConfig, rec: LogRecord, env: map<string, string>, clock: Clock): (r: map<string, Value>)
    ensures TimestampKey in r && LevelKey in r && MessageKey in r
    ensures rec.data.Some? ==> AttributesKey in r && r[AttributesKey] == rec.data.value
    ensures rec.excText.Some? ==> StacktraceKey in r && r[StacktraceKey] == Str(rec.excText.value)
  {
    var m4 := WithContext(Fields(cfg, rec, env, clock), cfg, rec.otelCtx);
    var m5 := if rec.data.Some? then m4[AttributesKey := rec.data.value] else m4;
    if rec.excText.Some? then m5[StacktraceKey := Str(rec.excText.value)] else m5
  }

  /** Every value of the object is one `json.dumps` accepts. */
  predicate AllEncodable(m: map<string, Value>) {
    forall k :: k in m ==> Encodable(m[k])
  }

  /** What `format(record)` hands on: the object, when `json.dumps` accepts
      it, or `None` when `json.dumps` raises `TypeError` on one of its
      values and no line is written. */
  function FormatOutput(cfg: FormatterConfig, rec: LogRecord, env: map<string, string>, clock: Clock): (r: Option<map<string, Value>>)
    ensures r.Some? ==> r.value == Format(cfg, rec, env, clock) && AllEncodable(r.value)
    ensures r.None? ==> exists k :: k in Format(cfg, rec, env, clock) && !Encodable(Format(cfg, rec, env, clock)[k])
  {
    var m := Format(cfg, rec, env, clock);
    if AllEncodable(m) then Some(m) else None
  }

  /** The `otel_ctx` step: the IDs under their field names, then every
      other context key under its own name. */
  function WithContext(m: map<string, Value>, cfg: FormatterConfig, otelCtx: Option<map<string, Value>>): map<string, Value> {
    match otelCtx
    case None => m
    case Some(ctx) => WithIds(m, cfg, ctx) + ExtraContext(ctx)
  }

  /** The last base or optional field written to `k`, reading the writes
      backwards. */
  function FieldWrite(cfg: FormatterConfig, rec: LogRecord, env: map<string, string>, clock: Clock, k: string): Option<Value> {
    if cfg.includeLineNumber && k == LineKey then Some(Int(rec.lineno))
    else if cfg.includeLoggerName && k == LoggerKey then Some(Str(rec.name))
    else if cfg.includeServiceName && k == ServiceNameKey then Some(Str(ServiceName(env)))
    else if k == MessageKey then Some(Str(rec.message))
    else if k == LevelKey then Some(Str(rec.levelname))
    else if k == TimestampKey then Some(Timestamp(cfg, clock))
    else None
  }

  /** The last ID written to field `k`, reading the writes backwards. */
  function IdWrite(cfg: FormatterConfig, ctx: map<string, Value>, k: string): Option<Value> {
    if CtxTaskId in ctx && k == cfg.taskIdField then Some(ctx[CtxTaskId])
    else if CtxExecutionId in ctx && k == cfg.executionIdField then Some(ctx[CtxExecutionId])
    else if CtxTraceId in ctx && k == cfg.traceIdField then Some(ctx[CtxTraceId])
    else None
  }

  /** The value the last write to `k` leaves: an independent, key-by-key
      description of `format`. */
  function LastWrite(cfg: FormatterConfig, rec: LogRecord, env: map<string, string>, clock: Clock, k: string): Option<Value> {
    var ctx := rec.otelCtx.GetOr(map[]);
    if rec.excText.Some? && k == StacktraceKey then Some(Str(rec.excText.value))
    else if rec.data.Some? && k == AttributesKey then Some(rec.data.value)
    else if k in ctx && k !in CtxIds then Some(ctx[k])
    else if IdWrite(cfg, ctx, k).Some? then IdWrite(cfg, ctx, k)
    else FieldWrite(cfg, rec, env, clock, k)
  }

  /** The base and optional fields are the backwards lookup. */
  lemma FieldsAreLastWrite(cfg: FormatterConfig, rec: LogRecord, env: map<string, string>, clock: Clock, k: string)
    ensures k in Fields(cfg, rec, env, clock) <==> FieldWrite(cfg, rec, env, clock, k).Some?
    ensures k in Fields(cfg, rec, env, clock) ==> Fields(cfg, rec, env, clock)[k] == FieldWrite(cfg, rec, env, clock, k).value
  {
  }

  /** Writing the IDs is the backwards lookup over the ID fields. */
  lemma WithIdsIsLastWrite(m: map<string, Value>, cfg: FormatterConfig, ctx: map<string, Value>, k: string)
    ensures k in WithIds(m, cfg, ctx) <==> k in m || IdWrite(cfg, ctx, k).Some?
    ensures IdWrite(cfg, ctx, k).Some? ==> WithIds(m, cfg, ctx)[k] == IdWrite(cfg, ctx, k).value
    ensures k in m && IdWrite(cfg, ctx, k).None? ==> WithIds(m, cfg, ctx)[k] == m[k]
  {
  }

  /** The context step is the backwards lookup over the context writes. */
  lemma WithContextIsLastWrite(m: map<string, Value>, cfg: FormatterConfig, otelCtx: Option<map<string, Value>>, k: string)
    ensures var ctx := otelCtx.GetOr(map[]);
            var w := if k in ctx && k !in CtxIds then Some(ctx[k]) else IdWrite(cfg, ctx, k);
            && (k in WithContext(m, cfg, otelCtx) <==> k in m || w.Some?)
            && (w.Some? ==> WithContext(m, cfg, otelCtx)[k] == w.value)
            && (k in m && w.None? ==> WithContext(m, cfg, otelCtx)[k] == m[k])
  {
    if otelCtx.Some? {
      WithIdsIsLastWrite(m, cfg, otelCtx.value, k);
    }
  }

  /** The formatted object holds exactly the keys some write reaches, each
      with the value of the last write to it. */
  lemma FormatIsLastWrite(cfg: FormatterConfig, rec: LogRecord, env: map<string, string>, clock: Clock, k: string)
    ensures k in Format(cfg, rec, env, clock) <==> LastWrite(cfg, rec, env, clock, k).Some?
    ensures k in Format(cfg, rec, env, clock) ==> Format(cfg, rec, env, clock)[k] == LastWrite(cfg, rec, env, clock, k).value
  {
    if !(rec.excText.Some? && k == StacktraceKey) && !(rec.data.Some? && k == AttributesKey) {
      FieldsAreLastWrite(cfg, rec, env, clock, k);
      WithContextIsLastWrite(Fields(cfg, rec, env, clock), cfg, rec.otelCtx, k);
    }
  }

  /** The field names the context IDs land on. */
  function IdFields(cfg: FormatterConfig, ctx: map<string, Value>): (r: set<string>)
    ensures forall k :: k in r <==> IdWrite(cfg, ctx, k).Some?
  {
    (if CtxTraceId in ctx then {cfg.traceIdField} else {})
    + (if CtxExecutionId in ctx then {cfg.executionIdField} else {})
    + (if CtxTaskId in ctx then {cfg.taskIdField} else {})
  }

  /** The keys some write reaches: the three base fields, the optional
      fields switched on, the ID fields for the IDs present, the other
      context keys, `attributes` when there is data and the stack trace when
      there is an exception. */
  function WrittenKeys(cfg: FormatterConfig, rec: LogRecord): set<string> {
    var ctx := rec.otelCtx.GetOr(map[]);
    FieldKeys(cfg) + IdFields(cfg, ctx) + ExtraContext(ctx).Keys
    + (if rec.data.Some? then {AttributesKey} else {})
    + (if rec.excText.Some? then {StacktraceKey} else {})
  }

  /** The base fields and the optional fields switched on. */
  function FieldKeys(cfg: FormatterConfig): set<string> {
    {TimestampKey, LevelKey, MessageKey}
    + (if cfg.includeServiceName then {ServiceNameKey} else {})
    + (if cfg.includeLoggerName then {LoggerKey} else {})
    + (if cfg.includeLineNumber then {LineKey} else {})
  }

  lemma FieldWriteReachesFieldKeys(cfg: FormatterConfig, rec: LogRecord, env: map<string, string>, clock: Clock, k: string)
    ensures FieldWrite(cfg, rec, env, clock, k).Some? <==> k in FieldKeys(cfg)
  {
  }

  lemma LastWriteReachesWrittenKeys(cfg: FormatterConfig, rec: LogRecord, env: map<string, string>, clock: Clock, k: string)
    ensures LastWrite(cfg, rec, env, clock, k).Some? <==> k in WrittenKeys(cfg, rec)
  {
    FieldWriteReachesFieldKeys(cfg, rec, env, clock, k);
  }

  /** The formatted object has exactly the written keys. */
  lemma FormatKeys(cfg: FormatterConfig, rec: LogRecord, env: map<string, string>, clock: Clock)
    ensures Format(cfg, rec, env, clock).Keys == WrittenKeys(cfg, rec)
  {
    forall k ensures k in Format(cfg, rec, env, clock) <==> k in WrittenKeys(cfg, rec) {
      FormatIsLastWrite(cfg, rec, env, clock, k);
      LastWriteReachesWrittenKeys(cfg, rec, env, clock, k);
    }
  }

  /** Without context, data or exception, the default formatter writes the
      base fields and all three optional fields, and the minimal one only
      the base fields. */
  lemma PlainRecordKeys(rec: LogRecord, env: map<string, string>, clock: Clock)
    requires rec.otelCtx.None? && rec.data.None? && rec.excText.None?
    ensures Format(DefaultFormatter, rec, env, clock).Keys
            == {TimestampKey, LevelKey, MessageKey, ServiceNameKey, LoggerKey, LineKey}
    ensures Format(MinimalFormatter, rec, env, clock).Keys == {TimestampKey, LevelKey, MessageKey}
  {
    FormatKeys(DefaultFormatter, rec, env, clock);
    FormatKeys(MinimalFormatter, rec, env, clock);
  }

  /** No context key and no ID field name is `k`: nothing from `otel_ctx`
      is written to `k`. */
  predicate ContextLeaves(cfg: FormatterConfig, rec: LogRecord, k: string) {
    rec.otelCtx.None? || (k !in rec.otelCtx.value && IdWrite(cfg, rec.otelCtx.value, k).None?)
  }

  /** `service.name` is present exactly when switched on, unless the
      context writes to it, and holds `SERVICE_NAME` or
      `"unknown-service"` when the variable is missing. */
  lemma ServiceNameFollowsToggle(cfg: FormatterConfig, rec: LogRecord, env: map<string, string>, clock: Clock)
    requires ContextLeaves(cfg, rec, ServiceNameKey)
    ensures ServiceNameKey in Format(cfg, rec, env, clock) <==> cfg.includeServiceName
    ensures cfg.includeServiceName ==>
              Format(cfg, rec, env, clock)[ServiceNameKey]
              == Str(if ServiceNameVar in env then env[ServiceNameVar] else UnknownService)
  {
    FormatIsLastWrite(cfg, rec, env, clock, ServiceNameKey);
  }

  /** `log.logger` is present exactly when switched on, unless the context
      writes to it, and holds the logger name. */
  lemma LoggerNameFollowsToggle(cfg: FormatterConfig, rec: LogRecord, env: map<string, string>, clock: Clock)
    requires ContextLeaves(cfg, rec, LoggerKey)
    ensures LoggerKey in Format(cfg, rec, env, clock) <==> cfg.includeLoggerName
    ensures cfg.includeLoggerName ==> Format(cfg, rec, env, clock)[LoggerKey] == Str(rec.name)
  {
    FormatIsLastWrite(cfg, rec, env, clock, LoggerKey);
  }

  /** `log.origin.file.line` is present exactly when switched on, unless the
      context writes to it, and holds the line number. */
  lemma LineNumberFollowsToggle(cfg: FormatterConfig, rec: LogRecord, env: map<string, string>, clock: Clock)
    requires ContextLeaves(cfg, rec, LineKey)
    ensures LineKey in Format(cfg, rec, env, clock) <==> cfg.includeLineNumber
    ensures cfg.includeLineNumber ==> Format(cfg, rec, env, clock)[LineKey] == Int(rec.lineno)
  {
    FormatIsLastWrite(cfg, rec, env, clock, LineKey);
  }

  /** The timestamp is a float for `"unix"` and `isoformat() + "Z"`
      otherwise, unless the context writes to `timestamp`. */
  lemma TimestampFollowsFormat(cfg: FormatterConfig, rec: LogRecord, env: map<string, string>, clock: Clock)
    requires ContextLeaves(cfg, rec, TimestampKey)
    ensures cfg.timestampFormat == "unix" ==> Format(cfg, rec, env, clock)[TimestampKey] == Float(clock.unix)
    ensures cfg.timestampFormat != "unix" ==> Format(cfg, rec, env, clock)[TimestampKey] == Str(clock.iso + "Z")
  {
    FormatIsLastWrite(cfg, rec, env, clock, TimestampKey);
  }

  /** A context ID appears under its own name only when some ID field is
      configured with that name: renaming the fields removes the original
      names, and a record without `otel_ctx` has none of them. */
  lemma IdKeysOnlyThroughFields(cfg: FormatterConfig, rec: LogRecord, env: map<string, string>, clock: Clock, id: string)
    requires id in CtxIds
    ensures id in Format(cfg, rec, env, clock) <==> IdWrite(cfg, rec.otelCtx.GetOr(map[]), id).Some?
    ensures rec.otelCtx.None? ==> id !in Format(cfg, rec, env, clock)
  {
    FormatIsLastWrite(cfg, rec, env, clock, id);
  }

  /** With distinct field names that neither the other context keys nor
      the `attributes` and stack-trace writes reuse, each present ID is
      written under its configured name. */
  lemma IdsUnderConfiguredNames(cfg: FormatterConfig, rec: LogRecord, env: map<string, string>, clock: Clock)
    requires rec.otelCtx.Some?
    requires cfg.traceIdField != cfg.executionIdField && cfg.traceIdField != cfg.taskIdField
             && cfg.executionIdField != cfg.taskIdField
    requires forall k :: k in rec.otelCtx.value && k !in CtxIds ==>
               k != cfg.traceIdField && k != cfg.executionIdField && k != cfg.taskIdField
    requires cfg.traceIdField !in {AttributesKey, StacktraceKey}
             && cfg.executionIdField !in {AttributesKey, StacktraceKey}
             && cfg.taskIdField !in {AttributesKey, StacktraceKey}
    ensures var ctx := rec.otelCtx.value;
            && (CtxTraceId in ctx ==> Format(cfg, rec, env, clock)[cfg.traceIdField] == ctx[CtxTraceId])
            && (CtxExecutionId in ctx ==> Format(cfg, rec, env, clock)[cfg.executionIdField] == ctx[CtxExecutionId])
            && (CtxTaskId in ctx ==> Format(cfg, rec, env, clock)[cfg.taskIdField] == ctx[CtxTaskId])
  {
    FormatIsLastWrite(cfg, rec, env, clock, cfg.traceIdField);
    FormatIsLastWrite(cfg, rec, env, clock, cfg.executionIdField);
    FormatIsLastWrite(cfg, rec, env, clock, cfg.taskIdField);
  }

  /** `attributes` is present exactly when the record has `data`, and
      `exception.stacktrace` exactly when it has exception information,
      unless the context writes to those keys. */
  lemma AttributesAndStacktraceFollowRecord(cfg: FormatterConfig, rec: LogRecord, env: map<string, string>, clock: Clock)
    ensures ContextLeaves(cfg, rec, AttributesKey) ==> (AttributesKey in Format(cfg, rec, env, clock) <==> rec.data.Some?)
    ensures ContextLeaves(cfg, rec, StacktraceKey) ==> (StacktraceKey in Format(cfg, rec, env, clock) <==> rec.excText.Some?)
  {
    FormatIsLastWrite(cfg, rec, env, clock, AttributesKey);
    FormatIsLastWrite(cfg, rec, env, clock, StacktraceKey);
  }

  /** Every other context key is copied under its own name with its own
      value, overriding the base and optional fields, unless it is
      `attributes` or `exception.stacktrace` and the record overrides it. */
  lemma ExtraContextOverridesFields(cfg: FormatterConfig, rec: LogRecord, env: map<string, string>, clock: Clock, k: string)
    requires rec.otelCtx.Some? && k in rec.otelCtx.value && k !in CtxIds
    requires !(rec.data.Some? && k == AttributesKey) && !(rec.excText.Some? && k == StacktraceKey)
    ensures Format(cfg, rec, env, clock)[k] == rec.otelCtx.value[k]
  {
    FormatIsLastWrite(cfg, rec, env, clock, k);
  }

  /** A record whose `data` and context values `json.dumps` accepts is
      always written: the fields the formatter adds itself are strings,
      integers and floats. */
  lemma EncodableRecordIsWritten(cfg: FormatterConfig, rec: LogRecord, env: map<string, string>, clock: Clock)
    requires rec.data.Some? ==> Encodable(rec.data.value)
    requires rec.otelCtx.Some? ==> forall k :: k in rec.otelCtx.value ==> Encodable(rec.otelCtx.value[k])
    ensures FormatOutput(cfg, rec, env, clock).Some?
  {
    var m := Format(cfg, rec, env, clock);
    forall k | k in m
      ensures Encodable(m[k])
    {
      FormatIsLastWrite(cfg, rec, env, clock, k);
      LastWriteIsEncodable(cfg, rec, env, clock, k);
    }
  }

  /** The last write to any key is a value `json.dumps` accepts when the
      record's own values are. */
  lemma LastWriteIsEncodable(cfg: FormatterConfig, rec: LogRecord, env: map<string, string>, clock: Clock, k: string)
    requires rec.data.Some? ==> Encodable(rec.data.value)
    requires rec.otelCtx.Some? ==> forall k :: k in rec.otelCtx.value ==> Encodable(rec.otelCtx.value[k])
    ensures LastWrite(cfg, rec, env, clock, k).Some? ==> Encodable(LastWrite(cfg, rec, env, clock, k).value)
  {
    var ctx := rec.otelCtx.GetOr(map[]);
    var w := FieldWrite(cfg, rec, env, clock, k);
    assert w.Some? ==> Encodable(w.value);
  }

  /** `data` that `json.dumps` refuses loses the whole line. */
  lemma UnencodableDataIsNotWritten(cfg: FormatterConfig, rec: LogRecord, env: map<string, string>, clock: Clock)
    requires rec.data.Some? && !Encodable(rec.data.value)
    ensures FormatOutput(cfg, rec, env, clock).None?
  {
    assert Format(cfg, rec, env, clock)[AttributesKey] == rec.data.value;
  }

  /** So does a context value that `json.dumps` refuses, unless a later
      write replaces it. */
  lemma UnencodableContextIsNotWritten(cfg: FormatterConfig, rec: LogRecord, env: map<string, string>, clock: Clock, k: string)
    requires rec.otelCtx.Some? && k in rec.otelCtx.value && k !in CtxIds && !Encodable(rec.otelCtx.value[k])
    requires !(rec.data.Some? && k == AttributesKey) && !(rec.excText.Some? && k == StacktraceKey)
    ensures FormatOutput(cfg, rec, env, clock).None?
  {
    ExtraContextOverridesFields(cfg, rec, env, clock, k);
    assert k in Format(cfg, rec, env, clock) by {
      FormatIsLastWrite(cfg, rec, env, clock, k);
    }
  }
}
