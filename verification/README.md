# ma_logger in Dafny

A model of the core of `ma_logger`, a small Python library for
OpenTelemetry-style JSON logging. The core has four parts:

- **Module-name resolution.** Given a traced function whose `__module__` is
  `"__main__"`, recover its real dotted module name. There are two versions:
  - `utils.resolve_module_name` tries `__spec__.name`, then the package root
    found by climbing `__init__.py` directories, then a shortest-first scan
    of `sys.path`.
  - `decorators._resolve_module_name` tries `__spec__.name`, then a
    longest-first scan of `sys.path`.
- **Argument capture.** `collect_params` / `_collect_params` bind the call's
  arguments the way `inspect.Signature.bind` plus `apply_defaults` does. They
  drop `self`/`cls` and any ignored names, and pass each value through the
  safe serializer. The serializer keeps a value `json.dumps` accepts and
  otherwise replaces it with `"<TypeName>"`.
- **The `trace` wrapper.** It logs one INFO event on success and one ERROR
  event, with `exc_info`, when the call raises an `Exception`. It logs nothing
  when the call raises a `BaseException`. The call's result or exception
  passes through unchanged. The serializer hands back the argument object
  itself, so a list or dict argument that `json.dumps` accepted when the
  parameters were collected, and that the call changes in place, is logged
  in its changed state. An argument it refused keeps its call-time
  `"<TypeName>"` placeholder.
- **`OTelContextFilter` and `OTelJsonFormatter`.**
  - The filter attaches an `otel_ctx` dict built from environment variables
    and from static and dynamic extra context.
  - The formatter builds the JSON object through a fixed sequence of key
    writes; a later write to a key replaces an earlier one.

Modules, one per file:

- `Wrappers`: `Option`.
- `Values`: Python values as `json.dumps` sees them. It holds a token-level
  `json.dumps`/`json.loads` with its round trip, and the safe serializer.
- `Paths`: absolute paths as component sequences, plus `dirname`, `basename`,
  `splitext` and the `__init__` rule.
- `SysPathSearch`: the stable sorted `sys.path` scan, written as "earliest
  qualifying entry by key, then by position".
- `Binding`: `Signature.bind` and `apply_defaults`, and the serializing dict
  comprehension.
- `Runtime`: the reflective inputs, given as data.
- `Utils`, `Decorators`, `Filters`, `Formatters`: the four source files.
- `DecoratorsExamples`: the parameter capture on the calls the decorator
  tests make.
- `Pipeline`: a trace event passed through the filter and then the formatter.

Everything Python reads from the interpreter or the OS is an explicit
parameter:
- `__module__`, `__qualname__`, `inspect.getfile` made absolute, and the
  signature (a `Callable`);
- `__spec__.name`, `sys.path` with each entry's `abspath`, and the set of
  directories holding `__init__.py` (a `Host`);
- the environment (a `map<string, string>`);
- the clock readings;
- the callee's behaviour (a function giving `Ok`, `Raised` or `Fatal`, and
  the state it leaves the arguments in).

Where the tests and the code disagree, the model follows the code:

- `trace` hands its details to `logging` as `extra={"trace_data": {...}}`
  (decorators.py:130-155).
- The formatter exports only a record's `data` attribute as `attributes`
  (formatters.py:119-120).
- So a trace event's JSON output never carries `attributes`
  (`Pipeline.TraceOutputHasNoAttributes`).
- Many decorator tests read `parsed["attributes"]["params"]`. The model
  instead states what those tests expect of the captured parameters
  directly, as the value `CollectParams` computes.

## Model

| member | source | states |
|---|---|---|
| Values.SafeSerialize | ma_logger/utils.py:98-109 | The result always survives `json.dumps`. The value is returned unchanged exactly when `json.dumps` accepts it; otherwise the result is the string `"<" + type name + ">"`. |
| Values.DumpsSucceedsIffEncodable | ma_logger/decorators.py:63-74 | `json.dumps` succeeds on a value exactly when the value holds no unserializable object at any depth. |
| Values.RoundTripValue | ma_logger/decorators.py:70-72 | Decoding the encoding of any encodable value gives the value back, and leaves any following tokens untouched. |
| Values.SafeSerializeRoundTrips | ma_logger/utils.py:105-107 | What the safe serializer returns always encodes, and decodes back to itself. |
| Paths.ModuleParts | ma_logger/utils.py:67-73 | The module parts of a relative path: the directories, plus the last component with its extension dropped. A final `__init__` is removed, and only then. |
| Paths.ModulePartsOfSourceFile | ma_logger/utils.py:68-73 | `d1/.../dk/m.py` gives `[d1..dk, m]`; `d1/.../dk/__init__.py` gives `[d1..dk]`. |
| Paths.StripExt | ma_logger/utils.py:68 | `splitext(...)[0]` is a prefix of the name. A cut is made at the last dot, and only when some character before that dot is not a dot. The name is left whole exactly when every dot in it has only dots before it (`.bashrc`, `x`). |
| Paths.StripExtOfSuffixed | ma_logger/utils.py:68 | `splitext` drops exactly a final `.ext` from a stem that has a non-dot character. |
| Paths.DeeperIsLonger | ma_logger/utils.py:82 | A strictly deeper directory has a strictly longer path text. So, when the matching `sys.path` entries are listed as normalised absolute paths, sorting by length puts an ancestor before its descendants. |
| SysPathSearch.Earliest | ma_logger/utils.py:82 | The stable sort: the chosen position qualifies, and it has the smallest key among qualifying positions, ties going to the lowest index. `None` only when no position qualifies. |
| SysPathSearch.Select | ma_logger/utils.py:82-93 | The scan stops at an entry that is a proper prefix of the file and gives non-empty parts. No other such entry is scanned before it, and the scan falls through only when no entry qualifies. |
| SysPathSearch.Candidate | ma_logger/utils.py:83-93 | An entry matches exactly when it is a non-root proper directory prefix of the file whose remainder yields non-empty module parts; it then contributes those parts. |
| Paths.StartsWithIffAncestor | ma_logger/utils.py:86 | For normalised absolute paths, `file.startswith(entry + "/")` holds exactly when `entry` is a proper ancestor directory of `file` other than the root `/`. |
| SysPathSearch.CandidateIsStartsWith | ma_logger/decorators.py:51-55 | For normalised absolute paths, an entry contributes exactly when the file's text starts with the entry's text and a separator and the remainder yields non-empty module parts. |
| SysPathSearch.Search | ma_logger/utils.py:82-95 | The dotted name from the selected entry. Falls through exactly when no entry matches. |
| SysPathSearch.ShortestFirstPicksOutermost | ma_logger/utils.py:81-82 | Shortest-first, with the matching entries listed as absolute paths, the chosen entry is an ancestor of every other matching entry. Entries that do not contain the file may be listed any way. |
| SysPathSearch.LongestFirstPicksInnermost | ma_logger/decorators.py:46-47 | Longest-first, with the matching entries listed as absolute paths, every other matching entry is an ancestor of the chosen entry, the most specific one. |
| SysPathSearch.TwoMatchesByLength | ma_logger/utils.py:81 | Of two matching entries whose texts differ in length, shortest-first scans the shorter text first and longest-first the longer, whatever directories they stand for. |
| SysPathSearch.RelativeEntryReversesNesting | ma_logger/utils.py:80-81 | The comments "shortest first for outer packages" (utils.py:80) and "longest first → most specific" (decorators.py:46) hold only for absolute entries. With `sys.path == ["", "/a"]` run from `/a/b`, `/a/b/m.py` is named `m` shortest-first, from the inner directory, and `b.m` longest-first, from the outer one. |
| Binding.Bind | ma_logger/utils.py:118-120 | `bind` plus `apply_defaults` succeeds exactly when the arguments bind: not too many positionals, no unknown keyword, no parameter given twice, and no required parameter missing. On success, each parameter gets its positional argument, else its keyword, else its default, in signature order. |
| Binding.KeepSerialized | ma_logger/utils.py:121-125 | The dict comprehension keeps every bound name not ignored, with its serialized value, and nothing else. Every kept value is encodable. |
| Binding.KeepSerializedKeys | ma_logger/decorators.py:84-88 | The kept names are exactly the bound names minus the ignored ones. |
| Binding.IgnoringAbsentNameIsHarmless | ma_logger/utils.py:116 | Ignoring a name no argument is bound to changes nothing. |
| Binding.KeepSerializedKeepsEncodable | ma_logger/utils.py:121-125 | Bound arguments none of which is ignored and all of which `json.dumps` accepts come through the comprehension unchanged. |
| Utils.WalkUp | ma_logger/utils.py:11-27 | The climb fails exactly when the start directory has no `__init__.py`. Otherwise it returns the package root: the highest ancestor reached through `__init__.py` directories. |
| Utils.PackageRootUnique | ma_logger/utils.py:16-25 | A directory has at most one package root. |
| Utils.WalkUpFindsPackageRoot | ma_logger/utils.py:11-27 | The climb returns `root` if and only if `root` is the package root. |
| Utils.FindPackageRoot | ma_logger/utils.py:11-27 | The source's `while True` loop computes the package root of the file's directory. It returns `None` exactly when that directory has no `__init__.py`. |
| Utils.ResolveModuleName | ma_logger/utils.py:30-95 | A real `__module__` is kept. Otherwise a non-empty `__spec__.name` wins. Without a file the result is `"__main__"`. |
| Utils.PackageFileIsNamedFromRoot | ma_logger/utils.py:60-77 | A `__main__` script at `root/d1/.../dk/m.py`, with `root` its package root, is named `basename(root).d1. ... .dk.m`. |
| Utils.PackageInitIsNamedByPackage | ma_logger/utils.py:72-79 | A package's `__init__.py` run as `__main__` is named by the package's basename alone. |
| Utils.SubPackageInitIsNamedFromRoot | ma_logger/utils.py:66-77 | A sub-package's `root/d1/.../dk/__init__.py` run as `__main__` is named `basename(root).d1. ... .dk`. |
| Utils.ScriptOutsidePackageUsesSysPath | ma_logger/utils.py:81-95 | Outside any package, the name comes from the first matching entry in shortest-first order, or stays `"__main__"` when none matches. |
| Utils.CollectParams | ma_logger/utils.py:112-128 | No captured name is auto-skipped or ignored, and every captured value is encodable. No signature, or arguments that do not bind, give `{}`. |
| Utils.CollectParamsContents | ma_logger/utils.py:112-125 | When the arguments bind, the captured names are exactly the parameters minus both exclusion sets. Each value is the safe serialization of the argument bound to it. |
| Decorators.ResolveModuleName | ma_logger/decorators.py:17-60 | Same order as the utils resolver, with no package step: a real `__module__`, then `__spec__.name`, then the name from the entry the longest-first `sys.path` scan selects, else `"__main__"`. |
| Decorators.MostSpecificEntryNamesScript | ma_logger/decorators.py:46-58 | When some entry matches and the matching entries are listed as absolute paths, a `__main__` script is named relative to the innermost matching entry: every other matching entry is an ancestor of it. |
| Decorators.ResolverIgnoresPackages | ma_logger/decorators.py:40-60 | The decorators resolver does not depend on where `__init__.py` files are. |
| Decorators.CollectParams | ma_logger/decorators.py:77-91 | `self`, `cls` and ignored names are never captured, and captured values are encodable. No signature, or failed binding, give `{}`. |
| Decorators.CollectParamsContents | ma_logger/decorators.py:77-88 | When the arguments bind, the captured names are exactly the parameters minus `{self, cls}` and the ignored names, with serialized values. |
| Decorators.IgnoringNonParameterIsHarmless | tests/test_decorator.py:402-416 | Ignoring a name that is not a parameter leaves the captured parameters unchanged. |
| DecoratorsExamples.CollectParamsAppliesDefault | tests/test_decorator.py:306-316 | `greet()` with `name="world"` captures `{"name": "world"}`. |
| DecoratorsExamples.CollectParamsBindsKeyword | tests/test_decorator.py:330-340 | `func(1, 2, c="custom")` captures `a=1, b=2, c="custom"`, in signature order. |
| DecoratorsExamples.CollectParamsSkipsSelf | tests/test_decorator.py:342-356 | `method(obj, 5)` captures only `x`. |
| DecoratorsExamples.CollectParamsRejectsExtraArgument | ma_logger/decorators.py:80-91 | Too many positional arguments make `bind` raise, so nothing is captured. |
| DecoratorsExamples.CollectParamsReplacesObject | tests/test_decorator.py:418-432 | An instance of a user class is captured as `"<HeavyObject>"`; a plain string stays as it is. |
| DecoratorsExamples.CollectParamsKeepsSerializable | tests/test_decorator.py:447-458 | `func(42, 3.14, "hello", [1, 2], {"k": "v"})` captures all five arguments unchanged. |
| DecoratorsExamples.PositionalCallPassesThrough | ma_logger/decorators.py:77-91 | A call that binds every parameter positionally, with no `self`/`cls` and only values `json.dumps` accepts, is captured exactly as made. |
| DecoratorsExamples.CollectParamsDropsIgnored | tests/test_decorator.py:377-388 | With `ignore_params=["password"]`, `login("admin", "secret123")` captures only `user`. |
| Decorators.Trace | ma_logger/decorators.py:119-156 | The wrapper returns or raises exactly what the callee does. Return gives one INFO event with message `trace complete: <module>.<qualname> [success]` and no `exc_info`. An `Exception` gives one ERROR event with the `[error]` message, carrying it. A `BaseException` gives no event. Each event uses the resolved module as logger name and `module.qualname` as function name, and carries the measured duration and the captured parameters. A list or dict argument that `json.dumps` accepted at call time shows its state after the call; one it refused keeps its call-time placeholder. |
| Decorators.UntouchedArgumentsAreLoggedAsCollected | ma_logger/decorators.py:77-91 | When the call changes no argument, the logged parameters are what `_collect_params` returned before the call. |
| Decorators.LoggedNamesAreCollectedNames | ma_logger/decorators.py:83-88 | Whatever the call does, the logged parameter names are those chosen before the call. |
| Decorators.ParamsDependOnlyOnArgumentState | ma_logger/decorators.py:63-75 | Two callees that leave the arguments in the same state log the same parameters, however each ends, because the serializer returns the argument object itself. |
| Decorators.AppendedListIsLoggedAfterCall | ma_logger/decorators.py:70-72 | A list argument the call appends to is logged with the appended item, not as it was when captured. |
| Decorators.IgnoreParamsNeverReachCallee | ma_logger/decorators.py:125-156 | `ignore_params` never changes the caller's result, and the events logged under two lists of ignored names are equal except in their `params`. |
| Filters.EmptyArgumentsActAsOmitted | ma_logger/filters.py:81-90 | Because of `x or default`, passing an empty variable list, static context or dynamic context configures the filter exactly as omitting that argument does. |
| Filters.NonEmptyListsAreKept | ma_logger/filters.py:81 | A non-empty variable list is kept as given: two different non-empty lists give different filters. |
| Filters.GetEnvValue | ma_logger/filters.py:93-107 | The value of the first listed variable that is set and non-empty, else the fallback. |
| Filters.Filter | ma_logger/filters.py:109-126 | The record is always kept. The context keys are the three IDs, the static keys and the dynamic keys whose variable is set. |
| Filters.FilterFollowsPrecedence | ma_logger/filters.py:111-124 | Key by key, a set dynamic variable beats a static entry, which beats an environment ID. |
| Filters.UnsetIdTakesFallback | tests/test_filters.py:47-66 | With none of its variables set, each of `trace_id`, `execution_id` and `task_id` takes the fallback value, unless the static context or a set dynamic variable replaces it. |
| Filters.FirstListedVariableWins | tests/test_filters.py:68-90 | `TRACING_ID` beats `CORRELATION_ID`, which is used when `TRACING_ID` is missing or empty; with neither set, the ID is `"N/A"`. |
| Filters.StaticThenDynamicOverride | ma_logger/filters.py:117-124 | A static key replaces an ID of the same name, and a set dynamic variable replaces both. |
| Filters.UnsetDynamicKeyIsAbsent | tests/test_filters.py:157-162 | A dynamic key whose variable is missing or empty is left out, with no fallback substituted. |
| Filters.EncodableContext | ma_logger/filters.py:109-124 | When the fallback and the static values are encodable, every context value is: everything read from the environment is a string. |
| Formatters.Format | ma_logger/formatters.py:78-126 | `timestamp`, `level` and `message` are always present. `attributes` is the record's data when it has some, and `exception.stacktrace` is the traceback when there is one. Both are written last, so nothing overrides them. |
| Formatters.FormatIsLastWrite | ma_logger/formatters.py:85-124 | The output holds exactly the keys some write reaches, each with the value of the last write to it, read backwards. |
| Formatters.FormatKeys | ma_logger/formatters.py:85-124 | The exact key set: base fields, switched-on optional fields, ID fields of the present IDs, other context keys, `attributes` iff data, stack trace iff exception. |
| Formatters.PlainRecordKeys | tests/test_formatters.py:230-238 | Without context, data or exception, the default formatter writes the six default fields and the minimal one writes only `timestamp`, `level` and `message`. |
| Formatters.ServiceNameFollowsToggle | ma_logger/formatters.py:93-94 | Unless the context writes to `service.name`, the key is present exactly when the toggle is on, and holds `SERVICE_NAME` (even when empty) or `"unknown-service"` when the variable is missing. |
| Formatters.LoggerNameFollowsToggle | ma_logger/formatters.py:96-97 | Unless the context writes to `log.logger`, the key is present exactly when the toggle is on, and holds the logger name. |
| Formatters.LineNumberFollowsToggle | ma_logger/formatters.py:99-100 | Unless the context writes to `log.origin.file.line`, the key is present exactly when the toggle is on, and holds the line number. |
| Formatters.TimestampFollowsFormat | tests/test_formatters.py:210-213 | Unless the context overrides it, the timestamp is a float for `"unix"` and `isoformat() + "Z"` otherwise. |
| Formatters.IdKeysOnlyThroughFields | tests/test_formatters.py:189-208 | An ID's original name appears only when some ID field is configured with that name. A record without `otel_ctx` has none of the three. |
| Formatters.IdsUnderConfiguredNames | ma_logger/formatters.py:102-111 | With distinct field names that no other context key reuses and that are not `attributes` or `exception.stacktrace`, each present ID appears under its configured name, whatever `data` and exception the record carries. |
| Formatters.AttributesAndStacktraceFollowRecord | ma_logger/formatters.py:118-124 | Unless the context writes those keys, `attributes` is present exactly when the record has `data`, and the stack trace exactly when it has `exc_info`. |
| Formatters.ExtraContextOverridesFields | ma_logger/formatters.py:113-116 | A non-ID context key shows up with its own value and overrides the base and optional fields. |
| Formatters.EncodableRecordIsWritten | ma_logger/formatters.py:126 | A record whose `data` and context values `json.dumps` accepts is always written; the fields the formatter adds itself never stop it. |
| Formatters.UnencodableDataIsNotWritten | ma_logger/formatters.py:119-126 | `data` that `json.dumps` refuses makes `format` raise, so no line is written. |
| Formatters.UnencodableContextIsNotWritten | ma_logger/formatters.py:113-126 | A non-ID context value that `json.dumps` refuses makes `format` raise too, unless `attributes` or the stack trace overwrites its key. |
| Pipeline.TraceOutputHasNoAttributes | ma_logger/decorators.py:130-140 | No object produced by a traced call has an `attributes` key, unless the filter's context itself supplies one. |
| Pipeline.TraceOutputStacktraceIffRaised | ma_logger/decorators.py:142-156 | A call that raises an `Exception` gives one object whose stack trace is the traceback. A return gives one object without it. A `BaseException` gives none. This holds unless the filter's context or an ID field name supplies `exception.stacktrace`. |
| Pipeline.TraceOutputMessage | tests/test_decorator.py:52-58 | The object's `message` is `trace complete: <module>.<qualname>` followed by `[success]` or `[error]`, unless the filter's context or an ID field name supplies `message`. |
| Pipeline.DefaultTraceOutputKeys | ma_logger/formatters.py:85-124 | With the default filter and formatter, the object has the six default fields and the three IDs, plus the stack trace when the call raised. |
| Pipeline.TraceOutputIsWritten | ma_logger/formatters.py:126 | With an encodable fallback and static context, `json.dumps` accepts every object a traced call produces, so each is written. |

## Left out

- `ma_logger/setup.py` and `ma_logger/__init__.py` (handler and logger configuration, exports) are not part of this model. The pipeline assumes the filter runs before the formatter on every record.
- Pipeline.TraceOutputStacktraceIffRaised: assumes the logger's effective level admits INFO and ERROR records. `setup_logging` sets the root level from `LOG_LEVEL` (setup.py:54-58); with `LOG_LEVEL=WARNING` a call that returns writes no object, and with `CRITICAL` neither does one that raises.
- Pipeline.DefaultTraceOutputKeys: makes the same assumption about the effective level.
- JSON text: `json.dumps` is modelled at the token level. Character escaping, `ensure_ascii=False`, key order in the printed object, and the `allow_nan` literals are not modelled.
- Values: dict keys are strings and sequences are lists. `json.dumps` also accepts tuples (written as arrays) and `int`, `float`, `bool` and `None` keys (written as strings); these inputs are not modelled. Circular references, which make `json.dumps` raise `ValueError`, are not modelled either.
- Values.SafeSerialize: treats every `Int` and `Float` as encodable. The numeric failures the serializer also catches (utils.py:108, decorators.py:73) are not modelled: an `int` of more than 4300 digits makes `json.dumps` raise `ValueError` on Python 3.11 and later (so the source returns `"<int>"`), and `OverflowError` is caught as well.
- Floats are mathematical reals, and durations are natural-number differences of two clock readings; floating-point rounding is not modelled.
- `datetime.utcnow()` and `time.perf_counter()` are inputs (`Clock`, `start`/`end`).
- `formatException` is an input: the traceback text travels with the exception.
- `record.getMessage()` `%`-formatting is left out. The message is given already formatted.
- Reflection is replaced by data:
  - `inspect.getfile` followed by `abspath` gives the file path, or `None` when it raises.
  - `inspect.signature` gives a parameter table, or `None` when it raises.
  - The directories holding `__init__.py`, and each `sys.path` entry's `abspath`, are given.
- Only positional-or-keyword parameters are modelled: no `*args`, `**kwargs`, keyword-only or positional-only parameters.
- `sys.path` entries whose `abspath` is empty are not modelled. The `if not path_entry: continue` branch (utils.py:84-85, decorators.py:49-50) can never fire, because `abspath` always returns a non-empty path.
- Paths are normalised absolute component sequences. The model does not cover `relpath` of paths that are not below the directory, symbolic links, or Windows separators.
- The `trace` decorator's two calling forms (`@trace` and `@trace(...)`, decorators.py:160-164) and `functools.wraps` metadata copying are left out. `monitor_task` is the same object as `trace`.
- String-typed `trace_id_env_vars` and other non-list arguments to the filter are not modelled: the filter takes lists of names.
- Formatters.IdsUnderConfiguredNames: stated only for distinct field names that no other context key reuses and that are neither `attributes` nor `exception.stacktrace`. When they collide, `Formatters.FormatIsLastWrite` gives the value.
- Formatters.Format: the result is the dict handed to `json.dumps`, also when `json.dumps` would raise `TypeError` on an opaque `data` or context value (formatters.py:126). `Formatters.FormatOutput` says whether a line is written, and `Pipeline.TraceOutput` likewise lists the dicts, with `Pipeline.TraceOutputIsWritten` giving when they are all written. `logging`'s `handleError` report is not modelled.
- Formatters.ServiceNameFollowsToggle: stated only when the context does not write `service.name`. Otherwise `Formatters.FormatIsLastWrite` gives the value.
- Formatters.LoggerNameFollowsToggle: stated only when the context does not write `log.logger`. Otherwise `Formatters.FormatIsLastWrite` gives the value.
- Formatters.LineNumberFollowsToggle: stated only when the context does not write `log.origin.file.line`. Otherwise `Formatters.FormatIsLastWrite` gives the value.
- Pipeline.TraceOutputStacktraceIffRaised: stated only when no context source or ID field name is `exception.stacktrace`. Such a key would make the stack trace present after a return; `Formatters.FormatIsLastWrite` gives the value then.
- Pipeline.TraceOutputMessage: stated only when no context source or ID field name is `message`. Otherwise the context value replaces the message.
- Subclasses of the built-in types `json.dumps` accepts are not modelled. An `OrderedDict`, a `defaultdict` or an `IntEnum` is encoded like its base type, but its placeholder, when an element inside it is refused, names the subclass (`"<defaultdict>"`). The model's `TypeName` gives only the exact built-in names.
- Decorators.Trace: a parameter filled from its default by `apply_defaults` is logged as the default was before the call. A mutable default that the call changes in place would show its new state, as a passed argument does; this is not modelled.
- Values: the model allows a dict to repeat a key, which Python dicts never do. No stated property depends on keys being distinct.
- Pipeline.TraceOutputHasNoAttributes: stated under the condition that no context source or ID field name is `attributes`. Otherwise the context supplies that key.
- Utils.ScriptOutsidePackageUsesSysPath: relates the result to the shortest-first selection without restating the scan order; `SysPathSearch.Select` holds the order.
