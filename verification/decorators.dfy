/** `ma_logger/decorators.py`: its own module-name resolver (longest-first
    `sys.path` scan, no package-root step), its own parameter collector with
    the fixed `_AUTO_SKIP_PARAMS`, and the `trace` wrapper. */
module Decorators {
  import opened Wrappers
  import opened Values
  import opened Paths
  import opened SysPathSearch
  import opened Binding
  import opened Runtime

  /** `_AUTO_SKIP_PARAMS`: the receiver names never logged. */
  const AutoSkipParams: set<string> := {"self", "cls"}

  /** `_resolve_module_name(func)`: `__module__` unless it is `"__main__"`,
      then `__spec__.name`, then the longest-first `sys.path` scan, and
      `"__main__"` when that finds nothing. */
  function ResolveModuleName(f: Callable, host: Host): (r: string)
    requires ValidCallable(f)
    ensures f.moduleName != MainModule ==> r == f.moduleName
    ensures f.moduleName == MainModule && HasSpecName(host) ==> r == host.mainSpecName.value
    ensures f.moduleName == MainModule && !HasSpecName(host) && f.file.None? ==> r == MainModule
    ensures f.moduleName == MainModule && !HasSpecName(host) && f.file.Some? &&
            (forall j :: 0 <= j < |host.sysPath| ==> Candidate(host.sysPath[j], f.file.value).None?) ==>
              r == MainModule
    ensures f.moduleName == MainModule && !HasSpecName(host) && f.file.Some? &&
            Select(host.sysPath, f.file.value, LongestFirst).Some? ==>
              var c := Select(host.sysPath, f.file.value, LongestFirst).value;
              r == JoinDots(Candidate(host.sysPath[c], f.file.value).value)
  {
    if f.moduleName != MainModule then f.moduleName
    else if HasSpecName(host) then host.mainSpecName.value
    else match f.file
      case None => f.moduleName
      case Some(filepath) => Search(host.sysPath, filepath, LongestFirst).GetOr(f.moduleName)
  }

  /** With the `sys.path` entries that contain the file listed as absolute
      directories, the entry that names a
      `__main__` script is the most specific one: every other entry that
      contains the file is one of its ancestors. */
  lemma MostSpecificEntryNamesScript(f: Callable, host: Host, filepath: Path)
    requires f.moduleName == MainModule && !HasSpecName(host)
    requires f.file == Some(filepath) && |filepath| > 0
    requires ListedAbsolute(host.sysPath, filepath)
    requires Select(host.sysPath, filepath, LongestFirst).Some?
    ensures var c := Select(host.sysPath, filepath, LongestFirst).value;
            && ResolveModuleName(f, host) == JoinDots(ModuleParts(filepath[|host.sysPath[c].abs|..]))
            && forall j :: 0 <= j < |host.sysPath| && Candidate(host.sysPath[j], filepath).Some? ==>
                 IsPrefix(host.sysPath[j].abs, host.sysPath[c].abs)
  {
    LongestFirstPicksInnermost(host.sysPath, filepath);
  }

  /** Unlike the resolver in utils, this one never looks for `__init__.py`. */
  lemma ResolverIgnoresPackages(f: Callable, host: Host, packageDirs: set<Path>)
    requires ValidCallable(f)
    ensures ResolveModuleName(f, host) == ResolveModuleName(f, host.(packageDirs := packageDirs))
  {
  }

  /** `_collect_params(func, args, kwargs, ignore_params)`: the bound
      arguments (defaults applied) except `self`, `cls` and the ignored
      names, each passed through the safe serializer; `{}` when the
      signature cannot be read or the arguments do not bind. */
  function CollectParams(f: Callable, args: seq<Value>, kwargs: map<string, Value>,
                         ignoreParams: Option<seq<string>>): (r: seq<Member>)
    ensures forall i :: 0 <= i < |r| ==> r[i].key != "self" && r[i].key != "cls" && Encodable(r[i].val)
    ensures ignoreParams.Some? ==> forall i, j :: 0 <= i < |r| && 0 <= j < |ignoreParams.value| ==>
              r[i].key != ignoreParams.value[j]
    ensures f.signature.None? ==> r == []
    ensures f.signature.Some? && !Bindable(f.signature.value, args, kwargs) ==> r == []
  {
    var ignore := Excluded(ignoreParams);
    match f.signature
    case None => []
    case Some(params) =>
      match Bind(params, args, kwargs)
      case None => []
      case Some(bound) => KeepSerialized(bound, ignore)
  }

  /** The names excluded from the collected parameters. */
  function Excluded(ignoreParams: Option<seq<string>>): set<string> {
    AutoSkipParams + (set x | x in ignoreParams.GetOr([]))
  }

  /** When the arguments bind, every parameter outside `self`, `cls` and the
      ignored names is collected with the safe serialization of the argument
      bound to it, and nothing else is. */
  lemma CollectParamsContents(f: Callable, args: seq<Value>, kwargs: map<string, Value>,
                              ignoreParams: Option<seq<string>>)
    requires f.signature.Some? && Bindable(f.signature.value, args, kwargs)
    ensures var params := f.signature.value;
            var r := CollectParams(f, args, kwargs, ignoreParams);
            && KeySet(r) == ParamNames(params) - Excluded(ignoreParams)
            && forall i :: 0 <= i < |params| && params[i].name !in Excluded(ignoreParams) ==>
                 Member(params[i].name, SafeSerialize(ArgFor(params, args, kwargs, i))) in r
  {
    var params := f.signature.value;
    var bound := Bind(params, args, kwargs).value;
    BoundKeysAreParamNames(params, args, kwargs);
    KeepSerializedKeys(bound, Excluded(ignoreParams));
    forall i | 0 <= i < |params| && params[i].name !in Excluded(ignoreParams)
      ensures Member(params[i].name, SafeSerialize(ArgFor(params, args, kwargs, i)))
              in KeepSerialized(bound, Excluded(ignoreParams))
    {
      assert bound[i] in bound;
    }
  }

  /** Ignoring a name that is not a parameter changes nothing. */
  lemma IgnoringNonParameterIsHarmless(f: Callable, args: seq<Value>, kwargs: map<string, Value>,
                                       ignoreParams: seq<string>, x: string)
    requires f.signature.Some? && !IsParam(f.signature.value, x)
    ensures CollectParams(f, args, kwargs, Some(ignoreParams + [x]))
            == CollectParams(f, args, kwargs, Some(ignoreParams))
  {
    var params := f.signature.value;
    assert Excluded(Some(ignoreParams + [x])) == Excluded(Some(ignoreParams)) + {x};
    match Bind(params, args, kwargs)
    case None =>
    case Some(bound) =>
      BoundKeysAreParamNames(params, args, kwargs);
      assert x !in KeySet(bound);
      IgnoringAbsentNameIsHarmless(bound, Excluded(Some(ignoreParams)), x);
  }

  /** A failure raised by the traced function: its type, its message and
      the traceback text `formatException` renders for it. */
  datatype Failure = Failure(typeName: string, message: string, traceback: string)

  /** What the wrapped function does: return a value, raise an `Exception`,
      or raise a `BaseException` that is not an `Exception`
      (`KeyboardInterrupt`, `SystemExit`, ...). */
  datatype Outcome = Ok(value: Value) | Raised(exc: Failure) | Fatal(exc: Failure)

  /** One call of the wrapped function: its outcome, and the state it
      leaves the caller's positional and keyword argument objects in.
      Rebinding a parameter inside the function does not show here;
      changing a list or dict argument in place does. */
  datatype Call = Call(outcome: Outcome, argsAfter: seq<Value>, kwargsAfter: map<string, Value>)

  /** The wrapped function, as the effect of calling it on given arguments. */
  type Callee = (seq<Value>, map<string, Value>) -> Call

  /** `extra["trace_data"]` of the trace event. */
  datatype TraceData = TraceData(functionName: string, result: string, duration: nat, params: seq<Member>)

  /** One call of `logger.info`/`logger.error`: the logger name, the level
      name, the message, the `trace_data` extra and `exc_info`. */
  datatype Event = Event(
    channel: string,
    level: string,
    message: string,
    traceData: TraceData,
    excInfo: Option<Failure>)

  /** The state after the call of the object bound to parameter `i`: the
      same list or dict, possibly changed in place. Objects of the other
      modelled types cannot change, and a default is taken as untouched. */
  function ArgAfter(params: seq<Param>, args: seq<Value>, kwargs: map<string, Value>, call: Call, i: nat): (r: Value)
    requires i < |params|
    ensures var before := ArgFor(params, args, kwargs, i);
            r == before || (before.List? && r.List?) || (before.Dict? && r.Dict?)
  {
    var before := ArgFor(params, args, kwargs, i);
    var after :=
      if i < |args| then (if i < |call.argsAfter| then call.argsAfter[i] else before)
      else if params[i].name in kwargs && params[i].name in call.kwargsAfter then call.kwargsAfter[params[i].name]
      else before;
    if (before.List? && after.List?) || (before.Dict? && after.Dict?) then after else before
  }

  /** What the log shows for an argument: the serializer keeps the object
      itself when `json.dumps` accepts it at call time, so its state after
      the call shows; otherwise the placeholder chosen at call time. */
  function Captured(before: Value, after: Value): (r: Value)
    ensures after == before ==> r == SafeSerialize(before)
    ensures !Encodable(before) ==> r == Str(Placeholder(before))
  {
    if Encodable(before) then after else Str(Placeholder(before))
  }

  /** The serializing comprehension over the bound arguments, with each kept
      value shown in its state after the call. */
  function KeepCaptured(bound: seq<Member>, after: seq<Value>, ignore: set<string>): (r: seq<Member>)
    requires |after| == |bound|
    ensures forall i :: 0 <= i < |r| ==> r[i].key !in ignore
    decreases |bound|
  {
    if |bound| == 0 then []
    else
      var rest := KeepCaptured(bound[1..], after[1..], ignore);
      if bound[0].key in ignore then rest
      else [Member(bound[0].key, Captured(bound[0].val, after[0]))] + rest
  }

  /** Arguments left as they were passed are shown as the serializer
      returned them. */
  lemma {:induction false} KeepCapturedUntouched(bound: seq<Member>, after: seq<Value>, ignore: set<string>)
    requires |after| == |bound| && forall i :: 0 <= i < |bound| ==> after[i] == bound[i].val
    ensures KeepCaptured(bound, after, ignore) == KeepSerialized(bound, ignore)
    decreases |bound|
  {
    if |bound| > 0 {
      assert forall i :: 0 <= i < |bound[1..]| ==> after[1..][i] == bound[1..][i].val by {
        forall i | 0 <= i < |bound[1..]| ensures after[1..][i] == bound[1..][i].val {
          assert after[1..][i] == after[i + 1] && bound[1..][i] == bound[i + 1];
        }
      }
      KeepCapturedUntouched(bound[1..], after[1..], ignore);
    }
  }

  /** The kept names are the same as the serializer's: only the values can
      change after the call. */
  lemma {:induction false} KeepCapturedKeys(bound: seq<Member>, after: seq<Value>, ignore: set<string>)
    requires |after| == |bound|
    ensures KeySet(KeepCaptured(bound, after, ignore)) == KeySet(KeepSerialized(bound, ignore))
    decreases |bound|
  {
    if |bound| > 0 {
      KeepCapturedKeys(bound[1..], after[1..], ignore);
      var b := bound[0];
      if b.key !in ignore {
        KeySetCons(Member(b.key, Captured(b.val, after[0])), KeepCaptured(bound[1..], after[1..], ignore));
        KeySetCons(Member(b.key, SafeSerialize(b.val)), KeepSerialized(bound[1..], ignore));
      }
    }
  }

  /** The `params` the trace event carries when it is logged: the names
      `_collect_params` chose before the call, each showing its argument
      as it is after the call, since `_safe_serialize_value` hands back the
      argument object itself. */
  function LoggedParams(f: Callable, args: seq<Value>, kwargs: map<string, Value>,
                        ignoreParams: Option<seq<string>>, call: Call): (r: seq<Member>)
    ensures forall i :: 0 <= i < |r| ==> r[i].key != "self" && r[i].key != "cls"
    ensures f.signature.None? ==> r == []
    ensures f.signature.Some? && !Bindable(f.signature.value, args, kwargs) ==> r == []
  {
    match f.signature
    case None => []
    case Some(params) =>
      if !Bindable(params, args, kwargs) then []
      else
        var bound := Bind(params, args, kwargs).value;
        var after := seq(|params|, i requires 0 <= i < |params| => ArgAfter(params, args, kwargs, call, i));
        KeepCaptured(bound, after, Excluded(ignoreParams))
  }

  /** When the call leaves every argument as passed, the log shows what
      `_collect_params` returned. */
  lemma UntouchedArgumentsAreLoggedAsCollected(f: Callable, args: seq<Value>, kwargs: map<string, Value>,
                                               ignoreParams: Option<seq<string>>, call: Call)
    requires call.argsAfter == args && call.kwargsAfter == kwargs
    ensures LoggedParams(f, args, kwargs, ignoreParams, call) == CollectParams(f, args, kwargs, ignoreParams)
  {
    if f.signature.Some? && Bindable(f.signature.value, args, kwargs) {
      var params := f.signature.value;
      var bound := Bind(params, args, kwargs).value;
      var after := seq(|params|, i requires 0 <= i < |params| => ArgAfter(params, args, kwargs, call, i));
      assert forall i :: 0 <= i < |params| ==> after[i] == bound[i].val;
      KeepCapturedUntouched(bound, after, Excluded(ignoreParams));
    }
  }

  /** Whatever the call does, the logged names are the ones collected
      before it. */
  lemma LoggedNamesAreCollectedNames(f: Callable, args: seq<Value>, kwargs: map<string, Value>,
                                     ignoreParams: Option<seq<string>>, call: Call)
    ensures KeySet(LoggedParams(f, args, kwargs, ignoreParams, call)) == KeySet(CollectParams(f, args, kwargs, ignoreParams))
  {
    if f.signature.Some? && Bindable(f.signature.value, args, kwargs) {
      var params := f.signature.value;
      var bound := Bind(params, args, kwargs).value;
      var after := seq(|params|, i requires 0 <= i < |params| => ArgAfter(params, args, kwargs, call, i));
      KeepCapturedKeys(bound, after, Excluded(ignoreParams));
    }
  }

  /** `@trace def f(xs): xs.append(1)` called as `f([])` logs
      `{"xs": [1]}`, although `_collect_params` returned `{"xs": []}`. */
  lemma AppendedListIsLoggedAfterCall()
    ensures var f := Callable("m", "f", None, Some([Param("xs", None)]));
            var call := Call(Ok(Null), [List([Int(1)])], map[]);
            && CollectParams(f, [List([])], map[], None) == [Member("xs", List([]))]
            && LoggedParams(f, [List([])], map[], None, call) == [Member("xs", List([Int(1)]))]
  {
    var params := [Param("xs", None)];
    var f := Callable("m", "f", None, Some(params));
    var call := Call(Ok(Null), [List([Int(1)])], map[]);
    assert Bind(params, [List([])], map[]).value == [Member("xs", List([]))] by {
      assert Bind(params, [List([])], map[]).value[0] == Member("xs", List([]));
    }
    assert ArgAfter(params, [List([])], map[], call, 0) == List([Int(1)]);
    assert Encodable(List([]));
  }

  /** One invocation of `trace(func, ignore_params=...)(*args, **kwargs)`.
      `callee` is the wrapped function, `start` and `end` the readings of
      the monotonic clock around the call. Returns what the wrapper returns
      or raises, and the events it logs. */
  function Trace(f: Callable, ignoreParams: Option<seq<string>>, host: Host, callee: Callee,
                 args: seq<Value>, kwargs: map<string, Value>, start: nat, end: nat): (r: (Outcome, seq<Event>))
    requires ValidCallable(f) && start <= end
    ensures r.0 == callee(args, kwargs).outcome
    ensures callee(args, kwargs).outcome.Ok? ==>
              && |r.1| == 1 && r.1[0].level == "INFO" && r.1[0].traceData.result == "success" && r.1[0].excInfo.None?
              && r.1[0].message == "trace complete: " + ResolveModuleName(f, host) + "." + f.qualname + " [success]"
    ensures callee(args, kwargs).outcome.Raised? ==>
              && |r.1| == 1 && r.1[0].level == "ERROR" && r.1[0].traceData.result == "error"
              && r.1[0].excInfo == Some(callee(args, kwargs).outcome.exc)
              && r.1[0].message == "trace complete: " + ResolveModuleName(f, host) + "." + f.qualname + " [error]"
    ensures callee(args, kwargs).outcome.Fatal? ==> r.1 == []
    ensures forall i :: 0 <= i < |r.1| ==>
              && r.1[i].channel == ResolveModuleName(f, host)
              && r.1[i].traceData.functionName == ResolveModuleName(f, host) + "." + f.qualname
              && r.1[i].traceData.params == LoggedParams(f, args, kwargs, ignoreParams, callee(args, kwargs))
              && r.1[i].traceData.duration == end - start
  {
    var realModule := ResolveModuleName(f, host);
    var qualifiedName := realModule + "." + f.qualname;
    var call := callee(args, kwargs);
    var params := LoggedParams(f, args, kwargs, ignoreParams, call);
    match call.outcome
    case Ok(_) =>
      var data := TraceData(qualifiedName, "success", end - start, params);
      (call.outcome, [Event(realModule, "INFO", "trace complete: " + qualifiedName + " [success]", data, None)])
    case Raised(e) =>
      var data := TraceData(qualifiedName, "error", end - start, params);
      (call.outcome, [Event(realModule, "ERROR", "trace complete: " + qualifiedName + " [error]", data, Some(e))])
    case Fatal(_) =>
      (call.outcome, [])
  }

  /** The logged parameters depend on the callee only through the state it
      leaves the arguments in: two callees that leave them alike log alike,
      however differently they end. */
  lemma ParamsDependOnlyOnArgumentState(f: Callable, ignoreParams: Option<seq<string>>, host: Host,
                                        callee1: Callee, callee2: Callee,
                                        args: seq<Value>, kwargs: map<string, Value>, start: nat, end: nat)
    requires ValidCallable(f) && start <= end
    requires !callee1(args, kwargs).outcome.Fatal? && !callee2(args, kwargs).outcome.Fatal?
    requires callee1(args, kwargs).argsAfter == callee2(args, kwargs).argsAfter
    requires callee1(args, kwargs).kwargsAfter == callee2(args, kwargs).kwargsAfter
    ensures Trace(f, ignoreParams, host, callee1, args, kwargs, start, end).1[0].traceData.params
            == Trace(f, ignoreParams, host, callee2, args, kwargs, start, end).1[0].traceData.params
  {
    var c1, c2 := callee1(args, kwargs), callee2(args, kwargs);
    if f.signature.Some? && Bindable(f.signature.value, args, kwargs) {
      var params := f.signature.value;
      assert forall i :: 0 <= i < |params| ==> ArgAfter(params, args, kwargs, c1, i) == ArgAfter(params, args, kwargs, c2, i);
      var a1 := seq(|params|, i requires 0 <= i < |params| => ArgAfter(params, args, kwargs, c1, i));
      var a2 := seq(|params|, i requires 0 <= i < |params| => ArgAfter(params, args, kwargs, c2, i));
      assert a1 == a2;
    }
  }

  /** `ignore_params` shapes the log only: what the caller gets back is the
      same for any list of ignored names, and the events differ at most in
      their logged parameters. */
  lemma IgnoreParamsNeverReachCallee(f: Callable, ignore1: Option<seq<string>>, ignore2: Option<seq<string>>,
                                     host: Host, callee: Callee,
                                     args: seq<Value>, kwargs: map<string, Value>, start: nat, end: nat)
    requires ValidCallable(f) && start <= end
    ensures Trace(f, ignore1, host, callee, args, kwargs, start, end).0
            == Trace(f, ignore2, host, callee, args, kwargs, start, end).0
    ensures var e1 := Trace(f, ignore1, host, callee, args, kwargs, start, end).1;
            var e2 := Trace(f, ignore2, host, callee, args, kwargs, start, end).1;
            && |e1| == |e2|
            && forall i :: 0 <= i < |e1| ==>
                 e1[i] == e2[i].(traceData := e2[i].traceData.(params := e1[i].traceData.params))
  {
  }
}
