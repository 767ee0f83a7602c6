/** `inspect.signature(func).bind(*args, **kwargs)` followed by
    `apply_defaults()`, over an explicit parameter table. Only
    positional-or-keyword parameters are modelled. */
module Binding {
  import opened Wrappers
  import opened Values

  /** One positional-or-keyword parameter and its declared default. */
  datatype Param = Param(name: string, default: Option<Value>)

  /** `name` is the name of some parameter. */
  predicate IsParam(params: seq<Param>, name: string) {
    exists i :: 0 <= i < |params| && params[i].name == name
  }

  /** The argument Python binds to parameter `i` when binding succeeds:
      positional first, then keyword, then the default. */
  function ArgFor(params: seq<Param>, args: seq<Value>, kwargs: map<string, Value>, i: nat): Value
    requires i < |params|
  {
    if i < |args| then args[i]
    else if params[i].name in kwargs then kwargs[params[i].name]
    else params[i].default.GetOr(Null)
  }

  /** The binding rules of `Signature.bind`: not too many positional
      arguments, no unexpected keyword, no parameter given both
      positionally and by keyword, and no required parameter left unset. */
  predicate Bindable(params: seq<Param>, args: seq<Value>, kwargs: map<string, Value>) {
    && |args| <= |params|
    && (forall k :: k in kwargs ==> IsParam(params, k))
    && (forall i :: 0 <= i < |args| ==> params[i].name !in kwargs)
    && (forall i :: |args| <= i < |params| ==> params[i].name in kwargs || params[i].default.Some?)
  }

  /** Walks the parameters in order, taking each one's value from the next
      positional argument, the keywords or the default. */
  function BindEach(params: seq<Param>, args: seq<Value>, kwargs: map<string, Value>): (r: Option<seq<Member>>)
    requires |args| <= |params|
    ensures r.Some? <==>
              && (forall i :: 0 <= i < |args| ==> params[i].name !in kwargs)
              && (forall i :: |args| <= i < |params| ==> params[i].name in kwargs || params[i].default.Some?)
    ensures r.Some? ==> |r.value| == |params|
    ensures r.Some? ==> forall i :: 0 <= i < |params| ==>
                          r.value[i] == Member(params[i].name, ArgFor(params, args, kwargs, i))
    decreases |params|
  {
    if |params| == 0 then Some([])
    else
      var p := params[0];
      var v :=
        if |args| > 0 then (if p.name in kwargs then None else Some(args[0]))
        else if p.name in kwargs then Some(kwargs[p.name])
        else p.default;
      var restArgs := if |args| > 0 then args[1..] else [];
      var rest := BindEach(params[1..], restArgs, kwargs);
      assert forall i :: 1 <= i < |params| ==> params[1..][i - 1] == params[i];
      assert forall i :: 1 <= i < |params| ==>
               ArgFor(params[1..], restArgs, kwargs, i - 1) == ArgFor(params, args, kwargs, i);
      match (v, rest)
      case (Some(x), Some(bs)) => Some([Member(p.name, x)] + bs)
      case _ => None
  }

  /** `sig.bind(*args, **kwargs); bound.apply_defaults(); bound.arguments`:
      the arguments by parameter, in signature order, or `None` where Python
      raises `TypeError`. */
  function Bind(params: seq<Param>, args: seq<Value>, kwargs: map<string, Value>): (r: Option<seq<Member>>)
    ensures r.Some? <==> Bindable(params, args, kwargs)
    ensures r.Some? ==> |r.value| == |params|
    ensures r.Some? ==> forall i :: 0 <= i < |params| ==>
                          r.value[i] == Member(params[i].name, ArgFor(params, args, kwargs, i))
  {
    if |args| > |params| then None
    else if exists k :: k in kwargs && !IsParam(params, k) then None
    else BindEach(params, args, kwargs)
  }

  /** The parameter names, as a set. */
  function ParamNames(params: seq<Param>): set<string> {
    set i | 0 <= i < |params| :: params[i].name
  }

  /** The names of a parameter dict, as a set. */
  function KeySet(members: seq<Member>): set<string> {
    set i | 0 <= i < |members| :: members[i].key
  }

  /** The dict comprehension both collectors apply to the bound arguments:
      `{name: safe_serialize(val) for name, val in bound if name not in ignore}`. */
  function KeepSerialized(bound: seq<Member>, ignore: set<string>): (r: seq<Member>)
    ensures |r| <= |bound|
    ensures forall i :: 0 <= i < |r| ==> r[i].key !in ignore && Encodable(r[i].val)
    ensures forall b :: b in bound && b.key !in ignore ==> Member(b.key, SafeSerialize(b.val)) in r
    ensures forall m :: m in r ==> exists b :: b in bound && m == Member(b.key, SafeSerialize(b.val))
    decreases |bound|
  {
    if |bound| == 0 then []
    else
      var b := bound[0];
      var rest := KeepSerialized(bound[1..], ignore);
      assert forall x :: x in bound ==> x == b || x in bound[1..];
      if b.key in ignore then rest else [Member(b.key, SafeSerialize(b.val))] + rest
  }

  /** The names of `[m] + rest`. */
  lemma KeySetCons(m: Member, rest: seq<Member>)
    ensures KeySet([m] + rest) == {m.key} + KeySet(rest)
  {
    var r := [m] + rest;
    forall k | k in KeySet(r) ensures k in {m.key} + KeySet(rest) {
      var i :| 0 <= i < |r| && r[i].key == k;
      if i > 0 { assert r[i] == rest[i - 1]; }
    }
    assert r[0].key == m.key;
    forall k | k in KeySet(rest) ensures k in KeySet(r) {
      var i :| 0 <= i < |rest| && rest[i].key == k;
      assert r[i + 1] == rest[i];
    }
  }

  /** The keys kept are exactly the bound names that are not ignored. */
  lemma {:induction false} KeepSerializedKeys(bound: seq<Member>, ignore: set<string>)
    ensures KeySet(KeepSerialized(bound, ignore)) == KeySet(bound) - ignore
    decreases |bound|
  {
    if |bound| > 0 {
      KeepSerializedKeys(bound[1..], ignore);
      var b := bound[0];
      assert bound == [b] + bound[1..];
      KeySetCons(b, bound[1..]);
      if b.key !in ignore {
        KeySetCons(Member(b.key, SafeSerialize(b.val)), KeepSerialized(bound[1..], ignore));
      }
    }
  }

  /** Bound arguments that are all kept and all survive `json.dumps` come
      through the comprehension unchanged. */
  lemma {:induction false} KeepSerializedKeepsEncodable(bound: seq<Member>, ignore: set<string>)
    requires forall i :: 0 <= i < |bound| ==> bound[i].key !in ignore && Encodable(bound[i].val)
    ensures KeepSerialized(bound, ignore) == bound
    decreases |bound|
  {
    if |bound| > 0 {
      var b, rest := bound[0], bound[1..];
      assert forall i :: 0 <= i < |rest| ==> rest[i].key !in ignore && Encodable(rest[i].val) by {
        forall i | 0 <= i < |rest| ensures rest[i].key !in ignore && Encodable(rest[i].val) {
          assert rest[i] == bound[i + 1];
        }
      }
      KeepSerializedKeepsEncodable(rest, ignore);
      KeptHead(b, rest, ignore);
      assert bound == [b] + rest;
    }
  }

  /** A kept, encodable head stays as it is. */
  lemma KeptHead(b: Member, rest: seq<Member>, ignore: set<string>)
    requires b.key !in ignore && Encodable(b.val)
    ensures KeepSerialized([b] + rest, ignore) == [b] + KeepSerialized(rest, ignore)
  {
    assert ([b] + rest)[1..] == rest;
    assert SafeSerialize(b.val) == b.val;
  }

  /** Adding a name that no bound argument has to the ignore set changes
      nothing. */
  lemma {:induction false} IgnoringAbsentNameIsHarmless(bound: seq<Member>, ignore: set<string>, x: string)
    requires x !in KeySet(bound)
    ensures KeepSerialized(bound, ignore + {x}) == KeepSerialized(bound, ignore)
    decreases |bound|
  {
    if |bound| > 0 {
      assert KeySet(bound[1..]) <= KeySet(bound) by {
        forall k | k in KeySet(bound[1..]) ensures k in KeySet(bound) {
          var i :| 0 <= i < |bound[1..]| && bound[1..][i].key == k;
          assert bound[i + 1].key == k;
        }
      }
      assert bound[0].key in KeySet(bound);
      IgnoringAbsentNameIsHarmless(bound[1..], ignore, x);
    }
  }

  /** Bound arguments carry exactly the parameter names. */
  lemma BoundKeysAreParamNames(params: seq<Param>, args: seq<Value>, kwargs: map<string, Value>)
    requires Bind(params, args, kwargs).Some?
    ensures KeySet(Bind(params, args, kwargs).value) == ParamNames(params)
  {
    var bound := Bind(params, args, kwargs).value;
    assert forall i :: 0 <= i < |params| ==> bound[i].key == params[i].name;
  }
}
