/** The parameter collection of `ma_logger/decorators.py` on the calls
    its tests make: defaults applied, keyword arguments bound by name,
    `self` skipped, an unbindable call, an opaque object replaced, and
    ignored names dropped. */
module DecoratorsExamples {
  import opened Wrappers
  import opened Values
  import opened Binding
  import opened Runtime
  import opened Decorators

  /** A test function `m.f` with the given parameters. */
  function TestFunction(params: seq<Param>): Callable {
    Callable("m", "f", None, Some(params))
  }

  /** Binding yields `result` when the arguments bind and `result`
      lists each parameter with the argument Python gives it. */
  lemma BindYields(params: seq<Param>, args: seq<Value>, kwargs: map<string, Value>, result: seq<Member>)
    requires Bindable(params, args, kwargs)
    requires |result| == |params|
    requires forall i :: 0 <= i < |params| ==> result[i] == Member(params[i].name, ArgFor(params, args, kwargs, i))
    ensures Bind(params, args, kwargs) == Some(result)
  {
    assert Bind(params, args, kwargs).value == result;
  }

  /** `greet()` logs the default: `{"name": "world"}`. */
  lemma CollectParamsAppliesDefault()
    ensures CollectParams(TestFunction([Param("name", Some(Str("world")))]), [], map[], None)
            == [Member("name", Str("world"))]
  {
    BindYields([Param("name", Some(Str("world")))], [], map[], [Member("name", Str("world"))]);
  }

  /** The parameters and arguments of `func(1, 2, c="custom")`. */
  const KeywordParams := [Param("a", None), Param("b", None), Param("c", Some(Str("default")))]
  const KeywordArgs := map["c" := Str("custom")]
  const KeywordBound := [Member("a", Int(1)), Member("b", Int(2)), Member("c", Str("custom"))]

  lemma KeywordCallBinds()
    ensures Bind(KeywordParams, [Int(1), Int(2)], KeywordArgs) == Some(KeywordBound)
  {
    var kw := KeywordArgs;
    assert IsParam(KeywordParams, "c") by { assert KeywordParams[2].name == "c"; }
    assert forall k :: k in kw ==> k == "c";
    assert ArgFor(KeywordParams, [Int(1), Int(2)], kw, 2) == Str("custom");
    BindYields(KeywordParams, [Int(1), Int(2)], kw, KeywordBound);
  }

  lemma KeywordCallKeepsAll()
    ensures KeepSerialized(KeywordBound, AutoSkipParams) == KeywordBound
  {
    assert SafeSerialize(Int(1)) == Int(1) && SafeSerialize(Int(2)) == Int(2);
    assert SafeSerialize(Str("custom")) == Str("custom");
    assert KeepSerialized(KeywordBound[2..], AutoSkipParams) == [KeywordBound[2]];
    assert KeepSerialized(KeywordBound[1..], AutoSkipParams) == KeywordBound[1..];
  }

  /** `func(1, 2, c="custom")` logs all three arguments, the keyword one
      replacing the default. */
  lemma CollectParamsBindsKeyword()
    ensures CollectParams(TestFunction(KeywordParams), [Int(1), Int(2)], KeywordArgs, None) == KeywordBound
  {
    assert CollectParams(TestFunction(KeywordParams), [Int(1), Int(2)], KeywordArgs, None)
           == KeepSerialized(KeywordBound, AutoSkipParams) by {
      KeywordCallBinds();
      assert Excluded(None) == AutoSkipParams;
    }
    KeywordCallKeepsAll();
  }

  /** `method(obj, 5)` drops `self`. */
  lemma CollectParamsSkipsSelf()
    ensures CollectParams(TestFunction([Param("self", None), Param("x", None)]), [Opaque("MyClass"), Int(5)], map[], None)
            == [Member("x", Int(5))]
  {
    BindYields([Param("self", None), Param("x", None)], [Opaque("MyClass"), Int(5)], map[],
               [Member("self", Opaque("MyClass")), Member("x", Int(5))]);
  }

  /** Too many positional arguments: `bind` raises and nothing is logged. */
  lemma CollectParamsRejectsExtraArgument()
    ensures CollectParams(TestFunction([Param("a", None)]), [Int(1), Int(2)], map[], None) == []
  {
  }

  /** Two bound arguments, neither excluded, are both kept, serialized. */
  lemma KeepsBothOfTwo(a: Member, b: Member, ignore: set<string>)
    requires a.key !in ignore && b.key !in ignore
    ensures KeepSerialized([a, b], ignore) == [Member(a.key, SafeSerialize(a.val)), Member(b.key, SafeSerialize(b.val))]
  {
    assert [a, b][1..] == [b];
  }

  /** `CollectParams` on a two-parameter test function whose arguments
      bind positionally, and which has no `self` or `cls`. */
  lemma CollectTwoPositional(a: string, b: string, x: Value, y: Value)
    requires a != b && a !in AutoSkipParams && b !in AutoSkipParams
    ensures CollectParams(TestFunction([Param(a, None), Param(b, None)]), [x, y], map[], None)
            == [Member(a, SafeSerialize(x)), Member(b, SafeSerialize(y))]
  {
    BindYields([Param(a, None), Param(b, None)], [x, y], map[], [Member(a, x), Member(b, y)]);
    assert Excluded(None) == AutoSkipParams;
    KeepsBothOfTwo(Member(a, x), Member(b, y), AutoSkipParams);
  }

  /** `process(HeavyObject(), "test")`: the object becomes its placeholder. */
  lemma CollectParamsReplacesObject()
    ensures CollectParams(TestFunction([Param("data", None), Param("label", None)]),
                          [Opaque("HeavyObject"), Str("test")], map[], None)
            == [Member("data", Str("<HeavyObject>")), Member("label", Str("test"))]
  {
    assert SafeSerialize(Opaque("HeavyObject")) == Str("<HeavyObject>") by {
      assert Placeholder(Opaque("HeavyObject")) == "<HeavyObject>";
    }
    assert SafeSerialize(Str("test")) == Str("test");
    CollectTwoPositional("data", "label", Opaque("HeavyObject"), Str("test"));
  }

  /** A call binding every parameter positionally, with no `self` or
      `cls` and only values `json.dumps` accepts, is logged as it was
      made. */
  lemma PositionalCallPassesThrough(params: seq<Param>, args: seq<Value>, bound: seq<Member>)
    requires |args| == |params| && |bound| == |params|
    requires forall i :: 0 <= i < |params| ==> params[i].name !in AutoSkipParams && Encodable(args[i])
    requires forall i :: 0 <= i < |params| ==> bound[i] == Member(params[i].name, args[i])
    ensures CollectParams(TestFunction(params), args, map[], None) == bound
  {
    BindYields(params, args, map[], bound);
    assert Excluded(None) == AutoSkipParams;
    KeepSerializedKeepsEncodable(bound, AutoSkipParams);
  }

  /** The call `func(42, 3.14, "hello", [1, 2], {"k": "v"})` and the
      parameters it is expected to log. */
  const PlainParams := [Param("a", None), Param("b", None), Param("c", None), Param("d", None), Param("e", None)]
  const PlainArgs := [Int(42), Float(3.14), Str("hello"), List([Int(1), Int(2)]), Dict([Member("k", Str("v"))])]
  const PlainBound := [Member("a", Int(42)), Member("b", Float(3.14)), Member("c", Str("hello")),
                       Member("d", List([Int(1), Int(2)])), Member("e", Dict([Member("k", Str("v"))]))]

  /** Integers, floats, strings, lists and dicts pass through unchanged. */
  lemma CollectParamsKeepsSerializable()
    ensures CollectParams(TestFunction(PlainParams), PlainArgs, map[], None) == PlainBound
  {
    PlainArgsArePassable();
    PositionalCallPassesThrough(PlainParams, PlainArgs, PlainBound);
  }

  /** Every argument of that call is kept, survives `json.dumps`, and
      lands under its parameter's name. */
  lemma PlainArgsArePassable()
    ensures forall i :: 0 <= i < |PlainParams| ==> PlainParams[i].name !in AutoSkipParams && Encodable(PlainArgs[i])
    ensures forall i :: 0 <= i < |PlainParams| ==> PlainBound[i] == Member(PlainParams[i].name, PlainArgs[i])
  {
    var d := List([Int(1), Int(2)]);
    var e := Dict([Member("k", Str("v"))]);
    assert Encodable(d) by { assert d.items[0] == Int(1) && d.items[1] == Int(2); }
    assert Encodable(e) by { assert e.members[0].val == Str("v"); }
    assert PlainArgs[3] == d && PlainArgs[4] == e;
    assert forall i :: 0 <= i < |PlainParams| ==> PlainBound[i] == Member(PlainParams[i].name, PlainArgs[i]);
  }

  /** `login("admin", "secret123")` with `ignore_params=["password"]`. */
  lemma CollectParamsDropsIgnored()
    ensures CollectParams(TestFunction([Param("user", None), Param("password", None)]),
                          [Str("admin"), Str("secret123")], map[], Some(["password"]))
            == [Member("user", Str("admin"))]
  {
    BindYields([Param("user", None), Param("password", None)], [Str("admin"), Str("secret123")], map[],
               [Member("user", Str("admin")), Member("password", Str("secret123"))]);
    assert "password" in Excluded(Some(["password"]));
    assert "user" !in Excluded(Some(["password"]));
  }
}
