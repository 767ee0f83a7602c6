/** Python values as `json.dumps` sees them, a token-level model of
    `json.dumps`/`json.loads`, and the safe serializer that both
    `safe_serialize_value` (utils) and `_safe_serialize_value` (decorators)
    implement with the same three lines. */
module Values {
  import opened Wrappers

  /** One `key: value` entry of a Python dict; a dict is a sequence of them
      in insertion order. A Python dict never repeats a key; the model does
      not need that, and every property stated here holds with or without
      repeats. */
  datatype Member = Member(key: string, val: Value)

  /** A Python value of one of the exact built-in types `json.dumps`
      accepts, or `Opaque`: an object it refuses (bytes, a set, an instance
      of a user class that derives from none of the accepted types, ...),
      named by its runtime type. Subclasses of the accepted types, such as
      `OrderedDict` or an `IntEnum`, are not modelled. */
  datatype Value =
    | Null
    | Bool(b: bool)
    | Int(i: int)
    | Float(f: real)
    | Str(s: string)
    | List(items: seq<Value>)
    | Dict(members: seq<Member>)
    | Opaque(typeName: string)

  /** `type(v).__name__` */
  function TypeName(v: Value): string {
    match v
    case Null => "NoneType"
    case Bool(_) => "bool"
    case Int(_) => "int"
    case Float(_) => "float"
    case Str(_) => "str"
    case List(_) => "list"
    case Dict(_) => "dict"
    case Opaque(t) => t
  }

  /** The `"<TypeName>"` placeholder that replaces a value `json.dumps` refuses. */
  function Placeholder(v: Value): string {
    "<" + TypeName(v) + ">"
  }

  /** `v` holds no opaque leaf, at any depth. */
  predicate Encodable(v: Value) {
    match v
    case Opaque(_) => false
    case List(items) => forall i :: 0 <= i < |items| ==> Encodable(items[i])
    case Dict(members) => forall i :: 0 <= i < |members| ==> Encodable(members[i].val)
    case _ => true
  }

  /** The lexical items of JSON text; the character-level rendering is not
      modelled. */
  datatype Token =
    | TNull
    | TBool(b: bool)
    | TInt(i: int)
    | TFloat(f: real)
    | TStr(s: string)
    | TBeginList
    | TEndList
    | TBeginDict
    | TKey(k: string)
    | TEndDict

  /** `json.dumps`: the token stream of `v`, or `None` where Python raises
      `TypeError` on an object it cannot encode. */
  function Dumps(v: Value): Option<seq<Token>> {
    match v
    case Null => Some([TNull])
    case Bool(b) => Some([TBool(b)])
    case Int(i) => Some([TInt(i)])
    case Float(f) => Some([TFloat(f)])
    case Str(s) => Some([TStr(s)])
    case List(items) =>
      (match DumpsItems(items)
       case None => None
       case Some(t) => Some([TBeginList] + t + [TEndList]))
    case Dict(members) =>
      (match DumpsMembers(members)
       case None => None
       case Some(t) => Some([TBeginDict] + t + [TEndDict]))
    case Opaque(_) => None
  }

  function DumpsItems(items: seq<Value>): Option<seq<Token>> {
    if |items| == 0 then Some([])
    else match (Dumps(items[0]), DumpsItems(items[1..]))
      case (Some(t), Some(ts)) => Some(t + ts)
      case _ => None
  }

  function DumpsMembers(members: seq<Member>): Option<seq<Token>> {
    if |members| == 0 then Some([])
    else match (Dumps(members[0].val), DumpsMembers(members[1..]))
      case (Some(t), Some(ts)) => Some([TKey(members[0].key)] + t + ts)
      case _ => None
  }

  /** `json.loads`, at the level of tokens: one value and nothing after it. */
  function Loads(toks: seq<Token>): Option<Value> {
    match ParseValue(toks)
    case Some((v, rest)) => if |rest| == 0 then Some(v) else None
    case None => None
  }

  /** Parses one value off the front of `toks`, returning it and what is left. */
  function ParseValue(toks: seq<Token>): (r: Option<(Value, seq<Token>)>)
    ensures r.Some? ==> |r.value.1| < |toks|
    decreases |toks|, 0
  {
    if |toks| == 0 then None
    else match toks[0]
      case TNull => Some((Null, toks[1..]))
      case TBool(b) => Some((Bool(b), toks[1..]))
      case TInt(i) => Some((Int(i), toks[1..]))
      case TFloat(f) => Some((Float(f), toks[1..]))
      case TStr(s) => Some((Str(s), toks[1..]))
      case TBeginList =>
        (match ParseItems(toks[1..])
         case Some((items, rest)) => Some((List(items), rest))
         case None => None)
      case TBeginDict =>
        (match ParseMembers(toks[1..])
         case Some((members, rest)) => Some((Dict(members), rest))
         case None => None)
      case _ => None
  }

  /** Parses list elements up to and including the closing `TEndList`. */
  function ParseItems(toks: seq<Token>): (r: Option<(seq<Value>, seq<Token>)>)
    ensures r.Some? ==> |r.value.1| < |toks|
    decreases |toks|, 1
  {
    if |toks| == 0 then None
    else if toks[0] == TEndList then Some(([], toks[1..]))
    else match ParseValue(toks)
      case None => None
      case Some((v, rest)) =>
        (match ParseItems(rest)
         case None => None
         case Some((vs, rest')) => Some(([v] + vs, rest')))
  }

  /** Parses dict entries up to and including the closing `TEndDict`. */
  function ParseMembers(toks: seq<Token>): (r: Option<(seq<Member>, seq<Token>)>)
    ensures r.Some? ==> |r.value.1| < |toks|
    decreases |toks|, 1
  {
    if |toks| == 0 then None
    else match toks[0]
      case TEndDict => Some(([], toks[1..]))
      case TKey(k) =>
        (match ParseValue(toks[1..])
         case None => None
         case Some((v, rest)) =>
           (match ParseMembers(rest)
            case None => None
            case Some((ms, rest')) => Some(([Member(k, v)] + ms, rest'))))
      case _ => None
  }

  /** `json.dumps` succeeds exactly on the values with no opaque leaf. */
  lemma {:induction false} DumpsSucceedsIffEncodable(v: Value)
    ensures Dumps(v).Some? <==> Encodable(v)
    decreases v
  {
    match v
    case List(items) => ItemsDumpSucceedsIffEncodable(items);
    case Dict(members) => MembersDumpSucceedsIffEncodable(members);
    case _ =>
  }

  lemma {:induction false} ItemsDumpSucceedsIffEncodable(items: seq<Value>)
    ensures DumpsItems(items).Some? <==> forall i :: 0 <= i < |items| ==> Encodable(items[i])
    decreases items
  {
    if |items| > 0 {
      DumpsSucceedsIffEncodable(items[0]);
      ItemsDumpSucceedsIffEncodable(items[1..]);
      assert forall i :: 1 <= i < |items| ==> items[i] == items[1..][i - 1];
    }
  }

  lemma {:induction false} MembersDumpSucceedsIffEncodable(members: seq<Member>)
    ensures DumpsMembers(members).Some? <==> forall i :: 0 <= i < |members| ==> Encodable(members[i].val)
    decreases members
  {
    if |members| > 0 {
      DumpsSucceedsIffEncodable(members[0].val);
      MembersDumpSucceedsIffEncodable(members[1..]);
      assert forall i :: 1 <= i < |members| ==> members[i] == members[1..][i - 1];
    }
  }

  /** Every encodable value survives `json.loads(json.dumps(v))` unchanged,
      whatever tokens follow it. */
  lemma {:induction false} RoundTripValue(v: Value, rest: seq<Token>)
    requires Encodable(v)
    ensures Dumps(v).Some?
    ensures ParseValue(Dumps(v).value + rest) == Some((v, rest))
    decreases v
  {
    DumpsSucceedsIffEncodable(v);
    match v
    case List(items) =>
      RoundTripItems(items, rest);
      var t := DumpsItems(items).value;
      assert Dumps(v).value + rest == [TBeginList] + (t + [TEndList] + rest);
    case Dict(members) =>
      RoundTripMembers(members, rest);
      var t := DumpsMembers(members).value;
      assert Dumps(v).value + rest == [TBeginDict] + (t + [TEndDict] + rest);
    case _ =>
      assert (Dumps(v).value + rest)[1..] == rest;
  }

  lemma {:induction false} RoundTripItems(items: seq<Value>, rest: seq<Token>)
    requires forall i :: 0 <= i < |items| ==> Encodable(items[i])
    ensures DumpsItems(items).Some?
    ensures ParseItems(DumpsItems(items).value + [TEndList] + rest) == Some((items, rest))
    decreases items
  {
    ItemsDumpSucceedsIffEncodable(items);
    if |items| == 0 {
      assert ([] + [TEndList] + rest)[1..] == rest;
    } else {
      var t := Dumps(items[0]).value;
      var ts := DumpsItems(items[1..]).value;
      var after := ts + [TEndList] + rest;
      RoundTripValue(items[0], after);
      RoundTripItems(items[1..], rest);
      assert DumpsItems(items).value + [TEndList] + rest == t + after;
      assert t[0] != TEndList;
      assert [items[0]] + items[1..] == items;
    }
  }

  lemma {:induction false} RoundTripMembers(members: seq<Member>, rest: seq<Token>)
    requires forall i :: 0 <= i < |members| ==> Encodable(members[i].val)
    ensures DumpsMembers(members).Some?
    ensures ParseMembers(DumpsMembers(members).value + [TEndDict] + rest) == Some((members, rest))
    decreases members
  {
    MembersDumpSucceedsIffEncodable(members);
    if |members| == 0 {
      assert ([] + [TEndDict] + rest)[1..] == rest;
    } else {
      var m := members[0];
      var t := Dumps(m.val).value;
      var ts := DumpsMembers(members[1..]).value;
      var after := ts + [TEndDict] + rest;
      RoundTripValue(m.val, after);
      RoundTripMembers(members[1..], rest);
      var toks := DumpsMembers(members).value + [TEndDict] + rest;
      assert toks[0] == TKey(m.key) && toks[1..] == t + after by {
        assert DumpsMembers(members).value == [TKey(m.key)] + t + ts;
        assert toks == [TKey(m.key)] + (t + after);
      }
      assert ParseValue(toks[1..]) == Some((m.val, after));
      assert ParseMembers(after) == Some((members[1..], rest));
      assert [Member(m.key, m.val)] + members[1..] == members;
    }
  }

  /** `safe_serialize_value` / `_safe_serialize_value`: try `json.dumps`;
      return the value itself when it succeeds and its `"<TypeName>"`
      placeholder when it raises. A container with any opaque leaf is
      replaced as a whole. */
  function SafeSerialize(v: Value): (r: Value)
    ensures Encodable(r)
    ensures r == v <==> Encodable(v)
    ensures !Encodable(v) ==> r == Str(Placeholder(v))
  {
    DumpsSucceedsIffEncodable(v);
    if Dumps(v).Some? then v else Str(Placeholder(v))
  }

  /** Whatever `SafeSerialize` returns survives a JSON round trip. */
  lemma SafeSerializeRoundTrips(v: Value)
    ensures Dumps(SafeSerialize(v)).Some?
    ensures Loads(Dumps(SafeSerialize(v)).value) == Some(SafeSerialize(v))
  {
    var r := SafeSerialize(v);
    RoundTripValue(r, []);
    assert Dumps(r).value + [] == Dumps(r).value;
  }
}
