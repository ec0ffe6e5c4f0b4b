/**
 * `serialize`/`deserialize` of src/bot/lib/util.js and src/lib/util.js, over the JSON tree
 * instead of JSON text. Serializing replaces every Error by a plain object tagged
 * `__type: 'Error'`; deserializing rebuilds tagged objects as Errors.
 */
module Serial {
  import opened Wrappers
  import opened Values

  /** The marker key and the tag an Error gets. */
  const TypeKey := "__type"
  const ErrorTag := "Error"

  /** `JSON.parse` input: text holding the document `doc`, text that is not JSON, or a non-string. */
  datatype Wire = Text(doc: Json) | Malformed | NotString(v: Value)

  /** The entries of a property map whose value survives `JSON.stringify` (undefined ones are dropped). */
  function Present(m: map<string, Option<Json>>): (r: map<string, Json>)
    ensures forall k :: k in r <==> k in m && m[k].Some?
    ensures forall k :: k in r ==> Some(r[k]) == m[k]
  {
    map k | k in m && m[k].Some? :: m[k].value
  }

  /**
   * `JSON.stringify(value, replacer)` with the Error-tagging replacer, the same in both files.
   * `None` is `undefined`: the result for `undefined` at the top, and a dropped property below.
   */
  function Serialize(v: Value): (r: Option<Json>)
    ensures r.None? <==> v.Undefined?
    decreases v, 1
  {
    match v
    case Undefined => None
    case Null => Some(JNull)
    case Bool(b) => Some(JBool(b))
    case Num(n) => Some(JNum(n))
    case Str(s) => Some(JStr(s))
    case Arr(items) =>
      Some(JArr(seq(|items|, i requires 0 <= i < |items| => Serialize(items[i]).GetOr(JNull))))
    case Obj(props) => Some(JObj(Present(ObjFields(v))))
    case Error(_, _, _, _, _) => Some(JObj(Present(ErrorFields(v))))
  }

  /** The serialized properties of an object, before the undefined ones are dropped. */
  function ObjFields(v: Value): map<string, Option<Json>>
    requires v.Obj?
    decreases v, 0
  {
    map k | k in v.props :: Serialize(v.props[k])
  }

  /** The serialized properties of an Error, as
      `Object.assign({name, message, stack, cause, __type: 'Error'}, error)` lays them out. */
  function ErrorFields(v: Value): map<string, Option<Json>>
    requires v.Error?
    decreases v, 0
  {
    var tagged := map["name" := Serialize(v.name), "message" := Serialize(v.message),
                      "stack" := Serialize(v.stack), "cause" := Serialize(v.cause),
                      TypeKey := Some(JStr(ErrorTag))];
    tagged + map k | k in v.own :: Serialize(v.own[k])
  }

  /** `Object.assign(new Error(undefined, 'cause' in o ? {cause} : {}), o)`. */
  function MakeError(o: map<string, Value>): (r: Value)
    ensures r.Error?
    ensures "name" in o ==> r.name == o["name"]
    ensures "message" in o ==> r.message == o["message"]
  {
    Error(if "name" in o then o["name"] else Str("Error"),
          if "message" in o then o["message"] else Str(""),
          if "stack" in o then o["stack"] else Undefined,
          if "cause" in o then o["cause"] else Undefined,
          o - {"name", "message", "stack", "cause"})
  }

  /** The reviver of src/bot/lib/util.js, applied bottom-up as `JSON.parse` does:
      any truthy `__type` is removed, and `'Error'` rebuilds an Error. */
  function Revive(j: Json): Value
    decreases j, 1
  {
    match j
    case JNull => Null
    case JBool(b) => Bool(b)
    case JNum(n) => Num(n)
    case JStr(s) => Str(s)
    case JArr(items) => Arr(seq(|items|, i requires 0 <= i < |items| => Revive(items[i])))
    case JObj(_) => Unmark(RevivedFields(j))
  }

  /** The properties of an object, each revived, before its marker is looked at. */
  function RevivedFields(j: Json): map<string, Value>
    requires j.JObj?
    decreases j, 0
  {
    map k | k in j.props :: Revive(j.props[k])
  }

  /** The reviver's treatment of an object: any truthy `__type` is removed, and `'Error'` rebuilds
      an Error. */
  function Unmark(o: map<string, Value>): Value {
    if TypeKey in o && Truthy(o[TypeKey]) then
      var rest := o - {TypeKey};
      if o[TypeKey] == Str(ErrorTag) then MakeError(rest) else Obj(rest)
    else Obj(o)
  }

  /** The reviver of src/lib/util.js: only `__type === 'Error'` is acted on. */
  function ReviveLegacy(j: Json): Value
    decreases j, 1
  {
    match j
    case JNull => Null
    case JBool(b) => Bool(b)
    case JNum(n) => Num(n)
    case JStr(s) => Str(s)
    case JArr(items) => Arr(seq(|items|, i requires 0 <= i < |items| => ReviveLegacy(items[i])))
    case JObj(_) => UnmarkLegacy(RevivedFieldsLegacy(j))
  }

  function RevivedFieldsLegacy(j: Json): map<string, Value>
    requires j.JObj?
    decreases j, 0
  {
    map k | k in j.props :: ReviveLegacy(j.props[k])
  }

  function UnmarkLegacy(o: map<string, Value>): Value {
    if TypeKey in o && o[TypeKey] == Str(ErrorTag) then MakeError(o - {TypeKey}) else Obj(o)
  }

  /** `deserialize` of src/bot/lib/util.js: undefined for a non-string, SyntaxError for bad text. */
  function Deserialize(w: Wire): (r: Result<Value>)
    ensures w.NotString? ==> r == Ok(Undefined)
    ensures w.Malformed? ==> r.Err?
  {
    match w
    case NotString(_) => Ok(Undefined)
    case Malformed => Err(SyntaxError, "Unexpected token")
    case Text(doc) => Ok(Revive(doc))
  }

  /** `deserialize` of src/lib/util.js. */
  function DeserializeLegacy(w: Wire): (r: Result<Value>)
    ensures w.NotString? ==> r == Ok(Undefined)
    ensures w.Malformed? ==> r.Err?
  {
    match w
    case NotString(_) => Ok(Undefined)
    case Malformed => Err(SyntaxError, "Unexpected token")
    case Text(doc) => Ok(ReviveLegacy(doc))
  }

  /** What `serialize` sends for a value: text, or `undefined` (not a string) at the top. */
  function ToWire(v: Value): Wire {
    match Serialize(v)
    case Some(doc) => Text(doc)
    case None => NotString(Undefined)
  }

  /** An Error whose own enumerable properties do not shadow the tagged fields. */
  predicate OrdinaryError(e: Value) {
    e.Error? && e.name.Str? && e.message.Str? &&
    forall k :: k in e.own ==> k != "name" && k != "message" && k != "stack" && k != "cause" && k != TypeKey
  }

  /** Data that survives JSON unchanged: no undefined, no Error, no `__type` key. */
  predicate Plain(v: Value) {
    match v
    case Undefined => false
    case Error(_, _, _, _, _) => false
    case Arr(items) => forall i :: 0 <= i < |items| ==> Plain(items[i])
    case Obj(props) => TypeKey !in props && forall k :: k in props ==> Plain(props[k])
    case _ => true
  }

  /** The tagged object an Error becomes, as seen by the reviver. */
  lemma SerializedErrorShape(e: Value)
    requires OrdinaryError(e)
    ensures Serialize(e).Some? && Serialize(e).value.JObj?
    ensures var p := Serialize(e).value.props;
      TypeKey in p && p[TypeKey] == JStr(ErrorTag) &&
      "name" in p && p["name"] == JStr(e.name.s) &&
      "message" in p && p["message"] == JStr(e.message.s) &&
      (e.stack.Str? ==> "stack" in p && p["stack"] == JStr(e.stack.s))
  {
    var all := ErrorFields(e);
    assert Serialize(e) == Some(JObj(Present(all)));
    assert all[TypeKey] == Some(JStr(ErrorTag));
    assert Serialize(e.name) == Some(JStr(e.name.s)) && Serialize(e.message) == Some(JStr(e.message.s));
    assert all["name"] == Serialize(e.name) && all["message"] == Serialize(e.message);
    assert all["stack"] == Serialize(e.stack);
    if e.stack.Str? {
      assert Serialize(e.stack) == Some(JStr(e.stack.s));
    }
  }

  /** For an Error, `deserialize(serialize(e))` is an Error with the same name, message and stack. */
  lemma ErrorRoundTrip(e: Value)
    requires OrdinaryError(e)
    ensures Deserialize(ToWire(e)).Ok?
    ensures var r := Deserialize(ToWire(e)).value;
      r.Error? && r.name == e.name && r.message == e.message && (e.stack.Str? ==> r.stack == e.stack)
  {
    SerializedErrorShape(e);
    var j := Serialize(e).value;
    var o := RevivedFields(j);
    assert o[TypeKey] == Revive(JStr(ErrorTag)) == Str(ErrorTag);
    assert o["name"] == Revive(JStr(e.name.s)) == e.name;
    assert o["message"] == Revive(JStr(e.message.s)) == e.message;
    if e.stack.Str? {
      assert o["stack"] == Revive(JStr(e.stack.s)) == e.stack;
    }
    assert Revive(j) == Unmark(o) == MakeError(o - {TypeKey});
  }

  /** The same round trip through the older pair of functions. */
  lemma ErrorRoundTripLegacy(e: Value)
    requires OrdinaryError(e)
    ensures DeserializeLegacy(ToWire(e)).Ok?
    ensures var r := DeserializeLegacy(ToWire(e)).value;
      r.Error? && r.name == e.name && r.message == e.message && (e.stack.Str? ==> r.stack == e.stack)
  {
    SerializedErrorShape(e);
    var j := Serialize(e).value;
    var o := RevivedFieldsLegacy(j);
    assert o[TypeKey] == ReviveLegacy(JStr(ErrorTag)) == Str(ErrorTag);
    assert o["name"] == ReviveLegacy(JStr(e.name.s)) == e.name;
    assert o["message"] == ReviveLegacy(JStr(e.message.s)) == e.message;
    if e.stack.Str? {
      assert o["stack"] == ReviveLegacy(JStr(e.stack.s)) == e.stack;
    }
    assert ReviveLegacy(j) == UnmarkLegacy(o) == MakeError(o - {TypeKey});
  }

  /** Plain data comes back unchanged. */
  lemma {:induction false} PlainRoundTrip(v: Value)
    requires Plain(v)
    ensures Serialize(v).Some? && Revive(Serialize(v).value) == v
  {
    match v
    case Arr(items) =>
      var js := Serialize(v).value.items;
      forall i | 0 <= i < |items| ensures Revive(js[i]) == items[i] {
        PlainRoundTrip(items[i]);
      }
    case Obj(props) =>
      var p := Serialize(v).value.props;
      forall k | k in props ensures k in p && Revive(p[k]) == props[k] {
        assert ObjFields(v)[k] == Serialize(props[k]);
        PlainRoundTrip(props[k]);
      }
      assert ObjFields(v).Keys == props.Keys;
      assert p.Keys == props.Keys;
      var o := RevivedFields(Serialize(v).value);
      assert o == props;
      assert Revive(Serialize(v).value) == Unmark(o);
    case _ =>
  }

  /** The older reviver also returns plain data unchanged. */
  lemma {:induction false} PlainRoundTripLegacy(v: Value)
    requires Plain(v)
    ensures Serialize(v).Some? && ReviveLegacy(Serialize(v).value) == v
  {
    match v
    case Arr(items) =>
      var js := Serialize(v).value.items;
      forall i | 0 <= i < |items| ensures ReviveLegacy(js[i]) == items[i] {
        PlainRoundTripLegacy(items[i]);
      }
    case Obj(props) =>
      var p := Serialize(v).value.props;
      forall k | k in props ensures k in p && ReviveLegacy(p[k]) == props[k] {
        assert ObjFields(v)[k] == Serialize(props[k]);
        PlainRoundTripLegacy(props[k]);
      }
      assert ObjFields(v).Keys == props.Keys;
      assert p.Keys == props.Keys;
      var o := RevivedFieldsLegacy(Serialize(v).value);
      assert o == props;
      assert ReviveLegacy(Serialize(v).value) == UnmarkLegacy(o);
    case _ =>
  }

  /** Where the two versions differ: a truthy `__type` other than 'Error' is removed by the
      newer reviver and kept by the older one. */
  lemma ForeignMarker(tag: string)
    requires tag != "" && tag != ErrorTag
    ensures Revive(JObj(map[TypeKey := JStr(tag)])) == Obj(map[])
    ensures ReviveLegacy(JObj(map[TypeKey := JStr(tag)])) == Obj(map[TypeKey := Str(tag)])
  {
    var m := map[TypeKey := JStr(tag)];
    assert RevivedFields(JObj(m)) == map[TypeKey := Str(tag)];
    assert RevivedFieldsLegacy(JObj(m)) == map[TypeKey := Str(tag)];
    assert map[TypeKey := Str(tag)] - {TypeKey} == map[];
  }
}
