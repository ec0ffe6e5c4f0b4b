/**
 * The correlation-id registry of `Bot` in src/bot/bot.js: `createId`, `useId`, the expiry timer,
 * `#onMessage`, `send` and `eval`. The callers' data objects are numbered holders (the registry
 * writes `id` and the timer handle into them); timers are numbered, and when one fires is an
 * input (`Expire`); the calls of `resolve`/`reject` are recorded in `settled`, and the messages
 * handed to `process.send` in `sent`.
 */
module Correlation {
  import opened Wrappers
  import opened Values
  import Strings
  import Serial

  /** A caller's data object as the registry sees it: its `id`, whether it carries `resolve` and
      `reject`, and the timer handle stored on it. */
  datatype Holder = Holder(id: Option<string>, canResolve: bool, canReject: bool, timer: Option<nat>)

  /** A call of a holder's `resolve` or `reject`. */
  datatype Settlement = Resolved(holder: nat, value: Value) | Rejected(holder: nat, reason: Value)

  /** `new Error('Timeout')`. */
  const TimeoutError: Value := Error(Str("Error"), Str("Timeout"), Undefined, Undefined, map[])

  /** What `useId` is given: an id, an object (an interaction) with or without a string
      `customId`, or anything else, which is never a key of the map. */
  datatype Key = Text(s: string) | Carrier(customId: Option<string>) | Other

  /** The map key `useId` looks up: `id?.customId ?? id` for an object. */
  function Lookup(k: Key): Option<string> {
    match k
    case Text(s) => Some(s)
    case Carrier(c) => c
    case Other => None
  }

  /** The key a received `message.id` makes. */
  function KeyOf(v: Value): Key {
    match v
    case Str(s) => Text(s)
    case Obj(p) => if "customId" in p && p["customId"].Str? then Carrier(Some(p["customId"].s)) else Other
    case _ => Other
  }

  /** `o[k]` of a plain object. */
  function Get(p: map<string, Value>, k: string): Value {
    if k in p then p[k] else Undefined
  }

  /** Ids the counter hands out are all different. */
  lemma CounterIdsDiffer(a: nat, b: nat)
    requires a != b
    ensures Strings.NatToString(a) != Strings.NatToString(b)
  {
    Strings.NatToStringValue(a);
    Strings.NatToStringValue(b);
  }

  // ---------------------------------------------------------------- the registry state

  /** `#id`, `#ids`, the data objects, the armed timers (handle to holder), and the records of
      settlements and sent messages. */
  datatype State = State(counter: nat, ids: map<string, nat>, holders: map<nat, Holder>,
                         armed: map<nat, nat>, nextTimer: nat, nextHolder: nat,
                         settled: seq<Settlement>, sent: seq<Option<Json>>)

  const Initial := State(0, map[], map[], map[], 0, 0, [], [])

  /** Every id and every armed timer refers to a known data object. */
  ghost predicate Consistent(st: State) {
    (forall id :: id in st.ids ==> st.ids[id] in st.holders) &&
    (forall t :: t in st.armed ==> t < st.nextTimer && st.armed[t] in st.holders) &&
    (forall h :: h in st.holders ==> h < st.nextHolder)
  }

  /** A new data object of the caller's. */
  function HoldSpec(st: State, id: Option<string>, canResolve: bool, canReject: bool): (r: (nat, State))
    requires Consistent(st)
    ensures Consistent(r.1) && r.0 !in st.holders && r.0 in r.1.holders
    ensures r.1 == st.(holders := st.holders[r.0 := Holder(id, canResolve, canReject, None)], nextHolder := r.1.nextHolder)
  {
    (st.nextHolder, st.(holders := st.holders[st.nextHolder := Holder(id, canResolve, canReject, None)],
                        nextHolder := st.nextHolder + 1))
  }

  /**
   * `createId(data)`: `data.id` is taken from the counter, which then advances, only when it is
   * unset; the entry is stored (replacing any entry with that id) and a new timer is armed
   * whose handle is written into the data object.
   */
  function CreateSpec(st: State, h: nat): (r: (string, State))
    requires Consistent(st) && h in st.holders
    ensures Consistent(r.1) && r.1.holders.Keys == st.holders.Keys
    ensures r.1.ids == st.ids[r.0 := h] && r.1.holders[h].id == Some(r.0)
    ensures st.holders[h].id.Some? ==> r.0 == st.holders[h].id.value && r.1.counter == st.counter
    ensures st.holders[h].id.None? ==> r.0 == Strings.NatToString(st.counter) && r.1.counter == st.counter + 1
    ensures r.1.armed == st.armed[st.nextTimer := h] && r.1.holders[h].timer == Some(st.nextTimer)
    ensures r.1.settled == st.settled && r.1.sent == st.sent && r.1.nextHolder == st.nextHolder
  {
    var d := st.holders[h];
    var id := if d.id.Some? then d.id.value else Strings.NatToString(st.counter);
    var counter := if d.id.Some? then st.counter else st.counter + 1;
    (id, st.(counter := counter, ids := st.ids[id := h], armed := st.armed[st.nextTimer := h],
             nextTimer := st.nextTimer + 1,
             holders := st.holders[h := d.(id := Some(id), timer := Some(st.nextTimer))]))
  }

  /**
   * `useId(id)`: the stored data, or nothing. A present entry is deleted and the timer whose
   * handle its data object holds is cleared.
   */
  function UseSpec(st: State, k: Key): (r: (Option<nat>, State))
    requires Consistent(st)
    ensures Consistent(r.1) && r.1.armed.Keys <= st.armed.Keys && r.1.holders.Keys == st.holders.Keys
    ensures r.0.Some? <==> Lookup(k).Some? && Lookup(k).value in st.ids
    ensures r.0.None? ==> r.1 == st
    ensures r.0.Some? ==> r.0.value == st.ids[Lookup(k).value] && r.1.ids == st.ids - {Lookup(k).value}
    ensures r.0.Some? ==> (r.1.holders[r.0.value].timer.None? &&
      (st.holders[r.0.value].timer.Some? ==> st.holders[r.0.value].timer.value !in r.1.armed))
    ensures r.1.settled == st.settled && r.1.sent == st.sent && r.1.counter == st.counter
  {
    var key := Lookup(k);
    if key.None? || key.value !in st.ids then (None, st)
    else
      var h := st.ids[key.value];
      var d := st.holders[h];
      var armed := if d.timer.Some? then st.armed - {d.timer.value} else st.armed;
      (Some(h), st.(ids := st.ids - {key.value}, armed := armed, holders := st.holders[h := d.(timer := None)]))
  }

  /**
   * Timer `t` fires: the handle is dropped from its data object, the id the object now holds is
   * deleted from the map, and `reject`, if present, gets `Error('Timeout')`. A cleared or
   * already fired timer does nothing.
   */
  function ExpireSpec(st: State, t: nat): (r: State)
    requires Consistent(st)
    ensures Consistent(r) && t !in r.armed
    ensures t !in st.armed ==> r == st
    ensures t in st.armed ==> var h := st.armed[t]; var d := st.holders[h];
      (d.id.Some? ==> r.ids == st.ids - {d.id.value}) &&
      r.settled == st.settled + (if d.canReject then [Rejected(h, TimeoutError)] else [])
    ensures r.holders.Keys == st.holders.Keys && r.counter == st.counter && r.sent == st.sent
  {
    if t !in st.armed then st
    else
      var h := st.armed[t];
      var d := st.holders[h];
      var ids := if d.id.Some? then st.ids - {d.id.value} else st.ids;
      var settled := if d.canReject then st.settled + [Rejected(h, TimeoutError)] else st.settled;
      st.(armed := st.armed - {t}, holders := st.holders[h := d.(timer := None)], ids := ids, settled := settled)
  }

  /** `data?.reject?.(reason)` or `data?.resolve?.(value)`. */
  function Settle(st: State, data: Option<nat>, isError: bool, v: Value): (r: State)
    requires data.Some? ==> data.value in st.holders
    ensures r == st.(settled := r.settled)
  {
    if data.None? then st
    else
      var d := st.holders[data.value];
      if isError && d.canReject then st.(settled := st.settled + [Rejected(data.value, v)])
      else if !isError && d.canResolve then st.(settled := st.settled + [Resolved(data.value, v)])
      else st
  }

  /** The properties a received message offers to `message.id` and `'error' in message`; reading
      `id` of null and using `in` on a primitive throw. */
  function Props(v: Value): Result<map<string, Value>> {
    match v
    case Obj(p) => Ok(p)
    case Arr(_) => Ok(map[])
    case Error(_, _, _, _, own) => Ok(own)
    case Null => Err(TypeError, "Cannot read properties of null (reading 'id')")
    case Undefined => Err(TypeError, "Cannot read properties of undefined (reading 'id')")
    case _ => Err(TypeError, "Cannot use 'in' operator to search for 'error'")
  }

  /**
   * `#onMessage(message)`: the text is deserialized (undefined is ignored); the entry for
   * `message.id` is consumed, then its `reject` gets `message.error` when the message has an
   * `error` key, and its `resolve` gets `message.result` otherwise.
   */
  function OnMessageSpec(st: State, w: Serial.Wire): (r: (Result<()>, State))
    requires Consistent(st)
    ensures Consistent(r.1) && r.1.sent == st.sent
  {
    match Serial.Deserialize(w)
    case Err(k, m) => (Err(k, m), st)
    case Ok(v) =>
      if v.Undefined? then (Ok(()), st)
      else match Props(v)
        case Err(k, m) => (Err(k, m), st)
        case Ok(p) =>
          var (data, st1) := UseSpec(st, KeyOf(Get(p, "id")));
          (Ok(()), Settle(st1, data, "error" in p, if "error" in p then p["error"] else Get(p, "result")))
  }

  /**
   * `send(data)`: a fresh `{ resolve, reject }` is registered, its id is written into the
   * message, and the serialized message is sent. The result is the holder of the promise's
   * callbacks and the id.
   */
  function SendSpec(st: State, payload: map<string, Value>): (r: (nat, string, State))
    requires Consistent(st)
    ensures Consistent(r.2) && r.0 !in st.holders && r.2.ids == st.ids[r.1 := r.0]
    ensures r.2.sent == st.sent + [Serial.Serialize(Obj(payload["id" := Str(r.1)]))]
    ensures r.0 in r.2.holders && st.nextTimer in r.2.armed
    ensures r.2.holders[r.0] == Holder(Some(r.1), true, true, Some(st.nextTimer)) && r.2.armed[st.nextTimer] == r.0
    ensures r.1 == Strings.NatToString(st.counter) && r.2.settled == st.settled
  {
    var (h, st1) := HoldSpec(st, None, true, true);
    var (id, st2) := CreateSpec(st1, h);
    (h, id, st2.(sent := st2.sent + [Serial.Serialize(Obj(payload["id" := Str(id)]))]))
  }

  /** The message `eval(fn, ...args)` sends: the source text of `fn` and the raw arguments. */
  function EvalPayload(fn: string, args: seq<Value>): map<string, Value> {
    map["__command" := Str("eval"), "fn" := Str(fn), "args" := Arr(args)]
  }

  // ---------------------------------------------------------------- properties

  /** A consumed id is gone: a second `useId` returns nothing and changes nothing. */
  lemma UseOnce(st: State, k: Key)
    requires Consistent(st)
    ensures var st1 := UseSpec(st, k).1; UseSpec(st1, k) == (None, st1)
  {
  }

  /** After consumption the entry's timer never fires: firing it is a no-op. */
  lemma ConsumedNeverExpires(st: State, k: Key)
    requires Consistent(st)
    requires var (data, _) := UseSpec(st, k); data.Some? && st.holders[data.value].timer.Some?
    ensures var (data, st1) := UseSpec(st, k); ExpireSpec(st1, st.holders[data.value].timer.value) == st1
  {
  }

  /** An id nobody consumes expires: the entry is gone and `reject` has had `Error('Timeout')`. */
  lemma TimeoutScenario(st: State, h: nat)
    requires Consistent(st) && h in st.holders && st.holders[h].canReject
    ensures var (id, st1) := CreateSpec(st, h);
      var st2 := ExpireSpec(st1, st.nextTimer);
      UseSpec(st2, Text(id)).0.None? && st2.settled == st.settled + [Rejected(h, TimeoutError)]
  {
  }

  /** Every id in the map was handed out by the counter. */
  ghost predicate Issued(st: State) {
    forall id :: id in st.ids ==> exists n: nat :: n < st.counter && id == Strings.NatToString(n)
  }

  /** While ids come from the counter only, a new one is never already in use, and it stays so. */
  lemma {:induction false} CounterIdFresh(st: State, h: nat)
    requires Consistent(st) && h in st.holders && st.holders[h].id.None? && Issued(st)
    ensures CreateSpec(st, h).0 !in st.ids
    ensures Issued(CreateSpec(st, h).1)
  {
    var (id, st1) := CreateSpec(st, h);
    if id in st.ids {
      var n: nat :| n < st.counter && id == Strings.NatToString(n);
      CounterIdsDiffer(n, st.counter);
    }
    assert id == Strings.NatToString(st.counter);
    forall x | x in st1.ids
      ensures exists n: nat :: n < st1.counter && x == Strings.NatToString(n)
    {
      if x != id {
        var n: nat :| n < st.counter && x == Strings.NatToString(n);
      }
    }
  }

  /** An id given by the caller that is still live gets a second entry over the first; when the
      first entry's timer fires it deletes the second entry too, long before that one's own
      timer, and rejects the first data object. */
  lemma ReusedIdEvicted(st: State, h1: nat, h2: nat, x: string)
    requires Consistent(st) && h1 in st.holders && h2 in st.holders && h1 != h2
    requires st.holders[h1].id == Some(x) && st.holders[h2].id == Some(x) && st.holders[h1].canReject
    ensures var (_, st1) := CreateSpec(st, h1);
      var (_, st2) := CreateSpec(st1, h2);
      var st3 := ExpireSpec(st2, st.nextTimer);
      st.nextTimer + 1 in st3.armed && st3.armed[st.nextTimer + 1] == h2 &&
      UseSpec(st3, Text(x)).0.None? && st3.settled == st.settled + [Rejected(h1, TimeoutError)]
  {
  }

  /** A message whose `id` names a live entry consumes it and settles that entry's data object:
      `reject` with `message.error` when there is an `error` key, `resolve` with
      `message.result` otherwise. */
  lemma {:induction false} Answer(st: State, w: Serial.Wire, p: map<string, Value>, id: string)
    requires Consistent(st) && Serial.Deserialize(w) == Ok(Obj(p)) && Get(p, "id") == Str(id) && id in st.ids
    ensures var (ok, st1) := OnMessageSpec(st, w);
      var h := st.ids[id];
      var d := st.holders[h];
      ok.Ok? && id !in st1.ids &&
      st1.settled == st.settled + (if "error" in p then (if d.canReject then [Rejected(h, p["error"])] else [])
                                   else if d.canResolve then [Resolved(h, Get(p, "result"))] else [])
  {
    assert KeyOf(Get(p, "id")) == Text(id);
  }

  /** The JSON of a reply `{ id, key: v }`. */
  lemma SerializedReply(id: string, key: string, v: Value)
    requires key != "id" && !v.Undefined?
    ensures Serial.Serialize(Obj(map["id" := Str(id), key := v])) ==
      Some(JObj(map["id" := JStr(id), key := Serial.Serialize(v).value]))
  {
    var props := map["id" := Str(id), key := v];
    var m' := map["id" := Some(JStr(id)), key := Serial.Serialize(v)];
    SerializedPairMap(id, key, v);
    assert Serial.Present(m') == map["id" := JStr(id), key := Serial.Serialize(v).value];
  }

  lemma SerializedPairMap(id: string, key: string, v: Value)
    requires key != "id"
    ensures Serial.Serialize(Obj(map["id" := Str(id), key := v])) ==
      Some(JObj(Serial.Present(map["id" := Some(JStr(id)), key := Serial.Serialize(v)])))
  {
    var m' := map["id" := Some(JStr(id)), key := Serial.Serialize(v)];
    assert Serial.ObjFields(Obj(map["id" := Str(id), key := v])) == m';
  }

  /** The reply `{ id, key: v }` read back from its JSON. */
  lemma RevivedReply(id: string, key: string, v: Value)
    requires key != "id" && key != Serial.TypeKey && !v.Undefined?
    ensures Serial.Serialize(Obj(map["id" := Str(id), key := v])).Some?
    ensures Serial.Deserialize(Serial.Text(Serial.Serialize(Obj(map["id" := Str(id), key := v])).value)) ==
      Ok(Obj(map["id" := Str(id), key := Serial.Revive(Serial.Serialize(v).value)]))
  {
    SerializedReply(id, key, v);
    var j := Serial.Serialize(v).value;
    RevivedPair(id, key, j);
  }

  lemma RevivedPair(id: string, key: string, j: Json)
    requires key != "id" && key != Serial.TypeKey
    ensures Serial.Revive(JObj(map["id" := JStr(id), key := j])) == Obj(map["id" := Str(id), key := Serial.Revive(j)])
  {
    var p := map["id" := JStr(id), key := j];
    var o := Serial.RevivedFields(JObj(p));
    assert o.Keys == {"id", key};
    assert o["id"] == Serial.Revive(JStr(id)) == Str(id);
    assert o[key] == Serial.Revive(j);
    assert o == map["id" := Str(id), key := Serial.Revive(j)];
    assert Serial.TypeKey !in o;
  }

  /** A reply `{ id, result }` from the other process resolves exactly the promise of the `send`
      that issued the id, with the result it carried, and consumes the id. */
  lemma ReplyResolves(st: State, payload: map<string, Value>, v: Value)
    requires Consistent(st) && Serial.Plain(v)
    ensures var (h, id, st1) := SendSpec(st, payload);
      var reply := Obj(map["id" := Str(id), "result" := v]);
      Serial.Serialize(reply).Some? &&
      var (ok, st2) := OnMessageSpec(st1, Serial.Text(Serial.Serialize(reply).value));
      ok.Ok? && st2.settled == st.settled + [Resolved(h, v)] && id !in st2.ids
  {
    var (h, id, st1) := SendSpec(st, payload);
    Serial.PlainRoundTrip(v);
    RevivedReply(id, "result", v);
    var p := map["id" := Str(id), "result" := v];
    Answer(st1, Serial.Text(Serial.Serialize(Obj(p)).value), p, id);
  }

  /** A reply `{ id, error }` rejects that promise with an Error of the same name and message. */
  lemma ReplyRejects(st: State, payload: map<string, Value>, e: Value)
    requires Consistent(st) && Serial.OrdinaryError(e)
    ensures var (h, id, st1) := SendSpec(st, payload);
      var reply := Obj(map["id" := Str(id), "error" := e]);
      Serial.Serialize(reply).Some? &&
      var (ok, st2) := OnMessageSpec(st1, Serial.Text(Serial.Serialize(reply).value));
      ok.Ok? && |st2.settled| == |st.settled| + 1 && st2.settled[..|st.settled|] == st.settled &&
      var s := st2.settled[|st.settled|];
      s.Rejected? && s.holder == h && s.reason.Error? && s.reason.name == e.name && s.reason.message == e.message
  {
    var (h, id, st1) := SendSpec(st, payload);
    Serial.ErrorRoundTrip(e);
    RevivedReply(id, "error", e);
    var e' := Serial.Revive(Serial.Serialize(e).value);
    var p := map["id" := Str(id), "error" := e'];
    Answer(st1, Serial.Text(Serial.Serialize(Obj(map["id" := Str(id), "error" := e])).value), p, id);
  }

  // ---------------------------------------------------------------- the class

  class Bot {
    var counter: nat
    var ids: map<string, nat>
    var holders: map<nat, Holder>
    var armed: map<nat, nat>
    var nextTimer: nat
    var nextHolder: nat
    var settled: seq<Settlement>
    var sent: seq<Option<Json>>

    function Snapshot(): State
      reads this
    {
      State(counter, ids, holders, armed, nextTimer, nextHolder, settled, sent)
    }

    ghost predicate Valid()
      reads this
    {
      Consistent(Snapshot())
    }

    constructor ()
      ensures Valid() && Snapshot() == Initial
    {
      counter := 0;
      ids := map[];
      holders := map[];
      armed := map[];
      nextTimer := 0;
      nextHolder := 0;
      settled := [];
      sent := [];
    }

    /** A caller builds a data object. */
    method Hold(id: Option<string>, canResolve: bool, canReject: bool) returns (h: nat)
      requires Valid()
      modifies this
      ensures Valid()
      ensures (h, Snapshot()) == HoldSpec(old(Snapshot()), id, canResolve, canReject)
    {
      h := nextHolder;
      holders := holders[h := Holder(id, canResolve, canReject, None)];
      nextHolder := nextHolder + 1;
    }

    /** `createId(data)`. */
    method CreateId(h: nat) returns (id: string)
      requires Valid() && h in holders
      modifies this
      ensures Valid()
      ensures (id, Snapshot()) == CreateSpec(old(Snapshot()), h)
    {
      var d := holders[h];
      if d.id.None? {
        d := d.(id := Some(Strings.NatToString(counter)));
        counter := counter + 1;
      }
      id := d.id.value;
      ids := ids[id := h];
      armed := armed[nextTimer := h];
      holders := holders[h := d.(timer := Some(nextTimer))];
      nextTimer := nextTimer + 1;
    }

    /** `useId(id)`. */
    method UseId(k: Key) returns (data: Option<nat>)
      requires Valid()
      modifies this
      ensures Valid()
      ensures (data, Snapshot()) == UseSpec(old(Snapshot()), k)
    {
      var key := Lookup(k);
      if key.None? || key.value !in ids {
        return None;
      }
      var h := ids[key.value];
      ids := ids - {key.value};
      var d := holders[h];
      if d.timer.Some? {
        armed := armed - {d.timer.value};
      }
      holders := holders[h := d.(timer := None)];
      data := Some(h);
    }

    /** The callback of timer `t`. */
    method Expire(t: nat)
      requires Valid()
      modifies this
      ensures Valid()
      ensures Snapshot() == ExpireSpec(old(Snapshot()), t)
    {
      if t !in armed {
        return;
      }
      var h := armed[t];
      armed := armed - {t};
      var d := holders[h];
      holders := holders[h := d.(timer := None)];
      if d.id.Some? {
        ids := ids - {d.id.value};
      }
      if d.canReject {
        settled := settled + [Rejected(h, TimeoutError)];
      }
    }

    /** `#onMessage(message)`. */
    method OnMessage(w: Serial.Wire) returns (r: Result<()>)
      requires Valid()
      modifies this
      ensures Valid()
      ensures (r, Snapshot()) == OnMessageSpec(old(Snapshot()), w)
    {
      var message := Serial.Deserialize(w);
      if message.Err? {
        return Err(message.kind, message.message);
      }
      if message.value.Undefined? {
        return Ok(());
      }
      var props := Props(message.value);
      if props.Err? {
        return Err(props.kind, props.message);
      }
      var p := props.value;
      var data := UseId(KeyOf(Get(p, "id")));
      r := Ok(());
      if data.None? {
        return;
      }
      var d := holders[data.value];
      if "error" in p {
        if d.canReject {
          settled := settled + [Rejected(data.value, p["error"])];
        }
      } else if d.canResolve {
        settled := settled + [Resolved(data.value, Get(p, "result"))];
      }
    }

    /** `send(data)`: the holder of the returned promise's callbacks, and the id. */
    method Send(payload: map<string, Value>) returns (h: nat, id: string)
      requires Valid()
      modifies this
      ensures Valid()
      ensures (h, id, Snapshot()) == SendSpec(old(Snapshot()), payload)
    {
      h := Hold(None, true, true);
      id := CreateId(h);
      sent := sent + [Serial.Serialize(Obj(payload["id" := Str(id)]))];
    }

    /** `eval(fn, ...args)`. */
    method Eval(fn: string, args: seq<Value>) returns (h: nat, id: string)
      requires Valid()
      modifies this
      ensures Valid()
      ensures (h, id, Snapshot()) == SendSpec(old(Snapshot()), EvalPayload(fn, args))
    {
      h, id := Send(EvalPayload(fn, args));
    }
  }
}
