/**
 * The older correlation-id registry of `Bot` in src/bot.js. Unlike the newer one, every id comes
 * from the counter, the expiry callback looks the entry up by the id it was armed for and
 * rejects only when `ids.delete(id)` reports that the entry was still there, the timer handle
 * is kept on the data object as `data.timer`, and replies arrive as objects whose `error` and
 * `result` are serialized separately. Time, holders and records as in `Correlation`.
 */
module LegacyCorrelation {
  import opened Wrappers
  import opened Values
  import Strings
  import Serial
  import Correlation

  /** `id`, `ids`, the data objects, the armed timers (handle to the id it was armed for), and
      the records of settlements and sent messages. */
  datatype State = State(counter: nat, ids: map<string, nat>, holders: map<nat, Correlation.Holder>,
                         armed: map<nat, string>, nextTimer: nat, nextHolder: nat,
                         settled: seq<Correlation.Settlement>, sent: seq<Outgoing>)

  /** A message handed to `process.send`: its plain properties, and the properties that hold the
      text `serialize` produced, kept as the JSON tree of that text. */
  datatype Outgoing = Outgoing(fields: map<string, Value>, encoded: map<string, Option<Json>>)

  /** A message from the parent process: `id`, the serialized `error` when the key is present,
      and the serialized `result` (`NotString(Undefined)` when absent). */
  datatype Message = Message(id: Value, error: Option<Serial.Wire>, result: Serial.Wire)

  const Initial := State(0, map[], map[], map[], 0, 0, [], [])

  ghost predicate Consistent(st: State) {
    (forall id :: id in st.ids ==> st.ids[id] in st.holders) &&
    (forall t :: t in st.armed ==> t < st.nextTimer) &&
    (forall h :: h in st.holders ==> h < st.nextHolder)
  }

  /** Every id in the map, and every id a timer is armed for, was handed out by the counter. */
  ghost predicate Issued(st: State) {
    (forall id :: id in st.ids ==> exists n: nat :: n < st.counter && id == Strings.NatToString(n)) &&
    (forall t :: t in st.armed ==> exists n: nat :: n < st.counter && st.armed[t] == Strings.NatToString(n))
  }

  function HoldSpec(st: State, canResolve: bool, canReject: bool): (r: (nat, State))
    requires Consistent(st)
    ensures Consistent(r.1) && r.0 !in st.holders && r.0 in r.1.holders
    ensures r.1 == st.(holders := st.holders[r.0 := Correlation.Holder(None, canResolve, canReject, None)], nextHolder := r.1.nextHolder)
  {
    (st.nextHolder, st.(holders := st.holders[st.nextHolder := Correlation.Holder(None, canResolve, canReject, None)],
                        nextHolder := st.nextHolder + 1))
  }

  /** `createId(data)`: always the next counter value; the timer handle goes to `data.timer`. */
  function CreateSpec(st: State, h: nat): (r: (string, State))
    requires Consistent(st) && h in st.holders
    ensures Consistent(r.1) && r.1.holders.Keys == st.holders.Keys
    ensures r.0 == Strings.NatToString(st.counter) && r.1.counter == st.counter + 1
    ensures r.1.ids == st.ids[r.0 := h] && r.1.armed == st.armed[st.nextTimer := r.0]
    ensures r.1.holders[h].timer == Some(st.nextTimer)
    ensures r.1.settled == st.settled && r.1.sent == st.sent
  {
    var id := Strings.NatToString(st.counter);
    (id, st.(counter := st.counter + 1, ids := st.ids[id := h], armed := st.armed[st.nextTimer := id],
             nextTimer := st.nextTimer + 1,
             holders := st.holders[h := st.holders[h].(timer := Some(st.nextTimer))]))
  }

  /** `useId(id)`: a present entry is deleted and the timer in `data.timer` cleared. */
  function UseSpec(st: State, k: Correlation.Key): (r: (Option<nat>, State))
    requires Consistent(st)
    ensures Consistent(r.1) && r.1.holders == st.holders && r.1.armed.Keys <= st.armed.Keys
    ensures r.0.Some? <==> Correlation.Lookup(k).Some? && Correlation.Lookup(k).value in st.ids
    ensures r.0.None? ==> r.1 == st
    ensures r.0.Some? ==> r.0.value == st.ids[Correlation.Lookup(k).value] && r.1.ids == st.ids - {Correlation.Lookup(k).value}
    ensures r.0.Some? && st.holders[r.0.value].timer.Some? ==> st.holders[r.0.value].timer.value !in r.1.armed
    ensures r.1.settled == st.settled && r.1.sent == st.sent && r.1.counter == st.counter
  {
    var key := Correlation.Lookup(k);
    if key.None? || key.value !in st.ids then (None, st)
    else
      var h := st.ids[key.value];
      var d := st.holders[h];
      var armed := if d.timer.Some? then st.armed - {d.timer.value} else st.armed;
      (Some(h), st.(ids := st.ids - {key.value}, armed := armed))
  }

  /** Timer `t` fires: the entry of the id it was armed for is deleted and, only if it was still
      there, its `reject` gets `Error('Timeout')`. */
  function ExpireSpec(st: State, t: nat): (r: State)
    requires Consistent(st)
    ensures Consistent(r) && t !in r.armed && r.holders == st.holders
    ensures t !in st.armed ==> r == st
    ensures t in st.armed ==> r.ids == st.ids - {st.armed[t]}
    ensures t in st.armed && st.armed[t] !in st.ids ==> r.settled == st.settled
    ensures t in st.armed && st.armed[t] in st.ids ==> var h := st.ids[st.armed[t]];
      r.settled == st.settled + (if st.holders[h].canReject then [Correlation.Rejected(h, Correlation.TimeoutError)] else [])
  {
    if t !in st.armed then st
    else
      var id := st.armed[t];
      var st1 := st.(armed := st.armed - {t});
      if id !in st.ids then st1
      else
        var h := st.ids[id];
        var settled := if st.holders[h].canReject then st.settled + [Correlation.Rejected(h, Correlation.TimeoutError)] else st.settled;
        st1.(ids := st.ids - {id}, settled := settled)
  }

  /**
   * `onMessage(message)`: a falsy id is ignored; otherwise the entry is consumed first, then
   * `reject` gets the deserialized `error` when the key is present and `resolve` the deserialized
   * `result` otherwise. Optional chaining skips the deserialization when there is no such
   * callback, so only a callback that exists can make it throw.
   */
  function OnMessageSpec(st: State, m: Message): (r: (Result<()>, State))
    requires Consistent(st)
    ensures Consistent(r.1) && r.1.sent == st.sent
    ensures !Truthy(m.id) ==> r == (Ok(()), st)
  {
    if !Truthy(m.id) then (Ok(()), st)
    else
      var (data, st1) := UseSpec(st, Correlation.KeyOf(m.id));
      if data.None? then (Ok(()), st1)
      else
        var h := data.value;
        var d := st1.holders[h];
        if m.error.Some? then
          if !d.canReject then (Ok(()), st1)
          else match Serial.DeserializeLegacy(m.error.value)
            case Err(k, msg) => (Err(k, msg), st1)
            case Ok(e) => (Ok(()), st1.(settled := st1.settled + [Correlation.Rejected(h, e)]))
        else if !d.canResolve then (Ok(()), st1)
        else match Serial.DeserializeLegacy(m.result)
          case Err(k, msg) => (Err(k, msg), st1)
          case Ok(v) => (Ok(()), st1.(settled := st1.settled + [Correlation.Resolved(h, v)]))
  }

  /** `send(data)`: a fresh `{ resolve, reject }` is registered and the message goes out as an
      object carrying the id. */
  function SendSpec(st: State, fields: map<string, Value>, encoded: map<string, Option<Json>>): (r: (nat, string, State))
    requires Consistent(st)
    ensures Consistent(r.2) && r.0 !in st.holders && r.2.ids == st.ids[r.1 := r.0]
    ensures r.1 == Strings.NatToString(st.counter) && r.2.counter == st.counter + 1
    ensures r.2.sent == st.sent + [Outgoing(fields["id" := Str(r.1)], encoded)]
    ensures r.0 in r.2.holders && r.2.holders[r.0].canResolve && r.2.holders[r.0].canReject
    ensures r.2.settled == st.settled
  {
    var (h, st1) := HoldSpec(st, true, true);
    var (id, st2) := CreateSpec(st1, h);
    (h, id, st2.(sent := st2.sent + [Outgoing(fields["id" := Str(id)], encoded)]))
  }

  // ---------------------------------------------------------------- properties

  /** Ids are never reused within the process: a new id is not in use, and none ever was. */
  lemma {:induction false} IdsFresh(st: State, h: nat)
    requires Consistent(st) && Issued(st) && h in st.holders
    ensures CreateSpec(st, h).0 !in st.ids
    ensures forall t :: t in st.armed ==> st.armed[t] != CreateSpec(st, h).0
    ensures Issued(CreateSpec(st, h).1)
  {
    var (id, st1) := CreateSpec(st, h);
    forall x | x in st.ids || x in st.armed.Values
      ensures x != id
      ensures exists n: nat :: n < st1.counter && x == Strings.NatToString(n)
    {
      var n: nat;
      if x in st.ids {
        n :| n < st.counter && x == Strings.NatToString(n);
      } else {
        var t :| t in st.armed && st.armed[t] == x;
        n :| n < st.counter && x == Strings.NatToString(n);
      }
      Correlation.CounterIdsDiffer(n, st.counter);
    }
    forall t | t in st.armed ensures st.armed[t] != id {
      assert st.armed[t] in st.armed.Values;
    }
    assert forall t :: t in st.armed ==> st.armed[t] in st.armed.Values;
  }

  /** A timer whose entry is already gone rejects nothing: no callback is settled twice. */
  lemma StaleTimer(st: State, t: nat)
    requires Consistent(st) && t in st.armed && st.armed[t] !in st.ids
    ensures ExpireSpec(st, t).settled == st.settled && ExpireSpec(st, t).ids == st.ids
  {
  }

  /** A consumed id is gone, and its timer is cleared. */
  lemma UseOnce(st: State, k: Correlation.Key)
    requires Consistent(st)
    ensures var st1 := UseSpec(st, k).1; UseSpec(st1, k) == (None, st1)
  {
  }

  /** An id nobody consumes expires: the entry is gone and `reject` has had `Error('Timeout')`. */
  lemma TimeoutScenario(st: State, h: nat)
    requires Consistent(st) && Issued(st) && h in st.holders && st.holders[h].canReject
    ensures var (id, st1) := CreateSpec(st, h);
      var st2 := ExpireSpec(st1, st.nextTimer);
      UseSpec(st2, Correlation.Text(id)).0.None? && st2.settled == st.settled + [Correlation.Rejected(h, Correlation.TimeoutError)]
  {
  }

  /** A reply with the id of a `send` resolves that promise with the deserialized result. */
  lemma ReplyResolves(st: State, fields: map<string, Value>, encoded: map<string, Option<Json>>, v: Value)
    requires Consistent(st) && Serial.Plain(v)
    ensures var (h, id, st1) := SendSpec(st, fields, encoded);
      Serial.Serialize(v).Some? &&
      var (ok, st2) := OnMessageSpec(st1, Message(Str(id), None, Serial.Text(Serial.Serialize(v).value)));
      ok.Ok? && st2.settled == st.settled + [Correlation.Resolved(h, v)] && id !in st2.ids
  {
    var (h, id, st1) := SendSpec(st, fields, encoded);
    Serial.PlainRoundTripLegacy(v);
    assert Truthy(Str(id)) by { assert id != []; }
  }

  class LegacyBot {
    var counter: nat
    var ids: map<string, nat>
    var holders: map<nat, Correlation.Holder>
    var armed: map<nat, string>
    var nextTimer: nat
    var nextHolder: nat
    var settled: seq<Correlation.Settlement>
    var sent: seq<Outgoing>

    function Snapshot(): State
      reads this
    {
      State(counter, ids, holders, armed, nextTimer, nextHolder, settled, sent)
    }

    ghost predicate Valid()
      reads this
    {
      Consistent(Snapshot())
    }

    constructor ()
      ensures Valid() && Snapshot() == Initial
    {
      counter := 0;
      ids := map[];
      holders := map[];
      armed := map[];
      nextTimer := 0;
      nextHolder := 0;
      settled := [];
      sent := [];
    }

    /** `createId(data)`. */
    method CreateId(h: nat) returns (id: string)
      requires Valid() && h in holders
      modifies this
      ensures Valid()
      ensures (id, Snapshot()) == CreateSpec(old(Snapshot()), h)
    {
      id := Strings.NatToString(counter);
      counter := counter + 1;
      ids := ids[id := h];
      armed := armed[nextTimer := id];
      holders := holders[h := holders[h].(timer := Some(nextTimer))];
      nextTimer := nextTimer + 1;
    }

    /** `useId(id)`. */
    method UseId(k: Correlation.Key) returns (data: Option<nat>)
      requires Valid()
      modifies this
      ensures Valid()
      ensures (data, Snapshot()) == UseSpec(old(Snapshot()), k)
    {
      var key := Correlation.Lookup(k);
      if key.None? || key.value !in ids {
        return None;
      }
      var h := ids[key.value];
      ids := ids - {key.value};
      var timer := holders[h].timer;
      if timer.Some? {
        armed := armed - {timer.value};
      }
      data := Some(h);
    }

    /** The callback of timer `t`. */
    method Expire(t: nat)
      requires Valid()
      modifies this
      ensures Valid()
      ensures Snapshot() == ExpireSpec(old(Snapshot()), t)
    {
      if t !in armed {
        return;
      }
      var id := armed[t];
      armed := armed - {t};
      if id in ids {
        var h := ids[id];
        ids := ids - {id};
        if holders[h].canReject {
          settled := settled + [Correlation.Rejected(h, Correlation.TimeoutError)];
        }
      }
    }

    /** `onMessage(message)`. */
    method OnMessage(m: Message) returns (r: Result<()>)
      requires Valid()
      modifies this
      ensures Valid()
      ensures (r, Snapshot()) == OnMessageSpec(old(Snapshot()), m)
    {
      r := Ok(());
      if !Truthy(m.id) {
        return;
      }
      var data := UseId(Correlation.KeyOf(m.id));
      if data.None? {
        return;
      }
      var h := data.value;
      var d := holders[h];
      if m.error.Some? {
        if d.canReject {
          var e := Serial.DeserializeLegacy(m.error.value);
          if e.Err? {
            return Err(e.kind, e.message);
          }
          settled := settled + [Correlation.Rejected(h, e.value)];
        }
      } else if d.canResolve {
        var v := Serial.DeserializeLegacy(m.result);
        if v.Err? {
          return Err(v.kind, v.message);
        }
        settled := settled + [Correlation.Resolved(h, v.value)];
      }
    }

    /** `send(data)`. */
    method Send(fields: map<string, Value>, encoded: map<string, Option<Json>>) returns (h: nat, id: string)
      requires Valid()
      modifies this
      ensures Valid()
      ensures (h, id, Snapshot()) == SendSpec(old(Snapshot()), fields, encoded)
    {
      h := nextHolder;
      holders := holders[h := Correlation.Holder(None, true, true, None)];
      nextHolder := nextHolder + 1;
      id := CreateId(h);
      sent := sent + [Outgoing(fields["id" := Str(id)], encoded)];
    }

    /** `eval(fn, ...args)`: the arguments travel as the text of `serialize(args)`. */
    method Eval(fn: string, args: seq<Value>) returns (h: nat, id: string)
      requires Valid()
      modifies this
      ensures Valid()
      ensures (h, id, Snapshot()) ==
        SendSpec(old(Snapshot()), map["fn" := Str(fn)], map["args" := Serial.Serialize(Arr(args))])
    {
      h, id := Send(map["fn" := Str(fn)], map["args" := Serial.Serialize(Arr(args))]);
    }
  }
}
