/**
 * `Throttle` of src/bot/lib/throttle.js: calls inside the delay window are coalesced into one
 * deferred execution of the latest call, and every deferred caller shares one promise.
 * Time is an explicit parameter, the timer callback is the separate step `Fire`, the
 * functions being throttled are uninterpreted `Call`s, and promises are numbered and settled in a map.
 */
module Throttles {
  import opened Wrappers
  import opened Values

  /** A function with its arguments; `func` names the function. */
  datatype Call = Call(func: nat, args: seq<Value>)

  datatype Settlement = Resolved(v: Value) | Rejected(e: Value)

  /** What `execute` returns: the result of running the call now, or the shared promise. */
  datatype Reply = Ran(call: Call) | Deferred(promise: nat)

  /**
   * The fields of a throttle. `timer` is the time the armed timer is due, `pending` the stored
   * `func`/`args`, `promise` the shared promise (while `resolve`/`reject` exist), `nextPromise`
   * numbers promises, `settled` records how each promise was settled, and `ran` lists the calls
   * executed so far.
   */
  datatype State = State(timer: Option<int>, timestamp: int, pending: Option<Call>,
                         promise: Option<nat>, nextPromise: nat,
                         settled: map<nat, Settlement>, ran: seq<Call>)

  /** A fresh throttle: no timer, `timestamp = 0`. */
  const Initial := State(None, 0, None, None, 0, map[], [])

  /** An armed timer always has a stored call and an unsettled shared promise, the newest one. */
  predicate Consistent(st: State) {
    (st.timer.Some? <==> st.promise.Some?) &&
    (st.timer.Some? ==> st.pending.Some?) &&
    (st.promise.Some? ==> st.promise.value + 1 == st.nextPromise && st.promise.value !in st.settled) &&
    (forall p :: p in st.settled ==> p < st.nextPromise)
  }

  /** `clear(value, timestamp)`: settle the shared promise (reject for an Error, else resolve),
      disarm the timer, set `timestamp`, drop the arguments and the promise. */
  function ClearSpec(st: State, value: Value, ts: int): State {
    var settled := if st.promise.Some? then
      st.settled[st.promise.value := if value.Error? then Rejected(value) else Resolved(value)]
    else st.settled;
    st.(timer := None, timestamp := ts, pending := None, promise := None, settled := settled)
  }

  /** `execute(func, ...args)` at time `now`. */
  function ExecuteSpec(delay: int, st: State, call: Call, now: int): (Reply, State)
    requires Consistent(st)
  {
    if st.timer.Some? then (Deferred(st.promise.value), st.(pending := Some(call)))
    else
      var remaining := delay - (now - st.timestamp);
      if remaining <= 0 then (Ran(call), st.(timestamp := now, ran := st.ran + [call]))
      else (Deferred(st.nextPromise),
            st.(pending := Some(call), promise := Some(st.nextPromise), nextPromise := st.nextPromise + 1,
                timer := Some(now + remaining)))
  }

  /** The timer callback at time `now`: run the stored call, then `clear(undefined, now)`. The call's
      own result reaches `resolve` only after `clear` has already resolved the promise with
      undefined, so it is lost. A disarmed timer never fires. */
  function FireSpec(st: State, now: int): State {
    if st.timer.None? || st.pending.None? then st
    else ClearSpec(st.(ran := st.ran + [st.pending.value]), Undefined, now)
  }

  lemma ClearConsistent(st: State, value: Value, ts: int)
    requires Consistent(st)
    ensures Consistent(ClearSpec(st, value, ts))
    ensures ClearSpec(st, value, ts).timer.None?
  {
  }

  /** `execute` keeps the throttle consistent: a timer is armed only when none is, so there is
      never more than one, and a deferred reply is the current shared promise. */
  lemma ExecuteConsistent(delay: int, st: State, call: Call, now: int)
    requires Consistent(st)
    ensures var (r, st') := ExecuteSpec(delay, st, call, now);
      Consistent(st') &&
      (r.Deferred? ==> st'.promise == Some(r.promise) && st'.timer.Some? && st'.pending == Some(call)) &&
      (st.timer.Some? ==> st'.timer == st.timer && st'.promise == st.promise) &&
      (r.Ran? <==> st.timer.None? && now - st.timestamp >= delay)
  {
  }

  lemma FireConsistent(st: State, now: int)
    requires Consistent(st)
    ensures Consistent(FireSpec(st, now)) && FireSpec(st, now).timer.None?
  {
  }

  /** Calls at the given times, one after another; the replies and the final state. */
  function ExecuteAll(delay: int, st: State, calls: seq<(Call, int)>): (seq<Reply>, State)
    requires Consistent(st)
    decreases |calls|
  {
    if calls == [] then ([], st)
    else
      var (r, st') := ExecuteSpec(delay, st, calls[0].0, calls[0].1);
      ExecuteConsistent(delay, st, calls[0].0, calls[0].1);
      var (rs, last) := ExecuteAll(delay, st', calls[1..]);
      ([r] + rs, last)
  }

  /** While the timer is armed, further calls change nothing but the stored call (the latest
      wins) and all get the same promise. */
  lemma {:induction false} ArmedCalls(delay: int, st: State, calls: seq<(Call, int)>)
    requires Consistent(st) && st.timer.Some?
    ensures var (rs, st') := ExecuteAll(delay, st, calls);
      |rs| == |calls| &&
      (forall i :: 0 <= i < |rs| ==> rs[i] == Deferred(st.promise.value)) &&
      st' == (if calls == [] then st else st.(pending := Some(calls[|calls| - 1].0)))
    decreases |calls|
  {
    if calls != [] {
      var (r, st1) := ExecuteSpec(delay, st, calls[0].0, calls[0].1);
      ArmedCalls(delay, st1, calls[1..]);
      if |calls| > 1 {
        assert calls[1..][|calls[1..]| - 1] == calls[|calls| - 1];
      }
    }
  }

  /**
   * Coalescing: with no timer armed, a first call inside the window and any number of calls
   * after it, then the timer firing at `t`, run exactly one call, the latest; every caller gets
   * the same promise, which resolves to undefined; the window restarts at `t`.
   */
  lemma Coalesce(delay: int, st: State, first: (Call, int), more: seq<(Call, int)>, t: int)
    requires Consistent(st) && st.timer.None?
    requires first.1 - st.timestamp < delay
    ensures var (rs, st') := ExecuteAll(delay, st, [first] + more);
      var fired := FireSpec(st', t);
      var p := st.nextPromise;
      |rs| == 1 + |more| &&
      (forall i :: 0 <= i < |rs| ==> rs[i] == Deferred(p)) &&
      st'.timer == Some(st.timestamp + delay) &&
      fired.ran == st.ran + [if more == [] then first.0 else more[|more| - 1].0] &&
      fired.settled == st.settled[p := Resolved(Undefined)] &&
      fired.timer.None? && fired.timestamp == t && fired.promise.None?
  {
    var calls := [first] + more;
    assert calls[0] == first && calls[1..] == more;
    var (r, st1) := ExecuteSpec(delay, st, first.0, first.1);
    ExecuteConsistent(delay, st, first.0, first.1);
    ArmedCalls(delay, st1, more);
  }

  /** `clear()` with the default timestamp 0 lets the next call run at once (for any time at
      least `delay` after the epoch), and hands undefined to the callers still waiting. */
  lemma ClearResets(delay: int, st: State, call: Call, now: int)
    requires Consistent(st) && now >= delay
    ensures ExecuteSpec(delay, ClearSpec(st, Undefined, 0), call, now).0 == Ran(call)
    ensures st.promise.Some? ==> ClearSpec(st, Undefined, 0).settled[st.promise.value] == Resolved(Undefined)
  {
    ClearConsistent(st, Undefined, 0);
  }

  /** `clear(error)` rejects the waiting callers with that error. */
  lemma ClearRejects(st: State, e: Value, ts: int)
    requires Consistent(st) && st.promise.Some? && e.Error?
    ensures ClearSpec(st, e, ts).settled[st.promise.value] == Rejected(e)
    ensures ClearSpec(st, e, ts).ran == st.ran
  {
  }

  class Throttle {
    const delay: int
    var timer: Option<int>
    var timestamp: int
    var pending: Option<Call>
    var promise: Option<nat>
    var nextPromise: nat
    var settled: map<nat, Settlement>
    var ran: seq<Call>

    function Snapshot(): State
      reads this
    {
      State(timer, timestamp, pending, promise, nextPromise, settled, ran)
    }

    ghost predicate Valid()
      reads this
    {
      Consistent(Snapshot())
    }

    constructor (delay: int)
      ensures this.delay == delay && Snapshot() == Initial && Valid()
    {
      this.delay := delay;
      timer := None;
      timestamp := 0;
      pending := None;
      promise := None;
      nextPromise := 0;
      settled := map[];
      ran := [];
    }

    /** `clear(value, timestamp)`. */
    method Clear(value: Value, ts: int)
      requires Valid()
      modifies this
      ensures Valid() && timer.None?
      ensures Snapshot() == ClearSpec(old(Snapshot()), value, ts)
    {
      if promise.Some? {
        settled := settled[promise.value := if value.Error? then Rejected(value) else Resolved(value)];
      }
      timer := None;
      timestamp := ts;
      pending := None;
      promise := None;
    }

    /** `execute(func, ...args)` at time `now`. */
    method Execute(call: Call, now: int) returns (r: Reply)
      requires Valid()
      modifies this
      ensures Valid()
      ensures (r, Snapshot()) == ExecuteSpec(delay, old(Snapshot()), call, now)
    {
      if timer.Some? {
        pending := Some(call);
        return Deferred(promise.value);
      }
      var elapsed := now - timestamp;
      var remaining := delay - elapsed;
      if remaining <= 0 {
        timestamp := now;
        ran := ran + [call];
        return Ran(call);
      }
      pending := Some(call);
      promise := Some(nextPromise);
      nextPromise := nextPromise + 1;
      timer := Some(now + remaining);
      r := Deferred(promise.value);
    }

    /** The timer callback, at time `now`. */
    method Fire(now: int)
      requires Valid()
      modifies this
      ensures Valid() && timer.None?
      ensures Snapshot() == FireSpec(old(Snapshot()), now)
    {
      if timer.None? || pending.None? {
        return;
      }
      ran := ran + [pending.value];
      Clear(Undefined, now);
    }
  }
}
