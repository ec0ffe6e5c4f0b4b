/**
 * The helpers of src/bot/lib/discord.js and src/lib/discord.js: the reply routing of `send`
 * and `trySend` (the same in both files), `link`, and the sequential latch `syncFilter` wraps
 * around an async collector filter. SDK calls are abstract routes; their success or failure is
 * an input.
 */
module Discord {
  import opened Wrappers
  import opened Values
  import Strings

  // ---------------------------------------------------------------- send / trySend

  /** The flags `send` looks at: a truthy `token` (an interaction, not a channel), `replied`,
      `deferred`, and whether the target has a `_reply` of its own. */
  datatype Target = Target(token: bool, replied: bool, deferred: bool, hasPrivateReply: bool)

  /** The SDK call a message goes out through. */
  datatype Route = ChannelSend | FollowUp | EditReply | PrivateReply | Reply

  /** `send(target, ...args)`: the first matching rule of channel, replied, deferred, reply. */
  function SendRoute(t: Target): (r: Route)
    ensures r == ChannelSend <==> !t.token
    ensures r == FollowUp <==> t.token && t.replied
    ensures r == EditReply <==> t.token && !t.replied && t.deferred
    ensures (r == PrivateReply || r == Reply) <==> t.token && !t.replied && !t.deferred
  {
    if !t.token then ChannelSend
    else if t.replied then FollowUp
    else if t.deferred then EditReply
    else if t.hasPrivateReply then PrivateReply
    else Reply
  }

  /** `trySend(target, ...args)` when the calls in `fails` throw: the route that delivered the
      message, or `None` for the `undefined` every swallowed error turns into. A failed
      `editReply` is retried as `followUp`. */
  function TrySendRoute(t: Target, fails: set<Route>): (r: Option<Route>)
    ensures r.Some? ==> r.value !in fails
  {
    var first := SendRoute(t);
    if first !in fails then Some(first)
    else if first == EditReply && FollowUp !in fails then Some(FollowUp)
    else None
  }

  /** `trySend` delivers where `send` would whenever that call succeeds, and otherwise only
      through the `followUp` fallback of a deferred interaction. */
  lemma TrySendAgreesWithSend(t: Target, fails: set<Route>)
    ensures SendRoute(t) !in fails ==> TrySendRoute(t, fails) == Some(SendRoute(t))
    ensures TrySendRoute(t, fails).Some? && TrySendRoute(t, fails).value != SendRoute(t) ==>
      t.token && !t.replied && t.deferred && TrySendRoute(t, fails) == Some(FollowUp)
    ensures TrySendRoute(t, fails).None? <==>
      SendRoute(t) in fails && (SendRoute(t) != EditReply || FollowUp in fails)
  {
  }

  // ---------------------------------------------------------------- link

  /** `link(text, url, info)`; the empty string stands for a missing (falsy) `url` or `info`. */
  function Link(text: string, url: string, info: string): (r: string)
    ensures url == "" ==> r == text
    ensures url != "" ==> |r| > |text| && r[1..|text| + 1] == text
  {
    if url == "" then text
    else if info != "" then "[" + text + "](<" + url + "> \"" + info + "\")"
    else "[" + text + "](<" + url + ">)"
  }

  /** A masked link keeps the text and the url, and the title only when one is given. */
  lemma LinkParts(text: string, url: string, info: string)
    requires url != ""
    ensures var r := Link(text, url, info);
      Strings.StartsWith(r, "[" + text + "](<" + url + ">") &&
      (info == "" ==> r == "[" + text + "](<" + url + ">)") &&
      (info != "" ==> r[|r| - |info| - 2..] == info + "\")")
  {
  }

  // ---------------------------------------------------------------- syncFilter

  /** What `syncFilter` is given. */
  datatype FilterKind = NotAFunction | PlainFunction | AsyncFunction

  /** What `syncFilter` returns: the filter itself, or the sequential wrapper. */
  datatype Wrapping = AsIs | Sequential

  function SyncFilter(kind: FilterKind): (r: Result<Wrapping>)
    ensures r.Err? <==> kind.NotAFunction?
    ensures r.Err? ==> r.kind == TypeError
    ensures r == Ok(AsIs) <==> kind.PlainFunction?
  {
    match kind
    case NotAFunction => Err(TypeError, "Invalid function")
    case PlainFunction => Ok(AsIs)
    case AsyncFunction => Ok(Sequential)
  }

  /** How the event's `deferUpdate()` went: absent (or not a promise), fulfilled, or rejected. */
  datatype Defer = NoDeferUpdate | DeferOk | DeferFailed

  /** What the wrapped filter does when it is called for the event. */
  datatype Outcome = Returns(v: Value) | Throws

  datatype Event = Event(defer: Defer, outcome: Outcome)

  /** What a call of the wrapper settles to: true, false, or rejected. */
  datatype Answer = Accept | Decline | Rejected

  /** The wrapper's closure: the latched `result`, whether the promise chain has rejected, the
      number of events seen and the positions of the events the filter was called for. */
  datatype Latch = Latch(result: bool, broken: bool, seen: nat, evaluated: seq<nat>)

  const Fresh := Latch(false, false, 0, [])

  /** One call, run after every earlier call has settled. A rejection of the chain skips the
      callback of every later call, so they all reject. */
  function Step(st: Latch, e: Event): (Answer, Latch) {
    var next := st.(seen := st.seen + 1);
    if st.broken then (Rejected, next)
    else if st.result then (Accept, next)
    else if e.defer == DeferFailed then (Decline, next)
    else match e.outcome
      case Throws => (Rejected, next.(broken := true, evaluated := st.evaluated + [st.seen]))
      case Returns(v) =>
        (if Truthy(v) then Accept else Decline,
         next.(result := Truthy(v), evaluated := st.evaluated + [st.seen]))
  }

  /** The calls in arrival order. */
  function Run(st: Latch, es: seq<Event>): (r: (seq<Answer>, Latch))
    ensures |r.0| == |es| && r.1.seen == st.seen + |es|
    decreases |es|
  {
    if es == [] then ([], st)
    else
      var (a, st') := Step(st, es[0]);
      var (rest, last) := Run(st', es[1..]);
      ([a] + rest, last)
  }

  /** Once latched, every later call answers true and the filter is never called again. */
  lemma {:induction false} LatchedStaysTrue(st: Latch, es: seq<Event>)
    requires st.result && !st.broken
    ensures forall i :: 0 <= i < |Run(st, es).0| ==> Run(st, es).0[i] == Accept
    ensures Run(st, es).1.evaluated == st.evaluated
    decreases |es|
  {
    if es != [] {
      LatchedStaysTrue(Step(st, es[0]).1, es[1..]);
    }
  }

  /** Running two batches one after the other is running them together. */
  lemma {:induction false} RunSplit(st: Latch, a: seq<Event>, b: seq<Event>)
    ensures Run(st, a + b).0 == Run(st, a).0 + Run(Run(st, a).1, b).0
    ensures Run(st, a + b).1 == Run(Run(st, a).1, b).1
    decreases |a|
  {
    if a == [] {
      assert a + b == b;
    } else {
      assert (a + b)[0] == a[0] && (a + b)[1..] == a[1..] + b;
      RunSplit(Step(st, a[0]).1, a[1..], b);
    }
  }

  /** From a fresh wrapper: after a call answers true, every later call answers true without
      the filter being called. */
  lemma {:induction false} Latching(es: seq<Event>, i: nat)
    requires i < |es| && Run(Fresh, es).0[i] == Accept
    ensures forall j :: i < j < |es| ==> Run(Fresh, es).0[j] == Accept
    ensures forall p :: p in Run(Fresh, es).1.evaluated ==> p <= i
  {
    var a, c := es[..i], es[i + 1..];
    assert es == (a + [es[i]]) + c;
    RunSplit(Fresh, a + [es[i]], c);
    RunSplit(Fresh, a, [es[i]]);
    var mid := Run(Fresh, a).1;
    var after := Step(mid, es[i]).1;
    assert [es[i]][0] == es[i] && [es[i]][1..] == [];
    assert Run(mid, [es[i]]) == ([Step(mid, es[i]).0] + [], after);
    LatchedStaysTrue(after, c);
    EvaluatedBelowSeen(Fresh, a);
  }

  /** The filter is called only for events already seen, in order. */
  lemma {:induction false} EvaluatedBelowSeen(st: Latch, es: seq<Event>)
    requires forall p :: p in st.evaluated ==> p < st.seen
    ensures forall p :: p in Run(st, es).1.evaluated ==> p < Run(st, es).1.seen
    decreases |es|
  {
    if es != [] {
      EvaluatedBelowSeen(Step(st, es[0]).1, es[1..]);
    }
  }

  /** A call whose deferral failed answers false and neither calls nor latches the filter. */
  lemma FailedDeferral(st: Latch, e: Event)
    requires !st.broken && !st.result && e.defer == DeferFailed
    ensures Step(st, e).0 == Decline && Step(st, e).1 == st.(seen := st.seen + 1)
  {
  }

  /** The latched value is the filter's result coerced to a boolean. */
  lemma LatchCoerces(st: Latch, d: Defer, v: Value)
    requires !st.broken && !st.result && d != DeferFailed
    ensures Step(st, Event(d, Returns(v))).1.result == Truthy(v)
    ensures Step(st, Event(d, Returns(v))).0 == (if Truthy(v) then Accept else Decline)
  {
  }

  /** The closure of the function `syncFilter` returns for an async filter. */
  class SequentialFilter {
    var result: bool
    var broken: bool
    var seen: nat
    var evaluated: seq<nat>

    function State(): Latch
      reads this
    {
      Latch(result, broken, seen, evaluated)
    }

    constructor ()
      ensures State() == Fresh
    {
      result := false;
      broken := false;
      seen := 0;
      evaluated := [];
    }

    /** One call of the wrapper, taken from the head of the queue. */
    method Call(e: Event) returns (a: Answer)
      modifies this
      ensures (a, State()) == Step(old(State()), e)
    {
      var position := seen;
      seen := seen + 1;
      if broken {
        return Rejected;
      }
      if result {
        return Accept;
      }
      if e.defer == DeferFailed {
        return Decline;
      }
      evaluated := evaluated + [position];
      match e.outcome
      case Throws =>
        broken := true;
        a := Rejected;
      case Returns(v) =>
        result := Truthy(v);
        a := if result then Accept else Decline;
    }
  }
}
