/**
 * One deliverEvent call: the fan-out to the matched subscribers, failure isolation, and the
 * completion accounting with its counter seeded at 1 and its one-shot asynchronous tokens.
 *
 * Everything a callback or hook does that the pump can observe is an action on a trace. A
 * subscriber is an oracle: how many times it calls makeAsynchronous on its extensions object,
 * whether it calls the returned token before returning, and whether it throws.
 */
module Delivery {
  import opened Base
  import opened Registry
  import opened Matching

  /** A queued or mediated event: its path is absent for entries a mediator made up itself. */
  datatype Entry = Entry(name: string, path: Option<seq<string>>, event: EventValue, completion: Option<CallbackId>)

  /** What the exception reporter receives: the action that threw and its arguments. */
  datatype Report =
    | CallSubscriber(subscriber: CallbackId, name: string, event: EventValue)
    | CallCompletionCallback(completion: CallbackId, numberOfSubscribers: nat)
    | CallMediator(batch: seq<Entry>)

  /** A call the pump makes into client code. */
  datatype Action =
    | Invoked(subscriber: CallbackId, name: string, event: EventValue)
    | Completed(completion: CallbackId, numberOfSubscribers: nat)
    | Mediated(batch: seq<Entry>)
    | Reported(report: Report)

  /** What a subscriber does when it is called. */
  datatype Behaviour = Behaviour(asyncRequests: nat, settlesNow: bool, throws: bool)

  /** The client callbacks as oracles: each subscriber's behaviour, and whether a completion callback throws. */
  datatype Environment = Environment(
    subscriber: (CallbackId, string, EventValue) -> Behaviour,
    completionThrows: (CallbackId, nat) -> bool)

  /**
   * The closure state of one deliverEvent call. Extensions object e was handed to the e-th
   * invoked subscriber, which called its makeAsynchronous requested[e] times; called[e] is that
   * object's "already called" flag. The number of subscribers is the number of extensions objects.
   */
  datatype Delivery = Delivery(
    name: string, event: EventValue, completion: Option<CallbackId>,
    pending: int, requested: seq<nat>, called: seq<bool>)

  datatype Outcome = Outcome(trace: seq<Action>, delivery: Delivery)

  function NumberOfSubscribers(d: Delivery): nat {
    |d.requested|
  }

  /** The decrements still owed: one per makeAsynchronous call, less one per extensions object whose token was called. */
  function Outstanding(requested: seq<nat>, called: seq<bool>): int
    requires |requested| == |called|
  {
    if requested == [] then 0
    else
      var n := |requested| - 1;
      Outstanding(requested[..n], called[..n]) + requested[n] - (if called[n] then 1 else 0)
  }

  /** A flag can only be set through a token, and a token exists only after makeAsynchronous. */
  predicate WellFormed(d: Delivery) {
    |d.requested| == |d.called| && forall e :: 0 <= e < |d.called| && d.called[e] ==> d.requested[e] > 0
  }

  /** During fan-out the counter is the seed 1 plus the outstanding decrements. */
  predicate Fanning(d: Delivery) {
    WellFormed(d) && d.pending == 1 + Outstanding(d.requested, d.called)
  }

  /** After fan-out the counter is exactly the outstanding decrements. */
  predicate Accounted(d: Delivery) {
    WellFormed(d) && d.pending == Outstanding(d.requested, d.called)
  }

  /** Every extensions object either never went asynchronous, or asked once and has been settled. */
  predicate Settled(d: Delivery)
    requires WellFormed(d)
  {
    forall e :: 0 <= e < |d.requested| ==> d.requested[e] == 0 || (d.requested[e] == 1 && d.called[e])
  }

  /** signalCompletion: call the completion callback with the number of subscribers, reporting it if it throws. */
  function Signal(env: Environment, trace: seq<Action>, d: Delivery): seq<Action> {
    match d.completion
    case None => trace
    case Some(cc) =>
      var n := NumberOfSubscribers(d);
      trace + [Completed(cc, n)] + (if env.completionThrows(cc, n) then [Reported(CallCompletionCallback(cc, n))] else [])
  }

  /** Calling a token of extensions object e: only the first call of any of its tokens decrements. */
  function Settle(env: Environment, o: Outcome, e: nat): Outcome
    requires WellFormed(o.delivery) && e < |o.delivery.requested| && o.delivery.requested[e] > 0
  {
    var d := o.delivery;
    if d.called[e] then o
    else
      var d' := d.(called := d.called[e := true], pending := d.pending - 1);
      Outcome(if d'.pending == 0 then Signal(env, o.trace, d') else o.trace, d')
  }

  /** Invoking one matched subscriber with a fresh extensions object; a throw is reported and swallowed. */
  function Invoke(env: Environment, o: Outcome, cb: CallbackId): (r: Outcome)
    requires WellFormed(o.delivery)
    ensures WellFormed(r.delivery)
  {
    var d := o.delivery;
    var b := env.subscriber(cb, d.name, d.event);
    var e := |d.requested|;
    var d1 := d.(pending := d.pending + b.asyncRequests,
                 requested := d.requested + [b.asyncRequests], called := d.called + [false]);
    var o1 := Outcome(o.trace + [Invoked(cb, d.name, d.event)], d1);
    var o2 := if b.settlesNow && b.asyncRequests > 0 then Settle(env, o1, e) else o1;
    if b.throws then o2.(trace := o2.trace + [Reported(CallSubscriber(cb, d.name, d.event))]) else o2
  }

  /** Invoking the callbacks one after the other. */
  function FanOut(env: Environment, o: Outcome, cbs: seq<CallbackId>): (r: Outcome)
    requires WellFormed(o.delivery)
    ensures WellFormed(r.delivery)
  {
    if cbs == [] then o else Invoke(env, FanOut(env, o, cbs[..|cbs| - 1]), cbs[|cbs| - 1])
  }

  /** The counter starts at 1, no subscriber has been called yet. */
  function Start(name: string, event: EventValue, completion: Option<CallbackId>): Delivery {
    Delivery(name, event, completion, 1, [], [])
  }

  /** The final decrement of the seed, signalling completion when nothing is outstanding. */
  function Finish(env: Environment, o: Outcome): Outcome {
    var d' := o.delivery.(pending := o.delivery.pending - 1);
    Outcome(if d'.pending == 0 then Signal(env, o.trace, d') else o.trace, d')
  }

  /** deliverEvent: fan out to every matched callback in the source's order, then drop the seed. */
  function Deliver(env: Environment, trace: seq<Action>, root: Node, name: string, path: seq<string>,
                   event: EventValue, completion: Option<CallbackId>): Outcome
  {
    Finish(env, FanOut(env, Outcome(trace, Start(name, event, completion)), Matched(root, path)))
  }

  /** The trace a fan-out leaves: each invocation, followed by its report when the subscriber threw. */
  function CallTrace(env: Environment, name: string, event: EventValue, cbs: seq<CallbackId>): seq<Action> {
    if cbs == [] then []
    else
      var cb := cbs[|cbs| - 1];
      CallTrace(env, name, event, cbs[..|cbs| - 1]) + [Invoked(cb, name, event)]
        + (if env.subscriber(cb, name, event).throws then [Reported(CallSubscriber(cb, name, event))] else [])
  }

  /** Applying a sequence of token calls, each naming its extensions object. */
  function Settles(env: Environment, o: Outcome, es: seq<nat>): (r: Outcome)
    requires WellFormed(o.delivery)
    requires forall i :: 0 <= i < |es| ==> es[i] < |o.delivery.requested| && o.delivery.requested[es[i]] > 0
    ensures WellFormed(r.delivery) && r.delivery.requested == o.delivery.requested
    decreases |es|
  {
    if es == [] then o
    else
      var r := Settle(env, o, es[0]);
      Settles(env, r, es[1..])
  }

  function Completions(trace: seq<Action>): nat {
    if trace == [] then 0
    else Completions(trace[..|trace| - 1]) + if trace[|trace| - 1].Completed? then 1 else 0
  }

  // ---------------------------------------------------------------------------------------
  // The outstanding count

  lemma {:induction false} OutstandingSnoc(requested: seq<nat>, called: seq<bool>, a: nat)
    requires |requested| == |called|
    ensures Outstanding(requested + [a], called + [false]) == Outstanding(requested, called) + a
  {
  }

  lemma {:induction false} OutstandingNonNegative(requested: seq<nat>, called: seq<bool>)
    requires |requested| == |called|
    requires forall e :: 0 <= e < |called| && called[e] ==> requested[e] > 0
    ensures Outstanding(requested, called) >= 0
    decreases |requested|
  {
    if requested != [] {
      OutstandingNonNegative(requested[..|requested| - 1], called[..|called| - 1]);
    }
  }

  lemma {:induction false} OutstandingAtLeast(requested: seq<nat>, called: seq<bool>, e: nat)
    requires |requested| == |called| && e < |requested|
    requires forall e :: 0 <= e < |called| && called[e] ==> requested[e] > 0
    ensures Outstanding(requested, called) >= requested[e] - (if called[e] then 1 else 0)
    decreases |requested|
  {
    var n := |requested| - 1;
    OutstandingNonNegative(requested[..n], called[..n]);
    if e < n {
      OutstandingAtLeast(requested[..n], called[..n], e);
    }
  }

  lemma {:induction false} OutstandingSet(requested: seq<nat>, called: seq<bool>, e: nat)
    requires |requested| == |called| && e < |requested| && !called[e]
    ensures Outstanding(requested, called[e := true]) == Outstanding(requested, called) - 1
    decreases |requested|
  {
    var n := |requested| - 1;
    var c := called[e := true];
    if e < n {
      assert c[..n] == called[..n][e := true];
      OutstandingSet(requested[..n], called[..n], e);
    } else {
      assert c[..n] == called[..n];
    }
  }

  lemma {:induction false} OutstandingZero(requested: seq<nat>, called: seq<bool>)
    requires |requested| == |called|
    requires forall e :: 0 <= e < |called| && called[e] ==> requested[e] > 0
    ensures Outstanding(requested, called) == 0 <==>
      forall e :: 0 <= e < |requested| ==> requested[e] == 0 || (requested[e] == 1 && called[e])
    decreases |requested|
  {
    if requested != [] {
      var n := |requested| - 1;
      OutstandingZero(requested[..n], called[..n]);
      OutstandingNonNegative(requested[..n], called[..n]);
      if forall e :: 0 <= e < |requested| ==> requested[e] == 0 || (requested[e] == 1 && called[e]) {
        assert forall e :: 0 <= e < n ==> requested[..n][e] == 0 || (requested[..n][e] == 1 && called[..n][e]);
      } else {
        var e :| 0 <= e < |requested| && !(requested[e] == 0 || (requested[e] == 1 && called[e]));
        OutstandingAtLeast(requested, called, e);
      }
    }
  }

  /** Accounting works out: the counter is zero exactly when every extensions object is settled. */
  lemma SettledWhenZero(d: Delivery)
    requires Accounted(d)
    ensures d.pending == 0 <==> Settled(d)
    ensures d.pending >= 0
  {
    OutstandingZero(d.requested, d.called);
    OutstandingNonNegative(d.requested, d.called);
  }

  // ---------------------------------------------------------------------------------------
  // Fan-out

  /** One invocation adds one extensions object with the subscriber's requests, and keeps the event. */
  lemma InvokeShape(env: Environment, o: Outcome, cb: CallbackId)
    requires WellFormed(o.delivery)
    ensures var r := Invoke(env, o, cb);
      var d := o.delivery;
      && r.delivery.requested == d.requested + [env.subscriber(cb, d.name, d.event).asyncRequests]
      && (r.delivery.name, r.delivery.event, r.delivery.completion) == (d.name, d.event, d.completion)
  {
  }

  /**
   * One invocation during fan-out: the call, then its report when the subscriber threw; a token
   * the subscriber calls before returning cannot take the counter to zero.
   */
  lemma InvokeFanning(env: Environment, o: Outcome, cb: CallbackId)
    requires Fanning(o.delivery)
    ensures var r := Invoke(env, o, cb);
      var d := o.delivery;
      && Fanning(r.delivery)
      && r.trace == o.trace + [Invoked(cb, d.name, d.event)]
           + (if env.subscriber(cb, d.name, d.event).throws then [Reported(CallSubscriber(cb, d.name, d.event))] else [])
  {
    var d := o.delivery;
    var b := env.subscriber(cb, d.name, d.event);
    var e := |d.requested|;
    OutstandingSnoc(d.requested, d.called, b.asyncRequests);
    if b.settlesNow && b.asyncRequests > 0 {
      var called := d.called + [false];
      var requested := d.requested + [b.asyncRequests];
      OutstandingSet(requested, called, e);
      OutstandingNonNegative(requested, called[e := true]);
    }
  }

  /** A fan-out hands out one extensions object per callback and keeps the earlier ones and the event. */
  lemma {:induction false} FanOutShape(env: Environment, o: Outcome, cbs: seq<CallbackId>)
    requires WellFormed(o.delivery)
    ensures var r := FanOut(env, o, cbs);
      && NumberOfSubscribers(r.delivery) == NumberOfSubscribers(o.delivery) + |cbs|
      && r.delivery.requested[..|o.delivery.requested|] == o.delivery.requested
      && (r.delivery.name, r.delivery.event, r.delivery.completion)
         == (o.delivery.name, o.delivery.event, o.delivery.completion)
    decreases |cbs|
  {
    if cbs != [] {
      var init, cb := cbs[..|cbs| - 1], cbs[|cbs| - 1];
      FanOutShape(env, o, init);
      var m := FanOut(env, o, init);
      InvokeShape(env, m, cb);
      var r := Invoke(env, m, cb);
      assert FanOut(env, o, cbs) == r;
      assert r.delivery.requested[..|o.delivery.requested|] == m.delivery.requested[..|o.delivery.requested|];
    }
  }

  /** Completion cannot fire during fan-out: whatever the subscribers do, the counter stays above zero. */
  lemma {:induction false} FanOutSeeded(env: Environment, o: Outcome, cbs: seq<CallbackId>)
    requires Fanning(o.delivery)
    ensures Fanning(FanOut(env, o, cbs).delivery)
    decreases |cbs|
  {
    if cbs != [] {
      var init, cb := cbs[..|cbs| - 1], cbs[|cbs| - 1];
      FanOutSeeded(env, o, init);
      InvokeFanning(env, FanOut(env, o, init), cb);
    }
  }

  /**
   * The trace of a fan-out: each callback invoked with the event in order, each throw reported
   * right after its invocation, and nothing else (no completion call).
   */
  lemma {:induction false} FanOutCalls(env: Environment, o: Outcome, cbs: seq<CallbackId>)
    requires Fanning(o.delivery)
    ensures FanOut(env, o, cbs).trace == o.trace + CallTrace(env, o.delivery.name, o.delivery.event, cbs)
    decreases |cbs|
  {
    if cbs != [] {
      var d := o.delivery;
      var init, cb := cbs[..|cbs| - 1], cbs[|cbs| - 1];
      FanOutCalls(env, o, init);
      FanOutShape(env, o, init);
      FanOutSeeded(env, o, init);
      var m := FanOut(env, o, init);
      InvokeFanning(env, m, cb);
      FanOutSnoc(env, o, cbs);
      CallTraceSnoc(env, d.name, d.event, cbs);
    }
  }

  lemma FanOutSnoc(env: Environment, o: Outcome, cbs: seq<CallbackId>)
    requires WellFormed(o.delivery) && cbs != []
    ensures FanOut(env, o, cbs) == Invoke(env, FanOut(env, o, cbs[..|cbs| - 1]), cbs[|cbs| - 1])
  {
  }

  lemma CallTraceSnoc(env: Environment, name: string, event: EventValue, cbs: seq<CallbackId>)
    requires cbs != []
    ensures var cb := cbs[|cbs| - 1];
      CallTrace(env, name, event, cbs) == CallTrace(env, name, event, cbs[..|cbs| - 1]) + [Invoked(cb, name, event)]
        + (if env.subscriber(cb, name, event).throws then [Reported(CallSubscriber(cb, name, event))] else [])
  {
  }

  /** Fanning out to `a` followed by `b` is fanning out to `a`, then from there to `b`. */
  lemma {:induction false} FanOutAppend(env: Environment, o: Outcome, a: seq<CallbackId>, b: seq<CallbackId>)
    requires WellFormed(o.delivery)
    ensures FanOut(env, o, a + b) == FanOut(env, FanOut(env, o, a), b)
    decreases |b|
  {
    if b == [] {
      assert a + b == a;
    } else {
      FanOutAppend(env, o, a, b[..|b| - 1]);
      assert (a + b)[..|a + b| - 1] == a + b[..|b| - 1];
    }
  }

  /**
   * deliverEvent's outcome: the number of subscribers is the number of matched callbacks,
   * including the ones that threw; the counter is the outstanding decrements; and completion is
   * signalled with that number, after all invocations, exactly when every extensions object is settled.
   */
  lemma DeliverOutcome(env: Environment, trace: seq<Action>, root: Node, name: string, path: seq<string>,
                       event: EventValue, completion: Option<CallbackId>)
    ensures var r := Deliver(env, trace, root, name, path, event, completion);
      var calls := trace + CallTrace(env, name, event, Matched(root, path));
      && Accounted(r.delivery)
      && NumberOfSubscribers(r.delivery) == |Matched(root, path)|
      && (r.delivery.name, r.delivery.event, r.delivery.completion) == (name, event, completion)
      && (Settled(r.delivery) ==> r.trace == Signal(env, calls, r.delivery))
      && (!Settled(r.delivery) ==> r.trace == calls)
  {
    var o := Outcome(trace, Start(name, event, completion));
    FanOutCalls(env, o, Matched(root, path));
    FanOutSeeded(env, o, Matched(root, path));
    FanOutShape(env, o, Matched(root, path));
    var r := Deliver(env, trace, root, name, path, event, completion);
    SettledWhenZero(r.delivery);
  }

  // ---------------------------------------------------------------------------------------
  // Tokens after fan-out

  /**
   * A token call keeps the accounting, and signals completion exactly when it settles the last
   * outstanding decrement.
   */
  lemma SettleAccounted(env: Environment, o: Outcome, e: nat)
    requires Accounted(o.delivery) && e < |o.delivery.requested| && o.delivery.requested[e] > 0
    ensures var r := Settle(env, o, e);
      && Accounted(r.delivery)
      && r.delivery.requested == o.delivery.requested
      && (r.delivery.pending == 0 && o.delivery.pending != 0 ==> r.trace == Signal(env, o.trace, r.delivery))
      && (r.delivery.pending != 0 || o.delivery.pending == 0 ==> r.trace == o.trace)
      && r.delivery.pending <= o.delivery.pending
  {
    var d := o.delivery;
    if !d.called[e] {
      OutstandingSet(d.requested, d.called, e);
    } else {
      SettledWhenZero(d);
    }
  }

  /** Each extensions object decrements at most once: calling its token again changes nothing. */
  lemma SettleOnce(env: Environment, o: Outcome, e: nat)
    requires WellFormed(o.delivery) && e < |o.delivery.requested| && o.delivery.requested[e] > 0
    ensures Settle(env, Settle(env, o, e), e) == Settle(env, o, e)
  {
  }

  lemma {:induction false} CompletionsAppend(a: seq<Action>, b: seq<Action>)
    ensures Completions(a + b) == Completions(a) + Completions(b)
    decreases |b|
  {
    if b == [] {
      assert a + b == a;
    } else {
      assert (a + b)[..|a + b| - 1] == a + b[..|b| - 1];
      CompletionsAppend(a, b[..|b| - 1]);
    }
  }

  lemma SignalCompletions(env: Environment, trace: seq<Action>, d: Delivery)
    ensures Completions(Signal(env, trace, d)) == Completions(trace) + if d.completion.Some? then 1 else 0
  {
    if d.completion.Some? {
      var cc := d.completion.value;
      var n := NumberOfSubscribers(d);
      var tail := [Completed(cc, n)] + (if env.completionThrows(cc, n) then [Reported(CallCompletionCallback(cc, n))] else []);
      assert Signal(env, trace, d) == trace + tail;
      CompletionsAppend(trace, tail);
      CompletionsAppend([Completed(cc, n)], tail[1..]);
      assert tail == [Completed(cc, n)] + tail[1..];
      assert Completions([Completed(cc, n)]) == 1 by {
        assert [Completed(cc, n)][..0] == [];
      }
    }
  }

  /**
   * Completion fires at most once: over any sequence of token calls after fan-out, the
   * completion callback is called once if the counter went from positive to zero, and never otherwise.
   */
  lemma {:induction false} SettlesComplete(env: Environment, o: Outcome, es: seq<nat>)
    requires Accounted(o.delivery)
    requires forall i :: 0 <= i < |es| ==> es[i] < |o.delivery.requested| && o.delivery.requested[es[i]] > 0
    ensures var r := Settles(env, o, es);
      && Accounted(r.delivery)
      && r.delivery.pending <= o.delivery.pending
      && Completions(r.trace) == Completions(o.trace)
           + if o.delivery.pending != 0 && r.delivery.pending == 0 && o.delivery.completion.Some? then 1 else 0
    decreases |es|
  {
    if es != [] {
      var m := Settle(env, o, es[0]);
      SettleAccounted(env, o, es[0]);
      SettlesComplete(env, m, es[1..]);
      SettledWhenZero(m.delivery);
      SettledWhenZero(Settles(env, m, es[1..]).delivery);
      if m.delivery.pending == 0 && o.delivery.pending != 0 {
        SignalCompletions(env, o.trace, m.delivery);
      }
    }
  }

  /**
   * An extensions object whose makeAsynchronous was called twice owes two decrements but can only
   * pay one: completion then never fires, whatever tokens are called.
   */
  lemma {:induction false} DoubleRequestBlocks(env: Environment, o: Outcome, es: seq<nat>, e: nat)
    requires Accounted(o.delivery) && e < |o.delivery.requested| && o.delivery.requested[e] >= 2
    requires forall i :: 0 <= i < |es| ==> es[i] < |o.delivery.requested| && o.delivery.requested[es[i]] > 0
    ensures Settles(env, o, es).trace == o.trace
    ensures Settles(env, o, es).delivery.pending > 0
    decreases |es|
  {
    OutstandingAtLeast(o.delivery.requested, o.delivery.called, e);
    if es != [] {
      var m := Settle(env, o, es[0]);
      SettleAccounted(env, o, es[0]);
      OutstandingAtLeast(m.delivery.requested, m.delivery.called, e);
      DoubleRequestBlocks(env, m, es[1..], e);
    }
  }
}
