/**
 * The event pump itself: publish and subscribe requests are queued, and a drain (the timer
 * callback pumpQueue) cuts the queue into batches at every subscribe request, passes each
 * non-empty batch through the mediator and delivers its entries one by one.
 *
 * The value-level functions here specify the queue operations, deliverEventBatch and pumpQueue;
 * the class EventPump at the end holds the pump's state and implements them step by step.
 */
module Pump {
  import opened Base
  import opened Registry
  import opened Matching
  import opened Delivery
  import Paths

  /** A queued publish request, or a queued subscribe request with its already split pattern. */
  datatype QueueItem =
    | Publish(entry: Entry)
    | Subscribe(pattern: string, path: seq<string>, callback: CallbackId)

  /** How a publish or subscribe call ends: normally, by throwing a validation error, or because the augmenter threw. */
  datatype Status = Accepted | Refused(kind: ErrorKind) | AugmenterThrew

  /** The configured hooks; a hook that throws returns None. */
  datatype Hooks = Hooks(
    augmenter: (string, EventValue) -> Option<EventValue>,
    mediator: seq<Entry> -> Option<seq<Entry>>,
    env: Environment)

  /** The constructor's configuration: a hook that is not a function is absent. */
  datatype Config = Config(
    augmenter: Option<(string, EventValue) -> Option<EventValue>>,
    mediator: Option<seq<Entry> -> Option<seq<Entry>>>,
    env: Environment)

  /** Absent hooks fall back to the identity augmenter and the identity mediator. */
  function HooksOf(config: Config): (h: Hooks)
    ensures config.augmenter.None? ==> forall name: string, event: EventValue :: h.augmenter(name, event) == Some(event)
    ensures config.mediator.None? ==> forall batch :: h.mediator(batch) == Some(batch)
    ensures config.augmenter.Some? ==> h.augmenter == config.augmenter.value
    ensures config.mediator.Some? ==> h.mediator == config.mediator.value
  {
    Hooks(
      if config.augmenter.Some? then config.augmenter.value else (name: string, event: EventValue) => Some(event),
      if config.mediator.Some? then config.mediator.value else (batch: seq<Entry>) => Some(batch),
      config.env)
  }

  /** What the pump has done to the outside world, and the deliveries whose tokens are still callable. */
  datatype Effects = Effects(trace: seq<Action>, deliveries: seq<Delivery>)

  datatype PumpState = PumpState(root: Node, queue: seq<QueueItem>, fx: Effects, ok: bool)

  // ---------------------------------------------------------------------------------------
  // The queue

  predicate IsPending(queue: seq<QueueItem>, pattern: string, cb: CallbackId) {
    exists i :: 0 <= i < |queue| && queue[i].Subscribe? && queue[i].pattern == pattern && queue[i].callback == cb
  }

  /** countNumberOfPendingSubscribers: the queued subscribe requests. */
  function PendingCount(queue: seq<QueueItem>): nat {
    if queue == [] then 0 else (if queue[0].Subscribe? then 1 else 0) + PendingCount(queue[1..])
  }

  /** removePendingSubscriberFromQueue: every queued subscribe request of the callback spliced out. */
  function WithoutPending(queue: seq<QueueItem>, cb: CallbackId): seq<QueueItem> {
    if queue == [] then []
    else (if queue[0].Subscribe? && queue[0].callback == cb then [] else [queue[0]]) + WithoutPending(queue[1..], cb)
  }

  /** No (pattern, callback) pair is queued twice. */
  predicate UniquePending(queue: seq<QueueItem>) {
    queue == [] ||
    ((queue[0].Subscribe? ==> !IsPending(queue[1..], queue[0].pattern, queue[0].callback)) && UniquePending(queue[1..]))
  }

  /** Every queued subscribe request is new: its path is its pattern split, and it is neither established nor queued twice. */
  predicate QueueFresh(root: Node, queue: seq<QueueItem>) {
    && (forall i :: 0 <= i < |queue| && queue[i].Subscribe? ==>
          queue[i].path == Paths.Split(queue[i].pattern) && queue[i].callback !in Lookup(root, queue[i].path))
    && UniquePending(queue)
  }

  /**
   * The pump's invariant: no callback is registered twice under one pattern, every queued
   * subscription is new, and every delivery's counter agrees with its extensions objects.
   */
  ghost predicate PumpInvariant(root: Node, queue: seq<QueueItem>, deliveries: seq<Delivery>) {
    RegistryDistinct(root) && QueueFresh(root, queue) && AllAccounted(deliveries)
  }

  ghost predicate RegistryDistinct(root: Node) {
    forall p :: Distinct(Lookup(root, p))
  }

  ghost predicate SameLookups(a: Node, b: Node) {
    forall p :: Lookup(a, p) == Lookup(b, p)
  }

  predicate AllAccounted(deliveries: seq<Delivery>) {
    forall i :: 0 <= i < |deliveries| ==> Accounted(deliveries[i])
  }

  /** A delivery records the name, event and completion callback of the entry it delivers. */
  predicate Carries(d: Delivery, e: Entry) {
    d.name == e.name && d.event == e.event && d.completion == e.completion
  }

  /** `after` keeps `before` and then holds one delivery per entry of a prefix of `entries`, in order. */
  predicate DeliveredInOrder(before: seq<Delivery>, after: seq<Delivery>, entries: seq<Entry>) {
    && |before| <= |after| <= |before| + |entries|
    && after[..|before|] == before
    && forall i :: |before| <= i < |after| ==> Carries(after[i], entries[i - |before|])
  }

  /** subscribe after validation: the pending search, then the established search with its node creation, then the queueing. */
  function Subscribed(root: Node, queue: seq<QueueItem>, pattern: string, cb: CallbackId): (Node, seq<QueueItem>) {
    var path := Paths.Split(pattern);
    if IsPending(queue, pattern, cb) then (root, queue)
    else if cb in Lookup(root, path) then (Materialize(root, path), queue)
    else (Materialize(root, path), queue + [Subscribe(pattern, path, cb)])
  }

  /** numberOfSubscribers: the established callbacks plus the queued subscribe requests. */
  ghost function NumberOf(root: Node, queue: seq<QueueItem>): nat {
    Count(root) + PendingCount(queue)
  }

  // ---------------------------------------------------------------------------------------
  // Batches and the drain

  /** The entries of the leading publish requests. */
  function Entries(queue: seq<QueueItem>): seq<Entry> {
    if queue == [] || !queue[0].Publish? then [] else [queue[0].entry] + Entries(queue[1..])
  }

  predicate AllPublish(queue: seq<QueueItem>) {
    forall i :: 0 <= i < |queue| ==> queue[i].Publish?
  }

  /** The path an entry is delivered along: its own, or its name split and checked. */
  function EntryPath(e: Entry): Result<seq<string>> {
    if e.path.Some? then Ok(e.path.value) else Paths.EventPath(e.name)
  }

  /** The entry loop of deliverEventBatch; an entry without a path and with a malformed name aborts it. */
  function DeliverEntries(h: Hooks, root: Node, fx: Effects, entries: seq<Entry>): (Effects, bool)
    decreases |entries|
  {
    if entries == [] then (fx, true)
    else
      var e := entries[0];
      var path := EntryPath(e);
      if path.Err? then (fx, false)
      else
        var o := Deliver(h.env, fx.trace, root, e.name, path.value, e.event, e.completion);
        DeliverEntries(h, root, Effects(o.trace, fx.deliveries + [o.delivery]), entries[1..])
  }

  /** What the mediator leaves to deliver: its result, or the batch itself when it threw. */
  function MediatorOutput(h: Hooks, batch: seq<Entry>): seq<Entry> {
    match h.mediator(batch)
    case Some(out) => out
    case None => batch
  }

  /** deliverEventBatch: nothing for an empty batch; otherwise one mediator call, then the entries in its order. */
  function DeliverBatch(h: Hooks, root: Node, fx: Effects, batch: seq<Entry>): (Effects, bool) {
    if batch == [] then (fx, true)
    else
      var t := fx.trace + [Mediated(batch)] + (if h.mediator(batch).None? then [Reported(CallMediator(batch))] else []);
      DeliverEntries(h, root, fx.(trace := t), MediatorOutput(h, batch))
  }

  /**
   * pumpQueue, from a point where `batch` has been collected: publish requests are collected,
   * a subscribe request first delivers the collected batch against the registry as it is and
   * then registers its callback. An aborted batch ends the drain with the rest of the queue left.
   */
  function Drain(h: Hooks, root: Node, queue: seq<QueueItem>, batch: seq<Entry>, fx: Effects): PumpState
    decreases |queue|
  {
    if queue == [] then
      var b := DeliverBatch(h, root, fx, batch);
      PumpState(root, [], b.0, b.1)
    else
      match queue[0]
      case Publish(e) => Drain(h, root, queue[1..], batch + [e], fx)
      case Subscribe(_, path, cb) =>
        var b := DeliverBatch(h, root, fx, batch);
        if !b.1 then PumpState(root, queue[1..], b.0, false)
        else Drain(h, Insert(root, path, cb), queue[1..], [], b.0)
  }

  /** The kinds of action the batch lemmas count: invocations of one subscriber, mediator calls, mediator reports. */
  datatype Kind = InvocationOf(cb: CallbackId) | Mediation | MediatorReport

  predicate IsKind(k: Kind, a: Action) {
    match k
    case InvocationOf(cb) => a.Invoked? && a.subscriber == cb
    case Mediation => a.Mediated?
    case MediatorReport => a.Reported? && a.report.CallMediator?
  }

  /** How many actions of a kind a trace holds. */
  function Tally(trace: seq<Action>, k: Kind): nat {
    if trace == [] then 0 else Tally(trace[..|trace| - 1], k) + if IsKind(k, trace[|trace| - 1]) then 1 else 0
  }

  // ---------------------------------------------------------------------------------------
  // Queue lemmas

  lemma {:induction false} PendingCountAppend(queue: seq<QueueItem>, item: QueueItem)
    ensures PendingCount(queue + [item]) == PendingCount(queue) + if item.Subscribe? then 1 else 0
    decreases |queue|
  {
    if queue == [] {
      assert [] + [item] == [item];
    } else {
      assert (queue + [item])[1..] == queue[1..] + [item];
      PendingCountAppend(queue[1..], item);
    }
  }

  /** Unsubscribing leaves no queued subscribe request of the callback, and every other item in order. */
  lemma {:induction false} WithoutPendingRemoves(queue: seq<QueueItem>, cb: CallbackId)
    ensures forall it :: it in WithoutPending(queue, cb) <==> it in queue && !(it.Subscribe? && it.callback == cb)
    decreases |queue|
  {
    if queue != [] {
      WithoutPendingRemoves(queue[1..], cb);
      assert queue == [queue[0]] + queue[1..];
    }
  }

  lemma {:induction false} WithoutPendingIdempotent(queue: seq<QueueItem>, cb: CallbackId)
    ensures WithoutPending(WithoutPending(queue, cb), cb) == WithoutPending(queue, cb)
    decreases |queue|
  {
    if queue != [] {
      WithoutPendingIdempotent(queue[1..], cb);
      var r := WithoutPending(queue[1..], cb);
      if !(queue[0].Subscribe? && queue[0].callback == cb) {
        assert WithoutPending(queue, cb) == [queue[0]] + r;
        assert ([queue[0]] + r)[0] == queue[0] && ([queue[0]] + r)[1..] == r;
      } else {
        assert WithoutPending(queue, cb) == r;
      }
    }
  }

  /** Publish requests are never removed by an unsubscribe. */
  lemma {:induction false} WithoutPendingCount(queue: seq<QueueItem>, cb: CallbackId)
    ensures PendingCount(WithoutPending(queue, cb)) <= PendingCount(queue)
    ensures (forall i :: 0 <= i < |queue| ==> !queue[i].Subscribe? || queue[i].callback == cb) ==> PendingCount(WithoutPending(queue, cb)) == 0
    decreases |queue|
  {
    if queue != [] {
      WithoutPendingCount(queue[1..], cb);
      var r := WithoutPending(queue[1..], cb);
      if !(queue[0].Subscribe? && queue[0].callback == cb) {
        assert WithoutPending(queue, cb) == [queue[0]] + r;
        assert ([queue[0]] + r)[0] == queue[0] && ([queue[0]] + r)[1..] == r;
      } else {
        assert WithoutPending(queue, cb) == r;
      }
      if forall i :: 0 <= i < |queue| ==> !queue[i].Subscribe? || queue[i].callback == cb {
        assert forall i :: 0 <= i < |queue[1..]| ==> !queue[1..][i].Subscribe? || queue[1..][i].callback == cb by {
          forall i | 0 <= i < |queue[1..]| ensures !queue[1..][i].Subscribe? || queue[1..][i].callback == cb {
            assert queue[1..][i] == queue[i + 1];
          }
        }
      }
    }
  }

  lemma IsPendingTail(queue: seq<QueueItem>, pattern: string, cb: CallbackId)
    requires queue != []
    ensures IsPending(queue, pattern, cb) <==>
      (queue[0].Subscribe? && queue[0].pattern == pattern && queue[0].callback == cb) || IsPending(queue[1..], pattern, cb)
  {
  }

  lemma {:induction false} WithoutPendingPending(queue: seq<QueueItem>, cb: CallbackId, pattern: string, x: CallbackId)
    ensures IsPending(WithoutPending(queue, cb), pattern, x) <==> IsPending(queue, pattern, x) && x != cb
    decreases |queue|
  {
    if queue != [] {
      WithoutPendingPending(queue[1..], cb, pattern, x);
      IsPendingTail(queue, pattern, x);
      var r := WithoutPending(queue[1..], cb);
      if queue[0].Subscribe? && queue[0].callback == cb {
        assert WithoutPending(queue, cb) == r;
      } else {
        assert WithoutPending(queue, cb) == [queue[0]] + r;
        assert ([queue[0]] + r)[1..] == r;
        IsPendingTail([queue[0]] + r, pattern, x);
      }
    }
  }

  lemma {:induction false} WithoutPendingUnique(queue: seq<QueueItem>, cb: CallbackId)
    requires UniquePending(queue)
    ensures UniquePending(WithoutPending(queue, cb))
    decreases |queue|
  {
    if queue != [] {
      WithoutPendingUnique(queue[1..], cb);
      var r := WithoutPending(queue[1..], cb);
      if !(queue[0].Subscribe? && queue[0].callback == cb) {
        assert WithoutPending(queue, cb) == [queue[0]] + r;
        assert ([queue[0]] + r)[0] == queue[0] && ([queue[0]] + r)[1..] == r;
        if queue[0].Subscribe? {
          WithoutPendingPending(queue[1..], cb, queue[0].pattern, queue[0].callback);
        }
      } else {
        assert WithoutPending(queue, cb) == r;
      }
    }
  }

  lemma {:induction false} AppendUnique(queue: seq<QueueItem>, item: QueueItem)
    requires UniquePending(queue)
    requires item.Subscribe? ==> !IsPending(queue, item.pattern, item.callback)
    ensures UniquePending(queue + [item])
    decreases |queue|
  {
    if queue == [] {
      assert [] + [item] == [item];
      assert [item][1..] == [];
    } else {
      var q := queue + [item];
      assert q[0] == queue[0] && q[1..] == queue[1..] + [item];
      if item.Subscribe? {
        IsPendingTail(queue, item.pattern, item.callback);
      }
      AppendUnique(queue[1..], item);
      if queue[0].Subscribe? {
        AppendPending(queue[1..], item, queue[0].pattern, queue[0].callback);
        assert !(item.Subscribe? && item.pattern == queue[0].pattern && item.callback == queue[0].callback);
      }
    }
  }

  lemma AppendPending(queue: seq<QueueItem>, item: QueueItem, pattern: string, cb: CallbackId)
    ensures IsPending(queue + [item], pattern, cb) <==>
      IsPending(queue, pattern, cb) || (item.Subscribe? && item.pattern == pattern && item.callback == cb)
  {
    var q := queue + [item];
    if IsPending(q, pattern, cb) {
      var i :| 0 <= i < |q| && q[i].Subscribe? && q[i].pattern == pattern && q[i].callback == cb;
      if i < |queue| {
        assert queue[i] == q[i];
      }
    }
    if IsPending(queue, pattern, cb) {
      var i :| 0 <= i < |queue| && queue[i].Subscribe? && queue[i].pattern == pattern && queue[i].callback == cb;
      assert q[i] == queue[i];
    }
    if item.Subscribe? && item.pattern == pattern && item.callback == cb {
      assert q[|queue|] == item;
    }
  }

  // ---------------------------------------------------------------------------------------
  // Subscribe and unsubscribe

  /** Subscribing the same (pattern, callback) twice in a row is the same as subscribing it once. */
  lemma SubscribeIdempotent(root: Node, queue: seq<QueueItem>, pattern: string, cb: CallbackId)
    ensures var s := Subscribed(root, queue, pattern, cb);
      Subscribed(s.0, s.1, pattern, cb) == s
  {
    var path := Paths.Split(pattern);
    if !IsPending(queue, pattern, cb) {
      var m := Materialize(root, path);
      MaterializeLookup(root, path, path);
      if cb in Lookup(root, path) {
        MaterializeIdempotent(root, path);
      } else {
        AppendPending(queue, Subscribe(pattern, path, cb), pattern, cb);
      }
    }
  }

  /**
   * Subscribe never changes a registered callback list, and numberOfSubscribers grows by one
   * exactly when the pair was neither queued nor established.
   */
  lemma SubscribeCounts(root: Node, queue: seq<QueueItem>, pattern: string, cb: CallbackId)
    ensures var s := Subscribed(root, queue, pattern, cb);
      && SameLookups(s.0, root)
      && NumberOf(s.0, s.1) == NumberOf(root, queue)
           + if IsPending(queue, pattern, cb) || cb in Lookup(root, Paths.Split(pattern)) then 0 else 1
  {
    var path := Paths.Split(pattern);
    forall q ensures Lookup(Materialize(root, path), q) == Lookup(root, q) {
      MaterializeLookup(root, path, q);
    }
    CountMaterialize(root, path);
    PendingCountAppend(queue, Subscribe(pattern, path, cb));
  }

  lemma SubscribeKeepsInvariant(root: Node, queue: seq<QueueItem>, deliveries: seq<Delivery>, pattern: string, cb: CallbackId)
    requires PumpInvariant(root, queue, deliveries)
    ensures var s := Subscribed(root, queue, pattern, cb);
      PumpInvariant(s.0, s.1, deliveries)
  {
    var path := Paths.Split(pattern);
    var s := Subscribed(root, queue, pattern, cb);
    SubscribeCounts(root, queue, pattern, cb);
    assert SameLookups(s.0, root);
    if !IsPending(queue, pattern, cb) && cb !in Lookup(root, path) {
      AppendUnique(queue, Subscribe(pattern, path, cb));
    }
  }

  /**
   * After unsubscribe(cb): the registry holds cb nowhere, no subscribe request for cb is queued,
   * no node below the root is empty, and every other callback and request is kept.
   */
  lemma UnsubscribeRemoves(root: Node, queue: seq<QueueItem>, cb: CallbackId)
    ensures forall x :: Holds(Remove(root, cb), x) <==> Holds(root, x) && x != cb
    ensures forall it :: it in WithoutPending(queue, cb) <==> it in queue && !(it.Subscribe? && it.callback == cb)
    ensures NoEmptyBelow(Remove(root, cb))
  {
    forall x ensures Holds(Remove(root, cb), x) <==> Holds(root, x) && x != cb {
      HoldsRemove(root, cb, x);
    }
    WithoutPendingRemoves(queue, cb);
    RemovePrunes(root, cb);
  }

  /** Unsubscribing twice is the same as unsubscribing once. */
  lemma UnsubscribeIdempotent(root: Node, queue: seq<QueueItem>, cb: CallbackId)
    ensures Remove(Remove(root, cb), cb) == Remove(root, cb)
    ensures WithoutPending(WithoutPending(queue, cb), cb) == WithoutPending(queue, cb)
  {
    RemoveIdempotent(root, cb);
    WithoutPendingIdempotent(queue, cb);
  }

  function UnsubscribeAll(root: Node, queue: seq<QueueItem>, cbs: seq<CallbackId>): (Node, seq<QueueItem>)
    decreases |cbs|
  {
    if cbs == [] then (root, queue)
    else UnsubscribeAll(Remove(root, cbs[0]), WithoutPending(queue, cbs[0]), cbs[1..])
  }

  /**
   * Unsubscribing every callback that is registered or queued leaves numberOfSubscribers at 0
   * and, when at least one unsubscribe happened, a root without children.
   */
  lemma {:induction false} UnsubscribeAllEmpties(root: Node, queue: seq<QueueItem>, cbs: seq<CallbackId>)
    requires forall x :: Holds(root, x) ==> x in cbs
    requires forall i :: 0 <= i < |queue| && queue[i].Subscribe? ==> queue[i].callback in cbs
    ensures var r := UnsubscribeAll(root, queue, cbs);
      && NumberOf(r.0, r.1) == 0
      && (cbs != [] ==> r.0.children == map[])
    decreases |cbs|
  {
    if cbs == [] {
      NothingHeldCountsZero(root);
      WithoutPendingCount(queue, 0);
      assert PendingCount(queue) == 0 by {
        PendingCountZero(queue);
      }
    } else {
      var cb := cbs[0];
      var root', queue' := Remove(root, cb), WithoutPending(queue, cb);
      forall x | Holds(root', x) ensures x in cbs[1..] {
        HoldsRemove(root, cb, x);
      }
      WithoutPendingRemoves(queue, cb);
      forall i | 0 <= i < |queue'| && queue'[i].Subscribe? ensures queue'[i].callback in cbs[1..] {
        assert queue'[i] in queue';
      }
      UnsubscribeAllEmpties(root', queue', cbs[1..]);
      if cbs[1..] == [] {
        RemovePrunes(root, cb);
        NoResidue(root');
      } else {
        UnsubscribeAllPrunes(root', queue', cbs[1..]);
      }
    }
  }

  lemma {:induction false} PendingCountZero(queue: seq<QueueItem>)
    requires forall i :: 0 <= i < |queue| ==> !queue[i].Subscribe?
    ensures PendingCount(queue) == 0
    decreases |queue|
  {
    if queue != [] {
      assert forall i :: 0 <= i < |queue[1..]| ==> !queue[1..][i].Subscribe? by {
        forall i | 0 <= i < |queue[1..]| ensures !queue[1..][i].Subscribe? {
          assert queue[1..][i] == queue[i + 1];
        }
      }
      PendingCountZero(queue[1..]);
    }
  }

  lemma {:induction false} UnsubscribeAllPrunes(root: Node, queue: seq<QueueItem>, cbs: seq<CallbackId>)
    requires cbs != []
    ensures NoEmptyBelow(UnsubscribeAll(root, queue, cbs).0)
    decreases |cbs|
  {
    if cbs[1..] == [] {
      RemovePrunes(root, cbs[0]);
    } else {
      UnsubscribeAllPrunes(Remove(root, cbs[0]), WithoutPending(queue, cbs[0]), cbs[1..]);
    }
  }

  lemma UnsubscribeKeepsInvariant(root: Node, queue: seq<QueueItem>, deliveries: seq<Delivery>, cb: CallbackId)
    requires PumpInvariant(root, queue, deliveries)
    ensures PumpInvariant(Remove(root, cb), WithoutPending(queue, cb), deliveries)
  {
    var root', queue' := Remove(root, cb), WithoutPending(queue, cb);
    forall p ensures Distinct(Lookup(root', p)) {
      RemoveLookup(root, cb, p);
      WithoutDistinct(Lookup(root, p), cb);
    }
    WithoutPendingRemoves(queue, cb);
    forall i | 0 <= i < |queue'| && queue'[i].Subscribe?
      ensures queue'[i].path == Paths.Split(queue'[i].pattern) && queue'[i].callback !in Lookup(root', queue'[i].path)
    {
      assert queue'[i] in queue';
      var j :| 0 <= j < |queue| && queue[j] == queue'[i];
      RemoveLookup(root, cb, queue'[i].path);
    }
    WithoutPendingUnique(queue, cb);
  }

  // ---------------------------------------------------------------------------------------
  // Batches

  lemma {:induction false} TallyAppend(a: seq<Action>, b: seq<Action>, k: Kind)
    ensures Tally(a + b, k) == Tally(a, k) + Tally(b, k)
    decreases |b|
  {
    if b == [] {
      assert a + b == a;
    } else {
      assert (a + b)[..|a + b| - 1] == a + b[..|b| - 1];
      TallyAppend(a, b[..|b| - 1], k);
    }
  }

  lemma TallyOne(a: Action, k: Kind)
    ensures Tally([a], k) == if IsKind(k, a) then 1 else 0
  {
  }

  lemma TallySplit(t: seq<Action>, a: Action, rep: seq<Action>, k: Kind)
    ensures Tally(t + [a] + rep, k) == Tally(t, k) + Tally([a], k) + Tally(rep, k)
  {
    TallyAppend(t + [a], rep, k);
    TallyAppend(t, [a], k);
  }

  /** A fan-out invokes each callback as often as it occurs in the matched list, and mediates nothing. */
  lemma {:induction false} CallTraceTally(env: Environment, name: string, event: EventValue, cbs: seq<CallbackId>, cb: CallbackId)
    ensures Tally(CallTrace(env, name, event, cbs), InvocationOf(cb)) == multiset(cbs)[cb]
    ensures Tally(CallTrace(env, name, event, cbs), Mediation) == 0
    ensures Tally(CallTrace(env, name, event, cbs), MediatorReport) == 0
    decreases |cbs|
  {
    if cbs != [] {
      var init: seq<CallbackId>, last: CallbackId := cbs[..|cbs| - 1], cbs[|cbs| - 1];
      CallTraceTally(env, name, event, init, cb);
      var rep: seq<Action> := if env.subscriber(last, name, event).throws then [Reported(CallSubscriber(last, name, event))] else [];
      var t := CallTrace(env, name, event, init);
      assert CallTrace(env, name, event, cbs) == (t + [Invoked(last, name, event)]) + rep;
      TallySplit(t, Invoked(last, name, event), rep, InvocationOf(cb));
      TallySplit(t, Invoked(last, name, event), rep, Mediation);
      TallySplit(t, Invoked(last, name, event), rep, MediatorReport);
      TallyOne(Invoked(last, name, event), InvocationOf(cb));
      TallyOne(Invoked(last, name, event), Mediation);
      TallyOne(Invoked(last, name, event), MediatorReport);
      if rep != [] {
        TallyOne(rep[0], InvocationOf(cb));
        TallyOne(rep[0], Mediation);
        TallyOne(rep[0], MediatorReport);
      }
      assert cbs == init + [last];
      CountSnoc(cbs, cb);
    }
  }

  /** Signalling completion neither invokes a subscriber nor calls or reports the mediator. */
  lemma SignalTally(env: Environment, trace: seq<Action>, d: Delivery, k: Kind)
    ensures Tally(Signal(env, trace, d), k) == Tally(trace, k)
  {
    match d.completion
    case None =>
    case Some(cc) =>
      var n := NumberOfSubscribers(d);
      var tail: seq<Action> := if env.completionThrows(cc, n) then [Reported(CallCompletionCallback(cc, n))] else [];
      TallyAppend(trace + [Completed(cc, n)], tail, k);
      TallyAppend(trace, [Completed(cc, n)], k);
      TallyOne(Completed(cc, n), k);
      if tail != [] {
        TallyOne(tail[0], k);
        assert tail == [tail[0]];
      }
  }

  /** Tallies of actions a delivery produces only through its fan-out. */
  lemma DeliverTally(env: Environment, trace: seq<Action>, root: Node, name: string, path: seq<string>,
                     event: EventValue, completion: Option<CallbackId>, k: Kind)
    ensures Tally(Deliver(env, trace, root, name, path, event, completion).trace, k)
         == Tally(trace, k) + Tally(CallTrace(env, name, event, Matched(root, path)), k)
  {
    DeliverOutcome(env, trace, root, name, path, event, completion);
    var calls := trace + CallTrace(env, name, event, Matched(root, path));
    TallyAppend(trace, CallTrace(env, name, event, Matched(root, path)), k);
    SignalTally(env, calls, Deliver(env, trace, root, name, path, event, completion).delivery, k);
  }

  lemma DeliverKeepsEntry(env: Environment, trace: seq<Action>, root: Node, name: string, path: seq<string>,
                          event: EventValue, completion: Option<CallbackId>)
    ensures var d := Deliver(env, trace, root, name, path, event, completion).delivery;
      d.name == name && d.event == event && d.completion == completion
  {
    DeliverOutcome(env, trace, root, name, path, event, completion);
  }

  lemma DeliverAccounted(env: Environment, trace: seq<Action>, root: Node, name: string, path: seq<string>,
                         event: EventValue, completion: Option<CallbackId>)
    ensures Accounted(Deliver(env, trace, root, name, path, event, completion).delivery)
  {
    DeliverOutcome(env, trace, root, name, path, event, completion);
  }

  /** An entry cannot be delivered exactly when it has no path and its name is malformed. */
  lemma EntryPathRejects(e: Entry)
    ensures EntryPath(e).Err? <==> e.path.None? && Paths.MalformedName(e.name)
    ensures e.path.Some? ==> EntryPath(e) == Ok(e.path.value)
  {
    Paths.EventPathRejects(e.name);
  }

  /** The entry loop delivers the entries in order, one accounted delivery each, keeping the earlier deliveries. */
  lemma {:induction false} DeliverEntriesInOrder(h: Hooks, root: Node, fx: Effects, entries: seq<Entry>)
    ensures DeliveredInOrder(fx.deliveries, DeliverEntries(h, root, fx, entries).0.deliveries, entries)
    decreases |entries|
  {
    if entries != [] {
      var e := entries[0];
      var path := EntryPath(e);
      if path.Ok? {
        var o := Deliver(h.env, fx.trace, root, e.name, path.value, e.event, e.completion);
        var fx' := Effects(o.trace, fx.deliveries + [o.delivery]);
        DeliverKeepsEntry(h.env, fx.trace, root, e.name, path.value, e.event, e.completion);
        DeliverEntriesInOrder(h, root, fx', entries[1..]);
        InOrderCons(fx.deliveries, o.delivery, DeliverEntries(h, root, fx', entries[1..]).0.deliveries, entries);
      }
    }
  }

  /** One delivery carrying the first entry, followed by the deliveries of the rest in order. */
  lemma InOrderCons(before: seq<Delivery>, d: Delivery, after: seq<Delivery>, entries: seq<Entry>)
    requires entries != [] && Carries(d, entries[0])
    requires DeliveredInOrder(before + [d], after, entries[1..])
    ensures DeliveredInOrder(before, after, entries)
  {
  }

  /** Every delivery the entry loop adds is accounted. */
  lemma {:induction false} DeliverEntriesAccounted(h: Hooks, root: Node, fx: Effects, entries: seq<Entry>)
    requires AllAccounted(fx.deliveries)
    ensures AllAccounted(DeliverEntries(h, root, fx, entries).0.deliveries)
    decreases |entries|
  {
    if entries != [] {
      var e := entries[0];
      var path := EntryPath(e);
      if path.Ok? {
        var o := Deliver(h.env, fx.trace, root, e.name, path.value, e.event, e.completion);
        DeliverAccounted(h.env, fx.trace, root, e.name, path.value, e.event, e.completion);
        var ds := fx.deliveries + [o.delivery];
        assert AllAccounted(ds) by {
          forall i | 0 <= i < |ds| ensures Accounted(ds[i]) {
            if i < |fx.deliveries| {
              assert ds[i] == fx.deliveries[i];
            }
          }
        }
        DeliverEntriesAccounted(h, root, Effects(o.trace, ds), entries[1..]);
        assert DeliverEntries(h, root, fx, entries) == DeliverEntries(h, root, Effects(o.trace, ds), entries[1..]);
      }
    }
  }

  /** The entry loop completes exactly when every entry was delivered; it stops only at an entry without a path whose name is malformed. */
  lemma {:induction false} DeliverEntriesAborts(h: Hooks, root: Node, fx: Effects, entries: seq<Entry>)
    ensures var r := DeliverEntries(h, root, fx, entries);
      && |fx.deliveries| <= |r.0.deliveries| <= |fx.deliveries| + |entries|
      && (r.1 <==> |r.0.deliveries| == |fx.deliveries| + |entries|)
      && (!r.1 ==> EntryPath(entries[|r.0.deliveries| - |fx.deliveries|]).Err?)
    decreases |entries|
  {
    if entries != [] {
      var e := entries[0];
      var path := EntryPath(e);
      if path.Ok? {
        var o := Deliver(h.env, fx.trace, root, e.name, path.value, e.event, e.completion);
        var fx' := Effects(o.trace, fx.deliveries + [o.delivery]);
        DeliverEntriesAborts(h, root, fx', entries[1..]);
        var r := DeliverEntries(h, root, fx', entries[1..]);
        assert DeliverEntries(h, root, fx, entries) == r;
        if !r.1 {
          assert entries[1..][|r.0.deliveries| - |fx'.deliveries|] == entries[|r.0.deliveries| - |fx.deliveries|];
        }
      }
    }
  }

  /** The entry loop never calls the mediator and never reports it. */
  lemma {:induction false} DeliverEntriesQuiet(h: Hooks, root: Node, fx: Effects, entries: seq<Entry>)
    ensures Tally(DeliverEntries(h, root, fx, entries).0.trace, Mediation) == Tally(fx.trace, Mediation)
    ensures Tally(DeliverEntries(h, root, fx, entries).0.trace, MediatorReport) == Tally(fx.trace, MediatorReport)
    decreases |entries|
  {
    if entries != [] {
      var e := entries[0];
      var path := EntryPath(e);
      if path.Ok? {
        var o := Deliver(h.env, fx.trace, root, e.name, path.value, e.event, e.completion);
        DeliverTally(h.env, fx.trace, root, e.name, path.value, e.event, e.completion, Mediation);
        DeliverTally(h.env, fx.trace, root, e.name, path.value, e.event, e.completion, MediatorReport);
        CallTraceTally(h.env, e.name, e.event, Matched(root, path.value), 0);
        DeliverEntriesQuiet(h, root, Effects(o.trace, fx.deliveries + [o.delivery]), entries[1..]);
      }
    }
  }

  /**
   * deliverEventBatch calls the mediator exactly once for a non-empty batch and never for an
   * empty one, reports it exactly when it threw, and then delivers what it returned, in that
   * order, or the batch itself when it threw.
   */
  lemma DeliverBatchMediates(h: Hooks, root: Node, fx: Effects, batch: seq<Entry>)
    ensures var r := DeliverBatch(h, root, fx, batch);
      && Tally(r.0.trace, Mediation) == Tally(fx.trace, Mediation) + (if batch == [] then 0 else 1)
      && Tally(r.0.trace, MediatorReport)
         == Tally(fx.trace, MediatorReport) + (if batch != [] && h.mediator(batch).None? then 1 else 0)
      && (batch != [] ==> r == DeliverEntries(h, root, Effects(fx.trace + [Mediated(batch)]
           + (if h.mediator(batch).None? then [Reported(CallMediator(batch))] else []), fx.deliveries), MediatorOutput(h, batch)))
      && (batch != [] && h.mediator(batch).None? ==> MediatorOutput(h, batch) == batch)
  {
    if batch != [] {
      var rep: seq<Action> := if h.mediator(batch).None? then [Reported(CallMediator(batch))] else [];
      var t := fx.trace + [Mediated(batch)] + rep;
      DeliverEntriesQuiet(h, root, fx.(trace := t), MediatorOutput(h, batch));
      TallyAppend(fx.trace + [Mediated(batch)], rep, Mediation);
      TallyAppend(fx.trace + [Mediated(batch)], rep, MediatorReport);
      TallyAppend(fx.trace, [Mediated(batch)], Mediation);
      TallyAppend(fx.trace, [Mediated(batch)], MediatorReport);
      TallyOne(Mediated(batch), Mediation);
      TallyOne(Mediated(batch), MediatorReport);
      if rep != [] {
        TallyOne(rep[0], Mediation);
        TallyOne(rep[0], MediatorReport);
      }
    }
  }

  /**
   * A callback the registry does not hold (for instance one whose subscribe request is still
   * queued behind the batch) is not invoked by the batch.
   */
  lemma {:induction false} DeliverEntriesSkip(h: Hooks, root: Node, fx: Effects, entries: seq<Entry>, cb: CallbackId)
    requires !Holds(root, cb)
    ensures Tally(DeliverEntries(h, root, fx, entries).0.trace, InvocationOf(cb))
         == Tally(fx.trace, InvocationOf(cb))
    decreases |entries|
  {
    if entries != [] {
      var e := entries[0];
      var path := EntryPath(e);
      if path.Ok? {
        var o := Deliver(h.env, fx.trace, root, e.name, path.value, e.event, e.completion);
        DeliverTally(h.env, fx.trace, root, e.name, path.value, e.event, e.completion, InvocationOf(cb));
        CallTraceTally(h.env, e.name, e.event, Matched(root, path.value), cb);
        if cb in Matched(root, path.value) {
          MatchedHolds(root, path.value, cb);
        }
        DeliverEntriesSkip(h, root, Effects(o.trace, fx.deliveries + [o.delivery]), entries[1..], cb);
      }
    }
  }

  lemma DeliverBatchSkip(h: Hooks, root: Node, fx: Effects, batch: seq<Entry>, cb: CallbackId)
    requires !Holds(root, cb)
    ensures Tally(DeliverBatch(h, root, fx, batch).0.trace, InvocationOf(cb))
         == Tally(fx.trace, InvocationOf(cb))
  {
    if batch != [] {
      var rep: seq<Action> := if h.mediator(batch).None? then [Reported(CallMediator(batch))] else [];
      var t := fx.trace + [Mediated(batch)] + rep;
      DeliverEntriesSkip(h, root, fx.(trace := t), MediatorOutput(h, batch), cb);
      TallyAppend(fx.trace + [Mediated(batch)], rep, InvocationOf(cb));
      TallyAppend(fx.trace, [Mediated(batch)], InvocationOf(cb));
      TallyOne(Mediated(batch), InvocationOf(cb));
      if rep != [] {
        TallyOne(rep[0], InvocationOf(cb));
      }
    }
  }

  // ---------------------------------------------------------------------------------------
  // The drain

  /** Leading publish requests only extend the batch being collected. */
  lemma {:induction false} DrainCollects(h: Hooks, root: Node, pubs: seq<QueueItem>, rest: seq<QueueItem>, batch: seq<Entry>, fx: Effects)
    requires AllPublish(pubs)
    ensures Drain(h, root, pubs + rest, batch, fx) == Drain(h, root, rest, batch + Entries(pubs), fx)
    decreases |pubs|
  {
    if pubs == [] {
      assert pubs + rest == rest;
      assert batch + [] == batch;
    } else {
      assert (pubs + rest)[0] == pubs[0];
      assert (pubs + rest)[1..] == pubs[1..] + rest;
      assert AllPublish(pubs[1..]) by {
        forall i | 0 <= i < |pubs[1..]| ensures pubs[1..][i].Publish? {
          assert pubs[1..][i] == pubs[i + 1];
        }
      }
      DrainCollects(h, root, pubs[1..], rest, batch + [pubs[0].entry], fx);
      assert batch + [pubs[0].entry] + Entries(pubs[1..]) == batch + Entries(pubs);
    }
  }

  /** A queue of publish requests only is drained as one batch, in FIFO order, against the registry as it is. */
  lemma DrainOneBatch(h: Hooks, root: Node, pubs: seq<QueueItem>, fx: Effects)
    requires AllPublish(pubs)
    ensures var b := DeliverBatch(h, root, fx, Entries(pubs));
      Drain(h, root, pubs, [], fx) == PumpState(root, [], b.0, b.1)
  {
    DrainCollects(h, root, pubs, [], [], fx);
    assert pubs + [] == pubs;
    assert [] + Entries(pubs) == Entries(pubs);
  }

  /**
   * The subscribe boundary: the publish requests queued before a subscribe request form one
   * batch delivered against the registry without the new callback; the callback is registered
   * only after that batch, so the requests after it see it.
   */
  lemma DrainBoundary(h: Hooks, root: Node, pubs: seq<QueueItem>, pattern: string, path: seq<string>, cb: CallbackId,
                      rest: seq<QueueItem>, fx: Effects)
    requires AllPublish(pubs)
    ensures var b := DeliverBatch(h, root, fx, Entries(pubs));
      Drain(h, root, pubs + [Subscribe(pattern, path, cb)] + rest, [], fx)
      == if b.1 then Drain(h, Insert(root, path, cb), rest, [], b.0) else PumpState(root, rest, b.0, false)
  {
    assert pubs + [Subscribe(pattern, path, cb)] + rest == pubs + ([Subscribe(pattern, path, cb)] + rest);
    DrainCollects(h, root, pubs, [Subscribe(pattern, path, cb)] + rest, [], fx);
    assert ([Subscribe(pattern, path, cb)] + rest)[1..] == rest;
    assert [] + Entries(pubs) == Entries(pubs);
  }

  /** A successful drain empties the queue; an aborted one leaves a suffix of it. */
  lemma {:induction false} DrainEmpties(h: Hooks, root: Node, queue: seq<QueueItem>, batch: seq<Entry>, fx: Effects)
    ensures var r := Drain(h, root, queue, batch, fx);
      && |r.queue| <= |queue| && r.queue == queue[|queue| - |r.queue|..]
      && (r.ok ==> r.queue == [])
    decreases |queue|
  {
    if queue != [] {
      match queue[0]
      case Subscribe(_, path, cb) =>
        DrainEmpties(h, Insert(root, path, cb), queue[1..], [], DeliverBatch(h, root, fx, batch).0);
      case Publish(e) =>
        DrainEmpties(h, root, queue[1..], batch + [e], fx);
      var r := Drain(h, root, queue, batch, fx);
      assert queue[1..][|queue[1..]| - |r.queue|..] == queue[|queue| - |r.queue|..];
    }
  }

  lemma DeliverBatchAccounted(h: Hooks, root: Node, fx: Effects, batch: seq<Entry>)
    requires AllAccounted(fx.deliveries)
    ensures AllAccounted(DeliverBatch(h, root, fx, batch).0.deliveries)
  {
    if batch != [] {
      var rep: seq<Action> := if h.mediator(batch).None? then [Reported(CallMediator(batch))] else [];
      var fx' := fx.(trace := fx.trace + [Mediated(batch)] + rep);
      DeliverEntriesAccounted(h, root, fx', MediatorOutput(h, batch));
      assert DeliverBatch(h, root, fx, batch) == DeliverEntries(h, root, fx', MediatorOutput(h, batch));
    }
  }

  /** Executing the first queued subscribe request keeps the rest of the queue fresh. */
  lemma InsertKeepsFresh(root: Node, queue: seq<QueueItem>)
    requires queue != [] && queue[0].Subscribe?
    requires RegistryDistinct(root) && QueueFresh(root, queue)
    ensures RegistryDistinct(Insert(root, queue[0].path, queue[0].callback))
    ensures QueueFresh(Insert(root, queue[0].path, queue[0].callback), queue[1..])
  {
    var it := queue[0];
    var root' := Insert(root, it.path, it.callback);
    forall p ensures Distinct(Lookup(root', p)) {
      InsertLookup(root, it.path, it.callback, p);
      if p == it.path {
        var s := Lookup(root, p);
        assert Distinct(s + [it.callback]) by {
          forall i, j | 0 <= i < j < |s| + 1 ensures (s + [it.callback])[i] != (s + [it.callback])[j] {
            if j == |s| {
              assert (s + [it.callback])[i] == s[i];
            } else {
              assert (s + [it.callback])[i] == s[i] && (s + [it.callback])[j] == s[j];
            }
          }
        }
      }
    }
    var rest := queue[1..];
    forall i | 0 <= i < |rest| && rest[i].Subscribe?
      ensures rest[i].path == Paths.Split(rest[i].pattern) && rest[i].callback !in Lookup(root', rest[i].path)
    {
      assert rest[i] == queue[i + 1];
      InsertLookup(root, it.path, it.callback, rest[i].path);
      if rest[i].path == it.path {
        Paths.SplitInjective(rest[i].pattern, it.pattern);
        assert !(rest[i].Subscribe? && rest[i].pattern == it.pattern && rest[i].callback == it.callback);
      }
    }
  }

  /** The drain keeps the pump's invariant, aborted or not. */
  lemma {:induction false} DrainKeepsInvariant(h: Hooks, root: Node, queue: seq<QueueItem>, batch: seq<Entry>, fx: Effects)
    requires PumpInvariant(root, queue, fx.deliveries)
    ensures var r := Drain(h, root, queue, batch, fx);
      PumpInvariant(r.root, r.queue, r.fx.deliveries)
    decreases |queue|
  {
    var b := DeliverBatch(h, root, fx, batch);
    DeliverBatchAccounted(h, root, fx, batch);
    if queue == [] {
    } else {
      assert QueueFresh(root, queue[1..]) by {
        forall i | 0 <= i < |queue[1..]| && queue[1..][i].Subscribe?
          ensures queue[1..][i].path == Paths.Split(queue[1..][i].pattern)
               && queue[1..][i].callback !in Lookup(root, queue[1..][i].path)
        {
          assert queue[1..][i] == queue[i + 1];
        }
      }
      match queue[0]
      case Publish(e) =>
        DrainKeepsInvariant(h, root, queue[1..], batch + [e], fx);
      case Subscribe(_, path, cb) =>
        if b.1 {
          InsertKeepsFresh(root, queue);
          DrainKeepsInvariant(h, Insert(root, path, cb), queue[1..], [], b.0);
        }
    }
  }

  // ---------------------------------------------------------------------------------------
  // The pump object

  /** The completion callback as publish receives it; an ill-typed one is refused before this is used. */
  function CompletionOf(completion: Argument<CallbackId>): Option<CallbackId> {
    if completion.Supplied? then Some(completion.value) else None
  }

  lemma AppendKeepsFresh(root: Node, queue: seq<QueueItem>, item: QueueItem)
    requires QueueFresh(root, queue)
    requires item.Subscribe? ==> item.path == Paths.Split(item.pattern) && item.callback !in Lookup(root, item.path)
                                 && !IsPending(queue, item.pattern, item.callback)
    ensures QueueFresh(root, queue + [item])
  {
    AppendUnique(queue, item);
    var q := queue + [item];
    forall i | 0 <= i < |q| && q[i].Subscribe?
      ensures q[i].path == Paths.Split(q[i].pattern) && q[i].callback !in Lookup(root, q[i].path)
    {
      if i < |queue| {
        assert q[i] == queue[i];
      }
    }
  }

  /** One step of the backward splice loop over the queue: item i goes exactly when it is a subscribe request of the callback. */
  lemma PendingSpliceStep(q: seq<QueueItem>, r: seq<QueueItem>, i: nat, cb: CallbackId)
    requires i < |q| && r == q[..i + 1] + WithoutPending(q[i + 1..], cb)
    ensures i < |r| && r[i] == q[i]
    ensures q[i].Subscribe? && q[i].callback == cb ==> r[..i] + r[i + 1..] == q[..i] + WithoutPending(q[i..], cb)
    ensures !(q[i].Subscribe? && q[i].callback == cb) ==> r == q[..i] + WithoutPending(q[i..], cb)
  {
  }

  /**
   * An EventPump: the subscription registry, the queue of deferred requests, and, standing for
   * the outside world, the trace of calls into client code and the state of every delivery
   * whose asynchronous tokens can still be called.
   */
  class EventPump {
    const hooks: Hooks
    var root: Node
    var queue: seq<QueueItem>
    var trace: seq<Action>
    var deliveries: seq<Delivery>

    ghost predicate Valid()
      reads this
    {
      PumpInvariant(root, queue, deliveries)
    }

    /** A pump with an empty registry and an empty queue; absent hooks get their defaults. */
    constructor (config: Config)
      ensures hooks == HooksOf(config)
      ensures root == Leaf && queue == [] && trace == [] && deliveries == []
      ensures Valid()
    {
      hooks := HooksOf(config);
      root := Leaf;
      queue := [];
      trace := [];
      deliveries := [];
      assert RegistryDistinct(Leaf) by {
        forall p ensures Distinct(Lookup(Leaf, p)) {
          LeafSubtree(p);
        }
      }
    }

    /** appendToQueue; the drain it schedules is the separate method PumpQueue. */
    method AppendToQueue(item: QueueItem)
      modifies this`queue
      ensures queue == old(queue) + [item]
    {
      queue := queue + [item];
    }

    /**
     * publish: the name must be a string, the completion callback absent or a function, and
     * the name free of empty components; the augmenter may replace the event. Only a publish
     * that passes all of this queues an entry.
     */
    method Publish(name: Argument<string>, event: EventValue, completion: Argument<CallbackId>) returns (status: Status)
      requires Valid()
      modifies this`queue
      ensures Valid()
      ensures status == Refused(BadEventName)
          <==> !name.Supplied? || (!completion.IllTyped? && Paths.MalformedName(name.value))
      ensures status == Refused(BadCompletionCallback) <==> name.Supplied? && completion.IllTyped?
      ensures status == AugmenterThrew
          <==> name.Supplied? && !completion.IllTyped? && !Paths.MalformedName(name.value)
               && hooks.augmenter(name.value, event).None?
      ensures status != Accepted ==> queue == old(queue)
      ensures status == Accepted ==>
        (name.Supplied? && hooks.augmenter(name.value, event).Some? &&
         queue == old(queue) + [QueueItem.Publish(Entry(name.value, Some(Paths.Split(name.value)),
                                                        hooks.augmenter(name.value, event).value, CompletionOf(completion)))])
    {
      if !name.Supplied? {
        return Refused(BadEventName);
      }
      if completion.IllTyped? {
        return Refused(BadCompletionCallback);
      }
      Paths.EventPathRejects(name.value);
      var path := Paths.SplitPath(name.value);
      if path.Err? {
        return Refused(path.kind);
      }
      var augmented := hooks.augmenter(name.value, event);
      if augmented.None? {
        return AugmenterThrew;
      }
      var item := QueueItem.Publish(Entry(name.value, Some(path.value), augmented.value, CompletionOf(completion)));
      AppendKeepsFresh(root, queue, item);
      AppendToQueue(item);
      status := Accepted;
    }

    /** searchPendingSubscriberByPatternAndCallback: a backward scan of the queue. */
    method SearchPending(pattern: string, callback: CallbackId) returns (found: bool)
      ensures found == IsPending(queue, pattern, callback)
    {
      var i := |queue|;
      while i > 0
        invariant 0 <= i <= |queue|
        invariant forall j :: i <= j < |queue| ==>
          !(queue[j].Subscribe? && queue[j].pattern == pattern && queue[j].callback == callback)
      {
        i := i - 1;
        if queue[i].Subscribe? && queue[i].pattern == pattern && queue[i].callback == callback {
          return true;
        }
      }
      return false;
    }

    /** searchEstablishedSubscriberByPathAndCallback: walks the path creating nodes, then scans the callback list. */
    method SearchEstablished(path: seq<string>, callback: CallbackId) returns (found: bool)
      modifies this`root
      ensures root == Materialize(old(root), path)
      ensures found <==> callback in Lookup(old(root), path)
    {
      root := Materialize(root, path);
      MaterializeLookup(old(root), path, path);
      var callbacks := Lookup(root, path);
      for i := 0 to |callbacks|
        invariant callback !in callbacks[..i]
      {
        if callbacks[i] == callback {
          return true;
        }
        assert callbacks[..i + 1] == callbacks[..i] + [callbacks[i]];
      }
      assert callbacks[..|callbacks|] == callbacks;
      return false;
    }

    /**
     * subscribe: the callback must be a function and the pattern a string; a pair that is
     * already queued or established is not queued again.
     */
    method Subscribe(pattern: Argument<string>, callback: Argument<CallbackId>) returns (status: Status)
      requires Valid()
      modifies this`root, this`queue
      ensures Valid()
      ensures status == Refused(BadEventSubscriber) <==> !callback.Supplied? || !pattern.Supplied?
      ensures status != Refused(BadEventSubscriber) ==> status == Accepted
      ensures !(callback.Supplied? && pattern.Supplied?) ==> root == old(root) && queue == old(queue)
      ensures callback.Supplied? && pattern.Supplied? ==>
        (root, queue) == Subscribed(old(root), old(queue), pattern.value, callback.value)
    {
      if !callback.Supplied? {
        return Refused(BadEventSubscriber);
      }
      if !pattern.Supplied? {
        return Refused(BadEventSubscriber);
      }
      var path := Paths.Split(pattern.value);
      var found := SearchPending(pattern.value, callback.value);
      if !found {
        found := SearchEstablished(path, callback.value);
        if !found {
          AppendToQueue(QueueItem.Subscribe(pattern.value, path, callback.value));
        }
      }
      SubscribeKeepsInvariant(old(root), old(queue), deliveries, pattern.value, callback.value);
      status := Accepted;
    }

    /** removePendingSubscriberFromQueue: a backward loop splicing out the callback's subscribe requests. */
    method RemovePendingSubscriberFromQueue(callback: CallbackId)
      modifies this`queue
      ensures queue == WithoutPending(old(queue), callback)
    {
      var i := |queue|;
      while i > 0
        invariant 0 <= i <= |old(queue)|
        invariant queue == old(queue)[..i] + WithoutPending(old(queue)[i..], callback)
      {
        i := i - 1;
        PendingSpliceStep(old(queue), queue, i, callback);
        if queue[i].Subscribe? && queue[i].callback == callback {
          queue := queue[..i] + queue[i + 1..];
        }
      }
    }

    /** unsubscribe: the callback leaves the queue and the whole registry. */
    method Unsubscribe(callback: CallbackId)
      requires Valid()
      modifies this`root, this`queue
      ensures Valid()
      ensures queue == WithoutPending(old(queue), callback)
      ensures root == Remove(old(root), callback)
    {
      RemovePendingSubscriberFromQueue(callback);
      root := RemoveSubscriber(root, callback);
      UnsubscribeKeepsInvariant(old(root), old(queue), deliveries, callback);
    }

    /** countNumberOfPendingSubscribers: a backward count over the queue. */
    method CountPending() returns (count: nat)
      ensures count == PendingCount(queue)
    {
      count := 0;
      var i := |queue|;
      while i > 0
        invariant 0 <= i <= |queue|
        invariant count == PendingCount(queue[i..])
      {
        i := i - 1;
        assert queue[i..][1..] == queue[i + 1..];
        if queue[i].Subscribe? {
          count := count + 1;
        }
      }
    }

    /** numberOfSubscribers: established plus pending. */
    method NumberOfSubscribers() returns (n: nat)
      ensures n == NumberOf(root, queue)
    {
      var established := CountEstablished(root);
      var pending := CountPending();
      n := established + pending;
    }

    /** reportCallbackException: the reporter is called; whatever it throws stays inside. */
    method ReportCallbackException(report: Report)
      modifies this`trace
      ensures trace == old(trace) + [Reported(report)]
    {
      trace := trace + [Reported(report)];
    }

    /** signalCompletion. */
    method SignalCompletion(d: Delivery)
      modifies this`trace
      ensures trace == Signal(hooks.env, old(trace), d)
    {
      if d.completion.Some? {
        var cc, n := d.completion.value, |d.requested|;
        trace := trace + [Completed(cc, n)];
        if hooks.env.completionThrows(cc, n) {
          ReportCallbackException(CallCompletionCallback(cc, n));
        }
      }
    }

    /** A call of a token handed out by extensions object e of the delivery d. */
    method CallToken(d: Delivery, e: nat) returns (d': Delivery)
      requires WellFormed(d) && e < |d.requested| && d.requested[e] > 0
      modifies this`trace
      ensures Outcome(trace, d') == Settle(hooks.env, Outcome(old(trace), d), e)
    {
      d' := d;
      if !d.called[e] {
        d' := d.(called := d.called[e := true], pending := d.pending - 1);
        if d'.pending == 0 {
          SignalCompletion(d');
        }
      }
    }

    /** One subscriber call with its own extensions object, inside a try block. */
    method InvokeSubscriber(d: Delivery, callback: CallbackId) returns (d': Delivery)
      requires WellFormed(d)
      modifies this`trace
      ensures Outcome(trace, d') == Invoke(hooks.env, Outcome(old(trace), d), callback)
    {
      var b := hooks.env.subscriber(callback, d.name, d.event);
      trace := trace + [Invoked(callback, d.name, d.event)];
      d' := d.(pending := d.pending + b.asyncRequests,
               requested := d.requested + [b.asyncRequests], called := d.called + [false]);
      if b.settlesNow && b.asyncRequests > 0 {
        d' := CallToken(d', |d.requested|);
      }
      if b.throws {
        ReportCallbackException(CallSubscriber(callback, d.name, d.event));
      }
    }

    /** The inner loop of deliverEvent: the exact and the wildcard child of every frontier node, in order. */
    method NextFrontier(front: seq<Node>, component: string) returns (next: seq<Node>)
      ensures next == Step(front, component)
    {
      next := [];
      for i := 0 to |front|
        invariant next == Step(front[..i], component)
      {
        assert front[..i + 1][..i] == front[..i];
        if component in front[i].children {
          next := next + [front[i].children[component]];
        }
        if "" in front[i].children {
          next := next + [front[i].children[""]];
        }
      }
      assert front[..|front|] == front;
    }

    /** Calls the callbacks of one list in order. */
    method InvokeAll(d: Delivery, callbacks: seq<CallbackId>) returns (d': Delivery)
      requires WellFormed(d)
      modifies this`trace
      ensures WellFormed(d')
      ensures Outcome(trace, d') == FanOut(hooks.env, Outcome(old(trace), d), callbacks)
    {
      d' := d;
      for j := 0 to |callbacks|
        invariant WellFormed(d')
        invariant Outcome(trace, d') == FanOut(hooks.env, Outcome(old(trace), d), callbacks[..j])
      {
        d' := InvokeSubscriber(d', callbacks[j]);
        assert callbacks[..j + 1][..j] == callbacks[..j];
      }
      assert callbacks[..|callbacks|] == callbacks;
    }

    /** Calls the callbacks of every node of a frontier, node by node. */
    method InvokeFrontier(d: Delivery, front: seq<Node>) returns (d': Delivery)
      requires WellFormed(d)
      modifies this`trace
      ensures WellFormed(d')
      ensures Outcome(trace, d') == FanOut(hooks.env, Outcome(old(trace), d), Gathered(front))
    {
      d' := d;
      for i := 0 to |front|
        invariant WellFormed(d')
        invariant Outcome(trace, d') == FanOut(hooks.env, Outcome(old(trace), d), Gathered(front[..i]))
      {
        d' := InvokeAll(d', front[i].callbacks);
        assert front[..i + 1][..i] == front[..i];
        FanOutAppend(hooks.env, Outcome(old(trace), d), Gathered(front[..i]), front[i].callbacks);
      }
      assert front[..|front|] == front;
    }

    /**
     * deliverEvent: one trie level per component, the next frontier built from the exact and
     * the wildcard children, every callback of the new frontier called before the next level;
     * then the seed of the counter is dropped.
     */
    method DeliverEvent(name: string, path: seq<string>, event: EventValue, completion: Option<CallbackId>)
      modifies this`trace, this`deliveries
      ensures var o := Deliver(hooks.env, old(trace), root, name, path, event, completion);
        trace == o.trace && deliveries == old(deliveries) + [o.delivery]
    {
      ghost var o0 := Outcome(trace, Start(name, event, completion));
      var d := Start(name, event, completion);
      var front := [root];
      for k := 0 to |path|
        invariant front == Frontier(root, path[..k])
        invariant deliveries == old(deliveries)
        invariant WellFormed(d)
        invariant Outcome(trace, d) == FanOut(hooks.env, o0, Matched(root, path[..k]))
      {
        assert path[..k + 1][..k] == path[..k];
        front := NextFrontier(front, path[k]);
        d := InvokeFrontier(d, front);
        FanOutAppend(hooks.env, o0, Matched(root, path[..k]), Gathered(front));
      }
      assert path[..|path|] == path;
      ghost var fanned := FanOut(hooks.env, o0, Matched(root, path));
      d := d.(pending := d.pending - 1);
      if d.pending == 0 {
        SignalCompletion(d);
      }
      assert Outcome(trace, d) == Finish(hooks.env, fanned);
      deliveries := deliveries + [d];
    }

    /**
     * deliverEventBatch: the mediator is called once for a non-empty batch (its failure is
     * reported and the batch kept), then the entries are shifted off and delivered in order.
     * The result is false when an entry without a path has a malformed name, which throws
     * out of the drain.
     */
    method DeliverEventBatch(batch: seq<Entry>) returns (ok: bool)
      modifies this`trace, this`deliveries
      ensures (Effects(trace, deliveries), ok) == DeliverBatch(hooks, root, Effects(old(trace), old(deliveries)), batch)
    {
      if |batch| == 0 {
        return true;
      }
      trace := trace + [Mediated(batch)];
      var entries := batch;
      var mediated := hooks.mediator(batch);
      if mediated.Some? {
        entries := mediated.value;
      } else {
        ReportCallbackException(CallMediator(batch));
      }
      ghost var fx0 := Effects(trace, deliveries);
      while |entries| > 0
        invariant DeliverEntries(hooks, root, Effects(trace, deliveries), entries)
               == DeliverEntries(hooks, root, fx0, MediatorOutput(hooks, batch))
        decreases |entries|
      {
        var next := entries[0];
        ghost var current := entries;
        entries := entries[1..];
        var path: seq<string>;
        if next.path.None? {
          var r := Paths.SplitPath(next.name);
          if r.Err? {
            return false;
          }
          path := r.value;
        } else {
          path := next.path.value;
        }
        DeliverEvent(next.name, path, next.event, next.completion);
        assert current == [next] + entries;
      }
      assert DeliverEntries(hooks, root, Effects(trace, deliveries), entries) == (Effects(trace, deliveries), true);
      assert fx0.trace == old(trace) + [Mediated(batch)] + (if hooks.mediator(batch).None? then [Reported(CallMediator(batch))] else []);
      return true;
    }

    /**
     * pumpQueue: shifts requests off the queue, collecting publish entries; a subscribe request
     * first delivers the collected batch, then registers its callback. The result is false when
     * a batch threw, which leaves the rest of the queue for the next drain.
     */
    method PumpQueue() returns (ok: bool)
      requires Valid()
      modifies this`root, this`queue, this`trace, this`deliveries
      ensures Valid()
      ensures PumpState(root, queue, Effects(trace, deliveries), ok)
           == Drain(hooks, old(root), old(queue), [], Effects(old(trace), old(deliveries)))
      ensures ok ==> queue == []
    {
      DrainKeepsInvariant(hooks, root, queue, [], Effects(trace, deliveries));
      DrainEmpties(hooks, root, queue, [], Effects(trace, deliveries));
      var batch: seq<Entry> := [];
      while |queue| > 0
        invariant Drain(hooks, root, queue, batch, Effects(trace, deliveries))
               == Drain(hooks, old(root), old(queue), [], Effects(old(trace), old(deliveries)))
        decreases |queue|
      {
        var next := queue[0];
        queue := queue[1..];
        match next
        case Subscribe(_, path, callback) =>
          ok := DeliverEventBatch(batch);
          if !ok {
            return;
          }
          batch := [];
          root := Insert(root, path, callback);
        case Publish(entry) =>
          batch := batch + [entry];
      }
      ok := DeliverEventBatch(batch);
    }

    /** A subscriber calls a token of extensions object e of delivery i, after the delivery returned. */
    method InvokeToken(i: nat, e: nat)
      requires Valid()
      requires i < |deliveries| && e < |deliveries[i].requested| && deliveries[i].requested[e] > 0
      modifies this`trace, this`deliveries
      ensures Valid()
      ensures var o := Settle(hooks.env, Outcome(old(trace), old(deliveries[i])), e);
        trace == o.trace && deliveries == old(deliveries)[i := o.delivery]
    {
      SettleAccounted(hooks.env, Outcome(trace, deliveries[i]), e);
      var d := CallToken(deliveries[i], e);
      deliveries := deliveries[i := d];
    }
  }
}
