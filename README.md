# EventPump in Dafny

EventPump is an in-process, hierarchical publish/subscribe router. Event names and
subscription patterns are dot-separated paths. An empty component in a pattern is a
wildcard for one component of an event name. A pattern matches every event whose name
starts with it: subscribing to `a` receives `a`, `a.b` and `a.b.c`.

`publish` and `subscribe` do not act immediately. Each appends a request to a queue, and a
later drain (`pumpQueue`) works through it in order:

- Publish requests are collected into a batch.
- A subscribe request first delivers the batch collected so far, then registers its callback.
- Each non-empty batch passes once through a configurable mediator before its entries are
  delivered one by one.

Delivering an event works as follows:

- It walks a trie of subscribers breadth-first, one level per component of the name.
- It calls every matched callback with a fresh extensions object.
- It reports (instead of propagating) every exception a callback throws.
- It counts outstanding asynchronous requests from a seed of 1. The optional completion
  callback is called with the number of subscribers once that count reaches zero.

The model has six modules:

- `Base`: callback ids, event values, `Option`, `Result`, the three error kinds, and
  `Argument` (a missing, well-typed or ill-typed JavaScript argument).
- `Paths`: `splitPath` and the JavaScript `split(".")`.
  - Proves `Join` and `Split` are inverses.
  - Characterises exactly which names publish refuses.
- `Registry`: the subscriber trie as a value
  `Node(children: map<string, Node>, callbacks: seq<CallbackId>)`.
  - Specification functions for insertion (`deferredSubscribe`), node creation (the side
    effect of the established-subscriber search), removal with pruning, and counting.
  - The imperative removal and counting as methods proved equal to them.
  - Lemmas about lookups, pruning, idempotence and counts.
- `Matching`: the breadth-first frontier walk of `deliverEvent` as a specification, and a
  labelled version of it that records the pattern each callback was found under.
  - Proves that, for an event path without empty components, an established
    (pattern, callback) pair is invoked exactly once when the pattern matches the path and
    never otherwise.
- `Delivery`: one `deliverEvent` call.
  - A subscriber is an oracle: how many asynchronous requests it makes, whether it settles
    one of them before returning, and whether it throws.
  - The outside world is a trace of invocations, completion calls, mediator calls and
    exception reports.
  - Proves the counter and completion properties.
- `Pump`: the queue, `deliverEventBatch` and `pumpQueue` as specification functions with
  their lemmas, and the class `EventPump`.
  - The class fields are the trie, the queue, the trace, and the state of every delivery
    whose tokens can still be called.
  - Its methods implement `publish`, `subscribe`, `unsubscribe`, `numberOfSubscribers`, the
    drain and the helpers with loops.
  - Each method is proved equal to the specification function.
  - Each public operation (the constructor, `Publish`, `Subscribe`, `Unsubscribe`,
    `PumpQueue` and `InvokeToken`) keeps the pump invariant, made of three parts:
    - no callback twice under one pattern;
    - every queued subscribe request is new;
    - every delivery's counter agrees with its extensions objects.

One "already called" flag belongs to each extensions object (src/EventPump.js:69) and is
shared by every token that object hands out.
`Delivery.DoubleRequestBlocks` shows the consequence: a subscriber that calls
`makeAsynchronous` twice on one extensions object never lets completion fire.

## Model

| member | source | states |
|---|---|---|
| Paths.Split | src/EventPump.js:167 | the components of `split(".")`: at least one, none containing a dot |
| Paths.SplitPath | src/EventPump.js:166-174 | the loop returns the split path when no component is empty, else fails with BadEventName (equal to `EventPath`) |
| Paths.JoinSplit | src/EventPump.js:167 | joining the components of a split name with dots gives the name back |
| Paths.SplitInjective | src/EventPump.js:167 | two names with the same path are the same name |
| Paths.SplitJoin | src/EventPump.js:167 | splitting dot-free components joined with dots gives the components back |
| Paths.FirstComponentEmpty | src/EventPump.js:166-174 | the first component is empty iff the name is empty or starts with a dot |
| Paths.LaterComponentEmpty | src/EventPump.js:166-174 | a later component is empty iff the name ends with a dot or contains two dots in a row |
| Paths.EventPathRejects | src/EventPump.js:166-174 | a name is refused (always with BadEventName) iff it is empty, starts or ends with a dot, or has a double dot; otherwise its path is its split |
| Registry.Without | src/EventPump.js:275-280 | the callback list keeps exactly the elements other than the callback, and never grows |
| Registry.SpliceOut | src/EventPump.js:275-280 | the backward splice loop computes `Without` |
| Registry.RemoveSubscriber | src/EventPump.js:261-281 | the recursive removal (children first, emptied children deleted, then the splice) computes `Remove` |
| Registry.CountEstablished | src/EventPump.js:288-302 | the recursive count over the children map equals the number of callbacks in the trie |
| Registry.LeafSubtree | src/EventPump.js:33 | helper for the root and the nodes created at src/EventPump.js:235: a fresh node has only fresh nodes below it |
| Registry.InsertLookup | src/EventPump.js:231-239 | `Insert`, the model of `deferredSubscribe`, appends the callback to the list of its own path and changes no other list |
| Registry.MaterializeLookup | src/EventPump.js:200-206 | the nodes the established search creates change no callback list |
| Registry.MaterializeIdempotent | src/EventPump.js:200-206 | creating the nodes of a path twice is the same as once |
| Registry.RemoveLookup | src/EventPump.js:261-281 | after removal, every path's list is its old list without the callback |
| Registry.WithoutAbsent | src/EventPump.js:276-280 | splicing out a callback that is not there changes nothing |
| Registry.WithoutDistinct | src/EventPump.js:276-280 | splicing keeps a duplicate-free list duplicate-free |
| Registry.LookupHolds | src/EventPump.js:200-216 | a callback in some path's list is held by the trie |
| Registry.RemovePrunes | src/EventPump.js:251-274 | after removal no node below the root is empty |
| Registry.HeldNotEmpty | src/EventPump.js:251-259 | a node holding a callback is not empty |
| Registry.HoldsRemove | src/EventPump.js:261-281 | after removing cb the trie holds x iff it held x before and x is not cb |
| Registry.RemoveAbsent | src/EventPump.js:261-281 | removing a callback from a pruned trie that does not hold it changes nothing |
| Registry.RemoveIdempotent | src/EventPump.js:261-281 | removing twice is removing once |
| Registry.NoResidue | src/EventPump.js:251-281 | a pruned trie holding no callback has no children |
| Registry.CountInsert | src/EventPump.js:231-239 | `Insert` of a callback raises the count by exactly one |
| Registry.CountMaterialize | src/EventPump.js:200-206 | creating nodes leaves the count unchanged |
| Registry.HeldIsCounted | src/EventPump.js:288-302 | a trie holding a callback has a positive count |
| Registry.NothingHeldCountsZero | src/EventPump.js:288-302 | a trie holding no callback counts zero |
| Registry.CountZero | src/EventPump.js:288-302 | the count is zero iff the trie holds no callback |
| Matching.StepErased | src/EventPump.js:90-103 | one frontier step of the labelled walk, forgetting labels, is the source's step |
| Matching.FrontierErased | src/EventPump.js:85-103 | the frontier after k components is the set of subtrees under the reached patterns |
| Matching.GatheredErased | src/EventPump.js:105-118 | the callbacks read from a frontier are the labelled callbacks without labels |
| Matching.MatchedErased | src/EventPump.js:85-119 | the invocation order of `deliverEvent`, `Matched`, is the labelled matched list without labels |
| Matching.AbsentSubtree | src/EventPump.js:95-101 | a missing path leads to an empty subtree |
| Matching.ReachedCount | src/EventPump.js:85-103 | after k components of an event path without empty components, each existing pattern of length k that fits it is reached exactly once, and no other |
| Matching.AttributedCount | src/EventPump.js:105-118 | a callback is gathered under a pattern as often as the pattern is reached times its occurrences in the pattern's list |
| Matching.MatchedPatternsCount | src/EventPump.js:85-119 | a (pattern, callback) pair occurs in the labelled version of `Matched` as often as the callback occurs in the pattern's list when the pattern matches, else never |
| Matching.DistinctCount | src/EventPump.js:226-230 | helper for the duplicate check: in a duplicate-free list a callback occurs once or not at all |
| Matching.MatchedExactlyOnce | src/EventPump.js:85-119 | an established (pattern, callback) pair is invoked exactly once when the pattern is non-empty, not longer than the event path and agrees with it at every non-wildcard component, and never otherwise |
| Matching.MatchedHolds | src/EventPump.js:85-119 | only callbacks the trie holds are invoked |
| Delivery.OutstandingSnoc | src/EventPump.js:71-72 | a new extensions object asking for a token adds its requests to the outstanding count |
| Delivery.OutstandingSet | src/EventPump.js:74-76 | the first token call of an extensions object takes one off the outstanding count |
| Delivery.OutstandingZero | src/EventPump.js:68-83 | nothing is outstanding iff every extensions object asked at most once and, if it asked, called its token |
| Delivery.SettledWhenZero | src/EventPump.js:65-83 | an accounted counter is never negative, and is zero iff every extensions object is settled |
| Delivery.FanOutSeeded | src/EventPump.js:65-83 | the counter stays above zero throughout the fan-out whatever the subscribers do, so completion cannot fire during it |
| Delivery.FanOutCalls | src/EventPump.js:105-118 | the fan-out calls each matched callback with the event in order, each followed by a callSubscriber report when it throws, and nothing else |
| Delivery.FanOutShape | src/EventPump.js:107-112 | the fan-out hands out one extensions object per callback invocation, keeps the earlier ones, and keeps the event |
| Delivery.FanOutAppend | src/EventPump.js:105-118 | fanning out to two lists in a row is fanning out to their concatenation |
| Delivery.InvokeShape | src/EventPump.js:109-112 | one invocation adds one extensions object carrying the subscriber's requests, and keeps the event |
| Delivery.InvokeFanning | src/EventPump.js:108-117 | one invocation appends the call and the report for a throw; a token called before the subscriber returns cannot take the counter to zero |
| Delivery.DeliverOutcome | src/EventPump.js:51-124 | after deliverEvent the counter is accounted; numberOfSubscribers is the number of matched callbacks, throwing ones included; completion is signalled after all invocations exactly when every extensions object is settled |
| Delivery.SettleAccounted | src/EventPump.js:71-80 | a later token call keeps the accounting, never raises the counter, and signals completion exactly when it takes the counter to zero |
| Delivery.SettleOnce | src/EventPump.js:73-79 | calling a token of the same extensions object again has no effect |
| Delivery.SignalCompletions | src/EventPump.js:54-63 | signalling calls the completion callback once if there is one, and never otherwise |
| Delivery.SettlesComplete | src/EventPump.js:68-83 | over any sequence of token calls, completion is called once exactly when the counter goes from positive to zero and a completion callback was given |
| Delivery.DoubleRequestBlocks | src/EventPump.js:68-83 | an extensions object that asked twice keeps the counter positive, and no token calls produce any action |
| Pump.HooksOf | src/EventPump.js:19-31 | an absent augmenter returns the event unchanged, an absent mediator returns the batch unchanged, and configured hooks are used as given |
| Pump.PendingCountAppend | src/EventPump.js:304-312 | appending a subscribe request raises the pending count by one, and appending a publish request leaves it |
| Pump.WithoutPendingRemoves | src/EventPump.js:243-249 | the queue keeps exactly the items that are not subscribe requests of the callback |
| Pump.WithoutPendingIdempotent | src/EventPump.js:243-249 | removing twice is removing once |
| Pump.WithoutPendingCount | src/EventPump.js:243-249 | removal never raises the pending count, and leaves none when only the callback was pending |
| Pump.IsPendingTail | src/EventPump.js:190-198 | a pair is pending iff it is the first item or pending in the rest |
| Pump.WithoutPendingPending | src/EventPump.js:243-249 | after removing cb, a pair (pattern, x) is pending iff it was pending and x is not cb |
| Pump.WithoutPendingUnique | src/EventPump.js:243-249 | removal keeps the queue free of duplicate subscribe requests |
| Pump.AppendUnique | src/EventPump.js:226-240 | appending a request whose pair is not pending keeps the queue free of duplicates |
| Pump.AppendPending | src/EventPump.js:190-198 | after an append, a pair is pending iff it was pending before or is the appended request |
| Pump.SubscribeIdempotent | src/EventPump.js:218-241 | subscribing the same (pattern, callback) twice in a row is the same as subscribing it once |
| Pump.SubscribeCounts | src/EventPump.js:218-241 | subscribe changes no callback list, and numberOfSubscribers grows by one iff the pair was neither pending nor established |
| Pump.SubscribeKeepsInvariant | src/EventPump.js:218-241 | subscribe keeps the pump invariant |
| Pump.UnsubscribeRemoves | src/EventPump.js:283-286 | unsubscribe removes the callback from every trie list and every queued subscribe request of it, keeps everything else, and leaves no empty node below the root |
| Pump.UnsubscribeIdempotent | src/EventPump.js:283-286 | unsubscribing twice is unsubscribing once |
| Pump.UnsubscribeAllEmpties | src/EventPump.js:283-317 | unsubscribing every registered and queued callback leaves numberOfSubscribers at 0, and, when at least one unsubscribe happened, the root without children |
| Pump.PendingCountZero | src/EventPump.js:304-312 | a queue without subscribe requests counts zero pending |
| Pump.UnsubscribeAllPrunes | src/EventPump.js:251-281 | after at least one unsubscribe no node below the root is empty |
| Pump.UnsubscribeKeepsInvariant | src/EventPump.js:283-286 | unsubscribe keeps the pump invariant |
| Pump.CallTraceTally | src/EventPump.js:105-118 | a fan-out invokes each callback as often as it occurs in the matched list, and never calls or reports the mediator |
| Pump.SignalTally | src/EventPump.js:54-63 | signalling completion neither invokes a subscriber nor calls or reports the mediator |
| Pump.DeliverTally | src/EventPump.js:51-124 | deliverEvent invokes each callback exactly as often as its fan-out does, and never calls or reports the mediator |
| Pump.DeliverKeepsEntry | src/EventPump.js:141 | a delivery records the name, event and completion callback it was called with |
| Pump.DeliverAccounted | src/EventPump.js:51-124 | a finished deliverEvent leaves its counter accounted |
| Pump.EntryPathRejects | src/EventPump.js:138-140 | an entry cannot be delivered iff it has no path and its name is malformed; a present path is used as it is |
| Pump.DeliverEntriesInOrder | src/EventPump.js:136-142 | the entry loop keeps earlier deliveries and adds one delivery per entry of a prefix of the entries, in their order |
| Pump.DeliverEntriesAccounted | src/EventPump.js:136-142 | every delivery the entry loop adds is accounted |
| Pump.DeliverEntriesAborts | src/EventPump.js:136-142 | the entry loop succeeds iff it delivered every entry, and stops only at an entry without a path whose name is malformed |
| Pump.DeliverEntriesQuiet | src/EventPump.js:136-142 | the entry loop never calls or reports the mediator |
| Pump.DeliverBatchMediates | src/EventPump.js:126-143 | the mediator is called once for a non-empty batch and never for an empty one; it is reported iff it threw; then its result is delivered in its order, or the input batch when it threw |
| Pump.DeliverEntriesSkip | src/EventPump.js:136-142 | a callback the trie does not hold is never invoked by the entry loop |
| Pump.DeliverBatchSkip | src/EventPump.js:126-143 | a callback the trie holds under no pattern, such as one whose only subscription is still queued, is not invoked by the batch |
| Pump.DrainCollects | src/EventPump.js:147-157 | leading publish requests only extend the batch being collected |
| Pump.DrainOneBatch | src/EventPump.js:145-159 | a queue of publish requests is delivered as one batch, in FIFO order, and emptied |
| Pump.DrainBoundary | src/EventPump.js:145-159 | the publish requests before a subscribe request are delivered against the trie without the new callback; the callback is inserted before the requests after it; an aborted batch leaves the rest of the queue |
| Pump.DrainEmpties | src/EventPump.js:145-159 | a drain leaves a suffix of the queue, and the empty queue when it succeeds |
| Pump.DeliverBatchAccounted | src/EventPump.js:126-143 | a batch keeps every delivery accounted |
| Pump.InsertKeepsFresh | src/EventPump.js:148-153 | running the first queued subscribe request keeps the trie duplicate-free and the remaining queue fresh |
| Pump.DrainKeepsInvariant | src/EventPump.js:145-159 | the drain keeps the pump invariant, aborted or not |
| Pump.AppendKeepsFresh | src/EventPump.js:161-164 | appending a publish request, or a subscribe request that is new, keeps the queue fresh |
| Pump.EventPump.constructor | src/EventPump.js:19-34 | a new pump has the default or configured hooks, a root without children or callbacks, and an empty queue, and it satisfies the invariant |
| Pump.EventPump.AppendToQueue | src/EventPump.js:161-164 | the item is appended at the end of the queue |
| Pump.EventPump.Publish | src/EventPump.js:176-188 | it checks, in this order: a non-string name is refused with BadEventName; an ill-typed completion callback with BadCompletionCallback; a malformed name with BadEventName; a throwing augmenter throws; on every failure the queue is unchanged; otherwise one entry with the split path and augmented event is appended |
| Pump.EventPump.SearchPending | src/EventPump.js:190-198 | the backward scan finds a queued subscribe request with this pattern and callback iff one exists |
| Pump.EventPump.SearchEstablished | src/EventPump.js:200-216 | it creates the path's nodes, and finds the callback iff it is in the path's list |
| Pump.EventPump.Subscribe | src/EventPump.js:218-241 | it refuses a non-function callback or a non-string pattern with BadEventSubscriber and changes nothing; otherwise the trie and queue become `Subscribed` (unchanged if pending; nodes created if established; otherwise a request queued); the invariant is kept |
| Pump.EventPump.RemovePendingSubscriberFromQueue | src/EventPump.js:243-249 | the backward splice loop leaves `WithoutPending` of the old queue |
| Pump.EventPump.Unsubscribe | src/EventPump.js:283-286 | the queue loses the callback's subscribe requests and the trie loses the callback and its emptied nodes; the invariant is kept |
| Pump.EventPump.CountPending | src/EventPump.js:304-312 | the backward count is the number of queued subscribe requests |
| Pump.EventPump.NumberOfSubscribers | src/EventPump.js:314-317 | the result is the established callbacks plus the queued subscribe requests |
| Pump.EventPump.ReportCallbackException | src/EventPump.js:36-49 | the report is recorded and nothing propagates |
| Pump.EventPump.SignalCompletion | src/EventPump.js:54-63 | it calls the completion callback with the number of subscribers if there is one, and reports it when it throws |
| Pump.EventPump.CallToken | src/EventPump.js:73-80 | a token call acts like `Settle`: only the first call per extensions object decrements, and completion is signalled at zero |
| Pump.EventPump.InvokeSubscriber | src/EventPump.js:108-117 | one invocation acts like `Invoke`: the call, the token requests, a synchronous token call, and the report for a throw |
| Pump.EventPump.NextFrontier | src/EventPump.js:90-103 | the inner loop builds the next frontier: for each node, the exact child and then the wildcard child |
| Pump.EventPump.InvokeAll | src/EventPump.js:108-117 | the callbacks of one node are invoked in order |
| Pump.EventPump.InvokeFrontier | src/EventPump.js:106-118 | the callbacks of every frontier node are invoked, node by node |
| Pump.EventPump.DeliverEvent | src/EventPump.js:51-124 | the nested loops and the final decrement produce the trace and delivery of `Deliver`, whose properties are the Delivery and Matching lemmas |
| Pump.EventPump.DeliverEventBatch | src/EventPump.js:126-143 | the mediator call and shift loop produce the effects and outcome of `DeliverBatch` |
| Pump.EventPump.PumpQueue | src/EventPump.js:145-159 | the drain leaves the trie, queue and effects given by `Drain`, empties the queue when it succeeds, and keeps the invariant |
| Pump.EventPump.InvokeToken | src/EventPump.js:71-80 | a token call after the delivery returned updates that delivery as `Settle` does and keeps every delivery accounted |

## Left out

- The UMD module wrapper (src/EventPump.js:7-16, 319-322) is module-loading plumbing.
- `setTimeout` scheduling (src/EventPump.js:163): the drain is the explicit method `PumpQueue`. Its callers decide when it runs; a drain of an empty queue does nothing.
- Asynchronous tokens fired later by timers are the explicit method `InvokeToken`.
- The `console.log` fallback when the exception reporter throws (src/EventPump.js:45-47) is host I/O. A throwing reporter has no modelled effect, as in the source, where nothing propagates.
- Exception objects:
  - `exceptionCreator`, the message strings, and the report's `args` and `exception` values are replaced by the closed `ErrorKind` and `Report` datatypes.
  - A report records the action, the callback and the name, event or count it concerns.
- JavaScript dynamic typing is reduced to `Argument` (missing, supplied, ill-typed). A callback is an id. An event and an augmented event are `nat` values.
- Prototype-inherited keys on plain objects (a component named `constructor`) are left out; children are a `map<string, Node>`.
- The trie is a value held in a field and reassigned by each operation, not a graph of mutable objects. The source never shares nodes, so no aliasing is lost.
- Reentrant calls from inside a subscriber, such as `unsubscribe` or `publish` during fan-out, are left out. So is a `makeAsynchronous` call after completion has fired.
- Subscriber behaviour is summarised as:
  - how many times it calls `makeAsynchronous` on its extensions object;
  - whether it calls one token before returning;
  - whether it throws.
  Token calls made before returning and interleaved with further `makeAsynchronous` calls are not modelled.
- Subscribers, the augmenter, the mediator and the completion callbacks are oracles: fixed functions of their arguments for the pump's whole life. A callback registered under two matching patterns therefore behaves the same both times, and a stateful callback cannot be expressed. No proved property depends on this.
- Pump.DeliverEntriesAborts: mediator-supplied paths are assumed free of `.` components, so the abort it describes is the only one. In the source, a path component `.` selects the callback array of each frontier node, which is truthy even when empty (src/EventPump.js:95-96). The next read of `["."]` on that array then gives `undefined` (src/EventPump.js:107), and `subscribers.length` throws a TypeError (src/EventPump.js:108). That error escapes `deliverEvent`, `deliverEventBatch` and `pumpQueue`, after the subscribers of the earlier levels were called and without signalling completion. In the model (`Matching.Selected`, `Pump.EntryPath`), `.` is an ordinary component that no node has as a child. So at that level the walk follows only the wildcard children, and completion is still signalled. Paths split from names never contain `.`.
- A mediator that mutates its input and then throws is not modelled: the input batch is delivered as it was. A mediator returning something other than an array is not modelled either.
- Entries returned by the mediator always carry string names. An entry without a path whose name is malformed ends the drain as the uncaught `splitPath` exception does. That drain loses the subscribe request it had already shifted off and keeps the rest of the queue.
- The write-back of the computed path into a mediator-created entry (`next.path = ...`, src/EventPump.js:139) is not modelled, because the entry is delivered immediately and not seen again.
- Floating point is absent from the source's core logic and from the model. Thrown values are caught and passed to the reporter without being inspected; the model records only which call threw.
