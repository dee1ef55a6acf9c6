/** The process-wide emitter that turns storage changes into `"storage"`
    events and hands them to registered listeners, each wrapped so that an
    exception it throws never reaches its siblings or the caller. */
module EventEmitter {
  import opened Wrappers
  import opened StorageEvents

  /** The identity of a listener function supplied by a caller. */
  type ListenerId = nat
  /** The identity of an error handler function supplied by a caller. */
  type HandlerId = nat
  /** A value thrown by a listener or a handler. */
  type Thrown = string

  /** How a call into caller-supplied code ends. */
  datatype Completion = Returned | Threw(error: Thrown)

  /** What the caller-supplied functions do when called. Both are total:
      every call either returns or throws. */
  datatype Behaviour = Behaviour(
    listener: (ListenerId, EventData) -> Completion,
    handler: (HandlerId, Thrown, ListenerId) -> Completion)

  /** The options argument of `on`: left out, a boolean, or a dictionary
      whose `capture` member may be left out. A dictionary is held as its
      value at the time of `on`, not as the caller's object. */
  datatype ListenerOptions = Unspecified | UseCapture(flag: bool) | OptionsDict(capture: Option<bool>)

  /** The capture flag the options select, as DOM "flatten" reads it. */
  function Capture(options: ListenerOptions): (c: bool)
    ensures c <==> options == UseCapture(true) || options == OptionsDict(Some(true))
  {
    match options
    case Unspecified => false
    case UseCapture(flag) => flag
    case OptionsDict(capture) => capture == Some(true)
  }

  /** The wrapper `on` builds around a listener: a fresh function object per
      registration that calls `original` inside a try/catch. */
  class SafeListener {
    const original: ListenerId

    constructor (original: ListenerId)
      ensures this.original == original
    {
      this.original := original;
    }
  }

  /** One entry of an event target's listener list for the `"storage"` type. */
  datatype Registration = Registration(callback: SafeListener, capture: bool)

  /** What happens to an error a listener threw. */
  datatype Report =
    | DefaultReport(error: Thrown, listener: ListenerId)          // no handler set: logged
    | Handled(handler: HandlerId, error: Thrown, listener: ListenerId)  // the handler took it
    | HandlerFailed(handler: HandlerId, error: Thrown, handlerError: Thrown)  // the handler threw too: both logged

  /** One call of a wrapper: which listener ran, on which event, how it ended
      and, when it threw, what became of the error. */
  datatype Delivery = Delivery(listener: ListenerId, event: EventData, outcome: Completion, report: Option<Report>)

  /** `handleListenerError`: routes the error to the installed handler, or to
      the default report when there is none; a handler that throws is caught
      and its error reported beside the original one. */
  function HandleListenerError(error: Thrown, listener: ListenerId, errorHandler: Option<HandlerId>, world: Behaviour): (r: Report)
    ensures r.error == error
    ensures r.DefaultReport? <==> errorHandler.None?
    ensures r.DefaultReport? ==> r.listener == listener
    ensures errorHandler.Some? ==> r.handler == errorHandler.value
    ensures errorHandler.Some? ==> (r.HandlerFailed? <==> world.handler(errorHandler.value, error, listener).Threw?)
    ensures r.Handled? ==> r.listener == listener
    ensures r.HandlerFailed? ==> r.handlerError == world.handler(errorHandler.value, error, listener).error
  {
    match errorHandler
    case None => DefaultReport(error, listener)
    case Some(h) =>
      match world.handler(h, error, listener)
      case Returned => Handled(h, error, listener)
      case Threw(handlerError) => HandlerFailed(h, error, handlerError)
  }

  /** Calling a wrapper: the listener runs on the event; an error it throws
      is caught and handed to `HandleListenerError`, so the call always
      completes normally. */
  function CallSafeListener(w: SafeListener, event: EventData, errorHandler: Option<HandlerId>, world: Behaviour): (d: Delivery)
    ensures d.listener == w.original && d.event == event
    ensures d.outcome == world.listener(w.original, event)
    ensures d.report.Some? <==> d.outcome.Threw?
    ensures d.outcome.Threw? ==> d.report.value == HandleListenerError(d.outcome.error, w.original, errorHandler, world)
  {
    match world.listener(w.original, event)
    case Returned => Delivery(w.original, event, Returned, None)
    case Threw(e) => Delivery(w.original, event, Threw(e), Some(HandleListenerError(e, w.original, errorHandler, world)))
  }

  /** The calls made for a list of registrations, one per registration, in order. */
  function Deliveries(order: seq<Registration>, event: EventData, errorHandler: Option<HandlerId>, world: Behaviour): seq<Delivery>
  {
    if order == [] then []
    else Deliveries(order[..|order| - 1], event, errorHandler, world)
         + [CallSafeListener(order[|order| - 1].callback, event, errorHandler, world)]
  }

  /** The capturing registrations, in registration order. */
  function Capturing(regs: seq<Registration>): seq<Registration>
  {
    if regs == [] then []
    else Capturing(regs[..|regs| - 1]) + (if regs[|regs| - 1].capture then [regs[|regs| - 1]] else [])
  }

  /** The non-capturing registrations, in registration order. */
  function Bubbling(regs: seq<Registration>): seq<Registration>
  {
    if regs == [] then []
    else Bubbling(regs[..|regs| - 1]) + (if regs[|regs| - 1].capture then [] else [regs[|regs| - 1]])
  }

  /** The order in which a target calls its listeners when the event is at the
      target (section 2.9 of the DOM Standard): the capturing pass, then the
      bubbling pass, each in registration order. */
  function DispatchOrder(regs: seq<Registration>): seq<Registration>
  {
    Capturing(regs) + Bubbling(regs)
  }

  /** The number of registrations whose wrapper calls `l`. */
  function CountFor(regs: seq<Registration>, l: ListenerId): nat
  {
    if regs == [] then 0
    else CountFor(regs[..|regs| - 1], l) + (if regs[|regs| - 1].callback.original == l then 1 else 0)
  }

  /** The number of calls that ran `l`. */
  function Invocations(ds: seq<Delivery>, l: ListenerId): nat
  {
    if ds == [] then 0
    else Invocations(ds[..|ds| - 1], l) + (if ds[|ds| - 1].listener == l then 1 else 0)
  }

  /** `regs` without every occurrence of `r`, the rest in order. */
  function Removed(regs: seq<Registration>, r: Registration): (res: seq<Registration>)
    ensures r !in res
    ensures forall i :: 0 <= i < |res| ==> res[i] in regs
    ensures forall i :: 0 <= i < |regs| && regs[i] != r ==> regs[i] in res
  {
    if regs == [] then []
    else Removed(regs[..|regs| - 1], r) + (if regs[|regs| - 1] == r then [] else [regs[|regs| - 1]])
  }

  /** `regs` without the registrations that the removals recorded in `gone`
      take away: each wrapper in `gone` with the capture flag of its options. */
  function Deregistered(regs: seq<Registration>, gone: map<SafeListener, ListenerOptions>): seq<Registration>
  {
    if regs == [] then []
    else
      var last := regs[|regs| - 1];
      Deregistered(regs[..|regs| - 1], gone)
      + (if last.callback in gone && last.capture == Capture(gone[last.callback]) then [] else [last])
  }

  /** One more registration on the list means one more delivery at the end. */
  lemma DeliveriesExtend(order: seq<Registration>, r: Registration, event: EventData, errorHandler: Option<HandlerId>, world: Behaviour)
    ensures Deliveries(order + [r], event, errorHandler, world)
         == Deliveries(order, event, errorHandler, world) + [CallSafeListener(r.callback, event, errorHandler, world)]
  {
    assert (order + [r])[..|order|] == order;
  }

  /** Looking at one more registration extends exactly one of the two passes. */
  lemma PassStep(regs: seq<Registration>, i: nat)
    requires i < |regs|
    ensures Capturing(regs[..i + 1]) == if regs[i].capture then Capturing(regs[..i]) + [regs[i]] else Capturing(regs[..i])
    ensures Bubbling(regs[..i + 1]) == if regs[i].capture then Bubbling(regs[..i]) else Bubbling(regs[..i]) + [regs[i]]
  {
    assert regs[..i + 1][..i] == regs[..i];
    assert Capturing(regs[..i]) + [] == Capturing(regs[..i]);
    assert Bubbling(regs[..i]) + [] == Bubbling(regs[..i]);
  }

  lemma {:induction false} DeliveriesAppend(a: seq<Registration>, b: seq<Registration>, event: EventData, errorHandler: Option<HandlerId>, world: Behaviour)
    ensures Deliveries(a + b, event, errorHandler, world)
         == Deliveries(a, event, errorHandler, world) + Deliveries(b, event, errorHandler, world)
  {
    if b != [] {
      var b' := b[..|b| - 1];
      assert (a + b)[..|a + b| - 1] == a + b';
      DeliveriesAppend(a, b', event, errorHandler, world);
    } else {
      assert a + b == a;
    }
  }

  /** Every registration takes part in exactly one of the two passes: the
      dispatch order is a permutation of the listener list. */
  lemma {:induction false} DispatchOrderIsPermutation(regs: seq<Registration>)
    ensures multiset(DispatchOrder(regs)) == multiset(regs)
  {
    if regs != [] {
      var init, last := regs[..|regs| - 1], regs[|regs| - 1];
      DispatchOrderIsPermutation(init);
      assert regs == init + [last];
      assert multiset(regs) == multiset(init) + multiset{last};
      if last.capture {
        assert Capturing(regs) == Capturing(init) + [last];
        assert Bubbling(regs) == Bubbling(init) + [] == Bubbling(init);
        assert multiset(DispatchOrder(regs)) == multiset(Capturing(init)) + multiset{last} + multiset(Bubbling(init));
      } else {
        assert Capturing(regs) == Capturing(init) + [] == Capturing(init);
        assert Bubbling(regs) == Bubbling(init) + [last];
        assert multiset(DispatchOrder(regs)) == multiset(Capturing(init)) + multiset(Bubbling(init)) + multiset{last};
      }
    }
  }

  /** When no listener asked for the capture phase, listeners are called in
      registration order. */
  lemma {:induction false} NoCaptureKeepsRegistrationOrder(regs: seq<Registration>)
    requires forall i :: 0 <= i < |regs| ==> !regs[i].capture
    ensures DispatchOrder(regs) == regs
  {
    if regs != [] {
      var init := regs[..|regs| - 1];
      NoCaptureKeepsRegistrationOrder(init);
      assert regs == init + [regs[|regs| - 1]];
    }
  }

  lemma {:induction false} CountForAppend(a: seq<Registration>, b: seq<Registration>, l: ListenerId)
    ensures CountFor(a + b, l) == CountFor(a, l) + CountFor(b, l)
  {
    if b != [] {
      var b' := b[..|b| - 1];
      assert (a + b)[..|a + b| - 1] == a + b';
      CountForAppend(a, b', l);
    } else {
      assert a + b == a;
    }
  }

  lemma {:induction false} CountForDispatchOrder(regs: seq<Registration>, l: ListenerId)
    ensures CountFor(DispatchOrder(regs), l) == CountFor(regs, l)
  {
    if regs != [] {
      var init, last := regs[..|regs| - 1], regs[|regs| - 1];
      CountForDispatchOrder(init, l);
      CountForAppend(Capturing(init), Bubbling(init), l);
      CountForAppend(Capturing(regs), Bubbling(regs), l);
      assert CountFor([last], l) == if last.callback.original == l then 1 else 0 by {
        assert [last][..0] == [];
      }
      if last.capture {
        assert Capturing(regs) == Capturing(init) + [last];
        assert Bubbling(regs) == Bubbling(init) + [] == Bubbling(init);
        CountForAppend(Capturing(init), [last], l);
      } else {
        assert Capturing(regs) == Capturing(init) + [] == Capturing(init);
        assert Bubbling(regs) == Bubbling(init) + [last];
        CountForAppend(Bubbling(init), [last], l);
      }
    }
  }

  lemma {:induction false} InvocationsOfDeliveries(order: seq<Registration>, event: EventData, errorHandler: Option<HandlerId>, world: Behaviour, l: ListenerId)
    ensures Invocations(Deliveries(order, event, errorHandler, world), l) == CountFor(order, l)
  {
    if order != [] {
      var init := order[..|order| - 1];
      InvocationsOfDeliveries(init, event, errorHandler, world, l);
      var ds := Deliveries(order, event, errorHandler, world);
      assert ds[..|ds| - 1] == Deliveries(init, event, errorHandler, world);
    }
  }

  /** A dispatch runs each listener exactly as many times as it is registered
      on the target, whatever the listeners throw, and every call receives
      the dispatched event. */
  lemma EveryRegistrationCalledOnce(regs: seq<Registration>, event: EventData, errorHandler: Option<HandlerId>, world: Behaviour, l: ListenerId)
    ensures Invocations(Deliveries(DispatchOrder(regs), event, errorHandler, world), l) == CountFor(regs, l)
    ensures |Deliveries(DispatchOrder(regs), event, errorHandler, world)| == |regs|
    ensures forall d :: d in Deliveries(DispatchOrder(regs), event, errorHandler, world) ==> d.event == event
  {
    InvocationsOfDeliveries(DispatchOrder(regs), event, errorHandler, world, l);
    CountForDispatchOrder(regs, l);
    DispatchOrderIsPermutation(regs);
    assert |DispatchOrder(regs)| == |regs| by {
      assert |multiset(DispatchOrder(regs))| == |multiset(regs)|;
    }
    DeliveriesLength(DispatchOrder(regs), event, errorHandler, world);
  }

  lemma {:induction false} DeliveriesLength(order: seq<Registration>, event: EventData, errorHandler: Option<HandlerId>, world: Behaviour)
    ensures |Deliveries(order, event, errorHandler, world)| == |order|
    ensures forall d :: d in Deliveries(order, event, errorHandler, world) ==> d.event == event
  {
    if order != [] {
      DeliveriesLength(order[..|order| - 1], event, errorHandler, world);
    }
  }

  /** What the `i`-th call does depends only on the `i`-th listener (and the
      error handler), not on what the listeners before it did. */
  lemma {:induction false} DeliveryIsolated(order: seq<Registration>, event: EventData, errorHandler: Option<HandlerId>, w1: Behaviour, w2: Behaviour, i: nat)
    requires i < |order|
    requires w1.listener(order[i].callback.original, event) == w2.listener(order[i].callback.original, event)
    requires w1.handler == w2.handler
    ensures |Deliveries(order, event, errorHandler, w1)| == |order| == |Deliveries(order, event, errorHandler, w2)|
    ensures Deliveries(order, event, errorHandler, w1)[i] == Deliveries(order, event, errorHandler, w2)[i]
  {
    DeliveriesLength(order, event, errorHandler, w1);
    DeliveriesLength(order, event, errorHandler, w2);
    if i < |order| - 1 {
      DeliveryIsolated(order[..|order| - 1], event, errorHandler, w1, w2, i);
    }
  }

  lemma {:induction false} RemovedDeregistered(regs: seq<Registration>, gone: map<SafeListener, ListenerOptions>, w: SafeListener, o: ListenerOptions)
    requires w !in gone
    ensures Removed(Deregistered(regs, gone), Registration(w, Capture(o))) == Deregistered(regs, gone[w := o])
  {
    if regs != [] {
      var init := regs[..|regs| - 1];
      RemovedDeregistered(init, gone, w, o);
      var d := Deregistered(init, gone);
      var last := regs[|regs| - 1];
      var r := Registration(w, Capture(o));
      var tail := if last.callback in gone && last.capture == Capture(gone[last.callback]) then [] else [last];
      RemovedAppend(d, tail, r);
    }
  }

  lemma {:induction false} RemovedAppend(a: seq<Registration>, b: seq<Registration>, r: Registration)
    ensures Removed(a + b, r) == Removed(a, r) + Removed(b, r)
  {
    if b != [] {
      var b' := b[..|b| - 1];
      assert (a + b)[..|a + b| - 1] == a + b';
      RemovedAppend(a, b', r);
    } else {
      assert a + b == a;
    }
  }

  /** The registry's two maps describe the same wrappers: the wrapper of each
      listener is a key of the options map, every key there is some listener's
      wrapper, and each wrapper calls the listener it was built for. */
  ghost predicate RegistryValid(listenerToSafe: map<ListenerId, SafeListener>, safeToOptions: map<SafeListener, ListenerOptions>) {
    && listenerToSafe.Values == safeToOptions.Keys
    && forall l :: l in listenerToSafe ==> listenerToSafe[l].original == l
  }

  /** Recording a fresh wrapper for a new listener keeps the registry valid. */
  lemma RegistryAdd(listenerToSafe: map<ListenerId, SafeListener>, safeToOptions: map<SafeListener, ListenerOptions>,
                    l: ListenerId, w: SafeListener, o: ListenerOptions)
    requires RegistryValid(listenerToSafe, safeToOptions)
    requires l !in listenerToSafe && w !in safeToOptions && w.original == l
    ensures RegistryValid(listenerToSafe[l := w], safeToOptions[w := o])
  {
    var m := listenerToSafe[l := w];
    forall v | v in m.Values ensures v in listenerToSafe.Values || v == w {
      var k :| k in m && m[k] == v;
    }
    forall v | v in listenerToSafe.Values ensures v in m.Values {
      var k :| k in listenerToSafe && listenerToSafe[k] == v;
      assert m[k] == v;
    }
    assert m[l] == w;
  }

  /** Dropping a listener together with its wrapper keeps the registry valid. */
  lemma RegistryRemove(listenerToSafe: map<ListenerId, SafeListener>, safeToOptions: map<SafeListener, ListenerOptions>, l: ListenerId)
    requires RegistryValid(listenerToSafe, safeToOptions)
    requires l in listenerToSafe
    ensures RegistryValid(listenerToSafe - {l}, safeToOptions - {listenerToSafe[l]})
  {
    var m, w := listenerToSafe - {l}, listenerToSafe[l];
    forall v | v in m.Values ensures v in listenerToSafe.Values && v != w {
      var k :| k in m && m[k] == v;
      assert listenerToSafe[k] == v;
    }
    forall v | v in listenerToSafe.Values && v != w ensures v in m.Values {
      var k :| k in listenerToSafe && listenerToSafe[k] == v;
      assert m[k] == v;
    }
  }

  /** No wrapper is on the list twice. */
  ghost predicate DistinctCallbacks(regs: seq<Registration>) {
    forall i, j :: 0 <= i < j < |regs| ==> regs[i].callback != regs[j].callback
  }

  /** A target's listener list agrees with the registry: it holds each
      registered wrapper once, with the capture flag of its options, and
      nothing else. */
  ghost predicate Synced(regs: seq<Registration>, listenerToSafe: map<ListenerId, SafeListener>, safeToOptions: map<SafeListener, ListenerOptions>) {
    && DistinctCallbacks(regs)
    && (forall i :: 0 <= i < |regs| ==>
          regs[i].callback in safeToOptions && regs[i].capture == Capture(safeToOptions[regs[i].callback]))
    && (forall l :: l in listenerToSafe ==> exists i :: 0 <= i < |regs| && regs[i].callback == listenerToSafe[l])
  }

  lemma {:induction false} CountForNone(regs: seq<Registration>, l: ListenerId)
    requires forall i :: 0 <= i < |regs| ==> regs[i].callback.original != l
    ensures CountFor(regs, l) == 0
  {
    if regs != [] {
      CountForNone(regs[..|regs| - 1], l);
    }
  }

  lemma {:induction false} CountForSingle(regs: seq<Registration>, l: ListenerId, k: nat)
    requires k < |regs| && regs[k].callback.original == l
    requires forall i :: 0 <= i < |regs| && i != k ==> regs[i].callback.original != l
    ensures CountFor(regs, l) == 1
  {
    var init := regs[..|regs| - 1];
    if k == |regs| - 1 {
      CountForNone(init, l);
    } else {
      CountForSingle(init, l, k);
    }
  }

  /** On a target in step with the registry, a registered listener has exactly
      one wrapper on the list and an unregistered one has none: so `on` twice
      still means one call per event, and `off` means none. */
  lemma RegisteredListenerCountedOnce(regs: seq<Registration>, listenerToSafe: map<ListenerId, SafeListener>,
                                      safeToOptions: map<SafeListener, ListenerOptions>, l: ListenerId)
    requires RegistryValid(listenerToSafe, safeToOptions)
    requires Synced(regs, listenerToSafe, safeToOptions)
    ensures CountFor(regs, l) == if l in listenerToSafe then 1 else 0
  {
    // every wrapper on the list that calls l is l's own wrapper
    forall i | 0 <= i < |regs| && regs[i].callback.original == l
      ensures l in listenerToSafe && regs[i].callback == listenerToSafe[l]
    {
      assert regs[i].callback in listenerToSafe.Values;
      var l' :| l' in listenerToSafe && listenerToSafe[l'] == regs[i].callback;
    }
    if l in listenerToSafe {
      var k :| 0 <= k < |regs| && regs[k].callback == listenerToSafe[l];
      forall i | 0 <= i < |regs| && i != k
        ensures regs[i].callback.original != l
      {
      }
      CountForSingle(regs, l, k);
    } else {
      CountForNone(regs, l);
    }
  }

  /** The global `window`, when there is one: the event target it offers and
      whether its `dispatchEvent` is a function. */
  datatype Window = Window(target: EventTarget, hasDispatchEvent: bool)

  /** An event target's listener list for the `"storage"` type, as the DOM
      keeps it. */
  class EventTarget {
    var listeners: seq<Registration>

    constructor ()
      ensures listeners == []
    {
      listeners := [];
    }

    /** `addEventListener("storage", callback, options)`: appends unless the
      same callback is already there with the same capture flag. */
    method AddEventListener(callback: SafeListener, options: ListenerOptions)
      modifies this
      ensures var r := Registration(callback, Capture(options));
              listeners == if r in old(listeners) then old(listeners) else old(listeners) + [r]
    {
      var r := Registration(callback, Capture(options));
      if r !in listeners {
        listeners := listeners + [r];
      }
    }

    /** `removeEventListener("storage", callback, options)`: takes out the
      entry with this callback and capture flag. */
    method RemoveEventListener(callback: SafeListener, options: ListenerOptions)
      modifies this
      ensures listeners == Removed(old(listeners), Registration(callback, Capture(options)))
    {
      listeners := Removed(listeners, Registration(callback, Capture(options)));
    }

    /** `dispatchEvent(event)` while the event is at this target: calls the
      capturing listeners, then the others, each list in registration order,
      over a snapshot of the list taken before the first call. */
    method DispatchEvent(event: StorageEvent, errorHandler: Option<HandlerId>, world: Behaviour)
      returns (deliveries: seq<Delivery>)
      ensures deliveries == Deliveries(DispatchOrder(listeners), event.Data(), errorHandler, world)
    {
      var snapshot := listeners;
      var data := event.Data();
      var captured := InvokePass(snapshot, true, data, errorHandler, world);
      var bubbled := InvokePass(snapshot, false, data, errorHandler, world);
      deliveries := captured + bubbled;
      DeliveriesAppend(Capturing(snapshot), Bubbling(snapshot), data, errorHandler, world);
    }
  }

  /** One pass over a snapshot of the list (the capturing pass or the
      bubbling one): calls, in order, each registration of that pass. */
  method InvokePass(snapshot: seq<Registration>, capturing: bool, data: EventData, errorHandler: Option<HandlerId>, world: Behaviour)
    returns (deliveries: seq<Delivery>)
    ensures deliveries == Deliveries(if capturing then Capturing(snapshot) else Bubbling(snapshot), data, errorHandler, world)
  {
    deliveries := [];
    for i := 0 to |snapshot|
      invariant deliveries == Deliveries(if capturing then Capturing(snapshot[..i]) else Bubbling(snapshot[..i]), data, errorHandler, world)
    {
      PassStep(snapshot, i);
      if snapshot[i].capture == capturing {
        var d := CallSafeListener(snapshot[i].callback, data, errorHandler, world);
        DeliveriesExtend(if capturing then Capturing(snapshot[..i]) else Bubbling(snapshot[..i]), snapshot[i], data, errorHandler, world);
        deliveries := deliveries + [d];
      }
    }
    assert snapshot[..|snapshot|] == snapshot;
  }

  class StorageEventEmitter {
    /** The `EventTarget` the emitter itself is, used when there is no window. */
    const base: EventTarget
    var listenerToSafeListener: map<ListenerId, SafeListener>
    var safeListenerToOptions: map<SafeListener, ListenerOptions>
    var errorHandler: Option<HandlerId>

    ghost predicate Valid()
      reads this
    {
      RegistryValid(listenerToSafeListener, safeListenerToOptions)
    }

    constructor ()
      ensures Valid()
      ensures listenerToSafeListener == map[] && safeListenerToOptions == map[] && errorHandler == None
      ensures fresh(base) && base.listeners == []
    {
      base := new EventTarget();
      listenerToSafeListener := map[];
      safeListenerToOptions := map[];
      errorHandler := None;
    }

    /** The `dispatcher` getter, looked up afresh on every use: the window
      when it exists and its `dispatchEvent` is a function, else the emitter. */
    function Dispatcher(host: Option<Window>): (t: EventTarget)
      ensures host.Some? && host.value.hasDispatchEvent ==> t == host.value.target
      ensures !(host.Some? && host.value.hasDispatchEvent) ==> t == base
    {
      if host.Some? && host.value.hasDispatchEvent then host.value.target else base
    }

    /** The `"storage"` listener list of the current dispatcher. */
    ghost function Targeted(host: Option<Window>): seq<Registration>
      reads this, Dispatcher(host)
    {
      Dispatcher(host).listeners
    }

    /** `emit(data)`: builds a `"storage"` event from `data` and has the
      current dispatcher call every listener on its list. */
    method Emit(data: StorageEventInit, host: Option<Window>, world: Behaviour) returns (deliveries: seq<Delivery>)
      ensures deliveries
           == Deliveries(DispatchOrder(Dispatcher(host).listeners), Initialized("storage", Some(data)), errorHandler, world)
    {
      var event := new StorageEvent("storage", Some(data));
      deliveries := Dispatcher(host).DispatchEvent(event, errorHandler, world);
    }

    /** `on(callback, options)`: a listener already registered is left as it
      is; otherwise a fresh wrapper is recorded in both maps and added to
      the current dispatcher. */
    method On(callback: ListenerId, options: ListenerOptions, host: Option<Window>)
      requires Valid()
      modifies this, Dispatcher(host)
      ensures Valid()
      ensures errorHandler == old(errorHandler)
      ensures old(callback in listenerToSafeListener) ==>
        && listenerToSafeListener == old(listenerToSafeListener)
        && safeListenerToOptions == old(safeListenerToOptions)
        && Targeted(host) == old(Targeted(host))
      ensures old(callback !in listenerToSafeListener) ==>
        && callback in listenerToSafeListener
        && fresh(listenerToSafeListener[callback])
        && listenerToSafeListener == old(listenerToSafeListener)[callback := listenerToSafeListener[callback]]
        && safeListenerToOptions == old(safeListenerToOptions)[listenerToSafeListener[callback] := options]
        && Targeted(host) == old(Targeted(host)) + [Registration(listenerToSafeListener[callback], Capture(options))]
      ensures Synced(old(Targeted(host)), old(listenerToSafeListener), old(safeListenerToOptions)) ==>
        Synced(Targeted(host), listenerToSafeListener, safeListenerToOptions)
    {
      if callback in listenerToSafeListener {
        return;
      }
      var safeListener := new SafeListener(callback);
      ghost var regs := Targeted(host);
      forall i | 0 <= i < |regs| ensures regs[i].callback != safeListener {
      }
      RegistryAdd(listenerToSafeListener, safeListenerToOptions, callback, safeListener, options);
      SyncedAdd(regs, listenerToSafeListener, safeListenerToOptions, callback, safeListener, options);
      listenerToSafeListener := listenerToSafeListener[callback := safeListener];
      safeListenerToOptions := safeListenerToOptions[safeListener := options];
      Dispatcher(host).AddEventListener(safeListener, options);
    }

    /** `off(callback)`: nothing happens for an unknown listener; otherwise
      its wrapper leaves both maps and the current dispatcher. */
    method Off(callback: ListenerId, host: Option<Window>)
      requires Valid()
      modifies this, Dispatcher(host)
      ensures Valid()
      ensures errorHandler == old(errorHandler)
      ensures old(callback !in listenerToSafeListener) ==>
        && listenerToSafeListener == old(listenerToSafeListener)
        && safeListenerToOptions == old(safeListenerToOptions)
        && Targeted(host) == old(Targeted(host))
      ensures old(callback in listenerToSafeListener) ==>
        var w := old(listenerToSafeListener[callback]);
        && listenerToSafeListener == old(listenerToSafeListener) - {callback}
        && safeListenerToOptions == old(safeListenerToOptions) - {w}
        && Targeted(host) == Removed(old(Targeted(host)), Registration(w, Capture(old(safeListenerToOptions[w]))))
      ensures Synced(old(Targeted(host)), old(listenerToSafeListener), old(safeListenerToOptions)) ==>
        Synced(Targeted(host), listenerToSafeListener, safeListenerToOptions)
    {
      if callback !in listenerToSafeListener {
        return;
      }
      var safeListener := listenerToSafeListener[callback];
      RegistryRemove(listenerToSafeListener, safeListenerToOptions, callback);
      SyncedRemove(Targeted(host), listenerToSafeListener, safeListenerToOptions, callback);
      listenerToSafeListener := listenerToSafeListener - {callback};
      var savedOptions := safeListenerToOptions[safeListener];
      safeListenerToOptions := safeListenerToOptions - {safeListener};
      Dispatcher(host).RemoveEventListener(safeListener, savedOptions);
    }

    /** `clear()`: calls `off` for every registered listener, then empties
      both maps. */
    method Clear(host: Option<Window>)
      requires Valid()
      modifies this, Dispatcher(host)
      ensures Valid()
      ensures errorHandler == old(errorHandler)
      ensures listenerToSafeListener == map[] && safeListenerToOptions == map[]
      ensures Targeted(host) == Deregistered(old(Targeted(host)), old(safeListenerToOptions))
      ensures Synced(old(Targeted(host)), old(listenerToSafeListener), old(safeListenerToOptions)) ==>
        Targeted(host) == []
    {
      ghost var start := Targeted(host);
      ghost var all := safeListenerToOptions;
      assert all - safeListenerToOptions.Keys == map[];
      DeregisteredNothing(start);
      while listenerToSafeListener != map[]
        invariant Valid()
        invariant errorHandler == old(errorHandler)
        invariant forall w :: w in safeListenerToOptions ==> w in all && safeListenerToOptions[w] == all[w]
        invariant Targeted(host) == Deregistered(start, all - safeListenerToOptions.Keys)
        decreases listenerToSafeListener.Keys
      {
        var l :| l in listenerToSafeListener;
        ghost var w := listenerToSafeListener[l];
        ghost var gone := all - safeListenerToOptions.Keys;
        GoneStep(all, safeListenerToOptions, w);
        Off(l, host);
        RemovedDeregistered(start, gone, w, all[w]);
      }
      listenerToSafeListener := map[];
      safeListenerToOptions := map[];
      assert all - safeListenerToOptions.Keys == all;
      if Synced(start, old(listenerToSafeListener), all) {
        DeregisteredSynced(start, all);
      }
    }

    /** `setErrorHandler(handler)` */
    method SetErrorHandler(handler: HandlerId)
      modifies this`errorHandler
      ensures errorHandler == Some(handler)
    {
      errorHandler := Some(handler);
    }
  }

  /** Once one more wrapper has left the options map, the record of what left
      gains exactly that wrapper with its options. */
  lemma GoneStep(all: map<SafeListener, ListenerOptions>, current: map<SafeListener, ListenerOptions>, w: SafeListener)
    requires w in current
    requires forall x :: x in current ==> x in all && current[x] == all[x]
    ensures w in all && w !in all - current.Keys
    ensures all - (current - {w}).Keys == (all - current.Keys)[w := all[w]]
  {
  }

  lemma {:induction false} RemovedKeepsDistinct(regs: seq<Registration>, r: Registration)
    requires DistinctCallbacks(regs)
    ensures DistinctCallbacks(Removed(regs, r))
  {
    if regs != [] {
      var init, last := regs[..|regs| - 1], regs[|regs| - 1];
      RemovedKeepsDistinct(init, r);
      var rest := Removed(init, r);
      forall i | 0 <= i < |rest| ensures rest[i].callback != last.callback {
        var j :| 0 <= j < |init| && init[j] == rest[i];
        assert regs[j] == init[j];
      }
    }
  }

  /** `on` keeps a target in step: the new wrapper, never seen before, is
      appended to the list and recorded in both maps. */
  lemma SyncedAdd(regs: seq<Registration>, listenerToSafe: map<ListenerId, SafeListener>,
                  safeToOptions: map<SafeListener, ListenerOptions>, l: ListenerId, w: SafeListener, o: ListenerOptions)
    requires forall i :: 0 <= i < |regs| ==> regs[i].callback != w
    ensures Synced(regs, listenerToSafe, safeToOptions) ==>
      Synced(regs + [Registration(w, Capture(o))], listenerToSafe[l := w], safeToOptions[w := o])
  {
    if !Synced(regs, listenerToSafe, safeToOptions) {
      return;
    }
    var regs' := regs + [Registration(w, Capture(o))];
    var m := listenerToSafe[l := w];
    forall k | k in m ensures exists i :: 0 <= i < |regs'| && regs'[i].callback == m[k] {
      if k == l {
        assert regs'[|regs|].callback == w;
      } else {
        var i :| 0 <= i < |regs| && regs[i].callback == listenerToSafe[k];
        assert regs'[i].callback == m[k];
      }
    }
  }

  /** `off` keeps a target in step: removing the wrapper's one registration
      takes it off the list while every other wrapper stays. */
  lemma SyncedRemove(regs: seq<Registration>, listenerToSafe: map<ListenerId, SafeListener>,
                     safeToOptions: map<SafeListener, ListenerOptions>, l: ListenerId)
    requires RegistryValid(listenerToSafe, safeToOptions)
    requires l in listenerToSafe
    ensures var w := listenerToSafe[l];
      Synced(regs, listenerToSafe, safeToOptions) ==>
      Synced(Removed(regs, Registration(w, Capture(safeToOptions[w]))), listenerToSafe - {l}, safeToOptions - {w})
  {
    var w := listenerToSafe[l];
    var r := Registration(w, Capture(safeToOptions[w]));
    if Synced(regs, listenerToSafe, safeToOptions) {
      var res := Removed(regs, r);
      RemovedKeepsDistinct(regs, r);
      forall i | 0 <= i < |res|
        ensures res[i].callback in safeToOptions - {w}
        ensures res[i].capture == Capture((safeToOptions - {w})[res[i].callback])
      {
        var j :| 0 <= j < |regs| && regs[j] == res[i];
      }
      var m := listenerToSafe - {l};
      forall k | k in m ensures exists i :: 0 <= i < |res| && res[i].callback == m[k] {
        var j :| 0 <= j < |regs| && regs[j].callback == listenerToSafe[k];
        assert regs[j] in res;
      }
    }
  }

  lemma {:induction false} DeregisteredNothing(regs: seq<Registration>)
    ensures Deregistered(regs, map[]) == regs
  {
    if regs != [] {
      DeregisteredNothing(regs[..|regs| - 1]);
    }
  }

  lemma {:induction false} DeregisteredSynced(regs: seq<Registration>, safeToOptions: map<SafeListener, ListenerOptions>)
    requires forall i :: 0 <= i < |regs| ==>
      regs[i].callback in safeToOptions && regs[i].capture == Capture(safeToOptions[regs[i].callback])
    ensures Deregistered(regs, safeToOptions) == []
  {
    if regs != [] {
      DeregisteredSynced(regs[..|regs| - 1], safeToOptions);
    }
  }

  /** On a target in step with the registry, one dispatch calls every
      registered listener exactly once and no other listener, whatever the
      listeners and the error handler throw. */
  lemma SyncedDispatchReachesRegistered(regs: seq<Registration>, listenerToSafe: map<ListenerId, SafeListener>,
                                        safeToOptions: map<SafeListener, ListenerOptions>,
                                        event: EventData, errorHandler: Option<HandlerId>, world: Behaviour, l: ListenerId)
    requires RegistryValid(listenerToSafe, safeToOptions)
    requires Synced(regs, listenerToSafe, safeToOptions)
    ensures Invocations(Deliveries(DispatchOrder(regs), event, errorHandler, world), l) == if l in listenerToSafe then 1 else 0
  {
    EveryRegistrationCalledOnce(regs, event, errorHandler, world, l);
    RegisteredListenerCountedOnce(regs, listenerToSafe, safeToOptions, l);
  }

  /** A new emitter with `a` registered for the bubbling pass and then `b`
      for the capturing pass, with no window: its own list holds their two
      wrappers in that order. */
  method RegisterTwo(a: ListenerId, b: ListenerId) returns (emitter: StorageEventEmitter, ra: Registration, rb: Registration)
    requires a != b
    ensures fresh(emitter) && fresh(emitter.base) && emitter.Valid() && emitter.errorHandler == None
    ensures emitter.base.listeners == [ra, rb]
    ensures a in emitter.listenerToSafeListener && emitter.listenerToSafeListener[a] == ra.callback
    ensures ra.callback in emitter.safeListenerToOptions && emitter.safeListenerToOptions[ra.callback] == Unspecified
    ensures !ra.capture && ra.callback != rb.callback && rb.callback.original == b
  {
    emitter := new StorageEventEmitter();
    ghost var l0 := emitter.base.listeners;
    emitter.On(a, Unspecified, None);
    ra := Registration(emitter.listenerToSafeListener[a], Capture(Unspecified));
    ghost var l1, m1, o1 := emitter.base.listeners, emitter.listenerToSafeListener, emitter.safeListenerToOptions;
    emitter.On(b, UseCapture(true), None);
    rb := Registration(emitter.listenerToSafeListener[b], Capture(UseCapture(true)));
    ListOfTwo(l0, l1, emitter.base.listeners, ra, rb);
    FirstEntryKept(m1, o1, emitter.listenerToSafeListener, emitter.safeListenerToOptions, a, b, ra.callback, rb.callback);
  }

  /** Registering two listeners, removing the first and emitting calls the
      second once and the first not at all. */
  method OffKeepsOthers(a: ListenerId, b: ListenerId, data: StorageEventInit, world: Behaviour) returns (deliveries: seq<Delivery>)
    requires a != b
    ensures Invocations(deliveries, a) == 0
    ensures Invocations(deliveries, b) == 1
  {
    var emitter, ra, rb := RegisterTwo(a, b);
    emitter.Off(a, None);
    OnlyOtherRemains(ra, rb);
    deliveries := emitter.Emit(data, None, world);
    CallsOfSingle(rb, Initialized("storage", Some(data)), emitter.errorHandler, world);
  }

  /** Registering the same listener twice and then emitting calls it once. */
  method OnTwiceCallsOnce(l: ListenerId, data: StorageEventInit, world: Behaviour) returns (deliveries: seq<Delivery>)
    ensures Invocations(deliveries, l) == 1
    ensures |deliveries| == 1
  {
    var emitter := new StorageEventEmitter();
    ghost var l0 := emitter.base.listeners;
    emitter.On(l, Unspecified, None);
    ghost var r := Registration(emitter.listenerToSafeListener[l], Capture(Unspecified));
    SingleList(l0, emitter.base.listeners, r);
    emitter.On(l, Unspecified, None);
    deliveries := emitter.Emit(data, None, world);
    CallsOfSingle(r, Initialized("storage", Some(data)), emitter.errorHandler, world);
  }

  /** Removing one of two registrations with different wrappers leaves the other. */
  lemma OnlyOtherRemains(ra: Registration, rb: Registration)
    requires ra.callback != rb.callback
    ensures Removed([ra, rb], ra) == [rb]
  {
    var two := [ra, rb];
    assert two[..1] == [ra] && two[1] == rb && rb != ra;
    assert [ra][..0] == [];
    assert Removed([ra], ra) == [];
    assert Removed(two, ra) == Removed([ra], ra) + [rb];
    assert [] + [rb] == [rb];
  }

  /** A target with one registration calls just that one, whatever its capture flag. */
  lemma DispatchSingle(r: Registration)
    ensures DispatchOrder([r]) == [r]
  {
    assert [r][..0] == [];
    if r.capture {
      assert Capturing([r]) == [] + [r] == [r];
      assert Bubbling([r]) == [] + [] == [];
      assert [r] + [] == [r];
    } else {
      assert Capturing([r]) == [] + [] == [];
      assert Bubbling([r]) == [] + [r] == [r];
      assert [] + [r] == [r];
    }
  }

  /** One registration means one delivery, through its wrapper. */
  lemma DeliveriesSingle(r: Registration, event: EventData, errorHandler: Option<HandlerId>, world: Behaviour)
    ensures Deliveries([r], event, errorHandler, world) == [CallSafeListener(r.callback, event, errorHandler, world)]
  {
    DeliveriesExtend([], r, event, errorHandler, world);
    assert [] + [r] == [r];
  }

  /** A single delivery counts once for its own listener and never for another. */
  lemma InvocationsOfOne(d: Delivery)
    ensures forall l :: Invocations([d], l) == if l == d.listener then 1 else 0
  {
    assert [d][..0] == [];
  }

  /** A list of one registration yields one call, of that registration's listener. */
  lemma CallsOfSingle(r: Registration, event: EventData, errorHandler: Option<HandlerId>, world: Behaviour)
    ensures |Deliveries(DispatchOrder([r]), event, errorHandler, world)| == 1
    ensures forall l :: Invocations(Deliveries(DispatchOrder([r]), event, errorHandler, world), l)
                        == if l == r.callback.original then 1 else 0
  {
    DispatchSingle(r);
    DeliveriesSingle(r, event, errorHandler, world);
    InvocationsOfOne(CallSafeListener(r.callback, event, errorHandler, world));
  }

  /** An empty listener list with one registration appended. */
  lemma SingleList(l0: seq<Registration>, l1: seq<Registration>, r: Registration)
    requires l0 == [] && l1 == l0 + [r]
    ensures l1 == [r]
  {
  }

  /** A second registration, under another listener and a new wrapper, keeps the first's entries. */
  lemma FirstEntryKept(m1: map<ListenerId, SafeListener>, o1: map<SafeListener, ListenerOptions>,
                       m2: map<ListenerId, SafeListener>, o2: map<SafeListener, ListenerOptions>,
                       a: ListenerId, b: ListenerId, ca: SafeListener, cb: SafeListener)
    requires a != b && ca != cb
    requires a in m1 && m1[a] == ca && ca in o1 && o1[ca] == Unspecified
    requires m2 == m1[b := cb] && o2 == o1[cb := UseCapture(true)]
    ensures a in m2 && m2[a] == ca && ca in o2 && o2[ca] == Unspecified
  {
  }

  /** Three successive listener lists, each one registration longer than the last. */
  lemma ListOfTwo(l0: seq<Registration>, l1: seq<Registration>, l2: seq<Registration>, ra: Registration, rb: Registration)
    requires l0 == [] && l1 == l0 + [ra] && l2 == l1 + [rb]
    ensures l2 == [ra, rb]
  {
  }
}
