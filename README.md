# fake-localstorage, modelled in Dafny

`fake-localstorage` is an in-memory stand-in for the browser's
`localStorage`, meant for tests that run outside a browser. Its core is three
classes:

- `FakeStorage` keeps string entries in insertion order. It keeps a
  hand-maintained `_length` beside them. Every change except `reset()` goes
  to a process-wide event emitter.
- `StorageEventEmitter` wraps each registered listener in a "safe listener"
  that catches what the listener throws. It registers the wrapper on the
  current dispatcher (the global `window` when it has a `dispatchEvent`,
  else the emitter itself) and builds a `"storage"` event for every change.
- `StorageEvent` is the event object handed to listeners. Its read-only
  fields are filled from an optional init dictionary with `??` defaults.

The model follows the source's own form:

- The three classes are Dafny classes whose methods update their fields in
  place.
- The readers (`getItem`, `key`, `keys`, `values`, `entries`, `toJSON`) are
  functions.
- The JavaScript value semantics the code relies on are small functions in
  module `Js`:
  - `typeof` checks;
  - `x || null`, which turns `""` into null;
  - `x ?? d`, which keeps `""`;
  - array indexing by a number.
- The `Map<string, string>` store is an `OrderedMap`: a sequence of keys in
  insertion order plus a map from key to value.
- `_dispatchStorageEvent` appends a `ChangeRecord(key, newValue, oldValue)`
  to a ghost log `dispatched`. `EmitInit` states the event a listener then
  receives for one record.
- Listener and error-handler functions are opaque ids. What they do when
  called is the `Behaviour` parameter: total functions that either return
  or throw.
- A dispatch target's `"storage"` listener list is an `EventTarget` object
  holding `(wrapper, capture)` registrations. `DispatchEvent` calls them the
  way section 2.9 of the DOM Standard does for an event at its target: the
  capturing registrations first, then the rest, each in registration order,
  over a snapshot of the list.
- The global `window` is an `Option<Window>` parameter. Every method that
  uses the dispatcher recomputes it from that parameter.

The source's `type` field is called `eventType` in the model, since `type`
is a Dafny keyword.

Where the code and its tests disagree, the model follows the code.
`removeItem` of a missing key still sends a change
(src/fake-localstorage.ts:85-86), although
tests/fake-localstorage.test.ts:363-369 expects no listener call.

`clear` reads each old value after emptying the map
(src/fake-localstorage.ts:91-96). Unless a listener writes to the storage
while `clear` is still sending, every change it sends carries a null old
value. The model does the same, and its listeners never write back (see
"## Left out").

## Model

| member | source | states |
|---|---|---|
| Js.OrNull | src/fake-localstorage.ts:41 | `x \|\| null` is a string exactly when `x` is a non-empty string, and then it is `x` |
| Js.ArrayIndex | src/fake-localstorage.ts:107-108 | a number selects an array element exactly when it is integral and in range, and then it selects that element |
| Js.Coalesce | src/storage-event.ts:43-46 | `x ?? null` is a value exactly when `x` was given one, the empty string included |
| Js.CoalesceTo | src/storage-event.ts:47 | `x ?? d` is `x` when given and `d` otherwise |
| OrderedMaps.OrderedMap.Get | src/fake-localstorage.ts:41 | `Map.get` returns a value exactly for a present key, and that value is the stored one |
| OrderedMaps.Empty | src/fake-localstorage.ts:19 | a new map is well formed, has size 0 and holds no key |
| OrderedMaps.SizeIsEntryCount | src/fake-localstorage.ts:112-114 | for a well-formed map, the length of the key order equals the number of entries |
| OrderedMaps.SetSpec | src/fake-localstorage.ts:59 | `set` stores the value, keeps every other key's value, grows only for a new key, keeps every existing key in its position and puts a new key last |
| OrderedMaps.DeleteSpec | src/fake-localstorage.ts:79 | `delete` removes the key, keeps every other key's value, shrinks only when the key was present, leaves the key order as it was for an absent key, and otherwise closes the gap at the key's position with the other keys in their order |
| OrderedMaps.WithoutAt | src/fake-localstorage.ts:79 | taking the one occurrence of a key out of a duplicate-free order leaves the keys before it and the keys after it, each in order |
| OrderedMaps.OrderedMap.Values | src/fake-localstorage.ts:124-126 | `values()` lists the value of each key, in insertion order |
| OrderedMaps.OrderedMap.Pairs | src/fake-localstorage.ts:128-130 | `entries()` lists each key with its value, in insertion order |
| StorageEvents.Initialized | src/storage-event.ts:41-48 | the type is the first argument; each nullable field is null exactly when its member is missing or null, and otherwise a verbatim copy; `url` defaults to `""`; no dictionary means all defaults |
| StorageEvents.StorageEvent.constructor | src/storage-event.ts:23-48 | the read-only fields are `Initialized(type, dict)`; the flags start false, `returnValue` true, `eventPhase` is `NONE`, and the targets are null |
| StorageEvents.StorageEvent.PreventDefault | src/storage-event.ts:51-53 | sets `defaultPrevented` whatever `cancelable` is, and may change no other field |
| StorageEvents.StorageEvent.StopPropagation | src/storage-event.ts:55-57 | sets `cancelBubble` and may change no other field |
| StorageEvents.StorageEvent.StopImmediatePropagation | src/storage-event.ts:59-61 | sets `cancelBubble` and may change no other field |
| StorageEvents.StorageEvent.InitEvent | src/storage-event.ts:63-65 | changes nothing |
| StorageEvents.StorageEvent.ComposedPath | src/storage-event.ts:67-69 | returns the empty path |
| FakeLocalStorage.EmitInit | src/fake-localstorage.ts:157-168 | the event built from a change has type `"storage"`, the change's key, new and old values, this storage object as `storageArea` and the page `url` |
| FakeLocalStorage.ClearedRecords | src/fake-localstorage.ts:95-97 | one change per cleared key, in the keys' order, each with null new and old values |
| FakeLocalStorage.FakeStorage.constructor | src/fake-localstorage.ts:19-20 | a new storage object is empty, its count is 0 and it has sent nothing |
| FakeLocalStorage.FakeStorage.Length | src/fake-localstorage.ts:31-33 | `length` (the cached `_length`) equals the number of stored entries |
| FakeLocalStorage.FakeStorage.GetItem | src/fake-localstorage.ts:35-42 | throws the `getItem` TypeError exactly for a non-string key; otherwise returns the stored value, or null when the key is absent or its value is `""` |
| FakeLocalStorage.FakeStorage.SetItem | src/fake-localstorage.ts:44-67 | throws the key TypeError, then the value TypeError, changing nothing and sending nothing; otherwise stores the value, adds 1 to `length` only for a new key, keeps every other key's value and every key's position, makes `getItem` return a non-empty value, and sends exactly one change with the value read before the write |
| FakeLocalStorage.FakeStorage.RemoveItem | src/fake-localstorage.ts:69-87 | throws the TypeError for a non-string key, changing nothing and sending nothing; otherwise deletes the key, subtracts 1 from `length` only when the key was present, keeps every other entry, and sends exactly one change with the old value, even for an absent key |
| FakeLocalStorage.FakeStorage.Clear | src/fake-localstorage.ts:89-98 | empties the store, sets `length` to 0, and sends one change per key it held, in insertion order, each with null old value |
| FakeLocalStorage.FakeStorage.Key | src/fake-localstorage.ts:100-109 | throws the `key` TypeError exactly for a non-number; a key it returns sits at the given integral index and is non-empty |
| FakeLocalStorage.KeyAtPosition | src/fake-localstorage.ts:107-108 | `key(i)` returns the `i`-th key of `keys()` when that key is non-empty |
| FakeLocalStorage.KeyOutOfRange | src/fake-localstorage.ts:107-108 | `key(i)` returns null at or past the end |
| FakeLocalStorage.FakeStorage.Size | src/fake-localstorage.ts:112-114 | `size` is the number of entries |
| FakeLocalStorage.FakeStorage.Has | src/fake-localstorage.ts:116-118 | `has` is true exactly for a string that is one of the stored keys, and false for any non-string argument |
| FakeLocalStorage.EmptyValueReadsNull | src/fake-localstorage.ts:41 | `getItem` reads null exactly when the key is absent or stored with `""`, though `has` is true for the latter |
| FakeLocalStorage.FakeStorage.Keys | src/fake-localstorage.ts:120-122 | `keys()` lists the stored keys in insertion order, the same order as `entries()`; there are as many as `length` reports, and they are exactly the keys `has` accepts |
| FakeLocalStorage.FakeStorage.Values | src/fake-localstorage.ts:124-126 | `values()` lists each key's value, in insertion order |
| FakeLocalStorage.FakeStorage.Entries | src/fake-localstorage.ts:128-130 | `entries()` lists each key with its value, in insertion order |
| FakeLocalStorage.FakeStorage.Reset | src/fake-localstorage.ts:142-145 | empties the store and sets `length` to 0 without sending any change |
| FakeLocalStorage.FakeStorage.ToJSON | src/fake-localstorage.ts:148-150 | the object has exactly the stored keys, each with its value |
| FakeLocalStorage.FakeStorage.DispatchStorageEvent | src/fake-localstorage.ts:152-173 | hands exactly one change, `(key, newValue, oldValue)`, to the emitter |
| EventEmitter.Capture | src/event-emiter.ts:43 | the options select the capture phase exactly when they are `true` or a dictionary with `capture: true` |
| EventEmitter.SafeListener.constructor | src/event-emiter.ts:65-66 | each wrapper is a new object that calls the listener it was built for |
| EventEmitter.HandleListenerError | src/event-emiter.ts:75-88 | with no handler, the error goes to the default report; otherwise to the handler, and when the handler throws, the report carries both the original error and the handler's own error; the call itself never throws |
| EventEmitter.CallSafeListener | src/event-emiter.ts:65-73 | a wrapper runs its listener on the event; the call completes normally; the listener's error, and only an error, is reported through `handleListenerError` |
| EventEmitter.Removed | src/event-emiter.ts:54 | `removeEventListener` leaves no copy of the registration and keeps every other one |
| EventEmitter.DispatchOrderIsPermutation | src/event-emiter.ts:33 | the dispatch order is a permutation of the listener list |
| EventEmitter.NoCaptureKeepsRegistrationOrder | src/event-emiter.ts:33 | without capturing listeners, listeners run in registration order |
| EventEmitter.EveryRegistrationCalledOnce | src/event-emiter.ts:27-34 | a dispatch runs each listener as often as it is registered, makes one call per registration and hands every call the event, whatever the listeners throw |
| EventEmitter.DeliveryIsolated | src/event-emiter.ts:65-73 | what one call does depends only on its own listener and the handler, not on what earlier listeners did |
| EventEmitter.RegistryAdd | src/event-emiter.ts:40-42 | recording a fresh wrapper in both maps keeps the two maps describing the same wrappers |
| EventEmitter.RegistryRemove | src/event-emiter.ts:51-53 | dropping a listener and its wrapper from both maps keeps them describing the same wrappers |
| EventEmitter.RegisteredListenerCountedOnce | src/event-emiter.ts:36-44 | on a target in step with the registry, a registered listener has exactly one registration and an unregistered one none |
| EventEmitter.SyncedAdd | src/event-emiter.ts:40-43 | `on` keeps the target's list in step with the registry |
| EventEmitter.SyncedRemove | src/event-emiter.ts:47-54 | `off` keeps the target's list in step with the registry |
| EventEmitter.SyncedDispatchReachesRegistered | src/event-emiter.ts:27-34 | on a target in step with the registry, one dispatch calls each registered listener exactly once and no other |
| EventEmitter.GoneStep | src/event-emiter.ts:58-60 | each `off` inside `clear` adds exactly one wrapper, with its options, to those removed so far |
| EventEmitter.RemovedDeregistered | src/event-emiter.ts:58-60 | removing one more wrapper's registration from the list is the same as deregistering it together with those removed before |
| EventEmitter.DeregisteredNothing | src/event-emiter.ts:57-63 | `clear` with nothing registered leaves the list as it was |
| EventEmitter.DeregisteredSynced | src/event-emiter.ts:57-63 | deregistering every wrapper of a list in step with the registry empties it |
| EventEmitter.EventTarget.AddEventListener | src/event-emiter.ts:43 | appends the registration unless the same wrapper and capture flag are already there |
| EventEmitter.EventTarget.RemoveEventListener | src/event-emiter.ts:54 | removes the registration with this wrapper and capture flag |
| EventEmitter.EventTarget.DispatchEvent | src/event-emiter.ts:33 | the calls made are one per registration, capturing ones first, each pass in registration order |
| EventEmitter.InvokePass | src/event-emiter.ts:33 | one pass calls that pass's registrations of the snapshot, in order |
| EventEmitter.StorageEventEmitter.constructor | src/event-emiter.ts:4-13 | both maps start empty, no error handler is set, and the emitter's own list is empty |
| EventEmitter.StorageEventEmitter.Dispatcher | src/event-emiter.ts:15-25 | the dispatcher is the window's target when a window with `dispatchEvent` exists, else the emitter itself |
| EventEmitter.StorageEventEmitter.Emit | src/event-emiter.ts:27-34 | builds a `"storage"` event from the dictionary and makes the current dispatcher's calls; it always returns normally |
| EventEmitter.StorageEventEmitter.On | src/event-emiter.ts:36-44 | a registered listener changes nothing; otherwise a fresh wrapper enters both maps and the dispatcher's list; the maps stay consistent and the list stays in step |
| EventEmitter.StorageEventEmitter.Off | src/event-emiter.ts:46-55 | an unknown listener changes nothing; otherwise only its wrapper leaves both maps and the dispatcher's list, removed with the capture flag its options had at `on`; the maps stay consistent and the list stays in step |
| EventEmitter.StorageEventEmitter.Clear | src/event-emiter.ts:57-63 | both maps end empty; the dispatcher's list loses exactly the registered wrappers, each with the capture flag its options had at `on`, and ends empty when it was in step |
| EventEmitter.StorageEventEmitter.SetErrorHandler | src/event-emiter.ts:91-93 | installs the handler |
| EventEmitter.OnTwiceCallsOnce | src/event-emiter.ts:37-39 | `on` twice for the same listener, then `emit`, calls it once |
| EventEmitter.OffKeepsOthers | src/event-emiter.ts:46-55 | after `off(a)`, an emit calls another registered listener once and `a` not at all |

## Left out

- `forEach` (src/fake-localstorage.ts:132-139) calls a caller-supplied function with a `thisArg`. Foreign callbacks are not modelled; the pairs it visits are those `Entries` lists.
- The method rebinding in the `FakeStorage` constructor (src/fake-localstorage.ts:24-28) only fixes `this` for detached calls; it has no model.
- The `url` of an event comes from `window.location.href` or the `TEST_URL` environment variable (src/fake-localstorage.ts:163-167). It is an opaque parameter of `EmitInit`.
- The try/catch with `console.warn` around `emit` (src/fake-localstorage.ts:157-172) catches an exception thrown by the chosen `StorageEvent` constructor or by the dispatcher's `dispatchEvent`. The constructor itself is never missing, since src/event-emiter.ts:28-32 falls back to the module's own `StorageEvent`. In the model, building the event and `emit` always complete normally, so that path does not arise.
- `emit` picks a global `StorageEvent` constructor when the environment has one (src/event-emiter.ts:28-32). The model always builds its own `StorageEvent`.
- `timeStamp = Date.now()` (src/storage-event.ts:39) reads a clock; it is not modelled.
- All `console.*` output, including the default error report and the handler-failure report, becomes a `Report` value, not log text.
- The `once`, `passive` and `signal` listener options only reach the native `EventTarget`. Only the capture flag they select is modelled, as it stood when `on` was called.
- ListenerOptions, StorageEventEmitter.Off, StorageEventEmitter.Clear, SyncedRemove and DeregisteredSynced: the model keeps listener options as a value. The source keeps the caller's options object itself (src/event-emiter.ts:42), and `off` hands that object back to `removeEventListener`, which reads its `capture` again at that moment (src/event-emiter.ts:52-54). A caller who changes `capture` on that object after `on` makes `off` look for the other flag. The wrapper then stays on the dispatcher's list although both maps forget it, so later emits still call the listener, and a new `on` for it adds a second wrapper. `Off`, `Clear`, `SyncedRemove` and `DeregisteredSynced` hold only for options objects that are not changed after `on`.
- During a native dispatch the browser also sets the event's `eventPhase`, `target` and `currentTarget`. `DispatchEvent` does not update them.
- Listeners that other code adds directly to `window` are outside the registry. The `Synced` facts hold only for a list that the emitter alone maintains; `Clear`'s general contract covers any list.
- `clear()` on the emitter walks a JavaScript `Map` in insertion order. The model's registry map has no order, so `Clear` removes the wrappers in an arbitrary order. Its result does not depend on that order.
- The process-wide singletons and installation into `window`/`global`/`globalThis` (src/auto.ts, src/index.ts) are environment setup.
- `FakeStorage.ToJSON` returns an unordered map. The plain object `Object.fromEntries` builds (src/fake-localstorage.ts:149) enumerates integer-like keys first, then the others in insertion order; that enumeration order is not modelled.
- JavaScript numbers are modelled as exact reals plus one non-finite case. Rounding to doubles is not modelled, so `ArrayIndex` and `Key` treat every integral real alike.
- Node's check that `dispatchEvent` receives an `Event` instance is not modelled: the emitter's own `StorageEvent` is always accepted.
- `Behaviour`, `DispatchEvent` and `FakeStorage.Clear`: a listener is a pure function that returns or throws. A listener that calls back into the storage or the emitter during a dispatch is not modelled. In the source, a listener of one `clear` event that calls `setItem` on a later key makes that key's event carry the new value as its old value (src/fake-localstorage.ts:95-96). A listener that calls `off(b)` during an emit stops `b` from being called, because DOM dispatch skips removed listeners. A listener that calls `stopImmediatePropagation()` on the native `StorageEvent`, which `emit` uses where the environment has one (src/event-emiter.ts:28-32), makes the real dispatch skip every later listener of that emit. `EveryRegistrationCalledOnce`, `SyncedDispatchReachesRegistered` and `Emit` hold only for listeners without such effects.
- `Window` and `DispatchEvent`: a window whose `dispatchEvent` is a function is assumed to run DOM dispatch over the same list its `addEventListener` fills. The source only checks `typeof window.dispatchEvent === "function"` (src/event-emiter.ts:16-18). A stand-in such as a mock function calls no listener at all, whereas `Emit`'s contract says every registered listener is called.
- `DispatchEvent` with no window: the dispatcher is then the emitter's own Node.js `EventTarget` (src/event-emiter.ts:3). Node.js uses the capture flag only to tell registrations apart and calls listeners in registration order. `DispatchOrder` runs capturing listeners first, which is the DOM order. The two agree whenever no listener asked for capture (`NoCaptureKeepsRegistrationOrder`), and the set of calls is the same in every case (`DispatchOrderIsPermutation`).
