# StateManager: a verified model of Sangtae's external store

Sangtae keeps application state outside the React component tree in a
`StateManager<T>`. The manager has one state slot and an ordered list of
listener callbacks. It has four operations:

- `setState` overwrites the slot. Its argument is either a value or an updater
  of the previous state. It then always runs one notification cycle.
- `getState` reads the slot.
- `subscribe` appends a listener copy-on-write. It returns a closure that
  filters every entry identical to that listener out of the current list.
- `emitChange` copies the list and calls each entry in insertion order.

This project models that class in Dafny and proves what each operation does
to the state, the listener list and the sequence of listener invocations.

- `listeners.dfy` (module `Listeners`) holds the listener list as a value.
  It contains the identity-based removal `Without`, with its properties, and
  `Concat`, which flattens the delivered notification cycles.
- `state_manager.dfy` (module `Store`) holds the class `StateManager<T>`.
  Its fields are `state`, `listeners`, a ghost `log` of every invocation and
  a ghost `cycles` list holding each cycle's snapshot. The object invariant
  `Valid()` says that `log == Concat(cycles)`. The module also has the tagged
  setter argument `Update<T>`, the handle `Unsubscriber` returned by
  `Subscribe` (bound to the store that created it), and five client
  methods whose contracts follow from the methods' contracts alone.

Listeners are opaque ids (`ListenerId`). Calling a listener is modelled by
appending its id to `log`. Removal by reference identity becomes equality of
ids. The source's `SetStateCallbackType<T>` is the `fn: T -> T` of the
`Updater` case. Its `DataObserver<T>` interface is the set of methods of the
class.

Each call of an unsubscribe handle filters the list as it is at that moment
(`src/stateManager.ts:95-97`). A second call changes nothing
(`WithoutIdempotent`) unless the callback was subscribed again in between;
then it removes the new entries too (`StaleHandleRemovesResubscription`).

## Model

| member | source | states |
|---|---|---|
| `Store.StateManager.constructor` | src/stateManager.ts:50-61 | a new store holds exactly the initial state, has no listeners and has delivered nothing |
| `Store.StateManager.SetState` | src/stateManager.ts:68-77 | the new state is the plain value, or the updater applied to the old state; exactly one cycle is delivered, to the listener list as it was, even when the state is unchanged (so, by `Valid()`, the invocation log grows by that list); the listener list is unchanged |
| `Store.StateManager.GetState` | src/stateManager.ts:83-85 | returns the current state and modifies nothing |
| `Store.StateManager.Subscribe` | src/stateManager.ts:92-98 | the list becomes the old list with the listener appended at the end, duplicates kept; the returned handle captures this store and that listener; state and deliveries are untouched |
| `Store.StateManager.Unsubscribe` | src/stateManager.ts:95-97 | for a handle created by this store, the list becomes the current list with every entry identical to the handle's listener removed; nothing else changes |
| `Store.StateManager.EmitChange` | src/stateManager.ts:104-112 | exactly one cycle is recorded, holding the listener list taken at entry; with `Valid()` (log is the concatenation of the cycles) the invocation log grows by that list, in order, once per occurrence; state and list are unchanged |
| `Store.ValueMatchesConstantUpdater` | src/stateManager.ts:68-74 | a value `v` and the updater `_ => v` install the same state, namely `v` |
| `Store.NextState` | src/stateManager.ts:69-74 | a plain value installs itself; an updater is applied to the previous state |
| `Store.UnsubscribedListenerIsNotNotified` | src/stateManager.ts:68-108 | after a handle is called, the next write delivers to the list without that listener, so that listener is not invoked |
| `Store.SubscribeUnsubscribeThenSet` | src/stateManager.ts:92-97 | subscribing a callback that was not registered and calling its handle at once restores the list; the next write delivers exactly the original list and does not invoke the callback |
| `Store.StaleHandleRemovesResubscription` | src/stateManager.ts:92-97 | a handle called again after its callback was subscribed anew removes the new entry too, leaving the list with no copy of that callback; state and deliveries are untouched |
| `Store.NotifiesInSubscriptionOrder` | src/stateManager.ts:92-108 | with `a` then `b` subscribed to a new store, one write invokes `a` then `b`, each once, in one cycle, and installs the written value |
| `Store.IncrementFromFive` | src/stateManager.ts:68-85 | an increment updater applied to a store holding 5 makes the state, and what `GetState` returns, 6 |
| `Listeners.Without` | src/stateManager.ts:96 | no entry of the result is the removed listener, and every other listener occurs exactly as often as before |
| `Listeners.WithoutIsSubsequence` | src/stateManager.ts:96 | the surviving entries are a subsequence of the list, so their relative order is kept |
| `Listeners.WithoutAppend` | src/stateManager.ts:96 | removal works entry by entry: it distributes over concatenation of lists |
| `Listeners.WithoutAbsent` | src/stateManager.ts:96 | removing a listener that is not registered leaves the list unchanged |
| `Listeners.WithoutIdempotent` | src/stateManager.ts:95-97 | calling the same handle a second time changes nothing |
| `Listeners.WithoutCommutes` | src/stateManager.ts:95-97 | the handles of two callbacks give the same list whichever is called first |
| `Listeners.SubscribeThenUnsubscribe` | src/stateManager.ts:93-96 | appending a listener that was absent and then removing it restores the original list |
| `Listeners.UnsubscribeRemovesEarlierCopies` | src/stateManager.ts:93-96 | removal after a second subscription also drops the earlier copies, so duplicate subscriptions share one removal key |
| `Listeners.ConcatAppend` | src/stateManager.ts:104-108 | delivering one more cycle extends the invocation record by exactly that cycle's snapshot |

## Left out

- `src/hooks.ts`: `useStore` and `useGetStore` only forward to React's `useSyncExternalStore`, which is framework code outside this model. `store` and `useSetStore` are one-line pass-throughs. `getStoreSnapshot` is `getState()`.
- `vite.config.ts`: build configuration, with no behaviour to state.
- Listener bodies and their side effects are not modelled. A listener is an opaque id, so re-entrant calls from a listener into the store during a cycle are not modelled. The snapshot rule is captured by `EmitChange` delivering exactly the list as it was at entry.
- Updaters are modelled as pure, total functions of the previous state. An updater that throws (in the source the state is then kept and no cycle runs) or that writes to the store itself (in the source its result then overwrites that write, after the write's own cycle) is not modelled.
- Exceptions thrown by a listener are not modelled. Such an exception aborts the rest of the cycle, and Dafny has no exceptions.
- The run-time test `param instanceof Function` is replaced by the tagged `Update<T>`. So the model has no ambiguity for function-valued states, which the source treats as updaters.
- Reference equality of states, tearing and React's render-pass semantics belong to the host framework and are not modelled.
