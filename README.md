# reactive-state in Dafny

A model of the core of reactive-state, a small Kotlin state-management library, and of the pure reducers of the notes app built on it.

**The library** (`store/src/main/java/hu/nemi/store/`):
- `Lens`: get/set pairs composed with `+`.
- `StateNode`: a tree of values with keyed children, addressed by `Node` lenses.
- `Optional`.
- Reducer composition.
- The re-entrant `Lock`.
- `Subscription`: an unsubscribe that runs at most once.
- `StoreImpl`: a single-listener store that cannot be re-entered.
- The middleware chain, whose `next` calls share one iterator.

**The app reducers:**
- The notes screen's store, with its item flags and projection (`notes/impl/NotesImpl.kt`).
- The note editor and its middleware (`notes/impl/editor/EditorServiceImpl.kt`).
- The twelve guarded reducers of the second notes model (`notes/model/State.kt`) and its `toViewState` (`notes/model/NotesImpl.kt`).
- The optimistic pending-operations reducer (`model/NotesImpl.kt`).

## Layout

| file | module | models |
|---|---|---|
| `outcomes.dfy` | `Outcomes` | exceptions as `Error`, `Result`, and Kotlin's nullable `T?` as `Nullable` |
| `lens.dfy` | `Lenses` | `Lens.kt` |
| `state_node.dfy` | `StateNodes` | `StateNode.kt`; a node is a path of keys, checked against the reference functions `Lookup` and `Update` |
| `optional.dfy` | `Optionals` | `Optional.kt` |
| `reducers.dfy` | `Reducers` | `Reducers.kt` |
| `lock.dfy` | `Locks` | `Lock.kt`: a pure state machine (`Enter`, `Exit`, `Run`, `Trace`) and the class `Lock` proved against it |
| `observable.dfy` | `Observables` | `Observable.kt`: the class `Subscription` over a `Lock` |
| `store.dfy` | `Stores` | `Store.kt`: the class `StoreImpl`; the chain walk `WalkFrom`/`Perform`; the classes `ChainWalk` and `Chain` proved against it |
| `lists.dfy` | `Lists` | Kotlin's `filter`, `firstOrNull`/`first` (as `FirstIndex`) and `indexOf` |
| `entities.dfy` | `NoteEntities` | `NoteEntity` |
| `notes_impl.dfy` | `Notes` | `notes/impl/NotesImpl.kt` |
| `editor_service.dfy` | `NotesEditor` | `notes/impl/editor/EditorServiceImpl.kt` |
| `notes_state.dfy` | `NotesModel` | `notes/model/State.kt` |
| `notes_view.dfy` | `NotesView` | `notes/model/NotesImpl.kt` |
| `operations.dfy` | `Operations` | `model/NotesImpl.kt` |

**Middleware as scripts.** A middleware is modelled by what its `dispatch` does for a state and a message: a script of acts.
- `Next`: call `next.dispatch`.
- `Emit`: send a message to the chain's dispatcher.
- `CloseDispatcher`: close that dispatcher.
- `Send`: send to another sink, such as the notes dispatcher an editor handler holds.

`WalkFrom`/`Perform` walk one shared iterator over these scripts. They return which middleware ran and what left the chain, in order.

**Callbacks.** Listeners and callbacks are outside code. They are named by ids or by what they do:
- a listener's reaction is a `Reaction` value;
- a lock's block is a `Block` tree;
- an unsubscribe callback is its outcome.

## Model

| member | source | states |
|---|---|---|
| Lenses.Modify | store/src/main/java/hu/nemi/store/Lens.kt:32 | for a lens that returns what is set, the result reads `f` of the old part; for a lens that keeps a write-back of its own read, an `f` that fixes the part leaves `s` unchanged |
| Lenses.Get | store/src/main/java/hu/nemi/store/Lens.kt:26 | `invoke(s)` reads the part with the getter (definition; its laws are the lemmas below) |
| Lenses.Set | store/src/main/java/hu/nemi/store/Lens.kt:28 | `invoke(s, a)` writes the part with the curried setter (definition) |
| Lenses.Plus | store/src/main/java/hu/nemi/store/Lens.kt:30 | `this + other` (definition; `PlusGetSet`, the `PlusKeeps*` lemmas and `PlusIsAssociative` state its meaning) |
| Lenses.Identity | store/src/main/java/hu/nemi/store/Lens.kt:15-18 | `Lens<S>()` (definition; `IdentityLaws` and `IdentityIsUnit` state its meaning) |
| Lenses.PlusGetSet | store/src/main/java/hu/nemi/store/Lens.kt:30 | getting through `outer + inner` is `inner.get(outer.get(s))`; setting is `outer.set(s, inner.set(outer.get(s), v))` |
| Lenses.PlusKeepsGetSetLaw | store/src/main/java/hu/nemi/store/Lens.kt:30 | if both lenses return what was set, so does their composition |
| Lenses.PlusKeepsSetGetLaw | store/src/main/java/hu/nemi/store/Lens.kt:30 | if setting what was read changes nothing for both lenses, the same holds for their composition |
| Lenses.PlusKeepsSetSetLaw | store/src/main/java/hu/nemi/store/Lens.kt:30 | a second set overrides the first through a composition, given get-set on the outer lens |
| Lenses.IdentityLaws | store/src/main/java/hu/nemi/store/Lens.kt:15-18 | the identity lens satisfies all three lens laws |
| Lenses.IdentityIsUnit | store/src/main/java/hu/nemi/store/Lens.kt:15-30 | the identity lens is a left and right unit of `+` (get and set agree pointwise) |
| Lenses.PlusIsAssociative | store/src/main/java/hu/nemi/store/Lens.kt:30 | `(x + y) + z` and `x + (y + z)` agree on every get and set |
| Lenses.NestedModifyTouchesOnlyTarget | store/src/test/java/hu/nemi/store/LensTest.kt:11-18 | modifying through four composed field lenses changes the street name and no other field |
| StateNodes.WithChild | store/src/main/java/hu/nemi/store/StateNode.kt:57 | `withChild(key, init)` addresses its parent's path extended by one key |
| StateNodes.RootNodeLens | store/src/main/java/hu/nemi/store/StateNode.kt:17-20 | the root `node` lens (definition; stated by `RootNodeLensIsWholeTree`) |
| StateNodes.NodeValueLens | store/src/main/java/hu/nemi/store/StateNode.kt:21-24 | the root `value` lens and the value half of `DefaultNode.value` (definition; stated by `NodeValueLensKeepsChildren`) |
| StateNodes.ChildLens | store/src/main/java/hu/nemi/store/StateNode.kt:44-50 | the child lens `DefaultNode.node` adds to its parent's (definition; stated by `ChildLensGet`, `ChildLensSetOnlyKey`, `ChildLensSetGetIff`, `ChildLensLaws`) |
| StateNodes.NodeLens | store/src/main/java/hu/nemi/store/StateNode.kt:44-50 | `Node.node` for a chain of `withChild` (definition; stated by `NodeLensGetIsLookup`, `NodeLensSetIsUpdate`, `NodeLensGetSet`) |
| StateNodes.ValueLens | store/src/main/java/hu/nemi/store/StateNode.kt:52-55 | `Node.value` (definition; stated by `ValueLensGet`, `ValueLensSetIsUpdate`, `ValueLensSetIsLocal`) |
| StateNodes.Lookup | store/src/main/java/hu/nemi/store/StateNode.kt:44-48 | reference reading of the node at a key path, missing children read as leaves |
| StateNodes.Update | store/src/main/java/hu/nemi/store/StateNode.kt:44-50 | reference writing of the node at a key path (`LookupOfUpdate`, `UpdateIsLocal`) |
| StateNodes.RootNodeLensIsWholeTree | store/src/main/java/hu/nemi/store/StateNode.kt:17-20 | the root node lens reads the whole tree; setting it yields the child given |
| StateNodes.NodeValueLensKeepsChildren | store/src/main/java/hu/nemi/store/StateNode.kt:21-24 | the value lens reads `value`; setting replaces `value` and keeps `children` |
| StateNodes.ChildLensGet | store/src/main/java/hu/nemi/store/StateNode.kt:45-48 | the child lens reads `children[key]` when present, else the leaf `StateNode(init(), {})` |
| StateNodes.ChildLensSetOnlyKey | store/src/main/java/hu/nemi/store/StateNode.kt:49 | setting a child overwrites only `key`: same value, other children unchanged, and a get returns what was stored |
| StateNodes.ChildLensSetGetIff | store/src/main/java/hu/nemi/store/StateNode.kt:45-49 | writing back what the child lens read leaves the tree unchanged exactly when the key was present (a read never inserts) |
| StateNodes.ChildLensLaws | store/src/main/java/hu/nemi/store/StateNode.kt:45-49 | the child lens satisfies get-set and set-set |
| StateNodes.LookupAppend | store/src/main/java/hu/nemi/store/StateNode.kt:44-50 | looking up one more key reads that child of the node found, or a leaf |
| StateNodes.UpdateAppend | store/src/main/java/hu/nemi/store/StateNode.kt:44-50 | writing one key deeper writes the parent with that child replaced |
| StateNodes.NodeLensGetIsLookup | store/src/main/java/hu/nemi/store/StateNode.kt:44-50 | `DefaultNode.node` reads the subtree at the node's key path, missing keys reading as leaves |
| StateNodes.NodeLensSetIsUpdate | store/src/main/java/hu/nemi/store/StateNode.kt:44-50 | setting `DefaultNode.node` writes the subtree at the node's key path |
| StateNodes.NodeLensGetSet | store/src/main/java/hu/nemi/store/StateNode.kt:44-50 | a node lens returns what was set into it |
| StateNodes.ValueLensGet | store/src/main/java/hu/nemi/store/StateNode.kt:52-55 | `DefaultNode.value` reads the value of the subtree at the path |
| StateNodes.ValueLensSetIsUpdate | store/src/main/java/hu/nemi/store/StateNode.kt:52-55 | setting `DefaultNode.value` writes the subtree at the path with only its value replaced |
| StateNodes.ValueLensSetViaNodeLens | store/src/main/java/hu/nemi/store/StateNode.kt:52-55 | `value` is `node + valueLens`: setting it sets the node to its current subtree with the new value |
| StateNodes.ValueLensSetIsLocal | store/src/main/java/hu/nemi/store/StateNode.kt:44-55 | setting a descendant's value changes that subtree's value only: the root value and every sibling subtree stay as they were |
| StateNodes.UpdateIsLocal | store/src/main/java/hu/nemi/store/StateNode.kt:49 | writing below the first key keeps the root value and the other children |
| StateNodes.LookupOfUpdate | store/src/main/java/hu/nemi/store/StateNode.kt:44-50 | reading a path just written returns what was written |
| Optionals.Of | store/src/main/java/hu/nemi/store/Optional.kt:10 | `of(null)` is `Empty`, `of(v)` is `Value(v)` |
| Optionals.Map | store/src/main/java/hu/nemi/store/Optional.kt:13-16 | `Empty` stays `Empty`, `Value(v)` becomes `Value(f(v))` |
| Optionals.MapEmpty | store/src/main/java/hu/nemi/store/Optional.kt:18-21 | presence is inverted: `Empty` becomes `Value(f())`, `Value` becomes `Empty` |
| Optionals.FlatMap | store/src/main/java/hu/nemi/store/Optional.kt:23-26 | `Empty` stays `Empty`, `Value(v)` becomes `f(v)` |
| Optionals.GetOrThrowWith | store/src/main/java/hu/nemi/store/Optional.kt:30-33 | the value of a `Value`, the supplied error for `Empty` |
| Optionals.GetOrThrow | store/src/main/java/hu/nemi/store/Optional.kt:28 | the value of a `Value`, `NoSuchElementException` for `Empty` |
| Optionals.Zip | store/src/main/java/hu/nemi/store/Optional.kt:35-38 | a pair exactly when both sides are present, `Empty` otherwise |
| Optionals.GetOrDefault | store/src/main/java/hu/nemi/store/Optional.kt:41-44 | the default for `Empty`, the value for `Value` |
| Optionals.MapFunctorLaws | store/src/main/java/hu/nemi/store/Optional.kt:13-16 | `map(id)` is the identity, and `map(f)` then `map(g)` is `map(g∘f)` |
| Optionals.MapIsFlatMap | store/src/main/java/hu/nemi/store/Optional.kt:13-26 | `map(f)` is `flatMap` with `Value(f(x))` |
| Optionals.FlatMapMonadLaws | store/src/main/java/hu/nemi/store/Optional.kt:23-26 | the three monad laws for `flatMap` and `Value` |
| Optionals.MapEmptyTwice | store/src/main/java/hu/nemi/store/Optional.kt:18-21 | two `mapEmpty`s restore presence |
| Optionals.ZipIsFlatMapOfMap | store/src/main/java/hu/nemi/store/Optional.kt:35-38 | `zip` is `flatMap` of `map` into pairs |
| Optionals.GetOrDefaultAgreesWithGetOrThrow | store/src/main/java/hu/nemi/store/Optional.kt:28-44 | `getOrDefault` returns what `getOrThrow` returns when it does not throw, and it throws exactly when the default is returned for `Empty` |
| Optionals.OfRoundTrip | store/src/main/java/hu/nemi/store/Optional.kt:10-33 | `of(v).getOrThrow()` is `v`; `of(null).getOrThrow()` throws `NoSuchElementException` |
| Reducers.Compose | store/src/main/java/hu/nemi/store/Reducers.kt:3-9 | no reducers fails the `require` with `IllegalArgumentException`; otherwise the result is the left fold of the reducers with one action |
| Reducers.Fold | store/src/main/java/hu/nemi/store/Reducers.kt:6-8 | `reducers.fold(state) { s, r -> r(s, action) }` (definition; stated by `FoldAppend` and `FoldFirstThenRest`) |
| Reducers.FoldAppend | store/src/main/java/hu/nemi/store/Reducers.kt:6-8 | folding a concatenation folds the second list over the first list's result |
| Reducers.FoldFirstThenRest | store/src/main/java/hu/nemi/store/Reducers.kt:6-8 | the first reducer runs first and the rest run on its output |
| Reducers.ComposeSingle | store/src/main/java/hu/nemi/store/Reducers.kt:5-8 | `compose(r)` behaves exactly like `r` |
| Reducers.ComposeFirstThenRest | store/src/main/java/hu/nemi/store/Reducers.kt:6-8 | `compose(r1..rn)(s, a) == compose(r2..rn)(r1(s, a), a)` |
| Reducers.FoldOfIdentities | store/src/main/java/hu/nemi/store/Reducers.kt:6-8 | reducers that all return the state for `a` compose to one that does too |
| Locks.Enter | store/src/main/java/hu/nemi/store/Lock.kt:20-21 | entering makes the caller the owner and counts one more entry |
| Locks.Exit | store/src/main/java/hu/nemi/store/Lock.kt:25 | leaving counts one entry less and clears the owner exactly when the count reaches zero |
| Locks.ExitUndoesEnter | store/src/main/java/hu/nemi/store/Lock.kt:20-26 | from a consistent state (owner -1 exactly when count 0), entering keeps it consistent and leaving restores it |
| Locks.RefusedIffHeldByOther | store/src/main/java/hu/nemi/store/Lock.kt:19-28 | a thread is refused exactly while another thread holds the lock |
| Locks.OwnerReleasedAtOutermostExit | store/src/main/java/hu/nemi/store/Lock.kt:20-26 | during nested entries every state is consistent and owned by the caller; only the outermost exit restores the state before the call |
| Locks.OtherThreadIsRefused | store/src/main/java/hu/nemi/store/Lock.kt:20-28 | a nested `invoke` from another thread throws `ConcurrentModificationException` |
| Locks.RunIgnoresCount | store/src/main/java/hu/nemi/store/Lock.kt:18-30 | the outcome of `invoke` depends on the owner, not on the entry count |
| Locks.SameThreadReentryIsTransparent | store/src/main/java/hu/nemi/store/Lock.kt:18-30 | re-entering from the owning thread returns what the inner block returns |
| Locks.Lock.constructor | store/src/main/java/hu/nemi/store/Lock.kt:15-16 | a new lock has no owner and count 0 |
| Locks.Lock.Acquire | store/src/main/java/hu/nemi/store/Lock.kt:19-21 | enters exactly when the lock is free or owned by the caller; a refusal changes nothing |
| Locks.Lock.Release | store/src/main/java/hu/nemi/store/Lock.kt:25 | the new state is `Exit` of the old |
| Locks.Lock.Invoke | store/src/main/java/hu/nemi/store/Lock.kt:18-30 | returns the block's result or error, or `ConcurrentModificationException` when refused; the lock is left as found, and its history grows by the pure `Trace` |
| Observables.AfterUnsubscribe | store/src/main/java/hu/nemi/store/Observable.kt:20-28 | an entered `unsubscribe` sets the flag and runs the callback only if the flag was clear; a refused one changes nothing |
| Observables.UnsubscribeIsIdempotent | store/src/main/java/hu/nemi/store/Observable.kt:21 | a second `unsubscribe` changes nothing |
| Observables.CallbackRunsAtMostOnce | store/src/main/java/hu/nemi/store/Observable.kt:20-28 | over any sequence of calls, entered or refused, the callback runs at most once |
| Observables.Subscription.WithLock | store/src/main/java/hu/nemi/store/Observable.kt:7-8 | the factory with a given lock starts subscribed, with no callback run |
| Observables.Subscription.constructor | store/src/main/java/hu/nemi/store/Observable.kt:7-8 | by default the factory makes a fresh, free `Lock()` |
| Observables.Subscription.Unsubscribe | store/src/main/java/hu/nemi/store/Observable.kt:20-28 | under the lock: the first call runs the callback, returns its outcome and sets the flag even when it throws; later calls do nothing; a call refused by the lock throws and changes nothing; the lock ends as it was found, its history unchanged on refusal and extended by the `Enter` and `Exit` states otherwise |
| Stores.ReactionOutcome | store/src/main/java/hu/nemi/store/Store.kt:143-156 | a listener that calls back into the store gets `ConcurrentModificationException` |
| Stores.DispatchNotifiesExactlyOnChange | store/src/main/java/hu/nemi/store/Store.kt:135-141 | the listener is called once, with the new state, exactly when the reduced state differs; otherwise the state is kept and nobody is called; a throwing reducer changes nothing |
| Stores.ListenCallsNewBlockOnce | store/src/main/java/hu/nemi/store/Store.kt:128-133 | a different block replaces the listener and is called once with the current state; the same block is not called |
| Stores.StoreImpl.constructor | store/src/main/java/hu/nemi/store/Store.kt:120-126 | the initial state, the no-op listener, no transaction |
| Stores.StoreImpl.Dispatch | store/src/main/java/hu/nemi/store/Store.kt:135-150 | inside a transaction it throws and changes nothing; otherwise it does `DispatchStep`, and the flag is clear again afterwards even when the reducer or listener throws |
| Stores.StoreImpl.OnStateChanged | store/src/main/java/hu/nemi/store/Store.kt:128-150 | inside a transaction it throws and changes nothing; otherwise it does `ListenStep` |
| Stores.StoreImpl.Notify | store/src/main/java/hu/nemi/store/Store.kt:131-139 | a listener call is logged; the listener's calls back into the store fail and change nothing |
| Stores.WalkFrom | store/src/main/java/hu/nemi/store/Store.kt:112-118 | the walk from iterator position `pos` runs middleware in ascending index order, starting with `pos` when there is one |
| Stores.Perform | store/src/main/java/hu/nemi/store/Store.kt:112-118 | the rest of a middleware's body only runs middleware after the current iterator position, in ascending order |
| Stores.PerformAtEnd | store/src/main/java/hu/nemi/store/Store.kt:113-117 | past the last middleware, `next` calls do nothing and the other acts leave the chain in order |
| Stores.LastMiddlewareRunsAlone | store/src/main/java/hu/nemi/store/Store.kt:113-117 | the last middleware runs alone and its script's acts leave the chain |
| Stores.ChainRunsEachMiddlewareAtMostOnceInOrder | store/src/main/java/hu/nemi/store/Store.kt:95-118 | a chain dispatch runs each middleware at most once, in list order |
| Stores.NextAfterLastIsNoOp | store/src/main/java/hu/nemi/store/Store.kt:113-117 | `next` after the last middleware does nothing |
| Stores.NoNextStopsChain | store/src/main/java/hu/nemi/store/Store.kt:113-117 | a first middleware that never calls `next` is the only one that runs |
| Stores.NoNextRunsNothing | store/src/main/java/hu/nemi/store/Store.kt:113-117 | a script without `next` runs no middleware and leaves the iterator where it was |
| Stores.PassThroughRunsAll | store/src/main/java/hu/nemi/store/Store.kt:112-118 | when every middleware only forwards, each one from the iterator's position runs exactly once, in order, and nothing leaves the chain |
| Stores.ChainWalk.Dispatch | store/src/main/java/hu/nemi/store/Store.kt:112-118 | `MiddlewareChainNextImpl.dispatch` advances the shared iterator exactly as `WalkFrom` |
| Stores.ChainWalk.Run | store/src/main/java/hu/nemi/store/Store.kt:115 | running a middleware's body advances the iterator exactly as `Perform` |
| Stores.Chain.Dispatch | store/src/main/java/hu/nemi/store/Store.kt:95-97 | a dispatch over a fresh iterator runs what `WalkFrom` from 0 runs, each middleware at most once, in order |
| Stores.Chain.Close | store/src/main/java/hu/nemi/store/Store.kt:99 | `close` closes the middleware in list order and stops at the first `close` that throws, returning its error |
| Lists.FilterCounts | app/src/main/java/hu/nemi/costate/notes/impl/NotesImpl.kt:158 | Kotlin's `filter` keeps every element that passes exactly as often as it occurs, and none that fails |
| Lists.FilterAppend | app/src/main/java/hu/nemi/costate/notes/impl/NotesImpl.kt:158 | `filter` distributes over concatenation, so it keeps the elements' order |
| Notes.SetFlagBits | app/src/main/java/hu/nemi/costate/notes/impl/NotesImpl.kt:241-247 | setting ORs the bit in; clearing XORs it, so the bit is clear afterwards exactly when it was set; no other bit changes |
| Notes.SetFlag | app/src/main/java/hu/nemi/costate/notes/impl/NotesImpl.kt:241-247 | `setFlag(flag, isSet)` (definition; stated by `SetFlagBits`) |
| Notes.Get | app/src/main/java/hu/nemi/costate/notes/impl/NotesImpl.kt:214 | `state[id]` is the first item with that id, or null exactly when no item has it |
| Notes.IndexOfGetIsIdIndex | app/src/main/java/hu/nemi/costate/notes/impl/NotesImpl.kt:72-149 | `indexOf(state[id])` is the index of the first item with that id, so each write-back lands on the item read |
| Notes.Replaced | app/src/main/java/hu/nemi/costate/notes/impl/NotesImpl.kt:112-116 | writing one index of a copy changes that index only |
| Notes.OnCreatedStep | app/src/main/java/hu/nemi/costate/notes/impl/NotesImpl.kt:72-84 | only the first item with the id changes, and only a `Display` one: it takes the entity and its CREATING bit is toggled by `setCreating(false)` (XOR: cleared when set, set when clear); otherwise the state is unchanged |
| Notes.OnCreatingStep | app/src/main/java/hu/nemi/costate/notes/impl/NotesImpl.kt:86-87 | appends exactly one `Display` item, flagged CREATING |
| Notes.OnCancelEditStep | app/src/main/java/hu/nemi/costate/notes/impl/NotesImpl.kt:95-107 | an `Editing` first item with the id becomes `Display` with no flags; otherwise the state is unchanged |
| Notes.OnUpdatedStep | app/src/main/java/hu/nemi/costate/notes/impl/NotesImpl.kt:109-121 | a `Display` first item with the id takes the entity and its UPDATING bit is toggled by `setUpdating(false)` (XOR); otherwise the state is unchanged |
| Notes.OnUpdatingStep | app/src/main/java/hu/nemi/costate/notes/impl/NotesImpl.kt:123-135 | an `Editing` first item with the id becomes `Display` flagged UPDATING; otherwise the state is unchanged |
| Notes.OnEditingStartedStep | app/src/main/java/hu/nemi/costate/notes/impl/NotesImpl.kt:137-149 | the first item with the id, of either kind, becomes `Editing` with the new editor; a missing id changes nothing |
| Notes.OnMarkDeletedStep | app/src/main/java/hu/nemi/costate/notes/impl/NotesImpl.kt:151-155 | every matching `Display` item gets DELETING; length and all other items unchanged |
| Notes.OnNoteDeletedStep | app/src/main/java/hu/nemi/costate/notes/impl/NotesImpl.kt:157-158 | exactly the `Display` items with another id remain, each as often as before and in order (it is `Filter` with that test), so every `Editing` item goes |
| Notes.OnNotesChangedStep | app/src/main/java/hu/nemi/costate/notes/impl/NotesImpl.kt:161-165 | loading stops; one item per incoming note in order; a known note keeps its kind, flags or editor; a new one is `Display` with no flags |
| Notes.Reduce | app/src/main/java/hu/nemi/costate/notes/impl/NotesImpl.kt:53-70 | (corrected) `reduce` with `OnUpdated` routed to `onUpdated` and `Update` ignored (definition; stated by `ReduceIgnoresRequests`, `SaveRoundTripClearsUpdating`) |
| Notes.ReduceAsWritten | app/src/main/java/hu/nemi/costate/notes/impl/NotesImpl.kt:53-70 | `reduce` as written: `Update` to `onUpdated`, `OnUpdated` to `else` (definition; stated by `ReduceAsWrittenIgnores`, `UpdatingFlagStaysSetAsWritten`) |
| Notes.ReduceIgnoresRequests | app/src/main/java/hu/nemi/costate/notes/impl/NotesImpl.kt:53-70 | (corrected) with `Update` routed to no step, `Edit`, `DeleteNote`, `OnCreate`, `Create` and `Update` leave the state unchanged |
| Notes.ReduceAsWrittenIgnores | app/src/main/java/hu/nemi/costate/notes/impl/NotesImpl.kt:53-70 | as written, `Edit`, `DeleteNote`, `OnCreate`, `Create` and `OnUpdated` leave the state unchanged |
| Notes.SameIdIndexAfterChange | app/src/main/java/hu/nemi/costate/notes/impl/NotesImpl.kt:214 | a reducer that rewrites the first item with an id, keeping that id, keeps it first |
| Notes.UpdatingFlagStaysSetAsWritten | app/src/main/java/hu/nemi/costate/notes/impl/NotesImpl.kt:53-70 | as written, after `Update`, `OnUpdating` and `OnUpdated` the saved note is left flagged UPDATING |
| Notes.SaveRoundTripClearsUpdating | app/src/main/java/hu/nemi/costate/notes/impl/NotesImpl.kt:109-135 | with `OnUpdated` routed to `onUpdated`, the saved note ends as `Display` with no flags and nothing else changes |
| Notes.Row | app/src/main/java/hu/nemi/costate/notes/impl/NotesImpl.kt:26-34 | a `Display` item becomes a note row holding its entity, with callbacks `DeleteNote(id)` and `Edit(id)`; an `Editing` item becomes `EditItem(EditItemId(id), editor)` |
| Notes.Project | app/src/main/java/hu/nemi/costate/notes/impl/NotesImpl.kt:23-51 | one row per item not marked deleting, in order; every note row shows a `Display` item that is not deleting; one trailing create or editor row unless the create state is `None` |
| Notes.InitialScreenIsCreateRow | app/src/main/java/hu/nemi/costate/notes/impl/NotesImpl.kt:16 | the store's initial state shows only the "create" row |
| NotesEditor.InitialEditorState | app/src/main/java/hu/nemi/costate/notes/impl/editor/EditorServiceImpl.kt:99 | an editor starts with its initial text and `reset = true` |
| NotesEditor.EditorReduce | app/src/main/java/hu/nemi/costate/notes/impl/editor/EditorServiceImpl.kt:112-117 | `SetText` sets the text and clears `reset`; `Reset` empties the text and sets `reset`; `Submit` and `Close` are the identity |
| NotesEditor.EditorRunKeepsLastWrite | app/src/main/java/hu/nemi/costate/notes/impl/editor/EditorServiceImpl.kt:112-117 | after any run of messages the state is fixed by the last `SetText` or `Reset`, or untouched without one |
| NotesEditor.LastWrite | app/src/main/java/hu/nemi/costate/notes/impl/editor/EditorServiceImpl.kt:112-117 | the last message that changes the editor's state, if any |
| NotesEditor.HandlerScript | app/src/main/java/hu/nemi/costate/notes/impl/editor/EditorServiceImpl.kt:58-95 | on `Submit` and `Close` a handler forwards first; on `SetText` and `Reset` it does nothing |
| NotesEditor.SubmitResetsAndSends | app/src/main/java/hu/nemi/costate/notes/impl/editor/EditorServiceImpl.kt:58-95 | `Submit` emits `Reset`, then sends `Update(entity with the text)`, or `Create(text)` for a new note |
| NotesEditor.CloseCancelsAndCloses | app/src/main/java/hu/nemi/costate/notes/impl/editor/EditorServiceImpl.kt:58-95 | `Close` sends `CancelEdit(entity)`, or `OnCreateFinished`, then closes the editor's dispatcher |
| NotesEditor.TextMessagesStopAtHandler | app/src/main/java/hu/nemi/costate/notes/impl/editor/EditorServiceImpl.kt:58-95 | `SetText` and `Reset` are neither forwarded nor answered |
| NotesEditor.EditorFor | app/src/main/java/hu/nemi/costate/notes/impl/editor/EditorServiceImpl.kt:47-55 | an edit's editor holds an update handler for the entity and starts from its text |
| NotesEditor.ServiceScript | app/src/main/java/hu/nemi/costate/notes/impl/editor/EditorServiceImpl.kt:20-45 | always forwards first; `Edit` of an existing, shown, non-deleting item forwards again and emits `OnEditingStarted`; `OnCreate` emits `OnCreateStarted`; nothing else is emitted |
| NotesEditor.ServiceAtEndOfChain | app/src/main/java/hu/nemi/costate/notes/impl/editor/EditorServiceImpl.kt:20-55 | as the chain's last middleware, the service emits `OnEditingStarted` exactly for an editable item and `OnCreateStarted` for `OnCreate` |
| NotesEditor.SecondNextRunsNothingTwice | app/src/main/java/hu/nemi/costate/notes/impl/editor/EditorServiceImpl.kt:20-45 | the second `next` on `Edit` reaches no middleware, because the first already used up the shared iterator |
| NotesModel.LoadNotesReducer | app/src/main/java/hu/nemi/costate/notes/model/State.kt:79-81 | `LoadNotes` sets `isLoading`; any other action leaves the state unchanged |
| NotesModel.NotesLoadedReducer | app/src/main/java/hu/nemi/costate/notes/model/State.kt:83-85 | `NotesLoaded` clears `isLoading` and sets the entities and `lastFetched`; anything else leaves the state unchanged |
| NotesModel.FailedToLoadNotesReducer | app/src/main/java/hu/nemi/costate/notes/model/State.kt:87-89 | `FailedToLoadNotes` clears `isLoading` and sets the error, keeping every other field; anything else leaves the state unchanged |
| NotesModel.EditNoteReducer | app/src/main/java/hu/nemi/costate/notes/model/State.kt:91-100 | with no editor, opens one on the first note with the id, holding its text, and throws `NoSuchElementException` exactly when there is none; with an editor, nothing changes |
| NotesModel.CancelEditReducer | app/src/main/java/hu/nemi/costate/notes/model/State.kt:102-104 | `CancelEdit` closes the editor |
| NotesModel.UpdateEditorTextReducer | app/src/main/java/hu/nemi/costate/notes/model/State.kt:106-108 | sets the editor's text, a null editor staying null; no other field changes |
| NotesModel.SaveEditReducer | app/src/main/java/hu/nemi/costate/notes/model/State.kt:110-112 | marks the editor saving, a null editor staying null; no other field changes |
| NotesModel.OnSaveSuccessfulReducer | app/src/main/java/hu/nemi/costate/notes/model/State.kt:114-122 | closes the editor and replaces every entity with the saved id, keeping the length; no other field changes |
| NotesModel.OnSaveFailedReducer | app/src/main/java/hu/nemi/costate/notes/model/State.kt:124-126 | stops saving and records the error in the editor, a null editor staying null; no other field changes |
| NotesModel.NewNoteReducer | app/src/main/java/hu/nemi/costate/notes/model/State.kt:128-134 | with no editor, opens an empty one on no note; otherwise nothing changes |
| NotesModel.OnNoteAddedReducer | app/src/main/java/hu/nemi/costate/notes/model/State.kt:136-138 | appends the entity and closes the editor; no other field changes |
| NotesModel.DeleteNoteReducer | app/src/main/java/hu/nemi/costate/notes/model/State.kt:140-142 | exactly the entities with another id remain, each as often as before and in order (`Filter`); no other field changes |
| NotesModel.Reducers | app/src/main/java/hu/nemi/costate/notes/model/State.kt:144-155 | `notesReducer` lists twelve reducers |
| NotesModel.Handler | app/src/main/java/hu/nemi/costate/notes/model/State.kt:54-70 | each of the twelve action variants names one reducer |
| NotesModel.RunAll | app/src/main/java/hu/nemi/costate/notes/model/State.kt:144-155 | the reducers folded over the state in order, an exception ending the fold (definition; stated by `RunAllSingleActive`, `RunAllIdle`) |
| NotesModel.NotesReducer | app/src/main/java/hu/nemi/costate/notes/model/State.kt:144-155 | `notesReducer` (definition; stated by `NotesReducerIsHandler`, `NotesReducerFailsOnlyOnMissingEdit`) |
| NotesModel.OnlyHandlerActs | app/src/main/java/hu/nemi/costate/notes/model/State.kt:72-77 | every reducer except the action's own returns the state unchanged |
| NotesModel.RunAllSingleActive | app/src/main/java/hu/nemi/costate/notes/model/State.kt:144-155 | folding reducers of which only one acts is running that one |
| NotesModel.RunAllIdle | app/src/main/java/hu/nemi/costate/notes/model/State.kt:144-155 | folding reducers that all keep the state keeps it |
| NotesModel.NotesReducerIsHandler | app/src/main/java/hu/nemi/costate/notes/model/State.kt:144-155 | `notesReducer` does exactly what the action's own reducer does |
| NotesModel.NotesReducerFailsOnlyOnMissingEdit | app/src/main/java/hu/nemi/costate/notes/model/State.kt:91-155 | `notesReducer` throws exactly on `EditNote` of a missing note while no editor is open |
| NotesView.SameActionIsConsistent | app/src/main/java/hu/nemi/costate/notes/model/NotesImpl.kt:75-95 | callback equality is an equivalence; it holds exactly for the same class over equal entities, and equal callbacks hash alike |
| NotesView.EditorRow | app/src/main/java/hu/nemi/costate/notes/model/NotesImpl.kt:34-46 | an editor row carries the editor's text, saving flag and error, and the given id |
| NotesView.ToViewState | app/src/main/java/hu/nemi/costate/notes/model/NotesImpl.kt:25-71 | one row per entity in order: the edited note as an editor row, the others as note rows; an `AddItem` last exactly when there is no editor; a trailing editor row with no id exactly for an editor on no note; length `\|entities\|` plus one in those two cases |
| NotesView.NoteRowCallbacksAreEqual | app/src/main/java/hu/nemi/costate/notes/model/NotesImpl.kt:27-32 | a note row's `delete` and `onClicked` compare equal, though they do different things |
| NotesView.AtMostOneEditorRow | app/src/main/java/hu/nemi/costate/notes/model/NotesImpl.kt:26-68 | with unique note ids, the view shows at most one editor row |
| NotesView.InitialViewIsAddItem | app/src/main/java/hu/nemi/costate/notes/model/State.kt:157 | `INITIAL_STATE` is shown as the "add" row alone |
| Operations.Apply | app/src/main/java/hu/nemi/costate/model/NotesImpl.kt:123-138 | `Add` appends its note; `Delete` keeps exactly the notes with another id, each as often as before and in order (`Filter`); `Update` replaces the notes with its id and keeps the length |
| Operations.WithoutId | app/src/main/java/hu/nemi/costate/model/NotesImpl.kt:79 | exactly the operations with another id remain, each as often as before and in their original order (equal to `Filter`) |
| Operations.OnExecute | app/src/main/java/hu/nemi/costate/model/NotesImpl.kt:78-79 | applies the first pending operation with the id and drops all with that id; throws `NoSuchElementException` exactly when none is pending |
| Operations.OnReplace | app/src/main/java/hu/nemi/costate/model/NotesImpl.kt:81-82 | replaces the operations with a matching id, keeping length and order |
| Operations.OnRemove | app/src/main/java/hu/nemi/costate/model/NotesImpl.kt:84-85 | (corrected) exactly the operations with another id remain, each as often as before and in order (`Filter`); the notes are kept |
| Operations.OnRemoveAsWritten | app/src/main/java/hu/nemi/costate/model/NotesImpl.kt:84-85 | as written: the notes are kept and exactly the operations WITH the removed id remain, each as often as before and in their original order (equal to `Filter`) |
| Operations.OnAdd | app/src/main/java/hu/nemi/costate/model/NotesImpl.kt:87-88 | the operation becomes the last pending one |
| Operations.OnActionsAppend | app/src/main/java/hu/nemi/costate/model/NotesImpl.kt:65-74 | a batch is applied left to right: two batches in a row are their concatenation |
| Operations.Reduce | app/src/main/java/hu/nemi/costate/model/NotesImpl.kt:67-72 | one message of `onActions`' `when` (definition; `Remove` as corrected) |
| Operations.OnActions | app/src/main/java/hu/nemi/costate/model/NotesImpl.kt:65-74 | `onActions`: the batch folded left to right (definition; stated by `OnActionsAppend`) |
| Operations.OnNotesChanged | app/src/main/java/hu/nemi/costate/model/NotesImpl.kt:94-95 | the repository's notes are taken only when nothing is pending; otherwise nothing changes |
| Operations.ApplyAllAppend | app/src/main/java/hu/nemi/costate/model/NotesImpl.kt:90-91 | the published fold applies operations first to last |
| Operations.ApplyAll | app/src/main/java/hu/nemi/costate/model/NotesImpl.kt:91 | the operations folded over the notes (definition; stated by `ApplyAllAppend`) |
| Operations.Published | app/src/main/java/hu/nemi/costate/model/NotesImpl.kt:90-91 | what `publishState` sends (definition; stated by `AddIsPublishedLast`, `ExecuteOldestKeepsPublished`, `FailedOperationIsUndone`) |
| Operations.InitialStatePublishesRepositoryNotes | app/src/main/java/hu/nemi/costate/model/NotesImpl.kt:94-95 | from the empty initial state the repository's notes are taken and published as they are |
| Operations.AddIsPublishedLast | app/src/main/java/hu/nemi/costate/model/NotesImpl.kt:87-91 | a newly added operation is applied on top of what was published |
| Operations.ExecuteOldestKeepsPublished | app/src/main/java/hu/nemi/costate/model/NotesImpl.kt:78-91 | executing the oldest pending operation (unique ids) leaves the published list unchanged |
| Operations.RemoveUndoesAdd | app/src/main/java/hu/nemi/costate/model/NotesImpl.kt:84-88 | removing an operation just added restores the state |
| Operations.FailedOperationIsUndone | app/src/main/java/hu/nemi/costate/model/NotesImpl.kt:84-91 | a failed operation's `Add` then `Remove` leaves the published list as it was |
| Operations.RemoveAsWrittenKeepsTheRemoved | app/src/main/java/hu/nemi/costate/model/NotesImpl.kt:84-85 | as written, `Remove(1)` on operations 1 and 2 keeps operation 1 and drops operation 2 |
| Operations.FailedCreateStaysPublishedAsWritten | app/src/main/java/hu/nemi/costate/model/NotesImpl.kt:84-91 | as written, a failed create keeps its never-stored note published |

## Left out

- Coroutines, actors, channels and Rx schedulers: `store-coroutines`, `store-rxjava2`, `arch/Store.kt`, and the actor loops and `launch` blocks in `model/NotesImpl.kt:12-63`. Their point is concurrency.
- `StateStore`, `subState`, `withReducer` and the `fold` that `notes/model/State.kt` imports are not part of this model. `NotesModel.NotesReducer` is the left fold of the twelve reducers, and an exception ends it.
- `DispatcherRef` (`Store.kt:102-110`) holds the dispatcher through a weak reference; the model's dispatcher is the plain effect log.
- Atomicity and `@Volatile`: the lock, the subscription flag and the transaction flag are plain fields. The thread id is a parameter.
- `Throwable` values are opaque `Error` tokens. An exception is a `Failure`.
- Listener and callback identity: Kotlin compares lambdas by reference, so listeners are ids and callbacks are named by what they do.
  - The middleware and editors do not hold dispatchers.
  - `Notes.Editor` is compared by what it is built from, whereas `EditorImpl` has reference equality.
  - `EditItemId` is compared by note id, though the class is not a data class.
- The editor's own store and dispatcher plumbing (`EditorImpl`, `EditorServiceImpl.kt:97-110`) are left out. Only its reducer and the handler middleware are modelled.
- `NotesPersistence.kt` (DAO I/O and UUIDs) is not part of this model. `Notes.SaveRoundTrip` supplies the messages it sends for a save.
- `StateNodes`: all values in one tree share the type `V`. Kotlin casts `Any` values, and those casts are assumed to succeed.
- `Stores.StoreImpl.Dispatch`, `Stores.StoreImpl.OnStateChanged`: a listener that calls back into the store does one call, not an arbitrary program. Its outcome is what that call returns, which is always `ConcurrentModificationException`.
- `Observables.Subscription.Unsubscribe`: the callback is not modelled as re-entering the subscription.
- `Stores.Chain.Dispatch`: a middleware that throws is not modelled. The scripts end normally.
- The in-place `it[index] = …` writes in `notes/impl/NotesImpl.kt` are applied to a fresh copy. They are modelled as sequence updates, which is the same value. They stay functions because `reduce` is passed to the store as a value.
- `Lock.kt`: `Thread.currentThread().id` is a `Long`. Thread ids are `nat` and counts are unbounded, so no wrap-around is modelled.

## Findings

| source | as written | input that shows it | evidently intended | confidence | as-written member | corrected member |
|---|---|---|---|---|---|---|
| app/src/main/java/hu/nemi/costate/notes/impl/NotesImpl.kt:61 | `is Message.Update -> onUpdated(...)`, and `OnUpdated` falls to `else -> state` | A note being edited is saved: the editor sends `Update(e)`; persistence sends `OnUpdating(e)` and `OnUpdated(e)`. The item ends as `Display(e, UPDATING)` and the flag is never cleared. | `OnUpdated` clears UPDATING (`onUpdated`); `Update` changes no state | not executed | Notes.UpdatingFlagStaysSetAsWritten | Notes.SaveRoundTripClearsUpdating |
| app/src/main/java/hu/nemi/costate/model/NotesImpl.kt:84-85 | `onRemove` keeps the operations with `it.id == message.operationId` | Operations 1 and 2 pending; `Remove(1)` leaves only operation 1 | keep the operations whose id differs (`!=`), as `onExecute` does | not executed | Operations.RemoveAsWrittenKeepsTheRemoved | Operations.FailedOperationIsUndone |
