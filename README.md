# snabbful state containers and module detection, in Dafny

This project models the core of snabbful, a small layer over the snabbdom
virtual DOM. The core has three parts.

- **The keyed state container** (`src/component/state.ts`). `createState(init)`
  returns a handle. Each key of `init` is a property of the handle whose setter
  stores the value and then runs the watchers. `watch(fn)` registers `fn` for
  every field, under the empty key. `watch(name, fn)` registers `fn` for one
  field. `commit(fn)` sets a boolean lock, runs `fn`, clears the lock and runs
  the watchers of the empty key. A module-wide registry maps each handle to its
  `[watch, commit]` pair. `useState` looks a handle up and throws
  `State is not initialized` for an object it does not know.
- **The single-watcher container** (`src/component.ts`). It is the same record
  and the same lock, but with one watcher slot that `watch` overwrites. The
  watcher receives the handle itself.
- **`detectModules`** (`src/helpers.ts`). It lists the snabbdom modules that a
  vnode tree needs. A node's own modules come first, in the fixed order attrs,
  class, on, props, dataset, style. Then, for each element child, the modules
  found below it that are not yet listed.

Each container is given twice:

- A value `Store` with specification functions (`WriteOf`, `Notify`,
  `CommitOf`, `Mutate`, ...) and lemmas about them.
- A `class` whose fields are that state. Each method is proved to move the
  fields exactly as the matching function moves the value.

Callbacks are modelled as follows:

- A callback is known only by an identity (`CallbackId`).
- A ghost `log` records every invocation, together with the intercepted
  record the callback could read at that moment. The handle's plain
  properties are not recorded.
- The function a commit runs is a sequence of `Step`s. A step is one of:
  - an assignment through the handle;
  - a nested `commit` of the same container;
  - `Raise`, an exception thrown by the mutator's own code.

`detectModules` is written as a recursive specification function, `Detect`, and
as the method `DetectModules`. The method's loops are proved against `Detect`.
`Detect` is related to an independent reference definition, `Carries`.

Undefined callbacks in the keyed container:

- `watch(name)` without a callback stores `undefined`.
- When a dispatch reaches that entry, calling it throws a TypeError. The
  exception leaves the forEach, the setter and any enclosing commit.
- The model records this as `thrown` and stops there.

Exceptions and the lock, in both containers:

- `commit` clears the lock only after its mutator returns; nothing catches an
  exception. So when the mutator throws (`Raise`), the lock stays set, and
  every later write is silent until another commit clears it.
- A dispatch's TypeError runs with the lock clear, so it leaves the lock
  clear.

## Model

| member | source | states |
|---|---|---|
| KeyedState.CreatedReadsInit | src/component/state.ts:11-27 | after createState every key of init reads its initial value, other keys read undefined, there are no watchers and the lock is clear |
| KeyedState.WatchRegisters | src/component/state.ts:29-31 | watch(fn) adds fn for every field (empty key); watch(name, fn) adds it for that field only; the new registration is reached after all earlier ones, duplicates included; record and log unchanged |
| KeyedState.MatchingSelects | src/component/state.ts:35-39 | the reference list of reached watchers holds exactly the watchers whose key is k or empty |
| KeyedState.MatchingAppend | src/component/state.ts:29-31 | a registration is appended, so it is reached last among the watchers selected for a key |
| KeyedState.RunFollowsMatching | src/component/state.ts:33-41 | one dispatch calls the selected watchers in registration order, each once, each seeing the current record; it throws exactly when some selected watcher has no callback, at the first such one |
| KeyedState.RunIsPrefix | src/component/state.ts:35-39 | the calls of a dispatch are the selected watchers' callbacks up to the first undefined one |
| KeyedState.RunThrowsIffIncomplete | src/component/state.ts:35-39 | a dispatch throws if and only if a selected watcher has no callback |
| KeyedState.CompleteUncons | src/component/state.ts:35-39 | "every selected watcher has a callback" splits into the first watcher and the rest |
| KeyedState.WriteThenRead | src/component/state.ts:19-26 | an assignment is seen by the next read, other keys keep their values, the field set and the watchers are unchanged, and fields and plain properties stay apart |
| KeyedState.WriteNotifiesMatching | src/component/state.ts:21-24 | outside a commit, writing a field appends one call per watcher of that field or of the empty key, in order, each seeing the record with the new value |
| KeyedState.OtherKeysNeverFire | src/component/state.ts:33-41 | a callback registered only under other field names is never called by a write to k |
| KeyedState.LockedWriteIsSilent | src/component/state.ts:34 | while locked, a write updates the record and calls nothing |
| KeyedState.LockedMutatorIsSilent | src/component/state.ts:43-45 | under the lock, a mutator of plain assignments lands all its writes and calls nothing |
| KeyedState.CommitFiresWildcardOnce | src/component/state.ts:43-48 | a commit of plain assignments applies them all, clears the lock, then calls only the empty-key watchers, each once, seeing the final record |
| KeyedState.CommitUnlocks | src/component/state.ts:43-48 | a commit that returns normally, or whose mutator throws nothing of its own, ends with the lock clear; it keeps the field set and the watchers either way |
| KeyedState.MutateKeepsShape | src/component/state.ts:43-47 | a mutator, nested commits included, keeps the field set and watchers; when it throws nothing of its own, an exception can only come from a dispatch with the lock clear |
| KeyedState.CommitRaiseLeavesLocked | src/component/state.ts:43-46 | a mutator that throws after some assignments leaves them applied, calls nothing, and leaves the lock set, so a later write notifies no one |
| KeyedState.FlatThenRaise | src/component/state.ts:45 | under the lock, assignments followed by an exception land, call nothing, and the mutator throws |
| KeyedState.NestedCommitReleasesLock | src/component/state.ts:43-47 | for any store, inner mutator and field: a nested commit that returns clears the lock, so a write after it in the outer mutator calls its field's watchers at once, in order, each seeing the new record |
| KeyedState.Container.constructor | src/component/state.ts:11-27 | the fields start as createState sets them up |
| KeyedState.Container.Get | src/component/state.ts:25 | a property read returns the field, the plain property, or undefined |
| KeyedState.Container.Set | src/component/state.ts:21-24 | an assignment moves the state exactly as WriteOf does and reports whether a watcher threw |
| KeyedState.Container.Watch | src/component/state.ts:29-31 | watch appends the registration WatchOf describes |
| KeyedState.Container.RunWatcher | src/component/state.ts:33-41 | the forEach loop logs exactly the calls of one dispatch and stops at an undefined callback |
| KeyedState.Container.Commit | src/component/state.ts:43-48 | commit moves the state exactly as CommitOf does, leaving the lock set when its mutator throws |
| KeyedState.Container.RunMutator | src/component/state.ts:45 | the mutator's steps run in order and stop at the first exception, its own or a dispatch's |
| KeyedState.Registry.constructor | src/component/state.ts:9 | the registry starts empty |
| KeyedState.Registry.CreateState | src/component/state.ts:11-52 | a fresh container in its initial state is registered under its own handle; earlier entries are kept |
| KeyedState.Registry.UseState | src/component/state.ts:54-62 | a known handle yields its own pair; an unknown object yields the error State is not initialized |
| SingleState.CreatedReadsInit | src/component.ts:14-30 | after createState every key of init reads its initial value and the watcher slot is empty |
| SingleState.WriteThenRead | src/component.ts:22-29 | an assignment is seen by the next read, other keys keep their values, and the field set and the slot are unchanged |
| SingleState.WriteNotifiesOnce | src/component.ts:24-27 | outside a commit, writing a field calls the watcher once, with the updated record |
| SingleState.NoWatcherIsSilent | src/component.ts:36-40 | with an empty slot no mutator calls anything |
| SingleState.NoWatcherCommitIsSilent | src/component.ts:42-47 | with an empty slot a commit calls nothing |
| SingleState.OnlyCurrentWatcherFires | src/component.ts:36-40 | every call a mutator causes goes to the watcher currently in the slot |
| SingleState.WatchReplaces | src/component.ts:32-34 | after watch(g) and then watch(f), a write or a commit calls only f, never g |
| SingleState.LockedMutatorIsSilent | src/component.ts:43-44 | under the lock, plain assignments land and call nothing |
| SingleState.CommitFiresOnce | src/component.ts:42-47 | a commit of plain assignments applies them, clears the lock, and calls the watcher, if any, exactly once with the final record |
| SingleState.MutateKeepsKeys | src/component.ts:42-47 | a mutator, nested commits included, keeps the field set and the slot, keeps fields and plain properties apart, and throws only when it contains an exception of its own |
| SingleState.CommitKeepsKeys | src/component.ts:42-47 | a commit keeps the field set and the slot and keeps fields and plain properties apart; when its mutator throws nothing of its own it returns normally with the lock clear |
| SingleState.CommitRaiseLeavesLocked | src/component.ts:42-45 | a mutator that throws after some assignments leaves them applied, calls nothing, and leaves the lock set, so a later write calls no one |
| SingleState.FlatThenRaise | src/component.ts:44 | under the lock, assignments followed by an exception land, call nothing, and the mutator throws |
| SingleState.NestedCommitReleasesLock | src/component.ts:42-47 | for any store with a watcher: a nested commit clears the lock, so a write after it in the outer mutator calls the watcher at once with the new record |
| SingleState.NestedCommitTrace | src/component.ts:42-47 | one trace: a commit nesting an empty commit and then a write calls the watcher three times, for the inner commit, the write and the outer commit |
| SingleState.Container.constructor | src/component.ts:14-30 | the fields start as createState sets them up |
| SingleState.Container.Get | src/component.ts:28 | a property read returns the field, the plain property, or undefined |
| SingleState.Container.Set | src/component.ts:24-27 | an assignment moves the state exactly as WriteOf does |
| SingleState.Container.Watch | src/component.ts:32-34 | watch overwrites the slot |
| SingleState.Container.RunWatcher | src/component.ts:36-40 | the watcher is called once unless locked or absent |
| SingleState.Container.Commit | src/component.ts:42-47 | commit moves the state exactly as CommitOf does, leaving the lock set when its mutator throws |
| SingleState.Container.RunMutator | src/component.ts:44 | the mutator's steps run in order and stop at the first exception |
| Helpers.RankIsPosition | src/helpers.ts:42-64 | the rank of a module is its position in the order attrs, class, on, props, dataset, style |
| Helpers.OwnUpToInOrder | src/helpers.ts:42-64 | after the first k guarded pushes the list holds exactly the set modules of rank below k, in ascending rank |
| Helpers.OwnInOrder | src/helpers.ts:42-64 | a node's own modules are exactly those whose data field is set, in the fixed order |
| Helpers.MergeAppends | src/helpers.ts:74-78 | merging a child's result only appends, adds exactly the missing modules, and creates no duplicates |
| Helpers.FromChildrenAppends | src/helpers.ts:66-80 | the loop over the children keeps what is already listed as a prefix and creates no duplicates |
| Helpers.DetectStartsWithOwn | src/helpers.ts:39-83 | the result starts with the node's own modules in the fixed order and has no duplicates |
| Helpers.DetectIffCarries | src/helpers.ts:39-83 | a module is in the result if and only if the node or some element below it has the matching data field set |
| Helpers.FromChildrenIffCarries | src/helpers.ts:66-80 | after the children from index i, a module is listed if and only if it was listed already or one of those children carries it |
| Helpers.AtMostSix | src/helpers.ts:39-83 | a list of distinct modules has at most six entries |
| Helpers.DistinctCount | src/helpers.ts:39-83 | a list without duplicates has as many elements as its set |
| Helpers.DetectIsBounded | src/helpers.ts:39-83 | the result lists each module at most once, so at most six |
| Helpers.PlainNodeYieldsNothing | src/helpers.ts:39-83 | a node with no data fields and only text children yields the empty list |
| Helpers.NothingSetPushesNothing | src/helpers.ts:42-64 | with no data field set, no module is pushed |
| Helpers.TextChildrenAddNothing | src/helpers.ts:68-70 | a node whose children are all text gains nothing from them |
| Helpers.TextChildIsSkipped | src/helpers.ts:67-70 | inserting a text child at any position among a node's children leaves the result unchanged |
| Helpers.SkipsTextFrom | src/helpers.ts:67-70 | the loop over children with an inserted text child computes the same as without it, from any index up to the insertion |
| Helpers.SameSuffix | src/helpers.ts:66-80 | the loop from a given child on depends only on the children from there on |
| Helpers.DetectModules | src/helpers.ts:39-83 | the loops compute exactly Detect, so they inherit its order, its lack of duplicates and the "if and only if carried" property |

## Left out

- The DOM helpers in `src/helpers.ts` other than `detectModules`, and the
  snabbdom `init`/`patch` machinery. Rendering is I/O on a browser DOM.
- `initComponent` (`src/component.ts:52-68`), `src/component/init.ts`,
  `src/component/module.ts`, `src/stateful.ts`, `src/cash.ts` and
  `src/example.tsx`. These wire the containers to rendering and are not part of
  this model.
- Callbacks that themselves write to the handle, call `watch` or call
  `commit`. The model treats a callback's run as opaque and logs only that it
  was called and what it could read. `forEach` fixes the number of entries it
  visits when it starts, and `watch` only appends. So a watcher registered
  during a dispatch would be reached only by later dispatches, not by the
  running one.
- A mutator that calls `watch` or deletes a plain property of the handle. The
  mutator gets `watch` from `useState` (`src/component/state.ts:54-61`) or from
  `createState`'s result (`src/component.ts:49`). In the keyed container, a
  wildcard watcher it registers (`watch(fn)` or `watch('', fn)`) would be
  called by that commit's closing dispatch. One registered under a field name
  would be called only by later writes to that field made with the lock clear.
  In `src/component.ts` the new watcher replaces the slot, so the closing call
  goes to it and not to the replaced one. Mutator code that reads, or that only
  touches objects other than the handle, has no effect on the container.
- Exceptions thrown by a watcher's own code. Only the TypeError from an
  undefined callback is modelled. A watcher runs with the lock clear, so its
  exception would leave the lock as that TypeError does.
- The registry's weak references. A `WeakMap` lets entries vanish with their
  handle. The model keeps every entry, which no reachable handle can observe.
- Properties inherited through the prototype chain, non-string keys, and
  TypeScript's static typing of `keyof T`.
- `detectModules` treats a data field as present when its value is truthy. The
  model has a boolean per field, so which values count as truthy is left out.
- Nothing of re-entrant dispatch suppression, keep/lose policies,
  emit/on/once events or snapshots is modelled. The containers in
  `src/component/state.ts` and `src/component.ts` have only the boolean commit
  lock, and the model follows that code.
