# oxymora, stateify and the TodoMVC handlers in Dafny

This project models the state-binding protocol of **oxymora** and the
ownership adapter **stateify**, and proves what they promise. It also models
the handlers of the counter and of the TodoMVC list versions built on them.

- **Pure stateful component** (`pureStatefulComponent`). An `undefined` state
  resolves to a configured initial state. The component then provides a
  context value to its subtree: the caller's props with `state` replaced.
  React's context is an explicit `Scope` threaded down the tree, so "the
  nearest provider wins" is a lemma about that scope.
- **Bound handler** (`usePureStatefulCallback`). A handler maps an event and
  the ambient context value to a partial result. The dispatcher forwards a
  truthy `result.state` to `onStateChange`. Then, in key order, it calls each
  output callback the owner supplied. Calls are identities (`Listener`), and a
  dispatch returns the trace of calls it makes (`Dispatch`, proved against
  `DispatchCalls`).
- **Ownership adapter** (`makeStateful`). This is a class with one
  `Option<S>` cell, unset at mount. Its setter replaces the cell wholesale.
  The wrapped component gets the cell and the setter on top of the caller's
  other props.
- **Counter and TodoMVC**. These are the counter increment, the TodoMVC data
  model (merge, map-update by id, append, remove by id, filter by mode) and
  the handler bodies of every list, item and footer version.

The truthiness test on `result.state` is kept as written. A next state of
`0` or `""` is therefore not forwarded; `Counter.CounterReachingZeroKeepsState`
shows the effect. Truthiness is a parameter `truthy: S -> bool`. It is
`n != 0` for the counter and always true for the object states of the lists.

The repository holds several versions of the same code:

- The two `data-model.ts` files are the same operations under two naming
  schemes (`viewMode`/`updateTodoListItem` and `listMode`/`updateTodoItem`).
  Each directory's handlers import the other file's names. One module,
  `TodoData`, models both. Function rows cite one file and lemma rows the
  other.
- `TodoMvcTmp/TodoList.tsx` has the same handlers as `TodoMvc/TodoList.tsx`.
  `examples/todomvc/src/TodoMvc/TodoListItem.tsx` has the same handlers as
  `TodoMvc/TodoItem.tsx`. Each pair shares one set of members.
- The top-level `TodoListFooter.tsx` imports `TodoItems`, `TodoListStateSpec`
  and `ListMode` from `./TodoList`. In its own directory that is the two-field
  list, which has no `listMode` and exports no `ListMode`. The list states of
  `TodoMVC`, `TodoMvc` and `TodoMvcTmp` all have `listMode`. `TodoMvc` has a
  footer of its own. `TodoMVC/TodoList.tsx` and `TodoMvcTmp/TodoList.tsx` both
  render a `./TodoListFooter` with `todoItems` and `listMode`, and neither
  directory has one. Of these two, only the `TodoMVC` items are plain (`id`,
  `description`, `completed`), like the footer's own `TodoItems`; the
  `TodoMvcTmp` items also carry `renameInProgress`. Modelling this footer on
  the three-field state of `TodoMVC/TodoList.tsx` (`ModeTodoList`) is a
  choice made on that ground. The footer's handlers only spread the state, so
  on the four-field state they are `TodoMvcFooter.ChangeListMode` and
  `TodoMvcFooter.ClearCompleted`.

Modules:

- `Optional`, `Seqs`: helpers.
- `Oxymora`: the protocol.
- `Stateify`: the adapter.
- `Counter`: the counter.
- `ListModes`: the mode filter, the remaining count and the label.
- `TodoData`: the data model.
- `TodoMvcList`, `TodoMvcItem`, `TodoMvcFooter`: the four-field version.
- `PlainTodos`: items without rename state.
- `SimpleTodoList`: the two-field version.
- `ModeTodoList`: the three-field version.

## Model

| member | source | states |
|---|---|---|
| Oxymora.ResolveState | packages/oxymora/src/oxymora.tsx:45 | an undefined state resolves to the initial state; any supplied state is kept as is |
| Oxymora.Provide | packages/oxymora/src/oxymora.tsx:48 | the context value is the caller's props with only `state` replaced by the resolved state; `onStateChange`, inputs and callbacks are unchanged |
| Oxymora.Render | packages/oxymora/src/oxymora.tsx:47-50 | the inner component receives exactly the provided value, and the subtree's nearest context value is that same value |
| Oxymora.Ambient | packages/oxymora/src/oxymora.tsx:34-37 | `useContext` reads nothing provided (the default value) exactly outside every provider, and the nearest provider's value inside |
| Oxymora.AmbientState | packages/oxymora/src/oxymora.tsx:34-37 | outside every provider the context state is undefined, inside it is the nearest provider's state |
| Oxymora.AmbientOnStateChange | packages/oxymora/src/oxymora.tsx:34-37 | outside every provider `onStateChange` is the no-op, inside it is the nearest provider's |
| Oxymora.NearestProviderWins | packages/oxymora/src/oxymora.tsx:63 | below any path of components a handler reads the value of the innermost pure component on the path (checked against a search from the bottom), or the outer value when there is none |
| Oxymora.InnerShadowsOuter | packages/oxymora/src/oxymora.tsx:48 | with two nested pure components and any plain elements between, descendants of the inner one read the inner value |
| Oxymora.StateCalls | packages/oxymora/src/oxymora.tsx:67-69 | at most one state call; there is one exactly when `result.state` is present and truthy, and it hands that state to the context's `onStateChange` |
| Oxymora.OutputCall | packages/oxymora/src/oxymora.tsx:75-81 | one output entry makes at most one call; there is one exactly when the owner supplied a callback of that name, and it carries the entry's payload to that callback |
| Oxymora.Forwarded | packages/oxymora/src/oxymora.tsx:67-83 | one dispatch makes at most one call more than there are output entries; a state call can only come first and goes to the context's `onStateChange`; every output call goes to a callback the owner supplied |
| Oxymora.DispatchCalls | packages/oxymora/src/oxymora.tsx:63-84 | outside every provider nothing is called; inside, state calls go to the ambient `onStateChange` and output calls to the nearest provider's callbacks |
| Oxymora.OutputCalls | packages/oxymora/src/oxymora.tsx:71-83 | the key loop makes at most one call per entry, and only calls of callbacks the owner supplied |
| Oxymora.Dispatch | packages/oxymora/src/oxymora.tsx:63-84 | the bound handler runs the handler once on the event and the nearest context value, and makes exactly the state call then the output calls of that result, in key order; none outside every provider |
| Oxymora.StateForwardedFirstIffTruthy | packages/oxymora/src/oxymora.tsx:67-69 | `onStateChange` is called exactly once with `result.state` iff that state is present and truthy, and that call precedes every output call |
| Oxymora.OutputCalledOncePerEntry | packages/oxymora/src/oxymora.tsx:73-82 | with distinct keys, each entry causes exactly one call of its supplied callback with its payload, and none when the callback is missing |
| Oxymora.OutputKeyAbsent | packages/oxymora/src/oxymora.tsx:71-83 | a name no result key carries is never called |
| Oxymora.OutputCallsPerKey | packages/oxymora/src/oxymora.tsx:67-83 | over the whole dispatch, with distinct keys, the calls of an output name are exactly the calls its entry causes (one with the entry's payload when the owner supplied that callback, none otherwise), and none when no entry has that name; `state` never causes an output call |
| Oxymora.StateOnlyForwarding | packages/oxymora/src/oxymora.tsx:67-83 | a result with only a state makes one state call when truthy and no output call |
| Oxymora.ForwardingIgnoresCurrentState | packages/oxymora/src/oxymora.tsx:67-69 | what is forwarded does not depend on the current state, so an unchanged state is forwarded too |
| Stateify.Absorb | packages/stateify/src/stateify.tsx:25-31 | the cell after a trace is either the starting cell or the value of some state call addressed to this setter |
| Stateify.Stateful.constructor | packages/stateify/src/stateify.tsx:25 | the cell starts unset |
| Stateify.Stateful.WrappedProps | packages/stateify/src/stateify.tsx:31 | the wrapped component gets the cell as `state` and the setter as `onStateChange`, overriding the caller's, and every other prop unchanged |
| Stateify.Stateful.OnStateChange | packages/stateify/src/stateify.tsx:25 | after `setState(v)` the cell holds exactly `v` |
| Stateify.Stateful.Deliver | packages/stateify/src/stateify.tsx:25-31 | for a trace with no output call to this setter, which is private to the adapter, delivering it leaves the cell at the last state value sent to this setter, or unchanged if none was |
| Stateify.Stateful.Interact | packages/stateify/src/stateify.tsx:24-32 | one event end to end, with the private setter not among the caller's callbacks: the cell becomes the handler's next state when it is truthy, and is unchanged otherwise |
| Stateify.AbsorbForwarded | packages/stateify/src/stateify.tsx:31 | a dispatch delivered to the owner changes the cell only through its state call; output calls never touch it |
| Stateify.UnsetUntilFirstChange | packages/stateify/src/stateify.tsx:25 | the cell stays unset iff no call reaches its setter; the wrapped default is never stored |
| Stateify.OtherOwnersLeaveCell | packages/stateify/src/stateify.tsx:25 | calls addressed to other owners leave the cell unchanged |
| Counter.NumberTruthy | packages/oxymora/src/oxymora.tsx:67 | a number is falsy exactly when it is 0, which is JavaScript truthiness over integers |
| Counter.OnIncrementCounter | packages/oxymora-todomvc/src/Counter/Counter.tsx:30-36 | there is always a next state; it exceeds the current one by `incrementBy`, or by 1 when that is absent; the only output is `onCounterChange` with that same value |
| Counter.IncrementDispatch | packages/oxymora-todomvc/src/Counter/Counter.tsx:31-36 | a click forwards the new value as state unless it is 0, then to `onCounterChange` if supplied, even when it is 0 |
| Counter.IncrementFromOneByTwo | packages/oxymora-todomvc/src/Counter/Counter.tsx:30-36 | state 1 with `incrementBy` 2 calls `onStateChange(3)` then `onCounterChange(3)` |
| Counter.CounterReachingZeroKeepsState | packages/oxymora-todomvc/src/Counter/Counter.tsx:31-36 | reaching 0 notifies `onCounterChange(0)` but a stateful owner whose private setter is not that listener keeps its old state |
| Counter.StatefulCounterFirstClick | packages/oxymora-todomvc/src/Counter/Counter.tsx:24-31 | a freshly mounted stateful counter shows 1 and, with its private setter not among the output callbacks, holds 2 after one click |
| Counter.ClickStatefulCounter | packages/oxymora-todomvc/src/Counter/Counter.tsx:51-54 | a click on the stateful counter sets its cell to the resolved count plus the increment, unless that is 0; the adapter's setter is not among the caller's callbacks |
| ListModes.Shows | packages/oxymora-todomvc/src/TodoMvc/todo-list-utils.ts:3-4 | All shows every item, Active the uncompleted and Completed the completed ones |
| ListModes.SelectByMode | packages/oxymora-todomvc/src/TodoMvc/todo-list-utils.ts:6-14 | All returns the list itself; otherwise every kept item is shown by the mode and every shown item is kept |
| ListModes.SelectByModeExact | packages/oxymora-todomvc/src/TodoMvc/todo-list-utils.ts:10-14 | the selection is a subsequence of the list holding each shown item with its full multiplicity and no other item |
| ListModes.SelectByModePartition | packages/oxymora-todomvc/src/TodoMvc/todo-list-utils.ts:3-14 | the Active and Completed selections' lengths add up to the list's length |
| ListModes.SelectByModeIdempotent | packages/oxymora-todomvc/src/TodoMvc/todo-list-utils.ts:6-14 | selecting twice in one mode is selecting once |
| ListModes.RemainingCount | examples/todomvc/src/TodoMvc/TodoListFooter.tsx:22-24 | the count left is the length of the Active selection |
| ListModes.RemainingCountCountsActive | packages/oxymora-todomvc/src/TodoMvc/TodoListFooter.tsx:20-22 | the count left is the number of positions holding an uncompleted item |
| ListModes.ItemsLabel | examples/todomvc/src/TodoMvc/TodoListFooter.tsx:56 | the label is "item" iff the count is 1, otherwise "items"; the same code is at packages/oxymora-todomvc/src/TodoListFooter.tsx:57 and packages/oxymora-todomvc/src/TodoMvc/TodoListFooter.tsx:54 |
| TodoData.GetActiveTodoItems | packages/oxymora-todomvc/src/TodoMvc/data-model.ts:28-33 | All returns the items unchanged; otherwise exactly the items the mode shows |
| TodoData.ActiveCompletedPartition | examples/todomvc/src/TodoMvc/data-model.ts:25-33 | Active keeps exactly the uncompleted and Completed exactly the completed items, each in order with multiplicities, and their lengths sum to the total |
| TodoData.UpdateTodoList | packages/oxymora-todomvc/src/TodoMvc/data-model.ts:35-38 | each field present in the update comes from it, each absent one from the record |
| TodoData.UpdateTodoListIdentityAndIdempotence | examples/todomvc/src/TodoMvc/data-model.ts:35-38 | the empty update is the identity, and applying an update twice is applying it once |
| TodoData.UpdateTodoListComposes | examples/todomvc/src/TodoMvc/data-model.ts:35-38 | two merges in a row are one right-biased merge of the two updates |
| TodoData.ApplyTodoUpdate | packages/oxymora-todomvc/src/TodoMvc/data-model.ts:45 | an item update keeps the id and takes each present field |
| TodoData.UpdateTodoListItems | packages/oxymora-todomvc/src/TodoMvc/data-model.ts:40-46 | every item gets the update; length, order, ids and the top-level fields are kept; the same code is at examples/todomvc/src/TodoMvc/data-model.ts:40-43 |
| TodoData.UpdateAllCompletedSelects | examples/todomvc/src/TodoMvc/data-model.ts:40-43 | after setting `completed` on all items, the matching mode displays all of them |
| TodoData.AddTodoListItem | packages/oxymora-todomvc/src/TodoMvc/data-model.ts:48-51 | the item is appended at the end, the old items form the prefix, length grows by one, other fields are kept; the same code is at examples/todomvc/src/TodoMvc/data-model.ts:45-48 |
| TodoData.UpdateTodoListItem | packages/oxymora-todomvc/src/TodoMvc/data-model.ts:53-58 | only items with the id change, by the update; length, ids and top-level fields are kept |
| TodoData.UpdateAbsentIdIsIdentity | examples/todomvc/src/TodoMvc/data-model.ts:50-55 | an update for an id no item has changes nothing |
| TodoData.RemoveTodoListItem | packages/oxymora-todomvc/src/TodoMvc/data-model.ts:60-63 | no item with the id is left, every other item stays, top-level fields are kept |
| TodoData.RemoveTodoListItemKeepsOthers | examples/todomvc/src/TodoMvc/data-model.ts:57-60 | removal is an order-preserving subsequence keeping other items' multiplicities, and it is idempotent |
| TodoData.RemoveUndoesAdd | examples/todomvc/src/TodoMvc/data-model.ts:45-60 | adding an item with a fresh id and then removing that id restores the record |
| TodoData.RemoveAfterUpdateOfSameId | examples/todomvc/src/TodoMvc/data-model.ts:50-60 | removing an id makes an earlier update of that id irrelevant |
| TodoMvcList.DisplayedItems | packages/oxymora-todomvc/src/TodoMvc/TodoList.tsx:41-44 | the displayed items are the mode's selection of the state's items; the same code is at packages/oxymora-todomvc/src/TodoMvcTmp/TodoList.tsx:51-64 |
| TodoMvcList.UnsuppliedListStartsEmpty | packages/oxymora-todomvc/src/TodoMvc/TodoList.tsx:31-36 | without a supplied state the list is in mode All, toggle off, no text, nothing displayed; the same code is at packages/oxymora-todomvc/src/TodoMvcTmp/TodoList.tsx:44-49 |
| TodoMvcList.OnNewTodoItemChange | packages/oxymora-todomvc/src/TodoMvc/TodoList.tsx:46-54 | `newTodo` becomes the text, and nothing else changes; the same code is at packages/oxymora-todomvc/src/TodoMvcTmp/TodoList.tsx:66-74 |
| TodoMvcList.NewTodoTextLastWins | packages/oxymora-todomvc/src/TodoMvc/TodoList.tsx:46-54 | two text changes are the second alone |
| TodoMvcList.NewTodoItem | packages/oxymora-todomvc/src/TodoMvc/TodoList.tsx:68-73 | the new item holds the text, is uncompleted and not renaming, with id `text@stamp` |
| TodoMvcList.OnNewTodoItemKeyDown | packages/oxymora-todomvc/src/TodoMvc/TodoList.tsx:56-76 | a key other than Enter keeps the state; Enter clears the text and appends exactly the new item, with no empty-text guard; the same code is at packages/oxymora-todomvc/src/TodoMvcTmp/TodoList.tsx:76-96 |
| TodoMvcList.EnterIsUpdateThenAdd | packages/oxymora-todomvc/src/TodoMvc/TodoList.tsx:63-75 | Enter equals the data model's text-clearing merge followed by its append |
| TodoMvcList.EnterThenRemove | packages/oxymora-todomvc/src/TodoMvc/TodoList.tsx:63-75 | removing the fresh item again leaves the list as it was, with only the text cleared |
| TodoMvcList.NewItemDisplayed | packages/oxymora-todomvc/src/TodoMvc/TodoList.tsx:41-75 | the new item is displayed iff the mode is not Completed |
| TodoMvcList.OnToggleAllChange | packages/oxymora-todomvc/src/TodoMvc/TodoList.tsx:78-90 | the flag flips, and every item's `completed` becomes the new flag, keeping length, order and ids; the same code is at packages/oxymora-todomvc/src/TodoMvcTmp/TodoList.tsx:98-110 |
| TodoMvcList.ToggleAllIsUpdateOfAllItems | packages/oxymora-todomvc/src/TodoMvc/TodoList.tsx:78-90 | toggle-all is the data model's update of all items plus the flag |
| TodoMvcList.ToggleAllRemaining | packages/oxymora-todomvc/src/TodoMvc/TodoList.tsx:78-90 | afterwards nothing is left to do when the flag is on, and everything is when it is off |
| TodoMvcList.HandleListEvent | packages/oxymora-todomvc/src/TodoMvc/TodoList.tsx:46-90 | each list handler returns only a next state |
| TodoMvcList.ListEventsForwardOnlyState | packages/oxymora-todomvc/src/TodoMvc/TodoList.tsx:46-90 | each list event makes exactly one state call, even an unchanged one, and no output call |
| TodoMvcItem.OnTodoItemCompletedChange | packages/oxymora-todomvc/src/TodoMvc/TodoItem.tsx:36-41 | items with this id get `completed` set to the negated rendered prop; every other item and field is kept; the same code is at examples/todomvc/src/TodoMvc/TodoListItem.tsx:36-41 |
| TodoMvcItem.OnRemoveTodoItemClick | packages/oxymora-todomvc/src/TodoMvc/TodoItem.tsx:43-48 | no item with this id is left and every other item stays; the same code is at examples/todomvc/src/TodoMvc/TodoListItem.tsx:43-48 |
| TodoMvcItem.OnTodoItemDoubleClick | packages/oxymora-todomvc/src/TodoMvc/TodoItem.tsx:50-55 | only this item starts renaming |
| TodoMvcItem.OnRenamedTodoItemChange | packages/oxymora-todomvc/src/TodoMvc/TodoItem.tsx:57-62 | only this item's description becomes the text; the same code is at examples/todomvc/src/TodoMvc/TodoListItem.tsx:57-62 |
| TodoMvcItem.OnRenamedTodoItemBlur | packages/oxymora-todomvc/src/TodoMvc/TodoItem.tsx:64-69 | only this item stops renaming |
| TodoMvcItem.ToggleRenderedTwiceRestores | packages/oxymora-todomvc/src/TodoMvc/TodoItem.tsx:36-41 | for a unique id, a toggle flips the item, and a toggle after re-rendering restores the state |
| TodoMvcItem.StaleToggleRepeats | examples/todomvc/src/TodoMvc/TodoListItem.tsx:36-41 | two toggles with the same rendered props equal one toggle |
| TodoMvcItem.DoubleClickThenBlur | examples/todomvc/src/TodoMvc/TodoListItem.tsx:50-69 | double-click then blur equals blur alone: this item is not renaming, all else is kept |
| TodoMvcItem.RemoveFirstOfTwo | examples/todomvc/src/TodoMvc/TodoListItem.tsx:43-48 | removing `a` from `[a, b]` leaves `[b]` |
| TodoMvcItem.HandleItemEvent | packages/oxymora-todomvc/src/TodoMvc/TodoItem.tsx:36-69 | every item handler returns only a next state |
| TodoMvcItem.ItemEventsForwardOnlyState | examples/todomvc/src/TodoMvc/TodoListItem.tsx:36-69 | every item event makes one state call and no output call |
| TodoMvcFooter.ItemsLeft | examples/todomvc/src/TodoMvc/TodoListFooter.tsx:22-24 | the count left is the Active selection's length and, with the Completed one, adds up to all items; the same code is at packages/oxymora-todomvc/src/TodoMvc/TodoListFooter.tsx:20-22 |
| TodoMvcFooter.ItemsLeftLabel | packages/oxymora-todomvc/src/TodoMvc/TodoListFooter.tsx:20-54 | the footer says "item" exactly when one position holds an uncompleted item; the same code is at examples/todomvc/src/TodoMvc/TodoListFooter.tsx:22-56 |
| TodoMvcFooter.ChangeViewMode | examples/todomvc/src/TodoMvc/TodoListFooter.tsx:26-39 | the next state is the old one with only the mode replaced, and the result has `onViewModeChange` with that mode |
| TodoMvcFooter.ChangeViewModeDispatch | examples/todomvc/src/TodoMvc/TodoListFooter.tsx:29-38 | the owner gets the new state first, then `onViewModeChange` the mode, if supplied |
| TodoMvcFooter.ChangeListMode | packages/oxymora-todomvc/src/TodoMvc/TodoListFooter.tsx:24-36 | only `listMode` is replaced |
| TodoMvcFooter.ModeChangesAgree | packages/oxymora-todomvc/src/TodoMvc/TodoListFooter.tsx:24-36 | both footers reach the same state; this one makes only the state call |
| TodoMvcFooter.ClearCompleted | packages/oxymora-todomvc/src/TodoMvc/TodoListFooter.tsx:38-48 | exactly the uncompleted items stay, and the other fields are kept |
| TodoMvcFooter.ClearCompletedThroughUpdateTodoList | examples/todomvc/src/TodoMvc/TodoListFooter.tsx:41-50 | the `updateTodoList` form gives the same state |
| TodoMvcFooter.ClearCompletedKeepsActive | examples/todomvc/src/TodoMvc/TodoListFooter.tsx:41-50 | clearing keeps the uncompleted items in order with multiplicities, keeps the count left, leaves no completed item, and is idempotent |
| TodoMvcFooter.HandleReportingFooterEvent | examples/todomvc/src/TodoMvc/TodoListFooter.tsx:26-50 | a mode click yields the state with only `listMode` replaced and outputs the mode; clear-completed yields the cleared state and outputs nothing |
| TodoMvcFooter.HandleSilentFooterEvent | packages/oxymora-todomvc/src/TodoMvc/TodoListFooter.tsx:24-48 | both handlers return only a next state: a mode click the state with only `listMode` replaced, clear-completed the cleared state |
| TodoMvcFooter.FootersReachSameState | packages/oxymora-todomvc/src/TodoMvc/TodoListFooter.tsx:24-48 | for every event both footers produce the same next state |
| PlainTodos.NewPlainItem | packages/oxymora-todomvc/src/TodoMVC/TodoList.tsx:85-89 | the new item holds the text, is uncompleted, with id `text@stamp` |
| PlainTodos.ToggleById | packages/oxymora-todomvc/src/TodoItem.tsx:30-37 | items with the id get their stored `completed` negated; length, ids, descriptions and other items are kept |
| PlainTodos.ToggleByIdInvolution | packages/oxymora-todomvc/src/TodoMVC/TodoItem.tsx:29-36 | toggling twice restores the items |
| PlainTodos.RemoveById | packages/oxymora-todomvc/src/TodoItem.tsx:46 | no item with the id is left and every other item stays |
| PlainTodos.RemoveByIdKeepsOthers | packages/oxymora-todomvc/src/TodoMVC/TodoItem.tsx:39-47 | removal keeps the others in order with multiplicities, and is idempotent |
| PlainTodos.RemoveByIdUndoesAppend | packages/oxymora-todomvc/src/TodoList.tsx:70-80 | removing a freshly appended id restores the items |
| SimpleTodoList.UnsuppliedSimpleListStartsEmpty | packages/oxymora-todomvc/src/TodoList.tsx:43-46 | without a supplied state there is no text and nothing rendered |
| SimpleTodoList.ModeOrAll | packages/oxymora-todomvc/src/TodoList.tsx:51 | an absent `mode` input defaults to All |
| SimpleTodoList.RenderSimpleList | packages/oxymora-todomvc/src/TodoList.tsx:87-114 | every item is rendered, whatever the mode; the footer is rendered, with the mode, exactly when there is at least one item |
| SimpleTodoList.RenderedListIgnoresMode | packages/oxymora-todomvc/src/TodoList.tsx:87 | in mode Active a completed item is still rendered |
| SimpleTodoList.OnInputChange | packages/oxymora-todomvc/src/TodoList.tsx:53-61 | only `newTodo` changes |
| SimpleTodoList.OnInputKeyDown | packages/oxymora-todomvc/src/TodoList.tsx:63-81 | a non-Enter key keeps the state; Enter yields empty text and the old items plus the new one |
| SimpleTodoList.EnterThenRemoveSimple | packages/oxymora-todomvc/src/TodoList.tsx:70-80 | removing the fresh item again leaves only the text cleared |
| SimpleTodoList.OnCheckboxChange | packages/oxymora-todomvc/src/TodoItem.tsx:24-39 | the stored flag of the items with the id is negated, and the text is kept |
| SimpleTodoList.CheckboxTwiceRestores | packages/oxymora-todomvc/src/TodoItem.tsx:30-37 | two checkbox changes restore the state |
| SimpleTodoList.OnButtonClick | packages/oxymora-todomvc/src/TodoItem.tsx:40-48 | the items with the id go, and the text is kept |
| SimpleTodoList.HandleSimpleEvent | packages/oxymora-todomvc/src/TodoList.tsx:53-81 | each handler returns only a next state |
| SimpleTodoList.SimpleEventsForwardOnlyState | packages/oxymora-todomvc/src/TodoItem.tsx:24-48 | each event makes exactly one state call |
| ModeTodoList.UnsuppliedModeListStartsEmpty | packages/oxymora-todomvc/src/TodoMVC/TodoList.tsx:42-46 | without a supplied state there is no text, no items, and mode All |
| ModeTodoList.DisplayedModeItems | packages/oxymora-todomvc/src/TodoMVC/TodoList.tsx:54-61 | All displays every item; otherwise exactly the items the mode shows |
| ModeTodoList.DisplayedModeItemsExact | packages/oxymora-todomvc/src/TodoMVC/TodoList.tsx:48-61 | the display is an order-preserving selection with full multiplicities |
| ModeTodoList.OnModeInputChange | packages/oxymora-todomvc/src/TodoMVC/TodoList.tsx:63-71 | only `newTodo` changes |
| ModeTodoList.OnModeInputKeyDown | packages/oxymora-todomvc/src/TodoMVC/TodoList.tsx:73-92 | a non-Enter key keeps the state; Enter clears the text, appends the new item and keeps the mode |
| ModeTodoList.OnModeCheckboxChange | packages/oxymora-todomvc/src/TodoMVC/TodoItem.tsx:23-38 | the stored flag of the items with the id is negated; text and mode are kept |
| ModeTodoList.OnModeButtonClick | packages/oxymora-todomvc/src/TodoMVC/TodoItem.tsx:39-47 | the items with the id go; text and mode are kept |
| ModeTodoList.ModeItemHandlersAlgebra | packages/oxymora-todomvc/src/TodoMVC/TodoItem.tsx:23-47 | toggling is an involution and removing is idempotent |
| ModeTodoList.ModeItemsLeft | packages/oxymora-todomvc/src/TodoListFooter.tsx:23-25 | the count left is the Active selection's length, and with the Completed one it adds up to all items |
| ModeTodoList.ModeItemsLeftLabel | packages/oxymora-todomvc/src/TodoListFooter.tsx:23-57 | the footer says "item" exactly when one position holds an uncompleted item |
| ModeTodoList.ChangeModeListMode | packages/oxymora-todomvc/src/TodoListFooter.tsx:27-39 | only `listMode` is replaced |
| ModeTodoList.ClearModeCompleted | packages/oxymora-todomvc/src/TodoListFooter.tsx:41-51 | exactly the uncompleted items stay; text and mode are kept |
| ModeTodoList.ClearModeCompletedKeepsActive | packages/oxymora-todomvc/src/TodoListFooter.tsx:41-51 | clearing keeps the uncompleted items in order, keeps the count left, and is idempotent |
| ModeTodoList.HandleModeEvent | packages/oxymora-todomvc/src/TodoListFooter.tsx:27-51 | every handler, footer ones included, returns only a next state |
| ModeTodoList.ModeEventsForwardOnlyState | packages/oxymora-todomvc/src/TodoMVC/TodoList.tsx:63-92 | each event makes exactly one state call and no output call |

## Left out

- JSX rendering, emotion styles and `TodoListStyle.ts`: presentation only.
- React mechanics are left out: hook rules, re-render scheduling, and the internals of `createContext`, `useContext` and `useState`. The context is an explicit `Scope`, and the `useState` cell is a class field.
- Dispatch outside every provider makes no calls. In the source the handler would run on the default value with an undefined state. Nothing would reach an owner, because the default `onStateChange` is a no-op and there are no callbacks.
- OutputCalls: looks a result key up only among the owner's output callbacks. The source looks it up in the whole context value `{...props, state}` (oxymora.tsx:76), so a key naming an input prop or `onStateChange` would call that prop if it is a function. The result type (`OutputProps`) admits only output names, and the model keeps that separation.
- Props: `onStateChange` is mandatory, as the `Props` type makes it. A caller that omits it makes the call at oxymora.tsx:68 throw when the next state is truthy; that failure is not modelled.
- Output names are a per-component datatype, and a result's outputs are a sequence in key order. The reflection over `Object.keys` and the `key !== "state"` test are therefore structural.
- Keys set explicitly to `undefined` in a partial update or result are not modelled; an absent key is `None`.
- JavaScript numbers are unbounded integers: floating point, `NaN` and the other falsy non-numbers are not modelled. String truthiness does not arise, because every list state is an object.
- `Date.now()` is a parameter `stamp`: the decimal text of the clock reading.
- `event.target.value`, the key name and the `dataset` mode are parameters. The unchecked `as ListMode` cast is modelled as a `ListMode` argument.
- The mode enums' string values (`"all"`, `"ALL_ITEMS"`, ...) are not modelled. They only matter to the URL routing of the demos.
- DOM effects are left out: focusing the rename input (`useEffect`/`useRef`) and Enter blurring it.
- The demo and bootstrap files are I/O and layout, and are not part of this model: the routing demos, the counter demos, the sidebar, `main.tsx` and `vite.config.ts`.
- `todo-list-model.ts` holds types only. It gives the shapes of `Todo` and `Todos`.
- The compile-time types (`Props`, `OutputProps`, `Exact`, `StateifiedProps`'s `Omit`) are not modelled. The adapter's override of `state`/`onStateChange` is modelled in `WrappedProps`.
- The import mismatches between the handler files and the data models are not modelled; the evident semantics is modelled.
- The top-level `TodoList.tsx` passes `mode` to a footer that reads `listMode`. That footer is modelled on the three-field state it evidently targets, not on this wiring.
- `TodoMvcTmp`'s own item and footer files are not part of this model.
