/** The TodoMVC footer: the count of items left, the mode links and the
    clear-completed button. Two versions exist: one changes the mode through
    the data model's `updateTodoList` and also reports it through the
    `onViewModeChange` output; the other spreads the new mode into the state
    and reports nothing. */
module TodoMvcFooter {
  import opened Optional
  import opened Seqs
  import opened ListModes
  import opened Oxymora
  import opened TodoData
  import opened TodoMvcList

  /** The number shown as "N items left". */
  function ItemsLeft(items: seq<Todo>): (n: nat)
    ensures n == |GetActiveTodoItems(Active, items)|
    ensures n + |GetActiveTodoItems(Completed, items)| == |items|
  {
    SelectByModePartition(IsCompletedItem, items);
    RemainingCount(IsCompletedItem, items)
  }

  /** The footer's "N item(s) left": the word is "item" exactly when one
      position holds an uncompleted item. */
  lemma ItemsLeftLabel(items: seq<Todo>)
    ensures ItemsLabel(ItemsLeft(items)) == "item" <==> |set i: nat | i < |items| && !items[i].completed| == 1
  {
    FilterLengthCountsIndices(IsActiveBy(IsCompletedItem), items);
    var n := ItemsLeft(items);
    assert n == |IndicesWhere(IsActiveBy(IsCompletedItem), items)|;
    assert IndicesWhere(IsActiveBy(IsCompletedItem), items) == set i: nat | i < |items| && !items[i].completed;
  }

  /** A mode link of the reporting footer: the state with only the mode
      replaced, and the same mode under `onViewModeChange`. */
  function ChangeViewMode(mode: ListMode, ctx: TodoContext): (r: TodoResult)
    ensures r.state == Some(ctx.state.(listMode := mode))
    ensures r.outputs == [(OnViewModeChange, mode)]
  {
    HandlerResult(Some(UpdateTodoList(ctx.state, NoTodosUpdate.(listMode := Some(mode)))), [(OnViewModeChange, mode)])
  }

  /** Its dispatch: the owner gets the new state first, then the
      `onViewModeChange` callback, if supplied, gets the mode. */
  lemma ChangeViewModeDispatch(mode: ListMode, ctx: TodoContext)
    ensures Forwarded(ctx, ChangeViewMode(mode, ctx), ObjectTruthy) ==
      [StateChange(ctx.onStateChange, ctx.state.(listMode := mode))] +
      (if OnViewModeChange in ctx.callbacks then [Output(OnViewModeChange, ctx.callbacks[OnViewModeChange], mode)] else [])
  {
    assert ChangeViewMode(mode, ctx).outputs[..0] == [];
  }

  /** A mode link of the silent footer: `{...state, listMode}`. */
  function ChangeListMode(s: Todos, mode: ListMode): (r: Todos)
    ensures r.listMode == mode
    ensures r.toggleAllChecked == s.toggleAllChecked && r.newTodo == s.newTodo && r.todoItems == s.todoItems
  {
    s.(listMode := mode)
  }

  /** Both footers move the list to the same state; only the reporting one
      produces an output, and the silent one produces none. */
  lemma ModeChangesAgree(mode: ListMode, ctx: TodoContext)
    ensures ChangeViewMode(mode, ctx).state == Some(ChangeListMode(ctx.state, mode))
    ensures Forwarded(ctx, StateOnly<Todos, TodoOutput, ListMode>(ChangeListMode(ctx.state, mode)), ObjectTruthy) ==
      [StateChange(ctx.onStateChange, ChangeListMode(ctx.state, mode))]
  {
  }

  /** Clear completed: `{...state, todoItems: <the uncompleted items>}`. */
  function ClearCompleted(s: Todos): (r: Todos)
    ensures r.listMode == s.listMode && r.toggleAllChecked == s.toggleAllChecked && r.newTodo == s.newTodo
    ensures forall i :: 0 <= i < |r.todoItems| ==> !r.todoItems[i].completed && r.todoItems[i] in s.todoItems
    ensures forall i :: 0 <= i < |s.todoItems| && !s.todoItems[i].completed ==> s.todoItems[i] in r.todoItems
  {
    s.(todoItems := GetActiveTodoItems(Active, s.todoItems))
  }

  /** The reporting footer writes clear-completed through `updateTodoList`;
      the result is the same. */
  lemma ClearCompletedThroughUpdateTodoList(s: Todos)
    ensures UpdateTodoList(s, NoTodosUpdate.(todoItems := Some(GetActiveTodoItems(Active, s.todoItems)))) == ClearCompleted(s)
  {
  }

  /** Clear completed keeps exactly the uncompleted items, in their order and
      with their multiplicities, leaves the count of items left as it was, and
      a second clear changes nothing. */
  lemma ClearCompletedKeepsActive(s: Todos, t: Todo)
    ensures IsSubsequence(ClearCompleted(s).todoItems, s.todoItems)
    ensures multiset(ClearCompleted(s).todoItems)[t] == if !t.completed then multiset(s.todoItems)[t] else 0
    ensures ItemsLeft(ClearCompleted(s).todoItems) == ItemsLeft(s.todoItems)
    ensures GetActiveTodoItems(Completed, ClearCompleted(s).todoItems) == []
    ensures ClearCompleted(ClearCompleted(s)) == ClearCompleted(s)
  {
    SelectByModeExact(Active, IsCompletedItem, s.todoItems, t);
    SelectByModeIdempotent(Active, IsCompletedItem, s.todoItems);
    var kept := ClearCompleted(s).todoItems;
    SelectByModePartition(IsCompletedItem, kept);
  }

  /** The footer's events: a mode link carries the mode read from its data
      attribute. */
  datatype FooterEvent = ModeClicked(mode: ListMode) | ClearCompletedClicked

  /** The reporting footer's handlers as bound to its controls. */
  function HandleReportingFooterEvent(event: FooterEvent, ctx: TodoContext): (r: TodoResult)
    ensures r.state.Some?
    ensures event.ClearCompletedClicked? ==> r.outputs == [] && r.state.value == ClearCompleted(ctx.state)
    ensures event.ModeClicked? ==> r.outputs == [(OnViewModeChange, event.mode)] && r.state.value == ChangeListMode(ctx.state, event.mode)
  {
    match event
    case ModeClicked(mode) => ChangeViewMode(mode, ctx)
    case ClearCompletedClicked =>
      StateOnly(UpdateTodoList(ctx.state, NoTodosUpdate.(todoItems := Some(GetActiveTodoItems(Active, ctx.state.todoItems)))))
  }

  /** The silent footer's handlers: each returns only the next state. */
  function HandleSilentFooterEvent(event: FooterEvent, ctx: TodoContext): (r: TodoResult)
    ensures r.outputs == [] && r.state.Some?
    ensures event.ClearCompletedClicked? ==> r.state.value == ClearCompleted(ctx.state)
    ensures event.ModeClicked? ==> r.state.value == ChangeListMode(ctx.state, event.mode)
  {
    match event
    case ModeClicked(mode) => StateOnly(ChangeListMode(ctx.state, mode))
    case ClearCompletedClicked => StateOnly(ClearCompleted(ctx.state))
  }

  /** The two footers reach the same next state for every event. */
  lemma FootersReachSameState(event: FooterEvent, ctx: TodoContext)
    ensures HandleReportingFooterEvent(event, ctx).state == HandleSilentFooterEvent(event, ctx).state
  {
  }
}
