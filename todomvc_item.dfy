/** One rendered TodoMVC item and its five handlers. Each handler is bound to
    the item's rendered props (its id, and for the checkbox its rendered
    `completed`), reads the list state from the context, and returns the next
    list state through the data model's update and remove operations. */
module TodoMvcItem {
  import opened Optional
  import opened ListModes
  import opened Oxymora
  import opened TodoData
  import opened TodoMvcList

  /** The item update that sets just `completed`. */
  function SetCompleted(id: string, completed: bool): UpdatedTodo
  {
    UpdatedTodo(id, NoTodoUpdate.(completed := Some(completed)))
  }

  function SetRenameInProgress(id: string, renaming: bool): UpdatedTodo
  {
    UpdatedTodo(id, NoTodoUpdate.(renameInProgress := Some(renaming)))
  }

  function SetDescription(id: string, description: string): UpdatedTodo
  {
    UpdatedTodo(id, NoTodoUpdate.(description := Some(description)))
  }

  /** `r` is `s` with every item whose id is `id` replaced by `change` of it;
      every other item and every top-level field is kept. */
  ghost predicate ChangesOnlyItem(s: Todos, r: Todos, id: string, change: Todo -> Todo)
  {
    && r.listMode == s.listMode && r.toggleAllChecked == s.toggleAllChecked && r.newTodo == s.newTodo
    && |r.todoItems| == |s.todoItems|
    && (forall i :: 0 <= i < |s.todoItems| && s.todoItems[i].id != id ==> r.todoItems[i] == s.todoItems[i])
    && (forall i :: 0 <= i < |s.todoItems| && s.todoItems[i].id == id ==> r.todoItems[i] == change(s.todoItems[i]))
  }

  /** The checkbox: the item with this id gets `completed` set to the negation
      of the RENDERED `completed`, not of the stored one. */
  function OnTodoItemCompletedChange(props: Todo, s: Todos): (r: Todos)
    ensures ChangesOnlyItem(s, r, props.id, (t: Todo) => t.(completed := !props.completed))
  {
    UpdateTodoListItem(s, SetCompleted(props.id, !props.completed))
  }

  /** The destroy button: every item with this id goes, the rest stay in order. */
  function OnRemoveTodoItemClick(props: Todo, s: Todos): (r: Todos)
    ensures r.listMode == s.listMode && r.toggleAllChecked == s.toggleAllChecked && r.newTodo == s.newTodo
    ensures forall i :: 0 <= i < |r.todoItems| ==> r.todoItems[i].id != props.id
    ensures forall i :: 0 <= i < |s.todoItems| && s.todoItems[i].id != props.id ==> s.todoItems[i] in r.todoItems
  {
    RemoveTodoListItem(s, props.id)
  }

  /** Double-clicking the label starts renaming this item only. */
  function OnTodoItemDoubleClick(props: Todo, s: Todos): (r: Todos)
    ensures ChangesOnlyItem(s, r, props.id, (t: Todo) => t.(renameInProgress := true))
  {
    UpdateTodoListItem(s, SetRenameInProgress(props.id, true))
  }

  /** Typing in the rename input sets this item's description to the text. */
  function OnRenamedTodoItemChange(props: Todo, s: Todos, text: string): (r: Todos)
    ensures ChangesOnlyItem(s, r, props.id, (t: Todo) => t.(description := text))
  {
    UpdateTodoListItem(s, SetDescription(props.id, text))
  }

  /** Leaving the rename input ends renaming of this item only. */
  function OnRenamedTodoItemBlur(props: Todo, s: Todos): (r: Todos)
    ensures ChangesOnlyItem(s, r, props.id, (t: Todo) => t.(renameInProgress := false))
  {
    UpdateTodoListItem(s, SetRenameInProgress(props.id, false))
  }

  /** A checkbox change whose props were rendered from the stored item flips
      that item; a second change after re-rendering flips it back. */
  lemma ToggleRenderedTwiceRestores(s: Todos, k: nat)
    requires k < |s.todoItems|
    requires forall i :: 0 <= i < |s.todoItems| && s.todoItems[i].id == s.todoItems[k].id ==> i == k
    ensures var once := OnTodoItemCompletedChange(s.todoItems[k], s);
      && once.todoItems[k].completed == !s.todoItems[k].completed
      && OnTodoItemCompletedChange(once.todoItems[k], once) == s
  {
    var once := OnTodoItemCompletedChange(s.todoItems[k], s);
    var twice := OnTodoItemCompletedChange(once.todoItems[k], once);
    assert twice.todoItems == s.todoItems;
  }

  /** Two checkbox changes delivered before the item re-renders carry the same
      rendered flag, so the second repeats the first and does not flip back. */
  lemma StaleToggleRepeats(props: Todo, s: Todos)
    ensures OnTodoItemCompletedChange(props, OnTodoItemCompletedChange(props, s)) == OnTodoItemCompletedChange(props, s)
  {
    var once := OnTodoItemCompletedChange(props, s);
    assert OnTodoItemCompletedChange(props, once).todoItems == once.todoItems;
  }

  /** Double-click followed by blur leaves the list as it was except that this
      item is no longer being renamed. */
  lemma DoubleClickThenBlur(props: Todo, s: Todos)
    ensures OnRenamedTodoItemBlur(props, OnTodoItemDoubleClick(props, s)) == OnRenamedTodoItemBlur(props, s)
    ensures ChangesOnlyItem(s, OnRenamedTodoItemBlur(props, OnTodoItemDoubleClick(props, s)), props.id,
      (t: Todo) => t.(renameInProgress := false))
  {
    var r := OnRenamedTodoItemBlur(props, OnTodoItemDoubleClick(props, s));
    assert r.todoItems == OnRenamedTodoItemBlur(props, s).todoItems;
  }

  /** Removing "a" from the items a, b leaves only b. */
  lemma RemoveFirstOfTwo(a: Todo, b: Todo, s: Todos)
    requires a.id != b.id
    requires s.todoItems == [a, b]
    ensures OnRemoveTodoItemClick(a, s).todoItems == [b]
  {
    assert s.todoItems == [a] + [b];
    Seqs.FilterAppend(HasOtherId(a.id), [a], [b]);
  }

  /** The events of an item's controls. */
  datatype ItemEvent =
    | CompletedChanged
    | RemoveClicked
    | DoubleClicked
    | RenameChanged(text: string)
    | RenameBlurred

  /** The handlers as bound to one rendered item. */
  function HandleItemEvent(props: Todo, event: ItemEvent, ctx: TodoContext): (r: TodoResult)
    ensures r.outputs == [] && r.state.Some?
  {
    match event
    case CompletedChanged => StateOnly(OnTodoItemCompletedChange(props, ctx.state))
    case RemoveClicked => StateOnly(OnRemoveTodoItemClick(props, ctx.state))
    case DoubleClicked => StateOnly(OnTodoItemDoubleClick(props, ctx.state))
    case RenameChanged(text) => StateOnly(OnRenamedTodoItemChange(props, ctx.state, text))
    case RenameBlurred => StateOnly(OnRenamedTodoItemBlur(props, ctx.state))
  }

  /** An item event reaches the list's owner as one state change and calls no
      output callback, whichever owner callbacks were supplied. */
  lemma ItemEventsForwardOnlyState(props: Todo, event: ItemEvent, ctx: TodoContext)
    ensures Forwarded(ctx, HandleItemEvent(props, event, ctx), ObjectTruthy) ==
      [StateChange(ctx.onStateChange, HandleItemEvent(props, event, ctx).state.value)]
  {
    StateOnlyForwarding<Todos, (), TodoOutput, ListMode>(ctx, HandleItemEvent(props, event, ctx).state.value, ObjectTruthy);
  }
}
