/** The TodoMVC list component: its default state, the items it displays and
    the handlers of the new-todo input and of the toggle-all checkbox. The
    handlers compute the next list record from the context's state and return
    it as the result's only key. */
module TodoMvcList {
  import opened Optional
  import opened Seqs
  import opened ListModes
  import opened Oxymora
  import opened TodoData

  /** The output names a list owner may supply; only the footer's mode change
      produces one. */
  datatype TodoOutput = OnViewModeChange

  type TodoContext = ContextValue<Todos, (), TodoOutput>
  type TodoResult = HandlerResult<Todos, TodoOutput, ListMode>

  /** The initial state of the pure list. */
  const DefaultTodoList := Todos(All, false, "", [])

  /** The items rendered, as the list's current mode selects them. */
  function DisplayedItems(s: Todos): (r: seq<Todo>)
    ensures s.listMode == All ==> r == s.todoItems
    ensures forall i :: 0 <= i < |r| ==> r[i] in s.todoItems && Shows(s.listMode, r[i].completed)
    ensures forall i :: 0 <= i < |s.todoItems| && Shows(s.listMode, s.todoItems[i].completed) ==> s.todoItems[i] in r
  {
    GetActiveTodoItems(s.listMode, s.todoItems)
  }

  /** A list mounted without a supplied state shows the default: mode All, the
      toggle off, no text and nothing to display. */
  lemma UnsuppliedListStartsEmpty(props: Props<Todos, (), TodoOutput>)
    requires props.state.None?
    ensures var s := Provide(DefaultTodoList, props).state;
      s.listMode == All && !s.toggleAllChecked && s.newTodo == "" && DisplayedItems(s) == []
  {
  }

  /** Typing in the new-todo input: `newTodo` becomes the input's text and
      nothing else changes. */
  function OnNewTodoItemChange(s: Todos, text: string): (r: Todos)
    ensures r.newTodo == text
    ensures r.listMode == s.listMode && r.toggleAllChecked == s.toggleAllChecked && r.todoItems == s.todoItems
  {
    s.(newTodo := text)
  }

  /** Only the latest text counts: two changes in a row are the second alone. */
  lemma NewTodoTextLastWins(s: Todos, first: string, second: string)
    ensures OnNewTodoItemChange(OnNewTodoItemChange(s, first), second) == OnNewTodoItemChange(s, second)
  {
  }

  /** The item Enter creates: id `${newTodo}@${Date.now()}`, where `stamp` is
      the clock reading as the decimal text the template produces. */
  function NewTodoItem(newTodo: string, stamp: string): (t: Todo)
    ensures t.description == newTodo && !t.completed && !t.renameInProgress
    ensures t.id == newTodo + "@" + stamp
  {
    Todo(newTodo + "@" + stamp, newTodo, false, false)
  }

  /** A key press in the new-todo input. Any key but Enter leaves the state as
      it was. Enter clears the text and appends one item holding the old text,
      uncompleted and not being renamed; an empty text is added too. */
  function OnNewTodoItemKeyDown(s: Todos, key: string, stamp: string): (r: Todos)
    ensures key != "Enter" ==> r == s
    ensures key == "Enter" ==>
      && r.newTodo == ""
      && r.listMode == s.listMode && r.toggleAllChecked == s.toggleAllChecked
      && |r.todoItems| == |s.todoItems| + 1
      && r.todoItems[..|s.todoItems|] == s.todoItems
      && r.todoItems[|s.todoItems|] == NewTodoItem(s.newTodo, stamp)
  {
    if key != "Enter" then s
    else s.(newTodo := "", todoItems := s.todoItems + [NewTodoItem(s.newTodo, stamp)])
  }

  /** Enter is the data model's clear-the-text update followed by its append. */
  lemma EnterIsUpdateThenAdd(s: Todos, stamp: string)
    ensures OnNewTodoItemKeyDown(s, "Enter", stamp) ==
      AddTodoListItem(UpdateTodoList(s, NoTodosUpdate.(newTodo := Some(""))), NewTodoItem(s.newTodo, stamp))
  {
  }

  /** An item added by Enter under an id not yet used can be removed again,
      which leaves the list as it was with only the text cleared. */
  lemma EnterThenRemove(s: Todos, stamp: string)
    requires forall i :: 0 <= i < |s.todoItems| ==> s.todoItems[i].id != s.newTodo + "@" + stamp
    ensures RemoveTodoListItem(OnNewTodoItemKeyDown(s, "Enter", stamp), s.newTodo + "@" + stamp) == s.(newTodo := "")
  {
    EnterIsUpdateThenAdd(s, stamp);
    RemoveUndoesAdd(s.(newTodo := ""), NewTodoItem(s.newTodo, stamp));
  }

  /** The new item is displayed in modes All and Active and not in Completed. */
  lemma NewItemDisplayed(s: Todos, stamp: string)
    ensures var r := OnNewTodoItemKeyDown(s, "Enter", stamp);
      var t := NewTodoItem(s.newTodo, stamp);
      (t in DisplayedItems(r) <==> r.listMode != Completed)
  {
    var r := OnNewTodoItemKeyDown(s, "Enter", stamp);
    var t := NewTodoItem(s.newTodo, stamp);
    assert r.todoItems[|s.todoItems|] == t;
    if t in DisplayedItems(r) {
      var i :| 0 <= i < |DisplayedItems(r)| && DisplayedItems(r)[i] == t;
    }
  }

  /** The toggle-all checkbox: the flag flips and every item's `completed`
      becomes the new flag, with the items' number, order and ids kept. */
  function OnToggleAllChange(s: Todos): (r: Todos)
    ensures r.toggleAllChecked == !s.toggleAllChecked
    ensures r.listMode == s.listMode && r.newTodo == s.newTodo
    ensures |r.todoItems| == |s.todoItems|
    ensures forall i :: 0 <= i < |r.todoItems| ==>
      r.todoItems[i] == s.todoItems[i].(completed := r.toggleAllChecked)
  {
    s.(
      toggleAllChecked := !s.toggleAllChecked,
      todoItems := seq(|s.todoItems|, i requires 0 <= i < |s.todoItems| => s.todoItems[i].(completed := !s.toggleAllChecked)))
  }

  /** Toggle-all is the data model's update of every item, plus the flag. */
  lemma ToggleAllIsUpdateOfAllItems(s: Todos)
    ensures OnToggleAllChange(s) ==
      UpdateTodoListItems(s, NoTodoUpdate.(completed := Some(!s.toggleAllChecked))).(toggleAllChecked := !s.toggleAllChecked)
  {
  }

  /** After toggle-all with the flag turned on nothing remains to do, and
      with it turned off everything does. */
  lemma ToggleAllRemaining(s: Todos)
    ensures var r := OnToggleAllChange(s);
      RemainingCount(IsCompletedItem, r.todoItems) == if r.toggleAllChecked then 0 else |r.todoItems|
  {
    var r := OnToggleAllChange(s);
    ToggleAllIsUpdateOfAllItems(s);
    UpdateAllCompletedSelects(s, r.toggleAllChecked);
    SelectByModePartition(IsCompletedItem, r.todoItems);
  }

  /** The events of the list's own controls. */
  datatype ListEvent =
    | NewTodoTextChanged(text: string)
    | NewTodoKeyDown(key: string, stamp: string)
    | ToggleAllChanged

  /** The handlers as bound to the controls: each returns only a next state. */
  function HandleListEvent(event: ListEvent, ctx: TodoContext): (r: TodoResult)
    ensures r.outputs == [] && r.state.Some?
  {
    match event
    case NewTodoTextChanged(text) => StateOnly(OnNewTodoItemChange(ctx.state, text))
    case NewTodoKeyDown(key, stamp) => StateOnly(OnNewTodoItemKeyDown(ctx.state, key, stamp))
    case ToggleAllChanged => StateOnly(OnToggleAllChange(ctx.state))
  }

  /** Every list event forwards its next state, even an unchanged one, to the
      owner exactly once and calls no output callback. */
  lemma ListEventsForwardOnlyState(event: ListEvent, ctx: TodoContext)
    ensures Forwarded(ctx, HandleListEvent(event, ctx), ObjectTruthy) ==
      [StateChange(ctx.onStateChange, HandleListEvent(event, ctx).state.value)]
  {
    StateOnlyForwarding<Todos, (), TodoOutput, ListMode>(ctx, HandleListEvent(event, ctx).state.value, ObjectTruthy);
  }
}
