/** The second list version: the state holds the new-todo text, the items and
    the list mode; the list filters by mode, its items toggle and remove by
    id, and its footer counts, switches mode and clears completed items. */
module ModeTodoList {
  import opened Seqs
  import opened ListModes
  import opened Oxymora
  import opened PlainTodos

  datatype ModeTodos = ModeTodos(newTodo: string, todoItems: seq<PlainItem>, listMode: ListMode)

  /** The list has no input props and no output names. */
  type ModeContext = ContextValue<ModeTodos, (), ()>
  type ModeResult = HandlerResult<ModeTodos, (), ()>

  const DefaultModeTodoList := ModeTodos("", [], All)

  /** The rendered items: everything in All, otherwise the uncompleted or the
      completed ones, in order. */
  function DisplayedModeItems(s: ModeTodos): (r: seq<PlainItem>)
    ensures s.listMode == All ==> r == s.todoItems
    ensures forall i :: 0 <= i < |r| ==> r[i] in s.todoItems && Shows(s.listMode, r[i].completed)
    ensures forall i :: 0 <= i < |s.todoItems| && Shows(s.listMode, s.todoItems[i].completed) ==> s.todoItems[i] in r
  {
    SelectByMode(s.listMode, IsCompletedPlain, s.todoItems)
  }

  /** A list mounted without a supplied state starts with no text, no items
      and mode All. */
  lemma UnsuppliedModeListStartsEmpty(props: Props<ModeTodos, (), ()>)
    requires props.state.None?
    ensures var s := Provide(DefaultModeTodoList, props).state;
      s.newTodo == "" && s.listMode == All && DisplayedModeItems(s) == []
  {
  }

  /** The displayed items are an order-preserving selection that keeps each
      shown item as often as the state holds it. */
  lemma DisplayedModeItemsExact(s: ModeTodos, t: PlainItem)
    ensures IsSubsequence(DisplayedModeItems(s), s.todoItems)
    ensures multiset(DisplayedModeItems(s))[t] == if Shows(s.listMode, t.completed) then multiset(s.todoItems)[t] else 0
  {
    SelectByModeExact(s.listMode, IsCompletedPlain, s.todoItems, t);
  }

  /** Typing: only `newTodo` changes. */
  function OnModeInputChange(s: ModeTodos, text: string): (r: ModeTodos)
    ensures r.newTodo == text && r.todoItems == s.todoItems && r.listMode == s.listMode
  {
    s.(newTodo := text)
  }

  /** A key press: any key but Enter leaves the state; Enter clears the text,
      appends one uncompleted item holding the old text and keeps the mode. */
  function OnModeInputKeyDown(s: ModeTodos, key: string, stamp: string): (r: ModeTodos)
    ensures key != "Enter" ==> r == s
    ensures key == "Enter" ==>
      r.newTodo == "" && r.listMode == s.listMode && r.todoItems == s.todoItems + [NewPlainItem(s.newTodo, stamp)]
  {
    if key != "Enter" then s
    else s.(newTodo := "", todoItems := s.todoItems + [NewPlainItem(s.newTodo, stamp)])
  }

  /** The item checkbox: the stored `completed` of the items with this id is
      negated; text and mode are kept. */
  function OnModeCheckboxChange(id: string, s: ModeTodos): (r: ModeTodos)
    ensures r.newTodo == s.newTodo && r.listMode == s.listMode && r.todoItems == ToggleById(s.todoItems, id)
  {
    s.(todoItems := ToggleById(s.todoItems, id))
  }

  /** The item's remove button: the items with this id go; text and mode are
      kept. */
  function OnModeButtonClick(id: string, s: ModeTodos): (r: ModeTodos)
    ensures r.newTodo == s.newTodo && r.listMode == s.listMode && r.todoItems == RemoveById(s.todoItems, id)
  {
    s.(todoItems := RemoveById(s.todoItems, id))
  }

  /** Toggling is an involution and removing is idempotent. */
  lemma ModeItemHandlersAlgebra(id: string, s: ModeTodos)
    ensures OnModeCheckboxChange(id, OnModeCheckboxChange(id, s)) == s
    ensures OnModeButtonClick(id, OnModeButtonClick(id, s)) == OnModeButtonClick(id, s)
  {
    ToggleByIdInvolution(s.todoItems, id);
    FilterIdempotent(HasOtherPlainId(id), s.todoItems);
  }

  /** The footer's count of items left. */
  function ModeItemsLeft(items: seq<PlainItem>): (n: nat)
    ensures n == |SelectByMode(Active, IsCompletedPlain, items)|
    ensures n + |SelectByMode(Completed, IsCompletedPlain, items)| == |items|
  {
    SelectByModePartition(IsCompletedPlain, items);
    RemainingCount(IsCompletedPlain, items)
  }

  /** The footer's "N item(s) left": the word is "item" exactly when one
      position holds an uncompleted item. */
  lemma ModeItemsLeftLabel(items: seq<PlainItem>)
    ensures ItemsLabel(ModeItemsLeft(items)) == "item" <==> |set i: nat | i < |items| && !items[i].completed| == 1
  {
    FilterLengthCountsIndices(IsActiveBy(IsCompletedPlain), items);
    var n := ModeItemsLeft(items);
    assert n == |IndicesWhere(IsActiveBy(IsCompletedPlain), items)|;
    assert IndicesWhere(IsActiveBy(IsCompletedPlain), items) == set i: nat | i < |items| && !items[i].completed;
  }

  /** A mode link: `{...state, listMode}`, with no output. */
  function ChangeModeListMode(s: ModeTodos, mode: ListMode): (r: ModeTodos)
    ensures r.listMode == mode && r.newTodo == s.newTodo && r.todoItems == s.todoItems
  {
    s.(listMode := mode)
  }

  /** Clear completed: only the uncompleted items stay, in order. */
  function ClearModeCompleted(s: ModeTodos): (r: ModeTodos)
    ensures r.newTodo == s.newTodo && r.listMode == s.listMode
    ensures forall i :: 0 <= i < |r.todoItems| ==> !r.todoItems[i].completed && r.todoItems[i] in s.todoItems
    ensures forall i :: 0 <= i < |s.todoItems| && !s.todoItems[i].completed ==> s.todoItems[i] in r.todoItems
  {
    s.(todoItems := SelectByMode(Active, IsCompletedPlain, s.todoItems))
  }

  /** Clear completed keeps exactly the uncompleted items in order, keeps the
      count left, and is idempotent. */
  lemma ClearModeCompletedKeepsActive(s: ModeTodos, t: PlainItem)
    ensures IsSubsequence(ClearModeCompleted(s).todoItems, s.todoItems)
    ensures multiset(ClearModeCompleted(s).todoItems)[t] == if !t.completed then multiset(s.todoItems)[t] else 0
    ensures ModeItemsLeft(ClearModeCompleted(s).todoItems) == ModeItemsLeft(s.todoItems)
    ensures ClearModeCompleted(ClearModeCompleted(s)) == ClearModeCompleted(s)
  {
    SelectByModeExact(Active, IsCompletedPlain, s.todoItems, t);
    SelectByModeIdempotent(Active, IsCompletedPlain, s.todoItems);
  }

  /** The events of the list's input, of one item and of the footer. */
  datatype ModeEvent =
    | InputChanged(text: string)
    | InputKeyDown(key: string, stamp: string)
    | CheckboxChanged(itemId: string)
    | ButtonClicked(itemId: string)
    | ModeClicked(mode: ListMode)
    | ClearCompletedClicked

  function HandleModeEvent(event: ModeEvent, ctx: ModeContext): (r: ModeResult)
    ensures r.outputs == [] && r.state.Some?
  {
    match event
    case InputChanged(text) => StateOnly(OnModeInputChange(ctx.state, text))
    case InputKeyDown(key, stamp) => StateOnly(OnModeInputKeyDown(ctx.state, key, stamp))
    case CheckboxChanged(id) => StateOnly(OnModeCheckboxChange(id, ctx.state))
    case ButtonClicked(id) => StateOnly(OnModeButtonClick(id, ctx.state))
    case ModeClicked(mode) => StateOnly(ChangeModeListMode(ctx.state, mode))
    case ClearCompletedClicked => StateOnly(ClearModeCompleted(ctx.state))
  }

  /** Every event of this version reaches the owner as one state change. */
  lemma ModeEventsForwardOnlyState(event: ModeEvent, ctx: ModeContext)
    ensures Forwarded(ctx, HandleModeEvent(event, ctx), ObjectTruthy) ==
      [StateChange(ctx.onStateChange, HandleModeEvent(event, ctx).state.value)]
  {
    StateOnlyForwarding<ModeTodos, (), (), ()>(ctx, HandleModeEvent(event, ctx).state.value, ObjectTruthy);
  }
}
