/** The first list version: a state of just the new-todo text and the items,
    an optional `mode` input, and an item component that toggles and removes
    by id. */
module SimpleTodoList {
  import opened Optional
  import opened ListModes
  import opened Oxymora
  import opened PlainTodos

  datatype SimpleTodos = SimpleTodos(newTodo: string, todoItems: seq<PlainItem>)

  /** The only input prop, `mode?`; the list has no output names. */
  datatype SimpleInputs = SimpleInputs(mode: Option<ListMode>)

  type SimpleContext = ContextValue<SimpleTodos, SimpleInputs, ()>
  type SimpleResult = HandlerResult<SimpleTodos, (), ()>

  const DefaultSimpleTodoList := SimpleTodos("", [])

  /** A list mounted without a supplied state starts with no text and no
      items, and renders nothing. */
  lemma UnsuppliedSimpleListStartsEmpty(props: Props<SimpleTodos, SimpleInputs, ()>)
    requires props.state.None?
    ensures var s := Provide(DefaultSimpleTodoList, props).state;
      s.newTodo == "" && RenderSimpleList(s, props.inputs).items == []
  {
  }

  /** `const { mode = ViewMode.All } = props`. */
  function ModeOrAll(inputs: SimpleInputs): (mode: ListMode)
    ensures inputs.mode.None? ==> mode == All
    ensures inputs.mode.Some? ==> mode == inputs.mode.value
  {
    inputs.mode.GetOr(All)
  }

  /** What this version renders: the items, and the mode it hands on to the
      footer, or `None` when the list and footer sections are not rendered. */
  datatype SimpleView = SimpleView(items: seq<PlainItem>, footerMode: Option<ListMode>)

  /** The rendered list is every item whatever the mode; the mode only
      reaches the footer, which is left out, with the list section, while
      there are no items. */
  function RenderSimpleList(s: SimpleTodos, inputs: SimpleInputs): (v: SimpleView)
    ensures v.items == s.todoItems
    ensures v.footerMode.None? <==> s.todoItems == []
    ensures v.footerMode.Some? ==> v.footerMode.value == ModeOrAll(inputs)
  {
    if |s.todoItems| == 0 then SimpleView([], None)
    else SimpleView(s.todoItems, Some(ModeOrAll(inputs)))
  }

  /** In Active mode the rendered list still shows completed items: it differs
      from the Active selection as soon as one item is completed. */
  lemma RenderedListIgnoresMode(s: SimpleTodos, k: nat)
    requires k < |s.todoItems| && s.todoItems[k].completed
    ensures RenderSimpleList(s, SimpleInputs(Some(Active))).items != SelectByMode(Active, IsCompletedPlain, s.todoItems)
  {
    var sel := SelectByMode(Active, IsCompletedPlain, s.todoItems);
    assert |sel| < |s.todoItems| by {
      SelectByModePartition(IsCompletedPlain, s.todoItems);
      assert s.todoItems[k] in SelectByMode(Completed, IsCompletedPlain, s.todoItems);
    }
  }

  /** Typing: only `newTodo` changes. */
  function OnInputChange(s: SimpleTodos, text: string): (r: SimpleTodos)
    ensures r.newTodo == text && r.todoItems == s.todoItems
  {
    s.(newTodo := text)
  }

  /** A key press: any key but Enter leaves the state as it was; Enter builds
      `{newTodo: "", todoItems: [...old, new item]}`. */
  function OnInputKeyDown(s: SimpleTodos, key: string, stamp: string): (r: SimpleTodos)
    ensures key != "Enter" ==> r == s
    ensures key == "Enter" ==> r.newTodo == "" && r.todoItems == s.todoItems + [NewPlainItem(s.newTodo, stamp)]
  {
    if key != "Enter" then s
    else SimpleTodos("", s.todoItems + [NewPlainItem(s.newTodo, stamp)])
  }

  /** Enter followed by the new item's remove button, when its id was fresh,
      leaves only the text cleared. */
  lemma EnterThenRemoveSimple(s: SimpleTodos, stamp: string)
    requires forall i :: 0 <= i < |s.todoItems| ==> s.todoItems[i].id != s.newTodo + "@" + stamp
    ensures OnButtonClick(s.newTodo + "@" + stamp, OnInputKeyDown(s, "Enter", stamp)) == s.(newTodo := "")
  {
    RemoveByIdUndoesAppend(s.todoItems, NewPlainItem(s.newTodo, stamp));
  }

  /** The item checkbox: the stored `completed` of the items with this id is
      negated, everything else is kept. */
  function OnCheckboxChange(id: string, s: SimpleTodos): (r: SimpleTodos)
    ensures r.newTodo == s.newTodo && r.todoItems == ToggleById(s.todoItems, id)
  {
    s.(todoItems := ToggleById(s.todoItems, id))
  }

  /** Two checkbox changes of the same item restore the state. */
  lemma CheckboxTwiceRestores(id: string, s: SimpleTodos)
    ensures OnCheckboxChange(id, OnCheckboxChange(id, s)) == s
  {
    ToggleByIdInvolution(s.todoItems, id);
  }

  /** The item's remove button: the items with this id go, the text stays. */
  function OnButtonClick(id: string, s: SimpleTodos): (r: SimpleTodos)
    ensures r.newTodo == s.newTodo && r.todoItems == RemoveById(s.todoItems, id)
  {
    s.(todoItems := RemoveById(s.todoItems, id))
  }

  /** The events of the list's input and of one item's controls. */
  datatype SimpleEvent =
    | InputChanged(text: string)
    | InputKeyDown(key: string, stamp: string)
    | CheckboxChanged(itemId: string)
    | ButtonClicked(itemId: string)

  function HandleSimpleEvent(event: SimpleEvent, ctx: SimpleContext): (r: SimpleResult)
    ensures r.outputs == [] && r.state.Some?
  {
    match event
    case InputChanged(text) => StateOnly(OnInputChange(ctx.state, text))
    case InputKeyDown(key, stamp) => StateOnly(OnInputKeyDown(ctx.state, key, stamp))
    case CheckboxChanged(id) => StateOnly(OnCheckboxChange(id, ctx.state))
    case ButtonClicked(id) => StateOnly(OnButtonClick(id, ctx.state))
  }

  /** Every event of this version reaches the owner as one state change. */
  lemma SimpleEventsForwardOnlyState(event: SimpleEvent, ctx: SimpleContext)
    ensures Forwarded(ctx, HandleSimpleEvent(event, ctx), ObjectTruthy) ==
      [StateChange(ctx.onStateChange, HandleSimpleEvent(event, ctx).state.value)]
  {
    StateOnlyForwarding<SimpleTodos, SimpleInputs, (), ()>(ctx, HandleSimpleEvent(event, ctx).state.value, ObjectTruthy);
  }
}
