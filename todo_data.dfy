/** The TodoMVC data model: the list record, its items, and the record and list
    operations the handlers are written with. Every operation returns a new
    record; none mutates its argument. */
module TodoData {
  import opened Optional
  import opened Seqs
  import opened ListModes

  /** One todo item. */
  datatype Todo = Todo(id: string, description: string, completed: bool, renameInProgress: bool)

  /** The whole list state. */
  datatype Todos = Todos(listMode: ListMode, toggleAllChecked: bool, newTodo: string, todoItems: seq<Todo>)

  /** `Partial<Todos>`: each field either absent (`None`) or present. */
  datatype TodosUpdate = TodosUpdate(
    listMode: Option<ListMode>,
    toggleAllChecked: Option<bool>,
    newTodo: Option<string>,
    todoItems: Option<seq<Todo>>)

  /** `Partial<Omit<Todo, "id">>`: an item update that cannot touch the id. */
  datatype TodoUpdate = TodoUpdate(description: Option<string>, completed: Option<bool>, renameInProgress: Option<bool>)

  /** `Pick<Todo, "id"> & Partial<Todo>`: the id of the item to change, and the
      fields to change in it (an `id` among them can only repeat `id`). */
  datatype UpdatedTodo = UpdatedTodo(id: string, fields: TodoUpdate)

  const NoTodosUpdate := TodosUpdate(None, None, None, None)
  const NoTodoUpdate := TodoUpdate(None, None, None)

  /** The `completed` accessor that the mode filter reads. */
  function IsCompletedItem(t: Todo): bool
  {
    t.completed
  }

  /** The items the list shows in `mode`: all of them, or only the active, or
      only the completed ones. */
  function GetActiveTodoItems(mode: ListMode, items: seq<Todo>): (r: seq<Todo>)
    ensures mode == All ==> r == items
    ensures forall i :: 0 <= i < |r| ==> r[i] in items && Shows(mode, r[i].completed)
    ensures forall i :: 0 <= i < |items| && Shows(mode, items[i].completed) ==> items[i] in r
  {
    SelectByMode(mode, IsCompletedItem, items)
  }

  /** Active mode yields exactly the uncompleted items and Completed mode
      exactly the completed ones, each in the original order and with the
      original multiplicities; the two together account for every item. */
  lemma ActiveCompletedPartition(items: seq<Todo>, t: Todo)
    ensures IsSubsequence(GetActiveTodoItems(Active, items), items)
    ensures IsSubsequence(GetActiveTodoItems(Completed, items), items)
    ensures multiset(GetActiveTodoItems(Active, items))[t] == if !IsCompletedItem(t) then multiset(items)[t] else 0
    ensures multiset(GetActiveTodoItems(Completed, items))[t] == if IsCompletedItem(t) then multiset(items)[t] else 0
    ensures |GetActiveTodoItems(Active, items)| + |GetActiveTodoItems(Completed, items)| == |items|
  {
    SelectByModeExact(Active, IsCompletedItem, items, t);
    SelectByModeExact(Completed, IsCompletedItem, items, t);
    SelectByModePartition(IsCompletedItem, items);
  }

  /** `{...todos, ...update}`: every field present in the update comes from
      the update, every absent one from `todos`. */
  function UpdateTodoList(todos: Todos, update: TodosUpdate): (r: Todos)
    ensures r.listMode == if update.listMode.Some? then update.listMode.value else todos.listMode
    ensures r.toggleAllChecked == if update.toggleAllChecked.Some? then update.toggleAllChecked.value else todos.toggleAllChecked
    ensures r.newTodo == if update.newTodo.Some? then update.newTodo.value else todos.newTodo
    ensures r.todoItems == if update.todoItems.Some? then update.todoItems.value else todos.todoItems
  {
    Todos(
      update.listMode.GetOr(todos.listMode),
      update.toggleAllChecked.GetOr(todos.toggleAllChecked),
      update.newTodo.GetOr(todos.newTodo),
      update.todoItems.GetOr(todos.todoItems))
  }

  /** Right-biased combination of two partial updates: `{...first, ...second}`. */
  function ThenUpdate(first: TodosUpdate, second: TodosUpdate): TodosUpdate
  {
    TodosUpdate(
      if second.listMode.Some? then second.listMode else first.listMode,
      if second.toggleAllChecked.Some? then second.toggleAllChecked else first.toggleAllChecked,
      if second.newTodo.Some? then second.newTodo else first.newTodo,
      if second.todoItems.Some? then second.todoItems else first.todoItems)
  }

  /** The empty update is the identity, and applying an update twice is the
      same as applying it once. */
  lemma UpdateTodoListIdentityAndIdempotence(todos: Todos, update: TodosUpdate)
    ensures UpdateTodoList(todos, NoTodosUpdate) == todos
    ensures UpdateTodoList(UpdateTodoList(todos, update), update) == UpdateTodoList(todos, update)
  {
  }

  /** Two updates in a row are one combined update, the later winning. */
  lemma UpdateTodoListComposes(todos: Todos, first: TodosUpdate, second: TodosUpdate)
    ensures UpdateTodoList(UpdateTodoList(todos, first), second) == UpdateTodoList(todos, ThenUpdate(first, second))
  {
  }

  /** `{...todoItem, ...update}` for an update without an id. */
  function ApplyTodoUpdate(t: Todo, update: TodoUpdate): (r: Todo)
    ensures r.id == t.id
    ensures r.description == if update.description.Some? then update.description.value else t.description
    ensures r.completed == if update.completed.Some? then update.completed.value else t.completed
    ensures r.renameInProgress == if update.renameInProgress.Some? then update.renameInProgress.value else t.renameInProgress
  {
    Todo(
      t.id,
      update.description.GetOr(t.description),
      update.completed.GetOr(t.completed),
      update.renameInProgress.GetOr(t.renameInProgress))
  }

  /** Applies one update to every item; the top-level fields, the number and
      order of the items and every id are unchanged. */
  function UpdateTodoListItems(todos: Todos, update: TodoUpdate): (r: Todos)
    ensures r.listMode == todos.listMode && r.toggleAllChecked == todos.toggleAllChecked && r.newTodo == todos.newTodo
    ensures |r.todoItems| == |todos.todoItems|
    ensures forall i :: 0 <= i < |r.todoItems| ==> r.todoItems[i].id == todos.todoItems[i].id
    ensures forall i :: 0 <= i < |r.todoItems| ==> r.todoItems[i] == ApplyTodoUpdate(todos.todoItems[i], update)
  {
    var items := todos.todoItems;
    todos.(todoItems := seq(|items|, i requires 0 <= i < |items| => ApplyTodoUpdate(items[i], update)))
  }

  /** After setting `completed` on every item, every item shows in Completed
      mode (when set to true) or in Active mode (when set to false). */
  lemma UpdateAllCompletedSelects(todos: Todos, flag: bool)
    ensures var r := UpdateTodoListItems(todos, TodoUpdate(None, Some(flag), None));
      GetActiveTodoItems(if flag then Completed else Active, r.todoItems) == r.todoItems
  {
    var r := UpdateTodoListItems(todos, TodoUpdate(None, Some(flag), None));
    FilterKeepsAll(if flag then IsCompletedItem else IsActiveBy(IsCompletedItem), r.todoItems);
  }

  /** Appends `item` at the end of the list. */
  function AddTodoListItem(todos: Todos, item: Todo): (r: Todos)
    ensures r.listMode == todos.listMode && r.toggleAllChecked == todos.toggleAllChecked && r.newTodo == todos.newTodo
    ensures |r.todoItems| == |todos.todoItems| + 1
    ensures r.todoItems[..|todos.todoItems|] == todos.todoItems
    ensures r.todoItems[|todos.todoItems|] == item
  {
    todos.(todoItems := todos.todoItems + [item])
  }

  /** Applies `item.fields` to the items whose id is `item.id` and leaves every
      other item as it was; the top-level fields, length, order and ids are
      unchanged. */
  function UpdateTodoListItem(todos: Todos, item: UpdatedTodo): (r: Todos)
    ensures r.listMode == todos.listMode && r.toggleAllChecked == todos.toggleAllChecked && r.newTodo == todos.newTodo
    ensures |r.todoItems| == |todos.todoItems|
    ensures forall i :: 0 <= i < |r.todoItems| ==> r.todoItems[i].id == todos.todoItems[i].id
    ensures forall i :: 0 <= i < |r.todoItems| && todos.todoItems[i].id != item.id ==> r.todoItems[i] == todos.todoItems[i]
    ensures forall i :: 0 <= i < |r.todoItems| && todos.todoItems[i].id == item.id ==>
      r.todoItems[i] == ApplyTodoUpdate(todos.todoItems[i], item.fields)
  {
    var items := todos.todoItems;
    todos.(todoItems := seq(|items|, i requires 0 <= i < |items| =>
      if items[i].id == item.id then ApplyTodoUpdate(items[i], item.fields) else items[i]))
  }

  /** An update addressed to an id no item has changes nothing. */
  lemma UpdateAbsentIdIsIdentity(todos: Todos, item: UpdatedTodo)
    requires forall i :: 0 <= i < |todos.todoItems| ==> todos.todoItems[i].id != item.id
    ensures UpdateTodoListItem(todos, item) == todos
  {
    assert UpdateTodoListItem(todos, item).todoItems == todos.todoItems;
  }

  /** The filter predicate `todoItem.id !== id`. */
  function HasOtherId(id: string): Todo -> bool
  {
    (t: Todo) => t.id != id
  }

  /** Drops every item whose id is `id`, keeping the rest in order. */
  function RemoveTodoListItem(todos: Todos, id: string): (r: Todos)
    ensures r.listMode == todos.listMode && r.toggleAllChecked == todos.toggleAllChecked && r.newTodo == todos.newTodo
    ensures forall i :: 0 <= i < |r.todoItems| ==> r.todoItems[i].id != id && r.todoItems[i] in todos.todoItems
    ensures forall i :: 0 <= i < |todos.todoItems| && todos.todoItems[i].id != id ==> todos.todoItems[i] in r.todoItems
  {
    todos.(todoItems := Filter(HasOtherId(id), todos.todoItems))
  }

  /** Removal keeps the other items in their order, with their multiplicities,
      and removing the same id again changes nothing. */
  lemma RemoveTodoListItemKeepsOthers(todos: Todos, id: string, t: Todo)
    ensures IsSubsequence(RemoveTodoListItem(todos, id).todoItems, todos.todoItems)
    ensures multiset(RemoveTodoListItem(todos, id).todoItems)[t] == if t.id != id then multiset(todos.todoItems)[t] else 0
    ensures RemoveTodoListItem(RemoveTodoListItem(todos, id), id) == RemoveTodoListItem(todos, id)
  {
    FilterIsSubsequence(HasOtherId(id), todos.todoItems);
    FilterMultiplicity(HasOtherId(id), todos.todoItems, t);
    FilterIdempotent(HasOtherId(id), todos.todoItems);
  }

  /** Adding an item under an id no item has, then removing that id, gives the
      list back. */
  lemma RemoveUndoesAdd(todos: Todos, item: Todo)
    requires forall i :: 0 <= i < |todos.todoItems| ==> todos.todoItems[i].id != item.id
    ensures RemoveTodoListItem(AddTodoListItem(todos, item), item.id) == todos
  {
    FilterAppend(HasOtherId(item.id), todos.todoItems, [item]);
    FilterKeepsAll(HasOtherId(item.id), todos.todoItems);
    assert Filter(HasOtherId(item.id), [item]) == [];
  }

  /** Removing an id makes any earlier update of that id irrelevant. */
  lemma RemoveAfterUpdateOfSameId(todos: Todos, item: UpdatedTodo)
    ensures RemoveTodoListItem(UpdateTodoListItem(todos, item), item.id) == RemoveTodoListItem(todos, item.id)
  {
    FilterPointwise(HasOtherId(item.id), UpdateTodoListItem(todos, item).todoItems, todos.todoItems);
  }
}
