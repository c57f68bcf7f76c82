/** The items of the two earlier list versions: an id, a description and a
    `completed` flag, with no rename state. Their item component toggles and
    removes by id directly with `map` and `filter`. */
module PlainTodos {
  import opened Seqs
  import opened ListModes

  datatype PlainItem = PlainItem(id: string, description: string, completed: bool)

  function IsCompletedPlain(t: PlainItem): bool
  {
    t.completed
  }

  /** The item Enter creates: id `${newTodo}@${Date.now()}`, uncompleted. */
  function NewPlainItem(newTodo: string, stamp: string): (t: PlainItem)
    ensures t.description == newTodo && !t.completed
    ensures t.id == newTodo + "@" + stamp
  {
    PlainItem(newTodo + "@" + stamp, newTodo, false)
  }

  /** The checkbox's `map`: items with this id get their STORED `completed`
      negated; every other item is kept; number, order and ids are kept. */
  function ToggleById(items: seq<PlainItem>, id: string): (r: seq<PlainItem>)
    ensures |r| == |items|
    ensures forall i :: 0 <= i < |r| ==> r[i].id == items[i].id && r[i].description == items[i].description
    ensures forall i :: 0 <= i < |r| ==> (r[i].completed <==> (items[i].completed != (items[i].id == id)))
  {
    seq(|items|, i requires 0 <= i < |items| =>
      if items[i].id != id then items[i] else items[i].(completed := !items[i].completed))
  }

  /** Toggling the same id twice gives the items back. */
  lemma ToggleByIdInvolution(items: seq<PlainItem>, id: string)
    ensures ToggleById(ToggleById(items, id), id) == items
  {
    var twice := ToggleById(ToggleById(items, id), id);
    assert forall i :: 0 <= i < |items| ==> twice[i] == items[i];
  }

  /** The filter predicate `todoItem.id !== id`. */
  function HasOtherPlainId(id: string): PlainItem -> bool
  {
    (t: PlainItem) => t.id != id
  }

  /** The remove button's `filter`: no item with this id is left and every
      other item stays. */
  function RemoveById(items: seq<PlainItem>, id: string): (r: seq<PlainItem>)
    ensures forall i :: 0 <= i < |r| ==> r[i].id != id && r[i] in items
    ensures forall i :: 0 <= i < |items| && items[i].id != id ==> items[i] in r
  {
    Filter(HasOtherPlainId(id), items)
  }

  /** Removal keeps the other items in order with their multiplicities, and a
      second removal of the same id changes nothing. */
  lemma RemoveByIdKeepsOthers(items: seq<PlainItem>, id: string, t: PlainItem)
    ensures IsSubsequence(RemoveById(items, id), items)
    ensures multiset(RemoveById(items, id))[t] == if t.id != id then multiset(items)[t] else 0
    ensures RemoveById(RemoveById(items, id), id) == RemoveById(items, id)
  {
    FilterIsSubsequence(HasOtherPlainId(id), items);
    FilterMultiplicity(HasOtherPlainId(id), items, t);
    FilterIdempotent(HasOtherPlainId(id), items);
  }

  /** An item appended under a fresh id, then removed by that id, leaves the
      items as they were. */
  lemma RemoveByIdUndoesAppend(items: seq<PlainItem>, t: PlainItem)
    requires forall i :: 0 <= i < |items| ==> items[i].id != t.id
    ensures RemoveById(items + [t], t.id) == items
  {
    FilterAppend(HasOtherPlainId(t.id), items, [t]);
    FilterKeepsAll(HasOtherPlainId(t.id), items);
    assert Filter(HasOtherPlainId(t.id), [t]) == [];
  }
}
