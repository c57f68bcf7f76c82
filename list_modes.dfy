/** The three list (view) modes of the TodoMVC variants and the selection of
    the items a mode displays. Every variant filters the same way, whatever
    its item record, so the selection is generic in the item type and takes
    the item's `completed` flag as an accessor. */
module ListModes {
  import opened Seqs

  /** `All`, `Active` and `Completed`; the string values the enums carry
      ("all", "ALL_ITEMS", ...) only travel through the DOM and the URL. */
  datatype ListMode = All | Active | Completed

  /** Whether an item with the given `completed` flag is shown in `mode`. */
  function Shows(mode: ListMode, completed: bool): (b: bool)
    ensures mode == All ==> b
    ensures mode == Active ==> (b <==> !completed)
    ensures mode == Completed ==> (b <==> completed)
  {
    match mode
    case All => true
    case Active => !completed
    case Completed => completed
  }

  /** The active-item test `!item.completed`, over an accessor. */
  function IsActiveBy<T>(completed: T -> bool): T -> bool
  {
    (t: T) => !completed(t)
  }

  /** The mode filter: mode `All` returns the list itself, otherwise the list
      filtered by "not completed" (Active) or "completed" (Completed). */
  function SelectByMode<T>(mode: ListMode, completed: T -> bool, items: seq<T>): (r: seq<T>)
    ensures mode == All ==> r == items
    ensures |r| <= |items|
    ensures forall i :: 0 <= i < |r| ==> r[i] in items && Shows(mode, completed(r[i]))
    ensures forall i :: 0 <= i < |items| && Shows(mode, completed(items[i])) ==> items[i] in r
  {
    if mode == All then items
    else Filter(if mode == Active then IsActiveBy(completed) else completed, items)
  }

  /** Each mode keeps exactly the items it shows, with their multiplicities, in
      their original order. */
  lemma SelectByModeExact<T>(mode: ListMode, completed: T -> bool, items: seq<T>, t: T)
    ensures IsSubsequence(SelectByMode(mode, completed, items), items)
    ensures multiset(SelectByMode(mode, completed, items))[t] ==
      if Shows(mode, completed(t)) then multiset(items)[t] else 0
  {
    if mode == All {
      SubsequenceOfItself(items);
    } else {
      var p := if mode == Active then IsActiveBy(completed) else completed;
      FilterIsSubsequence(p, items);
      FilterMultiplicity(p, items, t);
    }
  }

  lemma {:induction false} SubsequenceOfItself<T>(xs: seq<T>)
    ensures IsSubsequence(xs, xs)
    decreases |xs|
  {
    if xs != [] {
      SubsequenceOfItself(xs[1..]);
    }
  }

  /** The Active and Completed selections split the list: their lengths add up
      to the length of the list. */
  lemma SelectByModePartition<T>(completed: T -> bool, items: seq<T>)
    ensures |SelectByMode(Active, completed, items)| + |SelectByMode(Completed, completed, items)| == |items|
  {
    FilterPartition(IsActiveBy(completed), completed, items);
  }

  /** Selecting again in the same mode changes nothing. */
  lemma SelectByModeIdempotent<T>(mode: ListMode, completed: T -> bool, items: seq<T>)
    ensures SelectByMode(mode, completed, SelectByMode(mode, completed, items)) == SelectByMode(mode, completed, items)
  {
    if mode != All {
      FilterIdempotent(if mode == Active then IsActiveBy(completed) else completed, items);
    }
  }

  /** The number of items left to do: those whose `completed` is false. */
  function RemainingCount<T>(completed: T -> bool, items: seq<T>): (n: nat)
    ensures n <= |items|
    ensures n == |SelectByMode(Active, completed, items)|
  {
    |Filter(IsActiveBy(completed), items)|
  }

  /** The remaining count counts exactly the positions of uncompleted items. */
  lemma RemainingCountCountsActive<T>(completed: T -> bool, items: seq<T>)
    ensures RemainingCount(completed, items) == |set i: nat | i < |items| && !completed(items[i])|
  {
    FilterLengthCountsIndices(IsActiveBy(completed), items);
    assert IndicesWhere(IsActiveBy(completed), items) == set i: nat | i < |items| && !completed(items[i]);
  }

  /** The footer's word for the count: "item" for exactly one, else "items". */
  function ItemsLabel(count: nat): (word: string)
    ensures word == "item" <==> count == 1
    ensures word == "item" || word == "items"
  {
    if count == 1 then "item" else "items"
  }
}
