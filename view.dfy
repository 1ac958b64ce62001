/** The values the page derives from the store state and the filter tab on
    every render: the filtered list, the ticked part of it, the "all ticked"
    flag, the batch-delete target, the toolbar label and the check-all box. */
module TodoView {
  import opened Seqs
  import opened Decimal
  import opened TodoModel

  /** Whether the filter tab lets `t` through. */
  predicate Visible(t: Todo, showing: Showing) {
    showing.ShowAll? || t.status == showing.status
  }

  function HasStatus(status: TodoStatus): Todo -> bool {
    (t: Todo) => t.status == status
  }

  /** `selectedItemIds.indexOf(item.id) >= 0` */
  function IdIn(ids: seq<string>): Todo -> bool {
    (t: Todo) => t.id in ids
  }

  /** The ids of `items`, in order (`items.map((i) => i.id)`). */
  function Ids(items: seq<Todo>): (r: seq<string>)
    ensures |r| == |items|
    ensures forall i :: 0 <= i < |items| ==> r[i] == items[i].id
  {
    if items == [] then [] else [items[0].id] + Ids(items[1..])
  }

  /** `itemsAfterFilter`: the whole list under "ALL", otherwise the to-dos
      whose status is the filter's. */
  function ItemsAfterFilter(todos: seq<Todo>, showing: Showing): (r: seq<Todo>)
    ensures showing.ShowAll? ==> r == todos
    ensures showing.ShowOnly? ==> forall i :: 0 <= i < |r| ==> r[i].status == showing.status
    ensures forall t :: t in r <==> t in todos && Visible(t, showing)
  {
    if showing.ShowAll? then todos else Filter(HasStatus(showing.status), todos)
  }

  /** `itemsSelectedAfterFilter`: the filtered to-dos whose id is ticked. */
  function ItemsSelectedAfterFilter(todos: seq<Todo>, selectedItemIds: seq<string>, showing: Showing): (r: seq<Todo>)
    ensures |r| <= |ItemsAfterFilter(todos, showing)|
    ensures forall t :: t in r <==> t in todos && Visible(t, showing) && t.id in selectedItemIds
  {
    Filter(IdIn(selectedItemIds), ItemsAfterFilter(todos, showing))
  }

  /** `tickAllTodos`: the ticked part of the view is as long as the view. This
      holds exactly when every visible to-do is ticked, i.e. when the ticked
      part IS the view, and in particular when the view is empty. */
  function TickAllTodos(todos: seq<Todo>, selectedItemIds: seq<string>, showing: Showing): (b: bool)
    ensures b <==> forall t :: t in ItemsAfterFilter(todos, showing) ==> t.id in selectedItemIds
    ensures b <==> ItemsSelectedAfterFilter(todos, selectedItemIds, showing) == ItemsAfterFilter(todos, showing)
    ensures ItemsAfterFilter(todos, showing) == [] ==> b
  {
    var filtered := ItemsAfterFilter(todos, showing);
    FilterKeepsAllIff(IdIn(selectedItemIds), filtered);
    |ItemsSelectedAfterFilter(todos, selectedItemIds, showing)| == |filtered|
  }

  /** The ids `onDeleteAllTodo` asks the service to delete: the ticked part of
      the view when it is non-empty, otherwise the whole view. Either way they
      are a subsequence of the view's ids, and when something is ticked in
      view they are exactly the visible ticked ids. */
  function DeleteTargets(todos: seq<Todo>, selectedItemIds: seq<string>, showing: Showing): (ids: seq<string>)
    ensures IsSubsequence(ids, Ids(ItemsAfterFilter(todos, showing)))
    ensures forall id :: id in ids ==> id in Ids(ItemsAfterFilter(todos, showing))
    ensures ItemsSelectedAfterFilter(todos, selectedItemIds, showing) != [] ==>
              ids == Ids(ItemsSelectedAfterFilter(todos, selectedItemIds, showing))
    ensures ItemsSelectedAfterFilter(todos, selectedItemIds, showing) != [] ==>
              forall id :: id in ids ==> id in selectedItemIds
    ensures ItemsSelectedAfterFilter(todos, selectedItemIds, showing) == [] ==>
              ids == Ids(ItemsAfterFilter(todos, showing))
  {
    var filtered := ItemsAfterFilter(todos, showing);
    var selected := ItemsSelectedAfterFilter(todos, selectedItemIds, showing);
    FilterIsSubsequence(IdIn(selectedItemIds), filtered);
    IdsPreserveSubsequence(selected, filtered);
    SubsequenceReflexive(Ids(filtered));
    var ids := if |selected| > 0 then Ids(selected) else Ids(filtered);
    SubsequenceMembers(ids, Ids(filtered));
    ids
  }

  /** Taking ids keeps the subsequence relation. */
  lemma {:induction false} IdsPreserveSubsequence(xs: seq<Todo>, ys: seq<Todo>)
    requires IsSubsequence(xs, ys)
    ensures IsSubsequence(Ids(xs), Ids(ys))
    decreases |ys|
  {
    if xs != [] {
      if xs[0] == ys[0] && IsSubsequence(xs[1..], ys[1..]) {
        IdsPreserveSubsequence(xs[1..], ys[1..]);
        assert Ids(xs)[1..] == Ids(xs[1..]);
      } else {
        IdsPreserveSubsequence(xs, ys[1..]);
      }
      assert Ids(ys)[1..] == Ids(ys[1..]);
    }
  }

  /** The filtered view is the to-do list with the hidden to-dos taken out:
      the visible to-dos stay in their order and every copy of each is kept. */
  lemma ItemsAfterFilterKeepsOrder(todos: seq<Todo>, showing: Showing)
    ensures IsSubsequence(ItemsAfterFilter(todos, showing), todos)
    ensures forall t :: multiset(ItemsAfterFilter(todos, showing))[t] ==
                        if Visible(t, showing) then multiset(todos)[t] else 0
  {
    if showing.ShowOnly? {
      FilterIsSubsequence(HasStatus(showing.status), todos);
      forall t {
        FilterMultiplicity(HasStatus(showing.status), todos, t);
      }
    } else {
      SubsequenceReflexive(todos);
    }
  }

  /** The ticked part of the view keeps the view's order; a ticked to-do
      hidden by the filter never shows up in it. */
  lemma ItemsSelectedAfterFilterKeepsOrder(todos: seq<Todo>, selectedItemIds: seq<string>, showing: Showing)
    ensures IsSubsequence(ItemsSelectedAfterFilter(todos, selectedItemIds, showing), ItemsAfterFilter(todos, showing))
  {
    FilterIsSubsequence(IdIn(selectedItemIds), ItemsAfterFilter(todos, showing));
  }

  /** The ticked part of the view keeps every copy of a ticked to-do in view
      and drops every unticked one. */
  lemma ItemsSelectedAfterFilterMultiplicity(todos: seq<Todo>, selectedItemIds: seq<string>, showing: Showing, t: Todo)
    ensures multiset(ItemsSelectedAfterFilter(todos, selectedItemIds, showing))[t] ==
              if t.id in selectedItemIds then multiset(ItemsAfterFilter(todos, showing))[t] else 0
  {
    FilterMultiplicity(IdIn(selectedItemIds), ItemsAfterFilter(todos, showing), t);
  }

  /** When the "all ticked" flag is set the batch delete targets the whole view. */
  lemma TickAllDeletesWholeView(todos: seq<Todo>, selectedItemIds: seq<string>, showing: Showing)
    requires TickAllTodos(todos, selectedItemIds, showing)
    ensures DeleteTargets(todos, selectedItemIds, showing) == Ids(ItemsAfterFilter(todos, showing))
  {
  }

  const ClearAllLabel: string := "Clear all todos"

  /** The label naming a count of ticked to-dos (`Clear ${n} todo(s) selected`):
      the prefix "Clear ", then the digits of `n` with no leading zero, then the
      suffix " todo(s) selected". It is never the "clear all" text. */
  function SelectedLabel(n: nat): (r: string)
    ensures r != ClearAllLabel
    ensures |r| > 6 + 17 && r[..6] == "Clear " && r[|r| - 17..] == " todo(s) selected"
    ensures AllDigits(r[6..|r| - 17]) && ParseDecimal(r[6..|r| - 17]) == n
    ensures r[6] == '0' ==> n == 0 && |r| == 6 + 1 + 17
  {
    var digits := DecimalString(n);
    var r := "Clear " + digits + " todo(s) selected";
    assert r[6] == digits[0] && ClearAllLabel[6] == 'a';
    assert r[6..|r| - 17] == digits;
    ParseDecimalString(n);
    r
  }

  /** The toolbar delete button's label. It reads "Clear all todos" exactly
      when everything in view is ticked or nothing is; otherwise it names the
      number of ticked to-dos in view, which is then strictly between zero
      and the size of the view. */
  function ToolbarLabel(todos: seq<Todo>, selectedItemIds: seq<string>, showing: Showing): (text: string)
    ensures text == ClearAllLabel <==>
              TickAllTodos(todos, selectedItemIds, showing) || ItemsSelectedAfterFilter(todos, selectedItemIds, showing) == []
    ensures text != ClearAllLabel ==>
              && text == SelectedLabel(|ItemsSelectedAfterFilter(todos, selectedItemIds, showing)|)
              && 0 < |ItemsSelectedAfterFilter(todos, selectedItemIds, showing)| < |ItemsAfterFilter(todos, showing)|
  {
    var selected := ItemsSelectedAfterFilter(todos, selectedItemIds, showing);
    if TickAllTodos(todos, selectedItemIds, showing) || |selected| == 0 then ClearAllLabel
    else SelectedLabel(|selected|)
  }

  /** Whenever the label says "Clear all todos", the button deletes every
      to-do in view; whenever it names a count, it deletes exactly the ticked
      to-dos in view, and the count is the number of ids it sends. */
  lemma {:induction false} LabelMatchesDeleteTargets(todos: seq<Todo>, selectedItemIds: seq<string>, showing: Showing)
    ensures ToolbarLabel(todos, selectedItemIds, showing) == ClearAllLabel ==>
              DeleteTargets(todos, selectedItemIds, showing) == Ids(ItemsAfterFilter(todos, showing))
    ensures ToolbarLabel(todos, selectedItemIds, showing) != ClearAllLabel ==>
              && DeleteTargets(todos, selectedItemIds, showing) == Ids(ItemsSelectedAfterFilter(todos, selectedItemIds, showing))
              && ToolbarLabel(todos, selectedItemIds, showing) == SelectedLabel(|DeleteTargets(todos, selectedItemIds, showing)|)
  {
    if TickAllTodos(todos, selectedItemIds, showing) {
      TickAllDeletesWholeView(todos, selectedItemIds, showing);
    }
  }

  /** The check-all box: absent while the view is empty, otherwise shown and
      checked exactly when every visible to-do is ticked. */
  function CheckAllBox(todos: seq<Todo>, selectedItemIds: seq<string>, showing: Showing): (box: Option<bool>)
    ensures box.Some? <==> ItemsAfterFilter(todos, showing) != []
    ensures box == Some(true) <==>
              && ItemsAfterFilter(todos, showing) != []
              && forall t :: t in ItemsAfterFilter(todos, showing) ==> t.id in selectedItemIds
  {
    if |ItemsAfterFilter(todos, showing)| > 0 then Some(TickAllTodos(todos, selectedItemIds, showing)) else None
  }
}
