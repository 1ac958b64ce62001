/** The page controller: the component's state (the store state it reads,
    the filter tab, the id in the edit dialog) and its event handlers. Each
    service response is a parameter of the handler that awaits it; what the
    page hands to the store is recorded in `dispatched` and what it asks of
    the service in `requests`, in order. */
module TodoPage {
  import opened TodoModel
  import opened TodoView

  /** The part of the store's state the page reads. */
  datatype StoreState = StoreState(todos: seq<Todo>, selectedItemIds: seq<string>)

  class ToDoPage {
    var todos: seq<Todo>
    var selectedItemIds: seq<string>
    var showing: Showing
    var todoId: string
    var dispatched: seq<Action>
    var requests: seq<ServiceCall>

    /** Mounting: the store starts from its initial state, the filter is
        "ALL" and the edit dialog is closed. */
    constructor (initial: StoreState)
      ensures todos == initial.todos && selectedItemIds == initial.selectedItemIds
      ensures showing == ShowAll && todoId == ""
      ensures dispatched == [] && requests == []
    {
      todos, selectedItemIds := initial.todos, initial.selectedItemIds;
      showing, todoId := ShowAll, "";
      dispatched, requests := [], [];
    }

    /** The edit dialog (`todoId && <EditTodo todoId={todoId} … />`): absent
        while `todoId` is the empty string, otherwise open on `todoId`. */
    function EditDialog(): (dialog: Option<string>)
      reads this
      ensures dialog == None <==> todoId == ""
      ensures dialog.Some? ==> dialog.value == todoId && dialog.value != ""
    {
      if todoId != "" then Some(todoId) else None
    }

    /** A render with the state the reducer produced. */
    method Rerender(state: StoreState)
      modifies this`todos, this`selectedItemIds
      ensures todos == state.todos && selectedItemIds == state.selectedItemIds
    {
      todos, selectedItemIds := state.todos, state.selectedItemIds;
    }

    /** One of the three filter buttons. */
    method SetShowing(tab: Showing)
      modifies this`showing
      ensures showing == tab
    {
      showing := tab;
    }

    /** The mount effect: fetch the list, then store the response, or the
        empty list when the response is absent. */
    method Load(resp: Option<seq<Todo>>)
      modifies this`requests, this`dispatched
      ensures requests == old(requests) + [GetTodosCall]
      ensures dispatched == old(dispatched) + [SetTodos(if resp.Some? then resp.value else [])]
    {
      requests := requests + [GetTodosCall];
      dispatched := dispatched + [SetTodos(resp.GetOr([]))];
    }

    /** `handSubmit`: create on the service, then store whatever item it
        returned; there is no check on the response. */
    method HandSubmit(content: string, item: Todo)
      modifies this`requests, this`dispatched
      ensures requests == old(requests) + [CreateTodoCall(content)]
      ensures dispatched == old(dispatched) + [CreateTodo(item)]
    {
      requests := requests + [CreateTodoCall(content)];
      dispatched := dispatched + [CreateTodo(item)];
    }

    /** `onUpdateTodoStatus`: dispatched straight away, with no service call. */
    method OnUpdateTodoStatus(id: string, status: TodoStatus)
      modifies this`dispatched
      ensures dispatched == old(dispatched) + [UpdateTodoStatus(id, status)]
    {
      dispatched := dispatched + [UpdateTodoStatus(id, status)];
    }

    /** `onDeleteAllTodo`: the ticked ids in view, or every id in view when
        none is ticked, are sent to the batch delete; the same ids are
        dispatched only when the service reports success. */
    method OnDeleteAllTodo(result: bool)
      modifies this`requests, this`dispatched
      ensures requests == old(requests) + [BatchDeleteCall(DeleteTargets(todos, selectedItemIds, showing))]
      ensures dispatched == old(dispatched) +
                if result then [DeleteTodos(DeleteTargets(todos, selectedItemIds, showing))] else []
    {
      var selected := ItemsSelectedAfterFilter(todos, selectedItemIds, showing);
      var ids := [];
      if |selected| > 0 {
        ids := Ids(selected);
      } else {
        ids := Ids(ItemsAfterFilter(todos, showing));
      }
      requests := requests + [BatchDeleteCall(ids)];
      if result {
        dispatched := dispatched + [DeleteTodos(ids)];
      }
    }

    /** `onDeleteTodo`: delete one to-do on the service, then dispatch `[id]`
        only on success. */
    method OnDeleteTodo(id: string, result: bool)
      modifies this`requests, this`dispatched
      ensures requests == old(requests) + [DeleteTodoCall(id)]
      ensures dispatched == old(dispatched) + if result then [DeleteTodos([id])] else []
    {
      requests := requests + [DeleteTodoCall(id)];
      if result {
        dispatched := dispatched + [DeleteTodos([id])];
      }
    }

    /** `onTickTodo`: a local dispatch, no service call. */
    method OnTickTodo(id: string, checked: bool)
      modifies this`dispatched
      ensures dispatched == old(dispatched) + [ToggleTickTodo(id, checked)]
    {
      dispatched := dispatched + [ToggleTickTodo(id, checked)];
    }

    /** `onTickAllTodos`: dispatches the check-all box's new checked value. */
    method OnTickAllTodos(checked: bool)
      modifies this`dispatched
      ensures dispatched == old(dispatched) + [ToggleTickAllTodos(checked)]
    {
      dispatched := dispatched + [ToggleTickAllTodos(checked)];
    }

    /** `handleOpenEditTodo`: opens the edit dialog on `id`. */
    method HandleOpenEditTodo(id: string)
      modifies this`todoId
      ensures todoId == id
      ensures EditDialog() == if id == "" then None else Some(id)
    {
      todoId := id;
    }

    /** `handleCloseEditTodo`: closes the edit dialog. */
    method HandleCloseEditTodo()
      modifies this`todoId
      ensures todoId == "" && EditDialog() == None
    {
      todoId := "";
    }

    /** `handleConfirm`: send the edited fields (everything but the id) to the
        service; only on success dispatch the same update and close the
        dialog. On failure nothing is dispatched and the dialog stays as it was. */
    method HandleConfirm(todo: Todo, result: bool)
      modifies this`requests, this`dispatched, this`todoId
      ensures requests == old(requests) + [UpdateCall(todo.id, OtherFields(todo))]
      ensures result ==> dispatched == old(dispatched) + [UpdateTodo(todo.id, OtherFields(todo))] && todoId == ""
      ensures !result ==> dispatched == old(dispatched) && todoId == old(todoId)
    {
      var id, otherFields := todo.id, OtherFields(todo);
      requests := requests + [UpdateCall(id, otherFields)];
      if result {
        dispatched := dispatched + [UpdateTodo(id, otherFields)];
        HandleCloseEditTodo();
      }
    }
  }
}
