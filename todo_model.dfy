/** The entities the page works with: the to-do record and its status, the
    page's filter value, the store actions the page dispatches and the
    service requests it issues. The reducer that applies the actions and the
    service that answers the requests are not part of this model. */
module TodoModel {

  /** `TodoStatus`: exactly two values. */
  datatype TodoStatus = Active | Completed

  /** A to-do item; `id` is assigned by the service. */
  datatype Todo = Todo(id: string, content: string, status: TodoStatus)

  /** Every field of a to-do except its id (the `otherFields` that an edit
      sends to the service). */
  datatype TodoFields = TodoFields(content: string, status: TodoStatus)

  /** The filter tab: `EnhanceTodoStatus`, a status or "ALL". */
  datatype Showing = ShowAll | ShowOnly(status: TodoStatus)

  /** Splits a to-do into its id and the rest, as `const { id, ...otherFields } = todo`. */
  function OtherFields(todo: Todo): (fields: TodoFields)
    ensures WithId(todo.id, fields) == todo
  {
    TodoFields(todo.content, todo.status)
  }

  /** Puts an id back together with the other fields. */
  function WithId(id: string, fields: TodoFields): (todo: Todo) {
    Todo(id, fields.content, fields.status)
  }

  /** The action creators the page imports from the store, as values: the page
      records which action it dispatches with which arguments. */
  datatype Action =
    | SetTodos(todos: seq<Todo>)
    | CreateTodo(item: Todo)
    | UpdateTodoStatus(id: string, status: TodoStatus)
    | DeleteTodos(ids: seq<string>)
    | ToggleTickTodo(id: string, checked: bool)
    | ToggleTickAllTodos(checked: bool)
    | UpdateTodo(id: string, fields: TodoFields)

  /** The service operations the page calls, with their arguments. */
  datatype ServiceCall =
    | GetTodosCall
    | CreateTodoCall(content: string)
    | UpdateCall(id: string, fields: TodoFields)
    | DeleteTodoCall(id: string)
    | BatchDeleteCall(ids: seq<string>)

  /** An absent (`null`/`undefined`) or present service response. */
  datatype Option<T> = None | Some(value: T) {
    function GetOr(default: T): T {
      match this
      case Some(x) => x
      case None => default
    }
  }
}
