# mana-do to-do page, modelled in Dafny

This project models the page controller of the mana-do to-do list
(`src/ToDoPage.tsx`). The page reads the store's to-do list and the ticked
ids. It keeps two pieces of state of its own: the filter tab (`ALL`, `ACTIVE`,
`COMPLETED`) and the id of the to-do open in the edit dialog (`""` when the
dialog is closed). From these it derives the filtered list, the ticked part of
that list, the "all ticked" flag, the batch-delete target, the toolbar label
and the check-all box. Five handlers call the service: the mount effect,
`handSubmit`, `onDeleteAllTodo`, `onDeleteTodo` and `handleConfirm`. Three
dispatch with no service call: `onUpdateTodoStatus`, `onTickTodo` and
`onTickAllTodos`. The edit-dialog open and close handlers and the filter
buttons only set page state.

Files:

- `seqs.dfy` (`Seqs`): an order-preserving filter (what `Array.prototype.filter`
  computes) and the subsequence relation, with lemmas.
- `decimal.dfy` (`Decimal`): how a template literal renders the count in the
  toolbar label, and how that rendering is read back.
- `todo_model.dfy` (`TodoModel`): the to-do record, its status, the filter tab,
  the store actions and the service requests as datatypes.
- `view.dfy` (`TodoView`): the derived values as functions of the store state
  and the filter tab, with their lemmas.
- `page.dfy` (`TodoPage`): the class `ToDoPage`. Its fields are the store state
  it reads, `showing`, `todoId`, a log of dispatched actions and a log of
  service requests. Its methods are the handlers.

The main lemma is `TodoView.LabelMatchesDeleteTargets`. Whenever the button
reads "Clear all todos", the batch delete targets every id in the current view.
Whenever the button names a count, it deletes exactly the ticked ids in view,
and the count it names is the number of ids sent.

Service responses are parameters of the handler that awaits them: a boolean for
`batchDelete`, `deleteTodo` and `update`, the created item for `createTodo`,
and an optional list for `getTodos`. The reducer is not modelled. The page
records which action it dispatches with which arguments. The store state the
page reads is an input, supplied at construction and by `Rerender`.

Only three handlers wait for the service to report success before they
dispatch: `onDeleteAllTodo`, `onDeleteTodo` and `handleConfirm`. The other
handlers that dispatch do so without any check:
- `handSubmit` (`src/ToDoPage.tsx:46-49`) dispatches `createTodo` with whatever the service returned.
- `onUpdateTodoStatus` (`src/ToDoPage.tsx:51-53`), `onTickTodo` and `onTickAllTodos` (`src/ToDoPage.tsx:78-84`) dispatch with no service call at all.
- The mount effect (`src/ToDoPage.tsx:102-107`) dispatches `setTodos(resp || [])` whatever the response is.

The model does the same.

## Model

| member | source | states |
|---|---|---|
| `Seqs.Filter` | src/ToDoPage.tsx:34 | the filter is never longer than its input; every kept element satisfies the predicate; an element is kept iff it is in the input and satisfies the predicate |
| `Seqs.FilterIsSubsequence` | src/ToDoPage.tsx:38-40 | filtering keeps the relative order of the kept elements (the result is a subsequence of the input) |
| `Seqs.FilterMultiplicity` | src/ToDoPage.tsx:34 | every copy of a matching element is kept and every copy of a non-matching one is dropped |
| `Seqs.FilterKeepsAllIff` | src/ToDoPage.tsx:43-44 | a filter keeps the length of its input iff every element matches iff it returns its input unchanged |
| `Seqs.SubsequenceMembers` | src/ToDoPage.tsx:57-63 | a subsequence contains no element its super-sequence lacks |
| `Seqs.SubsequenceReflexive` | src/ToDoPage.tsx:31-32 | every list is a subsequence of itself (the "ALL" view keeps the order trivially) |
| `TodoModel.OtherFields` | src/ToDoPage.tsx:94 | splitting the id off a to-do loses nothing: the id and the other fields rebuild the same to-do |
| `TodoView.Ids` | src/ToDoPage.tsx:60-62 | one id per item, in item order |
| `TodoView.IdsPreserveSubsequence` | src/ToDoPage.tsx:57-63 | the ids of a subsequence of items are a subsequence of the items' ids |
| `TodoView.ItemsAfterFilter` | src/ToDoPage.tsx:30-35 | under "ALL" the view is the whole list; otherwise every element has the filter's status; a to-do is in view iff it is in the list and the filter lets it through |
| `TodoView.ItemsAfterFilterKeepsOrder` | src/ToDoPage.tsx:30-35 | the view is a subsequence of the list, and every copy of each visible to-do is kept while hidden ones are dropped |
| `TodoView.ItemsSelectedAfterFilter` | src/ToDoPage.tsx:37-41 | no longer than the view; a to-do is in it iff it is in the list, visible under the filter and its id is ticked, so a ticked to-do outside the filter never appears |
| `TodoView.ItemsSelectedAfterFilterKeepsOrder` | src/ToDoPage.tsx:37-41 | the ticked part of the view is a subsequence of the view |
| `TodoView.ItemsSelectedAfterFilterMultiplicity` | src/ToDoPage.tsx:37-41 | the ticked part keeps every copy of a ticked to-do in view and drops every unticked one |
| `TodoView.TickAllTodos` | src/ToDoPage.tsx:43-44 | the flag holds iff every to-do in view is ticked, iff the ticked part equals the view; it holds when the view is empty |
| `TodoView.DeleteTargets` | src/ToDoPage.tsx:55-63 | the targets are a subsequence of the view's ids; when something in view is ticked they are exactly the ids of the ticked to-dos in view, in view order; when nothing in view is ticked they are all the view's ids |
| `TodoView.TickAllDeletesWholeView` | src/ToDoPage.tsx:57-63 | when the "all ticked" flag holds, the batch delete targets exactly the view's ids |
| `TodoView.SelectedLabel` | src/ToDoPage.tsx:182 | the count label starts with `Clear ` and ends with ` todo(s) selected`; between them are decimal digits that read back as the count, with a leading '0' only for the single digit of zero; it is never the text "Clear all todos" |
| `TodoView.ToolbarLabel` | src/ToDoPage.tsx:180-182 | the label reads "Clear all todos" iff the flag holds or nothing in view is ticked; otherwise it is `Clear N todo(s) selected` with N the number of ticked to-dos in view, and 0 < N < the size of the view |
| `TodoView.LabelMatchesDeleteTargets` | src/ToDoPage.tsx:176-182 | when the label says "Clear all todos" the button deletes every id in view; when it names a count it deletes exactly the ids of the ticked to-dos in view, and the count is the number of ids sent |
| `TodoView.CheckAllBox` | src/ToDoPage.tsx:117-126 | the check-all box is rendered iff the view is non-empty, and it is checked iff in addition every to-do in view is ticked |
| `Decimal.DecimalString` | src/ToDoPage.tsx:182 | a count renders as a non-empty string of digits that starts with '0' only for zero (then it is "0") |
| `Decimal.ParseDecimalString` | src/ToDoPage.tsx:182 | reading the rendered digits back gives the count |
| `Decimal.DecimalStringInjective` | src/ToDoPage.tsx:182 | different counts render as different texts |
| `TodoPage.ToDoPage.constructor` | src/ToDoPage.tsx:23-28 | on mount the page reads the store's initial state, the filter is "ALL", the edit dialog is closed, and nothing has been dispatched or requested |
| `TodoPage.ToDoPage.Rerender` | src/ToDoPage.tsx:23-26 | the page reads whatever state the reducer produced; its own filter, dialog and logs are untouched |
| `TodoPage.ToDoPage.SetShowing` | src/ToDoPage.tsx:127-156 | a filter button sets the filter tab and nothing else |
| `TodoPage.ToDoPage.Load` | src/ToDoPage.tsx:102-107 | one `getTodos` request, then `setTodos` with the response, or with the empty list when the response is absent |
| `TodoPage.ToDoPage.HandSubmit` | src/ToDoPage.tsx:46-49 | one `createTodo` request with the content, then `createTodo` with the returned item |
| `TodoPage.ToDoPage.OnUpdateTodoStatus` | src/ToDoPage.tsx:51-53 | `updateTodoStatus(id, status)` is dispatched straight away with no service request |
| `TodoPage.ToDoPage.OnDeleteAllTodo` | src/ToDoPage.tsx:55-69 | one `batchDelete` request with the delete targets; `deleteTodos` with exactly those ids is dispatched iff the service reports success, and nothing is dispatched otherwise |
| `TodoPage.ToDoPage.OnDeleteTodo` | src/ToDoPage.tsx:71-76 | one `deleteTodo(id)` request; `deleteTodos([id])` is dispatched iff the service reports success |
| `TodoPage.ToDoPage.OnTickTodo` | src/ToDoPage.tsx:78-80 | `toggleTickTodo(id, checked)` is dispatched with no service request |
| `TodoPage.ToDoPage.OnTickAllTodos` | src/ToDoPage.tsx:82-84 | `toggleTickAllTodos(checked)` is dispatched with the box's new value |
| `TodoPage.ToDoPage.EditDialog` | src/ToDoPage.tsx:186-192 | the edit dialog is absent while `todoId` is the empty string, and otherwise open on `todoId` |
| `TodoPage.ToDoPage.HandleOpenEditTodo` | src/ToDoPage.tsx:86-88 | `todoId` becomes the given id, and the dialog is open on that id, or absent when the id is empty |
| `TodoPage.ToDoPage.HandleCloseEditTodo` | src/ToDoPage.tsx:89-91 | `todoId` becomes `""` and the dialog is hidden |
| `TodoPage.ToDoPage.HandleConfirm` | src/ToDoPage.tsx:93-100 | one `update` request with the id and the other fields; on success `updateTodo` with the same arguments is dispatched and the dialog closes; on failure nothing is dispatched and `todoId` is unchanged |

## Left out

- Rendering, CSS classes and aria labels (`src/ToDoPage.tsx:109-194`), except the label text, the check-all box and the dialog guard, which are modelled.
- `TodoItem`, `TodoForm` and `EditTodo` are not part of this model. The model takes their callbacks' arguments as method parameters.
- The reducer and the action creators (`store/reducer`, `store/actions`) are not part of this model. Actions are recorded as values, and the model says nothing about how they change the store.
- The service client (`service`) is not part of this model. Its responses are parameters. A rejected promise stops a handler before it dispatches. For delete and update that looks the same as a falsy result. For create and load the model does not cover it: `HandSubmit` and `Load` always dispatch.
- Asynchrony: handlers run to completion one at a time. Two requests in flight at once, and responses that arrive after unmount, are not modelled.
- React hooks (`useReducer`, `useState`, `useMemo`, `useEffect`): memoized values are plain functions of their inputs, and the mount effect is the `Load` method, which a caller runs once.
- The `Todo` type (`models/todo`) is not part of this model. A to-do is taken to have exactly `id`, `content` and `status`, so `otherFields` is `content` and `status`.
- `selectedItemIds` is an array in the source and a sequence here. Membership (`indexOf(...) >= 0`) is the only thing the page uses.
