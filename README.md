# TODO app core in Dafny

A Dafny model of the core of a small Next.js TODO application:

- the create/edit form (`components/TodoForm.tsx`): four checks on the
  title and content in a fixed order, each with its own message; then the
  page's `onSubmit` callback, guarded by an `isSubmitting` flag, with a
  thrown value turned into the form's error message;
- the client-side cache (`app/contexts/TodoContext.tsx`): the list as last
  fetched, a status filter and a sort order; the derived `filteredTodos`
  view (filter, then a stable sort by creation time); `fetchTodos` with its
  loading flag and error message; `createTodo`, `updateTodo` and
  `deleteTodo`, which either reject with an error or refresh the whole list;
- the collection endpoint (`app/api/todos/route.ts`): `GET` lists every
  stored todo newest first or answers 500; `POST` checks the title and then
  the content (400 on failure), defaults a missing status to `NOT_STARTED`,
  inserts a row under a fresh id and answers 201 with it, or 500 when the
  body cannot be read or the store fails.

Files and modules:

| file | module | contents |
|---|---|---|
| `js_text.dfy` | `JsText` | UTF-16 strings and ECMAScript `String.prototype.trim` |
| `todos.dfy` | `Todos` | the `Todo` record, statuses, thrown values and the client's catch message |
| `todo_order.dfy` | `TodoOrder` | the creation-time comparator and a stable sort, with sortedness, permutation, stability and uniqueness proofs |
| `todo_form.dfy` | `TodoForm` | the validation chain, the form state, and class `Form` with `HandleSubmit` |
| `todo_context.dfy` | `TodoContext` | filter, derived view, fetch and mutation state changes, and class `TodoProvider` |
| `todo_api.dfy` | `TodoApi` | request-body guards, the todo table (class `TodoTable`) and the `Get`/`Post` handlers |
| `client_server.dfy` | `ClientServer` | how the form, the endpoint and the cache fit together |

Strings are sequences of UTF-16 code units, so `.length` is the number of
code units, as in JavaScript. Timestamps are the integers that
`new Date(createdAt).getTime()` yields. Every state-changing operation is
specified by a pure function of the old state and of what the outside world
answered (`AfterSubmit`, `AfterFetch`, `AfterMutation`); each class method
ensures that its new state is that function's value, and the lemmas state
what those functions promise.

Two points where the code is less obvious than the app's intent:

- A required title or content is meant not to be blank. The form trims
  before its required checks (`TodoForm.tsx:33`, `:41`), but `POST` does
  not (`route.ts:21`, `:24`): every all-whitespace title of 1 to 50 code
  units is stored when it reaches the endpoint directly
  (`ClientServer.ServerAcceptsWhatFormRefuses`).
- The order of todos with equal timestamps in the view is not something
  the app relies on. ECMAScript's `Array.prototype.sort` is stable, so the
  model keeps ties in list order and proves it (`TodoOrder.SortIsStable`).

## Model

| member | source | states |
|---|---|---|
| JsText.SkipLeading | components/TodoForm.tsx:33 | the start of the trimmed slice: every unit before it is whitespace, and the unit at it (if any) is not |
| JsText.SkipTrailing | components/TodoForm.tsx:33 | the end of the trimmed slice: every unit from it to the end is whitespace, and the unit before it (when the slice is not empty) is not |
| JsText.Trim | components/TodoForm.tsx:33 | `s.trim()` is the slice of `s` with only whitespace and line terminators outside it, and the slice neither starts nor ends with one, so exactly those are removed |
| JsText.BlankIffAllTrimmable | components/TodoForm.tsx:33 | `s.trim()` is empty exactly when every code unit of `s` is whitespace or a line terminator |
| TodoForm.Validate | components/TodoForm.tsx:33-48 | no result exactly when all four checks pass; otherwise a failing check all of whose predecessors in the chain pass |
| TodoForm.ReportsFirstFailure | components/TodoForm.tsx:33-48 | when check k fails and every earlier one passes, check k is the one reported |
| TodoForm.WhitespaceTitleRejected | components/TodoForm.tsx:33-36 | an empty or whitespace-only title is refused as "title required", whatever the content |
| TodoForm.AcceptedBounds | components/TodoForm.tsx:33-48 | accepted input has a 1–50 unit title and a 1–100 unit content, each with a non-whitespace unit |
| TodoForm.InitialState | components/TodoForm.tsx:21-27 | no error, not submitting; fields from the initial values when given, else empty with `NOT_STARTED` |
| TodoForm.CallbackOnlyWhenValid | components/TodoForm.tsx:29-52 | `onSubmit` is called exactly when every check passes, with the title, content and status as typed |
| TodoForm.RefusalShowsFirstFailure | components/TodoForm.tsx:31-48 | a refused submit shows the first failing check's message, calls nothing and changes nothing else |
| TodoForm.CallbackSettles | components/TodoForm.tsx:50-61 | after the callback the form is not submitting; the error is cleared on success and is the caught message on failure |
| TodoForm.SubmitKeepsFields | components/TodoForm.tsx:29-62 | a submit never changes the title, content or status |
| TodoForm.Form.constructor | components/TodoForm.tsx:21-27 | the new form's state is `InitialState` of the initial values |
| TodoForm.Form.HandleSubmit | components/TodoForm.tsx:29-62 | the new state and the callback's argument are those of `AfterSubmit`; the flag is set while the callback runs |
| TodoOrder.CompareMeansInOrder | app/contexts/TodoContext.tsx:124-129 | the comparator is non-positive exactly when the pair is in the chosen creation-time order |
| TodoOrder.InsertionPoint | app/contexts/TodoContext.tsx:124-129 | the insertion point lies after every element comparing before the new one and at the first that does not |
| TodoOrder.Insert | app/contexts/TodoContext.tsx:124-129 | inserting adds exactly one element and keeps a sorted sequence sorted |
| TodoOrder.SortByCreatedAt | app/contexts/TodoContext.tsx:124-129 | the result is sorted in the chosen direction and is a permutation of the input |
| TodoOrder.SortIsStable | app/contexts/TodoContext.tsx:124-129 | todos with equal creation time keep their input order |
| TodoOrder.StableSortIsUnique | app/contexts/TodoContext.tsx:124-129 | two sorted permutations of each other that agree on the order within every timestamp are equal, so any stable sort gives this result |
| TodoOrder.SortingSortedIsIdentity | app/contexts/TodoContext.tsx:124-129 | sorting an already sorted list returns it unchanged |
| TodoContext.Filter | app/contexts/TodoContext.tsx:120-123 | the result is no longer than the input and every element passes the filter |
| TodoContext.FilterCounts | app/contexts/TodoContext.tsx:120-123 | each todo occurs in the result as often as in the input when it passes the filter, else not at all |
| TodoContext.FilterAllKeepsAll | app/contexts/TodoContext.tsx:122 | with `ALL` the filter returns the list unchanged |
| TodoContext.FilterAtTime | app/contexts/TodoContext.tsx:120-123 | filtering keeps the relative order of the todos of each timestamp |
| TodoContext.ViewIsSortedFilter | app/contexts/TodoContext.tsx:119-130 | the view is sorted, holds exactly the todos passing the filter with their multiplicities, and is no longer than the list |
| TodoContext.ViewOfAllIsPermutation | app/contexts/TodoContext.tsx:119-130 | with `ALL` the view is a reordering of the whole list |
| TodoContext.ViewKeepsTiesInListOrder | app/contexts/TodoContext.tsx:119-130 | todos created at the same time appear in the view in list order |
| TodoContext.FetchOutcome | app/contexts/TodoContext.tsx:54-71 | a fetch ends not loading with filter and sort untouched; on success the list is replaced and the error cleared; on failure the list stays and the error is set, with the fixed message for a non-ok answer |
| TodoContext.FailedFetchKeepsView | app/contexts/TodoContext.tsx:54-71 | a failed fetch leaves the derived view unchanged |
| TodoContext.FetchIdempotent | app/contexts/TodoContext.tsx:54-71 | fetching the same answer twice equals fetching it once |
| TodoContext.FailedMutationChangesNothing | app/contexts/TodoContext.tsx:73-117 | a mutation not answered ok rejects, leaves the cache unchanged, and a non-ok answer's message is its text or the default, never empty |
| TodoContext.SuccessfulMutationRefreshes | app/contexts/TodoContext.tsx:73-117 | a mutation answered ok resolves and is followed by exactly one refresh |
| TodoContext.MutationResynchronises | app/contexts/TodoContext.tsx:73-117 | after a successful mutation and refresh the cache holds the server's list, whatever it held before |
| TodoContext.TodoProvider.constructor | app/contexts/TodoContext.tsx:48-52 | the cache starts empty, `ALL`, `NEWEST`, not loading, no error |
| TodoContext.TodoProvider.FilteredTodos | app/contexts/TodoContext.tsx:119-130 | the view is sorted by the current order and holds exactly the todos passing the current filter |
| TodoContext.TodoProvider.FetchTodos | app/contexts/TodoContext.tsx:54-71 | the new state is `AfterFetch` of the old state and the reply |
| TodoContext.TodoProvider.Mutate | app/contexts/TodoContext.tsx:73-117 | the new state and the rejection are those of `AfterMutation` |
| TodoContext.TodoProvider.CreateTodo | app/contexts/TodoContext.tsx:73-87 | the new state and the rejection are those of `AfterMutation` for a create |
| TodoContext.TodoProvider.UpdateTodo | app/contexts/TodoContext.tsx:89-103 | the new state and the rejection are those of `AfterMutation` for an update |
| TodoContext.TodoProvider.DeleteTodo | app/contexts/TodoContext.tsx:105-117 | the new state and the rejection are those of `AfterMutation` for a delete |
| TodoContext.TodoProvider.SetFilterStatus | app/contexts/TodoContext.tsx:49 | only the filter changes |
| TodoContext.TodoProvider.SetSortOrder | app/contexts/TodoContext.tsx:50 | only the sort order changes |
| TodoApi.TitleRejected | app/api/todos/route.ts:21 | the title guard refuses exactly what is not a string of 1 to 50 code units |
| TodoApi.ContentRejected | app/api/todos/route.ts:24 | the content guard refuses exactly what is not a string of 1 to 100 code units |
| TodoApi.WithDefault | app/api/todos/route.ts:32 | only a missing or null status becomes `NOT_STARTED` |
| TodoApi.PlanCreate | app/api/todos/route.ts:21-33 | a bad title gives 400 "Invalid title", else a bad content 400 "Invalid content"; otherwise the row keeps title and content as sent and the defaulted status |
| TodoApi.TitleCheckedFirst | app/api/todos/route.ts:21-26 | when both fields are bad the title's error is returned |
| TodoApi.TodoTable.Create | app/api/todos/route.ts:28-34 | the new row has a fresh id, the given fields and both timestamps equal to the clock; no other row changes |
| TodoApi.TodoTable.FindManyNewestFirst | app/api/todos/route.ts:6-8 | the list holds every row exactly once, newest first |
| TodoApi.Get | app/api/todos/route.ts:4-14 | 500 "Failed to fetch todos" when the store fails, else 200 with every row newest first |
| TodoApi.Post | app/api/todos/route.ts:16-41 | 500 for an unreadable body or failed insert, the plan's 400 for a bad field, both with the table unchanged; else 201 with the new row, stored under a fresh id |
| ClientServer.FormAcceptedIsServerAccepted | app/api/todos/route.ts:21-33 | whatever the form submits is accepted by the endpoint with title and content unchanged |
| ClientServer.ServerAcceptsWhatFormRefuses | app/api/todos/route.ts:21-23 | the endpoint does not trim: every all-whitespace title of 1 to 50 units is refused by the form as "title required" but accepted by the endpoint unchanged |
| ClientServer.ServedListingShownAsServed | app/contexts/TodoContext.tsx:119-130 | a listing served by `GET`, fetched into a fresh cache, is shown in exactly the served order |
| ClientServer.RefreshedTodoShownIffMatches | app/contexts/TodoContext.tsx:73-130 | after a successful mutation a todo in the refreshed list is shown exactly when it passes the current filter |

## Left out

- Rendering (JSX, the `maxLength` attributes of the inputs, the status select) and the input handlers that only copy typed text into the fields.
- React scheduling: state updates are applied in program order, the intermediate `isLoading == true` and `isSubmitting == true` states are not observable in the model except through `HandleSubmit`'s `busy` result, and overlapping requests are not modelled.
- The initial `fetchTodos` call of the mount effect (`TodoContext.tsx:132-134`): its effect is `FetchTodos` applied to the initial state.
- `fetch`, `res.json()`, `res.text()` and `req.json()`: their results are parameters (`ListReply`, `MutationReply`, `Option<CreateBody>`); a failure of `res.text()` itself is not modelled.
- The database: `TodoTable` is a map with an id counter, and the store's failure is a parameter; which of several todos with equal creation time the store lists first is not modelled.
- TodoApi.TodoTable.FindManyNewestFirst: promises the newest-first order and that every row appears once, not a particular order among equal timestamps, which the store leaves unspecified.
- Dates: ISO strings and their parsing are replaced by integer timestamps, so an unparsable date (`NaN` in the comparator) is not modelled.
- JSON numbers are integers in `JsonValue`; fractional and `NaN` numbers are not modelled (they only matter for truthiness).
- The single-todo endpoints under `app/api/todos/[id]/route.ts` and the pages are not part of this model; `UpdateTodo` and `DeleteTodo` see them only through their replies.
- Logging with `console.error` on the server.
- TodoApi.Post: the database schema is not part of this model, so a status outside the three enum values is assumed to make the store's insert fail, which the handler answers with 500; the endpoint itself passes such a status through unchecked.
