/**
  The client data cache of app/contexts/TodoContext.tsx: the fetched list,
  the filter and sort settings, the loading flag and the last error; the
  derived `filteredTodos` view; and the operations that refresh the list
  or mutate on the server and then refresh.
 */
module TodoContext {
  import opened Todos
  import opened TodoOrder

  /** `FilterStatus`: every todo, or those of one status. */
  datatype FilterStatus = All | Only(status: Status)

  /** The filter predicate of TodoContext.tsx:122. */
  predicate Matches(f: FilterStatus, t: Todo)
  {
    f.All? || t.status == f.status
  }

  /** `todos.filter(...)`: keeps, in order, the todos the filter admits. */
  function Filter(todos: seq<Todo>, f: FilterStatus): (r: seq<Todo>)
    ensures |r| <= |todos|
    ensures forall i :: 0 <= i < |r| ==> Matches(f, r[i])
  {
    if todos == [] then []
    else if Matches(f, todos[0]) then [todos[0]] + Filter(todos[1..], f)
    else Filter(todos[1..], f)
  }

  /** The filter drops nothing it admits and duplicates nothing: each todo
      occurs in the result exactly as often as in `todos` when the filter
      admits it, and not at all otherwise. */
  lemma {:induction false} FilterCounts(todos: seq<Todo>, f: FilterStatus)
    ensures forall t :: multiset(Filter(todos, f))[t] == if Matches(f, t) then multiset(todos)[t] else 0
  {
    if todos != [] {
      FilterCounts(todos[1..], f);
      assert todos == [todos[0]] + todos[1..];
    }
  }

  /** With `ALL` the filter keeps the list as it is. */
  lemma {:induction false} FilterAllKeepsAll(todos: seq<Todo>)
    ensures Filter(todos, All) == todos
  {
    if todos != [] {
      FilterAllKeepsAll(todos[1..]);
      assert todos == [todos[0]] + todos[1..];
    }
  }

  lemma FilterCons(x: Todo, rest: seq<Todo>, f: FilterStatus)
    ensures Filter([x] + rest, f) == (if Matches(f, x) then [x] else []) + Filter(rest, f)
  {
    assert ([x] + rest)[1..] == rest;
  }

  /** Filtering by status and picking one creation time commute. */
  lemma {:induction false} FilterAtTime(todos: seq<Todo>, f: FilterStatus, t: int)
    ensures AtTime(Filter(todos, f), t) == Filter(AtTime(todos, t), f)
  {
    if todos != [] {
      var x, rest := todos[0], todos[1..];
      assert todos == [x] + rest;
      FilterAtTime(rest, f, t);
      var keep := if Matches(f, x) && x.createdAt == t then [x] else [];
      calc {
        AtTime(Filter(todos, f), t);
        { FilterCons(x, rest, f); }
        AtTime((if Matches(f, x) then [x] else []) + Filter(rest, f), t);
        { AtTimeAppend(if Matches(f, x) then [x] else [], Filter(rest, f), t); AtTimeSingle(x, t); }
        keep + AtTime(Filter(rest, f), t);
      }
      calc {
        Filter(AtTime(todos, t), f);
        { AtTimeCons(x, rest, t); }
        Filter((if x.createdAt == t then [x] else []) + AtTime(rest, t), f);
        { if x.createdAt == t { FilterCons(x, AtTime(rest, t), f); } else { assert [] + AtTime(rest, t) == AtTime(rest, t); } }
        keep + Filter(AtTime(rest, t), f);
      }
    }
  }

  /** `filteredTodos` (TodoContext.tsx:119-130): filter, then sort the
      filter's fresh array by creation time. */
  function DeriveView(todos: seq<Todo>, f: FilterStatus, order: SortOrder): seq<Todo>
  {
    SortByCreatedAt(order, Filter(todos, f))
  }

  /** The view holds exactly the todos the filter admits, each as often as
      in `todos`, sorted by creation time in the chosen direction, and is no
      longer than `todos`. */
  lemma ViewIsSortedFilter(todos: seq<Todo>, f: FilterStatus, order: SortOrder)
    ensures var v := DeriveView(todos, f, order);
      && Sorted(order, v)
      && |v| <= |todos|
      && (forall t :: multiset(v)[t] == if Matches(f, t) then multiset(todos)[t] else 0)
      && (forall t :: t in v <==> t in todos && Matches(f, t))
  {
    var v := DeriveView(todos, f, order);
    FilterCounts(todos, f);
    forall t ensures t in v <==> t in todos && Matches(f, t) {
      assert t in v <==> multiset(v)[t] > 0;
      assert t in todos <==> multiset(todos)[t] > 0;
    }
  }

  /** With `ALL` the view is a reordering of the whole list. */
  lemma ViewOfAllIsPermutation(todos: seq<Todo>, order: SortOrder)
    ensures multiset(DeriveView(todos, All, order)) == multiset(todos)
  {
    FilterAllKeepsAll(todos);
  }

  /** Todos created at the same time appear in the view in their order in
      `todos` (ECMAScript's sort is stable). */
  lemma ViewKeepsTiesInListOrder(todos: seq<Todo>, f: FilterStatus, order: SortOrder, t: int)
    ensures AtTime(DeriveView(todos, f, order), t) == Filter(AtTime(todos, t), f)
  {
    SortIsStable(order, Filter(todos, f), t);
    FilterAtTime(todos, f, t);
  }

  /** The cache's state cells. */
  datatype CacheState = CacheState(
    todos: seq<Todo>,
    filterStatus: FilterStatus,
    sortOrder: SortOrder,
    isLoading: bool,
    error: Option<string>)

  /** The state on mount (TodoContext.tsx:48-52). */
  const Initial := CacheState([], All, Newest, false, None)

  /** The `Error` thrown for a non-ok list response. */
  const FetchFailedMessage: string := "TODOの取得に失敗しました"

  /** How the list request ends: the decoded list, a non-ok response, or a
      throw from `fetch` or `res.json()`. */
  datatype ListReply = Listed(data: seq<Todo>) | NotOk | Threw(thrown: Thrown)

  /** `fetchTodos` (TodoContext.tsx:54-71), from start to the end of its
      `finally`. A non-ok response throws an `Error` that the `catch` turns
      into the error message. */
  function AfterFetch(s: CacheState, reply: ListReply): CacheState
  {
    match reply
    case Listed(data) => s.(todos := data, isLoading := false, error := None)
    case NotOk => s.(isLoading := false, error := Some(CaughtMessage(ErrorObject(FetchFailedMessage))))
    case Threw(e) => s.(isLoading := false, error := Some(CaughtMessage(e)))
  }

  /** A fetch always settles with `isLoading` false and the filter and sort
      untouched. On success the list is the fetched one and there is no
      error; on failure the previous list stays and the error is set. */
  lemma FetchOutcome(s: CacheState, reply: ListReply)
    ensures var r := AfterFetch(s, reply);
      && !r.isLoading
      && r.filterStatus == s.filterStatus && r.sortOrder == s.sortOrder
      && (r.error.None? <==> reply.Listed?)
      && (reply.Listed? ==> r.todos == reply.data)
      && (!reply.Listed? ==> r.todos == s.todos)
      && (reply.NotOk? ==> r.error == Some(FetchFailedMessage))
  {
  }

  /** A failed fetch leaves what the user sees in the list alone. */
  lemma FailedFetchKeepsView(s: CacheState, reply: ListReply)
    requires !reply.Listed?
    ensures var r := AfterFetch(s, reply);
      DeriveView(r.todos, r.filterStatus, r.sortOrder)
        == DeriveView(s.todos, s.filterStatus, s.sortOrder)
  {
  }

  /** Fetching the same answer twice is the same as fetching it once. */
  lemma FetchIdempotent(s: CacheState, reply: ListReply)
    ensures AfterFetch(AfterFetch(s, reply), reply) == AfterFetch(s, reply)
  {
  }

  /** The three mutations of the cache. */
  datatype Mutation = Create | Update | Delete

  /** The message thrown for a non-ok response with an empty body. */
  function DefaultMessage(m: Mutation): string
  {
    match m
    case Create => "TODOの作成に失敗しました"
    case Update => "TODOの更新に失敗しました"
    case Delete => "TODOの削除に失敗しました"
  }

  /** How a mutation request ends: a response with its `ok` flag and body
      text, or a throw from `fetch` itself. */
  datatype MutationReply = Responded(ok: bool, text: string) | Unreachable(thrown: Thrown)

  /** `createTodo`, `updateTodo` and `deleteTodo` (TodoContext.tsx:73-117):
      the state afterwards and the value the returned promise rejects with,
      if it does. `refresh` is how the follow-up `fetchTodos` ends. */
  function AfterMutation(s: CacheState, m: Mutation, reply: MutationReply, refresh: ListReply)
    : (CacheState, Option<Thrown>)
  {
    match reply
    case Unreachable(e) => (s, Some(e))
    case Responded(ok, text) =>
      if ok then (AfterFetch(s, refresh), None)
      else (s, Some(ErrorObject(if text == "" then DefaultMessage(m) else text)))
  }

  /** A mutation that is not answered ok rejects and leaves the cache alone:
      no refresh happens. A non-ok response rejects with an `Error` whose
      message is the response text, or the mutation's default message when
      the text is empty, so the message is never empty. */
  lemma FailedMutationChangesNothing(s: CacheState, m: Mutation, reply: MutationReply, refresh: ListReply)
    requires !(reply.Responded? && reply.ok)
    ensures AfterMutation(s, m, reply, refresh).0 == s
    ensures AfterMutation(s, m, reply, refresh).1.Some?
    ensures reply.Responded? ==>
      var e := AfterMutation(s, m, reply, refresh).1.value;
      && e.ErrorObject?
      && e.message == (if reply.text == "" then DefaultMessage(m) else reply.text)
      && e.message != ""
  {
  }

  /** A mutation answered ok resolves and is followed by exactly one full
      refresh. */
  lemma SuccessfulMutationRefreshes(s: CacheState, m: Mutation, text: string, refresh: ListReply)
    ensures AfterMutation(s, m, Responded(true, text), refresh) == (AfterFetch(s, refresh), None)
  {
  }

  /** After a successful mutation and refresh, the cache holds the server's
      list whatever it held before: two caches with the same settings end
      in the same state. */
  lemma MutationResynchronises(s1: CacheState, s2: CacheState, m: Mutation, text: string, data: seq<Todo>)
    requires s1.filterStatus == s2.filterStatus && s1.sortOrder == s2.sortOrder
    ensures AfterMutation(s1, m, Responded(true, text), Listed(data)).0
         == AfterMutation(s2, m, Responded(true, text), Listed(data)).0
    ensures AfterMutation(s1, m, Responded(true, text), Listed(data)).0.todos == data
  {
  }

  /** A partial todo for `updateTodo`: the keys the edit page sends. */
  datatype TodoPatch = TodoPatch(title: Option<JsText.JsString>, content: Option<JsText.JsString>, status: Option<Status>)

  /** The provider's React state, one field per `useState` cell. */
  class TodoProvider {
    var todos: seq<Todo>
    var filterStatus: FilterStatus
    var sortOrder: SortOrder
    var isLoading: bool
    var error: Option<string>

    function State(): CacheState
      reads this
    {
      CacheState(todos, filterStatus, sortOrder, isLoading, error)
    }

    constructor ()
      ensures State() == Initial
    {
      todos, filterStatus, sortOrder := [], All, Newest;
      isLoading, error := false, None;
    }

    /** `filteredTodos`: computed from the state without changing it. */
    function FilteredTodos(): (r: seq<Todo>)
      reads this
      ensures Sorted(sortOrder, r)
      ensures forall t :: t in r <==> t in todos && Matches(filterStatus, t)
      ensures forall t :: multiset(r)[t] == if Matches(filterStatus, t) then multiset(todos)[t] else 0
    {
      ViewIsSortedFilter(todos, filterStatus, sortOrder);
      DeriveView(todos, filterStatus, sortOrder)
    }

    /** `fetchTodos`: `reply` is how the list request ends. */
    method FetchTodos(reply: ListReply)
      modifies this
      ensures State() == AfterFetch(old(State()), reply)
    {
      isLoading := true;
      error := None;
      match reply {
        case Listed(data) =>
          todos := data;
        case NotOk =>
          error := Some(CaughtMessage(ErrorObject(FetchFailedMessage)));
        case Threw(e) =>
          error := Some(CaughtMessage(e));
      }
      isLoading := false;
    }

    /** The shared shape of the three mutations: throw on a failed request,
        refresh on an ok one. */
    method Mutate(m: Mutation, reply: MutationReply, refresh: ListReply) returns (thrown: Option<Thrown>)
      modifies this
      ensures (State(), thrown) == AfterMutation(old(State()), m, reply, refresh)
    {
      match reply {
        case Unreachable(e) =>
          return Some(e);
        case Responded(ok, text) =>
          if !ok {
            var msg := if text == "" then DefaultMessage(m) else text;
            return Some(ErrorObject(msg));
          }
      }
      FetchTodos(refresh);
      thrown := None;
    }

    /** `createTodo(data)`: `data` is the request body, which reaches the
        model only through `reply` and `refresh`. */
    method CreateTodo(data: TodoFields, reply: MutationReply, refresh: ListReply) returns (thrown: Option<Thrown>)
      modifies this
      ensures (State(), thrown) == AfterMutation(old(State()), Create, reply, refresh)
    {
      thrown := Mutate(Create, reply, refresh);
    }

    /** `updateTodo(id, data)`. */
    method UpdateTodo(id: int, data: TodoPatch, reply: MutationReply, refresh: ListReply) returns (thrown: Option<Thrown>)
      modifies this
      ensures (State(), thrown) == AfterMutation(old(State()), Update, reply, refresh)
    {
      thrown := Mutate(Update, reply, refresh);
    }

    /** `deleteTodo(id)`. */
    method DeleteTodo(id: int, reply: MutationReply, refresh: ListReply) returns (thrown: Option<Thrown>)
      modifies this
      ensures (State(), thrown) == AfterMutation(old(State()), Delete, reply, refresh)
    {
      thrown := Mutate(Delete, reply, refresh);
    }

    /** `setFilterStatus`: changes the filter, and so the view, only. */
    method SetFilterStatus(f: FilterStatus)
      modifies this
      ensures State() == old(State()).(filterStatus := f)
    {
      filterStatus := f;
    }

    /** `setSortOrder`: changes the sort order, and so the view, only. */
    method SetSortOrder(order: SortOrder)
      modifies this
      ensures State() == old(State()).(sortOrder := order)
    {
      sortOrder := order;
    }
  }
}
