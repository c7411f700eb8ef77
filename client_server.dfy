/**
  How the layers meet: what the form lets through, what the create endpoint
  then does with it, and how a list served by the list endpoint ends up in
  the client's view.
 */
module ClientServer {
  import opened JsText
  import opened Todos
  import opened TodoOrder
  import opened TodoForm
  import opened TodoContext
  import opened TodoApi

  /** Whatever the form submits, the create endpoint accepts unchanged:
      the form's checks are at least as strict as the server's. */
  lemma FormAcceptedIsServerAccepted(title: JsString, content: JsString, status: Status)
    requires Validate(title, content).None?
    ensures PlanCreate(CreateBody(Str(title), Str(content), Named(status)))
         == Accept(title, content, Named(status))
  {
    AcceptedBounds(title, content);
  }

  /** The converse fails: the server does not trim, so every title of 1 to
      50 code units that is all whitespace is refused by the form and
      stored by the endpoint. */
  lemma ServerAcceptsWhatFormRefuses(title: JsString, content: JsString, status: Status)
    requires 1 <= |title| <= TitleMaxLength && 1 <= |content| <= ContentMaxLength
    requires forall i :: 0 <= i < |title| ==> IsTrimmable(title[i])
    ensures Validate(title, content) == Some(TitleRequired)
    ensures PlanCreate(CreateBody(Str(title), Str(content), Named(status)))
         == Accept(title, content, Named(status))
  {
    WhitespaceTitleRejected(title, content);
  }

  /** A listing the endpoint serves, fetched into a fresh cache (no filter,
      newest first), is shown exactly in the order served. */
  lemma ServedListingShownAsServed(rows: map<int, Todo>, list: seq<Todo>)
    requires ListsNewestFirst(rows, list)
    ensures var s := AfterFetch(Initial, Listed(list));
      DeriveView(s.todos, s.filterStatus, s.sortOrder) == list
  {
    FilterAllKeepsAll(list);
    SortingSortedIsIdentity(Newest, list);
  }

  /** After a successful mutation, a todo present in the refreshed list is
      shown exactly when it passes the current filter. */
  lemma RefreshedTodoShownIffMatches(s: CacheState, m: Mutation, text: string, data: seq<Todo>, t: Todo)
    requires t in data
    ensures var s' := AfterMutation(s, m, Responded(true, text), Listed(data)).0;
      t in DeriveView(s'.todos, s'.filterStatus, s'.sortOrder) <==> Matches(s.filterStatus, t)
  {
    var s' := AfterMutation(s, m, Responded(true, text), Listed(data)).0;
    SuccessfulMutationRefreshes(s, m, text, Listed(data));
    ViewIsSortedFilter(s'.todos, s'.filterStatus, s'.sortOrder);
  }
}
