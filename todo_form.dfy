/**
  The create/edit form of components/TodoForm.tsx: an ordered chain of four
  checks on the title and content, then a call to the page's `onSubmit`
  callback guarded by the `isSubmitting` flag, with any exception turned into
  the form's `error`.
 */
module TodoForm {
  import opened JsText
  import opened Todos

  /** The four checks of `handleSubmit`, named by what they reject. */
  datatype FormCheck = TitleRequired | TitleTooLong | ContentRequired | ContentTooLong

  /** The order in which `handleSubmit` runs the checks. */
  const CheckOrder: seq<FormCheck> := [TitleRequired, TitleTooLong, ContentRequired, ContentTooLong]

  /** A check's place in `CheckOrder`. */
  function Rank(c: FormCheck): (k: nat)
    ensures k < |CheckOrder| && CheckOrder[k] == c
  {
    match c
    case TitleRequired => 0
    case TitleTooLong => 1
    case ContentRequired => 2
    case ContentTooLong => 3
  }

  /** The message shown when a check rejects the input. */
  function Message(c: FormCheck): string
  {
    match c
    case TitleRequired => "タイトルは必須です。"
    case TitleTooLong => "タイトルは50文字以内です。"
    case ContentRequired => "内容は必須です。"
    case ContentTooLong => "内容は100文字以内です。"
  }

  /** Whether check `c`, taken on its own, rejects the input: the required
      checks reject a string that trims to empty, the length checks one
      longer than the limit. */
  predicate Fails(c: FormCheck, title: JsString, content: JsString)
  {
    match c
    case TitleRequired => IsBlank(title)
    case TitleTooLong => |title| > TitleMaxLength
    case ContentRequired => IsBlank(content)
    case ContentTooLong => |content| > ContentMaxLength
  }

  /** The validation chain: no result when every check passes, otherwise
      the first check, in `CheckOrder`, that rejects the input. */
  function Validate(title: JsString, content: JsString): (r: Option<FormCheck>)
    ensures r.None? <==> forall c :: !Fails(c, title, content)
    ensures r.Some? ==> Fails(r.value, title, content)
    ensures r.Some? ==> forall k :: 0 <= k < Rank(r.value) ==> !Fails(CheckOrder[k], title, content)
  {
    if IsBlank(title) then assert Fails(TitleRequired, title, content); Some(TitleRequired)
    else if |title| > TitleMaxLength then assert Fails(TitleTooLong, title, content); Some(TitleTooLong)
    else if IsBlank(content) then assert Fails(ContentRequired, title, content); Some(ContentRequired)
    else if |content| > ContentMaxLength then assert Fails(ContentTooLong, title, content); Some(ContentTooLong)
    else None
  }

  /** Validation picks out exactly the first failing check: when check
      number `k` fails and all earlier ones pass, that is the reported one. */
  lemma ReportsFirstFailure(title: JsString, content: JsString, k: nat)
    requires k < |CheckOrder| && Fails(CheckOrder[k], title, content)
    requires forall j :: 0 <= j < k ==> !Fails(CheckOrder[j], title, content)
    ensures Validate(title, content) == Some(CheckOrder[k])
  {
    var r := Validate(title, content);
    assert r.Some?;
    var c := r.value;
    if Rank(c) < k {
      assert false;
    } else if Rank(c) > k {
      assert false;
    }
  }

  /** An empty or whitespace-only title is refused with the title-required
      message, whatever the content. */
  lemma WhitespaceTitleRejected(title: JsString, content: JsString)
    requires forall i :: 0 <= i < |title| ==> IsTrimmable(title[i])
    ensures Validate(title, content) == Some(TitleRequired)
  {
    BlankIffAllTrimmable(title);
  }

  /** Accepted input holds a non-blank title of 1 to 50 code units and a
      non-blank content of 1 to 100 code units. */
  lemma AcceptedBounds(title: JsString, content: JsString)
    requires Validate(title, content).None?
    ensures 1 <= |title| <= TitleMaxLength && 1 <= |content| <= ContentMaxLength
    ensures exists i :: 0 <= i < |title| && !IsTrimmable(title[i])
    ensures exists i :: 0 <= i < |content| && !IsTrimmable(content[i])
  {
    assert !Fails(TitleRequired, title, content) && !Fails(ContentRequired, title, content);
    BlankIffAllTrimmable(title);
    BlankIffAllTrimmable(content);
  }

  /** The form's state cells. */
  datatype FormState = FormState(
    title: JsString,
    content: JsString,
    status: Status,
    error: Option<string>,
    isSubmitting: bool)

  /** The state on mount: the initial values when the page supplies them
      (the edit page), else empty fields and `NOT_STARTED`. */
  function InitialState(initialValues: Option<TodoFields>): (s: FormState)
    ensures s.error == None && !s.isSubmitting
    ensures initialValues.None? ==> s.title == [] && s.content == [] && s.status == NotStarted
    ensures initialValues.Some? ==>
      TodoFields(s.title, s.content, s.status) == initialValues.value
  {
    match initialValues
    case None => FormState([], [], NotStarted, None, false)
    case Some(v) => FormState(v.title, v.content, v.status, None, false)
  }

  /** How the awaited `onSubmit` call ends. */
  datatype CallbackOutcome = Resolved | Rejected(thrown: Thrown)

  /** One `handleSubmit`, from the submit event to the end of its `finally`:
      the new state and the values `onSubmit` received, if it was called. */
  function AfterSubmit(s: FormState, outcome: CallbackOutcome): (FormState, Option<TodoFields>)
  {
    match Validate(s.title, s.content)
    case Some(c) => (s.(error := Some(Message(c))), None)
    case None =>
      var error := if outcome.Rejected? then Some(CaughtMessage(outcome.thrown)) else None;
      (s.(error := error, isSubmitting := false), Some(TodoFields(s.title, s.content, s.status)))
  }

  /** `AfterSubmit` when a check refuses the input. */
  lemma SubmitRefused(s: FormState, outcome: CallbackOutcome, c: FormCheck)
    requires Validate(s.title, s.content) == Some(c)
    ensures AfterSubmit(s, outcome) == (s.(error := Some(Message(c))), None)
  {
  }

  /** `AfterSubmit` when every check passes. */
  lemma SubmitAccepted(s: FormState, outcome: CallbackOutcome)
    requires Validate(s.title, s.content) == None
    ensures AfterSubmit(s, outcome)
      == (s.(error := if outcome.Rejected? then Some(CaughtMessage(outcome.thrown)) else None,
             isSubmitting := false),
          Some(TodoFields(s.title, s.content, s.status)))
  {
  }

  /** `onSubmit` is called exactly when all four checks pass, and it gets the
      fields as typed: untrimmed title and content, and the selected status. */
  lemma CallbackOnlyWhenValid(s: FormState, outcome: CallbackOutcome)
    ensures AfterSubmit(s, outcome).1.Some? <==> forall c :: !Fails(c, s.title, s.content)
    ensures AfterSubmit(s, outcome).1.Some? ==>
      AfterSubmit(s, outcome).1.value == TodoFields(s.title, s.content, s.status)
  {
  }

  /** A refused submit shows the first failing check's message, calls
      nothing, and leaves the fields and the submitting flag alone. */
  lemma RefusalShowsFirstFailure(s: FormState, outcome: CallbackOutcome, k: nat)
    requires k < |CheckOrder| && Fails(CheckOrder[k], s.title, s.content)
    requires forall j :: 0 <= j < k ==> !Fails(CheckOrder[j], s.title, s.content)
    ensures AfterSubmit(s, outcome) == (s.(error := Some(Message(CheckOrder[k]))), None)
  {
    ReportsFirstFailure(s.title, s.content, k);
  }

  /** After a submit that reached `onSubmit`, the form is no longer
      submitting whether the callback resolved or threw; the error left
      behind is none on success (the stale one was cleared) and the caught
      message on failure. */
  lemma CallbackSettles(s: FormState, outcome: CallbackOutcome)
    requires Validate(s.title, s.content).None?
    ensures !AfterSubmit(s, outcome).0.isSubmitting
    ensures outcome.Resolved? ==> AfterSubmit(s, outcome).0.error == None
    ensures outcome.Rejected? ==>
      AfterSubmit(s, outcome).0.error == Some(CaughtMessage(outcome.thrown))
  {
  }

  /** Submitting never edits the fields, so submitting again without
      edits runs the same checks on the same values. */
  lemma SubmitKeepsFields(s: FormState, outcome: CallbackOutcome)
    ensures var s' := AfterSubmit(s, outcome).0;
      s'.title == s.title && s'.content == s.content && s'.status == s.status
  {
  }

  /** The form's React state, one field per `useState` cell. */
  class Form {
    var title: JsString
    var content: JsString
    var status: Status
    var error: Option<string>
    var isSubmitting: bool

    function State(): FormState
      reads this
    {
      FormState(title, content, status, error, isSubmitting)
    }

    constructor (initialValues: Option<TodoFields>)
      ensures State() == InitialState(initialValues)
    {
      match initialValues {
        case None =>
          title, content, status := [], [], NotStarted;
        case Some(v) =>
          title, content, status := v.title, v.content, v.status;
      }
      error := None;
      isSubmitting := false;
    }

    /** `handleSubmit`. `outcome` is how the page's `onSubmit` ends;
        `submitted` is what it was called with, if it was called, and
        `busy` the submitting flag while it ran. */
    method HandleSubmit(outcome: CallbackOutcome) returns (submitted: Option<TodoFields>, ghost busy: bool)
      modifies this
      ensures (State(), submitted) == AfterSubmit(old(State()), outcome)
      ensures submitted.Some? ==> busy
    {
      var refusal := Validate(title, content);
      if refusal.Some? {
        SubmitRefused(State(), outcome, refusal.value);
      } else {
        SubmitAccepted(State(), outcome);
      }
      error := None;
      busy := isSubmitting;
      if refusal.Some? {
        error := Some(Message(refusal.value));
        return None, busy;
      }
      isSubmitting := true;
      submitted := Some(TodoFields(title, content, status));
      busy := isSubmitting;
      match outcome {
        case Rejected(e) => error := Some(CaughtMessage(e));
        case Resolved =>
      }
      isSubmitting := false;
    }
  }
}
