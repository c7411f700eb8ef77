/**
  The collection endpoint of app/api/todos/route.ts: `GET` lists every
  stored todo newest first, `POST` validates a title and a content and
  inserts a todo. The store is a table from id to todo with an id counter.
 */
module TodoApi {
  import opened JsText
  import opened Todos
  import opened TodoOrder

  /** A value read from the decoded request body; `Undefined` is a missing
      key. Numbers are integers here. */
  datatype JsonValue = Undefined | Null | Boolean(b: bool) | Number(n: int) | Str(s: JsString) | Structured

  /** JavaScript truthiness of such a value. */
  predicate Truthy(v: JsonValue)
  {
    match v
    case Undefined => false
    case Null => false
    case Boolean(b) => b
    case Number(n) => n != 0
    case Str(s) => s != []
    case Structured => true
  }

  /** The guard of route.ts:21: it refuses exactly what is not a non-empty
      string of at most 50 code units. */
  function TitleRejected(v: JsonValue): (r: bool)
    ensures r <==> !(v.Str? && 1 <= |v.s| <= TitleMaxLength)
  {
    !Truthy(v) || !v.Str? || |v.s| > TitleMaxLength
  }

  /** The guard of route.ts:24: it refuses exactly what is not a non-empty
      string of at most 100 code units. */
  function ContentRejected(v: JsonValue): (r: bool)
    ensures r <==> !(v.Str? && 1 <= |v.s| <= ContentMaxLength)
  {
    !Truthy(v) || !v.Str? || |v.s| > ContentMaxLength
  }

  /** The `status` key of the body: missing or null, one of the three enum
      strings, or anything else. */
  datatype StatusField = Nullish | Named(status: Status) | Unlisted

  /** `status ?? "NOT_STARTED"`: only a missing or null status is replaced. */
  function WithDefault(f: StatusField): (r: StatusField)
    ensures f.Nullish? ==> r == Named(NotStarted)
    ensures !f.Nullish? ==> r == f
  {
    if f.Nullish? then Named(NotStarted) else f
  }

  /** The decoded body of a create request. */
  datatype CreateBody = CreateBody(title: JsonValue, content: JsonValue, status: StatusField)

  /** What a response carries: one todo, a list, or plain text. */
  datatype Payload = One(todo: Todo) | Many(todos: seq<Todo>) | Text(text: string)

  datatype Response = Response(code: int, payload: Payload)

  const InvalidTitle := Response(400, Text("Invalid title"))
  const InvalidContent := Response(400, Text("Invalid content"))
  const CreateFailed := Response(500, Text("Failed to create todo"))
  const FetchFailed := Response(500, Text("Failed to fetch todos"))

  /** The decision `POST` takes before it touches the store: a 400
      response, or the row to insert. */
  datatype CreatePlan = Reject(response: Response) | Accept(title: JsString, content: JsString, status: StatusField)

  /** route.ts:21-33: the title is checked first, then the content; an
      accepted body becomes a row with its title and content as sent and
      its status defaulted. */
  function PlanCreate(body: CreateBody): (r: CreatePlan)
    ensures TitleRejected(body.title) ==> r == Reject(InvalidTitle)
    ensures !TitleRejected(body.title) && ContentRejected(body.content) ==> r == Reject(InvalidContent)
    ensures r.Accept? <==> !TitleRejected(body.title) && !ContentRejected(body.content)
    ensures r.Accept? ==>
      && body.title == Str(r.title) && body.content == Str(r.content)
      && r.status == WithDefault(body.status)
  {
    if TitleRejected(body.title) then Reject(InvalidTitle)
    else if ContentRejected(body.content) then Reject(InvalidContent)
    else Accept(body.title.s, body.content.s, WithDefault(body.status))
  }

  /** Both fields bad: the title's error wins. */
  lemma TitleCheckedFirst(body: CreateBody)
    requires TitleRejected(body.title) && ContentRejected(body.content)
    ensures PlanCreate(body) == Reject(InvalidTitle)
  {
  }

  /** `rows` lists the table's todos newest first, each exactly once. */
  ghost predicate ListsNewestFirst(rows: map<int, Todo>, list: seq<Todo>)
  {
    && Sorted(Newest, list)
    && (forall i :: 0 <= i < |list| ==> list[i].id in rows && rows[list[i].id] == list[i])
    && (forall id :: id in rows ==> rows[id] in list)
    && (forall i, j :: 0 <= i < j < |list| ==> list[i].id != list[j].id)
  }

  /** Halfway through listing: `list` lists, newest first and each once,
      the rows whose ids are not `pending`. */
  ghost predicate PartialListing(rows: map<int, Todo>, list: seq<Todo>, pending: set<int>)
  {
    && pending <= rows.Keys
    && Sorted(Newest, list)
    && (forall i :: 0 <= i < |list| ==>
          list[i].id in rows && list[i].id !in pending && rows[list[i].id] == list[i])
    && (forall id :: id in rows && id !in pending ==> rows[id] in list)
    && (forall i, j :: 0 <= i < j < |list| ==> list[i].id != list[j].id)
  }

  /** Inserting one pending row into the partial listing lists it too. */
  lemma ListingStep(rows: map<int, Todo>, list: seq<Todo>, pending: set<int>, id: int)
    requires forall x :: x in rows ==> rows[x].id == x
    requires PartialListing(rows, list, pending) && id in pending
    ensures PartialListing(rows, Insert(Newest, rows[id], list), pending - {id})
  {
    var r := Insert(Newest, rows[id], list);
    StepListsRows(rows, list, pending, id);
    StepCoversRows(rows, list, pending, id);
    StepKeepsIdsDistinct(list, pending, rows[id]);
  }

  lemma StepListsRows(rows: map<int, Todo>, list: seq<Todo>, pending: set<int>, id: int)
    requires id in rows && rows[id].id == id
    requires forall i :: 0 <= i < |list| ==>
          list[i].id in rows && list[i].id !in pending && rows[list[i].id] == list[i]
    ensures var r := Insert(Newest, rows[id], list);
      forall i :: 0 <= i < |r| ==>
        r[i].id in rows && r[i].id !in pending - {id} && rows[r[i].id] == r[i]
  {
    var t := rows[id];
    var r := Insert(Newest, t, list);
    InsertPlaces(Newest, t, list);
    forall i | 0 <= i < |r| ensures r[i].id in rows && r[i].id !in pending - {id} && rows[r[i].id] == r[i] {
      assert r[i] == t || r[i] in list;
    }
  }

  lemma StepCoversRows(rows: map<int, Todo>, list: seq<Todo>, pending: set<int>, id: int)
    requires id in rows
    requires forall x :: x in rows && x !in pending ==> rows[x] in list
    ensures var r := Insert(Newest, rows[id], list);
      forall x :: x in rows && x !in pending - {id} ==> rows[x] in r
  {
    var r := Insert(Newest, rows[id], list);
    forall x | x in rows && x !in pending - {id} ensures rows[x] in r {
      assert rows[x] in multiset(r);
    }
  }

  lemma StepKeepsIdsDistinct(list: seq<Todo>, pending: set<int>, t: Todo)
    requires t.id in pending
    requires forall i :: 0 <= i < |list| ==> list[i].id !in pending
    requires forall i, j :: 0 <= i < j < |list| ==> list[i].id != list[j].id
    ensures var r := Insert(Newest, t, list);
      forall i, j :: 0 <= i < j < |r| ==> r[i].id != r[j].id
  {
    var r := Insert(Newest, t, list);
    InsertPlaces(Newest, t, list);
  }

  /** A non-empty set has a member to pick. */
  lemma HasMember(s: set<int>)
    requires s != {}
    ensures exists x :: x in s
  {
    if forall x :: x !in s {
      assert false;
    }
  }

  lemma ListingDone(rows: map<int, Todo>, list: seq<Todo>)
    requires PartialListing(rows, list, {})
    ensures ListsNewestFirst(rows, list)
  {
  }

  /** The todo table: rows by id and the next id the store hands out. */
  class TodoTable {
    var rows: map<int, Todo>
    var nextId: int

    /** Every row sits under its own id, and every id in use is below the
        counter, so the counter is always fresh. */
    ghost predicate Valid()
      reads this
    {
      && 1 <= nextId
      && forall id :: id in rows ==> rows[id].id == id && 1 <= id < nextId
    }

    constructor ()
      ensures Valid() && rows == map[] && nextId == 1
    {
      rows, nextId := map[], 1;
    }

    /** `prisma.todo.create`: a new row under a fresh id, both timestamps
        set to `now`. */
    method Create(title: JsString, content: JsString, status: Status, now: int) returns (t: Todo)
      requires Valid()
      modifies this
      ensures Valid()
      ensures t == Todo(old(nextId), title, content, status, now, now)
      ensures t.id !in old(rows) && rows == old(rows)[t.id := t]
    {
      t := Todo(nextId, title, content, status, now, now);
      rows := rows[t.id := t];
      nextId := nextId + 1;
    }

    /** `prisma.todo.findMany({ orderBy: { createdAt: "desc" } })`. */
    method FindManyNewestFirst() returns (list: seq<Todo>)
      requires Valid()
      ensures ListsNewestFirst(rows, list)
    {
      list := [];
      var pending := rows.Keys;
      while pending != {}
        invariant PartialListing(rows, list, pending)
        decreases pending
      {
        HasMember(pending);
        var id :| id in pending;
        ListingStep(rows, list, pending, id);
        list := Insert(Newest, rows[id], list);
        pending := pending - {id};
      }
      ListingDone(rows, list);
    }
  }

  /** `GET /api/todos`: every row, newest first, with 200; 500 when the
      store fails. */
  method Get(table: TodoTable, storeFails: bool) returns (resp: Response)
    requires table.Valid()
    ensures storeFails ==> resp == FetchFailed
    ensures !storeFails ==>
      resp.code == 200 && resp.payload.Many? && ListsNewestFirst(table.rows, resp.payload.todos)
  {
    if storeFails {
      return FetchFailed;
    }
    var list := table.FindManyNewestFirst();
    resp := Response(200, Many(list));
  }

  /** `POST /api/todos`. `body` holds the three keys read from the decoded
      request body; it is `None` when the body is not JSON or is `null`, so
      that reading the keys throws. A body that is some other non-object
      (a number, an array) reads as three missing keys. `storeFails` says
      whether the insert fails and `now` is the store's clock. A status
      outside the enumeration makes the insert fail. */
  method Post(table: TodoTable, body: Option<CreateBody>, now: int, storeFails: bool) returns (resp: Response)
    requires table.Valid()
    modifies table
    ensures table.Valid()
    ensures body.None? ==> resp == CreateFailed && unchanged(table)
    ensures body.Some? && PlanCreate(body.value).Reject? ==>
      resp == PlanCreate(body.value).response && unchanged(table)
    ensures body.Some? && PlanCreate(body.value).Accept? ==>
      var plan := PlanCreate(body.value);
      if storeFails || !plan.status.Named? then
        resp == CreateFailed && unchanged(table)
      else
        var t := Todo(old(table.nextId), plan.title, plan.content, plan.status.status, now, now);
        && resp == Response(201, One(t))
        && t.id !in old(table.rows)
        && table.rows == old(table.rows)[t.id := t]
  {
    if body.None? {
      return CreateFailed;
    }
    var b := body.value;
    if !Truthy(b.title) || !b.title.Str? || |b.title.s| > TitleMaxLength {
      return InvalidTitle;
    }
    if !Truthy(b.content) || !b.content.Str? || |b.content.s| > ContentMaxLength {
      return InvalidContent;
    }
    var status := WithDefault(b.status);
    if storeFails || !status.Named? {
      return CreateFailed;
    }
    var t := table.Create(b.title.s, b.content.s, status.status, now);
    resp := Response(201, One(t));
  }
}
