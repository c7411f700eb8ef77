/**
  The one entity of the TODO app and the small value types every layer
  shares (app/contexts/TodoContext.tsx:12-21).
 */
module Todos {
  import opened JsText

  datatype Option<T> = None | Some(value: T)

  /** `TodoStatus`: the three values a todo's status can take. */
  datatype Status = NotStarted | InProgress | Completed

  /** A stored todo. Timestamps are the milliseconds that
      `new Date(iso).getTime()` yields for the record's ISO strings. */
  datatype Todo = Todo(
    id: int,
    title: JsString,
    content: JsString,
    status: Status,
    createdAt: int,
    updatedAt: int)

  /** The editable fields of a todo: what the form submits and what
      `createTodo` sends. */
  datatype TodoFields = TodoFields(title: JsString, content: JsString, status: Status)

  /** Longest accepted title and content, in UTF-16 code units. Both the
      form and the create endpoint enforce them. */
  const TitleMaxLength := 50
  const ContentMaxLength := 100

  /** A value an awaited call threw: an `Error` object, which carries a
      message, or any other value, which does not. */
  datatype Thrown = ErrorObject(message: string) | NonError

  /** The fallback the client shows for a thrown value that is not an `Error`. */
  const SubmitFailedMessage: string := "送信に失敗しました。"

  /** The text a client `catch` block stores: the `Error`'s message, else
      the fallback (components/TodoForm.tsx:54-58,
      app/contexts/TodoContext.tsx:63-67). */
  function CaughtMessage(e: Thrown): string
  {
    match e
    case ErrorObject(message) => message
    case NonError => SubmitFailedMessage
  }
}
