/**
 * Values shared by every layer of the todo application: the Todo record,
 * the three list filters, the JSON values that travel over HTTP and to the
 * store, and the request values with their optional / nullable fields.
 */
module TodoTypes {

  /** A nullable value: `None` is JavaScript's `null`. */
  datatype Option<T> = None | Some(value: T)

  /** An optional object property: `Missing` is a property left `undefined`. */
  datatype Optional<T> = Missing | Present(value: T)

  /** The outcome of an operation that may throw; `Throws` carries the error's message. */
  datatype Result<T> = Ok(value: T) | Throws(message: string)

  /** The only persisted entity, with the column names of the `todos` table. */
  datatype Todo = Todo(
    id: string,
    title: string,
    description: Option<string>,
    isCompleted: bool,
    createdAt: string)

  /** The client-side list filter: "all", "active" or "completed". */
  datatype TodoFilter = All | Active | Completed

  /** A JSON value. Numbers are integers here; fractional numbers are not modelled. */
  datatype Json =
    | JNull
    | JBool(b: bool)
    | JNumber(n: int)
    | JString(s: string)
    | JArray(items: seq<Json>)
    | JObject(fields: map<string, Json>)

  /** A row payload sent to the store: column name to JSON value. */
  type Row = map<string, Json>

  /** `{ title: string; description?: string | null }`, used by the form, the client and the repository. */
  datatype CreateTodoValues = CreateTodoValues(title: string, description: Optional<Option<string>>)

  /** `{ title?: string; description?: string | null; isCompleted?: boolean }`. */
  datatype UpdateTodoValues = UpdateTodoValues(
    title: Optional<string>,
    description: Optional<Option<string>>,
    isCompleted: Optional<bool>)

  /** JavaScript's `d ?? null` on a property that may be undefined, null or a value. */
  function Coalesce<T>(d: Optional<Option<T>>): Option<T>
  {
    match d
    case Missing => None
    case Present(v) => v
  }

  /** A nullable string as a JSON value. */
  function NullableString(d: Option<string>): Json
  {
    match d
    case None => JNull
    case Some(s) => JString(s)
  }
}
