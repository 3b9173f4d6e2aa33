/**
 * The repository over the `todos` table: the payloads it hands to the store
 * and the mapping of the store's `(data, error)` reply to a value or a thrown
 * error. The store itself is not modelled: its reply is an input.
 */
module TodosRepository {
  import opened TodoTypes

  datatype StoreError = StoreError(message: string)

  /** What the store client resolves to: `{ data, error }`, either of which may be null. */
  datatype StoreReply<T> = StoreReply(data: Option<T>, error: Option<StoreError>)

  const TitleColumn := "title"
  const DescriptionColumn := "description"
  const IsCompletedColumn := "is_completed"
  const IdColumn := "id"
  const CreatedAtColumn := "created_at"

  const InsertNullDataMessage := "Todo insert returned null data"
  const UpdateNullDataMessage := "Todo update returned null data"

  // ---------------------------------------------------------------------------
  // Result mapping
  // ---------------------------------------------------------------------------

  /** `getTodos`: a store error is thrown with its message; missing data is an empty list. */
  function GetTodos(reply: StoreReply<seq<Todo>>): (r: Result<seq<Todo>>)
    ensures r.Throws? <==> reply.error.Some?
    ensures reply.error.Some? ==> r.message == reply.error.value.message
    ensures r.Ok? && reply.data.None? ==> r.value == []
    ensures r.Ok? && reply.data.Some? ==> r.value == reply.data.value
  {
    if reply.error.Some? then Throws(reply.error.value.message)
    else Ok(match reply.data case Some(todos) => todos case None => [])
  }

  /** The shared tail of `createTodo` and `updateTodo`: error first, then missing data. */
  function SingleRow(reply: StoreReply<Todo>, nullDataMessage: string): Result<Todo>
  {
    if reply.error.Some? then Throws(reply.error.value.message)
    else if reply.data.None? then Throws(nullDataMessage)
    else Ok(reply.data.value)
  }

  /** The reply handling of `createTodo`. */
  function CreateTodo(reply: StoreReply<Todo>): (r: Result<Todo>)
    ensures r.Ok? <==> reply.error.None? && reply.data.Some?
    ensures r.Ok? ==> r.value == reply.data.value
    ensures reply.error.Some? ==> r.message == reply.error.value.message
    ensures reply.error.None? && reply.data.None? ==> r.message == InsertNullDataMessage
  {
    SingleRow(reply, InsertNullDataMessage)
  }

  /** The reply handling of `updateTodo`. */
  function UpdateTodo(reply: StoreReply<Todo>): (r: Result<Todo>)
    ensures r.Ok? <==> reply.error.None? && reply.data.Some?
    ensures r.Ok? ==> r.value == reply.data.value
    ensures reply.error.Some? ==> r.message == reply.error.value.message
    ensures reply.error.None? && reply.data.None? ==> r.message == UpdateNullDataMessage
  {
    SingleRow(reply, UpdateNullDataMessage)
  }

  /** `deleteTodo`: the reply's data is never read; without an error the result is the requested id. */
  function DeleteTodo(id: string, error: Option<StoreError>): (r: Result<string>)
    ensures r.Ok? <==> error.None?
    ensures r.Ok? ==> r.value == id
    ensures error.Some? ==> r.message == error.value.message
  {
    match error
    case Some(e) => Throws(e.message)
    case None => Ok(id)
  }

  /** A store error decides every operation's outcome, whatever data came with it. */
  lemma StoreErrorAlwaysThrows(e: StoreError, todos: Option<seq<Todo>>, row: Option<Todo>, id: string)
    ensures GetTodos(StoreReply(todos, Some(e))) == Throws(e.message)
    ensures CreateTodo(StoreReply(row, Some(e))) == Throws(e.message)
    ensures UpdateTodo(StoreReply(row, Some(e))) == Throws(e.message)
    ensures DeleteTodo(id, Some(e)) == Throws(e.message)
  {
  }

  // ---------------------------------------------------------------------------
  // Payloads
  // ---------------------------------------------------------------------------

  /** The row `createTodo` inserts: the title and `description ?? null`, nothing else. */
  function InsertPayload(values: CreateTodoValues): (p: Row)
    ensures p.Keys == {TitleColumn, DescriptionColumn}
    ensures IsCompletedColumn !in p && IdColumn !in p && CreatedAtColumn !in p
    ensures p[TitleColumn] == JString(values.title)
    ensures p[DescriptionColumn] == JNull <==> !(values.description.Present? && values.description.value.Some?)
    ensures values.description.Present? && values.description.value.Some? ==>
              p[DescriptionColumn] == JString(values.description.value.value)
  {
    map[TitleColumn := JString(values.title), DescriptionColumn := NullableString(Coalesce(values.description))]
  }

  /** The columns an update request supplies. */
  function SuppliedColumns(values: UpdateTodoValues): set<string>
  {
    (if values.title.Present? then {TitleColumn} else {})
    + (if values.description.Present? then {DescriptionColumn} else {})
    + (if values.isCompleted.Present? then {IsCompletedColumn} else {})
  }

  /** The new value of a supplied column. */
  function SuppliedValue(values: UpdateTodoValues, column: string): Json
    requires column in SuppliedColumns(values)
  {
    if column == TitleColumn then JString(values.title.value)
    else if column == DescriptionColumn then NullableString(Coalesce(values.description))
    else JBool(values.isCompleted.value)
  }

  /** The sparse patch for an update request: one entry per supplied column. */
  function SparsePatch(values: UpdateTodoValues): Row
  {
    map column | column in SuppliedColumns(values) :: SuppliedValue(values, column)
  }

  /**
   * `updateTodo` builds its payload field by field, adding a column only
   * when the request supplies it.
   */
  method BuildUpdatePayload(values: UpdateTodoValues) returns (patch: Row)
    ensures patch == SparsePatch(values)
  {
    patch := map[];
    if values.title.Present? {
      patch := patch[TitleColumn := JString(values.title.value)];
    }
    if values.description.Present? {
      patch := patch[DescriptionColumn := NullableString(Coalesce(values.description))];
    }
    if values.isCompleted.Present? {
      patch := patch[IsCompletedColumn := JBool(values.isCompleted.value)];
    }
  }

  /** Each column is in the patch exactly when the request supplies it, with the supplied value. */
  lemma SparsePatchFields(values: UpdateTodoValues)
    ensures TitleColumn in SparsePatch(values) <==> values.title.Present?
    ensures values.title.Present? ==> SparsePatch(values)[TitleColumn] == JString(values.title.value)
    ensures DescriptionColumn in SparsePatch(values) <==> values.description.Present?
    ensures values.description.Present? ==>
              SparsePatch(values)[DescriptionColumn] == NullableString(values.description.value)
    ensures IsCompletedColumn in SparsePatch(values) <==> values.isCompleted.Present?
    ensures values.isCompleted.Present? ==> SparsePatch(values)[IsCompletedColumn] == JBool(values.isCompleted.value)
  {
  }

  /** The patch never touches the identity columns, and an empty request gives an empty patch. */
  lemma SparsePatchShape(values: UpdateTodoValues)
    ensures IdColumn !in SparsePatch(values) && CreatedAtColumn !in SparsePatch(values)
    ensures SparsePatch(values) == map[] <==> values == UpdateTodoValues(Missing, Missing, Missing)
  {
    if values != UpdateTodoValues(Missing, Missing, Missing) {
      assert values.title.Present? || values.description.Present? || values.isCompleted.Present?;
      if values.title.Present? {
        assert TitleColumn in SparsePatch(values);
      } else if values.description.Present? {
        assert DescriptionColumn in SparsePatch(values);
      } else {
        assert IsCompletedColumn in SparsePatch(values);
      }
    }
  }

  /**
   * How the store applies a patch to a stored row: each column present in the
   * patch with a value of the column's type replaces that column, every other
   * column keeps its value.
   */
  function MergePatch(row: Todo, patch: Row): Todo
  {
    var title := if TitleColumn in patch && patch[TitleColumn].JString? then patch[TitleColumn].s else row.title;
    var description :=
      if DescriptionColumn in patch && patch[DescriptionColumn].JNull? then None
      else if DescriptionColumn in patch && patch[DescriptionColumn].JString? then Some(patch[DescriptionColumn].s)
      else row.description;
    var isCompleted :=
      if IsCompletedColumn in patch && patch[IsCompletedColumn].JBool? then patch[IsCompletedColumn].b
      else row.isCompleted;
    row.(title := title, description := description, isCompleted := isCompleted)
  }

  /** An update is partial: supplied fields take their new values and all others keep theirs. */
  lemma UpdateIsPartial(row: Todo, values: UpdateTodoValues)
    ensures MergePatch(row, SparsePatch(values)).id == row.id
    ensures MergePatch(row, SparsePatch(values)).createdAt == row.createdAt
    ensures MergePatch(row, SparsePatch(values)).title ==
              if values.title.Present? then values.title.value else row.title
    ensures MergePatch(row, SparsePatch(values)).description ==
              if values.description.Present? then values.description.value else row.description
    ensures MergePatch(row, SparsePatch(values)).isCompleted ==
              if values.isCompleted.Present? then values.isCompleted.value else row.isCompleted
  {
  }
}
