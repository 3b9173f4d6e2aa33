/**
 * How the PATCH `/api/todos/{id}` handler shapes the values it passes to the
 * repository's `updateTodo`, and what that does to the stored row. Its schema
 * validation is not modelled: `parsed` is the data the schema produced.
 */
module TodoIdRoute {
  import opened TodoTypes
  import TodosRepository
  import Page

  /**
   * The values as the handler builds them: title and completion flag are passed
   * on, but the description is always `parsed.description ?? null`, so a
   * request without a description still supplies one (null).
   */
  function PatchValuesAsWritten(parsed: UpdateTodoValues): (r: UpdateTodoValues)
    ensures r.title == parsed.title && r.isCompleted == parsed.isCompleted
    ensures r.description.Present?
    ensures parsed.description.Missing? ==> r.description == Present(None)
    ensures parsed.description.Present? ==> r.description == parsed.description
  {
    UpdateTodoValues(parsed.title, Present(Coalesce(parsed.description)), parsed.isCompleted)
  }

  /**
   * The values as intended: every field is passed on only when the request
   * supplied it, so the patch holds exactly the supplied columns.
   */
  function PatchValues(parsed: UpdateTodoValues): (r: UpdateTodoValues)
    ensures TodosRepository.SuppliedColumns(r) == TodosRepository.SuppliedColumns(parsed)
    ensures r.description.Present? ==> r.description == parsed.description
    ensures r == parsed
  {
    UpdateTodoValues(parsed.title, parsed.description, parsed.isCompleted)
  }

  /**
   * As written, the page's toggle wipes the stored description: the patch sets
   * the description column to null, and the updated row has no description.
   */
  lemma ToggleClearsDescriptionAsWritten(todo: Todo, row: Todo)
    ensures TodosRepository.DescriptionColumn in TodosRepository.SparsePatch(PatchValuesAsWritten(Page.TogglePayload(todo)))
    ensures TodosRepository.SparsePatch(PatchValuesAsWritten(Page.TogglePayload(todo)))[TodosRepository.DescriptionColumn] == JNull
    ensures TodosRepository.MergePatch(row, TodosRepository.SparsePatch(PatchValuesAsWritten(Page.TogglePayload(todo)))).description == None
  {
  }

  /** A concrete case: toggling "Buy milk" with description "2 litres" loses the description. */
  lemma ToggleCounterexample()
    ensures var row := Todo("1", "Buy milk", Some("2 litres"), false, "t0");
      TodosRepository.MergePatch(row, TodosRepository.SparsePatch(PatchValuesAsWritten(Page.TogglePayload(row))))
        == row.(description := None, isCompleted := true)
  {
  }

  /**
   * Corrected, a toggle's patch is the completion column alone, and the updated
   * row differs from the stored one only in its completion flag.
   */
  lemma ToggleChangesOnlyCompletion(todo: Todo, row: Todo)
    ensures TodosRepository.SparsePatch(PatchValues(Page.TogglePayload(todo)))
              == map[TodosRepository.IsCompletedColumn := JBool(!todo.isCompleted)]
    ensures TodosRepository.MergePatch(row, TodosRepository.SparsePatch(PatchValues(Page.TogglePayload(todo))))
              == row.(isCompleted := !todo.isCompleted)
  {
  }

  /** Corrected, a PATCH request changes exactly the fields it supplies. */
  lemma PatchIsPartial(parsed: UpdateTodoValues, row: Todo)
    ensures var updated := TodosRepository.MergePatch(row, TodosRepository.SparsePatch(PatchValues(parsed)));
      && updated.id == row.id && updated.createdAt == row.createdAt
      && updated.title == (if parsed.title.Present? then parsed.title.value else row.title)
      && updated.description == (if parsed.description.Present? then parsed.description.value else row.description)
      && updated.isCompleted == (if parsed.isCompleted.Present? then parsed.isCompleted.value else row.isCompleted)
  {
  }
}
