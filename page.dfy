/**
 * The logic inside the home page component: the client-side list filter, the
 * form's validation rules, the payloads the page sends on submit and on a
 * toggle, and the task-count label. Rendering is not modelled.
 */
module Page {
  import opened TodoTypes
  import Text
  import TodosApi
  import TodosRoute

  const FormTitleMinLength := 1
  const FormTitleMaxLength := 200
  const FormDescriptionMaxLength := 1000

  // ---------------------------------------------------------------------------
  // Filtering
  // ---------------------------------------------------------------------------

  /** `sub` is `s` with some elements left out, the rest in their original order. */
  predicate IsSubsequence<T(==)>(sub: seq<T>, s: seq<T>)
    decreases |s|
  {
    if s == [] then sub == []
    else (sub != [] && sub[0] == s[0] && IsSubsequence(sub[1..], s[1..])) || IsSubsequence(sub, s[1..])
  }

  lemma {:induction false} SubsequenceReflexive<T>(s: seq<T>)
    ensures IsSubsequence(s, s)
    decreases |s|
  {
    if s != [] {
      SubsequenceReflexive(s[1..]);
    }
  }

  /** Whether a todo is shown under a filter. */
  predicate Shown(todo: Todo, filter: TodoFilter)
  {
    match filter
    case All => true
    case Active => !todo.isCompleted
    case Completed => todo.isCompleted
  }

  /**
   * `todos.filter(todo => todo.is_completed == completed)`: the todos with that
   * completion flag, each as often as in `todos`, in their original order.
   */
  function KeepWhereCompleted(todos: seq<Todo>, completed: bool): (r: seq<Todo>)
    ensures IsSubsequence(r, todos)
    ensures forall t :: multiset(r)[t] == if t.isCompleted == completed then multiset(todos)[t] else 0
    decreases |todos|
  {
    if todos == [] then []
    else
      var rest := KeepWhereCompleted(todos[1..], completed);
      assert todos == [todos[0]] + todos[1..];
      if todos[0].isCompleted == completed then
        assert ([todos[0]] + rest)[1..] == rest;
        [todos[0]] + rest
      else
        rest
  }

  /**
   * `filterTodos`: "all" returns the list itself; "active" and "completed" keep
   * exactly the todos shown under the filter, in their original order.
   */
  function FilterTodos(todos: seq<Todo>, filter: TodoFilter): (r: seq<Todo>)
    ensures filter == All ==> r == todos
    ensures IsSubsequence(r, todos)
    ensures forall t :: multiset(r)[t] == if Shown(t, filter) then multiset(todos)[t] else 0
  {
    match filter
    case Active => KeepWhereCompleted(todos, false)
    case Completed => KeepWhereCompleted(todos, true)
    case All => SubsequenceReflexive(todos); todos
  }

  /** Every todo is either active or completed: the two filtered lists split the list between them. */
  lemma ActiveCompletedPartition(todos: seq<Todo>)
    ensures multiset(FilterTodos(todos, Active)) + multiset(FilterTodos(todos, Completed)) == multiset(todos)
    ensures |FilterTodos(todos, Active)| + |FilterTodos(todos, Completed)| == |todos|
  {
  }

  // ---------------------------------------------------------------------------
  // The form and the payloads the page sends
  // ---------------------------------------------------------------------------

  /** The form's values: the title, and the description when the field is registered. */
  datatype FormValues = FormValues(title: string, description: Optional<string>)

  /** `todoFormSchema`: a 1..200 character title and, if given, a description of at most 1000 characters. */
  predicate FormAccepts(values: FormValues): (ok: bool)
    ensures ok ==> values.title != []
    ensures ok ==> TodosRoute.CreateSchemaAccepts(TodosApi.CreateRequestJson(SubmitPayload(values)))
  {
    && FormTitleMinLength <= |values.title| <= FormTitleMaxLength
    && (values.description.Present? ==> |values.description.value| <= FormDescriptionMaxLength)
  }

  /** `handleSubmit`'s create request: the title as typed and `description ?? null`. */
  function SubmitPayload(values: FormValues): (r: CreateTodoValues)
    ensures r.title == values.title
    ensures r.description.Present?
    ensures r.description.value.None? <==> values.description.Missing?
    ensures values.description.Present? ==> r.description.value == Some(values.description.value)
  {
    var description := match values.description case Missing => None case Present(d) => Some(d);
    CreateTodoValues(values.title, Present(description))
  }

  /** The form accepts exactly the input whose submitted body the server's schema accepts. */
  lemma FormAgreesWithServerSchema(values: FormValues)
    ensures FormAccepts(values) <==> TodosRoute.CreateSchemaAccepts(TodosApi.CreateRequestJson(SubmitPayload(values)))
  {
  }

  /** A form the page accepts reaches the repository as exactly the payload the page built. */
  lemma SubmittedFormReachesRepository(values: FormValues, reply: TodosRoute.TodosRepository.StoreReply<Todo>)
    requires FormAccepts(values)
    ensures TodosRoute.Post(Ok(TodosApi.CreateRequestJson(SubmitPayload(values))), reply).repositoryValues
              == Some(SubmitPayload(values))
  {
  }

  /** `handleToggleCompleted`: an update whose only field is the flipped completion flag. */
  function TogglePayload(todo: Todo): (r: UpdateTodoValues)
    ensures r.isCompleted == Present(!todo.isCompleted)
    ensures r.title.Missing? && r.description.Missing?
  {
    UpdateTodoValues(Missing, Missing, Present(!todo.isCompleted))
  }

  /** On the wire, a toggle is the one property `isCompleted`. */
  lemma ToggleRequestBody(todo: Todo)
    ensures TodosApi.UpdateRequestJson(TogglePayload(todo)) == JObject(map["isCompleted" := JBool(!todo.isCompleted)])
  {
  }

  // ---------------------------------------------------------------------------
  // The count label
  // ---------------------------------------------------------------------------

  /** "`n` task" for one todo, "`n` tasks" for any other count; the count reads back from the numeral. */
  function CountLabel(count: nat): (caption: string)
    ensures |caption| > |Text.Decimal(count)| && caption[..|Text.Decimal(count)|] == Text.Decimal(count)
    ensures Text.DecimalValue(Text.Decimal(count)) == count
    ensures caption[|Text.Decimal(count)|..] == if count == 1 then " task" else " tasks"
    ensures caption[|caption| - 1] == 's' <==> count != 1
  {
    var digits := Text.Decimal(count);
    var caption := digits + " task" + (if count == 1 then "" else "s");
    assert caption[|digits|..] == " task" + (if count == 1 then "" else "s");
    Text.DecimalRoundTrip(count);
    caption
  }
}
