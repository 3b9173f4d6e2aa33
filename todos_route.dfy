/**
 * The `/api/todos` handlers: GET lists the todos, POST validates a JSON body
 * against the create schema and forwards it to the repository. Each outcome
 * maps to a status and a JSON body.
 */
module TodosRoute {
  import opened TodoTypes
  import TodosRepository

  const TitleMinLength := 1
  const TitleMaxLength := 200
  const DescriptionMaxLength := 1000

  const FetchFailedMessage := "Failed to fetch todos"
  const CreateFailedMessage := "Failed to create todo"
  const InvalidPayloadMessage := "Invalid payload"

  /** The kind of a schema issue: a value of the wrong type, a string too short or too long. */
  datatype IssueCode = InvalidType | TooSmall | TooBig

  /** One schema issue: where in the body it is, and what is wrong there. */
  datatype Issue = Issue(path: seq<string>, code: IssueCode)

  datatype ResponseBody =
    | TodosBody(todos: seq<Todo>)
    | TodoBody(todo: Todo)
    | MessageBody(message: string)
    | InvalidPayloadBody(message: string, issues: seq<Issue>)

  datatype HttpResponse = HttpResponse(status: nat, body: ResponseBody)

  // ---------------------------------------------------------------------------
  // The create schema
  // ---------------------------------------------------------------------------

  /** The create schema as a rule: an object with a 1..200 character title and no, a null, or a short description. */
  predicate CreateSchemaAccepts(body: Json): (ok: bool)
    ensures ok <==> body.JObject? && TitleIssues(body.fields) == [] && DescriptionIssues(body.fields) == []
  {
    && body.JObject?
    && "title" in body.fields
    && body.fields["title"].JString?
    && TitleMinLength <= |body.fields["title"].s| <= TitleMaxLength
    && ("description" in body.fields ==>
          || body.fields["description"].JNull?
          || (body.fields["description"].JString? && |body.fields["description"].s| <= DescriptionMaxLength))
  }

  /** The issues the title rule raises: one for a missing or non-string title, or one for its length. */
  function TitleIssues(fields: map<string, Json>): seq<Issue>
  {
    if "title" !in fields || !fields["title"].JString? then [Issue(["title"], InvalidType)]
    else if |fields["title"].s| < TitleMinLength then [Issue(["title"], TooSmall)]
    else if |fields["title"].s| > TitleMaxLength then [Issue(["title"], TooBig)]
    else []
  }

  /** The issues the description rule raises; an absent or null description raises none. */
  function DescriptionIssues(fields: map<string, Json>): seq<Issue>
  {
    if "description" !in fields || fields["description"].JNull? then []
    else if !fields["description"].JString? then [Issue(["description"], InvalidType)]
    else if |fields["description"].s| > DescriptionMaxLength then [Issue(["description"], TooBig)]
    else []
  }

  /** The issues of a whole body, in the schema's field order; a non-object is one issue at the root. */
  function CreateSchemaIssues(body: Json): (issues: seq<Issue>)
    ensures issues == [] <==> CreateSchemaAccepts(body)
    ensures |issues| <= 2
    ensures forall i :: 0 <= i < |issues| ==> issues[i].path in {[], ["title"], ["description"]}
    ensures body.JObject? ==> forall i :: 0 <= i < |issues| ==> issues[i].path != []
    ensures body.JObject? && TitleIssues(body.fields) != [] ==> issues[0].path == ["title"]
  {
    if !body.JObject? then [Issue([], InvalidType)]
    else TitleIssues(body.fields) + DescriptionIssues(body.fields)
  }

  datatype ParseResult = Parsed(data: CreateTodoValues) | Invalid(issues: seq<Issue>)

  /**
   * `createTodoSchema.safeParse(body)`: success exactly when the schema accepts,
   * carrying the title and the description as given; otherwise at least one issue.
   */
  function SafeParseCreate(body: Json): (r: ParseResult)
    ensures r.Parsed? <==> CreateSchemaAccepts(body)
    ensures r.Invalid? ==> |r.issues| > 0
    ensures r.Parsed? ==> r.data.title == body.fields["title"].s
    ensures r.Parsed? && "description" !in body.fields ==> r.data.description == Missing
    ensures r.Parsed? && "description" in body.fields ==>
              r.data.description.Present? && NullableString(r.data.description.value) == body.fields["description"]
  {
    var issues := CreateSchemaIssues(body);
    if issues != [] then Invalid(issues)
    else
      var description :=
        if "description" !in body.fields then Missing
        else if body.fields["description"].JNull? then Present(None)
        else Present(Some(body.fields["description"].s));
      Parsed(CreateTodoValues(body.fields["title"].s, description))
  }

  // ---------------------------------------------------------------------------
  // Handlers
  // ---------------------------------------------------------------------------

  /** GET: 200 with the list on success, 500 with a fixed message whenever the repository throws. */
  function Get(reply: TodosRepository.StoreReply<seq<Todo>>): (r: HttpResponse)
    ensures r.status == 200 <==> reply.error.None?
    ensures r.status == 200 ==> r.body == TodosBody(TodosRepository.GetTodos(reply).value)
    ensures r.status != 200 ==> r == HttpResponse(500, MessageBody(FetchFailedMessage))
  {
    match TodosRepository.GetTodos(reply)
    case Ok(todos) => HttpResponse(200, TodosBody(todos))
    case Throws(_) => HttpResponse(500, MessageBody(FetchFailedMessage))
  }

  /** A POST's response, and the values it passed to the repository, if it called it. */
  datatype PostOutcome = PostOutcome(response: HttpResponse, repositoryValues: Option<CreateTodoValues>)

  /**
   * POST. `request` is what `request.json()` produced: a JSON value, or the
   * error it threw on a body that is not JSON. `reply` is the store's reply to
   * the insert, used only when the repository is called.
   */
  function Post(request: Result<Json>, reply: TodosRepository.StoreReply<Todo>): (o: PostOutcome)
    ensures o.response.status in {201, 400, 500}
    ensures o.repositoryValues.Some? <==> request.Ok? && CreateSchemaAccepts(request.value)
    ensures o.response.status == 201 ==> reply.data.Some? && o.response.body == TodoBody(reply.data.value)
  {
    match request
    case Throws(_) => PostOutcome(HttpResponse(500, MessageBody(CreateFailedMessage)), None)
    case Ok(body) =>
      match SafeParseCreate(body)
      case Invalid(issues) =>
        PostOutcome(HttpResponse(400, InvalidPayloadBody(InvalidPayloadMessage, issues)), None)
      case Parsed(data) =>
        var values := CreateTodoValues(data.title, Present(Coalesce(data.description)));
        match TodosRepository.CreateTodo(reply)
        case Ok(todo) => PostOutcome(HttpResponse(201, TodoBody(todo)), Some(values))
        case Throws(_) => PostOutcome(HttpResponse(500, MessageBody(CreateFailedMessage)), Some(values))
  }

  /** The three outcomes of POST, and when the repository is called. */
  lemma PostOutcomes(request: Result<Json>, reply: TodosRepository.StoreReply<Todo>)
    ensures var o := Post(request, reply);
      && (o.response.status == 400 <==> request.Ok? && !CreateSchemaAccepts(request.value))
      && (o.response.status == 400 ==>
            o.response.body.InvalidPayloadBody? && o.response.body.message == InvalidPayloadMessage
            && |o.response.body.issues| > 0 && o.repositoryValues.None?)
      && (o.repositoryValues.Some? <==> request.Ok? && CreateSchemaAccepts(request.value))
      && (o.response.status == 201 <==>
            request.Ok? && CreateSchemaAccepts(request.value) && reply.error.None? && reply.data.Some?)
      && (o.response.status == 201 ==> o.response.body == TodoBody(reply.data.value))
      && (o.response.status != 201 && o.response.status != 400 ==>
            o.response == HttpResponse(500, MessageBody(CreateFailedMessage)))
  {
  }

  /** An accepted body reaches the repository with its title and with `description ?? null`. */
  lemma PostForwardsValues(body: Json, reply: TodosRepository.StoreReply<Todo>)
    requires CreateSchemaAccepts(body)
    ensures var values := Post(Ok(body), reply).repositoryValues;
      && values.Some?
      && values.value.title == body.fields["title"].s
      && values.value.description.Present?
      && ("description" !in body.fields ==> values.value.description.value == None)
      && ("description" in body.fields ==> NullableString(values.value.description.value) == body.fields["description"])
      && ("description" !in body.fields ==>
            TodosRepository.InsertPayload(values.value)[TodosRepository.DescriptionColumn] == JNull)
  {
  }
}
