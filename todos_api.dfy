/**
 * The browser-side wrapper over `fetch`: the request each operation sends and
 * the handling of the response. `fetch` itself is not modelled: the response
 * is an input. `JSON.stringify` is the parameter `serialize`.
 */
module TodosApi {
  import opened TodoTypes
  import Text

  const TodosBasePath := "/api/todos"
  const JsonMediaType := "application/json"
  const ContentTypeHeader := "Content-Type"
  const StatusFailurePrefix := "Request failed with status "

  datatype HttpMethod = Get | Post | Patch | Delete

  /** What is passed to `fetch`: the URL and the init object's method, headers and body. */
  datatype FetchRequest = FetchRequest(url: string, httpMethod: HttpMethod, headers: map<string, string>, body: Option<string>)

  /**
   * What `fetch` resolved to: the status, the `content-type` header if any, and
   * what `response.json()` yields (a value, or the error it throws).
   */
  datatype FetchResponse = FetchResponse(status: nat, contentType: Option<string>, json: Result<Json>)
  {
    /** `response.ok`: a status in the range 200-299. */
    predicate IsOk() { 200 <= status <= 299 }
  }

  /** The content type declares JSON: it is present and contains "application/json" somewhere. */
  ghost predicate DeclaresJson(contentType: Option<string>)
  {
    contentType.Some? && exists i: nat :: Text.OccursAt(contentType.value, JsonMediaType, i)
  }

  /** The message of the generic error for a failed response. */
  function StatusFailureMessage(status: nat): (m: string)
    ensures |m| > |StatusFailurePrefix| && m[..|StatusFailurePrefix|] == StatusFailurePrefix
    ensures m[|StatusFailurePrefix|..] == Text.Decimal(status)
    ensures Text.AllDigits(m[|StatusFailurePrefix|..])
    ensures Text.DecimalValue(m[|StatusFailurePrefix|..]) == status
  {
    var digits := Text.Decimal(status);
    var m := StatusFailurePrefix + digits;
    assert m[|StatusFailurePrefix|..] == digits;
    Text.DecimalRoundTrip(status);
    m
  }

  /**
   * `handleJsonResponse`: an ok response yields its parsed body; a failed one
   * throws, with the serialized error body when it declares JSON, and with a
   * message naming the status otherwise.
   */
  function HandleJsonResponse(response: FetchResponse, serialize: Json -> string): (r: Result<Json>)
    ensures response.IsOk() ==> r == response.json
    ensures !response.IsOk() ==> r.Throws?
    ensures !response.IsOk() && DeclaresJson(response.contentType) && response.json.Ok? ==>
              r.message == serialize(response.json.value)
    ensures !response.IsOk() && DeclaresJson(response.contentType) && response.json.Throws? ==>
              r == response.json
    ensures !response.IsOk() && !DeclaresJson(response.contentType) ==>
              r.message == StatusFailureMessage(response.status)
  {
    if !response.IsOk() then
      if response.contentType.Some? && Text.Includes(response.contentType.value, JsonMediaType) then
        match response.json
        case Ok(errorBody) => Throws(serialize(errorBody))
        case Throws(message) => Throws(message)
      else
        Throws(StatusFailureMessage(response.status))
    else
      response.json
  }

  /** A content type with parameters after the media type still declares JSON. */
  lemma CharsetContentTypeDeclaresJson()
    ensures DeclaresJson(Some("application/json; charset=utf-8"))
  {
    assert Text.OccursAt("application/json; charset=utf-8", JsonMediaType, 0);
  }

  /** The generic error message determines the status it was made from. */
  lemma StatusFailureMessageInjective(s: nat, t: nat)
    requires StatusFailureMessage(s) == StatusFailureMessage(t)
    ensures s == t
  {
  }

  // ---------------------------------------------------------------------------
  // Requests
  // ---------------------------------------------------------------------------

  /** The URL of one todo: the id appended after a '/', not encoded. */
  function TodoUrl(id: string): (url: string)
    ensures |url| == |TodosBasePath| + 1 + |id|
    ensures url[..|TodosBasePath| + 1] == "/api/todos/" && url[|TodosBasePath| + 1..] == id
  {
    TodosBasePath + "/" + id
  }

  /** `JSON.stringify` leaves out undefined properties. */
  function CreateRequestJson(request: CreateTodoValues): (j: Json)
    ensures j.JObject? && j.fields.Keys <= {"title", "description"}
    ensures "title" in j.fields && j.fields["title"] == JString(request.title)
    ensures "description" in j.fields <==> request.description.Present?
    ensures request.description.Present? ==> j.fields["description"] == NullableString(request.description.value)
  {
    var fields := map["title" := JString(request.title)];
    match request.description
    case Missing => JObject(fields)
    case Present(d) => JObject(fields["description" := NullableString(d)])
  }

  function UpdateRequestJson(request: UpdateTodoValues): (j: Json)
    ensures j.JObject? && j.fields.Keys <= {"title", "description", "isCompleted"}
    ensures "title" in j.fields <==> request.title.Present?
    ensures "description" in j.fields <==> request.description.Present?
    ensures "isCompleted" in j.fields <==> request.isCompleted.Present?
    ensures request.title.Present? ==> j.fields["title"] == JString(request.title.value)
    ensures request.description.Present? ==> j.fields["description"] == NullableString(request.description.value)
    ensures request.isCompleted.Present? ==> j.fields["isCompleted"] == JBool(request.isCompleted.value)
  {
    var withTitle := if request.title.Present? then map["title" := JString(request.title.value)] else map[];
    var withDescription :=
      if request.description.Present? then withTitle["description" := NullableString(request.description.value)]
      else withTitle;
    var withCompleted :=
      if request.isCompleted.Present? then withDescription["isCompleted" := JBool(request.isCompleted.value)]
      else withDescription;
    JObject(withCompleted)
  }

  /** `getAll`: a GET of the collection with no headers and no body. */
  function GetAllRequest(): (r: FetchRequest)
    ensures r.url == "/api/todos" && r.httpMethod == Get && r.headers == map[] && r.body == None
  {
    FetchRequest(TodosBasePath, Get, map[], None)
  }

  /** `create`: a POST of the serialized request to the collection, declared as JSON. */
  function CreateRequest(request: CreateTodoValues, serialize: Json -> string): (r: FetchRequest)
    ensures r.url == "/api/todos" && r.httpMethod == Post
    ensures r.headers == map["Content-Type" := "application/json"]
    ensures r.body == Some(serialize(CreateRequestJson(request)))
  {
    FetchRequest(TodosBasePath, Post, map[ContentTypeHeader := JsonMediaType], Some(serialize(CreateRequestJson(request))))
  }

  /** `update`: a PATCH of the serialized request to the todo's URL, declared as JSON. */
  function UpdateRequest(id: string, request: UpdateTodoValues, serialize: Json -> string): (r: FetchRequest)
    ensures r.url == "/api/todos/" + id && r.httpMethod == Patch
    ensures r.headers == map["Content-Type" := "application/json"]
    ensures r.body == Some(serialize(UpdateRequestJson(request)))
  {
    FetchRequest(TodoUrl(id), Patch, map[ContentTypeHeader := JsonMediaType], Some(serialize(UpdateRequestJson(request))))
  }

  /** `remove`: a DELETE of the todo's URL with no headers and no body. */
  function RemoveRequest(id: string): (r: FetchRequest)
    ensures r.url == "/api/todos/" + id && r.httpMethod == Delete
    ensures r.headers == map[] && r.body == None
  {
    FetchRequest(TodoUrl(id), Delete, map[], None)
  }

  /**
   * The PATCH handler's rule, the last element of the path split on '/', applied
   * to the path as the client builds it, gives back an id that holds no '/'.
   */
  lemma TodoUrlCarriesId(id: string)
    requires '/' !in id
    ensures Text.LastSegment(TodoUrl(id)) == id
  {
    Text.LastSegmentAfterSlash(TodosBasePath, id);
  }
}
