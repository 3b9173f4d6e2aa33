# Todo list: a verified model of its request and list logic

The application is a single-entity task list. A browser page creates, lists,
toggles and deletes todos. It goes through a small `fetch` wrapper to two
REST routes (`/api/todos` and `/api/todos/{id}`), and these call a repository
over a hosted `todos` table. Almost all of it is glue. This model covers the
decisions that glue makes:

- which todos the page shows under the "all", "active" and "completed"
  filters, and the task-count caption;
- the form's validation rules and the create and toggle payloads the page
  sends;
- the POST schema and the status and body of each GET and POST outcome;
- the rows the repository sends to the store: the insert row and the sparse
  update patch;
- how the repository turns the store's `{ data, error }` reply into a value
  or a thrown error;
- the request the client wrapper sends for each operation, and how it turns a
  response into a value or an error;
- the filter store: one field, initially "all", overwritten by `setFilter`.

Modules, one per source file plus two shared ones:

| module | file | models |
|---|---|---|
| `TodoTypes` | todo_types.dfy | the Todo record, the filter, JSON values, request values |
| `Text` | text.dfy | `${n}` for numbers, `String.includes`, the last element of `split("/")` |
| `TodoFilterStore` | todo_filter_store.dfy | src/lib/todo-filter-store.ts, a class with one field |
| `Page` | page.dfy | src/app/page.tsx |
| `TodosRepository` | todos_repository.dfy | src/lib/todos-repository.ts |
| `TodosRoute` | todos_route.dfy | src/app/api/todos/route.ts |
| `TodosApi` | todos_api.dfy | src/lib/todos-api.ts |
| `TodoIdRoute` | todo_id_route.dfy | the value shaping of src/app/api/todos/[id]/route.ts (see Findings) |

Conventions:

- A JavaScript property that may be `undefined` is `Optional<T>`, either
  `Missing` or `Present(v)`.
- A nullable value is `Option<T>`, either `None` or `Some(v)`. So
  `description?: string | null` is `Optional<Option<string>>`.
- A thrown error is `Result.Throws(message)`.
- Requests and store rows are `Json` values. Payloads sent to the store are
  maps from column name to value.
- The store's reply, the `fetch` response and the outcome of
  `request.json()` are inputs.
- `JSON.stringify` is a parameter `serialize: Json -> string`.

## Model

| member | source | states |
|---|---|---|
| `Page.FilterTodos` | src/app/page.tsx:96-104 | "all" returns the list unchanged; under every filter the result is a subsequence of the input and holds exactly the todos shown under that filter, each as often as in the input |
| `Page.KeepWhereCompleted` | src/app/page.tsx:97-102 | `todos.filter` on the completion flag keeps input order and keeps every todo with that flag, as many times as it occurs, and no other |
| `Page.ActiveCompletedPartition` | src/app/page.tsx:96-104 | the "active" and "completed" lists together are a permutation of the full list, so their lengths add up to its length |
| `Page.FormAccepts` | src/app/page.tsx:12-15 | the form accepts only a non-empty title, and whatever it accepts the POST schema accepts too once submitted |
| `Page.FormAgreesWithServerSchema` | src/app/page.tsx:12-15 | the form accepts input exactly when the POST schema accepts the JSON body the page then submits (title 1..200 characters, description absent or at most 1000) |
| `Page.SubmitPayload` | src/app/page.tsx:120-124 | the create request copies the title and always carries a description, null exactly when the form had none; the form's default description is "", so in practice the page sends a string |
| `Page.SubmittedFormReachesRepository` | src/app/page.tsx:120-124 | a form the page accepts reaches the repository through POST as exactly the payload the page built |
| `Page.TogglePayload` | src/app/page.tsx:128-131 | the toggle update supplies only `isCompleted`, set to the negation of the todo's flag |
| `Page.ToggleRequestBody` | src/app/page.tsx:128-131 | the toggle's JSON body is the single property `isCompleted` |
| `Page.CountLabel` | src/app/page.tsx:194 | the caption starts with the count's numeral, which reads back as the count, followed by " task" when the count is 1 and " tasks" otherwise |
| `TodosRepository.GetTodos` | src/lib/todos-repository.ts:28-36 | throws with the store's message exactly when the store reports an error; otherwise returns the rows, or an empty list when data is null |
| `TodosRepository.CreateTodo` | src/lib/todos-repository.ts:43-51 | succeeds exactly when there is no error and the data is not null, returning that row; a store error throws its message; null data throws "Todo insert returned null data" |
| `TodosRepository.UpdateTodo` | src/lib/todos-repository.ts:65-73 | same as create, with "Todo update returned null data" |
| `TodosRepository.DeleteTodo` | src/lib/todos-repository.ts:76-83 | returns the requested id whenever the store reports no error, whether or not a row matched; otherwise throws the store's message |
| `TodosRepository.StoreErrorAlwaysThrows` | src/lib/todos-repository.ts:28-83 | in all four operations a store error throws its own message, whatever data came with it |
| `TodosRepository.InsertPayload` | src/lib/todos-repository.ts:38-42 | the insert row has exactly the columns `title` and `description`, the latter null unless a string was supplied; never `is_completed`, `id` or `created_at` |
| `TodosRepository.BuildUpdatePayload` | src/lib/todos-repository.ts:54-64 | the payload built field by field equals the sparse patch of the supplied fields |
| `TodosRepository.SparsePatchFields` | src/lib/todos-repository.ts:55-64 | `title`, `description` and `is_completed` are in the patch exactly when supplied, with the supplied value; a supplied null description is kept as null |
| `TodosRepository.SparsePatchShape` | src/lib/todos-repository.ts:55-64 | the patch never holds `id` or `created_at`, and it is empty exactly when nothing was supplied |
| `TodosRepository.UpdateIsPartial` | src/lib/todos-repository.ts:55-65 | merging the patch into a stored row changes exactly the supplied fields and keeps id and creation time |
| `TodosRoute.SafeParseCreate` | src/app/api/todos/route.ts:5-8 | parsing succeeds exactly when the create schema accepts the body, carrying title and description as given; otherwise it reports at least one issue |
| `TodosRoute.CreateSchemaAccepts` | src/app/api/todos/route.ts:5-8 | the schema accepts a body exactly when it is an object and neither the title rule nor the description rule raises an issue |
| `TodosRoute.CreateSchemaIssues` | src/app/api/todos/route.ts:5-8 | no issue exactly when the schema accepts; at most two issues, each at the root, at `title` or at `description`; a title issue comes first |
| `TodosRoute.Get` | src/app/api/todos/route.ts:10-20 | 200 with the repository's list exactly when the store reports no error; otherwise 500 "Failed to fetch todos" |
| `TodosRoute.Post` | src/app/api/todos/route.ts:22-44 | the status is 201, 400 or 500; the repository is called exactly when the body parses and the schema accepts it; a 201 carries the store's row |
| `TodosRoute.PostOutcomes` | src/app/api/todos/route.ts:22-44 | 400 "Invalid payload" with issues exactly when the body parses but fails the schema, and then the repository is not called; 201 with the created todo exactly when the body is valid and the store returns a row; every other case is 500 "Failed to create todo", an unparsable body included |
| `TodosRoute.PostForwardsValues` | src/app/api/todos/route.ts:32-36 | a valid body reaches the repository with its title and `description ?? null`, so an absent description is inserted as null |
| `TodosApi.HandleJsonResponse` | src/lib/todos-api.ts:32-45 | an ok (2xx) response yields its parsed body; a failed one always throws: with the serialized error body when the content type contains "application/json" and the body parses, with `response.json()`'s own error when it does not, otherwise with "Request failed with status " and the status |
| `TodosApi.CharsetContentTypeDeclaresJson` | src/lib/todos-api.ts:37 | the test is substring containment, so "application/json; charset=utf-8" takes the JSON branch |
| `TodosApi.StatusFailureMessage` | src/lib/todos-api.ts:41 | the generic message is the fixed prefix followed by exactly the status's decimal numeral (no padding), which reads back as the status |
| `TodosApi.StatusFailureMessageInjective` | src/lib/todos-api.ts:41 | different statuses give different generic messages |
| `TodosApi.CreateRequestJson` | src/lib/todos-api.ts:72 | the serialized create request holds the title, and the description exactly when it is not undefined |
| `TodosApi.UpdateRequestJson` | src/lib/todos-api.ts:86 | the serialized update request holds exactly the supplied properties with their values |
| `TodosApi.GetAllRequest` | src/lib/todos-api.ts:57-62 | GET on exactly "/api/todos", with no headers and no body |
| `TodosApi.CreateRequest` | src/lib/todos-api.ts:64-75 | POST on exactly "/api/todos", with a JSON content-type header and the serialized request as body |
| `TodosApi.UpdateRequest` | src/lib/todos-api.ts:77-89 | PATCH on "/api/todos/" followed by the id, not encoded, with a JSON content-type header and the serialized request as body |
| `TodosApi.RemoveRequest` | src/lib/todos-api.ts:91-96 | DELETE on "/api/todos/" followed by the id, with no headers and no body |
| `TodosApi.TodoUrl` | src/lib/todos-api.ts:81 | the URL of one todo is "/api/todos/" followed by the id, not encoded (also used at line 92) |
| `TodosApi.TodoUrlCarriesId` | src/lib/todos-api.ts:81 | the last-element-of-split("/") rule, applied to the path as the client builds it, gives back an id that holds no '/' |
| `Text.Includes` | src/lib/todos-api.ts:37 | `s.includes(sub)` holds exactly when `sub` occurs at some index of `s` |
| `Text.Decimal` | src/lib/todos-api.ts:41 | the numeral is non-empty, all digits, and has no leading zero |
| `Text.DecimalRoundTrip` | src/lib/todos-api.ts:41 | reading the numeral of `n` back gives `n` |
| `Text.LastSegment` | src/lib/todos-api.ts:81 | the rule the PATCH handler (src/app/api/todos/[id]/route.ts, lines 21-26) applies to the parsed pathname: the result is the longest suffix of the path without a '/' |
| `Text.LastSegmentAfterSlash` | src/lib/todos-api.ts:81 | the last segment of `prefix + "/" + id` is `id` when `id` holds no '/' |
| `TodoFilterStore.FilterStore.constructor` | src/lib/todo-filter-store.ts:11 | the initial filter is "all" |
| `TodoFilterStore.FilterStore.SetFilter` | src/lib/todo-filter-store.ts:12 | after `setFilter(v)` the filter is `v` |
| `TodoFilterStore.SetFilterIdempotent` | src/lib/todo-filter-store.ts:12 | setting the same value twice equals setting it once |
| `TodoFilterStore.ReplayYieldsLast` | src/lib/todo-filter-store.ts:12 | after a sequence of `setFilter` calls the filter is the last value set, or unchanged when there were none |
| `TodoIdRoute.PatchValuesAsWritten` | src/lib/todos-repository.ts:59-61 | as written, the PATCH handler (src/app/api/todos/[id]/route.ts, lines 48-52) passes title and completion flag on, and always gives this check a description: the supplied one, string or null, or null when the request had none |
| `TodoIdRoute.ToggleClearsDescriptionAsWritten` | src/lib/todos-repository.ts:59-61 | as written, a toggle's patch sets the description column to null and the updated row loses its description |
| `TodoIdRoute.ToggleCounterexample` | src/lib/todos-repository.ts:59-61 | toggling "Buy milk" with description "2 litres" yields a completed row with no description |
| `TodoIdRoute.PatchValues` | src/lib/todos-repository.ts:54-64 | corrected, the PATCH handler passes the parsed values on unchanged, so `updateTodo` gets exactly the fields the request supplied, with their values |
| `TodoIdRoute.ToggleChangesOnlyCompletion` | src/app/page.tsx:128-131 | corrected, a toggle's patch is the completion column alone and changes only the completion flag |
| `TodoIdRoute.PatchIsPartial` | src/lib/todos-repository.ts:54-65 | corrected, a PATCH changes exactly the fields it supplies and keeps id and creation time |

## Left out

- The store is not modelled. Its `{ data, error }` reply is an input. This
  leaves out ordering by `created_at`, row matching on update and delete, and
  id and timestamp generation. `MergePatch` states only how a patch is meant
  to merge into a stored row.
- `fetch`, `response.json()` and `request.json()` are inputs: a response
  record, and a value or the error that was thrown. `JSON.stringify` is an
  uninterpreted parameter.
- The page's JSX, CSS classes, react-hook-form mechanics and loading states
  are not modelled, and neither is the `form.reset` after a submit.
- The count caption is modelled as one string. The page renders the numeral
  and " task"/"s" as adjacent text nodes.
- The data-fetching hooks (src/lib/todos-hooks.ts) wrap the client in a
  query cache and invalidate it after mutations. That is library behaviour
  and is not part of this model.
- src/lib/supabase-client.ts (environment variables, client construction) and
  src/app/providers.tsx are not part of this model.
- The PATCH handler's schema (including its at-least-one-field rule) and its
  "Missing todo id" branch are not modelled. `TodoIdRoute` takes the schema's
  output as given and models only how the handler shapes it for the
  repository. The shown `[id]` route exports only PATCH; what the server does
  with the client's DELETE is not part of this model.
- Routing is not modelled. The client appends the id to the URL without
  encoding it. An id holding a '/' gives a path with two segments after
  `/api/todos`, which the single `[id]` segment does not match.
- URL parsing is not modelled. The PATCH handler splits
  `request.nextUrl.pathname`, the parsed URL. `TodosApi.TodoUrlCarriesId`
  splits the path as the client builds it. An id holding '?', '#', '\', '%',
  a space or non-ASCII text, or equal to "." or "..", can come back
  different after parsing.
- The JSON round trip between client and server is assumed.
  `Page.FormAgreesWithServerSchema` and `Page.SubmittedFormReachesRepository`
  give the server's `request.json()` the value the client passed to
  `JSON.stringify`. `serialize` is otherwise uninterpreted.
- String length is sequence length over Unicode characters. The zod limits
  (1..200, at most 1000) count UTF-16 code units, so text outside the Basic
  Multilingual Plane counts differently.
- zod issues are reduced to a path and a kind (wrong type, too short, too
  long). zod's messages and other issue fields are not modelled.
- JSON numbers are integers here, since floating point is not modelled. A
  body's unknown keys are ignored, as zod's object parsing strips them.
- `TodoFilterStore.FilterStore.SetFilter`: the zustand `set` merge and
  subscriber notification are not modelled, only the field update.
- The filter is always one of "all", "active" and "completed" because
  `TodoFilter` has exactly those three values. No separate lemma states it.

## Findings

| source | as written | input that shows it | evidently intended | confidence | as-written member | corrected member |
|---|---|---|---|---|---|---|
| src/app/api/todos/[id]/route.ts:48-52 | the handler passes `description: parsed.data.description ?? null`. A body without a description therefore reaches `updateTodo` with a null description, which lands in the patch, since the repository tests only for `undefined` (src/lib/todos-repository.ts:59-61) | the page's toggle sends `{"isCompleted": true}` for a todo with description "2 litres"; the store is asked to set `description` to null | an update changes only the fields the request supplies (a toggle leaves title and description unchanged) | high; not executed | `TodoIdRoute.ToggleClearsDescriptionAsWritten` | `TodoIdRoute.ToggleChangesOnlyCompletion` |
