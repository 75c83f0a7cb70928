# Todo API core, modelled in Dafny

An Express application keeps todos in memory behind a small JSON API.
`src/utils.ts` has the priority constants, the priority type guard, the
error payload constructor, the stable priority sort and the two lookups
by id. `src/app.ts` has the module-level `todos` array, `resetTodos`, and
the handlers:

- `GET /todos`: an optional `completed` filter, then a priority sort;
- `POST /todos`: title validation, trimming and the default priority;
- `PUT /todos/:id/complete`: marks a record completed;
- `DELETE /todos/:id`: removes a record with `splice`;
- the handler that turns a JSON syntax error into `Invalid JSON`.

The model has four modules:

- `Types` (`types.dfy`) holds the records: `Priority`, `Todo` and
  `ErrorResponse`, plus an `Option` that stands for `T | undefined`.
- `JsValues` (`js_values.dfy`) holds the JavaScript behaviour the handlers
  depend on:
  - a `Value` datatype for a field of a parsed JSON body or of a query
    string;
  - truthiness (`!v`);
  - `String.prototype.trim`, over the ECMAScript WhiteSpace and
    LineTerminator code points.
- `Utils` (`utils.dfy`) models `src/utils.ts`. `sortByPriority` copies the
  array and calls the built-in sort, which is stable. The model writes it
  as a stable insertion sort with the same comparator. It then proves the
  result is a permutation, sorted by rank, and keeps each priority's
  records in input order. From that it proves the result equals, and is
  the only sequence with those properties equal to, the reference
  definition "highs, then mediums, then lows, each in input order". So it
  is the result any stable sort gives.
- `App` (`app.dfy`) models `src/app.ts`. The module-level array becomes
  the class `TodoStore`, with a `todos: seq<Todo>` field that the handlers
  reassign:
  - `Reset` is `resetTodos`.
  - `Create` is POST. It runs the pure validation `NewTodo` and then
    appends.
  - `Complete` is PUT. It overwrites the record that `find` returned.
  - `Delete` is DELETE. It splices out the first record with the id.
  - `List` is GET. It only reads the store.

  Each state-changing method states the whole new state exactly, as a
  function of the old one (`MarkCompleted`, `WithoutFirst`). It also keeps
  the store invariant `Valid`: every stored title is non-empty and has no
  surrounding whitespace.

What `Create` needs from its environment becomes a parameter:

- The id (`Date.now().toString()`) is a string parameter.
- The timestamp (`new Date()`) is an `int` parameter, in milliseconds.
- A body that `express.json()` could not parse is the request value
  `Unparsable`, which answers `Invalid JSON`.

The source never makes ids unique. Two creates in the same millisecond get
the same id, and then complete and delete always act on the first of them.
The model therefore does not assume unique ids. The uniqueness lemmas show
what holds when callers do supply fresh ids. `CompletedFilterScenario`
shows its property holds with or without that.

## Model

| member | source | states |
|---|---|---|
| Types.FromName | src/types.ts:1 | narrowing a string to a priority succeeds exactly on the three literals, and gives back the literal it was given |
| Types.NameRoundTrip | src/types.ts:1 | each priority's literal narrows back to that priority, and distinct priorities have distinct literals |
| JsValues.Trim | src/app.ts:45 | trim's result never starts or ends with whitespace, is no longer than its input, and is empty exactly when the input is all whitespace |
| JsValues.TrimStart | src/app.ts:55 | the suffix left after the longest whitespace prefix: everything dropped is whitespace and the first character kept is not |
| JsValues.TrimEnd | src/app.ts:55 | the prefix left before the longest whitespace suffix: everything dropped is whitespace and the last character kept is not |
| JsValues.TrimIdempotent | src/app.ts:55 | trimming an already trimmed title changes nothing |
| Utils.PriorityOrder | src/utils.ts:4-8 | each priority's rank is the 1-based position of its literal in the list of valid priorities |
| Utils.CreateErrorResponse | src/utils.ts:20-22 | the payload carries exactly the given message |
| Utils.Compare | src/utils.ts:26-28 | the comparator is zero exactly for equal priorities and negative exactly when the first record is high and the second is not, or the first is medium and the second low |
| Utils.PriorityOrderIsStrict | src/utils.ts:4-8 | the ranks are high 1, medium 2, low 3, strictly increasing in that order and injective |
| Utils.DefaultPriorityIsMedium | src/utils.ts:10 | `DEFAULT_PRIORITY` (the constant `Utils.DefaultPriority`) is medium, one of the valid priorities, ranked between high and low |
| Utils.ValidPrioritiesInRankOrder | src/utils.ts:12 | `VALID_PRIORITIES` (the constant `Utils.ValidPriorities`) is the literals "high", "medium", "low", naming every priority, the literal at position i narrowing to the priority of rank i + 1 |
| Utils.IsValidPriority | src/utils.ts:12-17 | the guard holds exactly for the strings "high", "medium" and "low", and a value that passes narrows to a priority |
| Utils.IsValidPriorityExactlyNames | src/utils.test.ts:13-26 | every priority literal passes; any other string, "", null, undefined and every number fail |
| Utils.SortByPriority | src/utils.ts:25-29 | the sorted copy is a permutation of the input, ordered by rank, and each priority's records stay in input order |
| Utils.SortByPriorityIsBuckets | src/utils.ts:25-29 | the sorted copy is the high records, then the medium ones, then the low ones, each group in input order |
| Utils.SortByPriorityUnique | src/utils.ts:25-29 | any rank-ordered sequence that keeps each priority's records in input order is the sorted copy, so every stable sort gives the same answer |
| Utils.InsertSorted | src/utils.ts:26-28 | inserting a record into a rank-ordered sequence keeps it rank-ordered |
| Utils.InsertStable | src/utils.ts:26-28 | inserting a record places it before the records of its own priority that are already there, which is the stable step for the head of the input |
| Utils.SortedIsBuckets | src/utils.ts:25-29 | a rank-ordered sequence is its highs, then its mediums, then its lows |
| Utils.FindTodoById | src/utils.ts:32-34 | nothing is found exactly when no record has the id; otherwise the result is the record at the first position holding the id |
| Utils.FindTodoIndexById | src/utils.ts:37-39 | the answer is -1 exactly when no record has the id; otherwise it is the first position holding the id |
| Utils.FindAgreesWithFindIndex | src/utils.ts:32-39 | find returns the record at the position findIndex returns, and nothing when findIndex returns -1 |
| App.Message | src/app.ts:46 | the message of each failure is one of the literals "Title is required" (src/app.ts:46), "Todo not found" (src/app.ts:71, 85) and "Invalid JSON" (src/app.ts:96) |
| App.ErrorResponsesDistinct | src/app.ts:46 | the error payloads "Title is required", "Todo not found" and "Invalid JSON" are pairwise different, so the payload identifies the failure |
| App.TitleRejected | src/app.ts:45-48 | the title guard rejects exactly what is not a string holding a non-whitespace character: missing, null, numbers, booleans, objects, "" and whitespace-only strings |
| App.ResolvePriority | src/app.ts:51 | a priority literal is taken as that priority; anything the guard refuses falls back to the default |
| App.CleanTitleIffTrimmed | src/app.ts:55 | the invariant on stored titles holds exactly for the non-blank titles that trim leaves unchanged |
| App.NewTodo | src/app.ts:42-59 | an unparsable body gives Invalid JSON; a body whose title is not a string with text gives Title is required; otherwise the body is accepted, and the new record has the given id and time, the trimmed title, completed false and the resolved priority, and its title is clean |
| App.PriorityNeverRejects | src/app.ts:50-51 | a create's acceptance does not depend on its priority field, and an absent priority gives medium |
| App.FilterCompleted | src/app.ts:30-32 | `todos.filter(t => t.completed === b)` is no longer than its input; which records it keeps is stated by `App.FilterCompletedCounts` |
| App.FilterCompletedCounts | src/app.ts:29-33 | filtering keeps every copy of each record whose flag matches and nothing else |
| App.FilterCompletedCommutes | src/app.ts:29-36 | filtering by completion and selecting one priority commute |
| App.Matching | src/app.ts:27-33 | with `completed` equal to "true" or "false" only records with that flag remain, and every copy of them does; any other value keeps the whole store |
| App.MatchingCommutes | src/app.ts:27-36 | within each priority the filtered list keeps the store's order |
| App.MarkCompleted | src/app.ts:66-77 | the new store has the same length and the same records except for the completed flag, which is newly set exactly at the first position holding the id |
| App.WithoutFirst | src/app.ts:80-91 | with no record holding the id the store is unchanged; otherwise it is one record shorter, has lost exactly that record, and keeps the others in order |
| App.SpliceRemovesOne | src/app.ts:89 | `splice(i, 1)` removes one copy of the element at i and shifts the later elements down by one |
| App.AppendFreshIdKeepsUnique | src/app.ts:53-61 | appending a record with a fresh id keeps ids unique |
| App.MarkCompletedKeepsUnique | src/app.ts:75 | completing a record keeps ids unique |
| App.WithoutFirstRemovesId | src/app.ts:89 | with unique ids, delete keeps them unique and leaves no record with the deleted id |
| App.MarkCompletedMarksId | src/app.ts:68-75 | with unique ids, the record holding the id ends up completed |
| App.MarkCompletedIdempotent | src/app.ts:66-77 | completing the same id twice leaves the store as one completion does |
| App.SameIdsSameIndex | src/utils.ts:37-39 | findIndex depends only on the ids, so changing a completed flag does not move the first match |
| App.AppendKeepsClean | src/app.ts:61 | appending a record with a clean title keeps every stored title clean |
| App.TodoStore.constructor | src/app.ts:16 | the module-level todo list starts empty, so the new store holds no todos and satisfies its invariant |
| App.TodoStore.List | src/app.ts:24-39 | the listing is rank-ordered, holds exactly the records the filter keeps with their multiplicities, and within each priority keeps the store's order |
| App.TodoStore.Reset | src/app.ts:19-21 | the store is empty afterwards |
| App.TodoStore.Create | src/app.ts:42-63 | the answer is `NewTodo`'s; a failure leaves the store unchanged, and a success appends exactly the new record; the store invariant is kept |
| App.TodoStore.Complete | src/app.ts:66-77 | with no record holding the id the answer is Todo not found; otherwise the answer is the found record with completed set, and that record is in the store, which becomes `MarkCompleted` of the old store |
| App.TodoStore.Delete | src/app.ts:80-91 | with no record holding the id the answer is Todo not found; otherwise the answer is the first record with the id, and the store becomes `WithoutFirst` of the old store |
| App.CreateKeepsCleanInput | src/app.ts:45-59 | a clean title sent with a priority literal is stored exactly as sent, with that priority |
| App.CreateDefaultsPriority | src/app.test.ts:31-42 | a clean title sent without a priority is stored as sent, at priority medium |
| App.SortThree | src/utils.test.ts:37-67 | a low, a high and a medium record sort to high, medium, low |
| App.PriorityOrderScenario | src/app.test.ts:87-102 | on a reset store, creating a low, a high and a medium todo and listing them all gives the high, then the medium, then the low todo |
| App.CompletedFilterScenario | src/app.test.ts:104-135 | after creating two todos and completing the first, the completed=true listing holds the first, now completed, and completed=false the second; the same holds when their ids coincide |
| App.DeleteScenario | src/app.test.ts:170-188 | a created todo deleted by its id is what the delete answers, and the store lists nothing afterwards |

## Left out

- HTTP plumbing is not modelled: Express routing, status codes (200, 201, 400, 404, 500), JSON serialisation of responses and `res.json`.
- The global error handler (src/app.ts:103-106) is not modelled. It logs to the console and answers `Internal server error`. No error reaches it: the JSON error handler calls `next()` without passing the error on (src/app.ts:99), which clears it, so a request whose error is not a body syntax error ends in Express's default 404 answer instead.
- The JSON error handler's `next()` branch (src/app.ts:99) is not modelled, because it covers errors other than a body syntax error. The syntax-error branch is the `Unparsable` request.
  Its most reachable case: `express.json()` refuses a body over its default limit of 100kb with an error that is not a syntax error. The handler drops that error, so the source answers Express's 404, while the model accepts the same create as `Body(Str(...), ...)` with the long title. Body size is not modelled.
- `express.json()` and the Invalid JSON handler apply to every route (src/app.ts:14, 94-100), so a GET, PUT or DELETE request with a malformed JSON body also answers `Invalid JSON` before its handler runs. Only create takes an `Unparsable` body in the model; the other operations are modelled for well-formed requests only.
- `Date.now()` and `new Date()` are not modelled. The create handler's id and timestamp are parameters of `NewTodo` and `TodoStore.Create`. `createdAt` is an `int` of milliseconds, not a `Date` object or its JSON string.
- `TodoStore.Create`: does not ensure ids are unique, because the source does not.
- JS numbers are modelled as `int`. NaN, -0 and fractions do not affect any guard here: a number is never a valid title or priority, and 0 and NaN are both falsy.
- Strings are sequences of code points. Lone UTF-16 surrogates are not modelled.
- Array and object field values are the single value `Composite`. The handlers only test such values for truthiness, type and equality with a string.
- A request body that parses to something other than an object is not modelled. An array body behaves like `{}` (no title); `express.json()` in strict mode refuses the rest before the handler runs.
- Object identity is not modelled. The source mutates the object `find` returned, and the model writes the updated record back at the first position holding the id, which is the same record. A caller that kept another reference to that object would see the change in the source; there is no such caller in the core.
- The input-not-mutated promise of `sortByPriority` (src/utils.test.ts:69-84) holds by construction, since the model's sequences are values.
