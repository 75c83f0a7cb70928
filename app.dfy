/** The request handlers of the todo API with the HTTP layer stripped off:
    a store of todos and the create, list, complete, delete and reset
    operations on it. */
module App {
  import opened Types
  import opened JsValues
  import opened Utils

  /** The body of a create request: either it failed to parse as JSON, or
      it is an object whose `title` and `priority` fields (possibly
      `Undefined`) are given. */
  datatype CreateTodoRequest = Unparsable | Body(title: Value, priority: Value)

  /** The error kinds the handlers report. */
  datatype Failure = TitleRequired | TodoNotFound | InvalidJson

  /** What an operation answers: the record, or an error. */
  datatype Outcome = Ok(todo: Todo) | Fail(failure: Failure)

  /** The messages the handlers pass to `createErrorResponse`. */
  function Message(f: Failure): (m: string)
    ensures m in ["Title is required", "Todo not found", "Invalid JSON"]
  {
    match f
    case TitleRequired => "Title is required"
    case TodoNotFound => "Todo not found"
    case InvalidJson => "Invalid JSON"
  }

  /** The three error payloads are distinct, so a client can tell the
      failures apart from the `{ error }` body alone. */
  lemma ErrorResponsesDistinct(f: Failure, g: Failure)
    requires CreateErrorResponse(Message(f)) == CreateErrorResponse(Message(g))
    ensures f == g
  {
    assert Message(TitleRequired)[1] == 'i' && Message(TodoNotFound)[1] == 'o' && Message(InvalidJson)[1] == 'n';
  }

  /** The create handler's guard `!title || typeof title !== 'string' ||
      title.trim() === ''`. It rejects exactly the titles that are not
      strings holding some non-whitespace character: absent, null, numbers,
      booleans, objects, "" and whitespace-only strings. */
  function TitleRejected(title: Value): (b: bool)
    ensures b <==> !(title.Str? && !Blank(title.s))
    ensures !b ==> title.Str? && CleanTitle(Trim(title.s))
  {
    !Truthy(title) || !title.Str? || Trim(title.s) == ""
  }

  /** `priority && isValidPriority(priority) ? priority : DEFAULT_PRIORITY`. */
  function ResolvePriority(priority: Value): (r: Priority)
    ensures forall p :: priority == Str(Name(p)) ==> r == p
    ensures !IsValidPriority(priority) ==> r == DefaultPriority
  {
    if Truthy(priority) && IsValidPriority(priority) then FromName(priority.s).value
    else DefaultPriority
  }

  /** What a stored title looks like: non-empty, and neither starting nor
      ending with whitespace. */
  predicate CleanTitle(title: string) {
    title != [] && !IsWhitespace(title[0]) && !IsWhitespace(title[|title| - 1])
  }

  /** Those are exactly the titles that are not blank and that trim leaves
      as they are. */
  lemma CleanTitleIffTrimmed(title: string)
    ensures CleanTitle(title) <==> !Blank(title) && Trim(title) == title
  {
    if CleanTitle(title) {
      assert TrimStart(title) == title;
      assert TrimEnd(title) == title;
    }
  }

  /** What a create request yields before the store is touched: the JSON
      parse error, the title error, or the new record. */
  function NewTodo(body: CreateTodoRequest, id: string, createdAt: int): (r: Outcome)
    ensures r == Fail(InvalidJson) <==> body.Unparsable?
    ensures r == Fail(TitleRequired) <==> body.Body? && !(body.title.Str? && !Blank(body.title.s))
    ensures r.Ok? ==> body.Body? && body.title.Str?
                      && r.todo == Todo(id, Trim(body.title.s), false, ResolvePriority(body.priority), createdAt)
    ensures r.Ok? ==> CleanTitle(r.todo.title)
    ensures body.Body? && body.title.Str? && !Blank(body.title.s) ==> r.Ok?
  {
    match body
    case Unparsable => Fail(InvalidJson)
    case Body(title, priority) =>
      if TitleRejected(title) then Fail(TitleRequired)
      else Ok(Todo(id, Trim(title.s), false, ResolvePriority(priority), createdAt))
  }

  /** Whether the list filter `completed` keeps record `t`. */
  predicate Keeps(completed: Value, t: Todo) {
    (completed == Str("true") ==> t.completed) && (completed == Str("false") ==> !t.completed)
  }

  /** `todos.filter(t => t.completed === b)`. */
  function FilterCompleted(s: seq<Todo>, b: bool): (r: seq<Todo>)
    ensures |r| <= |s|
  {
    if s == [] then []
    else (if s[0].completed == b then [s[0]] else []) + FilterCompleted(s[1..], b)
  }

  /** The filter keeps every copy of each record whose flag is `b` and
      nothing else. */
  lemma {:induction false} FilterCompletedCounts(s: seq<Todo>, b: bool, t: Todo)
    ensures multiset(FilterCompleted(s, b))[t] == if t.completed == b then multiset(s)[t] else 0
  {
    if s != [] {
      assert s == [s[0]] + s[1..];
      FilterCompletedCounts(s[1..], b, t);
    }
  }

  /** Filtering on completion and selecting one priority commute. */
  lemma {:induction false} FilterCompletedCommutes(s: seq<Todo>, b: bool, p: Priority)
    ensures WithPriority(FilterCompleted(s, b), p) == FilterCompleted(WithPriority(s, p), b)
  {
    if s != [] {
      var head := if s[0].completed == b then [s[0]] else [];
      FilterCompletedCommutes(s[1..], b, p);
      WithPriorityConcat(head, FilterCompleted(s[1..], b), p);
      FilterCompletedConcat(if s[0].priority == p then [s[0]] else [], WithPriority(s[1..], p), b);
    }
  }

  lemma {:induction false} FilterCompletedConcat(a: seq<Todo>, c: seq<Todo>, b: bool)
    ensures FilterCompleted(a + c, b) == FilterCompleted(a, b) + FilterCompleted(c, b)
  {
    if a == [] {
      assert a + c == c;
    } else {
      assert (a + c)[0] == a[0] && (a + c)[1..] == a[1..] + c;
      FilterCompletedConcat(a[1..], c, b);
      var head := if a[0].completed == b then [a[0]] else [];
      assert FilterCompleted(a + c, b) == head + FilterCompleted(a[1..] + c, b);
      assert FilterCompleted(a, b) == head + FilterCompleted(a[1..], b);
    }
  }

  /** The filtering step of the list handler. */
  function Matching(s: seq<Todo>, completed: Value): (r: seq<Todo>)
    ensures forall t :: multiset(r)[t] == if Keeps(completed, t) then multiset(s)[t] else 0
  {
    forall t ensures multiset(FilterCompleted(s, true))[t] == if t.completed then multiset(s)[t] else 0 {
      FilterCompletedCounts(s, true, t);
    }
    forall t ensures multiset(FilterCompleted(s, false))[t] == if !t.completed then multiset(s)[t] else 0 {
      FilterCompletedCounts(s, false, t);
    }
    if completed == Str("true") then FilterCompleted(s, true)
    else if completed == Str("false") then FilterCompleted(s, false)
    else s
  }

  /** Matching keeps, within each priority, the store's order. */
  lemma MatchingCommutes(s: seq<Todo>, completed: Value, p: Priority)
    ensures WithPriority(Matching(s, completed), p) == Matching(WithPriority(s, p), completed)
  {
    if completed == Str("true") {
      FilterCompletedCommutes(s, true, p);
    } else if completed == Str("false") {
      FilterCompletedCommutes(s, false, p);
    }
  }

  /** State after complete: the first record with `id` is marked completed. */
  function MarkCompleted(s: seq<Todo>, id: string): (r: seq<Todo>)
    ensures |r| == |s|
    ensures forall k | 0 <= k < |s| :: r[k] == s[k].(completed := r[k].completed)
    ensures forall k | 0 <= k < |s| :: r[k].completed == (s[k].completed || k == FindTodoIndexById(s, id))
  {
    var i := FindTodoIndexById(s, id);
    if i == -1 then s else s[i := s[i].(completed := true)]
  }

  /** State after delete: the first record with `id` is spliced out. */
  function WithoutFirst(s: seq<Todo>, id: string): (r: seq<Todo>)
    ensures FindTodoIndexById(s, id) == -1 ==> r == s
    ensures FindTodoIndexById(s, id) >= 0 ==>
              |r| == |s| - 1
              && multiset(r) + multiset{s[FindTodoIndexById(s, id)]} == multiset(s)
              && (forall k | 0 <= k < FindTodoIndexById(s, id) :: r[k] == s[k])
              && (forall k | FindTodoIndexById(s, id) <= k < |r| :: r[k] == s[k + 1])
  {
    var i := FindTodoIndexById(s, id);
    if i == -1 then s
    else
      var r := s[..i] + s[i + 1..];
      SpliceRemovesOne(s, i, r);
      r
  }

  /** `splice(i, 1)` removes the one element at `i` and shifts the rest down. */
  lemma SpliceRemovesOne(s: seq<Todo>, i: nat, r: seq<Todo>)
    requires i < |s| && r == s[..i] + s[i + 1..]
    ensures |r| == |s| - 1
    ensures multiset(r) + multiset{s[i]} == multiset(s)
    ensures forall k | 0 <= k < i :: r[k] == s[k]
    ensures forall k | i <= k < |r| :: r[k] == s[k + 1]
  {
    assert s == s[..i] + [s[i]] + s[i + 1..];
  }

  /** No two records share an id. The source takes ids from the clock and
      does not check this; the lemmas below show the operations keep it
      whenever callers supply fresh ids. */
  predicate UniqueIds(s: seq<Todo>) {
    forall i, j | 0 <= i < j < |s| :: s[i].id != s[j].id
  }

  lemma AppendFreshIdKeepsUnique(s: seq<Todo>, t: Todo)
    requires UniqueIds(s)
    requires forall k | 0 <= k < |s| :: s[k].id != t.id
    ensures UniqueIds(s + [t])
  {
  }

  lemma MarkCompletedKeepsUnique(s: seq<Todo>, id: string)
    requires UniqueIds(s)
    ensures UniqueIds(MarkCompleted(s, id))
  {
    var r := MarkCompleted(s, id);
    assert forall k | 0 <= k < |s| :: r[k].id == s[k].id;
  }

  /** With unique ids, deleting an id removes every record carrying it. */
  lemma {:induction false} WithoutFirstRemovesId(s: seq<Todo>, id: string)
    requires UniqueIds(s)
    ensures UniqueIds(WithoutFirst(s, id))
    ensures forall t | t in WithoutFirst(s, id) :: t.id != id
  {
    var r := WithoutFirst(s, id);
    var i := FindTodoIndexById(s, id);
    if i >= 0 {
      forall a, b | 0 <= a < b < |r| ensures r[a].id != r[b].id {
        var a', b' := if a < i then a else a + 1, if b < i then b else b + 1;
        assert r[a] == s[a'] && r[b] == s[b'];
      }
      forall t | t in r ensures t.id != id {
        var k :| 0 <= k < |r| && r[k] == t;
        assert r[k] == s[if k < i then k else k + 1];
      }
    }
  }

  /** With unique ids, complete marks the one record carrying the id. */
  lemma MarkCompletedMarksId(s: seq<Todo>, id: string)
    requires UniqueIds(s)
    ensures forall k | 0 <= k < |s| :: s[k].id == id ==> MarkCompleted(s, id)[k].completed
  {
  }

  /** Completing the same id twice leaves the store as one call does. */
  lemma {:induction false} MarkCompletedIdempotent(s: seq<Todo>, id: string)
    ensures MarkCompleted(MarkCompleted(s, id), id) == MarkCompleted(s, id)
  {
    var r := MarkCompleted(s, id);
    SameIdsSameIndex(s, r, id);
  }

  /** findIndex looks at ids only. */
  lemma {:induction false} SameIdsSameIndex(s: seq<Todo>, t: seq<Todo>, id: string)
    requires |s| == |t| && forall k | 0 <= k < |s| :: s[k].id == t[k].id
    ensures FindTodoIndexById(s, id) == FindTodoIndexById(t, id)
  {
    if s != [] {
      SameIdsSameIndex(s[1..], t[1..], id);
    }
  }

  /** A create request is never rejected because of its priority: only the
      body's parse and its title decide. */
  lemma PriorityNeverRejects(title: Value, p1: Value, p2: Value, id: string, createdAt: int)
    ensures NewTodo(Body(title, p1), id, createdAt).Ok? == NewTodo(Body(title, p2), id, createdAt).Ok?
    ensures NewTodo(Body(title, p1), id, createdAt).Ok? ==> NewTodo(Body(title, Undefined), id, createdAt).todo.priority == Medium
  {
  }

  /** Appending a record with a clean title keeps every title clean. */
  lemma AppendKeepsClean(s: seq<Todo>, t: Todo)
    requires forall k | 0 <= k < |s| :: CleanTitle(s[k].title)
    requires CleanTitle(t.title)
    ensures forall k | 0 <= k < |s + [t]| :: CleanTitle((s + [t])[k].title)
  {
    forall k | 0 <= k < |s + [t]| ensures CleanTitle((s + [t])[k].title) {
      if k < |s| {
        assert (s + [t])[k] == s[k];
      }
    }
  }

  /** The module-level `todos` array and the handlers acting on it. */
  class TodoStore {
    var todos: seq<Todo>

    /** Every stored title came through create's validation. */
    ghost predicate Valid()
      reads this
    {
      forall k | 0 <= k < |todos| :: CleanTitle(todos[k].title)
    }

    constructor ()
      ensures Valid() && todos == []
    {
      todos := [];
    }

    /** `resetTodos`. */
    method Reset()
      modifies this
      ensures Valid() && todos == []
    {
      todos := [];
    }

    /** GET /todos: the records the `completed` query keeps, stably sorted
        by priority; the store is only read. */
    function List(completed: Value): (r: seq<Todo>)
      reads this
      ensures Sorted(r)
      ensures forall t :: multiset(r)[t] == if Keeps(completed, t) then multiset(todos)[t] else 0
      ensures forall p :: WithPriority(r, p) == Matching(WithPriority(todos, p), completed)
    {
      forall p ensures WithPriority(Matching(todos, completed), p) == Matching(WithPriority(todos, p), completed) {
        MatchingCommutes(todos, completed, p);
      }
      SortByPriority(Matching(todos, completed))
    }

    /** POST /todos (and the invalid-JSON handler for an unparsable body). */
    method Create(body: CreateTodoRequest, id: string, createdAt: int) returns (r: Outcome)
      requires Valid()
      modifies this
      ensures Valid()
      ensures r == NewTodo(body, id, createdAt)
      ensures r.Fail? ==> todos == old(todos)
      ensures r.Ok? ==> todos == old(todos) + [r.todo]
    {
      r := NewTodo(body, id, createdAt);
      if r.Ok? {
        AppendKeepsClean(todos, r.todo);
        todos := todos + [r.todo];
      }
    }

    /** PUT /todos/:id/complete. */
    method Complete(id: string) returns (r: Outcome)
      requires Valid()
      modifies this
      ensures Valid()
      ensures todos == MarkCompleted(old(todos), id)
      ensures FindTodoById(old(todos), id).None? ==> r == Fail(TodoNotFound)
      ensures FindTodoById(old(todos), id).Some? ==>
                r == Ok(FindTodoById(old(todos), id).value.(completed := true)) && r.todo in todos
    {
      var found := FindTodoById(todos, id);
      if found.None? {
        return Fail(TodoNotFound);
      }
      // The found object lives at the first index holding the id.
      var index := FindTodoIndexById(todos, id);
      FindAgreesWithFindIndex(todos, id);
      todos := todos[index := found.value.(completed := true)];
      r := Ok(todos[index]);
    }

    /** DELETE /todos/:id. */
    method Delete(id: string) returns (r: Outcome)
      requires Valid()
      modifies this
      ensures Valid()
      ensures todos == WithoutFirst(old(todos), id)
      ensures FindTodoIndexById(old(todos), id) == -1 ==> r == Fail(TodoNotFound)
      ensures FindTodoIndexById(old(todos), id) >= 0 ==> r == Ok(old(todos)[FindTodoIndexById(old(todos), id)])
    {
      var index := FindTodoIndexById(todos, id);
      if index == -1 {
        return Fail(TodoNotFound);
      }
      r := Ok(todos[index]);
      todos := todos[..index] + todos[index + 1..];
    }
  }

  /** A title that already has no surrounding whitespace, sent with a valid
      priority literal, is stored exactly as sent. */
  lemma CreateKeepsCleanInput(title: string, p: Priority, id: string, createdAt: int)
    requires CleanTitle(title)
    ensures NewTodo(Body(Str(title), Str(Name(p))), id, createdAt) == Ok(Todo(id, title, false, p, createdAt))
  {
    assert TrimStart(title) == title;
    assert TrimEnd(title) == title;
    NameRoundTrip(p);
  }

  lemma SortTwo(t2: Todo, t3: Todo)
    requires t2.priority == High && t3.priority == Medium
    ensures SortByPriority([t2, t3]) == [t2, t3]
  {
    assert [t2, t3][1..] == [t3] && [t3][1..] == [];
    assert SortByPriority([t3]) == [t3];
  }

  lemma InsertLowLast(t1: Todo, t2: Todo, t3: Todo)
    requires t1.priority == Low && t2.priority == High && t3.priority == Medium
    ensures Insert(t1, [t2, t3]) == [t2, t3, t1]
  {
    assert [t2, t3][1..] == [t3] && [t3][1..] == [];
    assert Insert(t1, [t3]) == [t3, t1];
  }

  /** The three records of the scenario below, stably sorted. */
  lemma SortThree(t1: Todo, t2: Todo, t3: Todo)
    requires t1.priority == Low && t2.priority == High && t3.priority == Medium
    ensures SortByPriority([t1, t2, t3]) == [t2, t3, t1]
  {
    assert [t1, t2, t3][1..] == [t2, t3];
    SortTwo(t2, t3);
    InsertLowLast(t1, t2, t3);
  }

  /** Listing the scenario's store without a filter. */
  lemma ListAllThree(s: seq<Todo>, t1: Todo, t2: Todo, t3: Todo)
    // The appended form is what three calls of `Create` produce; taking it
    // here keeps the scenario's own proof within the resource budget.
    requires s == [] + [t1] + [t2] + [t3]
    requires t1.priority == Low && t2.priority == High && t3.priority == Medium
    ensures SortByPriority(Matching(s, Undefined)) == [t2, t3, t1]
  {
    assert s == [t1, t2, t3];
    assert Matching(s, Undefined) == s;
    SortThree(t1, t2, t3);
  }

  /** Creating a low, a high and a medium todo on a reset store and listing
      them all yields them in the order high, medium, low. */
  method PriorityOrderScenario(low: Todo, high: Todo, medium: Todo)
    returns (listed: seq<Todo>)
    requires low.priority == Low && high.priority == High && medium.priority == Medium
    requires !low.completed && !high.completed && !medium.completed
    requires CleanTitle(low.title) && CleanTitle(high.title) && CleanTitle(medium.title)
    ensures listed == [high, medium, low]
  {
    var store := new TodoStore();
    store.Reset();
    CreateKeepsCleanInput(low.title, Low, low.id, low.createdAt);
    CreateKeepsCleanInput(high.title, High, high.id, high.createdAt);
    CreateKeepsCleanInput(medium.title, Medium, medium.id, medium.createdAt);
    // Each step is stated in the appended form `Create`'s postcondition
    // gives, which keeps this proof within the resource budget.
    var a := store.Create(Body(Str(low.title), Str(Name(Low))), low.id, low.createdAt);
    assert store.todos == [] + [low];
    var b := store.Create(Body(Str(high.title), Str(Name(High))), high.id, high.createdAt);
    assert store.todos == [] + [low] + [high];
    var c := store.Create(Body(Str(medium.title), Str(Name(Medium))), medium.id, medium.createdAt);
    assert store.todos == [] + [low] + [high] + [medium];
    ListAllThree(store.todos, low, high, medium);
    listed := store.List(Undefined);
  }

  /** A clean title sent without a priority is stored as sent, at the
      default priority. */
  lemma CreateDefaultsPriority(title: string, id: string, createdAt: int)
    requires CleanTitle(title)
    ensures NewTodo(Body(Str(title), Undefined), id, createdAt) == Ok(Todo(id, title, false, Medium, createdAt))
  {
    assert TrimStart(title) == title;
    assert TrimEnd(title) == title;
  }

  /** Completing the first of two records by its id. */
  lemma CompleteFirstOfTwo(t1: Todo, t2: Todo)
    ensures MarkCompleted([t1, t2], t1.id) == [t1.(completed := true), t2]
  {
    assert FindTodoIndexById([t1, t2], t1.id) == 0;
  }

  /** Listing two records of one priority, one completed and one not, with
      each filter value. */
  lemma ListFilteredTwo(s: seq<Todo>, u1: Todo, u2: Todo)
    requires s == [u1, u2] && u1.completed && !u2.completed
    ensures SortByPriority(Matching(s, Str("true"))) == [u1]
    ensures SortByPriority(Matching(s, Str("false"))) == [u2]
  {
    assert s[1..] == [u2] && [u2][1..] == [];
    assert FilterCompleted([u2], true) == [] && FilterCompleted([u2], false) == [u2];
    assert Matching(s, Str("true")) == [u1];
    assert Matching(s, Str("false")) == [u2];
    assert SortByPriority([u1]) == [u1] && SortByPriority([u2]) == [u2];
  }

  /** Two todos created without a priority, the first one completed: the
      `completed=true` listing holds just the first, now completed, and the
      `completed=false` listing just the second. This holds even when the
      two ids coincide, since complete marks the first record with the id. */
  method CompletedFilterScenario(t1: Todo, t2: Todo)
    returns (completed: Outcome, done: seq<Todo>, pending: seq<Todo>)
    requires t1.priority == Medium && t2.priority == Medium
    requires !t1.completed && !t2.completed
    requires CleanTitle(t1.title) && CleanTitle(t2.title)
    ensures completed == Ok(t1.(completed := true))
    ensures done == [t1.(completed := true)]
    ensures pending == [t2]
  {
    var store := new TodoStore();
    store.Reset();
    CreateDefaultsPriority(t1.title, t1.id, t1.createdAt);
    CreateDefaultsPriority(t2.title, t2.id, t2.createdAt);
    var a := store.Create(Body(Str(t1.title), Undefined), t1.id, t1.createdAt);
    assert store.todos == [] + [t1];
    var b := store.Create(Body(Str(t2.title), Undefined), t2.id, t2.createdAt);
    assert store.todos == [] + [t1] + [t2];
    assert store.todos == [t1, t2];
    assert FindTodoById([t1, t2], t1.id) == Some(t1);
    CompleteFirstOfTwo(t1, t2);
    completed := store.Complete(t1.id);
    ListFilteredTwo(store.todos, t1.(completed := true), t2);
    done := store.List(Str("true"));
    pending := store.List(Str("false"));
  }

  lemma ListEmpty(s: seq<Todo>)
    requires s == []
    ensures SortByPriority(Matching(s, Undefined)) == []
  {
    assert Matching(s, Undefined) == [];
  }

  /** A todo created and then deleted by its id is returned by the delete,
      and the store lists nothing afterwards. */
  method DeleteScenario(t: Todo) returns (deleted: Outcome, listed: seq<Todo>)
    requires t.priority == Medium && !t.completed && CleanTitle(t.title)
    ensures deleted == Ok(t)
    ensures listed == []
  {
    var store := new TodoStore();
    store.Reset();
    CreateDefaultsPriority(t.title, t.id, t.createdAt);
    var a := store.Create(Body(Str(t.title), Undefined), t.id, t.createdAt);
    assert store.todos == [] + [t];
    assert store.todos == [t];
    assert FindTodoIndexById([t], t.id) == 0;
    deleted := store.Delete(t.id);
    assert store.todos == [];
    ListEmpty(store.todos);
    listed := store.List(Undefined);
  }
}
