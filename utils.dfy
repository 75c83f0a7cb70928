/** Priority constants, the priority sort and the lookups by id. */
module Utils {
  import opened Types
  import opened JsValues

  /** PRIORITY_ORDER: the rank each priority sorts by. */
  function PriorityOrder(p: Priority): (r: nat)
    ensures 1 <= r <= |ValidPriorities| && ValidPriorities[r - 1] == Name(p)
  {
    match p
    case High => 1
    case Medium => 2
    case Low => 3
  }

  /** The rank table is a strict order high < medium < low, so it ranks
      distinct priorities differently. */
  lemma PriorityOrderIsStrict()
    ensures PriorityOrder(High) == 1 && PriorityOrder(Medium) == 2 && PriorityOrder(Low) == 3
    ensures PriorityOrder(High) < PriorityOrder(Medium) < PriorityOrder(Low)
    ensures forall p, q :: PriorityOrder(p) == PriorityOrder(q) ==> p == q
  {
  }

  /** DEFAULT_PRIORITY. */
  const DefaultPriority: Priority := Medium

  /** VALID_PRIORITIES. */
  const ValidPriorities: seq<string> := ["high", "medium", "low"]

  /** The default is medium, one of the valid priorities, ranked between the
      other two. */
  lemma DefaultPriorityIsMedium()
    ensures DefaultPriority == Medium
    ensures Name(DefaultPriority) in ValidPriorities
    ensures PriorityOrder(High) < PriorityOrder(DefaultPriority) < PriorityOrder(Low)
  {
  }

  /** The valid priorities list names every priority once, in rank order. */
  lemma ValidPrioritiesInRankOrder()
    ensures ValidPriorities == [Name(High), Name(Medium), Name(Low)]
    ensures forall p :: Name(p) in ValidPriorities
    ensures forall i | 0 <= i < |ValidPriorities| ::
              FromName(ValidPriorities[i]).Some? && PriorityOrder(FromName(ValidPriorities[i]).value) == i + 1
  {
    forall i | 0 <= i < |ValidPriorities|
      ensures FromName(ValidPriorities[i]).Some? && PriorityOrder(FromName(ValidPriorities[i]).value) == i + 1
    {
      assert i == 0 || i == 1 || i == 2;
    }
  }

  /** The type guard: only the three priority literals pass. */
  function IsValidPriority(v: Value): (b: bool)
    ensures b <==> v == Str("high") || v == Str("medium") || v == Str("low")
    ensures b ==> v.Str? && FromName(v.s).Some?
  {
    v.Str? && v.s in ValidPriorities
  }

  /** Every priority literal passes the guard, and the values the guard is
      tried on by the tests (another word, "", null, undefined, a number) fail. */
  lemma IsValidPriorityExactlyNames(n: int, s: string)
    requires s != "high" && s != "medium" && s != "low"
    ensures forall p :: IsValidPriority(Str(Name(p)))
    ensures !IsValidPriority(Str(s)) && !IsValidPriority(Str(""))
    ensures !IsValidPriority(Null) && !IsValidPriority(Undefined) && !IsValidPriority(Number(n))
  {
    forall p ensures IsValidPriority(Str(Name(p))) {
      match p
      case High =>
      case Medium =>
      case Low =>
    }
  }

  function CreateErrorResponse(message: string): (r: ErrorResponse)
    ensures r.error == message
  {
    ErrorResponse(message)
  }

  /** The comparator handed to the sort: negative, zero or positive as `a`
      ranks before, with or after `b`. */
  function Compare(a: Todo, b: Todo): (c: int)
    ensures c == 0 <==> a.priority == b.priority
    ensures c < 0 <==> (a.priority, b.priority) in {(High, Medium), (High, Low), (Medium, Low)}
  {
    PriorityOrder(a.priority) - PriorityOrder(b.priority)
  }

  /** Non-decreasing in rank: every high before every medium, every medium
      before every low. */
  predicate Sorted(s: seq<Todo>) {
    forall i, j | 0 <= i < j < |s| :: PriorityOrder(s[i].priority) <= PriorityOrder(s[j].priority)
  }

  /** The records of `s` that have priority `p`, in their order in `s`. */
  function WithPriority(s: seq<Todo>, p: Priority): seq<Todo> {
    if s == [] then []
    else (if s[0].priority == p then [s[0]] else []) + WithPriority(s[1..], p)
  }

  /** Places `x` before the first record of `t` it does not rank after. */
  function Insert(x: Todo, t: seq<Todo>): seq<Todo> {
    if t == [] || Compare(x, t[0]) <= 0 then [x] + t
    else [t[0]] + Insert(x, t[1..])
  }

  /** `[...todos].sort(comparator)`: a new sequence, stably ordered by rank.
      A sequence value cannot be changed by the call, which is the point of
      the source's spread copy. */
  function SortByPriority(s: seq<Todo>): (r: seq<Todo>)
    ensures |r| == |s| && multiset(r) == multiset(s)
    ensures Sorted(r)
    ensures forall p :: WithPriority(r, p) == WithPriority(s, p)
  {
    if s == [] then []
    else
      var t := SortByPriority(s[1..]);
      assert s == [s[0]] + s[1..];
      InsertPermutes(s[0], t);
      InsertSorted(s[0], t);
      assert |Insert(s[0], t)| == |multiset(Insert(s[0], t))|;
      forall p ensures WithPriority(Insert(s[0], t), p) == WithPriority(s, p) {
        InsertStable(s[0], t, p);
        WithPriorityConcat([s[0]], s[1..], p);
      }
      Insert(s[0], t)
  }

  lemma {:induction false} WithPriorityConcat(a: seq<Todo>, b: seq<Todo>, p: Priority)
    ensures WithPriority(a + b, p) == WithPriority(a, p) + WithPriority(b, p)
  {
    if a == [] {
      assert a + b == b;
    } else {
      var head := if a[0].priority == p then [a[0]] else [];
      assert (a + b)[0] == a[0] && (a + b)[1..] == a[1..] + b;
      assert WithPriority(a + b, p) == head + WithPriority(a[1..] + b, p);
      WithPriorityConcat(a[1..], b, p);
      assert head + (WithPriority(a[1..], p) + WithPriority(b, p))
          == (head + WithPriority(a[1..], p)) + WithPriority(b, p);
    }
  }

  lemma {:induction false} InsertPermutes(x: Todo, t: seq<Todo>)
    ensures multiset(Insert(x, t)) == multiset{x} + multiset(t)
  {
    if t != [] && Compare(x, t[0]) > 0 {
      assert t == [t[0]] + t[1..];
      InsertPermutes(x, t[1..]);
    }
  }

  /** A record ranked no later than everything in a sorted sequence can be
      put in front of it. */
  lemma SortedCons(y: Todo, u: seq<Todo>)
    requires Sorted(u)
    requires forall k | 0 <= k < |u| :: PriorityOrder(y.priority) <= PriorityOrder(u[k].priority)
    ensures Sorted([y] + u)
  {
    var r := [y] + u;
    assert forall k | 1 <= k < |r| :: r[k] == u[k - 1];
  }

  lemma {:induction false} InsertMembers(x: Todo, t: seq<Todo>)
    ensures forall k | 0 <= k < |Insert(x, t)| :: Insert(x, t)[k] == x || Insert(x, t)[k] in t
  {
    if t != [] && Compare(x, t[0]) > 0 {
      InsertMembers(x, t[1..]);
      var u := Insert(x, t[1..]);
      assert forall k | 1 <= k < |[t[0]] + u| :: ([t[0]] + u)[k] == u[k - 1];
      assert forall y | y in t[1..] :: y in t;
    }
  }

  lemma {:induction false} InsertSorted(x: Todo, t: seq<Todo>)
    requires Sorted(t)
    ensures Sorted(Insert(x, t))
  {
    if t == [] || Compare(x, t[0]) <= 0 {
      assert forall k | 0 <= k < |t| :: PriorityOrder(t[0].priority) <= PriorityOrder(t[k].priority);
      SortedCons(x, t);
    } else {
      var u := Insert(x, t[1..]);
      InsertSorted(x, t[1..]);
      InsertMembers(x, t[1..]);
      forall k | 0 <= k < |u| ensures PriorityOrder(t[0].priority) <= PriorityOrder(u[k].priority) {
        if u[k] != x {
          var j :| 0 <= j < |t[1..]| && t[1..][j] == u[k];
          assert t[j + 1] == u[k];
        }
      }
      SortedCons(t[0], u);
    }
  }

  lemma {:induction false} InsertStable(x: Todo, t: seq<Todo>, p: Priority)
    ensures WithPriority(Insert(x, t), p) == WithPriority([x], p) + WithPriority(t, p)
  {
    if t == [] || Compare(x, t[0]) <= 0 {
      WithPriorityConcat([x], t, p);
    } else {
      InsertStable(x, t[1..], p);
      assert t == [t[0]] + t[1..];
      PassHead(t[0], x, Insert(x, t[1..]), t[1..], p);
    }
  }

  /** Moving `x` past a record of another priority leaves each priority's
      selection unchanged. */
  lemma PassHead(y: Todo, x: Todo, u: seq<Todo>, w: seq<Todo>, p: Priority)
    requires x.priority != y.priority
    requires WithPriority(u, p) == WithPriority([x], p) + WithPriority(w, p)
    ensures WithPriority([y] + u, p) == WithPriority([x], p) + WithPriority([y] + w, p)
  {
    WithPriorityCons(y, u, p);
    WithPriorityCons(y, w, p);
    WithPriorityCons(x, [], p);
    assert [x] + [] == [x];
    var cx, cy := if x.priority == p then [x] else [], if y.priority == p then [y] else [];
    assert cx == [] || cy == [];
    assert cy + (cx + WithPriority(w, p)) == cx + (cy + WithPriority(w, p));
  }

  lemma {:induction false} WithPriorityNone(s: seq<Todo>, p: Priority)
    requires forall k | 0 <= k < |s| :: s[k].priority != p
    ensures WithPriority(s, p) == []
  {
    if s != [] {
      WithPriorityNone(s[1..], p);
    }
  }

  /** Every record after the first of a sorted sequence ranks no earlier. */
  lemma SortedTail(t: seq<Todo>)
    requires Sorted(t) && t != []
    ensures Sorted(t[1..])
    ensures forall k | 0 <= k < |t[1..]| :: PriorityOrder(t[0].priority) <= PriorityOrder(t[1..][k].priority)
  {
    assert forall k | 0 <= k < |t[1..]| :: t[1..][k] == t[k + 1];
  }

  /** Bucketing a record followed by records that rank no earlier puts that
      record first. */
  lemma {:induction false} BucketsCons(x: Todo, u: seq<Todo>)
    requires forall k | 0 <= k < |u| :: PriorityOrder(x.priority) <= PriorityOrder(u[k].priority)
    ensures WithPriority([x] + u, High) + WithPriority([x] + u, Medium) + WithPriority([x] + u, Low)
         == [x] + (WithPriority(u, High) + WithPriority(u, Medium) + WithPriority(u, Low))
  {
    var h, m, l := WithPriority(u, High), WithPriority(u, Medium), WithPriority(u, Low);
    WithPriorityCons(x, u, High);
    WithPriorityCons(x, u, Medium);
    WithPriorityCons(x, u, Low);
    match x.priority
    case High =>
      assert ([x] + h) + ([] + m) + ([] + l) == [x] + (h + m + l);
    case Medium =>
      RanksAfterExclude(x, u, High);
      assert ([] + []) + ([x] + m) + ([] + l) == [x] + ([] + m + l);
    case Low =>
      RanksAfterExclude(x, u, High);
      RanksAfterExclude(x, u, Medium);
      assert ([] + []) + ([] + []) + ([x] + l) == [x] + ([] + [] + l);
  }

  /** Records that rank no earlier than `x` hold no priority ranked before
      it, so selecting such a priority yields nothing. */
  lemma RanksAfterExclude(x: Todo, u: seq<Todo>, p: Priority)
    requires forall k | 0 <= k < |u| :: PriorityOrder(x.priority) <= PriorityOrder(u[k].priority)
    requires PriorityOrder(p) < PriorityOrder(x.priority)
    ensures WithPriority(u, p) == []
  {
    forall k | 0 <= k < |u| ensures u[k].priority != p {
      assert PriorityOrder(x.priority) <= PriorityOrder(u[k].priority);
    }
    WithPriorityNone(u, p);
  }

  lemma WithPriorityCons(x: Todo, u: seq<Todo>, p: Priority)
    ensures WithPriority([x] + u, p) == (if x.priority == p then [x] else []) + WithPriority(u, p)
  {
    assert ([x] + u)[0] == x && ([x] + u)[1..] == u;
  }

  /** A sorted sequence is its highs, then its mediums, then its lows. */
  lemma {:induction false} SortedIsBuckets(t: seq<Todo>)
    requires Sorted(t)
    ensures t == WithPriority(t, High) + WithPriority(t, Medium) + WithPriority(t, Low)
  {
    if t != [] {
      SortedTail(t);
      SortedIsBuckets(t[1..]);
      assert t == [t[0]] + t[1..];
      BucketsCons(t[0], t[1..]);
    }
  }

  /** Reference definition of the stable priority sort: the high records,
      then the medium ones, then the low ones, each group in input order. */
  lemma SortByPriorityIsBuckets(s: seq<Todo>)
    ensures SortByPriority(s) == WithPriority(s, High) + WithPriority(s, Medium) + WithPriority(s, Low)
  {
    SortedIsBuckets(SortByPriority(s));
  }

  /** Any sorted result that keeps each priority's records in input order is
      the one SortByPriority gives, so every stable sort under the source's
      comparator agrees with this model. */
  lemma SortByPriorityUnique(s: seq<Todo>, t: seq<Todo>)
    requires Sorted(t)
    requires forall p :: WithPriority(t, p) == WithPriority(s, p)
    ensures t == SortByPriority(s)
  {
    SortedIsBuckets(t);
    SortByPriorityIsBuckets(s);
  }

  /** `todos.find(t => t.id === id)`: the first record with that id. */
  function FindTodoById(todos: seq<Todo>, id: string): (r: Option<Todo>)
    ensures r.None? <==> forall k | 0 <= k < |todos| :: todos[k].id != id
    ensures r.Some? ==> exists k | 0 <= k < |todos| :: todos[k] == r.value && todos[k].id == id
                                                      && forall j | 0 <= j < k :: todos[j].id != id
  {
    if todos == [] then None
    else if todos[0].id == id then Some(todos[0])
    else
      var r := FindTodoById(todos[1..], id);
      assert forall k | 1 <= k < |todos| :: todos[k] == todos[1..][k - 1];
      r
  }

  /** `todos.findIndex(t => t.id === id)`: the least index holding that id,
      or -1 when there is none. */
  function FindTodoIndexById(todos: seq<Todo>, id: string): (r: int)
    ensures -1 <= r < |todos|
    ensures r == -1 <==> forall k | 0 <= k < |todos| :: todos[k].id != id
    ensures 0 <= r ==> todos[r].id == id && forall k | 0 <= k < r :: todos[k].id != id
  {
    if todos == [] then -1
    else if todos[0].id == id then 0
    else
      var k := FindTodoIndexById(todos[1..], id);
      assert forall j | 1 <= j < |todos| :: todos[j] == todos[1..][j - 1];
      if k == -1 then -1 else k + 1
  }

  /** find and findIndex agree: find yields the record at findIndex's index. */
  lemma FindAgreesWithFindIndex(todos: seq<Todo>, id: string)
    ensures FindTodoIndexById(todos, id) == -1 ==> FindTodoById(todos, id) == None
    ensures FindTodoIndexById(todos, id) >= 0 ==>
              FindTodoById(todos, id) == Some(todos[FindTodoIndexById(todos, id)])
  {
    var i := FindTodoIndexById(todos, id);
    if i >= 0 {
      var k :| 0 <= k < |todos| && todos[k] == FindTodoById(todos, id).value && todos[k].id == id
               && forall j | 0 <= j < k :: todos[j].id != id;
      assert !(k < i) && !(i < k);
    }
  }
}
