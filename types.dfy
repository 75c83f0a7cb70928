/** Record and priority types of the todo API, and an Option for lookups
    that may find nothing (the source's `T | undefined`). */
module Types {

  datatype Option<T> = None | Some(value: T)

  /** The string-literal union 'high' | 'medium' | 'low'. */
  datatype Priority = High | Medium | Low

  /** The literal each priority is written as in requests and responses. */
  function Name(p: Priority): string {
    match p
    case High => "high"
    case Medium => "medium"
    case Low => "low"
  }

  /** Narrows a string to a priority literal, when it is one. */
  function FromName(s: string): (r: Option<Priority>)
    ensures r.Some? ==> Name(r.value) == s
    ensures r.None? ==> forall p :: Name(p) != s
  {
    if s == "high" then Some(High)
    else if s == "medium" then Some(Medium)
    else if s == "low" then Some(Low)
    else None
  }

  /** Distinct priorities have distinct literals, so narrowing undoes Name. */
  lemma NameRoundTrip(p: Priority)
    ensures FromName(Name(p)) == Some(p)
    ensures forall q :: Name(q) == Name(p) ==> q == p
  {
    assert Name(High)[0] == 'h' && Name(Medium)[0] == 'm' && Name(Low)[0] == 'l';
  }

  /** A stored todo; `createdAt` is the creation time in milliseconds. */
  datatype Todo = Todo(id: string, title: string, completed: bool, priority: Priority, createdAt: int)

  /** The uniform `{ error: message }` payload. */
  datatype ErrorResponse = ErrorResponse(error: string)
}
