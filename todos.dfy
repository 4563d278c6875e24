/** The todo list of fast-api/main.py: a list `all_todos` of `Todo` records, and the
    handlers that search it, extend it, update a record in it and pop from it.

    Each handler is specified by a function over the list's value that gives its
    answer and the list afterwards (a `TodoStep`); the class `TodoStore` holds the
    list as a field and its methods, linear searches with early return as in the
    source, are proved against those functions. */
module Todos {
  import opened Wrappers

  // ---------------------------------------------------------------- priorities

  /** `Priority(IntEnum)` with HIGH = 1, MEDIUM = 2, LOW = 3. */
  datatype Priority = High | Medium | Low {

    /** The integer the enum member stands for. */
    function Value(): (n: int)
      ensures 1 <= n <= 3
    {
      match this
      case High => 1
      case Medium => 2
      case Low => 3
    }
  }

  /** Validating an integer against the enum: only 1, 2 and 3 name a priority. */
  function PriorityOf(n: int): (p: Option<Priority>)
    ensures p.Some? <==> 1 <= n <= 3
    ensures p.Some? ==> p.value.Value() == n
  {
    if n == 1 then Some(High)
    else if n == 2 then Some(Medium)
    else if n == 3 then Some(Low)
    else None
  }

  /** The enum has exactly three members, told apart by their values, and
      validating a member's value gives the member back. */
  lemma PriorityRoundTrip(p: Priority, q: Priority)
    ensures PriorityOf(p.Value()) == Some(p)
    ensures p.Value() == q.Value() ==> p == q
    ensures p == High || p == Medium || p == Low
  {
  }

  // ---------------------------------------------------------------- records

  const MinNameLength := 3
  const MaxNameLength := 512

  /** `Field(min_length=3, max_length=512)` on `todo_name`. */
  predicate ValidName(name: string) {
    MinNameLength <= |name| <= MaxNameLength
  }

  /** A stored `Todo`. */
  datatype Todo = Todo(id: int, name: string, description: string, priority: Priority)

  /** The JSON body of a POST or PUT request, field by field; the priority is the
      integer the client sends. */
  datatype Body = Body(name: Field<string>, description: Field<string>, priority: Field<int>)

  /** A validated `TodoCreate`. */
  datatype TodoCreate = TodoCreate(name: string, description: string, priority: Priority)

  /** A validated `TodoUpdate`: `None` for a field left out or sent as null. */
  datatype TodoUpdate = TodoUpdate(name: Option<string>, description: Option<string>, priority: Option<Priority>)

  /** The failures: 404 for an unknown id, 422 when the body fails validation, and
      500 when the handler raises (`max` of an empty sequence). */
  datatype Error = NotFound | Unprocessable | InternalError

  /** A handler's answer together with the list after it ran. */
  datatype TodoStep = TodoStep(reply: Result<Todo, Error>, todos: seq<Todo>)

  /** The list the service starts with. */
  function Seed(): seq<Todo> {
    [ Todo(1, "Clean house", "Cleaning of the hourse throughly", High),
      Todo(2, "Sports", "Going to the gym for workout", Medium),
      Todo(3, "Read", "Read chapter 4 of the book", Low),
      Todo(4, "Work", "Complete project documentation", Medium),
      Todo(5, "Study", "Prepare for upcoming exam", Low) ]
  }

  /** No two todos share an id. */
  ghost predicate UniqueIds(todos: seq<Todo>) {
    forall i, j :: 0 <= i < j < |todos| ==> todos[i].id != todos[j].id
  }

  /** The list invariant: ids are unique and every name satisfies the schema. */
  ghost predicate ValidTodos(todos: seq<Todo>) {
    UniqueIds(todos) && forall i :: 0 <= i < |todos| ==> ValidName(todos[i].name)
  }

  // ---------------------------------------------------------------- validation

  /** Validating a body as `TodoCreate`: the name is required and 3 to 512 long, the
      description is required, the priority may be left out (LOW) but not be null
      or an integer outside the enum. */
  function ParseCreate(b: Body): (r: Result<TodoCreate, Error>)
    ensures r.Ok? <==>
      && b.name.Present? && ValidName(b.name.value)
      && b.description.Present?
      && (b.priority.Absent? || (b.priority.Present? && 1 <= b.priority.value <= 3))
    ensures r.Ok? ==> r.value.name == b.name.value && r.value.description == b.description.value
    ensures r.Ok? && b.priority.Absent? ==> r.value.priority == Low
    ensures r.Ok? && b.priority.Present? ==> r.value.priority.Value() == b.priority.value
    ensures r.Err? ==> r.error == Unprocessable
  {
    if !b.name.Present? || !ValidName(b.name.value) || !b.description.Present? then Err(Unprocessable)
    else match b.priority
      case Absent => Ok(TodoCreate(b.name.value, b.description.value, Low))
      case Null => Err(Unprocessable)
      case Present(n) =>
        match PriorityOf(n)
        case None => Err(Unprocessable)
        case Some(p) => Ok(TodoCreate(b.name.value, b.description.value, p))
  }

  /** Validating a body as `TodoUpdate`: every field is optional and null means
      absent; a name that is given must be 3 to 512 long, a priority must be in the
      enum. */
  function ParseUpdate(b: Body): (r: Result<TodoUpdate, Error>)
    ensures r.Ok? <==>
      (b.name.Present? ==> ValidName(b.name.value)) && (b.priority.Present? ==> 1 <= b.priority.value <= 3)
    ensures r.Ok? ==> r.value.name == b.name.OrNone() && r.value.description == b.description.OrNone()
    ensures r.Ok? ==> (r.value.priority.Some? <==> b.priority.Present?)
    ensures r.Ok? && b.priority.Present? ==> r.value.priority.value.Value() == b.priority.value
    ensures r.Err? ==> r.error == Unprocessable
  {
    if b.name.Present? && !ValidName(b.name.value) then Err(Unprocessable)
    else match b.priority
      case Present(n) =>
        (match PriorityOf(n)
         case None => Err(Unprocessable)
         case Some(p) => Ok(TodoUpdate(b.name.OrNone(), b.description.OrNone(), Some(p))))
      case _ => Ok(TodoUpdate(b.name.OrNone(), b.description.OrNone(), None))
  }

  /** The record `create_todo` builds from a validated body and a new id. */
  function NewTodo(id: int, c: TodoCreate): Todo {
    Todo(id, c.name, c.description, c.priority)
  }

  /** The intended update: every field the update supplies overwrites the stored
      one, every field it leaves out is kept, and the id never changes. */
  function ApplyUpdate(t: Todo, u: TodoUpdate): (r: Todo)
    ensures r.id == t.id
    ensures u.name.None? ==> r.name == t.name
    ensures u.description.None? ==> r.description == t.description
    ensures u.priority.None? ==> r.priority == t.priority
    ensures u.name.Some? ==> r.name == u.name.value
    ensures u.description.Some? ==> r.description == u.description.value
    ensures u.priority.Some? ==> r.priority == u.priority.value
  {
    Todo(t.id, u.name.GetOr(t.name), u.description.GetOr(t.description), u.priority.GetOr(t.priority))
  }

  /** An update that supplies nothing leaves the record as it was, and applying the
      same update twice is the same as applying it once. */
  lemma ApplyUpdateLaws(t: Todo, u: TodoUpdate)
    ensures ApplyUpdate(t, TodoUpdate(None, None, None)) == t
    ensures ApplyUpdate(ApplyUpdate(t, u), u) == ApplyUpdate(t, u)
  {
  }

  // ---------------------------------------------------------------- update as written

  /** A todo as the Python object holds it: pydantic does not validate assignments,
      so `todo_description` and `priority` can be set to None. */
  datatype HeldTodo = HeldTodo(id: int, name: string, description: Option<string>, priority: Option<Priority>)

  /** The object for a validated record. */
  function Hold(t: Todo): HeldTodo {
    HeldTodo(t.id, t.name, Some(t.description), Some(t.priority))
  }

  /** The field assignments of `update_todo` as written: the name guard tests the
      update, but the description and priority guards test the STORED record, so
      on a well-formed record those two fields are always overwritten, with None
      when the update leaves them out. */
  function UpdateAsWritten(h: HeldTodo, u: TodoUpdate): (r: HeldTodo)
    ensures r.id == h.id
    ensures u.name.Some? ==> r.name == u.name.value
    ensures u.name.None? ==> r.name == h.name
    ensures h.description.Some? ==> r.description == u.description
    ensures h.description.None? ==> r.description == None
    ensures h.priority.Some? ==> r.priority == u.priority
    ensures h.priority.None? ==> r.priority == None
  {
    HeldTodo(h.id,
             if u.name.Some? then u.name.value else h.name,
             if h.description.Some? then u.description else h.description,
             if h.priority.Some? then u.priority else h.priority)
  }

  /** The discrepancy: an update that only renames a todo wipes its description and
      priority, where the intended update keeps them. */
  lemma AsWrittenClearsOmittedFields(t: Todo, u: TodoUpdate)
    requires u.description.None? && u.priority.None?
    ensures UpdateAsWritten(Hold(t), u).description == None
    ensures UpdateAsWritten(Hold(t), u).priority == None
    ensures Hold(ApplyUpdate(t, u)) != UpdateAsWritten(Hold(t), u)
  {
  }

  /** Once a description or priority is None, no later update restores it. */
  lemma AsWrittenNoneSticks(h: HeldTodo, u: TodoUpdate)
    ensures h.description.None? ==> UpdateAsWritten(h, u).description.None?
    ensures h.priority.None? ==> UpdateAsWritten(h, u).priority.None?
  {
  }

  /** The two agree whenever the update supplies a description and a priority. */
  lemma AsWrittenAgreesWhenComplete(t: Todo, u: TodoUpdate)
    requires u.description.Some? && u.priority.Some?
    ensures UpdateAsWritten(Hold(t), u) == Hold(ApplyUpdate(t, u))
  {
  }

  // ---------------------------------------------------------------- searching

  /** Some todo in the list has the id. */
  ghost predicate HasId(todos: seq<Todo>, id: int) {
    exists i :: 0 <= i < |todos| && todos[i].id == id
  }

  /** The position of the first todo with the id: what the `for` loops with early
      return find. */
  function IndexOf(todos: seq<Todo>, id: int): (r: Option<nat>)
    ensures r.Some? ==> r.value < |todos| && todos[r.value].id == id
    ensures r.Some? ==> forall j :: 0 <= j < r.value ==> todos[j].id != id
    ensures r.None? ==> forall j :: 0 <= j < |todos| ==> todos[j].id != id
  {
    if todos == [] then None
    else if todos[0].id == id then Some(0)
    else match IndexOf(todos[1..], id)
      case None => None
      case Some(i) => Some(i + 1)
  }

  /** The largest id in a non-empty list. */
  function MaxId(todos: seq<Todo>): (m: int)
    requires todos != []
    ensures exists i :: 0 <= i < |todos| && todos[i].id == m
    ensures forall i :: 0 <= i < |todos| ==> todos[i].id <= m
  {
    if |todos| == 1 then todos[0].id
    else
      var rest := MaxId(todos[1..]);
      assert forall i :: 1 <= i < |todos| ==> todos[i] == todos[1..][i - 1];
      if todos[0].id < rest then rest else todos[0].id
  }

  /** `max(todo.todo_id for todo in all_todos)`, computed by a scan. */
  method LargestId(todos: seq<Todo>) returns (m: int)
    requires todos != []
    ensures exists i :: 0 <= i < |todos| && todos[i].id == m
    ensures forall i :: 0 <= i < |todos| ==> todos[i].id <= m
  {
    m := todos[0].id;
    for k := 1 to |todos|
      invariant exists i :: 0 <= i < k && todos[i].id == m
      invariant forall i :: 0 <= i < k ==> todos[i].id <= m
    {
      if m < todos[k].id {
        m := todos[k].id;
      }
    }
  }

  // ---------------------------------------------------------------- handlers

  /** `get_todo`: the first todo with the id, or 404. */
  function Get(todos: seq<Todo>, id: int): (r: Result<Todo, Error>)
    ensures r.Ok? <==> HasId(todos, id)
    ensures r.Ok? ==> r.value.id == id
    ensures r.Ok? ==>
      exists i :: 0 <= i < |todos| && todos[i] == r.value && forall j :: 0 <= j < i ==> todos[j].id != id
    ensures r.Err? ==> r.error == NotFound
  {
    match IndexOf(todos, id)
    case Some(i) => Ok(todos[i])
    case None => Err(NotFound)
  }

  /** The stop index of the slice `xs[:n]` on a list of length `len`, as Python
      computes it: a negative `n` counts from the end, and the result is clipped to
      `0..len`. */
  function SliceStop(n: int, len: nat): (k: nat)
    ensures k <= len
  {
    if n >= 0 then (if n < len then n else len)
    else if len + n > 0 then len + n
    else 0
  }

  /** `get_todos`: the whole list when `first_n` is None or 0 (both falsy), otherwise
      `all_todos[:first_n]`. The answer is always a prefix of the list. */
  function FirstN(todos: seq<Todo>, firstN: Option<int>): (r: seq<Todo>)
    ensures r <= todos
    ensures firstN.None? || firstN.value == 0 ==> r == todos
    ensures firstN.Some? && firstN.value > 0 ==>
      |r| == if firstN.value < |todos| then firstN.value else |todos|
    ensures firstN.Some? && firstN.value < 0 ==>
      |r| == if |todos| + firstN.value > 0 then |todos| + firstN.value else 0
  {
    if firstN.None? || firstN.value == 0 then todos
    else todos[..SliceStop(firstN.value, |todos|)]
  }

  /** The new id: one more than the largest id in the (non-empty) list. */
  function NextId(todos: seq<Todo>): (id: int)
    requires todos != []
    ensures forall i :: 0 <= i < |todos| ==> todos[i].id < id
    ensures HasId(todos, id - 1)
  {
    MaxId(todos) + 1
  }

  /** `create_todo`: 422 for an invalid body (checked before the handler runs),
      500 on an empty list (`max` of an empty sequence raises), otherwise the new
      record is appended under a fresh id. */
  function Create(todos: seq<Todo>, b: Body): (s: TodoStep)
    ensures ParseCreate(b).Err? ==> s == TodoStep(Err(Unprocessable), todos)
    ensures ParseCreate(b).Ok? && todos == [] ==> s == TodoStep(Err(InternalError), todos)
    ensures ParseCreate(b).Ok? && todos != [] ==>
      && s.reply.Ok?
      && s.reply.value.id == NextId(todos)
      && (forall i :: 0 <= i < |todos| ==> todos[i].id < s.reply.value.id)
      && s.reply.value == NewTodo(s.reply.value.id, ParseCreate(b).value)
      && s.todos == todos + [s.reply.value]
  {
    match ParseCreate(b)
    case Err(e) => TodoStep(Err(e), todos)
    case Ok(c) =>
      if todos == [] then TodoStep(Err(InternalError), todos)
      else var t := NewTodo(NextId(todos), c); TodoStep(Ok(t), todos + [t])
  }

  /** `update_todo` with the guards testing the update: 422 for an invalid body,
      404 if no todo has the id, otherwise the first todo with the id is updated in
      place and returned; every other position is unchanged. */
  function Update(todos: seq<Todo>, id: int, b: Body): (s: TodoStep)
    ensures ParseUpdate(b).Err? ==> s == TodoStep(Err(Unprocessable), todos)
    ensures ParseUpdate(b).Ok? && IndexOf(todos, id).None? ==> s == TodoStep(Err(NotFound), todos)
    ensures ParseUpdate(b).Ok? && IndexOf(todos, id).Some? ==>
      var i := IndexOf(todos, id).value;
      && s.reply == Ok(ApplyUpdate(todos[i], ParseUpdate(b).value))
      && |s.todos| == |todos|
      && s.todos[i] == s.reply.value
      && (forall j :: 0 <= j < |todos| && j != i ==> s.todos[j] == todos[j])
  {
    match ParseUpdate(b)
    case Err(e) => TodoStep(Err(e), todos)
    case Ok(u) =>
      match IndexOf(todos, id)
      case None => TodoStep(Err(NotFound), todos)
      case Some(i) => var t := ApplyUpdate(todos[i], u); TodoStep(Ok(t), todos[i := t])
  }

  /** `delete_todo` comparing the `todo_id` attribute: 404 if no todo has the id,
      otherwise the first todo with the id is popped and returned, and the others
      keep their order. */
  function Delete(todos: seq<Todo>, id: int): (s: TodoStep)
    ensures IndexOf(todos, id).None? ==> s == TodoStep(Err(NotFound), todos)
    ensures IndexOf(todos, id).Some? ==>
      var i := IndexOf(todos, id).value;
      && s.reply == Ok(todos[i])
      && s.todos == todos[..i] + todos[i + 1..]
  {
    match IndexOf(todos, id)
    case None => TodoStep(Err(NotFound), todos)
    case Some(i) => TodoStep(Ok(todos[i]), todos[..i] + todos[i + 1..])
  }

  /** `delete_todo` as written: `todo['todo_id']` subscripts a pydantic model, which
      raises TypeError (500) on the first element; only an empty list gets as far as
      the 404. */
  function DeleteAsWritten(todos: seq<Todo>, id: int): (s: TodoStep)
    ensures s.todos == todos
    ensures s.reply == Err(if todos == [] then NotFound else InternalError)
  {
    if todos == [] then TodoStep(Err(NotFound), todos) else TodoStep(Err(InternalError), todos)
  }

  /** The discrepancy: for a present id, the handler as written fails with 500 and
      deletes nothing, where the intended one removes the todo. */
  lemma DeleteAsWrittenNeverDeletes(todos: seq<Todo>, id: int)
    requires HasId(todos, id)
    ensures DeleteAsWritten(todos, id) == TodoStep(Err(InternalError), todos)
    ensures Delete(todos, id).reply.Ok? && |Delete(todos, id).todos| == |todos| - 1
  {
  }

  // ---------------------------------------------------------------- properties

  /** Appending a todo whose id exceeds every id puts it at the first match. */
  lemma IndexOfAppendedLargest(todos: seq<Todo>, t: Todo)
    requires forall i :: 0 <= i < |todos| ==> todos[i].id < t.id
    ensures IndexOf(todos + [t], t.id) == Some(|todos|)
  {
    var all := todos + [t];
    assert all[|todos|].id == t.id;
    match IndexOf(all, t.id)
    case None =>
      assert false;
    case Some(k) =>
      if k < |todos| {
        assert false;
      }
  }

  /** Creating keeps ids unique and every name within the schema. */
  lemma CreateKeepsTodosValid(todos: seq<Todo>, b: Body)
    requires ValidTodos(todos)
    ensures ValidTodos(Create(todos, b).todos)
  {
  }

  /** Updating keeps ids unique and every name within the schema. */
  lemma UpdateKeepsTodosValid(todos: seq<Todo>, id: int, b: Body)
    requires ValidTodos(todos)
    ensures ValidTodos(Update(todos, id, b).todos)
  {
  }

  /** Deleting keeps ids unique and every name within the schema. */
  lemma DeleteKeepsTodosValid(todos: seq<Todo>, id: int)
    requires ValidTodos(todos)
    ensures ValidTodos(Delete(todos, id).todos)
  {
  }

  /** Reading the id of a todo just created returns that todo. */
  lemma GetAfterCreate(todos: seq<Todo>, b: Body)
    requires Create(todos, b).reply.Ok?
    ensures Get(Create(todos, b).todos, Create(todos, b).reply.value.id) == Create(todos, b).reply
  {
    IndexOfAppendedLargest(todos, Create(todos, b).reply.value);
  }

  /** Deleting the todo just created gives it back and restores the list. */
  lemma DeleteUndoesCreate(todos: seq<Todo>, b: Body)
    requires Create(todos, b).reply.Ok?
    ensures Delete(Create(todos, b).todos, Create(todos, b).reply.value.id) == TodoStep(Create(todos, b).reply, todos)
  {
    var t := Create(todos, b).reply.value;
    IndexOfAppendedLargest(todos, t);
    var all := todos + [t];
    assert all[..|todos|] + all[|todos| + 1..] == todos;
  }

  /** After a successful update, reading the id returns the updated todo. */
  lemma GetAfterUpdate(todos: seq<Todo>, id: int, b: Body)
    requires Update(todos, id, b).reply.Ok?
    ensures Get(Update(todos, id, b).todos, id) == Update(todos, id, b).reply
  {
  }

  /** With unique ids, once a todo is deleted its id is not found any more. */
  lemma GetAfterDelete(todos: seq<Todo>, id: int)
    requires UniqueIds(todos)
    ensures Get(Delete(todos, id).todos, id) == Err(NotFound)
  {
  }

  /** Deleting removes exactly the returned todo: the list loses one element and
      keeps every other one. */
  lemma DeleteRemovesOne(todos: seq<Todo>, id: int)
    requires Delete(todos, id).reply.Ok?
    ensures multiset(Delete(todos, id).todos) + multiset{Delete(todos, id).reply.value} == multiset(todos)
  {
    var k := IndexOf(todos, id).value;
    assert todos == todos[..k] + [todos[k]] + todos[k + 1..];
  }

  /** `get_todos` on the five seeded todos: `first_n=3` gives the first three,
      `first_n=-2` drops the last two, `first_n=0` and `first_n=-9` are the whole
      list and nothing. */
  lemma FirstNExamples()
    ensures FirstN(Seed(), Some(3)) == Seed()[..3]
    ensures FirstN(Seed(), Some(-2)) == Seed()[..3]
    ensures FirstN(Seed(), Some(0)) == Seed()
    ensures FirstN(Seed(), Some(-9)) == []
    ensures FirstN(Seed(), Some(9)) == Seed()
  {
  }

  // ---------------------------------------------------------------- the store

  /** The module-level list `all_todos` and the handlers over it. */
  class TodoStore {
    var todos: seq<Todo>

    ghost predicate Valid()
      reads this
    {
      ValidTodos(todos)
    }

    /** The list as the module defines it at start-up. */
    constructor ()
      ensures Valid()
      ensures todos == Seed()
    {
      todos := Seed();
    }

    /** `get_todo`: a linear search that returns at the first match. */
    method GetTodo(id: int) returns (r: Result<Todo, Error>)
      ensures r == Get(todos, id)
    {
      for i := 0 to |todos|
        invariant forall j :: 0 <= j < i ==> todos[j].id != id
      {
        if todos[i].id == id {
          return Ok(todos[i]);
        }
      }
      return Err(NotFound);
    }

    /** `get_todos`. */
    method GetTodos(firstN: Option<int>) returns (r: seq<Todo>)
      ensures r == FirstN(todos, firstN)
    {
      if firstN.None? || firstN.value == 0 {
        return todos;
      }
      r := todos[..SliceStop(firstN.value, |todos|)];
    }

    /** `create_todo`. */
    method CreateTodo(b: Body) returns (r: Result<Todo, Error>)
      requires Valid()
      modifies this
      ensures Valid()
      ensures TodoStep(r, todos) == Create(old(todos), b)
    {
      var parsed := ParseCreate(b);
      if parsed.Err? {
        return Err(parsed.error);
      }
      if todos == [] {
        return Err(InternalError);
      }
      var m := LargestId(todos);
      var t := NewTodo(m + 1, parsed.value);
      todos := todos + [t];
      r := Ok(t);
      CreateKeepsTodosValid(old(todos), b);
    }

    /** `update_todo`, with the guards testing the update. */
    method UpdateTodo(id: int, b: Body) returns (r: Result<Todo, Error>)
      requires Valid()
      modifies this
      ensures Valid()
      ensures TodoStep(r, todos) == Update(old(todos), id, b)
    {
      var parsed := ParseUpdate(b);
      if parsed.Err? {
        return Err(parsed.error);
      }
      UpdateKeepsTodosValid(todos, id, b);
      for i := 0 to |todos|
        invariant todos == old(todos)
        invariant forall j :: 0 <= j < i ==> todos[j].id != id
      {
        if todos[i].id == id {
          var t := ApplyUpdate(todos[i], parsed.value);
          todos := todos[i := t];
          return Ok(t);
        }
      }
      return Err(NotFound);
    }

    /** `delete_todo`, comparing the `todo_id` attribute. */
    method DeleteTodo(id: int) returns (r: Result<Todo, Error>)
      requires Valid()
      modifies this
      ensures Valid()
      ensures TodoStep(r, todos) == Delete(old(todos), id)
    {
      DeleteKeepsTodosValid(todos, id);
      for i := 0 to |todos|
        invariant todos == old(todos)
        invariant forall j :: 0 <= j < i ==> todos[j].id != id
      {
        if todos[i].id == id {
          var deleted := todos[i];
          todos := todos[..i] + todos[i + 1..];
          return Ok(deleted);
        }
      }
      return Err(NotFound);
    }
  }
}
