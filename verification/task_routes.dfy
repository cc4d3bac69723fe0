/**
  The four handlers of the task router (GET `/`, POST `/`, PUT `/:id`,
  DELETE `/:id`), each a pure function from the store and the request to the
  HTTP status, the JSON body and the new store. The ORM's answers that the
  router cannot see (a failing query, a rejected insert) are parameters.
 */
module TaskRoutes {
  import opened TaskModel
  import opened Ordering

  /** The tasks table in insertion order, with the next autoincrement id. */
  datatype Store = Store(rows: seq<Task>, nextId: nat)

  /** Ids are unique and every stored id was handed out before `nextId`. */
  predicate Valid(s: Store)
  {
    && UniqueIds(s.rows)
    && forall i :: 0 <= i < |s.rows| ==> s.rows[i].id < s.nextId
  }

  /** The JSON shapes the router sends. */
  datatype Body =
    | TaskJson(task: Task)
    | TaskListJson(tasks: seq<Task>)
    | ErrorJson(error: string)
    | MessageJson(message: string)

  datatype Response = Response(status: nat, body: Body)

  /** What a handler answers, together with the store it leaves behind. */
  datatype Handled = Handled(response: Response, store: Store)

  /** The ORM's answer to an insert: accepted, or refused with an error message. */
  datatype Verdict = Accept | Reject(message: string)

  /** Where, if anywhere, the ORM raised an error: in `findByPk`, or in the write that follows it. */
  datatype Fault = NoFault | LookupFault(message: string) | WriteFault(message: string)

  /** The body of a PUT: each field may be absent. */
  datatype Patch = Patch(title: Option<string>, completed: Option<bool>)

  const NotFoundMessage := "Task not found"
  const DeletedMessage := "Task deleted"

  /** The task stored under `id`, if any (the ORM's lookup by primary key). */
  function Find(s: Store, id: nat): (r: Option<Task>)
    ensures r.Some? <==> HasId(s.rows, id)
    ensures r.Some? ==> r.value in s.rows && r.value.id == id
  {
    match FindById(s.rows, id)
    case None => None
    case Some(i) => Some(s.rows[i])
  }

  /** GET `/`: every stored task, newest first, or 500 when the query fails. */
  function ListTasks(s: Store, fault: Option<string>): (h: Handled)
    ensures h.store == s
    ensures fault.Some? ==> h.response == Response(500, ErrorJson(fault.value))
    ensures fault.None? ==> h.response.status == 200 && h.response.body.TaskListJson?
    ensures fault.None? ==> NewestFirst(h.response.body.tasks)
    ensures fault.None? ==> multiset(h.response.body.tasks) == multiset(s.rows)
  {
    match fault
    case Some(m) => Handled(Response(500, ErrorJson(m)), s)
    case None => Handled(Response(200, TaskListJson(SortNewestFirst(s.rows))), s)
  }

  /**
    POST `/`: insert a task with the request's title, stamped `now`, not
    completed. The `requires` encodes an assumption about the Task schema
    (`models/Task`, outside this model): that it makes the title required,
    so the ORM rejects an insert without one.
   */
  function CreateTask(s: Store, title: Option<string>, now: nat, verdict: Verdict): (h: Handled)
    requires title.None? ==> verdict.Reject?
    ensures verdict.Reject? ==> h == Handled(Response(400, ErrorJson(verdict.message)), s)
    ensures verdict.Accept? ==> h.response.status == 201 && h.response.body.TaskJson?
    ensures verdict.Accept? ==>
      var t := h.response.body.task;
      && t.title == title.value
      && !t.completed
      && t.createdAt == now
      && h.store.rows == s.rows + [t]
    ensures verdict.Accept? && Valid(s) ==> !HasId(s.rows, h.response.body.task.id)
    ensures Valid(s) ==> Valid(h.store)
  {
    match verdict
    case Reject(m) => Handled(Response(400, ErrorJson(m)), s)
    case Accept =>
      var t := Task(s.nextId, title.value, false, now);
      Handled(Response(201, TaskJson(t)), Store(s.rows + [t], s.nextId + 1))
  }

  /** JavaScript's `||` fallback on an optional string: absent and empty both fall back. */
  predicate Falsy(title: Option<string>)
  {
    title.None? || title.value == ""
  }

  /**
    The fields a PUT writes: the title falls back on falsiness, `completed`
    on absence only, so an explicit `false` still overrides.
   */
  function ApplyPatch(t: Task, p: Patch): (u: Task)
    ensures u.id == t.id && u.createdAt == t.createdAt
    ensures Falsy(p.title) ==> u.title == t.title
    ensures !Falsy(p.title) ==> u.title == p.title.value
    ensures p.completed.Some? ==> u.completed == p.completed.value
    ensures p.completed.None? ==> u.completed == t.completed
  {
    Task(
      t.id,
      if Falsy(p.title) then t.title else p.title.value,
      if p.completed.Some? then p.completed.value else t.completed,
      t.createdAt)
  }

  /** PUT `/:id`: patch the addressed task, 404 when it does not exist, 400 when the ORM fails. */
  function UpdateTask(s: Store, id: nat, p: Patch, fault: Fault): (h: Handled)
    ensures fault.LookupFault? ==> h == Handled(Response(400, ErrorJson(fault.message)), s)
    ensures !fault.LookupFault? && !HasId(s.rows, id) ==> h == Handled(Response(404, ErrorJson(NotFoundMessage)), s)
    ensures fault.WriteFault? && HasId(s.rows, id) ==> h == Handled(Response(400, ErrorJson(fault.message)), s)
    ensures fault.NoFault? && HasId(s.rows, id) ==>
      && h.response.status == 200
      && h.response.body.TaskJson?
      && h.response.body.task == ApplyPatch(Find(s, id).value, p)
      && h.store.nextId == s.nextId
      && |h.store.rows| == |s.rows|
      && forall i :: 0 <= i < |s.rows| ==>
           h.store.rows[i] == (if s.rows[i].id == id then h.response.body.task else s.rows[i])
    ensures Valid(s) ==> Valid(h.store)
  {
    if fault.LookupFault? then Handled(Response(400, ErrorJson(fault.message)), s)
    else
      match Find(s, id)
      case None => Handled(Response(404, ErrorJson(NotFoundMessage)), s)
      case Some(t) =>
        if fault.WriteFault? then Handled(Response(400, ErrorJson(fault.message)), s)
        else
          var u := ApplyPatch(t, p);
          var rows := ReplaceById(s.rows, id, u);
          assert forall i :: 0 <= i < |rows| ==> rows[i].id == s.rows[i].id;
          Handled(Response(200, TaskJson(u)), Store(rows, s.nextId))
  }

  /** DELETE `/:id`: remove the addressed task, 404 when it does not exist, 500 when the ORM fails. */
  function DeleteTask(s: Store, id: nat, fault: Fault): (h: Handled)
    ensures fault.LookupFault? ==> h == Handled(Response(500, ErrorJson(fault.message)), s)
    ensures !fault.LookupFault? && !HasId(s.rows, id) ==> h == Handled(Response(404, ErrorJson(NotFoundMessage)), s)
    ensures fault.WriteFault? && HasId(s.rows, id) ==> h == Handled(Response(500, ErrorJson(fault.message)), s)
    ensures fault.NoFault? && HasId(s.rows, id) ==>
      && h.response == Response(200, MessageJson(DeletedMessage))
      && h.store.nextId == s.nextId
      && !HasId(h.store.rows, id)
      && multiset(h.store.rows) <= multiset(s.rows)
    ensures Valid(s) ==> Valid(h.store)
  {
    if fault.LookupFault? then Handled(Response(500, ErrorJson(fault.message)), s)
    else
      match Find(s, id)
      case None => Handled(Response(404, ErrorJson(NotFoundMessage)), s)
      case Some(_) =>
        if fault.WriteFault? then Handled(Response(500, ErrorJson(fault.message)), s)
        else
          RemovePreservesValid(s, id);
          Handled(Response(200, MessageJson(DeletedMessage)), Store(RemoveById(s.rows, id), s.nextId))
  }

  /** Removing tasks from a valid store leaves it valid. */
  lemma RemovePreservesValid(s: Store, id: nat)
    ensures Valid(s) ==> Valid(Store(RemoveById(s.rows, id), s.nextId))
  {
    if Valid(s) {
      var rows := RemoveById(s.rows, id);
      RemovedAreStored(s.rows, id);
      RemoveKeepsUnique(s.rows, id);
      forall i | 0 <= i < |rows| ensures rows[i].id < s.nextId {
        assert rows[i] in s.rows;
      }
    }
  }
}
