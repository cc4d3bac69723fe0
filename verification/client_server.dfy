/**
  The client's handlers fed with the router's answers. The HTTP client
  resolves a request on a 2xx status with the response body and rejects it
  on any other status, so each router response becomes a client reply.
 */
module ClientServer {
  import opened TaskModel
  import opened Ordering
  import opened TaskRoutes
  import App
  import RouteProperties

  predicate IsSuccess(r: Response)
  {
    200 <= r.status < 300
  }

  /**
    The reply a request expecting one task settles with. The HTTP client
    resolves on any 2xx status whatever the body; a 2xx without a task is
    never sent by the router (`RouterSuccessShapes`), so mapping it to a
    failure decides nothing.
   */
  function TaskReply(r: Response): (reply: App.Reply<Task>)
    ensures reply.Ok? <==> IsSuccess(r) && r.body.TaskJson?
    ensures reply.Ok? ==> reply.data == r.body.task
  {
    if IsSuccess(r) && r.body.TaskJson? then App.Ok(r.body.task) else App.Failed
  }

  /**
    The reply a request expecting the task list settles with. As for
    `TaskReply`, a 2xx without a list never comes from the router.
   */
  function ListReply(r: Response): (reply: App.Reply<seq<Task>>)
    ensures reply.Ok? <==> IsSuccess(r) && r.body.TaskListJson?
    ensures reply.Ok? ==> reply.data == r.body.tasks
  {
    if IsSuccess(r) && r.body.TaskListJson? then App.Ok(r.body.tasks) else App.Failed
  }

  /** The reply a request whose body the client ignores settles with. */
  function AckReply(r: Response): (reply: App.Reply<()>)
    ensures reply.Ok? <==> IsSuccess(r)
  {
    if IsSuccess(r) then App.Ok(()) else App.Failed
  }

  /** Every 2xx answer of the router carries the body shape its client handler reads. */
  lemma RouterSuccessShapes(s: Store, title: Option<string>, now: nat, verdict: Verdict, id: nat, p: Patch, fault: Fault, listFault: Option<string>)
    requires title.None? ==> verdict.Reject?
    ensures IsSuccess(ListTasks(s, listFault).response) ==> ListTasks(s, listFault).response.body.TaskListJson?
    ensures IsSuccess(CreateTask(s, title, now, verdict).response) ==> CreateTask(s, title, now, verdict).response.body.TaskJson?
    ensures IsSuccess(UpdateTask(s, id, p, fault).response) ==> UpdateTask(s, id, p, fault).response.body.TaskJson?
  {
  }

  /** In a store with unique ids, a stored task is what the lookup of its id finds. */
  lemma FindStored(s: Store, t: Task)
    requires Valid(s) && t in s.rows
    ensures Find(s, t.id) == Some(t)
  {
  }

  /**
    Toggling a task the client holds as the server stores it: on success
    every local copy of it becomes the stored task with its flag negated;
    on any failure the client keeps its list.
   */
  lemma ToggleRoundTrip(s: Store, st: App.ClientState, task: Task, fault: Fault)
    requires Valid(s) && task in s.rows
    ensures
      var request := App.ToggleTask(st, task, App.Failed).sent.value;
      var h := UpdateTask(s, request.id, Patch(None, Some(request.completed)), fault);
      var step := App.ToggleTask(st, task, TaskReply(h.response));
      && (fault.NoFault? ==>
            forall i :: 0 <= i < |st.tasks| && st.tasks[i].id == task.id ==>
              step.next.tasks[i] == task.(completed := !task.completed))
      && (!fault.NoFault? ==> step.next == st)
  {
  }

  /**
    Adding a non-blank title that the server accepts with a timestamp newer
    than every stored one: the client's new head is the server's new task,
    which is also the head of the next listing.
   */
  lemma AddRoundTrip(s: Store, st: App.ClientState, now: nat)
    requires Valid(s)
    requires !App.IsBlank(st.newTask)
    requires forall i :: 0 <= i < |s.rows| ==> s.rows[i].createdAt < now
    ensures
      var request := App.AddTask(st, App.Failed).sent.value;
      var h := CreateTask(s, Some(request.title), now, Accept);
      var step := App.AddTask(st, TaskReply(h.response));
      var listed := ListTasks(h.store, None).response.body.tasks;
      && step.next.tasks[0] == h.response.body.task
      && step.next.tasks[0].title == st.newTask
      && !step.next.tasks[0].completed
      && listed != [] && listed[0] == step.next.tasks[0]
      && step.next.tasks[1..] == st.tasks
  {
    RouteProperties.CreatedNewestListedFirst(s, st.newTask, now);
  }

  /** An insert the ORM refuses leaves both the store and the client's list as they were. */
  lemma RejectedAddChangesNothing(s: Store, st: App.ClientState, now: nat, message: string)
    ensures
      var h := CreateTask(s, Some(st.newTask), now, Reject(message));
      && h.store == s
      && App.AddTask(st, TaskReply(h.response)).next.tasks == st.tasks
  {
  }

  /**
    A confirmed delete of a stored id leaves the client without that id and
    the server without that task; an unknown id answers 404 and the client
    keeps its list.
   */
  lemma DeleteRoundTrip(s: Store, st: App.ClientState, id: nat)
    requires Valid(s)
    ensures
      var h := TaskRoutes.DeleteTask(s, id, NoFault);
      var step := App.DeleteTask(st, id, true, AckReply(h.response));
      && (HasId(s.rows, id) ==> !HasId(step.next.tasks, id) && !HasId(h.store.rows, id))
      && (!HasId(s.rows, id) ==> h.response.status == 404 && step.next == st)
  {
  }

  /** Fetching after a successful listing leaves the client holding every stored task, newest first. */
  lemma FetchMirrorsStore(s: Store, st: App.ClientState)
    ensures
      var step := App.FetchTasks(st, ListReply(ListTasks(s, None).response));
      && multiset(step.next.tasks) == multiset(s.rows)
      && NewestFirst(step.next.tasks)
  {
  }
}
