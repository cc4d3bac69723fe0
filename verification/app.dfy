/**
  The browser client's task list. Each handler (`fetchTasks`, `addTask`,
  `toggleTask`, `deleteTask`) is a pure transition that takes the current
  state and the server's reply, and returns the request it sends, if any,
  together with the next state. A failed request raises an alert, which is
  output only, and changes no state.
 */
module App {
  import opened TaskModel

  /** The parts of the component's state that the handlers touch. */
  datatype ClientState = ClientState(tasks: seq<Task>, newTask: string, loading: bool)

  /** The HTTP calls the client makes. A toggle sends only the new `completed` value. */
  datatype Request = GetAll | Post(title: string) | Put(id: nat, completed: bool) | Delete(id: nat)

  /** How a request settles: resolved with the response body, or rejected. */
  datatype Reply<+T> = Ok(data: T) | Failed

  /** The request a handler sent (if any) and the state it leaves. */
  datatype Step = Step(sent: Option<Request>, next: ClientState)

  /**
    The code points `String.prototype.trim` strips: the WhiteSpace and
    LineTerminator productions of the ECMAScript language specification,
    the Unicode space separators included.
   */
  predicate IsJsWhitespace(c: char)
  {
    || c == '\t' || c == '\U{B}' || c == '\U{C}' || c == ' ' || c == '\U{A0}' || c == '\U{FEFF}'
    || c == '\U{1680}' || ('\U{2000}' <= c <= '\U{200A}') || c == '\U{202F}' || c == '\U{205F}' || c == '\U{3000}'
    || c == '\n' || c == '\r' || c == '\U{2028}' || c == '\U{2029}'
  }

  /** Nothing but whitespace, possibly nothing at all. */
  predicate IsBlank(s: string)
  {
    forall i :: 0 <= i < |s| ==> IsJsWhitespace(s[i])
  }

  /** `s` without its leading whitespace. */
  function TrimStart(s: string): (r: string)
    ensures |r| <= |s| && r == s[|s| - |r|..]
    ensures IsBlank(s[..|s| - |r|])
    ensures r != [] ==> !IsJsWhitespace(r[0])
  {
    if s != [] && IsJsWhitespace(s[0]) then
      var r := TrimStart(s[1..]);
      assert s[..|s| - |r|] == [s[0]] + s[1..][..|s| - 1 - |r|];
      r
    else s
  }

  /** `s` without its trailing whitespace. */
  function TrimEnd(s: string): (r: string)
    ensures |r| <= |s| && r == s[..|r|]
    ensures IsBlank(s[|r|..])
    ensures r != [] ==> !IsJsWhitespace(r[|r| - 1])
  {
    if s != [] && IsJsWhitespace(s[|s| - 1]) then
      var r := TrimEnd(s[..|s| - 1]);
      assert s[|r|..] == s[..|s| - 1][|r|..] + [s[|s| - 1]];
      r
    else s
  }

  /**
    `String.prototype.trim`: the text between the leading and the trailing
    whitespace runs. It is empty exactly when the text is blank.
   */
  function Trim(s: string): (r: string)
    ensures |r| <= |s|
    ensures r == [] <==> IsBlank(s)
    ensures r != [] ==> !IsJsWhitespace(r[0]) && !IsJsWhitespace(r[|r| - 1])
    ensures exists i :: 0 <= i <= |s| - |r| && r == s[i..i + |r|] && IsBlank(s[..i]) && IsBlank(s[i + |r|..])
  {
    var a := TrimStart(s);
    var r := TrimEnd(a);
    var i := |s| - |a|;
    assert r == s[i..i + |r|];
    assert s[i + |r|..] == a[|r|..];
    if r == [] then
      // `a` starts with a non-whitespace character unless it is empty
      assert a[0..] == a && a == [];
      assert s[..|s| - |a|] == s;
      r
    else
      assert r[0] == a[0];
      r
  }

  /** `fetchTasks`: the server's list replaces the local one wholesale. */
  function FetchTasks(st: ClientState, reply: Reply<seq<Task>>): (r: Step)
    ensures r.sent == Some(GetAll)
    ensures reply.Ok? ==> r.next.tasks == reply.data
    ensures r.next.newTask == st.newTask && r.next.loading == st.loading
    ensures reply.Failed? ==> r.next == st
  {
    match reply
    case Ok(fetched) => Step(Some(GetAll), st.(tasks := fetched))
    case Failed => Step(Some(GetAll), st)
  }

  /**
    `addTask`: a blank input sends nothing; otherwise the untrimmed input is
    posted, and on success the server's task is prepended and the input cleared.
   */
  function AddTask(st: ClientState, reply: Reply<Task>): (r: Step)
    ensures r.sent.None? <==> IsBlank(st.newTask)
    ensures r.sent.None? ==> r.next == st
    ensures r.sent.Some? ==> r.sent.value == Post(st.newTask) && !r.next.loading
    ensures r.sent.Some? && reply.Ok? ==>
      && r.next.tasks == [reply.data] + st.tasks
      && |r.next.tasks| == |st.tasks| + 1
      && r.next.newTask == ""
    ensures reply.Failed? ==> r.next.tasks == st.tasks && r.next.newTask == st.newTask
  {
    if Trim(st.newTask) == [] then Step(None, st)
    else
      match reply
      case Ok(created) => Step(Some(Post(st.newTask)), ClientState([created] + st.tasks, "", false))
      case Failed => Step(Some(Post(st.newTask)), st.(loading := false))
  }

  /**
    `toggleTask`: sends the negated flag; on success every local task with
    that id is replaced by the server's copy, all others kept in place.
   */
  function ToggleTask(st: ClientState, task: Task, reply: Reply<Task>): (r: Step)
    ensures r.sent == Some(Put(task.id, !task.completed))
    ensures r.next.newTask == st.newTask && r.next.loading == st.loading
    ensures reply.Ok? ==>
      && |r.next.tasks| == |st.tasks|
      && forall i :: 0 <= i < |st.tasks| ==>
           r.next.tasks[i] == (if st.tasks[i].id == task.id then reply.data else st.tasks[i])
    ensures reply.Failed? ==> r.next == st
  {
    var request := Put(task.id, !task.completed);
    match reply
    case Ok(updated) => Step(Some(request), st.(tasks := ReplaceById(st.tasks, task.id, updated)))
    case Failed => Step(Some(request), st)
  }

  /**
    `deleteTask`: a declined confirmation sends nothing; on success every
    local task with that id is dropped and the others keep their order.
   */
  function DeleteTask(st: ClientState, id: nat, confirmed: bool, reply: Reply<()>): (r: Step)
    ensures !confirmed ==> r == Step(None, st)
    ensures confirmed ==> r.sent == Some(Delete(id))
    ensures r.next.newTask == st.newTask && r.next.loading == st.loading
    ensures confirmed && reply.Ok? ==>
      && !HasId(r.next.tasks, id)
      && (forall t :: t in st.tasks && t.id != id ==> t in r.next.tasks)
      && multiset(r.next.tasks) <= multiset(st.tasks)
      && r.next.tasks == RemoveById(st.tasks, id)
    ensures reply.Failed? ==> r.next == st
  {
    if !confirmed then Step(None, st)
    else
      match reply
      case Ok(_) =>
        RemoveByIdKeepsAll(st.tasks, id);
        Step(Some(Delete(id)), st.(tasks := RemoveById(st.tasks, id)))
      case Failed => Step(Some(Delete(id)), st)
  }

  /** A failed request, whichever handler sent it, leaves the task list and the input as they were. */
  lemma FailureChangesNothing(st: ClientState, task: Task, id: nat, confirmed: bool)
    ensures FetchTasks(st, Failed).next == st
    ensures AddTask(st, Failed).next.tasks == st.tasks
    ensures AddTask(st, Failed).next.newTask == st.newTask
    ensures ToggleTask(st, task, Failed).next == st
    ensures DeleteTask(st, id, confirmed, Failed).next == st
  {
  }

  /** The number of tasks whose `completed` flag equals `done`. */
  function CountCompleted(s: seq<Task>, done: bool): (n: nat)
    ensures n <= |s|
  {
    if s == [] then 0
    else (if s[0].completed == done then 1 else 0) + CountCompleted(s[1..], done)
  }

  /** Every task is either completed or pending. */
  lemma {:induction false} CountSplit(s: seq<Task>)
    ensures CountCompleted(s, true) + CountCompleted(s, false) == |s|
  {
    if s != [] {
      CountSplit(s[1..]);
    }
  }

  /** Counting distributes over concatenation. */
  lemma {:induction false} CountAppend(a: seq<Task>, b: seq<Task>, done: bool)
    ensures CountCompleted(a + b, done) == CountCompleted(a, done) + CountCompleted(b, done)
  {
    if a == [] {
      assert a + b == b;
    } else {
      assert (a + b)[1..] == a[1..] + b;
      CountAppend(a[1..], b, done);
    }
  }

  /** The three counters shown above the list. */
  datatype Stats = Stats(total: nat, completed: nat, pending: nat)

  /** The counters derived from the task list on every render. */
  function StatsOf(s: seq<Task>): (r: Stats)
    ensures r.total == |s|
    ensures r.completed + r.pending == r.total
    ensures r.completed == |s| <==> forall i :: 0 <= i < |s| ==> s[i].completed
  {
    CountSplit(s);
    AllCompletedCount(s);
    Stats(|s|, CountCompleted(s, true), CountCompleted(s, false))
  }

  /** Every task is completed exactly when the completed count reaches the total. */
  lemma {:induction false} AllCompletedCount(s: seq<Task>)
    ensures CountCompleted(s, true) == |s| <==> forall i :: 0 <= i < |s| ==> s[i].completed
  {
    if s != [] {
      AllCompletedCount(s[1..]);
      assert forall i :: 1 <= i < |s| ==> s[i] == s[1..][i - 1];
    }
  }

  /** Prepending the created task moves exactly one counter, by one. */
  lemma AddMovesOneCounter(s: seq<Task>, created: Task)
    ensures StatsOf([created] + s).total == StatsOf(s).total + 1
    ensures created.completed ==> StatsOf([created] + s).completed == StatsOf(s).completed + 1
    ensures created.completed ==> StatsOf([created] + s).pending == StatsOf(s).pending
    ensures !created.completed ==> StatsOf([created] + s).pending == StatsOf(s).pending + 1
    ensures !created.completed ==> StatsOf([created] + s).completed == StatsOf(s).completed
  {
    CountAppend([created], s, true);
    CountAppend([created], s, false);
  }
}
