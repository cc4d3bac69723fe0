/**
  Properties that relate several calls of the task router: what a later
  listing or lookup sees after a create, update or delete, and how the
  partial-update rules behave when repeated.
 */
module RouteProperties {
  import opened TaskModel
  import opened Ordering
  import opened TaskRoutes

  /** Sending the same patch twice writes the same task as sending it once. */
  lemma PatchIdempotent(t: Task, p: Patch)
    ensures ApplyPatch(ApplyPatch(t, p), p) == ApplyPatch(t, p)
  {
  }

  /** A body with neither field leaves the task as it was. */
  lemma EmptyPatchKeepsTask(t: Task)
    ensures ApplyPatch(t, Patch(None, None)) == t
  {
  }

  /** Because of the falsy fallback, an update never empties a non-empty title. */
  lemma PatchKeepsTitleNonEmpty(t: Task, p: Patch)
    requires t.title != ""
    ensures ApplyPatch(t, p).title != ""
  {
  }

  /** A created task is listed afterwards, once, next to every task that was there before. */
  lemma CreateThenList(s: Store, title: string, now: nat)
    requires Valid(s)
    ensures
      var h := CreateTask(s, Some(title), now, Accept);
      var t := h.response.body.task;
      var listed := ListTasks(h.store, None).response.body.tasks;
      && multiset(listed) == multiset(s.rows) + multiset{t}
      && t.title == title && !t.completed
      && !HasId(s.rows, t.id)
      && NewestFirst(listed)
  {
  }

  /** A task created later than every stored task heads the next listing. */
  lemma {:induction false} CreatedNewestListedFirst(s: Store, title: string, now: nat)
    requires Valid(s)
    requires forall i :: 0 <= i < |s.rows| ==> s.rows[i].createdAt < now
    ensures
      var h := CreateTask(s, Some(title), now, Accept);
      var listed := ListTasks(h.store, None).response.body.tasks;
      listed != [] && listed[0] == h.response.body.task
  {
    var h := CreateTask(s, Some(title), now, Accept);
    var t := h.response.body.task;
    var listed := ListTasks(h.store, None).response.body.tasks;
    assert t in multiset(listed);
    forall u | u in listed && u != t ensures u.createdAt < t.createdAt {
      assert u in multiset(listed);
      assert u in multiset(s.rows);
      assert u in s.rows;
    }
    NewestComesFirst(listed, t);
  }

  /** Repeated identical creates store distinct records. */
  lemma CreateTwiceDistinct(s: Store, title: string, now: nat, later: nat)
    requires Valid(s)
    ensures
      var first := CreateTask(s, Some(title), now, Accept);
      var second := CreateTask(first.store, Some(title), later, Accept);
      first.response.body.task.id != second.response.body.task.id
  {
  }

  /**
    Setting `completed` to either value, `false` included, is what a later
    lookup sees; the title and every other field stay as they were.
   */
  lemma UpdateCompletedThenFind(s: Store, id: nat, c: bool)
    requires Valid(s) && HasId(s.rows, id)
    ensures
      var before := Find(s, id).value;
      var h := UpdateTask(s, id, Patch(None, Some(c)), NoFault);
      && h.response.status == 200
      && Find(h.store, id) == Some(before.(completed := c))
  {
  }

  /** A second identical PUT answers the same and leaves the store as the first left it. */
  lemma UpdateIdempotent(s: Store, id: nat, p: Patch)
    requires Valid(s) && HasId(s.rows, id)
    ensures
      var first := UpdateTask(s, id, p, NoFault);
      var second := UpdateTask(first.store, id, p, NoFault);
      second == first
  {
  }

  /** Deleting a stored id removes exactly that one task, keeping the others in order. */
  lemma DeleteRemovesExactlyOne(s: Store, id: nat)
    requires Valid(s) && HasId(s.rows, id)
    ensures
      var i := FindById(s.rows, id).value;
      DeleteTask(s, id, NoFault).store.rows == s.rows[..i] + s.rows[i + 1..]
  {
    RemoveUniqueId(s.rows, id, FindById(s.rows, id).value);
  }

  /** After a delete, neither a lookup nor a listing sees the task. */
  lemma DeleteThenFind(s: Store, id: nat)
    requires Valid(s) && HasId(s.rows, id)
    ensures
      var h := DeleteTask(s, id, NoFault);
      && Find(h.store, id).None?
      && forall t :: t in ListTasks(h.store, None).response.body.tasks ==> t.id != id
  {
    var h := DeleteTask(s, id, NoFault);
    var listed := ListTasks(h.store, None).response.body.tasks;
    forall t | t in listed ensures t.id != id {
      assert t in multiset(listed);
      assert t in h.store.rows;
    }
  }

  /** A second delete of the same id answers 404 and changes nothing. */
  lemma DeleteTwice(s: Store, id: nat)
    requires Valid(s) && HasId(s.rows, id)
    ensures
      var h := DeleteTask(s, id, NoFault);
      DeleteTask(h.store, id, NoFault) == Handled(Response(404, ErrorJson(NotFoundMessage)), h.store)
  {
  }
}
