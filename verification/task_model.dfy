/**
  The single entity of the to-do application and the id-addressed operations
  that both the backend (SQL `WHERE id = ?`) and the browser client
  (`tasks.map` / `tasks.filter` on `t.id`) perform on a list of tasks.
 */
module TaskModel {

  datatype Option<+T> = None | Some(value: T)

  /** One task record. `createdAt` is an opaque timestamp, used only to order listings. */
  datatype Task = Task(id: nat, title: string, completed: bool, createdAt: nat)

  /** No two tasks of the list share an id (the table's primary-key constraint). */
  predicate UniqueIds(s: seq<Task>)
  {
    forall i, j :: 0 <= i < j < |s| ==> s[i].id != s[j].id
  }

  /** Some task of the list carries `id`. */
  predicate HasId(s: seq<Task>, id: nat)
  {
    exists i :: 0 <= i < |s| && s[i].id == id
  }

  /** The position of the first task carrying `id`, if there is one. */
  function FindById(s: seq<Task>, id: nat): (r: Option<nat>)
    ensures r.Some? ==> r.value < |s| && s[r.value].id == id
    ensures r.Some? ==> forall j :: 0 <= j < r.value ==> s[j].id != id
    ensures r.None? <==> !HasId(s, id)
  {
    if s == [] then None
    else if s[0].id == id then Some(0)
    else
      match FindById(s[1..], id)
      case None =>
        assert forall j :: 1 <= j < |s| ==> s[j] == s[1..][j - 1];
        None
      case Some(k) => Some(k + 1)
  }

  /** Every task carrying `id` replaced by `x`, every other task kept in place. */
  function ReplaceById(s: seq<Task>, id: nat, x: Task): (r: seq<Task>)
    ensures |r| == |s|
    ensures forall i :: 0 <= i < |s| ==> r[i] == (if s[i].id == id then x else s[i])
  {
    if s == [] then []
    else [if s[0].id == id then x else s[0]] + ReplaceById(s[1..], id, x)
  }

  /** Every task carrying `id` dropped, the others kept in their order. */
  function RemoveById(s: seq<Task>, id: nat): (r: seq<Task>)
    ensures |r| <= |s|
    ensures !HasId(r, id)
    ensures multiset(r) <= multiset(s)
  {
    if s == [] then []
    else
      assert s == [s[0]] + s[1..];
      if s[0].id == id then RemoveById(s[1..], id)
      else [s[0]] + RemoveById(s[1..], id)
  }

  /** Every task that survives the removal was in the list. */
  lemma RemovedAreStored(s: seq<Task>, id: nat)
    ensures forall t :: t in RemoveById(s, id) ==> t in s
  {
  }

  /** Removal keeps the ids of the survivors unique. */
  lemma {:induction false} RemoveKeepsUnique(s: seq<Task>, id: nat)
    requires UniqueIds(s)
    ensures UniqueIds(RemoveById(s, id))
  {
    if s != [] {
      var tail := s[1..];
      assert UniqueIds(tail) by {
        forall i, j | 0 <= i < j < |tail| ensures tail[i].id != tail[j].id {
          assert tail[i] == s[i + 1] && tail[j] == s[j + 1];
        }
      }
      RemoveKeepsUnique(tail, id);
      if s[0].id != id {
        var rest := RemoveById(tail, id);
        RemovedAreStored(tail, id);
        forall k | 0 <= k < |rest| ensures rest[k].id != s[0].id {
          assert rest[k] in tail;
        }
        var r := [s[0]] + rest;
        forall i, j | 0 <= i < j < |r| ensures r[i].id != r[j].id {
          if i > 0 {
            assert r[i] == rest[i - 1] && r[j] == rest[j - 1];
          } else {
            assert r[j] == rest[j - 1];
          }
        }
      }
    }
  }

  /** Every task of another id survives the removal. */
  lemma {:induction false} RemoveByIdKeepsAll(s: seq<Task>, id: nat)
    ensures forall t :: t in s && t.id != id ==> t in RemoveById(s, id)
  {
    if s != [] {
      RemoveByIdKeepsAll(s[1..], id);
      assert forall t :: t in s ==> t == s[0] || t in s[1..];
    }
  }

  /** Removal distributes over concatenation: the kept tasks stay in their original order. */
  lemma {:induction false} RemoveByIdAppend(a: seq<Task>, b: seq<Task>, id: nat)
    ensures RemoveById(a + b, id) == RemoveById(a, id) + RemoveById(b, id)
  {
    if a == [] {
      assert a + b == b;
    } else {
      assert (a + b)[1..] == a[1..] + b;
      RemoveByIdAppend(a[1..], b, id);
    }
  }

  /** A list without `id` is left exactly as it was. */
  lemma {:induction false} RemoveAbsentId(s: seq<Task>, id: nat)
    requires !HasId(s, id)
    ensures RemoveById(s, id) == s
  {
    if s != [] {
      assert s[0].id != id;
      assert !HasId(s[1..], id) by {
        forall j | 0 <= j < |s[1..]| ensures s[1..][j].id != id {
          assert s[1..][j] == s[j + 1];
        }
      }
      RemoveAbsentId(s[1..], id);
      assert s == [s[0]] + s[1..];
    }
  }

  /** With unique ids, the id at position `i` occurs neither before nor after it. */
  lemma UniqueIdAlone(s: seq<Task>, i: nat)
    requires UniqueIds(s)
    requires i < |s|
    ensures !HasId(s[..i], s[i].id)
    ensures !HasId(s[i + 1..], s[i].id)
  {
  }

  /** Removing an id that occurs only at position `i` removes exactly that one task. */
  lemma {:induction false} RemoveSoleId(s: seq<Task>, id: nat, i: nat)
    requires i < |s| && s[i].id == id
    requires !HasId(s[..i], id) && !HasId(s[i + 1..], id)
    ensures RemoveById(s, id) == s[..i] + s[i + 1..]
  {
    if i == 0 {
      RemoveAbsentId(s[1..], id);
    } else {
      var tail := s[1..];
      assert s[..i][0] == s[0];
      var prefix := tail[..i - 1];
      assert !HasId(prefix, id) by {
        forall j | 0 <= j < |prefix| ensures prefix[j].id != id {
          assert prefix[j] == s[..i][j + 1];
        }
      }
      assert tail[i..] == s[i + 1..];
      RemoveSoleId(tail, id, i - 1);
      assert s[..i] == [s[0]] + tail[..i - 1];
    }
  }

  /** With unique ids, removing the id found at position `i` removes exactly that one task. */
  lemma RemoveUniqueId(s: seq<Task>, id: nat, i: nat)
    requires UniqueIds(s)
    requires i < |s| && s[i].id == id
    ensures RemoveById(s, id) == s[..i] + s[i + 1..]
    ensures |RemoveById(s, id)| == |s| - 1
  {
    UniqueIdAlone(s, i);
    RemoveSoleId(s, id, i);
  }
}
