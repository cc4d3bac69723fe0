/**
  The listing order of the task API: every stored task, newest `createdAt`
  first. The SQL `ORDER BY createdAt DESC` leaves ties in an unspecified
  order; the model sorts with a stable insertion sort, but only sortedness
  and the permutation are promised.
 */
module Ordering {
  import opened TaskModel

  /** `createdAt` never increases along the list. */
  predicate NewestFirst(s: seq<Task>)
  {
    forall i, j :: 0 <= i < j < |s| ==> s[i].createdAt >= s[j].createdAt
  }

  /** `t` placed into a newest-first list, ahead of every task no newer than itself. */
  function Insert(t: Task, s: seq<Task>): (r: seq<Task>)
    requires NewestFirst(s)
    ensures NewestFirst(r)
    ensures multiset(r) == multiset(s) + multiset{t}
    ensures |r| == |s| + 1
    ensures r[0] == t || (s != [] && r[0] == s[0])
  {
    if s == [] || t.createdAt >= s[0].createdAt then [t] + s
    else
      assert s == [s[0]] + s[1..];
      [s[0]] + Insert(t, s[1..])
  }

  /** The tasks of `s` rearranged newest first. */
  function SortNewestFirst(s: seq<Task>): (r: seq<Task>)
    ensures NewestFirst(r)
    ensures multiset(r) == multiset(s)
  {
    if s == [] then []
    else
      assert s == [s[0]] + s[1..];
      Insert(s[0], SortNewestFirst(s[1..]))
  }

  /** No two different tasks of the list share a timestamp. */
  predicate DistinctTimestamps(s: seq<Task>)
  {
    forall i, j :: 0 <= i < |s| && 0 <= j < |s| && s[i].createdAt == s[j].createdAt ==> s[i] == s[j]
  }

  /** In a newest-first list, a task strictly newer than all the others comes first. */
  lemma NewestComesFirst(s: seq<Task>, t: Task)
    requires NewestFirst(s)
    requires t in s
    requires forall u :: u in s && u != t ==> u.createdAt < t.createdAt
    ensures s[0] == t
  {
  }

  /** Two newest-first arrangements of one collection with distinct timestamps start alike. */
  lemma SameNewest(a: seq<Task>, b: seq<Task>)
    requires NewestFirst(a) && NewestFirst(b)
    requires multiset(a) == multiset(b)
    requires DistinctTimestamps(a)
    requires a != []
    ensures b != [] && a[0] == b[0]
  {
    assert a[0] in multiset(b);
    var i :| 0 <= i < |b| && b[i] == a[0];
    assert b[0] in multiset(a);
    var j :| 0 <= j < |a| && a[j] == b[0];
    assert b[0].createdAt >= b[i].createdAt;
    assert a[0].createdAt >= a[j].createdAt;
  }

  /** Dropping equal heads leaves equal collections behind. */
  lemma SameTails(a: seq<Task>, b: seq<Task>)
    requires a != [] && b != [] && a[0] == b[0]
    requires multiset(a) == multiset(b)
    ensures multiset(a[1..]) == multiset(b[1..])
  {
    assert a == [a[0]] + a[1..];
    assert b == [b[0]] + b[1..];
    calc {
      multiset(a[1..]);
      multiset(a) - multiset{a[0]};
      multiset(b) - multiset{b[0]};
      multiset(b[1..]);
    }
  }

  /** When timestamps are distinct, the newest-first arrangement of a collection is unique. */
  lemma {:induction false} NewestFirstUnique(a: seq<Task>, b: seq<Task>)
    requires NewestFirst(a) && NewestFirst(b)
    requires multiset(a) == multiset(b)
    requires DistinctTimestamps(a)
    ensures a == b
  {
    if a == [] {
      assert |b| == |multiset(b)| == 0;
    } else {
      SameNewest(a, b);
      SameTails(a, b);
      assert DistinctTimestamps(a[1..]) by {
        forall p, q | 0 <= p < |a[1..]| && 0 <= q < |a[1..]| && a[1..][p].createdAt == a[1..][q].createdAt
          ensures a[1..][p] == a[1..][q]
        {
          assert a[1..][p] == a[p + 1] && a[1..][q] == a[q + 1];
        }
      }
      NewestFirstUnique(a[1..], b[1..]);
      assert a == [a[0]] + a[1..];
      assert b == [b[0]] + b[1..];
    }
  }
}
