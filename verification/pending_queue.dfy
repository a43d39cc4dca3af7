/** The pending-update queue of the Kanban context: one entry per moved task
    recording the last requested placement (src/contexts/kanban-context.tsx:38-43,
    225-233). */
module PendingQueue {
  import opened Basics

  datatype PendingUpdate = PendingUpdate(taskId: string, columnId: string, position: int, timestamp: int)

  /** The filter predicate "the entry is for another task". */
  function NotFor(taskId: string): PendingUpdate -> bool
  {
    (u: PendingUpdate) => u.taskId != taskId
  }

  /** The queue without its entries for `taskId`, others in order. */
  function OtherTasks(q: seq<PendingUpdate>, taskId: string): (r: seq<PendingUpdate>)
    ensures forall i :: 0 <= i < |r| ==> r[i].taskId != taskId
  {
    var r := Filter(q, NotFor(taskId));
    assert forall i :: 0 <= i < |r| ==> r[i] in r;
    r
  }

  /** The queue update of a move: drop every earlier entry for the task, keep
      the others in order, and put the new entry last. */
  function Enqueue(q: seq<PendingUpdate>, u: PendingUpdate): (r: seq<PendingUpdate>)
    ensures |r| > 0 && r[|r| - 1] == u
    ensures forall i :: 0 <= i < |r| - 1 ==> r[i].taskId != u.taskId
    ensures |r| <= |q| + 1
  {
    OtherTasks(q, u.taskId) + [u]
  }

  /** Entries for other tasks are kept, each exactly as often as before. */
  lemma EnqueueKeepsOthers(q: seq<PendingUpdate>, u: PendingUpdate)
    ensures forall v: PendingUpdate :: v.taskId != u.taskId ==> multiset(Enqueue(q, u))[v] == multiset(q)[v]
  {
    var rest := OtherTasks(q, u.taskId);
    FilterMultiset(q, NotFor(u.taskId));
    assert multiset(Enqueue(q, u)) == multiset(rest) + multiset([u]);
  }

  /** At most one entry per task. */
  ghost predicate Coalesced(q: seq<PendingUpdate>)
  {
    forall i, j :: 0 <= i < j < |q| ==> q[i].taskId != q[j].taskId
  }

  /** Filtering cannot create two entries for one task. */
  lemma {:induction false} OtherTasksCoalesced(q: seq<PendingUpdate>, taskId: string)
    requires Coalesced(q)
    ensures Coalesced(OtherTasks(q, taskId))
  {
    if |q| > 0 {
      assert Coalesced(q[1..]);
      OtherTasksCoalesced(q[1..], taskId);
      var tail := OtherTasks(q[1..], taskId);
      assert forall v :: v in tail ==> v in q[1..];
      assert forall j :: 0 <= j < |tail| ==> tail[j].taskId != q[0].taskId by {
        forall j | 0 <= j < |tail| ensures tail[j].taskId != q[0].taskId {
          assert tail[j] in q[1..];
          var m :| 0 <= m < |q[1..]| && q[1..][m] == tail[j];
          assert q[m + 1] == tail[j];
        }
      }
      assert q == [q[0]] + q[1..];
    }
  }

  /** Enqueueing keeps the queue at one entry per task. */
  lemma EnqueueKeepsCoalesced(q: seq<PendingUpdate>, u: PendingUpdate)
    requires Coalesced(q)
    ensures Coalesced(Enqueue(q, u))
  {
    OtherTasksCoalesced(q, u.taskId);
  }

  /** Two enqueues for the same task leave what the second alone would: the
      later update replaces the earlier one. */
  lemma EnqueueReplaces(q: seq<PendingUpdate>, u1: PendingUpdate, u2: PendingUpdate)
    requires u1.taskId == u2.taskId
    ensures Enqueue(Enqueue(q, u1), u2) == Enqueue(q, u2)
  {
    var keep := NotFor(u2.taskId);
    var rest := OtherTasks(q, u2.taskId);
    assert Enqueue(q, u1) == rest + [u1];
    FilterAppend(rest, [u1], keep);
    FilterKeepsAll(rest, keep);
    FilterDropsAll([u1], keep);
    assert OtherTasks(rest + [u1], u2.taskId) == rest;
  }

  /** For a task not yet queued, enqueueing is a plain append: the existing
      entries stay exactly as and where they were. */
  lemma EnqueueFresh(q: seq<PendingUpdate>, u: PendingUpdate)
    requires forall i :: 0 <= i < |q| ==> q[i].taskId != u.taskId
    ensures Enqueue(q, u) == q + [u]
  {
    FilterKeepsAll(q, NotFor(u.taskId));
  }

  /** For a task already queued once, enqueueing removes that one entry and
      appends the new one: every other entry stays, in its order. */
  lemma EnqueueDropsQueued(q: seq<PendingUpdate>, u: PendingUpdate, i: nat)
    requires Coalesced(q) && i < |q| && q[i].taskId == u.taskId
    ensures Enqueue(q, u) == q[..i] + q[i + 1..] + [u]
  {
    var keep := NotFor(u.taskId);
    var before, after := q[..i], q[i + 1..];
    var mid := [q[i]];
    assert q == (before + mid) + after;
    forall j | 0 <= j < |before| ensures keep(before[j]) {
      assert before[j] == q[j];
    }
    forall j | 0 <= j < |after| ensures keep(after[j]) {
      assert after[j] == q[i + 1 + j];
    }
    FilterKeepsAll(before, keep);
    FilterKeepsAll(after, keep);
    FilterDropsAll(mid, keep);
    FilterAppend(before, mid, keep);
    assert Filter(before + mid, keep) == before;
    FilterAppend(before + mid, after, keep);
    assert Filter(q, keep) == before + after;
    assert Enqueue(q, u) == Filter(q, keep) + [u];
  }
}
