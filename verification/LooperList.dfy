/** The linked list of src/timer_task.c does to its nodes what the looper protocol says its calls do
    to the queue of task ids: every step on the list is the protocol's step. */
module LooperLists {

  import opened Common
  import opened TimedOrder
  import opened Dlist
  import opened TimerTasks
  import Looper
  import LooperInv

  /** The node is the record of task id. */
  ghost predicate Stands(n: Node, q: Looper.Queue, id: Looper.TaskId)
    reads n`entry
  {
    id in q.mem && n.entry == Some(TimerTask(q.mem[id].deadline, q.mem[id].valid))
  }

  /** Node for node, the list holds the records of the queue. */
  ghost predicate Matches(list: TimerTaskList, q: Looper.Queue)
    reads list`tasks, list.tasks`entry
  {
    && |list.tasks| == |q.list|
    && forall i :: 0 <= i < |q.list| ==> Stands(list.tasks[i], q, q.list[i])
  }

  lemma SameDeadlines(list: TimerTaskList, q: Looper.Queue)
    requires Matches(list, q) && forall i :: 0 <= i < |list.tasks| ==> IsTask(list.tasks[i])
    ensures Keys(list.tasks) == Looper.Keys(q)
  {
    forall i | 0 <= i < |q.list| ensures Keys(list.tasks)[i] == Looper.Keys(q)[i] {
      assert Stands(list.tasks[i], q, q.list[i]);
    }
  }

  /** Inserting into both sequences at one place keeps them in step. */
  lemma InStepAfterInsert(tasks: seq<Node>, list: seq<Looper.TaskId>, p: nat, task: Node, id: Looper.TaskId, i: nat)
    requires |tasks| == |list| && p <= |list| && i <= |list|
    ensures InsertAt(tasks, p, task)[i] == if i == p then task else tasks[if i < p then i else i - 1]
    ensures InsertAt(list, p, id)[i] == if i == p then id else list[if i < p then i else i - 1]
  {}

  lemma AcceptedRecords(q: Looper.Queue, w: Looper.WorkerPc, d: int, id: Looper.TaskId)
    requires LooperInv.QueueInv(q, w) && id in q.list
    ensures id != q.nextId && id in q.mem && id in Looper.AcceptTask(q, d).mem
    ensures Looper.AcceptTask(q, d).mem[id] == q.mem[id]
  {
    hide Looper.Keys;
  }

  /** timer_task_list_insert is AcceptTask. */
  method Post(list: TimerTaskList, ghost q: Looper.Queue, ghost w: Looper.WorkerPc, delayMs: int, now: int)
    returns (task: Node)
    requires list.Valid() && Matches(list, q) && LooperInv.QueueInv(q, w)
    modifies list`tasks, list.Nodes()`next, list.Nodes()`prev
    ensures list.Valid() && fresh(task) && Matches(list, Looper.AcceptTask(q, now + delayMs))
  {
    hide Ring, Sorted, Keys, InsertPos, InsertAt, Looper.Keys, LooperInv.QueueInv;
    ghost var tasks, d := list.tasks, now + delayMs;
    ghost var p := InsertPos(Keys(tasks), d);
    SameDeadlines(list, q);
    ghost var q' := Looper.AcceptTask(q, d);
    task := list.Insert(delayMs, now);
    forall i | 0 <= i < |q'.list| ensures Stands(list.tasks[i], q', q'.list[i]) {
      InStepAfterInsert(tasks, q.list, p, task, q.nextId, i);
      if i != p {
        ghost var k := if i < p then i else i - 1;
        assert old(Stands(tasks[k], q, q.list[k]));
        AcceptedRecords(q, w, d, q.list[k]);
      }
    }
  }

  /** timer_task_list_cancel is CancelTask. */
  method Cancel(list: TimerTaskList, ghost q: Looper.Queue, task: ListHead?<TimerTask>, ghost id: Looper.TaskId)
    returns (found: bool)
    requires list.Valid() && Matches(list, q)
    requires forall i :: 0 <= i < |q.list| ==> (list.tasks[i] == task <==> q.list[i] == id)
    modifies list.tasks`entry
    ensures list.Valid() && list.tasks == old(list.tasks) && Matches(list, Looper.CancelTask(q, id))
    ensures found <==> id in q.list
  {
    hide Ring, Sorted, Keys, Looper.Keys;
    found := list.Cancel(task);
    ghost var q' := Looper.CancelTask(q, id);
    forall i | 0 <= i < |q.list| ensures Stands(list.tasks[i], q', q.list[i]) {
      assert old(Stands(list.tasks[i], q, q.list[i]));
      assert q.list[i] in q.list;
    }
  }

  /** Lines 53-58 of src/looper.c, for a first task that is due. */
  method Pop(list: TimerTaskList, ghost q: Looper.Queue) returns (task: Node)
    requires list.Valid() && Matches(list, q) && q.list != []
    modifies list`tasks, list.Nodes()`next, list.Nodes()`prev
    ensures list.Valid() && Matches(list, q.(list := q.list[1..])) && Stands(task, q, q.list[0])
  {
    hide Ring, Sorted, Keys, Looper.Keys;
    task := list.First();
    assert Stands(task, q, q.list[0]);
    list.Del(task, 0);
    forall i | 0 <= i < |q.list| - 1 ensures Stands(list.tasks[i], q, q.list[1..][i]) {
      assert list.tasks[i] == old(list.tasks[i + 1]);
      assert old(Stands(list.tasks[i + 1], q, q.list[i + 1]));
    }
  }

  /** timer_task_list_clear is ClearTasks. */
  method Clear(list: TimerTaskList, ghost q: Looper.Queue) returns (ghost freed: seq<Node>)
    requires list.Valid() && Matches(list, q)
    modifies list`tasks, list.Nodes()`next, list.Nodes()`prev
    ensures list.Valid() && Matches(list, Looper.ClearTasks(q))
    ensures |freed| == |q.list| && forall i :: 0 <= i < |q.list| ==> Stands(freed[i], q, q.list[i])
  {
    hide Ring, Sorted, Keys, Looper.Keys;
    freed := list.Clear();
    forall i | 0 <= i < |q.list| ensures Stands(freed[i], q, q.list[i]) {
      assert old(Stands(list.tasks[i], q, q.list[i]));
    }
  }
}
