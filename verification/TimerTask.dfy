/** The deadline-sorted timer list of src/timer_task.c, on the linked list of include/awe/dlist.h. */
module TimerTasks {

  import opened Common
  import opened TimedOrder
  import opened Dlist

  /** The fields of struct timer_task that matter here, as they stand in the node. */
  datatype TimerTask = TimerTask(procMs: int, valid: bool)

  /** A timer_task pointer is the node inside it; also the task's id. */
  type Node = ListHead<TimerTask>

  ghost predicate IsTask(n: Node)
    reads n`entry
  {
    n.entry.Some?
  }

  ghost function ProcMs(n: Node): int
    requires IsTask(n)
    reads n`entry
  {
    n.entry.value.procMs
  }

  ghost function Keys(tasks: seq<Node>): (keys: seq<int>)
    requires forall i :: 0 <= i < |tasks| ==> IsTask(tasks[i])
    reads tasks`entry
    ensures |keys| == |tasks| && forall i :: 0 <= i < |tasks| ==> keys[i] == ProcMs(tasks[i])
  {
    if tasks == [] then [] else Keys(tasks[..|tasks| - 1]) + [ProcMs(tasks[|tasks| - 1])]
  }

  lemma SameKeys(tasks: seq<Node>, keys: seq<int>)
    requires forall i :: 0 <= i < |tasks| ==> IsTask(tasks[i])
    requires |keys| == |tasks| && forall i :: 0 <= i < |tasks| ==> keys[i] == ProcMs(tasks[i])
    ensures keys == Keys(tasks)
  {}

  lemma StillPending(head: Node, all: seq<Node>, k: nat)
    requires k < |all|
    ensures all[..k] + [all[k..][0]] == all[..k + 1] && all[k..][1..] == all[k + 1..]
    ensures forall i :: 0 <= i < |all| - k ==> all[k..][i] == ([head] + all)[i + k + 1]
  {}

  lemma TakeFirst<T>(s: seq<T>)
    requires s != []
    ensures RemoveAt(s, 0) == s[1..]
  {}

  lemma KeysOfRemove(tasks: seq<Node>, k: nat)
    requires k < |tasks| && forall i :: 0 <= i < |tasks| ==> IsTask(tasks[i])
    requires Sorted(Keys(tasks))
    ensures forall i :: 0 <= i < |RemoveAt(tasks, k)| ==> IsTask(RemoveAt(tasks, k)[i])
    ensures Sorted(Keys(RemoveAt(tasks, k)))
  {
    RemoveAtElements(tasks, k);
  }

  lemma InsertBehindHead<T>(x: T, s: seq<T>, p: nat, y: T)
    requires p <= |s|
    ensures InsertAt([x] + s, p + 1, y) == [x] + InsertAt(s, p, y)
  {
    assert ([x] + s)[..p + 1] == [x] + s[..p];
    assert ([x] + s)[p + 1..] == s[p..];
  }

  lemma KeysOfInsert(tasks: seq<Node>, p: nat, task: Node)
    requires p <= |tasks| && IsTask(task) && forall i :: 0 <= i < |tasks| ==> IsTask(tasks[i])
    ensures forall i :: 0 <= i < |InsertAt(tasks, p, task)| ==> IsTask(InsertAt(tasks, p, task)[i])
    ensures Keys(InsertAt(tasks, p, task)) == InsertAt(Keys(tasks), p, ProcMs(task))
  {
    InsertAtElements(tasks, p, task);
    InsertAtElements(Keys(tasks), p, ProcMs(task));
  }

  /** The place between the tasks due no later and those due later is InsertPos. */
  lemma OnlyPosition(keys: seq<int>, d: int, p: nat)
    requires Sorted(keys) && p <= |keys| && (p > 0 ==> keys[p - 1] <= d)
    requires forall i :: p <= i < |keys| ==> d < keys[i]
    ensures p == InsertPos(keys, d)
  {
    InsertPosSplits(keys, d);
  }

  class TimerTaskList {
    const head: Node
    /** The pending tasks in list order. */
    ghost var tasks: seq<Node>

    ghost function Nodes(): seq<Node>
      reads this
    {
      [head] + tasks
    }

    /** A well-formed ring, sorted by deadline. */
    ghost predicate Valid()
      reads this, head, tasks
    {
      && Ring(Nodes())
      && (forall i :: 0 <= i < |tasks| ==> IsTask(tasks[i]))
      && Sorted(Keys(tasks))
    }

    // timer_task_list_init
    constructor ()
      ensures Valid() && tasks == [] && fresh(head)
    {
      head := new ListHead(None);
      tasks := [];
    }

    // timer_task_list_empty
    method Empty() returns (empty: bool)
      requires Valid()
      ensures empty <==> tasks == []
    {
      empty := ListEmpty(head, Nodes());
    }

    // timer_task_list_first
    method First() returns (task: Node)
      requires Valid() && tasks != []
      ensures task == tasks[0] && IsTask(task)
      ensures forall i :: 0 <= i < |tasks| ==> ProcMs(task) <= ProcMs(tasks[i])
    {
      assert head.next == Nodes()[1];
      task := head.next;
    }

    /** The backward scan of timer_task_list_insert: the node in front of which the new task goes. */
    method InsertPoint(procMs: int) returns (pos: Node, ghost p: nat)
      requires Valid()
      ensures p == InsertPos(Keys(tasks), procMs)
      ensures var k := InsertPos(Keys(tasks), procMs); pos == Nodes()[if k == |tasks| then 0 else k + 1]
    {
      hide Ring, Sorted, Keys, InsertPos, InsertAt;
      p := |tasks|;
      Neighbours(Nodes(), 0);
      var cur: Node := head.prev;
      pos := head.next;
      while cur != head
        invariant 0 <= p <= |tasks| && cur == Nodes()[p]
        invariant forall i :: p <= i < |tasks| ==> procMs < ProcMs(tasks[i])
        invariant pos == Nodes()[if tasks == [] then 0 else 1]
        decreases p
      {
        Neighbours(Nodes(), p);
        if procMs >= cur.entry.value.procMs {
          pos := cur.next;
          break;
        }
        cur := cur.prev;
        p := p - 1;
      }
      Neighbours(Nodes(), 0);
      OnlyPosition(Keys(tasks), procMs, p);
    }

    /** timer_task_list_insert: the new task goes behind every task that is due no later. */
    method Insert(delayMs: int, now: int) returns (task: Node)
      requires Valid()
      modifies this`tasks, Nodes()`next, Nodes()`prev
      ensures Valid() && fresh(task) && task.entry == Some(TimerTask(now + delayMs, true))
      ensures tasks == InsertAt(old(tasks), InsertPos(old(Keys(tasks)), now + delayMs), task)
    {
      hide Ring, Sorted, Keys, InsertPos, InsertAt;
      ghost var keys, r := Keys(tasks), Nodes();
      InsertPosSplits(keys, now + delayMs);
      task := new ListHead(Some(TimerTask(now + delayMs, true)));
      var pos, p := InsertPoint(now + delayMs);
      InsertBehindHead(head, tasks, p, task);
      KeysOfInsert(tasks, p, task);
      tasks := InsertAt(tasks, p, task);
      ListAddTail(task, pos, r, p + 1);
    }

    // timer_task_list_del
    method Del(task: Node, ghost k: nat)
      requires Valid() && k < |tasks| && tasks[k] == task
      modifies this`tasks, Nodes()`next, Nodes()`prev
      ensures Valid() && tasks == RemoveAt(old(tasks), k)
      ensures task.next == null && task.prev == null
    {
      hide Ring, Sorted, Keys, RemoveAt;
      ghost var r := Nodes();
      RemoveBehindHead(head, tasks, k);
      KeysOfRemove(tasks, k);
      tasks := RemoveAt(tasks, k);
      ListDel(task, r, k + 1);
    }

    /** timer_task_list_cancel: marks the task if it is on the list, and touches nothing else. */
    method Cancel(id: ListHead?<TimerTask>) returns (found: bool)
      requires Valid()
      modifies tasks`entry
      ensures Valid()
      ensures found <==> id in tasks
      ensures forall i :: 0 <= i < |tasks| ==>
        tasks[i].entry.value
        == if tasks[i] == id then old(tasks[i].entry.value).(valid := false) else old(tasks[i].entry.value)
    {
      hide Ring, Sorted, Keys;
      found := false;
      ghost var p := |tasks|;
      Neighbours(Nodes(), 0);
      var pos: Node := head.prev;
      while pos != head
        invariant 0 <= p <= |tasks| && pos == Nodes()[p] && !found
        invariant forall i :: p <= i < |tasks| ==> tasks[i] != id
        invariant Valid() && forall i :: 0 <= i < |tasks| ==> tasks[i].entry == old(tasks[i].entry)
        decreases p
      {
        Neighbours(Nodes(), p);
        if id == pos {
          ghost var keys := Keys(tasks);
          pos.entry := Some(pos.entry.value.(valid := false));
          SameKeys(tasks, keys);
          found := true;
          break;
        }
        pos := pos.prev;
        p := p - 1;
      }
    }

    /** timer_task_list_clear: the safe iteration frees each task once, in list order, and ends with
        an empty ring. */
    method Clear() returns (ghost freed: seq<Node>)
      requires Valid()
      modifies this`tasks, Nodes()`next, Nodes()`prev
      ensures Valid() && tasks == [] && freed == old(tasks)
    {
      hide Ring, Sorted, Keys, RemoveAt;
      freed := [];
      ghost var all, r := tasks, Nodes();
      Neighbours(Nodes(), 0);
      var pos: Node := head.next;
      Neighbours(Nodes(), if tasks == [] then 0 else 1);
      var tmp: Node := pos.next;
      while pos != head
        invariant Valid() && |freed| <= |all| && freed == all[..|freed|] && tasks == all[|freed|..]
        invariant pos == Nodes()[if tasks == [] then 0 else 1]
        invariant tmp == Nodes()[if |tasks| <= 1 then 0 else 2]
        decreases |tasks|
      {
        assert tasks != [] && pos == tasks[0] by { Neighbours(Nodes(), 0); }
        StillPending(head, all, |freed|);
        freed := freed + [pos];
        pos, tmp := ClearFirst(pos, tmp);
      }
      Neighbours(Nodes(), 0);
    }

    /** One round of the safe iteration: the node after the next is read before the next is freed. */
    method ClearFirst(pos: Node, tmp: Node) returns (pos': Node, tmp': Node)
      requires Valid() && tasks != [] && pos == tasks[0] && tmp == Nodes()[if |tasks| <= 1 then 0 else 2]
      modifies this`tasks, Nodes()`next, Nodes()`prev
      ensures Valid() && tasks == old(tasks)[1..]
      ensures pos' == Nodes()[if tasks == [] then 0 else 1]
      ensures tmp' == Nodes()[if |tasks| <= 1 then 0 else 2]
    {
      hide Ring, Sorted, Keys, RemoveAt;
      TakeFirst(tasks);
      Del(pos, 0);
      pos' := tmp;
      Neighbours(Nodes(), if tasks == [] then 0 else 1);
      tmp' := pos'.next;
    }
  }
}
