/** What every step of the looper protocol keeps, however the threads interleave. */
module LooperInv {

  import opened Common
  import opened TimedOrder
  import opened Looper

  /** The mutex is held by exactly the thread whose program counter lies between lock and unlock. */
  ghost predicate LockInv(pcs: map<Tid, Pc>, lock: Option<Tid>) {
    && (forall t | t in pcs :: pcs[t].Holding() <==> lock == Some(t))
    && (lock.Some? ==> lock.value in pcs)
  }

  /** The recorded thread id names the one active worker; while a starter is still busy with
      the flags, its worker has not got past its first lock. */
  ghost predicate ThreadInv(pcs: map<Tid, Pc>, f: Flags) {
    && (forall t | t in pcs :: IsActive(pcs[t]) <==> f.tid == Some(t))
    && (f.tid.Some? ==> f.tid.value in pcs)
    && (forall t | t in pcs && InStartWindow(pcs[t]) :: f.tid.Some? && pcs[f.tid.value].w.Newborn())
    && (f.running ==> HasWorker(pcs))
  }

  predicate IsActive(pc: Pc) { pc.Worker? && pc.w.Active() }

  predicate InStartWindow(pc: Pc) { pc.Control? && pc.k.StartWindow() }

  ghost predicate HasWorker(pcs: map<Tid, Pc>) {
    exists w :: w in pcs && pcs[w].Worker?
  }

  /** The program counter of the active worker; CheckExit stands for none. */
  function Current(s: State): WorkerPc {
    if s.flags.tid.Some? && s.flags.tid.value in s.pcs && s.pcs[s.flags.tid.value].Worker?
    then s.pcs[s.flags.tid.value].w else CheckExit
  }

  /** The task that the worker has taken off the list and not yet freed. */
  function Held(w: WorkerPc): Option<TaskId> {
    if w.HasTask() then Some(w.task) else None
  }

  /** Conservation: the allocated records are the pending ones and the held one, without
      overlap; every other task accepted so far has been freed, once. */
  ghost predicate PlaceInv(q: Queue, held: Option<TaskId>) {
    && Distinct(q.list)
    && Distinct(q.freed)
    && (forall id: TaskId :: id in q.mem <==> id in q.list || held == Some(id))
    && (held.Some? ==> held.value !in q.list)
    && (forall id: TaskId :: id in q.freed <==> id < q.nextId && id !in q.mem)
    && (forall id: TaskId :: id in q.mem ==> id < q.nextId)
  }

  /** What has happened to a task agrees with where it is. */
  ghost predicate HistoryInv(q: Queue) {
    && Distinct(q.ran)
    && (forall id: TaskId :: id in q.cancelled ==> id < q.nextId)
    && (forall id: TaskId :: id in q.mem ==> (q.mem[id].valid <==> id !in q.cancelled))
    && (forall id: TaskId :: id in q.ran ==> id < q.nextId && id !in q.list && id !in q.cancelled && id !in q.cleared)
    && (forall id: TaskId :: id in q.cleared ==> id in q.freed)
    && (forall id: TaskId :: id in q.freed && id !in q.cleared && id !in q.cancelled ==> id in q.ran)
  }

  /** The worker's program counter agrees with the history of the task it holds. */
  ghost predicate HeldInv(q: Queue, w: WorkerPc) {
    match w
    case TestState(id) => id !in q.ran
    case InProc(id) => id in q.ran
    case FreeTask(id) => id in q.ran || id in q.cancelled
    case _ => true
  }

  ghost predicate Before(q: Queue, a: TaskId, b: TaskId) {
    Deadline(q, a) < Deadline(q, b) || (Deadline(q, a) == Deadline(q, b) && a < b)
  }

  /** The list is in order of (deadline, posting order). */
  ghost predicate OrderInv(q: Queue) {
    forall i, j :: 0 <= i < j < |q.list| ==> Before(q, q.list[i], q.list[j])
  }

  ghost predicate QueueInv(q: Queue, w: WorkerPc) {
    PlaceInv(q, Held(w)) && HistoryInv(q) && HeldInv(q, w) && OrderInv(q)
  }

  ghost predicate Inv(s: State) {
    LockInv(s.pcs, s.lock) && ThreadInv(s.pcs, s.flags) && QueueInv(s.q, Current(s))
  }

  lemma InitInv()
    ensures Inv(INIT)
  {}

  // ---- the mutex and the thread's flags ----

  /** A step takes or gives up the mutex exactly as its program counters say. */
  ghost predicate LockMoves(pc: Pc, lock: Option<Tid>, t: Tid, next: Option<Pc>, lock': Option<Tid>) {
    && lock' in {lock, None, Some(t)}
    && (lock' != lock ==> lock in {None, Some(t)})
    && (if next.Some? then next.value.Holding() <==> lock' == Some(t) else lock' != Some(t))
  }

  lemma LockStep(s: State, t: Tid, env: Env)
    requires t in s.pcs && (s.pcs[t].Wanting() ==> s.lock == None)
    requires s.pcs[t].Holding() <==> s.lock == Some(t)
    ensures LockMoves(s.pcs[t], s.lock, t, Next(s, s.pcs[t], env), NextLock(s, t))
  {}

  /** A step changes the recorded thread id, the worker's life and the running flag together. */
  ghost predicate FlagMoves(pc: Pc, f: Flags, next: Option<Pc>, f': Flags, newTid: Tid) {
    && (next == Some(Control(StartClearExit)) ==> pc == Control(Start) && f.tid == None && f'.tid == Some(newTid))
    && (next != Some(Control(StartClearExit)) ==> f'.tid == if pc == Worker(ClearTid) then None else f.tid)
    && (if next.Some? then IsActive(next.value) <==> IsActive(pc) && pc != Worker(ClearTid) else !IsActive(pc))
    && (next.Some? && InStartWindow(next.value) && next != Some(Control(StartClearExit)) ==> InStartWindow(pc))
    && (pc.Worker? && pc.w.Newborn() && !pc.Wanting() ==> next.Some? && next.value.Worker? && next.value.w.Newborn())
    && (if next.Some? then next.value.Worker? <==> pc.Worker? else pc.Worker? ==> !f'.running)
    && (f'.running ==> f.running || InStartWindow(pc))
  }

  lemma FlagStep(s: State, pc: Pc, env: Env)
    requires Fault(s, pc, env) == Live
    ensures FlagMoves(pc, s.flags, Next(s, pc, env), NextFlags(s.flags, pc, env), env.newTid)
  {}

  lemma LockKept(pcs: map<Tid, Pc>, lock: Option<Tid>, t: Tid, next: Option<Pc>, lock': Option<Tid>, w: Tid)
    requires LockInv(pcs, lock) && t in pcs && LockMoves(pcs[t], lock, t, next, lock')
    requires next == Some(Control(StartClearExit)) ==> w !in pcs
    ensures LockInv(Advance(pcs, t, next, w), lock')
  {}

  lemma ThreadKept(pcs: map<Tid, Pc>, lock: Option<Tid>, f: Flags, t: Tid, next: Option<Pc>, f': Flags, w: Tid)
    requires LockInv(pcs, lock) && ThreadInv(pcs, f)
    requires t in pcs && FlagMoves(pcs[t], f, next, f', w)
    requires (next == Some(Control(StartClearExit)) ==> w !in pcs) && (pcs[t].Wanting() ==> lock == None)
    ensures ThreadInv(Advance(pcs, t, next, w), f')
  {
    var pcs' := Advance(pcs, t, next, w);
    if f'.running {
      var x: Tid :| if InStartWindow(pcs[t]) then f.tid == Some(x) else x in pcs && pcs[x].Worker?;
      assert x in pcs' && pcs'[x].Worker?;
    }
  }

  /** The mutex and the thread's flags, after any step. */
  lemma ThreadStep(s: State, a: Action)
    requires LockInv(s.pcs, s.lock) && ThreadInv(s.pcs, s.flags) && Enabled(s, a)
    ensures LockInv(Step(s, a).pcs, Step(s, a).lock) && ThreadInv(Step(s, a).pcs, Step(s, a).flags)
  {
    hide Next, NextLock, NextFlags, NextQueue, Fault, Advance;
    if a.Go? {
      var pc := s.pcs[a.t];
      if Fault(s, pc, a.env) == Live {
        LockStep(s, a.t, a.env);
        FlagStep(s, pc, a.env);
        var next := Next(s, pc, a.env);
        LockKept(s.pcs, s.lock, a.t, next, NextLock(s, a.t), a.env.newTid);
        ThreadKept(s.pcs, s.lock, s.flags, a.t, next, NextFlags(s.flags, pc, a.env), a.env.newTid);
      }
    } else {
      CallKept(s, a);
    }
  }

  /** A call only adds its thread. */
  lemma CallMoves(s: State, a: Action)
    requires Enabled(s, a) && !a.Go?
    ensures var s' := Step(s, a);
      && a.t !in s.pcs && a.t in s'.pcs && s'.pcs == s.pcs[a.t := s'.pcs[a.t]]
      && s'.flags == s.flags && s'.lock == s.lock
      && s'.pcs[a.t].Wanting() && !s'.pcs[a.t].Worker? && !InStartWindow(s'.pcs[a.t])
  {}

  lemma CallKept(s: State, a: Action)
    requires LockInv(s.pcs, s.lock) && ThreadInv(s.pcs, s.flags) && Enabled(s, a) && !a.Go?
    ensures LockInv(Step(s, a).pcs, Step(s, a).lock) && ThreadInv(Step(s, a).pcs, Step(s, a).flags)
  {
    CallMoves(s, a);
    hide Step, Enabled;
    var w :| s.flags.running ==> w in s.pcs && s.pcs[w].Worker?;
    assert s.flags.running ==> Step(s, a).pcs[w].Worker?;
  }

  // ---- the tasks ----

  lemma AcceptKept(q: Queue, w: WorkerPc, d: int)
    requires QueueInv(q, w)
    ensures QueueInv(AcceptTask(q, d), w)
  {
    hide InsertAt, InsertPos, Keys, Distinct;
    var p, q' := InsertPos(Keys(q), d), AcceptTask(q, d);
    KeysAreDeadlines(q);
    AcceptInPlace(q, w, d);
    forall i, j | 0 <= i < j < |q'.list| ensures Before(q', q'.list[i], q'.list[j]) {
      InsertPosSplits(Keys(q), d);
      AcceptInOrder(q, q', p, d, i, j);
    }
  }

  lemma AcceptInPlace(q: Queue, w: WorkerPc, d: int)
    requires QueueInv(q, w)
    ensures var q' := AcceptTask(q, d); PlaceInv(q', Held(w)) && HistoryInv(q') && HeldInv(q', w)
  {
    hide InsertAt, InsertPos, Keys, OrderInv;
    InsertAtElements(q.list, InsertPos(Keys(q), d), q.nextId);
  }

  lemma KeysAreDeadlines(q: Queue)
    requires OrderInv(q)
    ensures forall i :: 0 <= i < |q.list| ==> Keys(q)[i] == Deadline(q, q.list[i])
    ensures Sorted(Keys(q))
  {
    forall i, j | 0 <= i < j < |q.list| ensures Keys(q)[i] <= Keys(q)[j] {
      assert Before(q, q.list[i], q.list[j]);
    }
  }

  lemma AcceptInOrder(q: Queue, q': Queue, p: nat, d: int, i: nat, j: nat)
    requires OrderInv(q) && forall k :: 0 <= k < |q.list| ==> q.list[k] in q.mem && q.list[k] < q.nextId
    requires q'.mem == q.mem[q.nextId := TaskRec(d, true)] && i < j <= |q.list| && p <= |q.list| == |q'.list| - 1
    requires q'.list == InsertAt(q.list, p, q.nextId)
    requires forall k :: 0 <= k < |q.list| ==> (k < p <==> Deadline(q, q.list[k]) <= d)
    ensures Before(q', q'.list[i], q'.list[j])
  {
    InsertAtElements(q.list, p, q.nextId);
    if i != p && j != p {
      assert Before(q, q.list[if i < p then i else i - 1], q.list[if j < p then j else j - 1]);
    } else if i == p {
      assert Deadline(q, q.list[j - 1]) > d;
    } else {
      assert Deadline(q, q.list[i]) <= d;
    }
  }

  lemma CancelKept(q: Queue, w: WorkerPc, id: TaskId)
    requires QueueInv(q, w)
    ensures QueueInv(CancelTask(q, id), w)
  {}

  lemma ClearKept(q: Queue, w: WorkerPc)
    requires QueueInv(q, w)
    ensures QueueInv(ClearTasks(q), w)
  {
    DistinctConcat(q.freed, q.list);
  }

  lemma PopInOrder(q: Queue)
    requires OrderInv(q) && q.list != []
    ensures OrderInv(q.(list := q.list[1..]))
  {
    forall i, j | 1 <= i < j < |q.list| ensures Before(q.(list := q.list[1..]), q.list[i], q.list[j]) {
      assert Before(q, q.list[i], q.list[j]);
    }
  }

  lemma PopInPlace(q: Queue)
    requires PlaceInv(q, None) && q.list != []
    ensures PlaceInv(q.(list := q.list[1..]), Some(q.list[0]))
    ensures forall id: TaskId :: id in q.list[1..] ==> id in q.list
  {
    assert q.list == [q.list[0]] + q.list[1..];
  }

  lemma PopKept(q: Queue, now: int)
    requires QueueInv(q, PickFirst) && FirstIsDue(q, now)
    ensures QueueInv(q.(list := q.list[1..]), TestState(q.list[0]))
  {
    hide PlaceInv, OrderInv;
    PopInOrder(q);
    PopInPlace(q);
  }

  lemma TestKept(q: Queue, id: TaskId)
    requires QueueInv(q, TestState(id))
    ensures if q.mem[id].valid then QueueInv(q.(ran := q.ran + [id]), InProc(id)) else QueueInv(q, FreeTask(id))
  {
  }

  lemma FreeKept(q: Queue, id: TaskId)
    requires QueueInv(q, FreeTask(id))
    ensures QueueInv(q.(mem := q.mem - {id}, freed := q.freed + [id]), CheckExit)
  {
  }

  /** The active worker's program counter after a step of thread t. */
  lemma CurrentStep(s: State, t: Tid, env: Env)
    requires ThreadInv(s.pcs, s.flags) && Enabled(s, Go(t, env)) && Fault(s, s.pcs[t], env) == Live
    ensures Current(Step(s, Go(t, env))) ==
            if s.pcs[t] == Worker(ClearTid) then CheckExit
            else if IsActive(s.pcs[t]) then WorkerNext(s, s.pcs[t].w, env)
            else Current(s)
    ensures IsActive(s.pcs[t]) ==> Current(s) == s.pcs[t].w
  {
    hide NextQueue, NextLock, WorkerNext;
    FlagStep(s, s.pcs[t], env);
  }

  lemma QueueKept(s: State, pc: Pc, env: Env, w: WorkerPc)
    requires QueueInv(s.q, w) && Fault(s, pc, env) == Live
    requires IsActive(pc) ==> w == pc.w
    ensures QueueInv(NextQueue(s, pc, env),
                     if pc == Worker(ClearTid) then CheckExit
                     else if IsActive(pc) then WorkerNext(s, pc.w, env) else w)
  {
    hide AcceptTask, CancelTask, ClearTasks, PlaceInv, HistoryInv, OrderInv;
    match pc
    case Worker(PickFirst) => if FirstIsDue(s.q, env.now) { PopKept(s.q, env.now); }
    case Worker(TestState(id)) => TestKept(s.q, id);
    case Worker(FreeTask(id)) => FreeKept(s.q, id);
    case Client(Post(delay)) => AcceptKept(s.q, w, env.now + delay);
    case Client(Cancel(id)) => CancelKept(s.q, w, id);
    case Control(ClearAll(_)) => ClearKept(s.q, w);
    case _ =>
  }

  /** Every step of every thread keeps the whole invariant. */
  lemma InvStep(s: State, a: Action)
    requires Inv(s) && Enabled(s, a)
    ensures Inv(Step(s, a))
  {
    hide QueueInv, Fault, Next, NextQueue, NextLock, NextFlags, Advance;
    ThreadStep(s, a);
    if a.Go? {
      if Fault(s, s.pcs[a.t], a.env) == Live {
        CurrentStep(s, a.t, a.env);
        QueueKept(s, s.pcs[a.t], a.env, Current(s));
      }
    }
  }
}
