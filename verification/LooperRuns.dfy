/** Facts about whole runs of the looper, for every interleaving and every clock. */
module LooperRuns {

  import opened Common
  import opened TimedOrder
  import opened Looper
  import opened LooperInv

  ghost predicate Run(ss: seq<State>, acts: seq<Action>) {
    && |ss| == |acts| + 1
    && ss[0] == INIT
    && forall i {:trigger acts[i]} | 0 <= i < |acts| :: Enabled(ss[i], acts[i]) && ss[i + 1] == Step(ss[i], acts[i])
  }

  lemma {:induction false} RunInv(ss: seq<State>, acts: seq<Action>, i: nat)
    requires Run(ss, acts) && i < |ss|
    ensures Inv(ss[i])
  {
    hide Inv, Enabled, Step;
    if i == 0 {
      InitInv();
    } else {
      RunInv(ss, acts, i - 1);
      InvStep(ss[i - 1], acts[i - 1]);
    }
  }

  // ---- what a step does to a task ----

  /** The worker finds the task valid and calls its proc. */
  predicate Begins(s: State, a: Action, id: TaskId) {
    a.Go? && a.t in s.pcs && s.pcs[a.t] == Worker(TestState(id)) && id in s.q.mem && s.q.mem[id].valid
  }

  /** awe_looper_cancel is about to return AWE_OK. */
  predicate Cancels(s: State, a: Action, id: TaskId) {
    a.Go? && a.t in s.pcs && s.pcs[a.t] == Client(Cancel(id)) && s.flags.started && id in s.q.list
  }

  /** The worker takes the task off the list. */
  predicate Pops(s: State, a: Action, id: TaskId) {
    a.Go? && a.t in s.pcs && s.pcs[a.t] == Worker(PickFirst) && FirstIsDue(s.q, a.env.now) && s.q.list[0] == id
  }

  /** The task's record is given back. */
  predicate Frees(s: State, a: Action, id: TaskId) {
    && a.Go? && a.t in s.pcs
    && match s.pcs[a.t]
       case Worker(FreeTask(x)) => x == id && id in s.q.mem
       case Control(ClearAll(_)) => id in s.q.list
       case _ => false
  }

  /** awe_looper_clear drops the task. */
  predicate Clears(s: State, a: Action, id: TaskId) {
    a.Go? && a.t in s.pcs && s.pcs[a.t].Control? && s.pcs[a.t].k.ClearAll? && id in s.q.list
  }

  ghost predicate Grows(q: Queue, q': Queue) {
    && q.ran <= q'.ran && q.freed <= q'.freed && q.cancelled <= q'.cancelled && q.cleared <= q'.cleared
    && q.nextId <= q'.nextId
  }

  lemma QueueGrows(s: State, pc: Pc, env: Env)
    ensures Grows(s.q, NextQueue(s, pc, env))
  {
    hide InsertAt, InsertPos, Keys;
  }

  lemma BeginsFirst(s: State, a: Action, id: TaskId)
    requires Inv(s) && Enabled(s, a) && Begins(s, a, id)
    ensures id !in s.q.ran && id in Step(s, a).q.ran
  {
    hide Next, NextLock, NextFlags, Advance, LockInv, PlaceInv, OrderInv, HistoryInv;
    assert IsActive(s.pcs[a.t]) && Current(s) == s.pcs[a.t].w;
  }

  lemma FreesFirst(s: State, a: Action, id: TaskId)
    requires Inv(s) && Enabled(s, a) && Frees(s, a, id)
    ensures id !in s.q.freed && id in Step(s, a).q.freed
  {
    hide Next, NextLock, NextFlags, Advance, LockInv, ThreadInv, OrderInv, HistoryInv, HeldInv;
  }

  lemma CancelsUnrun(s: State, a: Action, id: TaskId)
    requires Inv(s) && Enabled(s, a) && Cancels(s, a, id)
    ensures id !in s.q.ran && id in Step(s, a).q.cancelled
  {
    hide Next, NextLock, NextFlags, Advance, LockInv, ThreadInv, OrderInv, HeldInv;
  }

  lemma StepGrows(s: State, a: Action)
    requires Inv(s) && Enabled(s, a)
    ensures Grows(s.q, Step(s, a).q)
    ensures forall id: TaskId :: Begins(s, a, id) ==> id !in s.q.ran && id in Step(s, a).q.ran
    ensures forall id: TaskId :: Frees(s, a, id) ==> id !in s.q.freed && id in Step(s, a).q.freed
    ensures forall id: TaskId :: Cancels(s, a, id) ==> id !in s.q.ran && id in Step(s, a).q.cancelled
  {
    hide Inv, Next, NextLock, NextFlags, NextQueue, Advance, Begins, Frees, Cancels;
    if a.Go? && Fault(s, s.pcs[a.t], a.env) == Live { QueueGrows(s, s.pcs[a.t], a.env); }
    forall id: TaskId | Begins(s, a, id) ensures id !in s.q.ran && id in Step(s, a).q.ran { BeginsFirst(s, a, id); }
    forall id: TaskId | Frees(s, a, id) ensures id !in s.q.freed && id in Step(s, a).q.freed { FreesFirst(s, a, id); }
    forall id: TaskId | Cancels(s, a, id) ensures id !in s.q.ran && id in Step(s, a).q.cancelled {
      CancelsUnrun(s, a, id);
    }
  }

  lemma {:induction false} RunGrows(ss: seq<State>, acts: seq<Action>, i: nat, j: nat)
    requires Run(ss, acts) && i <= j < |ss|
    ensures Grows(ss[i].q, ss[j].q)
    decreases j
  {
    hide Inv, Enabled, Step;
    if i < j {
      RunGrows(ss, acts, i, j - 1);
      RunInv(ss, acts, j - 1);
      StepGrows(ss[j - 1], acts[j - 1]);
    }
  }

  // ---- conservation ----

  /** Each accepted task is in exactly one place: pending, held by the worker, or freed. */
  lemma EachTaskInOnePlace(ss: seq<State>, acts: seq<Action>, i: nat, id: TaskId)
    requires Run(ss, acts) && i < |ss| && id < ss[i].q.nextId
    ensures id in ss[i].q.list || Held(Current(ss[i])) == Some(id) || id in ss[i].q.freed
    ensures !(id in ss[i].q.list && Held(Current(ss[i])) == Some(id))
    ensures id in ss[i].q.freed ==> id !in ss[i].q.list && Held(Current(ss[i])) != Some(id)
    ensures id in ss[i].q.mem <==> id !in ss[i].q.freed
  {
    RunInv(ss, acts, i);
  }

  lemma RunsAtMostOnce(ss: seq<State>, acts: seq<Action>, i: nat, j: nat, id: TaskId)
    requires Run(ss, acts) && i < |acts| && j < |acts|
    requires Begins(ss[i], acts[i], id) && Begins(ss[j], acts[j], id)
    ensures i == j
  {
    hide Inv, Enabled, Step;
    if i != j {
      var a, b := if i < j then i else j, if i < j then j else i;
      RunInv(ss, acts, a);
      StepGrows(ss[a], acts[a]);
      RunGrows(ss, acts, a + 1, b);
      RunInv(ss, acts, b);
      StepGrows(ss[b], acts[b]);
    }
  }

  lemma FreedAtMostOnce(ss: seq<State>, acts: seq<Action>, i: nat, j: nat, id: TaskId)
    requires Run(ss, acts) && i < |acts| && j < |acts|
    requires Frees(ss[i], acts[i], id) && Frees(ss[j], acts[j], id)
    ensures i == j
  {
    hide Inv, Enabled, Step;
    if i != j {
      var a, b := if i < j then i else j, if i < j then j else i;
      RunInv(ss, acts, a);
      StepGrows(ss[a], acts[a]);
      RunGrows(ss, acts, a + 1, b);
      RunInv(ss, acts, b);
      StepGrows(ss[b], acts[b]);
    }
  }

  lemma HistoryMoves(s: State, pc: Pc, env: Env, id: TaskId)
    requires Fault(s, pc, env) == Live && (id in s.q.list ==> id in s.q.mem)
    ensures var q' := NextQueue(s, pc, env);
      && (id in q'.ran <==> id in s.q.ran || (pc == Worker(TestState(id)) && id in s.q.mem && s.q.mem[id].valid))
      && (id in q'.cancelled <==>
            id in s.q.cancelled || (pc == Client(Cancel(id)) && s.flags.started && id in s.q.list))
  {
    hide InsertAt, InsertPos, Keys;
  }

  lemma FaultlessHistory(s: State, pc: Pc, env: Env, id: TaskId)
    requires Fault(s, pc, env) != Live && (id in s.q.list ==> id in s.q.mem)
    ensures !(pc == Worker(TestState(id)) && id in s.q.mem)
    ensures !(pc == Client(Cancel(id)) && id in s.q.list)
  {}

  lemma StepHistory(s: State, a: Action, id: TaskId)
    requires Inv(s) && Enabled(s, a)
    ensures id in Step(s, a).q.ran <==> id in s.q.ran || Begins(s, a, id)
    ensures id in Step(s, a).q.cancelled <==> id in s.q.cancelled || Cancels(s, a, id)
  {
    ListedIsAllocated(s);
    hide Inv, Next, NextLock, NextFlags, NextQueue, Advance, Fault;
    if a.Go? {
      var pc := s.pcs[a.t];
      if Fault(s, pc, a.env) == Live { HistoryMoves(s, pc, a.env, id); } else { FaultlessHistory(s, pc, a.env, id); }
    }
  }

  lemma ListedIsAllocated(s: State)
    requires Inv(s)
    ensures forall id: TaskId :: id in s.q.list ==> id in s.q.mem && id < s.q.nextId
    ensures forall id: TaskId :: id in s.q.mem ==> id < s.q.nextId
    ensures Distinct(s.q.list)
  {}

  lemma StepDisposal(s: State, a: Action, id: TaskId)
    requires Enabled(s, a)
    ensures id in Step(s, a).q.freed <==> id in s.q.freed || Frees(s, a, id)
    ensures id in Step(s, a).q.cleared <==> id in s.q.cleared || Clears(s, a, id)
  {
    hide Next, NextLock, NextFlags, Advance, InsertAt, InsertPos, Keys;
  }

  /** The history of a state is what the steps before it did. */
  lemma {:induction false} HistoryIsWhatHappened(ss: seq<State>, acts: seq<Action>, i: nat, id: TaskId)
    requires Run(ss, acts) && i < |ss|
    ensures id in ss[i].q.ran <==> exists k: nat :: k < i && Begins(ss[k], acts[k], id)
    ensures id in ss[i].q.freed <==> exists k: nat :: k < i && Frees(ss[k], acts[k], id)
    ensures id in ss[i].q.cancelled <==> exists k: nat :: k < i && Cancels(ss[k], acts[k], id)
    ensures id in ss[i].q.cleared <==> exists k: nat :: k < i && Clears(ss[k], acts[k], id)
  {
    hide Inv, Enabled, Step, Begins, Frees, Cancels, Clears;
    if i > 0 {
      HistoryIsWhatHappened(ss, acts, i - 1, id);
      RunInv(ss, acts, i - 1);
      StepHistory(ss[i - 1], acts[i - 1], id);
      StepDisposal(ss[i - 1], acts[i - 1], id);
    }
  }

  /** Of an accepted task that is freed at last: it had run, or it had been cancelled, or a clear
      dropped it; and it had run exactly when neither of the others happened. */
  lemma FateOfFreedTask(ss: seq<State>, acts: seq<Action>, i: nat, id: TaskId)
    requires Run(ss, acts) && i < |acts| && Frees(ss[i], acts[i], id)
    ensures (exists k: nat :: k < i && Begins(ss[k], acts[k], id))
       <==> !Clears(ss[i], acts[i], id) && !exists k: nat :: k < i && Cancels(ss[k], acts[k], id)
  {
    hide Begins, Cancels, Enabled, Step, OrderInv, Distinct;
    HistoryIsWhatHappened(ss, acts, i, id);
    RunInv(ss, acts, i);
    if IsActive(ss[i].pcs[acts[i].t]) {
      assert Current(ss[i]) == ss[i].pcs[acts[i].t].w;
    }
  }

  // ---- cancellation ----

  /** A task whose cancel returns AWE_OK is not run at any moment of the run. */
  lemma CancelledNeverRuns(ss: seq<State>, acts: seq<Action>, i: nat, j: nat, id: TaskId)
    requires Run(ss, acts) && i < |acts| && j < |acts|
    requires Cancels(ss[i], acts[i], id)
    ensures !Begins(ss[j], acts[j], id)
  {
    hide Enabled, Step;
    if Begins(ss[j], acts[j], id) {
      RunInv(ss, acts, i);
      RunInv(ss, acts, j);
      RunInv(ss, acts, j + 1);
      RunInv(ss, acts, i + 1);
      StepGrows(ss[i], acts[i]);
      StepGrows(ss[j], acts[j]);
      if j < i { RunGrows(ss, acts, j + 1, i); } else { RunGrows(ss, acts, i + 1, j + 1); }
      assert false;
    }
  }

  /** Once a task is off the list nothing changes its record until it is freed, so the worker's
      unlocked read of the state sees what the pop saw. */
  lemma {:induction false} PoppedRecordIsStable(ss: seq<State>, acts: seq<Action>, i: nat, j: nat, id: TaskId)
    requires Run(ss, acts) && i <= j < |ss|
    requires id in ss[i].q.mem && id !in ss[i].q.list && id in ss[j].q.mem
    ensures id !in ss[j].q.list && ss[j].q.mem[id] == ss[i].q.mem[id]
    decreases j
  {
    hide Enabled, Step, OrderInv, Distinct, HistoryInv;
    if i < j {
      RunInv(ss, acts, j - 1);
      RunInv(ss, acts, j);
      RunGrows(ss, acts, i, j - 1);
      RunGrows(ss, acts, j - 1, j);
      RunInv(ss, acts, i);
      assert id !in ss[j].q.freed;
      PoppedRecordIsStable(ss, acts, i, j - 1, id);
      RecordStep(ss[j - 1], acts[j - 1], id);
    }
  }

  /** What the list operations do to one task's record and place. */
  lemma RecordMoves(s: State, pc: Pc, env: Env, id: TaskId)
    requires id in s.q.mem && id < s.q.nextId && Fault(s, pc, env) == Live
    ensures var q' := NextQueue(s, pc, env);
            && (id in q'.mem ==> q'.mem[id].deadline == s.q.mem[id].deadline)
            && (id in q'.mem && q'.mem[id] != s.q.mem[id] ==>
                  pc == Client(Cancel(id)) && s.flags.started && id in s.q.list)
            && (id in q'.list ==> id in s.q.list)
            && (id in s.q.list && id !in q'.list ==>
                  (pc == Worker(PickFirst) && FirstIsDue(s.q, env.now) && s.q.list[0] == id)
                  || (pc.Control? && pc.k.ClearAll?))
  {
    hide InsertAt, InsertPos, Keys;
    if pc.Client? && pc.c.Post? {
      InsertAtElements(s.q.list, InsertPos(Keys(s.q), env.now + pc.c.delay), s.q.nextId);
    }
  }

  /** A step changes a task's record only by cancelling it on the list, and only posts put tasks on the list. */
  lemma RecordStep(s: State, a: Action, id: TaskId)
    requires Inv(s) && Enabled(s, a) && id in s.q.mem
    ensures var q' := Step(s, a).q;
            && (id in q'.mem ==> q'.mem[id].deadline == s.q.mem[id].deadline)
            && (id in q'.mem && !Cancels(s, a, id) ==> q'.mem[id] == s.q.mem[id])
            && (id in q'.list ==> id in s.q.list)
            && (id in s.q.list && id !in q'.list ==> Pops(s, a, id) || Clears(s, a, id))
  {
    ListedIsAllocated(s);
    hide Inv, Next, NextLock, NextFlags, NextQueue, Advance;
    if a.Go? && Fault(s, s.pcs[a.t], a.env) == Live { RecordMoves(s, s.pcs[a.t], a.env, id); }
  }

  // ---- order ----

  /** A popped task is due at the clock reading of its pop, and it is the least pending task by
      (deadline, posting order). */
  lemma PopIsDueAndLeast(ss: seq<State>, acts: seq<Action>, i: nat, id: TaskId, other: TaskId)
    requires Run(ss, acts) && i < |acts| && Pops(ss[i], acts[i], id)
    ensures id in ss[i].q.mem && ss[i].q.mem[id].deadline <= acts[i].env.now
    ensures other in ss[i].q.list && other != id ==> Before(ss[i].q, id, other)
  {
    RunInv(ss, acts, i);
  }

  /** A task that is off the list does not come back. */
  lemma {:induction false} GoneStaysGone(ss: seq<State>, acts: seq<Action>, i: nat, j: nat, id: TaskId)
    requires Run(ss, acts) && i <= j < |ss| && id < ss[i].q.nextId && id in ss[j].q.list
    ensures id in ss[i].q.list && Deadline(ss[j].q, id) == Deadline(ss[i].q, id)
    decreases j
  {
    hide Enabled, Step, OrderInv, Distinct, HistoryInv;
    if i < j {
      RunInv(ss, acts, j - 1);
      RunInv(ss, acts, j);
      RunGrows(ss, acts, i, j - 1);
      if id !in ss[j - 1].q.list {
        NoReturn(ss[j - 1], acts[j - 1], id);
      }
      RecordStep(ss[j - 1], acts[j - 1], id);
      GoneStaysGone(ss, acts, i, j - 1, id);
    }
  }

  lemma NoReturn(s: State, a: Action, id: TaskId)
    requires Inv(s) && Enabled(s, a) && id < s.q.nextId && id !in s.q.list
    ensures id !in Step(s, a).q.list
  {
    hide Inv, Next, NextLock, NextFlags, Advance, InsertAt, InsertPos, Keys;
    if a.Go? && s.pcs[a.t].Client? && s.pcs[a.t].c.Post? {
      InsertAtElements(s.q.list, InsertPos(Keys(s.q), a.env.now + s.pcs[a.t].c.delay), s.q.nextId);
    }
  }

  lemma LeastPending(q: Queue, id: TaskId)
    requires OrderInv(q) && id in q.list && id != q.list[0]
    ensures Before(q, q.list[0], id)
  {
    var x :| 0 <= x < |q.list| && q.list[x] == id;
    assert Before(q, q.list[0], q.list[x]);
  }

  /** Two tasks that were pending together are popped in the order of (deadline, posting order),
      whatever the clock does in between. */
  lemma PopsFollowOrder(ss: seq<State>, acts: seq<Action>, k: nat, i: nat, j: nat, a: TaskId, b: TaskId)
    requires Run(ss, acts) && k <= i < |acts| && k <= j < |acts|
    requires a in ss[k].q.list && b in ss[k].q.list && Before(ss[k].q, a, b)
    requires Pops(ss[i], acts[i], a) && Pops(ss[j], acts[j], b)
    ensures i < j
  {
    hide Enabled, Step, Distinct, HistoryInv, LockInv, ThreadInv;
    RunInv(ss, acts, k);
    RunInv(ss, acts, j);
    RunInv(ss, acts, i);
    if j < i {
      RunGrows(ss, acts, k, j);
      GoneStaysGone(ss, acts, j, i, a);
      GoneStaysGone(ss, acts, k, j, a);
      GoneStaysGone(ss, acts, k, j, b);
      LeastPending(ss[j].q, a);
    }
  }

  // ---- what a post promises ----

  predicate Posting(s: State, a: Action) { a.Go? && a.t in s.pcs && s.pcs[a.t].Client? && s.pcs[a.t].c.Post? }

  /** Task q.nextId is new on the list, with this record; all else is as it was. */
  ghost predicate AddsTask(q: Queue, q': Queue, rec: TaskRec) {
    && q.nextId in q'.list && q.nextId !in q.list && q'.nextId == q.nextId + 1
    && q'.mem == q.mem[q.nextId := rec]
    && (forall x :: x in q.list ==> x in q'.list)
    && q'.ran == q.ran && q'.freed == q.freed && q'.cancelled == q.cancelled
  }

  lemma PostQueue(s: State, delay: int, env: Env)
    requires forall id :: id in s.q.list ==> id < s.q.nextId
    ensures var q' := NextQueue(s, Client(Post(delay)), env);
      if s.flags.started then AddsTask(s.q, q', TaskRec(env.now + delay, true)) else q' == s.q
  {
    hide InsertPos, InsertAt, Keys;
    InsertAtElements(s.q.list, InsertPos(Keys(s.q), env.now + delay), s.q.nextId);
  }

  lemma PostStep(s: State, a: Action)
    requires Inv(s) && Enabled(s, a) && Posting(s, a)
    ensures var q' := Step(s, a).q;
      if s.flags.started then AddsTask(s.q, q', TaskRec(a.env.now + s.pcs[a.t].c.delay, true)) else q' == s.q
  {
    ListedIsAllocated(s);
    PostQueue(s, s.pcs[a.t].c.delay, a.env);
    hide Inv, AddsTask, NextQueue, Advance, Next, NextLock, NextFlags;
  }

  /** A post to a started looper lists a new valid task whose deadline is the clock of the post plus the
      delay, and leaves all others; a post to a stopped looper does nothing. */
  lemma PostLists(ss: seq<State>, acts: seq<Action>, i: nat)
    requires Run(ss, acts) && i < |acts| && Posting(ss[i], acts[i])
    ensures var delay := ss[i].pcs[acts[i].t].c.delay;
      if ss[i].flags.started then AddsTask(ss[i].q, ss[i + 1].q, TaskRec(acts[i].env.now + delay, true))
      else ss[i + 1].q == ss[i].q
  {
    hide Inv, Step, Enabled, AddsTask;
    RunInv(ss, acts, i);
    PostStep(ss[i], acts[i]);
  }

  /** The step that posted task id. */
  predicate PostsTask(s: State, a: Action, id: TaskId) {
    Posting(s, a) && s.flags.started && s.q.nextId == id
  }

  /** Only posts hand out ids and allocate records. */
  lemma NewRecords(s: State, a: Action, id: TaskId)
    requires Inv(s) && Enabled(s, a)
    ensures id < Step(s, a).q.nextId <==> id < s.q.nextId || PostsTask(s, a, id)
    ensures id in Step(s, a).q.mem && !PostsTask(s, a, id) ==> id in s.q.mem
    ensures PostsTask(s, a, id) ==>
      Step(s, a).q.mem[id := TaskRec(a.env.now + s.pcs[a.t].c.delay, true)] == Step(s, a).q.mem
  {
    hide Inv, InsertAt, InsertPos, Keys, Advance, Next, NextLock, NextFlags;
  }

  /** Every accepted task was posted by one step of the run, and as long as its record lives it has the
      deadline of that step. */
  lemma {:induction false} EachTaskWasPosted(ss: seq<State>, acts: seq<Action>, j: nat, id: TaskId) returns (i: nat)
    requires Run(ss, acts) && j < |ss| && id < ss[j].q.nextId
    ensures i < j && PostsTask(ss[i], acts[i], id)
    ensures id in ss[j].q.mem ==> ss[j].q.mem[id].deadline == acts[i].env.now + ss[i].pcs[acts[i].t].c.delay
    decreases j
  {
    hide Inv, Enabled, Step, PostsTask;
    if j > 0 {
      var s, a := ss[j - 1], acts[j - 1];
      RunInv(ss, acts, j - 1);
      NewRecords(s, a, id);
      if id < s.q.nextId {
        i := EachTaskWasPosted(ss, acts, j - 1, id);
        FreshIsNew(s, a, id);
        if id in ss[j].q.mem { RecordStep(s, a, id); }
      } else {
        i := j - 1;
        assert id in ss[j].q.mem;
      }
    } else {
      assert false;
    }
  }

  lemma FreshIsNew(s: State, a: Action, id: TaskId)
    requires id < s.q.nextId
    ensures !PostsTask(s, a, id)
  {}

  /** No task is taken before its delay, counted from its post, has passed. */
  lemma PoppedAfterItsDelay(ss: seq<State>, acts: seq<Action>, j: nat, id: TaskId) returns (i: nat)
    requires Run(ss, acts) && j < |acts| && Pops(ss[j], acts[j], id)
    ensures i < j && PostsTask(ss[i], acts[i], id)
    ensures acts[i].env.now + ss[i].pcs[acts[i].t].c.delay <= acts[j].env.now
  {
    hide Inv, PostsTask, Enabled, Step;
    RunInv(ss, acts, j);
    ListedIsAllocated(ss[j]);
    PopIsDueAndLeast(ss, acts, j, id, id);
    i := EachTaskWasPosted(ss, acts, j, id);
  }

  /** A worker that looks at its list takes the first task exactly if that is due, and goes on to it;
      then it calls the proc exactly if the task is still valid. */
  lemma DueTaskIsTaken(ss: seq<State>, acts: seq<Action>, i: nat)
    requires Run(ss, acts) && i < |acts| && acts[i].Go? && acts[i].t in ss[i].pcs && ss[i].pcs[acts[i].t].Worker?
    ensures var t, q := acts[i].t, ss[i].q;
      ss[i].pcs[t].w == PickFirst && q.list != [] ==>
        && q.list[0] in q.mem && t in ss[i + 1].pcs
        && if q.mem[q.list[0]].deadline <= acts[i].env.now
           then ss[i + 1].pcs[t] == Worker(TestState(q.list[0])) && ss[i + 1].q.list == q.list[1..]
           else ss[i + 1].pcs[t] == Worker(TimedWait) && ss[i + 1].q.list == q.list
    ensures var t, q := acts[i].t, ss[i].q;
      ss[i].pcs[t].w.TestState? ==>
        var id := ss[i].pcs[t].w.task;
        && id in q.mem && t in ss[i + 1].pcs
        && (if q.mem[id].valid then ss[i + 1].pcs[t] == Worker(InProc(id)) && ss[i + 1].q.ran == q.ran + [id]
            else ss[i + 1].pcs[t] == Worker(FreeTask(id)) && ss[i + 1].q.ran == q.ran)
  {
    var s, a := ss[i], acts[i];
    assert Enabled(s, a) && ss[i + 1] == Step(s, a);
    RunInv(ss, acts, i);
    ListedIsAllocated(s);
    HeldIsAllocated(s, a.t);
    hide Run, Inv, NextLock, NextFlags;
  }

  lemma HeldIsAllocated(s: State, t: Tid)
    requires Inv(s) && t in s.pcs && s.pcs[t].Worker?
    ensures s.pcs[t].w.TestState? ==> s.pcs[t].w.task in s.q.mem
  {
    if IsActive(s.pcs[t]) { assert Current(s) == s.pcs[t].w; }
  }
}
