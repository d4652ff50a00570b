/** Start, stop, clear and destroy: what they guarantee, and on what condition. */
module LooperControl {

  import opened Common
  import opened TimedOrder
  import opened Looper
  import opened LooperInv
  import opened LooperRuns

  // ---- the list the worker found non-empty is still non-empty when it re-locks ----

  /** The worker has found the list non-empty and has not yet looked at its first task. */
  predicate Found(w: WorkerPc, started: bool) { w.WantPick? || (w.CheckStarted? && started) }

  predicate Clearing(s: State, a: Action) { a.Go? && a.t in s.pcs && s.pcs[a.t].Control? && s.pcs[a.t].k.ClearAll? }

  /** awe_looper_clear does not empty the list behind the worker's back. */
  predicate SafeClear(s: State, a: Action) {
    Clearing(s, a) ==> !Found(Current(s), s.flags.started)
  }

  ghost predicate FoundInv(w: WorkerPc, started: bool, q: Queue) {
    Found(w, started) || w.PickFirst? ==> q.list != []
  }

  /** Clients and control threads empty the list only by a clear. */
  lemma ListMoves(s: State, pc: Pc, env: Env)
    requires !pc.Worker?
    ensures NextQueue(s, pc, env).list == [] ==> s.q.list == [] || (pc.Control? && pc.k.ClearAll?)
    ensures NextFlags(s.flags, pc, env).started ==> s.flags.started || pc == Control(StartSetStarted)
  {
    hide InsertPos, Keys;
  }

  lemma FoundByWorker(s: State, w: WorkerPc, env: Env)
    requires w.Active() && w != ClearTid && FoundInv(w, s.flags.started, s.q) && Fault(s, Worker(w), env) == Live
    ensures FoundInv(WorkerNext(s, w, env), NextFlags(s.flags, Worker(w), env).started, NextQueue(s, Worker(w), env))
  {}

  lemma ThreadsAreSound(s: State)
    requires Inv(s)
    ensures ThreadInv(s.pcs, s.flags) && LockInv(s.pcs, s.lock)
  {}

  /** Beside a control thread that holds the mutex the worker is not picking, and beside a starter it
      is new. */
  lemma BesideControl(s: State, t: Tid)
    requires Inv(s) && t in s.pcs && s.pcs[t].Control? && s.pcs[t].Holding()
    ensures Current(s) != PickFirst
    ensures InStartWindow(s.pcs[t]) ==> Current(s).Newborn()
  {
    hide QueueInv;
  }

  lemma LeftoverMoves(s: State, w: WorkerPc, env: Env)
    requires !w.Active()
    ensures NextQueue(s, Worker(w), env) == s.q && NextFlags(s.flags, Worker(w), env).started == s.flags.started
  {}

  lemma FoundStep(s: State, a: Action)
    requires Inv(s) && Enabled(s, a) && SafeClear(s, a) && Step(s, a).status == Live
    requires FoundInv(Current(s), s.flags.started, s.q)
    ensures FoundInv(Current(Step(s, a)), Step(s, a).flags.started, Step(s, a).q)
  {
    if a.Go? {
      hide Next, NextLock, NextFlags, NextQueue, WorkerNext, Advance, Inv;
      var pc := s.pcs[a.t];
      assert ThreadInv(s.pcs, s.flags) by { ThreadsAreSound(s); }
      hide ThreadInv;
      CurrentStep(s, a.t, a.env);
      if IsActive(pc) {
        if pc.w != ClearTid { FoundByWorker(s, pc.w, a.env); }
      } else if !pc.Worker? {
        ListMoves(s, pc, a.env);
        if pc.Control? && pc.Holding() { BesideControl(s, a.t); }
      } else {
        LeftoverMoves(s, pc.w, a.env);
      }
    }
  }

  /** Of all the reads of task records, only the worker's read of the first task can fail, and it
      fails exactly on an empty list. */
  lemma CrashMeansEmptyList(s: State, t: Tid, env: Env)
    requires Inv(s) && t in s.pcs
    ensures Fault(s, s.pcs[t], env) == Crashed <==> s.pcs[t] == Worker(PickFirst) && s.q.list == []
  {
    if IsActive(s.pcs[t]) {
      assert Current(s) == s.pcs[t].w;
    }
  }

  lemma {:induction false} FoundInRun(ss: seq<State>, acts: seq<Action>, i: nat)
    requires Run(ss, acts) && i < |ss| && forall k :: 0 <= k < i ==> SafeClear(ss[k], acts[k])
    ensures ss[i].status != Crashed
    ensures ss[i].status == Live ==> FoundInv(Current(ss[i]), ss[i].flags.started, ss[i].q)
  {
    if i > 0 {
      FoundInRun(ss, acts, i - 1);
      RunInv(ss, acts, i - 1);
      var s, a := ss[i - 1], acts[i - 1];
      NoCrashStep(s, a);
      if Step(s, a).status == Live {
        FoundStep(s, a);
      }
    }
  }

  lemma NoCrashStep(s: State, a: Action)
    requires Inv(s) && Enabled(s, a) && FoundInv(Current(s), s.flags.started, s.q)
    ensures Step(s, a).status != Crashed
  {
    hide Next, NextLock, NextFlags, NextQueue, Advance, QueueInv;
    if a.Go? {
      CrashMeansEmptyList(s, a.t, a.env);
      if IsActive(s.pcs[a.t]) {
        assert Current(s) == s.pcs[a.t].w;
      }
    }
  }

  // ---- one control operation at a time ----

  predicate IsControl(pcs: map<Tid, Pc>, t: Tid) { t in pcs && pcs[t].Control? }

  /** The caller's side of the contract: start, stop, clear and destroy do not overlap each
      other, and the list is cleared only while the looper is not started. */
  ghost predicate Disciplined(s: State, a: Action) {
    && (a.CallStart? || a.CallStop? || a.CallClear? ==> forall t :: !IsControl(s.pcs, t))
    && (a.CallClear? ==> !s.flags.started)
  }

  predicate Creating(k: ControlPc) { k.StartClearExit? || k.StartSetRunning? }

  predicate Stopping(k: ControlPc) { k.StopRelease? || k.StopRequest? || k.StopWait? || k.StopTest? }

  /** The looper is known to have no worker. */
  predicate Quiet(k: ControlPc) { k.StopLeaveEarly? || k.StopDone? || k.ClearWant? || k.ClearAll? || k.ClearLeave? }

  /** c is the one control operation in progress, if there is one. */
  ghost predicate SerialInv(pcs: map<Tid, Pc>, f: Flags, c: Option<Tid>) {
    && (forall t: Tid :: IsControl(pcs, t) <==> c == Some(t))
    && (forall t, u :: t in pcs && u in pcs && pcs[t].Worker? && pcs[u].Worker? ==> t == u)
    && (HasWorker(pcs) ==> f.running || (c.Some? && Creating(pcs[c.value].k)))
    && (HasWorker(pcs) && !f.started ==> c.Some? && (pcs[c.value].k.StartWindow() || Stopping(pcs[c.value].k)))
    && (c.Some? && Quiet(pcs[c.value].k) ==> !HasWorker(pcs) && !f.started)
    && (c.Some? && Stopping(pcs[c.value].k) ==> !f.started)
  }

  ghost predicate Serial(s: State) {
    exists c :: SerialInv(s.pcs, s.flags, c)
  }

  /** What a step of a control operation, or of any other thread, does to the flags and the phase. */
  ghost predicate PhaseMoves(pc: Pc, f: Flags, next: Option<Pc>, f': Flags) {
    && (!pc.Control? ==> f'.started == f.started && (f'.running == f.running || pc == Worker(ClearRunning)))
    && (next.Some? ==> next.value.Control? == pc.Control? && next.value.Worker? == pc.Worker?)
    && (pc == Worker(ClearRunning) ==> next.None?)
    && (pc.Control? ==>
          && (f'.running == f.running || (pc.k.StartSetRunning? && f'.running))
          && (f'.started == f.started || (pc.k.StartSetStarted? && f'.started)
              || (pc.k.Stop? && !f'.started && next.Some? && Stopping(next.value.k)))
          && (pc.k.StartSetStarted? ==> f'.started)
          && (pc.k.StartSetRunning? ==> f'.running)
          && (next.Some? && Quiet(next.value.k) ==>
                Quiet(pc.k) || pc.k.ClearWant? || (pc.k.Stop? && !f.started) || (pc.k.StopTest? && !f.running))
          && (next.Some? && Stopping(next.value.k) ==> Stopping(pc.k) || pc.k.Stop?)
          && (next.Some? && Stopping(next.value.k) ==> !f'.started || (Stopping(pc.k) && f'.started == f.started))
          && (Creating(pc.k) && !(next.Some? && Creating(next.value.k)) ==> pc.k.StartSetRunning?)
          && (pc.k.StartWindow() && !(next.Some? && next.value.k.StartWindow()) ==> pc.k.StartSetStarted?)
          && (Stopping(pc.k) ==> next.Some? && (Stopping(next.value.k) || (Quiet(next.value.k) && !f.running))))
  }

  lemma PhaseStep(s: State, pc: Pc, env: Env)
    requires Fault(s, pc, env) == Live
    ensures PhaseMoves(pc, s.flags, Next(s, pc, env), NextFlags(s.flags, pc, env))
  {}

  lemma SerialKept(pcs: map<Tid, Pc>, lock: Option<Tid>, f: Flags, c: Option<Tid>,
                   t: Tid, next: Option<Pc>, f': Flags, w: Tid)
    requires LockInv(pcs, lock) && ThreadInv(pcs, f) && SerialInv(pcs, f, c) && t in pcs
    requires FlagMoves(pcs[t], f, next, f', w) && PhaseMoves(pcs[t], f, next, f')
    requires (next == Some(Control(StartClearExit)) ==> w !in pcs && !f.started)
    ensures SerialInv(Advance(pcs, t, next, w), f', if pcs[t].Control? && next.None? then None else c)
  {
  }

  lemma SerialStep(s: State, a: Action)
    requires Inv(s) && Serial(s) && Enabled(s, a) && Disciplined(s, a)
    ensures Serial(Step(s, a))
  {
    hide Next, NextLock, NextFlags, NextQueue, Advance, QueueInv;
    var c :| SerialInv(s.pcs, s.flags, c);
    if !a.Go? {
      var c' := if a.CallPost? || a.CallCancel? then c else Some(a.t);
      SerialCall(s, a, c, c');
    } else if Fault(s, s.pcs[a.t], a.env) == Live {
      var pc, next, f' := s.pcs[a.t], Next(s, s.pcs[a.t], a.env), NextFlags(s.flags, s.pcs[a.t], a.env);
      FlagStep(s, pc, a.env);
      PhaseStep(s, pc, a.env);
      StartsOnlyWhenStopped(s, pc, a.env);
      SerialKept(s.pcs, s.lock, s.flags, c, a.t, next, f', a.env.newTid);
      assert SerialInv(Step(s, a).pcs, Step(s, a).flags, if pc.Control? && next.None? then None else c);
    } else {
      assert SerialInv(Step(s, a).pcs, Step(s, a).flags, c);
    }
  }

  lemma SerialCall(s: State, a: Action, c: Option<Tid>, c': Option<Tid>)
    requires SerialInv(s.pcs, s.flags, c) && Enabled(s, a) && Disciplined(s, a) && !a.Go?
    requires c' == if a.CallPost? || a.CallCancel? then c else Some(a.t)
    ensures SerialInv(Step(s, a).pcs, Step(s, a).flags, c')
  {
    assert c.Some? ==> IsControl(s.pcs, c.value);
  }

  lemma StartsOnlyWhenStopped(s: State, pc: Pc, env: Env)
    ensures Next(s, pc, env) == Some(Control(StartClearExit)) ==> pc == Control(Start) && !s.flags.started
  {}

  ghost predicate DisciplinedRun(ss: seq<State>, acts: seq<Action>) {
    Run(ss, acts) && forall i {:trigger acts[i]} | 0 <= i < |acts| :: Disciplined(ss[i], acts[i])
  }

  lemma {:induction false} SerialInRun(ss: seq<State>, acts: seq<Action>, i: nat)
    requires DisciplinedRun(ss, acts) && i < |ss|
    ensures Serial(ss[i])
  {
    hide Inv, Enabled, Step, Disciplined;
    if i == 0 {
      assert SerialInv(INIT.pcs, INIT.flags, None);
    } else {
      SerialInRun(ss, acts, i - 1);
      RunInv(ss, acts, i - 1);
      SerialStep(ss[i - 1], acts[i - 1]);
    }
  }

  /** awe_looper_stop is about to return to its caller (or to go on to the clear of a destroy). */
  predicate StopReturns(s: State, a: Action) {
    a.Go? && IsControl(s.pcs, a.t) && (s.pcs[a.t].k.StopDone? || s.pcs[a.t].k.StopLeaveEarly?)
  }

  /** pthread_create succeeds. */
  predicate Creates(s: State, a: Action) {
    && a.Go? && a.t in s.pcs && s.pcs[a.t] == Control(Start)
    && !s.flags.started && s.flags.tid == None && !a.env.createFails
  }

  /** In every run the running flag is only ever up while a worker thread exists, and when the
      control operations do not overlap it is up exactly then, except while a starter has created the
      worker and not yet raised the flag. */
  lemma RunningFlagIsExact(ss: seq<State>, acts: seq<Action>, i: nat)
    requires Run(ss, acts) && i < |ss|
    ensures ss[i].flags.running ==> HasWorker(ss[i].pcs)
    ensures DisciplinedRun(ss, acts) && HasWorker(ss[i].pcs) && !ss[i].flags.running ==>
              exists t :: IsControl(ss[i].pcs, t) && Creating(ss[i].pcs[t].k)
  {
    hide Enabled, Step, Disciplined, QueueInv, LockInv;
    RunInv(ss, acts, i);
    if DisciplinedRun(ss, acts) {
      SerialInRun(ss, acts, i);
      var c :| SerialInv(ss[i].pcs, ss[i].flags, c);
      assert c.Some? ==> IsControl(ss[i].pcs, c.value);
    }
  }

  /** When awe_looper_stop returns, no worker thread is left, so its process function has returned. */
  lemma StopLeavesNoWorker(ss: seq<State>, acts: seq<Action>, i: nat)
    requires DisciplinedRun(ss, acts) && i < |acts| && StopReturns(ss[i], acts[i])
    ensures !HasWorker(ss[i + 1].pcs) && !ss[i + 1].flags.running && !ss[i + 1].flags.started
  {
    hide QueueInv, NextQueue, LockInv;
    RunInv(ss, acts, i);
    SerialInRun(ss, acts, i);
    assert Enabled(ss[i], acts[i]) && ss[i + 1] == Step(ss[i], acts[i]);
  }

  lemma NoWorkerStep(s: State, a: Action, id: TaskId)
    requires Inv(s) && Enabled(s, a) && !HasWorker(s.pcs) && !Creates(s, a)
    ensures !HasWorker(Step(s, a).pcs) && !Begins(s, a, id)
  {
    hide NextQueue, NextLock, QueueInv, LockInv, ThreadInv;
    assert a.t in s.pcs ==> !s.pcs[a.t].Worker?;
  }

  /** After a stop returns no proc begins before the next successful start. */
  lemma {:induction false} NoProcAfterStop(ss: seq<State>, acts: seq<Action>, i: nat, j: nat, id: TaskId)
    requires DisciplinedRun(ss, acts) && i < j < |acts| && StopReturns(ss[i], acts[i])
    requires forall k :: i < k <= j ==> !Creates(ss[k], acts[k])
    ensures !HasWorker(ss[j].pcs) && !Begins(ss[j], acts[j], id)
    decreases j
  {
    hide Enabled, Step, Disciplined, Inv, StopReturns, Creates, Begins;
    if j == i + 1 {
      StopLeavesNoWorker(ss, acts, i);
    } else {
      NoProcAfterStop(ss, acts, i, j - 1, id);
      RunInv(ss, acts, j - 1);
      NoWorkerStep(ss[j - 1], acts[j - 1], id);
    }
    RunInv(ss, acts, j);
    NoWorkerStep(ss[j], acts[j], id);
  }

  lemma DisciplinedStepIsSafe(s: State, a: Action)
    requires Inv(s) && Serial(s) && Enabled(s, a)
    ensures SafeClear(s, a)
    ensures Step(s, a).status == Aborted ==> a.env.createFails
  {
    hide NextQueue, NextLock, QueueInv, LockInv, Next, NextFlags, Advance;
    if a.Go? && IsControl(s.pcs, a.t) {
      var c :| SerialInv(s.pcs, s.flags, c);
      if s.flags.tid.Some? {
        assert HasWorker(s.pcs);
      }
    }
  }

  /** With disciplined control no step reads a record that is not there, and only a failing
      pthread_create stops the process. */
  lemma DisciplinedRunIsSafe(ss: seq<State>, acts: seq<Action>, i: nat)
    requires DisciplinedRun(ss, acts) && i < |ss|
    ensures ss[i].status != Crashed
    ensures ss[i].status == Aborted ==> i > 0 && acts[i - 1].Go? && acts[i - 1].env.createFails
  {
    hide Inv, Enabled, Step, Disciplined, SafeClear;
    forall k | 0 <= k < |acts| ensures SafeClear(ss[k], acts[k]) {
      RunInv(ss, acts, k);
      SerialInRun(ss, acts, k);
      DisciplinedStepIsSafe(ss[k], acts[k]);
    }
    FoundInRun(ss, acts, i);
    if i > 0 {
      RunInv(ss, acts, i - 1);
      SerialInRun(ss, acts, i - 1);
      DisciplinedStepIsSafe(ss[i - 1], acts[i - 1]);
      if ss[i].status == Aborted { AbortIsAStep(ss[i - 1], acts[i - 1]); }
    }
  }

  lemma AbortIsAStep(s: State, a: Action)
    requires Enabled(s, a) && Step(s, a).status == Aborted
    ensures a.Go?
  {}

  // ---- destroy ----

  /** A thread that has just cleared the list still holds the mutex, so the list is still empty. */
  ghost predicate ClearedInv(s: State) {
    && (s.status == Live ==> forall t :: IsControl(s.pcs, t) && s.pcs[t].k.ClearLeave? ==> s.q.list == [])
    && (s.status == Destroyed ==> s.q.list == [])
  }

  lemma ClearedStep(s: State, a: Action)
    requires Inv(s) && ClearedInv(s) && Enabled(s, a)
    ensures ClearedInv(Step(s, a))
  {
    hide InsertAt, NextFlags, WorkerNext, QueueInv, ThreadInv;
    if a.Go? && s.pcs[a.t].Client? && s.pcs[a.t].c.Post? {
      assert s.lock == Some(a.t);
    }
  }

  lemma {:induction false} ClearedInRun(ss: seq<State>, acts: seq<Action>, i: nat)
    requires Run(ss, acts) && i < |ss|
    ensures ClearedInv(ss[i])
  {
    hide Inv, Enabled, Step, ClearedInv;
    if i == 0 {
      assert ClearedInv(INIT) by { ClearedAtInit(); }
    } else {
      ClearedInRun(ss, acts, i - 1);
      RunInv(ss, acts, i - 1);
      ClearedStep(ss[i - 1], acts[i - 1]);
    }
  }

  lemma ClearedAtInit()
    ensures ClearedInv(INIT)
  {}

  lemma DestroyStep(s: State, a: Action)
    requires Inv(s) && Serial(s) && Enabled(s, a) && Step(s, a).status == Destroyed
    ensures !HasWorker(Step(s, a).pcs) && Held(Current(Step(s, a))) == None
  {
    hide NextQueue, NextLock, NextFlags, Next, QueueInv, LockInv;
    var c :| SerialInv(s.pcs, s.flags, c);
    assert IsControl(s.pcs, a.t) && Quiet(s.pcs[a.t].k);
    InvStep(s, a);
    LeaveKeepsNoWorker(s, a.t, a.env);
  }

  lemma LeaveKeepsNoWorker(s: State, t: Tid, env: Env)
    requires t in s.pcs && s.pcs[t] == Control(ClearLeave(true)) && !HasWorker(s.pcs)
    ensures !HasWorker(Advance(s.pcs, t, Next(s, s.pcs[t], env), env.newTid))
  {}

  lemma NothingAllocated(q: Queue)
    requires PlaceInv(q, None) && q.list == []
    ensures q.mem == map[] && forall id: TaskId :: id < q.nextId ==> id in q.freed
  {}

  /** After awe_looper_destroy nothing is left: every task ever accepted has been freed, and (by
      FreedAtMostOnce) exactly once. */
  lemma NothingLeftAfterDestroy(ss: seq<State>, acts: seq<Action>, i: nat, id: TaskId)
    requires DisciplinedRun(ss, acts) && 0 < i < |ss| && ss[i].status == Destroyed
    ensures ss[i].q.list == [] && ss[i].q.mem == map[] && !HasWorker(ss[i].pcs)
    ensures id < ss[i].q.nextId ==> exists k: nat :: k < i && Frees(ss[k], acts[k], id)
  {
    hide Step, Enabled, Disciplined, Frees, LockInv, ThreadInv, HasWorker, Current;
    RunInv(ss, acts, i - 1);
    RunInv(ss, acts, i);
    SerialInRun(ss, acts, i - 1);
    ClearedInRun(ss, acts, i);
    HistoryIsWhatHappened(ss, acts, i, id);
    DestroyStep(ss[i - 1], acts[i - 1]);
    NothingAllocated(ss[i].q);
  }

  // ---- what start and destroy end with ----

  ghost predicate StartedOnLeave(s: State) {
    forall t :: IsControl(s.pcs, t) && s.pcs[t].k.StartLeave? ==> s.flags.started
  }

  lemma LeaveMoves(s: State, pc: Pc, env: Env)
    requires Fault(s, pc, env) == Live
    ensures Next(s, pc, env) == Some(Control(StartLeave)) ==> NextFlags(s.flags, pc, env).started
    ensures NextFlags(s.flags, pc, env).started != s.flags.started ==> pc.Holding()
    ensures pc.Control? && Next(s, pc, env).Some? ==> Next(s, pc, env).value.Control?
    ensures !pc.Control? && Next(s, pc, env).Some? ==> !Next(s, pc, env).value.Control?
  {}

  lemma LeaveStep(s: State, a: Action)
    requires Inv(s) && StartedOnLeave(s) && Enabled(s, a)
    ensures StartedOnLeave(Step(s, a))
  {
    ThreadsAreSound(s);
    hide Inv, ThreadInv, NextQueue, NextLock, Next, NextFlags, Fault;
    if a.Go? && Fault(s, s.pcs[a.t], a.env) == Live {
      LeaveMoves(s, s.pcs[a.t], a.env);
      forall t | IsControl(Step(s, a).pcs, t) && Step(s, a).pcs[t].k.StartLeave?
        ensures Step(s, a).flags.started
      {
        if t != a.t { assert IsControl(s.pcs, t) && s.lock == Some(t); }
      }
    } else {
      forall t | IsControl(Step(s, a).pcs, t) && Step(s, a).pcs[t].k.StartLeave?
        ensures Step(s, a).flags.started
      {
        assert IsControl(s.pcs, t);
      }
    }
  }

  /** When awe_looper_start is about to return, the looper is started. */
  lemma {:induction false} StartReturnsStarted(ss: seq<State>, acts: seq<Action>, i: nat)
    requires Run(ss, acts) && i < |ss|
    ensures StartedOnLeave(ss[i])
  {
    if i > 0 {
      hide Inv, Enabled, Step, StartedOnLeave;
      StartReturnsStarted(ss, acts, i - 1);
      RunInv(ss, acts, i - 1);
      LeaveStep(ss[i - 1], acts[i - 1]);
    }
  }

  /** Inside awe_looper_destroy. */
  predicate Destroying(k: ControlPc) {
    match k
    case StopWant(d) => d
    case Stop(d) => d
    case StopLeaveEarly(d) => d
    case StopRelease(d) => d
    case StopRequest(d) => d
    case StopWait(d) => d
    case StopTest(d) => d
    case StopDone(d) => d
    case ClearWant(d) => d
    case ClearAll(d) => d
    case ClearLeave(d) => d
    case _ => false
  }

  /** A destroy goes on until the looper is destroyed, and only a destroy destroys it. */
  lemma DestroyGoesThrough(s: State, t: Tid, env: Env)
    requires Enabled(s, Go(t, env)) && s.pcs[t].Control? && Fault(s, s.pcs[t], env) == Live
    ensures var s' := Step(s, Go(t, env));
      if Destroying(s.pcs[t].k)
      then s'.status == Destroyed || (IsControl(s'.pcs, t) && Destroying(s'.pcs[t].k))
      else s'.status != Destroyed && (IsControl(s'.pcs, t) ==> !Destroying(s'.pcs[t].k))
  {
    hide NextQueue, NextLock, NextFlags;
  }
}
