/** When awe_thread_start loses its worker (src/unix/thread.c:112-122), in runs whose starts and stops do
    not overlap: the new thread may read _exit_pending before the starter has cleared it. */
module LooperStarts {

  import opened Common
  import opened Looper
  import opened LooperInv
  import opened LooperRuns
  import opened LooperControl
  import opened LooperOverlaps

  /** On its way out of the process function, or past it. */
  predicate Leaving(w: WorkerPc) { w.WantClose? || w.Closing? || w.ClearTid? || w.SetExit? || w.ClearRunning? }

  /** A worker is in the loop that serves the tasks. */
  ghost predicate Serving(pcs: map<Tid, Pc>) {
    exists w :: w in pcs && pcs[w].Worker? && !Leaving(pcs[w].w)
  }

  predicate BeforeClear(pcs: map<Tid, Pc>, lock: Option<Tid>) { Holder(pcs, lock) == Some(StartClearExit) }

  /** The worker looks at _exit_pending while its starter is still about to clear it. */
  predicate LooksTooEarly(s: State, a: Action) {
    a.Go? && a.t in s.pcs && s.pcs[a.t] == Worker(CheckExit) && BeforeClear(s.pcs, s.lock)
  }

  /** The worker made by the latest start looked too early. */
  ghost predicate Missed(ss: seq<State>, acts: seq<Action>, i: nat)
    requires |ss| == |acts| + 1 && i < |ss|
  {
    exists k :: 0 <= k < i && LooksTooEarly(ss[k], acts[k]) && forall m :: k < m < i ==> !Creates(ss[m], acts[m])
  }

  /** What a step makes of it. */
  function MissedNext(s: State, a: Action, missed: bool): bool {
    if Creates(s, a) then false else missed || LooksTooEarly(s, a)
  }

  lemma MissedStep(ss: seq<State>, acts: seq<Action>, i: nat)
    requires |ss| == |acts| + 1 && i < |acts|
    ensures Missed(ss, acts, i + 1) <==> MissedNext(ss[i], acts[i], Missed(ss, acts, i))
  {
    hide LooksTooEarly, Creates;
    assert Creates(ss[i], acts[i]) ==> !LooksTooEarly(ss[i], acts[i]) by { NotBoth(ss[i], acts[i]); }
  }

  lemma NotBoth(s: State, a: Action)
    ensures !(Creates(s, a) && LooksTooEarly(s, a))
  {}

  /** A worker is down to its last step. */
  ghost predicate Ending(pcs: map<Tid, Pc>) {
    exists w :: w in pcs && pcs[w] == Worker(ClearRunning)
  }

  /** While the looper is started, or about to be, its worker serves exactly if it did not look too
      early; and _exit_pending is as a new start needs it. */
  predicate StartRel(serving: bool, worker: bool, ending: bool, holder: Option<ControlPc>, f: Flags, missed: bool) {
    && (f.started || Window(holder) ==> (missed <==> !serving))
    && (serving && (f.started || Window(holder)) && holder != Some(StartClearExit) ==> !f.exitPending)
    && (holder == Some(StartClearExit) ==> f.exitPending)
    && (!worker || ending ==> f.exitPending)
  }

  predicate Window(holder: Option<ControlPc>) { holder.Some? && holder.value.StartWindow() }

  ghost predicate StartInv(pcs: map<Tid, Pc>, lock: Option<Tid>, f: Flags, missed: bool) {
    StartRel(Serving(pcs), HasWorker(pcs), Ending(pcs), Holder(pcs, lock), f, missed)
  }

  /** What a step does to _exit_pending, and when it sends a worker out. */
  ghost predicate ExitMoves(pc: Pc, f: Flags, next: Option<Pc>, f': Flags) {
    && f'.exitPending == (if pc == Worker(SetExit) || (pc.Control? && pc.k.StopRequest?) then true
                          else if pc == Control(StartClearExit) then false else f.exitPending)
    && (f'.started == f.started || pc.Control?)
    && (pc.Worker? && next.Some? ==>
          && next.value.Worker?
          && (Leaving(next.value.w) <==>
                Leaving(pc.w) || (pc.w == CheckExit && f.exitPending) || (pc.w == CheckStarted && !f.started)))
    && (pc.Worker? && next.None? ==> pc.w == ClearRunning)
    && (next == Some(Worker(ClearRunning)) ==> pc == Worker(SetExit))
    && (pc == Control(StartClearExit) ==> next == Some(Control(StartSetRunning)))
    && (next.Some? && next.value.Control? && next.value.k.StartWindow() ==>
          pc.Control? && if next.value.k.StartClearExit? then pc == Control(Start) else pc.k.StartWindow())
  }

  lemma ExitStep(s: State, pc: Pc, env: Env)
    requires Fault(s, pc, env) == Live
    ensures ExitMoves(pc, s.flags, Next(s, pc, env), NextFlags(s.flags, pc, env))
  {}

  // ---- who is there after a step ----

  ghost predicate AtMostOne(pcs: map<Tid, Pc>) {
    forall t, u :: t in pcs && u in pcs && pcs[t].Worker? && pcs[u].Worker? ==> t == u
  }

  lemma OnlyWorker(pcs: map<Tid, Pc>, t: Tid)
    requires AtMostOne(pcs) && t in pcs && pcs[t].Worker?
    ensures HasWorker(pcs) && (Serving(pcs) <==> !Leaving(pcs[t].w)) && (Ending(pcs) <==> pcs[t].w.ClearRunning?)
  {}

  lemma WorkerMoves(pcs: map<Tid, Pc>, t: Tid, next: Option<Pc>, w: Tid)
    requires AtMostOne(pcs) && t in pcs && pcs[t].Worker? && (next.Some? ==> next.value.Worker?)
    ensures var pcs' := Advance(pcs, t, next, w);
      && (HasWorker(pcs') <==> next.Some?)
      && (Serving(pcs') <==> next.Some? && !Leaving(next.value.w))
      && (Ending(pcs') <==> next == Some(Worker(ClearRunning)))
  {
    var pcs' := Advance(pcs, t, next, w);
    if next.Some? { OnlyWorker(pcs', t); }
  }

  lemma OthersMove(pcs: map<Tid, Pc>, t: Tid, next: Option<Pc>, w: Tid)
    requires t in pcs && !pcs[t].Worker? && (next.Some? ==> !next.value.Worker?)
    requires next != Some(Control(StartClearExit))
    ensures var pcs' := Advance(pcs, t, next, w);
      (HasWorker(pcs') <==> HasWorker(pcs)) && (Serving(pcs') <==> Serving(pcs)) && (Ending(pcs') <==> Ending(pcs))
  {
    var pcs' := Advance(pcs, t, next, w);
    assert forall x :: x in pcs && pcs[x].Worker? ==> x in pcs' && pcs'[x] == pcs[x];
    assert forall x :: x in pcs' && pcs'[x].Worker? ==> x in pcs && pcs'[x] == pcs[x];
  }

  lemma HolderStays(pcs: map<Tid, Pc>, lock: Option<Tid>, t: Tid, next: Option<Pc>, lock': Option<Tid>, w: Tid)
    requires LockInv(pcs, lock) && t in pcs && LockMoves(pcs[t], lock, t, next, lock')
    requires next != Some(Control(StartClearExit)) && !pcs[t].Control? && (next.Some? ==> !next.value.Control?)
    ensures Holder(Advance(pcs, t, next, w), lock') == Holder(pcs, lock)
  {}

  lemma HolderMoves(pcs: map<Tid, Pc>, lock: Option<Tid>, t: Tid, next: Option<Pc>, lock': Option<Tid>, w: Tid)
    requires LockInv(pcs, lock) && t in pcs && LockMoves(pcs[t], lock, t, next, lock')
    requires next != Some(Control(StartClearExit)) && pcs[t].Control? && (next.Some? ==> next.value.Control?)
    ensures Holder(Advance(pcs, t, next, w), lock')
      == if lock' == Some(t) then (if next.Some? then Some(next.value.k) else None)
         else if lock == Some(t) then None else Holder(pcs, lock)
    ensures pcs[t].Holding() ==> Holder(pcs, lock) == Some(pcs[t].k)
  {}

  // ---- every step ----

  lemma WorkerKeeps(s: State, t: Tid, env: Env, missed: bool)
    requires Inv(s) && Single(s.pcs, s.lock, s.flags) && StartInv(s.pcs, s.lock, s.flags, missed)
    requires Enabled(s, Go(t, env)) && s.pcs[t].Worker? && Fault(s, s.pcs[t], env) == Live
    ensures var s' := Step(s, Go(t, env));
      StartInv(s'.pcs, s'.lock, s'.flags, missed || LooksTooEarly(s, Go(t, env)))
  {
    var pc := s.pcs[t];
    var next, lock', f' := Next(s, pc, env), NextLock(s, t), NextFlags(s.flags, pc, env);
    hide Next, NextLock, NextFlags, NextQueue, Advance, QueueInv, Fault, HasWorker, Serving, Ending, Holder;
    HoldingIsLocked(s, t);
    LockStep(s, t, env);
    ExitStep(s, pc, env);
    OnlyWorker(s.pcs, t);
    WorkerMoves(s.pcs, t, next, env.newTid);
    HolderStays(s.pcs, s.lock, t, next, lock', env.newTid);
    if InWindow(s.pcs, s.lock) { WindowHasNewborn(s, t); }
  }

  lemma WindowHasNewborn(s: State, t: Tid)
    requires LockInv(s.pcs, s.lock) && ThreadInv(s.pcs, s.flags) && Single(s.pcs, s.lock, s.flags)
    requires InWindow(s.pcs, s.lock) && t in s.pcs && s.pcs[t].Worker?
    ensures s.pcs[t].w.Newborn()
  {
    assert InStartWindow(s.pcs[s.lock.value]);
  }

  /** A starter beside whom nobody holds a window: its own is the mutex. */
  lemma OthersKeep(s: State, t: Tid, env: Env, missed: bool)
    requires Inv(s) && ApartInv(s.pcs, s.lock, s.flags) && StartInv(s.pcs, s.lock, s.flags, missed)
    requires Enabled(s, Go(t, env)) && !s.pcs[t].Worker? && Fault(s, s.pcs[t], env) == Live
    requires !Creates(s, Go(t, env))
    ensures var s' := Step(s, Go(t, env)); StartInv(s'.pcs, s'.lock, s'.flags, missed)
  {
    var pc := s.pcs[t];
    var next, lock', f' := Next(s, pc, env), NextLock(s, t), NextFlags(s.flags, pc, env);
    NotCreated(s, t, env);
    hide Next, NextLock, NextFlags, NextQueue, Advance, QueueInv, Fault, HasWorker, Serving, Ending, Holder;
    HoldingIsLocked(s, t);
    LockStep(s, t, env);
    FlagStep(s, pc, env);
    PhaseStep(s, pc, env);
    ExitStep(s, pc, env);
    OthersMove(s.pcs, t, next, env.newTid);
    if pc.Control? {
      HolderMoves(s.pcs, s.lock, t, next, lock', env.newTid);
      ControlKeeps(s, t, next, lock', f', missed, Holder(Advance(s.pcs, t, next, env.newTid), lock'));
    } else {
      HolderStays(s.pcs, s.lock, t, next, lock', env.newTid);
    }
  }

  lemma NotCreated(s: State, t: Tid, env: Env)
    requires Enabled(s, Go(t, env)) && Fault(s, s.pcs[t], env) == Live && !Creates(s, Go(t, env))
    ensures Next(s, s.pcs[t], env) != Some(Control(StartClearExit))
  {}

  /** A control thread changes _exit_pending only as a starter that holds the mutex, or as a stopper,
      and then no starter is about. */
  lemma ControlKeeps(s: State, t: Tid, next: Option<Pc>, lock': Option<Tid>, f': Flags, missed: bool,
                     holder': Option<ControlPc>)
    requires LockInv(s.pcs, s.lock) && ThreadInv(s.pcs, s.flags) && ApartInv(s.pcs, s.lock, s.flags)
    requires StartInv(s.pcs, s.lock, s.flags, missed) && t in s.pcs && s.pcs[t].Control?
    requires s.pcs[t].Wanting() ==> s.lock == None
    requires LockMoves(s.pcs[t], s.lock, t, next, lock') && PhaseMoves(s.pcs[t], s.flags, next, f')
    requires ExitMoves(s.pcs[t], s.flags, next, f') && next != Some(Control(StartClearExit))
    requires s.pcs[t].Holding() ==> Holder(s.pcs, s.lock) == Some(s.pcs[t].k)
    requires holder' == if lock' == Some(t) then (if next.Some? then Some(next.value.k) else None)
                        else if s.lock == Some(t) then None else Holder(s.pcs, s.lock)
    ensures StartRel(Serving(s.pcs), HasWorker(s.pcs), Ending(s.pcs), holder', f', missed)
  {
    hide Single, HasStopping, Serving;
    if s.pcs[t].k.StopRequest? {
      assert IsControl(s.pcs, t) && PastStop(s.pcs[t].k) && IsStop(s.pcs[t].k);
      assert !InWindow(s.pcs, s.lock);
    }
    if s.pcs[t].k.StartClearExit? {
      assert InStartWindow(s.pcs[t]);
      assert HasWorker(s.pcs);
      if Ending(s.pcs) {
        var w: Tid :| w in s.pcs && s.pcs[w] == Worker(ClearRunning);
        WindowHasNewborn(s, w);
      }
    }
  }

  /** A new worker has not looked yet, and finds the flag up. */
  lemma CreateKeeps(s: State, a: Action, missed: bool)
    requires Inv(s) && ApartInv(s.pcs, s.lock, s.flags) && StartInv(s.pcs, s.lock, s.flags, missed)
    requires Enabled(s, a) && Creates(s, a)
    ensures var s' := Step(s, a); StartInv(s'.pcs, s'.lock, s'.flags, false)
  {
    hide QueueInv, NextQueue;
    ApartStartIsSafe(s, a);
    var s', w := Step(s, a), a.env.newTid;
    assert !HasWorker(s.pcs) by { assert s.lock == Some(a.t); }
    assert w in s'.pcs && s'.pcs[w] == Worker(CheckExit);
    assert forall x :: x in s'.pcs && s'.pcs[x].Worker? ==> x == w;
  }

  lemma CallKeeps(s: State, a: Action, missed: bool)
    requires Inv(s) && StartInv(s.pcs, s.lock, s.flags, missed) && Enabled(s, a) && !a.Go?
    ensures var s' := Step(s, a); StartInv(s'.pcs, s'.lock, s'.flags, missed)
  {
    hide QueueInv, ThreadInv;
    var s' := Step(s, a);
    assert s.lock != Some(a.t);
    assert forall x :: x in s.pcs && s.pcs[x].Worker? ==> x in s'.pcs && s'.pcs[x] == s.pcs[x];
    assert forall x :: x in s'.pcs && s'.pcs[x].Worker? ==> x in s.pcs && s'.pcs[x] == s.pcs[x];
  }

  lemma StartStep(s: State, a: Action, missed: bool)
    requires Inv(s) && ApartInv(s.pcs, s.lock, s.flags) && StartInv(s.pcs, s.lock, s.flags, missed) && Enabled(s, a)
    ensures StartInv(Step(s, a).pcs, Step(s, a).lock, Step(s, a).flags, MissedNext(s, a, missed))
  {
    hide Inv, Step, Creates, Fault, StartInv, Enabled;
    NotBoth(s, a);
    if !a.Go? {
      NoCallIs(s, a);
      CallKeeps(s, a, missed);
    } else if Creates(s, a) {
      CreateKeeps(s, a, missed);
    } else {
      GoKeeps(s, a, missed);
    }
  }

  lemma NoCallIs(s: State, a: Action)
    requires !a.Go?
    ensures !Creates(s, a) && !LooksTooEarly(s, a)
  {}

  lemma GoKeeps(s: State, a: Action, missed: bool)
    requires Inv(s) && ApartInv(s.pcs, s.lock, s.flags) && StartInv(s.pcs, s.lock, s.flags, missed) && Enabled(s, a)
    requires a.Go? && !Creates(s, a)
    ensures StartInv(Step(s, a).pcs, Step(s, a).lock, Step(s, a).flags, missed || LooksTooEarly(s, a))
  {
    hide Inv, Creates, StartInv, Next, NextLock, NextFlags, NextQueue, Advance;
    assert a.t in s.pcs;
    if Fault(s, s.pcs[a.t], a.env) != Live {
      assert !LooksTooEarly(s, a);
    } else if s.pcs[a.t].Worker? {
      WorkerKeeps(s, a.t, a.env, missed);
    } else {
      OthersKeep(s, a.t, a.env, missed);
    }
  }

  lemma {:induction false} StartInRun(ss: seq<State>, acts: seq<Action>, i: nat)
    requires ApartRun(ss, acts) && i < |ss|
    ensures StartInv(ss[i].pcs, ss[i].lock, ss[i].flags, Missed(ss, acts, i))
  {
    hide Inv, Enabled, Step, Apart, ApartInv, StartInv, SafeStart, Missed, MissedNext;
    if i > 0 {
      StartInRun(ss, acts, i - 1);
      RunInv(ss, acts, i - 1);
      ApartInRun(ss, acts, i - 1);
      StartStep(ss[i - 1], acts[i - 1], Missed(ss, acts, i - 1));
      MissedStep(ss, acts, i - 1);
    } else {
      StartAtFirst();
      assert !Missed(ss, acts, 0) by { NeverBefore(ss, acts); }
    }
  }

  lemma NeverBefore(ss: seq<State>, acts: seq<Action>)
    requires |ss| == |acts| + 1
    ensures !Missed(ss, acts, 0)
  {}

  lemma StartAtFirst()
    ensures StartInv(INIT.pcs, INIT.lock, INIT.flags, false)
  {}

  /** As long as the looper is started, no worker serves its tasks exactly if the worker of the latest
      start looked at _exit_pending before its starter had cleared it: without a start that overlaps a
      stop there is no other way to lose it. */
  lemma LostExactlyByLookingTooEarly(ss: seq<State>, acts: seq<Action>, i: nat)
    requires ApartRun(ss, acts) && i < |ss| && ss[i].flags.started
    ensures !Serving(ss[i].pcs) <==> Missed(ss, acts, i)
  {
    hide Missed, Run, Serving;
    StartInRun(ss, acts, i);
  }
}
