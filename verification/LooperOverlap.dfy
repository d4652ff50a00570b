/** What overlapping control operations can do, and exactly when: a clear beside the worker, a start
    during a stop, a stop during a stop. */
module LooperOverlaps {

  import opened Common
  import opened Looper
  import opened LooperInv
  import opened LooperRuns
  import opened LooperControl

  // ---- a clear beside the worker ----

  /** From s the steps of acts, none of them a clear, lead to t. */
  ghost predicate LeadsCalmly(s: State, acts: seq<Action>, t: State)
    decreases |acts|
  {
    if acts == [] then s == t
    else Enabled(s, acts[0]) && !Clearing(s, acts[0]) && LeadsCalmly(Step(s, acts[0]), acts[1..], t)
  }

  ghost predicate CrashesCalmly(s: State) {
    exists acts, t :: LeadsCalmly(s, acts, t) && t.status == Crashed
  }

  lemma {:induction false} CalmKeepsFound(s: State, acts: seq<Action>, t: State)
    requires Inv(s) && FoundInv(Current(s), s.flags.started, s.q) && s.status != Crashed && LeadsCalmly(s, acts, t)
    ensures t.status != Crashed
    decreases |acts|
  {
    hide Inv, Enabled, Step, FoundInv;
    if acts != [] {
      var s' := Step(s, acts[0]);
      InvStep(s, acts[0]);
      NoCrashStep(s, acts[0]);
      if s'.status == Live {
        FoundStep(s, acts[0]);
        CalmKeepsFound(s', acts[1..], t);
      } else {
        DeadStays(s', acts[1..], t);
      }
    }
  }

  lemma DeadStays(s: State, acts: seq<Action>, t: State)
    requires s.status != Live && LeadsCalmly(s, acts, t)
    ensures t == s
  {}

  lemma CrashAfter(s: State, a: Action)
    requires Enabled(s, a) && !Clearing(s, a) && CrashesCalmly(Step(s, a))
    ensures CrashesCalmly(s)
  {
    hide Enabled, Step, Clearing;
    var acts, t :| LeadsCalmly(Step(s, a), acts, t) && t.status == Crashed;
    assert ([a] + acts)[0] == a && ([a] + acts)[1..] == acts;
    assert LeadsCalmly(s, [a] + acts, t);
  }

  /** A worker that goes on to pick from an empty list. */
  lemma PickingCrashes(s: State, w: Tid, env: Env)
    requires s.status == Live && w in s.pcs && s.q.list == []
    requires (s.pcs[w] == Worker(WantPick) && s.lock == None) || s.pcs[w] == Worker(PickFirst)
    ensures CrashesCalmly(s)
    decreases if s.pcs[w] == Worker(WantPick) then 1 else 0
  {
    var a := Go(w, env);
    var s' := Step(s, a);
    if s.pcs[w] == Worker(PickFirst) {
      assert LeadsCalmly(s', [], s');
      assert CrashesCalmly(s');
    } else {
      PickingCrashes(s', w, env);
    }
    CrashAfter(s, a);
  }

  lemma ClearedWorkerCrashes(s: State, t: Tid, env: Env)
    requires LockInv(s.pcs, s.lock) && s.status == Live && t in s.pcs && s.pcs[t] == Control(ClearLeave(false))
    requires s.flags.tid.Some? && s.flags.tid.value in s.pcs && s.pcs[s.flags.tid.value].Worker?
    requires Found(Current(s), s.flags.started) && s.q.list == []
    ensures CrashesCalmly(s)
  {
    hide LeadsCalmly, CrashesCalmly;
    var w, a := s.flags.tid.value, Go(t, env);
    var s1 := Step(s, a);
    if s1.pcs[w] == Worker(CheckStarted) {
      PickingCrashes(Step(s1, Go(w, env)), w, env);
      CrashAfter(s1, Go(w, env));
    } else {
      PickingCrashes(s1, w, env);
    }
    CrashAfter(s, a);
  }

  /** awe_looper_clear makes the worker read the first task of an empty list, in some continuation
      without another clear, exactly if the worker is between finding and picking at that moment. */
  lemma ClearCrashesExactly(s: State, t: Tid, env: Env)
    requires Inv(s) && FoundInv(Current(s), s.flags.started, s.q) && Enabled(s, Go(t, env))
    requires s.pcs[t] == Control(ClearAll(false))
    ensures CrashesCalmly(Step(s, Go(t, env))) <==> Found(Current(s), s.flags.started)
  {
    var a := Go(t, env);
    var s' := Step(s, a);
    InvStep(s, a);
    assert s'.flags == s.flags && s'.q.list == [] && Current(s') == Current(s) && s'.status == Live;
    if Found(Current(s), s.flags.started) {
      assert LockInv(s'.pcs, s'.lock);
      ClearedWorkerCrashes(s', t, env);
    } else {
      hide Inv, Step, Enabled, LeadsCalmly, FoundInv;
      FoundStep(s, a);
      forall acts, u | LeadsCalmly(s', acts, u) ensures u.status != Crashed { CalmKeepsFound(s', acts, u); }
    }
  }

  // ---- a start beside an old worker ----

  predicate Starting(s: State, a: Action) {
    a.Go? && a.t in s.pcs && s.pcs[a.t] == Control(Start) && !s.flags.started
  }

  /** A start that finds the looper stopped finds _running down, too. */
  predicate SafeStart(s: State, a: Action) {
    Starting(s, a) ==> !s.flags.running
  }

  /** What the starter or stopper that holds the mutex is doing. */
  function Holder(pcs: map<Tid, Pc>, lock: Option<Tid>): Option<ControlPc> {
    if lock.Some? && lock.value in pcs && pcs[lock.value].Control? then Some(pcs[lock.value].k) else None
  }

  /** There is at most one worker, and _running is up while there is one, but for the starter that has
      created it and not yet raised the flag. */
  ghost predicate Single(pcs: map<Tid, Pc>, lock: Option<Tid>, f: Flags) {
    && (forall t, u :: t in pcs && u in pcs && pcs[t].Worker? && pcs[u].Worker? ==> t == u)
    && (HasWorker(pcs) && !f.running ==> Holder(pcs, lock).Some? && Creating(Holder(pcs, lock).value))
  }

  lemma SingleKept(pcs: map<Tid, Pc>, lock: Option<Tid>, f: Flags, t: Tid, next: Option<Pc>,
                   lock': Option<Tid>, f': Flags, w: Tid)
    requires LockInv(pcs, lock) && ThreadInv(pcs, f) && Single(pcs, lock, f) && t in pcs
    requires LockMoves(pcs[t], lock, t, next, lock') && FlagMoves(pcs[t], f, next, f', w)
    requires PhaseMoves(pcs[t], f, next, f')
    requires next == Some(Control(StartClearExit)) ==> w !in pcs && !f.running
    ensures Single(Advance(pcs, t, next, w), lock', f')
  {
    var pcs' := Advance(pcs, t, next, w);
    if HasWorker(pcs') && !f'.running && next != Some(Control(StartClearExit)) {
      assert HasWorker(pcs);
    }
  }

  lemma SingleStep(s: State, a: Action)
    requires Inv(s) && Single(s.pcs, s.lock, s.flags) && Enabled(s, a) && SafeStart(s, a)
    ensures Single(Step(s, a).pcs, Step(s, a).lock, Step(s, a).flags)
  {
    if a.Go? && Fault(s, s.pcs[a.t], a.env) == Live {
      hide Next, NextLock, NextFlags, NextQueue, Advance, QueueInv, Fault, LockInv, ThreadInv;
      var pc := s.pcs[a.t];
      assert LockInv(s.pcs, s.lock) && ThreadInv(s.pcs, s.flags);
      HoldingIsLocked(s, a.t);
      LockStep(s, a.t, a.env);
      FlagStep(s, pc, a.env);
      PhaseStep(s, pc, a.env);
      StartsOnlyWhenStopped(s, pc, a.env);
      SingleKept(s.pcs, s.lock, s.flags, a.t, Next(s, pc, a.env), NextLock(s, a.t),
                 NextFlags(s.flags, pc, a.env), a.env.newTid);
    } else if !a.Go? {
      assert HasWorker(Step(s, a).pcs) ==> HasWorker(s.pcs);
    }
  }

  lemma HoldingIsLocked(s: State, t: Tid)
    requires LockInv(s.pcs, s.lock) && t in s.pcs
    ensures s.pcs[t].Holding() <==> s.lock == Some(t)
  {}

  /** In every run whose starts are safe, however stops, clears and starts overlap otherwise. */
  lemma {:induction false} SafeStartsKeepOneWorker(ss: seq<State>, acts: seq<Action>, i: nat)
    requires Run(ss, acts) && i < |ss| && forall k :: 0 <= k < i ==> SafeStart(ss[k], acts[k])
    ensures Single(ss[i].pcs, ss[i].lock, ss[i].flags)
  {
    hide Inv, Enabled, Step, SafeStart, Single;
    if i > 0 {
      SafeStartsKeepOneWorker(ss, acts, i - 1);
      RunInv(ss, acts, i - 1);
      SingleStep(ss[i - 1], acts[i - 1]);
    } else {
      NoneAtFirst();
    }
  }

  lemma NoneAtFirst()
    ensures Single(INIT.pcs, INIT.lock, INIT.flags)
  {}

  /** ... a stop that returns leaves a worker behind exactly if _running is still up. */
  lemma StopLeavesWorkerExactly(ss: seq<State>, acts: seq<Action>, i: nat)
    requires Run(ss, acts) && i < |acts| && forall k :: 0 <= k < i ==> SafeStart(ss[k], acts[k])
    requires StopReturns(ss[i], acts[i])
    ensures HasWorker(ss[i + 1].pcs) <==> ss[i].flags.running
  {
    RunInv(ss, acts, i);
    SafeStartsKeepOneWorker(ss, acts, i);
    assert Enabled(ss[i], acts[i]) && ss[i + 1] == Step(ss[i], acts[i]);
    hide Inv, Run, QueueInv, NextQueue;
    StopReturnKeepsWorkers(ss[i], acts[i]);
  }

  lemma StopReturnKeepsWorkers(s: State, a: Action)
    requires Inv(s) && Single(s.pcs, s.lock, s.flags) && Enabled(s, a) && StopReturns(s, a)
    ensures HasWorker(Step(s, a).pcs) <==> HasWorker(s.pcs)
    ensures HasWorker(s.pcs) <==> s.flags.running
  {
    hide QueueInv, NextQueue;
    var s' := Step(s, a);
    assert s.lock == Some(a.t);
    if HasWorker(s.pcs) {
      var w :| w in s.pcs && s.pcs[w].Worker?;
      assert w in s'.pcs && s'.pcs[w].Worker?;
    }
  }

  /** A start that finds the looper stopped, up to then only safe starts: it aborts exactly if the old
      worker's thread id is still recorded; it creates a second worker exactly if the old worker has
      cleared the id and not yet _running; it leaves a single worker exactly if it is safe.
      (Whether that worker stays: LooperLosses.) */
  lemma StartBesideOldWorkerExactly(s: State, a: Action)
    requires Inv(s) && Single(s.pcs, s.lock, s.flags) && Enabled(s, a) && Starting(s, a) && !a.env.createFails
    ensures Step(s, a).status == Aborted <==> s.flags.running && s.flags.tid.Some?
    ensures !Single(Step(s, a).pcs, Step(s, a).lock, Step(s, a).flags) <==> s.flags.running && s.flags.tid.None?
    ensures HasWorker(s.pcs) <==> s.flags.running
  {
    hide QueueInv, NextQueue;
    var s' := Step(s, a);
    assert s.lock == Some(a.t);
    if s.flags.running && s.flags.tid.None? {
      var w :| w in s.pcs && s.pcs[w].Worker?;
      assert s'.pcs[w].Worker? && s'.pcs[a.env.newTid].Worker? && w != a.env.newTid;
    } else if !s.flags.running {
      SingleStep(s, a);
    }
  }

  lemma AbortStep(s: State, a: Action)
    requires Inv(s) && Single(s.pcs, s.lock, s.flags) && Enabled(s, a) && SafeStart(s, a)
    requires Step(s, a).status == Aborted
    ensures a.Go? && a.env.createFails
  {
    AbortIsAStep(s, a);
    if !a.env.createFails {
      AbortsStarting(s, a);
      StartBesideOldWorkerExactly(s, a);
    }
  }

  lemma AbortsStarting(s: State, a: Action)
    requires Enabled(s, a) && Step(s, a).status == Aborted
    ensures Starting(s, a)
  {}

  /** Without an unsafe start only a failing pthread_create aborts. */
  lemma SafeStartsNeverAbort(ss: seq<State>, acts: seq<Action>, i: nat)
    requires Run(ss, acts) && 0 < i < |ss| && forall k :: 0 <= k < i ==> SafeStart(ss[k], acts[k])
    requires ss[i].status == Aborted
    ensures acts[i - 1].Go? && acts[i - 1].env.createFails
  {
    hide Inv, Single, Enabled, Step, SafeStart;
    RunInv(ss, acts, i - 1);
    SafeStartsKeepOneWorker(ss, acts, i - 1);
    AbortStep(ss[i - 1], acts[i - 1]);
  }

  // ---- the flag of an old worker ----

  /** From s the steps of acts lead to t. */
  ghost predicate Leads(s: State, acts: seq<Action>, t: State)
    decreases |acts|
  {
    if acts == [] then s == t else Enabled(s, acts[0]) && Leads(Step(s, acts[0]), acts[1..], t)
  }

  /** A started looper with a worker in its loop whose _running flag is down. */
  ghost predicate FlagStuck(s: State, w: Tid) {
    s.status == Live && s.flags.started && !s.flags.running && s.flags.tid == Some(w)
    && w in s.pcs && s.pcs[w] == Worker(CheckExit) && !s.flags.exitPending
    && forall c :: IsControl(s.pcs, c) ==> !Creating(s.pcs[c].k)
  }

  ghost predicate GetsStuck(s: State, w: Tid) {
    exists acts, t :: Leads(s, acts, t) && FlagStuck(t, w)
  }

  lemma StuckAfter(s: State, a: Action, w: Tid)
    requires Enabled(s, a) && GetsStuck(Step(s, a), w)
    ensures GetsStuck(s, w)
  {
    hide Enabled, Step, FlagStuck;
    var acts, t :| Leads(Step(s, a), acts, t) && FlagStuck(t, w);
    assert ([a] + acts)[0] == a && ([a] + acts)[1..] == acts;
    assert Leads(s, [a] + acts, t);
  }

  /** How far a start beside an old worker o still is from raising _started over the new worker w. */
  ghost predicate Beside(s: State, t: Tid, o: Tid, w: Tid) {
    && s.status == Live && t in s.pcs && o in s.pcs && w in s.pcs && t != o && t != w && o != w
    && s.pcs[o] == Worker(ClearRunning) && s.pcs[w] == Worker(CheckExit) && s.flags.tid == Some(w)
    && s.pcs[t].Control? && s.pcs[t].k.StartWindow()
    && (!s.pcs[t].k.StartClearExit? ==> !s.flags.exitPending)
    && (forall c :: IsControl(s.pcs, c) && Creating(s.pcs[c].k) ==> c == t)
  }

  lemma BesideGetsStuck(s: State, t: Tid, o: Tid, w: Tid, env: Env)
    requires Beside(s, t, o, w)
    ensures GetsStuck(s, w)
    decreases if s.pcs[t].k.StartClearExit? then 2 else if s.pcs[t].k.StartSetRunning? then 1 else 0
  {
    hide Leads, GetsStuck;
    var s1 := Step(s, Go(t, env));
    if s.pcs[t].k.StartSetStarted? {
      var s2 := Step(s1, Go(o, env));
      assert FlagStuck(s2, w);
      assert GetsStuck(s2, w) by { StuckNow(s2, w); }
      StuckAfter(s1, Go(o, env), w);
    } else {
      BesideGetsStuck(s1, t, o, w, env);
    }
    StuckAfter(s, Go(t, env), w);
  }

  lemma StuckNow(s: State, w: Tid)
    requires FlagStuck(s, w)
    ensures GetsStuck(s, w)
  {
    assert Leads(s, [], s);
  }

  lemma SecondWorker(s: State, a: Action) returns (o: Tid)
    requires Inv(s) && Single(s.pcs, s.lock, s.flags) && Enabled(s, a) && Starting(s, a) && !a.env.createFails
    requires s.flags.running && s.flags.tid.None?
    ensures o in s.pcs && s.pcs[o] in {Worker(SetExit), Worker(ClearRunning)}
    ensures o != a.t && o != a.env.newTid && a.t != a.env.newTid && s.lock == Some(a.t)
    ensures forall c :: IsControl(s.pcs, c) && Creating(s.pcs[c].k) ==> c == a.t
  {
    hide QueueInv;
    o :| o in s.pcs && s.pcs[o].Worker?;
    assert !IsActive(s.pcs[o]);
  }

  /** The step that creates the second worker, and the old worker's next one. */
  lemma SecondWorkerBeside(s: State, a: Action, o: Tid)
    requires Enabled(s, a) && Starting(s, a) && !a.env.createFails && s.flags.tid.None?
    requires o in s.pcs && o != a.t && o != a.env.newTid && a.t != a.env.newTid && s.lock == Some(a.t)
    requires forall c :: IsControl(s.pcs, c) && Creating(s.pcs[c].k) ==> c == a.t
    ensures s.pcs[o] == Worker(ClearRunning) ==> Beside(Step(s, a), a.t, o, a.env.newTid)
    ensures s.pcs[o] == Worker(SetExit) ==>
      && Enabled(Step(s, a), Go(o, a.env))
      && Beside(Step(Step(s, a), Go(o, a.env)), a.t, o, a.env.newTid)
  {
    hide NextQueue;
    var w, s1 := a.env.newTid, Step(s, a);
    assert s1.pcs == s.pcs[a.t := Control(StartClearExit)][w := Worker(CheckExit)] && s1.flags.tid == Some(w);
  }

  /** A start that creates a second worker can end with the old worker's `_running = 0` landing over
      the new worker. */
  lemma OldWorkerLowersNewFlag(s: State, a: Action)
    requires Inv(s) && Single(s.pcs, s.lock, s.flags) && Enabled(s, a) && Starting(s, a) && !a.env.createFails
    requires s.flags.running && s.flags.tid.None?
    ensures GetsStuck(s, a.env.newTid)
  {
    var o := SecondWorker(s, a);
    SecondWorkerBeside(s, a, o);
    hide Leads, GetsStuck, Inv, Single, Step, Enabled, Beside;
    var w, s1 := a.env.newTid, Step(s, a);
    if s.pcs[o] == Worker(SetExit) {
      BesideGetsStuck(Step(s1, Go(o, a.env)), a.t, o, w, a.env);
      StuckAfter(s1, Go(o, a.env), w);
    } else {
      BesideGetsStuck(s1, a.t, o, w, a.env);
    }
    StuckAfter(s, a, w);
  }

  lemma {:induction false} FlagStaysDown(s: State, acts: seq<Action>, t: State)
    requires Leads(s, acts, t) && CreatesNone(s, acts) && !s.flags.running
    requires forall c :: IsControl(s.pcs, c) ==> !Creating(s.pcs[c].k)
    ensures !t.flags.running
    decreases |acts|
  {
    hide Enabled, Step, Creates;
    if acts != [] {
      DownStep(s, acts[0]);
      FlagStaysDown(Step(s, acts[0]), acts[1..], t);
    }
  }

  ghost predicate CreatesNone(s: State, acts: seq<Action>)
    decreases |acts|
  {
    acts == [] || (!Creates(s, acts[0]) && (Enabled(s, acts[0]) ==> CreatesNone(Step(s, acts[0]), acts[1..])))
  }

  lemma DownStep(s: State, a: Action)
    requires Enabled(s, a) && !Creates(s, a) && !s.flags.running
    requires forall c :: IsControl(s.pcs, c) ==> !Creating(s.pcs[c].k)
    ensures !Step(s, a).flags.running
    ensures forall c :: IsControl(Step(s, a).pcs, c) ==> !Creating(Step(s, a).pcs[c].k)
  {
    hide NextQueue, NextLock;
    assert a.Go? && IsControl(s.pcs, a.t) ==> !Creating(s.pcs[a.t].k);
  }

  /** From there on the flag stays down until another start creates a worker. */
  lemma StuckUntilNextStart(s: State, w: Tid, acts: seq<Action>, t: State)
    requires FlagStuck(s, w) && Leads(s, acts, t) && CreatesNone(s, acts)
    ensures !t.flags.running
  {
    hide Leads, CreatesNone;
    FlagStaysDown(s, acts, t);
  }

  // ---- what a caller can do about it ----

  predicate IsStart(k: ControlPc) { k.StartWindow() || k.StartWant? || k.Start? || k.StartLeave? }

  predicate IsStop(k: ControlPc) { Stopping(k) || k.StopWant? || k.Stop? || k.StopLeaveEarly? || k.StopDone? }

  /** Starts and stops do not overlap one another.  Starts may overlap starts, and stops stops. */
  ghost predicate Apart(s: State, a: Action) {
    && (a.CallStart? ==> forall c :: IsControl(s.pcs, c) ==> !IsStop(s.pcs[c].k))
    && (a.CallStop? ==> forall c :: IsControl(s.pcs, c) ==> !IsStart(s.pcs[c].k))
  }

  /** A stopper that has seen or made the looper stopped. */
  predicate PastStop(k: ControlPc) { Stopping(k) || k.StopLeaveEarly? || k.StopDone? }

  ghost predicate HasStopping(pcs: map<Tid, Pc>) {
    exists c :: IsControl(pcs, c) && Stopping(pcs[c].k)
  }

  predicate InWindow(pcs: map<Tid, Pc>, lock: Option<Tid>) {
    Holder(pcs, lock).Some? && Holder(pcs, lock).value.StartWindow()
  }

  /** While the looper is stopped a worker is there only for a starter or a stopper to deal with. */
  ghost predicate ApartInv(pcs: map<Tid, Pc>, lock: Option<Tid>, f: Flags) {
    && Single(pcs, lock, f)
    && (forall c, d :: IsControl(pcs, c) && IsControl(pcs, d) ==> !(IsStart(pcs[c].k) && IsStop(pcs[d].k)))
    && (forall c :: IsControl(pcs, c) && PastStop(pcs[c].k) ==> !f.started)
    && (HasWorker(pcs) && !f.started ==> InWindow(pcs, lock) || HasStopping(pcs))
  }

  lemma ApartStartIsSafe(s: State, a: Action)
    requires Inv(s) && ApartInv(s.pcs, s.lock, s.flags) && Enabled(s, a)
    ensures SafeStart(s, a)
  {
    hide QueueInv;
    if Starting(s, a) {
      assert s.lock == Some(a.t) && IsControl(s.pcs, a.t) && IsStart(s.pcs[a.t].k);
    }
  }

  /** A control thread stays what it is, a starter or a stopper. */
  ghost predicate KindMoves(pc: Pc, next: Option<Pc>) {
    pc.Control? && next.Some? && next.value.Control? ==>
      && (IsStart(next.value.k) <==> IsStart(pc.k))
      && (IsStop(next.value.k) ==> IsStop(pc.k))
  }

  lemma KindStep(s: State, pc: Pc, env: Env)
    requires Fault(s, pc, env) == Live
    ensures KindMoves(pc, Next(s, pc, env))
  {}

  lemma KindsKept(pcs: map<Tid, Pc>, t: Tid, next: Option<Pc>, w: Tid)
    requires forall c, d :: IsControl(pcs, c) && IsControl(pcs, d) ==> !(IsStart(pcs[c].k) && IsStop(pcs[d].k))
    requires t in pcs && KindMoves(pcs[t], next) && (next.Some? ==> next.value.Control? == pcs[t].Control?)
    ensures var pcs' := Advance(pcs, t, next, w);
      forall c, d :: IsControl(pcs', c) && IsControl(pcs', d) ==> !(IsStart(pcs'[c].k) && IsStop(pcs'[d].k))
  {
    var pcs' := Advance(pcs, t, next, w);
    forall c | IsControl(pcs', c)
      ensures IsControl(pcs, c)
      ensures (IsStart(pcs'[c].k) ==> IsStart(pcs[c].k)) && (IsStop(pcs'[c].k) ==> IsStop(pcs[c].k))
    {}
  }

  lemma StoppedKept(pcs: map<Tid, Pc>, lock: Option<Tid>, f: Flags, t: Tid, next: Option<Pc>, f': Flags, w: Tid)
    requires ApartInv(pcs, lock, f) && t in pcs && PhaseMoves(pcs[t], f, next, f') && KindMoves(pcs[t], next)
    ensures var pcs' := Advance(pcs, t, next, w);
      forall c :: IsControl(pcs', c) && PastStop(pcs'[c].k) ==> !f'.started
  {
    hide Single;
    var pcs' := Advance(pcs, t, next, w);
    forall c | IsControl(pcs', c) && PastStop(pcs'[c].k) ensures !f'.started {
      assert IsControl(pcs, c) && IsStop(pcs[c].k);
      assert c != t ==> PastStop(pcs[c].k);
      assert pcs[t].Control? ==> IsControl(pcs, t);
    }
  }

  lemma DealtWithKept(pcs: map<Tid, Pc>, lock: Option<Tid>, f: Flags, t: Tid, next: Option<Pc>,
                      lock': Option<Tid>, f': Flags, w: Tid)
    requires LockInv(pcs, lock) && ApartInv(pcs, lock, f) && t in pcs && (pcs[t].Wanting() ==> lock == None)
    requires LockMoves(pcs[t], lock, t, next, lock') && PhaseMoves(pcs[t], f, next, f')
    requires next == Some(Control(StartClearExit)) ==> w !in pcs
    requires Single(Advance(pcs, t, next, w), lock', f')
    ensures var pcs' := Advance(pcs, t, next, w);
      HasWorker(pcs') && !f'.started ==> InWindow(pcs', lock') || HasStopping(pcs')
  {
    var pcs' := Advance(pcs, t, next, w);
    assert next == Some(Control(StartClearExit)) ==> InWindow(pcs', lock');
    if HasWorker(pcs') && !f'.started && !InWindow(pcs', lock') {
      var x: Tid :| x in pcs' && pcs'[x].Worker?;
      assert x in pcs && pcs[x].Worker?;
      assert HasWorker(pcs);
      if f.started {
        assert IsControl(pcs', t) && Stopping(pcs'[t].k);
      } else if !InWindow(pcs, lock) {
        var c: Tid :| IsControl(pcs, c) && Stopping(pcs[c].k);
        assert IsControl(pcs', c) && Stopping(pcs'[c].k);
      }
    }
  }

  lemma ApartGo(s: State, a: Action)
    requires Inv(s) && ApartInv(s.pcs, s.lock, s.flags) && Enabled(s, a) && a.Go? && Fault(s, s.pcs[a.t], a.env) == Live
    ensures ApartInv(Step(s, a).pcs, Step(s, a).lock, Step(s, a).flags)
  {
    hide Next, NextLock, NextFlags, NextQueue, Advance, QueueInv, Fault, LockInv, ThreadInv, Single, KindMoves;
    var pc := s.pcs[a.t];
    assert LockInv(s.pcs, s.lock) && ThreadInv(s.pcs, s.flags);
    ApartStartIsSafe(s, a);
    SingleStep(s, a);
    HoldingIsLocked(s, a.t);
    LockStep(s, a.t, a.env);
    PhaseStep(s, pc, a.env);
    KindStep(s, pc, a.env);
    StartsOnlyWhenStopped(s, pc, a.env);
    var next, lock', f' := Next(s, pc, a.env), NextLock(s, a.t), NextFlags(s.flags, pc, a.env);
    KindsKept(s.pcs, a.t, next, a.env.newTid);
    StoppedKept(s.pcs, s.lock, s.flags, a.t, next, f', a.env.newTid);
    DealtWithKept(s.pcs, s.lock, s.flags, a.t, next, lock', f', a.env.newTid);
  }

  lemma ApartCall(s: State, a: Action)
    requires Inv(s) && ApartInv(s.pcs, s.lock, s.flags) && Enabled(s, a) && !a.Go? && Apart(s, a)
    ensures ApartInv(Step(s, a).pcs, Step(s, a).lock, Step(s, a).flags)
  {
    var s' := Step(s, a);
    SingleStep(s, a);
    hide Inv, Single, Step, Enabled, IsStart, IsStop, Stopping, PastStop;
    CalledAnew(s, a);
    forall c, d | IsControl(s'.pcs, c) && IsControl(s'.pcs, d) ensures !(IsStart(s'.pcs[c].k) && IsStop(s'.pcs[d].k)) {
      assert c != a.t ==> IsControl(s.pcs, c);
      assert d != a.t ==> IsControl(s.pcs, d);
    }
    forall c | IsControl(s'.pcs, c) && PastStop(s'.pcs[c].k) ensures !s'.flags.started {
      assert IsControl(s.pcs, c);
    }
    if HasWorker(s'.pcs) && !s'.flags.started && !InWindow(s'.pcs, s'.lock) {
      var c: Tid :| IsControl(s.pcs, c) && Stopping(s.pcs[c].k);
      assert IsControl(s'.pcs, c);
    }
  }

  lemma CalledAnew(s: State, a: Action)
    requires Inv(s) && Enabled(s, a) && !a.Go?
    ensures var s' := Step(s, a);
      && s'.flags == s.flags && s'.lock == s.lock && a.t !in s.pcs && a.t in s'.pcs
      && (forall c :: c != a.t ==> (c in s'.pcs <==> c in s.pcs) && (c in s.pcs ==> s'.pcs[c] == s.pcs[c]))
      && (HasWorker(s'.pcs) ==> HasWorker(s.pcs)) && InWindow(s'.pcs, s'.lock) == InWindow(s.pcs, s.lock)
    ensures var pc := Step(s, a).pcs[a.t];
      pc.Control? ==> && !PastStop(pc.k) && !(IsStart(pc.k) && IsStop(pc.k))
                      && (IsStart(pc.k) ==> a.CallStart?) && (IsStop(pc.k) ==> a.CallStop?)
  {
    hide QueueInv, ThreadInv;
  }

  ghost predicate ApartRun(ss: seq<State>, acts: seq<Action>) {
    Run(ss, acts) && forall i {:trigger acts[i]} | 0 <= i < |acts| :: Apart(ss[i], acts[i])
  }

  /** Control operations that do not overlap at all are a special case. */
  lemma DisciplinedIsApart(ss: seq<State>, acts: seq<Action>)
    requires DisciplinedRun(ss, acts)
    ensures ApartRun(ss, acts)
  {
    hide Enabled, Step;
  }

  /** Starts and stops that do not overlap one another are safe starts. */
  lemma {:induction false} ApartInRun(ss: seq<State>, acts: seq<Action>, i: nat)
    requires ApartRun(ss, acts) && i < |ss|
    ensures ApartInv(ss[i].pcs, ss[i].lock, ss[i].flags)
    ensures i < |acts| ==> SafeStart(ss[i], acts[i])
  {
    hide Inv, Enabled, Step, Apart, ApartInv, SafeStart, Fault;
    if i > 0 {
      ApartInRun(ss, acts, i - 1);
      RunInv(ss, acts, i - 1);
      ApartStep(ss[i - 1], acts[i - 1]);
    } else {
      ApartAtFirst();
    }
    if i < |acts| {
      RunInv(ss, acts, i);
      ApartStartIsSafe(ss[i], acts[i]);
    }
  }

  lemma ApartStep(s: State, a: Action)
    requires Inv(s) && ApartInv(s.pcs, s.lock, s.flags) && Enabled(s, a) && Apart(s, a)
    ensures ApartInv(Step(s, a).pcs, Step(s, a).lock, Step(s, a).flags)
  {
    hide Inv, ApartInv, Apart;
    if !a.Go? {
      ApartCall(s, a);
    } else if Fault(s, s.pcs[a.t], a.env) == Live {
      ApartGo(s, a);
    }
  }

  lemma ApartAtFirst()
    ensures ApartInv(INIT.pcs, INIT.lock, INIT.flags)
  {}

  lemma ReturnsStopped(s: State, a: Action)
    requires ApartInv(s.pcs, s.lock, s.flags) && StopReturns(s, a) && Enabled(s, a)
    ensures !s.flags.started && !Step(s, a).flags.started
  {
    hide Single, NextQueue, NextLock;
    assert IsControl(s.pcs, a.t) && PastStop(s.pcs[a.t].k);
  }

  lemma EarlyReturn(s: State, a: Action)
    requires Inv(s) && ApartInv(s.pcs, s.lock, s.flags) && StopReturns(s, a) && s.flags.running
    ensures exists c :: c != a.t && IsControl(s.pcs, c) && Stopping(s.pcs[c].k)
  {
  }

  /** So with starts kept apart from stops: at most one worker, no abort but for pthread_create, and a
      stop that returns leaves a worker exactly if _running is up, which only an overlapping stop can
      bring about. */
  lemma ApartRunsAreSafe(ss: seq<State>, acts: seq<Action>, i: nat)
    requires ApartRun(ss, acts) && i < |acts|
    ensures ss[i + 1].status == Aborted ==> acts[i].Go? && acts[i].env.createFails
    ensures StopReturns(ss[i], acts[i]) ==> (HasWorker(ss[i + 1].pcs) <==> ss[i].flags.running)
    ensures StopReturns(ss[i], acts[i]) ==> !ss[i].flags.started && !ss[i + 1].flags.started
    ensures StopReturns(ss[i], acts[i]) && ss[i].flags.running ==>
              exists c :: c != acts[i].t && IsControl(ss[i].pcs, c) && Stopping(ss[i].pcs[c].k)
  {
    hide Inv, Enabled, Step, Apart, SafeStart, Fault, Single;
    forall k | 0 <= k < |acts| ensures SafeStart(ss[k], acts[k]) { ApartInRun(ss, acts, k); }
    ApartInRun(ss, acts, i);
    if ss[i + 1].status == Aborted { SafeStartsNeverAbort(ss, acts, i + 1); }
    if StopReturns(ss[i], acts[i]) {
      StopLeavesWorkerExactly(ss, acts, i);
      RunInv(ss, acts, i);
      ReturnsStopped(ss[i], acts[i]);
      if ss[i].flags.running { EarlyReturn(ss[i], acts[i]); }
    }
  }
}
