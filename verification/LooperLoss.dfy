/** How a started looper can be without a worker, in runs whose starts may overlap stops: the worker
    of the latest start finds _exit_pending up, left over from before the start or raised late. */
module LooperLosses {

  import opened Common
  import opened Looper
  import opened LooperInv
  import opened LooperRuns
  import opened LooperControl
  import opened LooperOverlaps
  import opened LooperStarts

  /** A worker reads _exit_pending and finds it up. */
  predicate Quits(s: State, a: Action) {
    a.Go? && a.t in s.pcs && s.pcs[a.t] == Worker(CheckExit) && s.flags.exitPending
  }

  /** The worker made by the latest start has done so. */
  ghost predicate HasQuit(ss: seq<State>, acts: seq<Action>, i: nat)
    requires |ss| == |acts| + 1 && i < |ss|
  {
    exists k :: 0 <= k < i && Quits(ss[k], acts[k]) && forall m :: k < m < i ==> !Creates(ss[m], acts[m])
  }

  function QuitNext(s: State, a: Action, quit: bool): bool {
    if Creates(s, a) then false else quit || Quits(s, a)
  }

  lemma HasQuitStep(ss: seq<State>, acts: seq<Action>, i: nat)
    requires |ss| == |acts| + 1 && i < |acts|
    ensures HasQuit(ss, acts, i + 1) <==> QuitNext(ss[i], acts[i], HasQuit(ss, acts, i))
  {
    hide Quits, Creates;
    assert Creates(ss[i], acts[i]) ==> !Quits(ss[i], acts[i]) by { NotAtOnce(ss[i], acts[i]); }
  }

  lemma NotAtOnce(s: State, a: Action)
    ensures !(Creates(s, a) && Quits(s, a))
  {}

  /** While the looper is started, or about to be, its worker serves exactly if it has not quit. */
  predicate QuitRel(serving: bool, holder: Option<ControlPc>, f: Flags, quit: bool) {
    f.started || Window(holder) ==> (quit <==> !serving)
  }

  ghost predicate QuitInv(s: State, quit: bool) {
    QuitRel(Serving(s.pcs), Holder(s.pcs, s.lock), s.flags, quit)
  }

  lemma QuitByWorker(s: State, t: Tid, env: Env, quit: bool)
    requires Inv(s) && Single(s.pcs, s.lock, s.flags) && QuitInv(s, quit)
    requires Enabled(s, Go(t, env)) && s.pcs[t].Worker? && Fault(s, s.pcs[t], env) == Live
    ensures QuitInv(Step(s, Go(t, env)), quit || Quits(s, Go(t, env)))
  {
    var pc := s.pcs[t];
    var next, lock', f' := Next(s, pc, env), NextLock(s, t), NextFlags(s.flags, pc, env);
    hide Next, NextLock, NextFlags, NextQueue, Advance, QueueInv, Fault, HasWorker, Serving, Ending, Holder;
    HoldingIsLocked(s, t);
    LockStep(s, t, env);
    ExitStep(s, pc, env);
    OnlyWorker(s.pcs, t);
    WorkerMoves(s.pcs, t, next, env.newTid);
    HolderStays(s.pcs, s.lock, t, next, lock', env.newTid);
    if InWindow(s.pcs, s.lock) { WindowHasNewborn(s, t); }
  }

  /** Only the last step of a starter turns a window into a started looper. */
  lemma QuitByOthers(s: State, t: Tid, env: Env, quit: bool)
    requires Inv(s) && QuitInv(s, quit)
    requires Enabled(s, Go(t, env)) && !s.pcs[t].Worker? && Fault(s, s.pcs[t], env) == Live
    requires !Creates(s, Go(t, env))
    ensures QuitInv(Step(s, Go(t, env)), quit)
  {
    var pc := s.pcs[t];
    var next, lock', f' := Next(s, pc, env), NextLock(s, t), NextFlags(s.flags, pc, env);
    NotCreated(s, t, env);
    hide Next, NextLock, NextFlags, NextQueue, Advance, QueueInv, Fault, HasWorker, Serving, Ending, Holder;
    HoldingIsLocked(s, t);
    LockStep(s, t, env);
    FlagStep(s, pc, env);
    PhaseStep(s, pc, env);
    ExitStep(s, pc, env);
    OthersMove(s.pcs, t, next, env.newTid);
    if pc.Control? {
      HolderMoves(s.pcs, s.lock, t, next, lock', env.newTid);
    } else {
      HolderStays(s.pcs, s.lock, t, next, lock', env.newTid);
    }
  }

  lemma QuitByCreation(s: State, a: Action)
    requires Enabled(s, a) && Creates(s, a)
    ensures QuitInv(Step(s, a), false)
  {
    hide NextQueue, Holder;
    var s', w := Step(s, a), a.env.newTid;
    assert w in s'.pcs && s'.pcs[w] == Worker(CheckExit);
    assert Serving(s'.pcs);
  }

  lemma QuitByCall(s: State, a: Action, quit: bool)
    requires Inv(s) && QuitInv(s, quit) && Enabled(s, a) && !a.Go?
    ensures QuitInv(Step(s, a), quit)
  {
    CallMoves(s, a);
    var s' := Step(s, a);
    assert s.lock != Some(a.t);
    hide Inv, Step, Enabled;
    assert forall x :: x in s.pcs && s.pcs[x].Worker? ==> x in s'.pcs && s'.pcs[x] == s.pcs[x];
    assert forall x :: x in s'.pcs && s'.pcs[x].Worker? ==> x in s.pcs && s'.pcs[x] == s.pcs[x];
  }

  lemma QuitStep(s: State, a: Action, quit: bool)
    requires Inv(s) && Single(s.pcs, s.lock, s.flags) && QuitInv(s, quit) && Enabled(s, a)
    ensures QuitInv(Step(s, a), QuitNext(s, a, quit))
  {
    hide Inv, Creates, QuitInv, Next, NextLock, NextFlags, NextQueue, Advance;
    NotAtOnce(s, a);
    if !a.Go? {
      NoCallIs(s, a);
      QuitByCall(s, a, quit);
    } else if Creates(s, a) {
      QuitByCreation(s, a);
    } else if Fault(s, s.pcs[a.t], a.env) != Live {
      StoppedShort(s, a, quit);
    } else if s.pcs[a.t].Worker? {
      QuitByWorker(s, a.t, a.env, quit);
    } else {
      QuitByOthers(s, a.t, a.env, quit);
    }
  }

  lemma StoppedShort(s: State, a: Action, quit: bool)
    requires Enabled(s, a) && a.Go? && Fault(s, s.pcs[a.t], a.env) != Live && QuitInv(s, quit)
    ensures QuitInv(Step(s, a), quit) && !Quits(s, a)
  {}

  ghost predicate SafeRun(ss: seq<State>, acts: seq<Action>) {
    Run(ss, acts) && forall i {:trigger acts[i]} | 0 <= i < |acts| :: SafeStart(ss[i], acts[i])
  }

  lemma {:induction false} QuitInRun(ss: seq<State>, acts: seq<Action>, i: nat)
    requires SafeRun(ss, acts) && i < |ss|
    ensures QuitInv(ss[i], HasQuit(ss, acts, i))
  {
    hide Inv, Enabled, Step, Single, QuitInv, SafeStart, HasQuit, QuitNext;
    if i > 0 {
      QuitInRun(ss, acts, i - 1);
      RunInv(ss, acts, i - 1);
      SafeStartsKeepOneWorker(ss, acts, i - 1);
      QuitStep(ss[i - 1], acts[i - 1], HasQuit(ss, acts, i - 1));
      HasQuitStep(ss, acts, i - 1);
    } else {
      QuitAtFirst(ss, acts);
    }
  }

  lemma QuitAtFirst(ss: seq<State>, acts: seq<Action>)
    requires |ss| == |acts| + 1
    ensures QuitInv(INIT, HasQuit(ss, acts, 0))
  {}

  /** In every run of safe starts, as long as the looper is started, no worker serves its tasks exactly
      if the worker of the latest start has read _exit_pending and found it up. */
  lemma WorkerIsLostExactly(ss: seq<State>, acts: seq<Action>, i: nat)
    requires SafeRun(ss, acts) && i < |ss| && ss[i].flags.started
    ensures !Serving(ss[i].pcs) <==> HasQuit(ss, acts, i)
  {
    hide HasQuit, Run, Serving, SafeStart;
    QuitInRun(ss, acts, i);
  }

  /** A lost worker is not replaced while the looper stays started. */
  lemma LostIsLost(ss: seq<State>, acts: seq<Action>, i: nat, j: nat)
    requires SafeRun(ss, acts) && i <= j < |ss| && !Serving(ss[i].pcs)
    requires forall k :: i <= k <= j ==> ss[k].flags.started
    ensures !Serving(ss[j].pcs)
  {
    hide Serving;
    WorkerIsLostExactly(ss, acts, i);
    WorkerIsLostExactly(ss, acts, j);
    forall k | i <= k < j ensures !Creates(ss[k], acts[k]) { assert ss[k].flags.started; }
    var k :| 0 <= k < i && Quits(ss[k], acts[k]) && forall m :: k < m < i ==> !Creates(ss[m], acts[m]);
    assert HasQuit(ss, acts, j);
  }

  // ---- raising the flag late ----

  /** The worker of a started looper quits, and its starter had cleared the flag. */
  predicate QuitsLate(s: State, a: Action) {
    Quits(s, a) && !LooksTooEarly(s, a) && s.flags.started
  }

  /** Without another creation, some continuation makes the worker quit late. */
  ghost predicate LosesLate(s: State) {
    exists acts, t, b :: Leads(s, acts, t) && CreatesNone(s, acts) && Enabled(t, b) && QuitsLate(t, b)
  }

  /** A thread that is about to raise _exit_pending without the mutex: a stopper before line 146, or an
      old worker. */
  predicate Raising(pc: Pc) { pc == Worker(SetExit) || (pc.Control? && pc.k.StopRequest?) }

  ghost predicate HasRaising(pcs: map<Tid, Pc>) {
    exists x :: x in pcs && Raising(pcs[x])
  }

  lemma LosesAfter(s: State, a: Action)
    requires Enabled(s, a) && !Creates(s, a) && LosesLate(Step(s, a))
    ensures LosesLate(s)
  {
    hide Enabled, Step, Creates, QuitsLate;
    var acts, t, b :| Leads(Step(s, a), acts, t) && CreatesNone(Step(s, a), acts) && Enabled(t, b) && QuitsLate(t, b);
    assert ([a] + acts)[0] == a && ([a] + acts)[1..] == acts;
    assert Leads(s, [a] + acts, t) && CreatesNone(s, [a] + acts);
  }

  lemma LosesNow(s: State, b: Action)
    requires Enabled(s, b) && QuitsLate(s, b)
    ensures LosesLate(s)
  {
    assert Leads(s, [], s) && CreatesNone(s, []);
  }

  /** The starter goes on to raise _started, then thread x raises _exit_pending over the new worker. */
  ghost predicate BesideRaising(s: State, t: Tid, x: Tid, w: Tid) {
    && s.status == Live && s.lock == Some(t) && t in s.pcs && x in s.pcs && w in s.pcs && t != x && t != w && x != w
    && Raising(s.pcs[x]) && s.pcs[w] == Worker(CheckExit)
    && s.pcs[t].Control? && s.pcs[t].k.StartWindow()
  }

  lemma BesideRaisingLoses(s: State, t: Tid, x: Tid, w: Tid, env: Env)
    requires BesideRaising(s, t, x, w)
    ensures LosesLate(s)
    decreases if s.pcs[t].k.StartClearExit? then 2 else if s.pcs[t].k.StartSetRunning? then 1 else 0
  {
    hide LosesLate, NextQueue;
    var s1 := Step(s, Go(t, env));
    if s.pcs[t].k.StartSetStarted? {
      LosesNow(Step(s1, Go(x, env)), Go(w, env));
      LosesAfter(s1, Go(x, env));
    } else {
      BesideRaisingLoses(s1, t, x, w, env);
    }
    LosesAfter(s, Go(t, env));
  }

  /** Nobody but w is about to raise the flag, and all workers but w are past it. */
  ghost predicate OnlyPeer(pcs: map<Tid, Pc>, w: Tid) {
    && (forall x :: x in pcs && x != w ==> !Raising(pcs[x]) && (pcs[x].Worker? ==> pcs[x].w.ClearRunning?))
    && (w in pcs && pcs[w].Control? ==> !pcs[w].k.StopRequest?)
  }

  predicate ServesAs(pcs: map<Tid, Pc>, w: Tid) { w in pcs && pcs[w].Worker? && !Leaving(pcs[w].w) }

  /** While the looper is started, or about to be, nobody raises the flag over its worker w. */
  ghost predicate Settled(s: State, w: Tid) {
    && (Releasing(Holder(s.pcs, s.lock)) ==> !s.flags.started)
    && (s.flags.started || InWindow(s.pcs, s.lock) ==>
          && OnlyPeer(s.pcs, w)
          && (!BeforeClear(s.pcs, s.lock) && ServesAs(s.pcs, w) ==> !s.flags.exitPending))
  }

  predicate Releasing(holder: Option<ControlPc>) { holder.Some? && holder.value.StopRelease? }

  lemma OnlyPeerKept(pcs: map<Tid, Pc>, t: Tid, next: Option<Pc>, n: Tid, w: Tid)
    requires OnlyPeer(pcs, w) && t in pcs && next != Some(Control(StartClearExit))
    requires next.Some? ==> (next.value.Worker? <==> pcs[t].Worker?)
    requires pcs[t].Worker? && pcs[t].w.ClearRunning? ==> next.None?
    requires next.Some? && next.value.Control? ==> !next.value.k.StopRequest?
    ensures OnlyPeer(Advance(pcs, t, next, n), w)
    ensures t != w ==> (ServesAs(Advance(pcs, t, next, n), w) <==> ServesAs(pcs, w))
    ensures t == w ==> (ServesAs(Advance(pcs, t, next, n), w) <==>
                         next.Some? && next.value.Worker? && !Leaving(next.value.w))
  {}

  lemma SettledCall(s: State, a: Action, w: Tid)
    requires LockInv(s.pcs, s.lock) && Settled(s, w) && Enabled(s, a) && !a.Go?
    ensures Settled(Step(s, a), w)
  {
    CallMoves(s, a);
    assert s.lock != Some(a.t);
    hide Step, Enabled;
  }

  lemma SettledByWorker(s: State, t: Tid, env: Env, w: Tid)
    requires Inv(s) && Settled(s, w) && Enabled(s, Go(t, env)) && s.pcs[t].Worker? && Fault(s, s.pcs[t], env) == Live
    ensures Settled(Step(s, Go(t, env)), w)
  {
    var pc := s.pcs[t];
    var next, lock', f' := Next(s, pc, env), NextLock(s, t), NextFlags(s.flags, pc, env);
    hide Next, NextLock, NextFlags, NextQueue, Inv, Fault, Holder, Advance;
    assert LockInv(s.pcs, s.lock) by { ThreadsAreSound(s); }
    HoldingIsLocked(s, t);
    LockStep(s, t, env);
    ExitStep(s, pc, env);
    PhaseStep(s, pc, env);
    ClearRunningIsLast(s, pc, env);
    hide LockInv;
    HolderStays(s.pcs, s.lock, t, next, lock', env.newTid);
    if s.flags.started || InWindow(s.pcs, s.lock) {
      OnlyPeerKept(s.pcs, t, next, env.newTid, w);
      assert t == w || pc.w.ClearRunning?;
      hide OnlyPeer;
    }
  }

  lemma ClearRunningIsLast(s: State, pc: Pc, env: Env)
    ensures pc == Worker(ClearRunning) ==> Next(s, pc, env) == None
  {}

  /** What a step does to stoppers between raising nothing and raising the flag. */
  ghost predicate StopMoves(pc: Pc, f: Flags, next: Option<Pc>, f': Flags) {
    && (next.Some? && next.value.Control? && next.value.k.StopRequest? ==> pc.Control? && pc.k.StopRelease?)
    && (next.Some? && next.value.Control? && next.value.k.StopRelease? ==> !f'.started)
  }

  lemma StopStep(s: State, pc: Pc, env: Env)
    requires Fault(s, pc, env) == Live
    ensures StopMoves(pc, s.flags, Next(s, pc, env), NextFlags(s.flags, pc, env))
  {}

  lemma SettledByOthers(s: State, t: Tid, env: Env, w: Tid)
    requires Inv(s) && Settled(s, w) && Enabled(s, Go(t, env)) && !s.pcs[t].Worker? && Fault(s, s.pcs[t], env) == Live
    requires !Creates(s, Go(t, env))
    ensures Settled(Step(s, Go(t, env)), w)
  {
    var pc := s.pcs[t];
    var next, lock', f' := Next(s, pc, env), NextLock(s, t), NextFlags(s.flags, pc, env);
    NotCreated(s, t, env);
    hide Next, NextLock, NextFlags, NextQueue, Inv, Fault, Holder, Advance, Creates;
    assert LockInv(s.pcs, s.lock) by { ThreadsAreSound(s); }
    HoldingIsLocked(s, t);
    LockStep(s, t, env);
    PhaseStep(s, pc, env);
    ExitStep(s, pc, env);
    StopStep(s, pc, env);
    if pc.Control? {
      HolderMoves(s.pcs, s.lock, t, next, lock', env.newTid);
    } else {
      HolderStays(s.pcs, s.lock, t, next, lock', env.newTid);
    }
    hide LockInv;
    if s.flags.started || InWindow(s.pcs, s.lock) {
      assert !(pc.Control? && pc.k.StopRequest?) by { assert t != w ==> !Raising(pc); }
      if f'.started || Window(Holder(Advance(s.pcs, t, next, env.newTid), lock')) {
        OnlyPeerKept(s.pcs, t, next, env.newTid, w);
      }
      hide OnlyPeer;
    }
  }

  lemma SettledStep(s: State, a: Action, w: Tid)
    requires Inv(s) && Settled(s, w) && Enabled(s, a) && !Creates(s, a)
    ensures Settled(Step(s, a), w)
  {
    hide Creates, Settled, Next, NextLock, NextFlags, NextQueue, Advance, QueueInv;
    if !a.Go? {
      SettledCall(s, a, w);
    } else if Fault(s, s.pcs[a.t], a.env) != Live {
      SettledShort(s, a, w);
    } else if s.pcs[a.t].Worker? {
      SettledByWorker(s, a.t, a.env, w);
    } else {
      SettledByOthers(s, a.t, a.env, w);
    }
  }

  lemma SettledShort(s: State, a: Action, w: Tid)
    requires Enabled(s, a) && a.Go? && Fault(s, s.pcs[a.t], a.env) != Live && Settled(s, w)
    ensures Settled(Step(s, a), w)
  {}

  lemma {:induction false} SettledNeverLoses(s: State, acts: seq<Action>, t: State, b: Action, w: Tid)
    requires Inv(s) && Settled(s, w) && Leads(s, acts, t) && CreatesNone(s, acts) && Enabled(t, b)
    ensures !QuitsLate(t, b)
    decreases |acts|
  {
    if acts != [] {
      hide Inv, Enabled, Step, Creates, Settled, QuitsLate;
      InvStep(s, acts[0]);
      SettledStep(s, acts[0], w);
      SettledNeverLoses(Step(s, acts[0]), acts[1..], t, b, w);
    }
  }

  lemma SettledAtCreation(s: State, a: Action)
    requires Inv(s) && Single(s.pcs, s.lock, s.flags) && Enabled(s, a) && Creates(s, a) && !HasRaising(s.pcs)
    ensures Settled(Step(s, a), a.env.newTid)
  {
    hide NextQueue, QueueInv;
    var s', w := Step(s, a), a.env.newTid;
    assert s.lock == Some(a.t);
    assert s'.pcs == s.pcs[a.t := Control(StartClearExit)][w := Worker(CheckExit)];
    forall x | x in s.pcs && s.pcs[x].Worker? ensures s.pcs[x].w.ClearRunning? {
      assert !IsActive(s.pcs[x]) && !Raising(s.pcs[x]);
    }
  }

  lemma RaisingAtCreation(s: State, a: Action, x: Tid)
    requires Inv(s) && Enabled(s, a) && Creates(s, a) && x in s.pcs && Raising(s.pcs[x])
    ensures BesideRaising(Step(s, a), a.t, x, a.env.newTid)
  {
    hide NextQueue, QueueInv;
    assert s.lock == Some(a.t);
    assert Step(s, a).pcs == s.pcs[a.t := Control(StartClearExit)][a.env.newTid := Worker(CheckExit)];
  }

  /** A start that creates a worker can lose it after it has cleared the flag, in some continuation
      without another creation, exactly if at its creation a stopper is about to raise the flag, or an
      old worker is. */
  lemma LateLossExactly(s: State, a: Action)
    requires Inv(s) && Single(s.pcs, s.lock, s.flags) && Enabled(s, a) && a.Go? && Creates(s, a)
    ensures LosesLate(Step(s, a)) <==> HasRaising(s.pcs)
  {
    hide Inv, Single, Enabled, Step, Creates, Settled, BesideRaising, Leads, CreatesNone, QuitsLate, Raising;
    if HasRaising(s.pcs) {
      var x: Tid :| x in s.pcs && Raising(s.pcs[x]);
      RaisingAtCreation(s, a, x);
      BesideRaisingLoses(Step(s, a), a.t, x, a.env.newTid, a.env);
    } else {
      InvStep(s, a);
      SettledAtCreation(s, a);
      forall acts, t, b | Leads(Step(s, a), acts, t) && CreatesNone(Step(s, a), acts) && Enabled(t, b)
        ensures !QuitsLate(t, b)
      {
        SettledNeverLoses(Step(s, a), acts, t, b, a.env.newTid);
      }
    }
  }

  /** For a safe start, after any run of safe starts: exactly if some stop has given the mutex up and
      not yet raised the flag. */
  lemma SafeStartLosesLateExactly(ss: seq<State>, acts: seq<Action>, i: nat, a: Action)
    requires SafeRun(ss, acts) && i < |ss| && Enabled(ss[i], a) && Creates(ss[i], a) && SafeStart(ss[i], a)
    ensures LosesLate(Step(ss[i], a))
      <==> exists x :: IsControl(ss[i].pcs, x) && ss[i].pcs[x].k.StopRequest?
  {
    RunInv(ss, acts, i);
    SafeStartsKeepOneWorker(ss, acts, i);
    hide Run, LosesLate, Step;
    LateLossExactly(ss[i], a);
    SafeIsAlone(ss[i], a);
  }

  lemma SafeIsAlone(s: State, a: Action)
    requires Inv(s) && Single(s.pcs, s.lock, s.flags) && Enabled(s, a) && Creates(s, a) && SafeStart(s, a)
    ensures HasRaising(s.pcs) <==> exists x :: IsControl(s.pcs, x) && s.pcs[x].k.StopRequest?
  {
    hide QueueInv, ThreadInv;
    assert s.lock == Some(a.t);
    if x: Tid :| IsControl(s.pcs, x) && s.pcs[x].k.StopRequest? { assert Raising(s.pcs[x]); }
    if HasRaising(s.pcs) {
      var x: Tid :| x in s.pcs && Raising(s.pcs[x]);
      assert s.pcs[x].Worker? ==> HasWorker(s.pcs);
      assert IsControl(s.pcs, x) && s.pcs[x].k.StopRequest?;
    }
  }
}
