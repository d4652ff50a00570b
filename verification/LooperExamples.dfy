/** Runs that show what the conditions of LooperControl are for. */
module LooperExamples {

  import opened Common
  import opened Looper
  import opened LooperRuns
  import opened LooperControl
  import opened LooperOverlaps

  /** What the steps of a run keep to. */
  datatype Rule = Any | SafeStarts | OneAtATime

  ghost predicate Allows(rule: Rule, s: State, a: Action) {
    match rule
    case Any => true
    case SafeStarts => SafeStart(s, a)
    case OneAtATime => Disciplined(s, a)
  }

  ghost predicate RunTo(ss: seq<State>, acts: seq<Action>, rule: Rule, s: State) {
    Run(ss, acts) && ss[|acts|] == s && forall i :: 0 <= i < |acts| ==> Allows(rule, ss[i], acts[i])
  }

  /** Some run by the rule ends in s. */
  ghost predicate Reaches(rule: Rule, s: State) {
    exists ss, acts :: RunTo(ss, acts, rule, s)
  }

  lemma Then(rule: Rule, s: State, a: Action, s': State)
    requires Reaches(rule, s) && Enabled(s, a) && s' == Step(s, a) && Allows(rule, s, a)
    ensures Reaches(rule, s')
  {
    hide Step, Enabled, Allows;
    var ss, acts :| RunTo(ss, acts, rule, s);
    var ss', acts' := ss + [s'], acts + [a];
    assert forall i :: 0 <= i < |ss| ==> ss'[i] == ss[i];
    assert forall i :: 0 <= i < |acts| ==> acts'[i] == acts[i];
    assert RunTo(ss', acts', rule, s');
  }

  lemma Goes(rule: Rule, s: State, t: Tid, s': State)
    requires Reaches(rule, s) && Enabled(s, Go(t, ENV)) && s' == Step(s, Go(t, ENV))
    requires rule == SafeStarts ==> SafeStart(s, Go(t, ENV))
    ensures Reaches(rule, s')
  {
    hide Step, Enabled, SafeStart;
    Then(rule, s, Go(t, ENV), s');
  }

  lemma Begin(rule: Rule)
    ensures Reaches(rule, INIT)
  {
    assert RunTo([INIT], [], rule, INIT);
  }

  // Thread 1 is the worker; the clock stands at 0.
  const ENV := Env(0, 1, false)

  const NO_TASKS := INIT.q
  const ONE_TASK := Queue([0], map[0 := TaskRec(0, true)], 1, [], [], {}, {})
  const DROPPED := Queue([], map[], 1, [], [0], {}, {0})

  const FRESH := Flags(false, None, true, false)
  const CREATED := Flags(false, Some(1), true, false)
  const UP := Flags(true, Some(1), false, true)
  const DOWN := Flags(false, Some(1), false, true)

  const AT_CREATED := State(Live, Some(0), map[0 := Control(StartClearExit), 1 := Worker(CheckExit)], CREATED, NO_TASKS)

  lemma ToCreated(rule: Rule)
    requires Reaches(rule, INIT)
    ensures Reaches(rule, AT_CREATED)
  {
    hide Reaches;
    var s1 := State(Live, None, map[0 := Control(StartWant)], FRESH, NO_TASKS);
    Then(rule, INIT, CallStart(0), s1);
    var s2 := State(Live, Some(0), map[0 := Control(Start)], FRESH, NO_TASKS);
    Goes(rule, s1, 0, s2);
    Goes(rule, s2, 0, AT_CREATED);
  }

  const AT_UNSEEN := State(Live, Some(0), map[0 := Control(StartSetStarted), 1 := Worker(WantClose)], DOWN, NO_TASKS)

  lemma ToUnseen()
    requires Reaches(OneAtATime, AT_CREATED)
    ensures Reaches(OneAtATime, AT_UNSEEN)
  {
    hide Reaches;
    var s1 := State(Live, Some(0), map[0 := Control(StartClearExit), 1 := Worker(WantClose)], CREATED, NO_TASKS);
    Goes(OneAtATime, AT_CREATED, 1, s1);
    var s2 := State(Live, Some(0),
      map[0 := Control(StartSetRunning), 1 := Worker(WantClose)], CREATED.(exitPending := false), NO_TASKS);
    Goes(OneAtATime, s1, 0, s2);
    Goes(OneAtATime, s2, 0, AT_UNSEEN);
  }

  const AT_ORPHANED := State(Live, Some(1), map[1 := Worker(Closing)], UP, NO_TASKS)

  const AT_UNSEEN_LEAVING :=
    State(Live, Some(0), map[0 := Control(StartLeave), 1 := Worker(WantClose)], UP, NO_TASKS)

  lemma ToUnseenLeaving()
    requires Reaches(OneAtATime, AT_UNSEEN)
    ensures Reaches(OneAtATime, AT_UNSEEN_LEAVING)
  {
    hide Reaches;
    Goes(OneAtATime, AT_UNSEEN, 0, AT_UNSEEN_LEAVING);
  }

  lemma ToOrphaned()
    requires Reaches(OneAtATime, AT_UNSEEN_LEAVING)
    ensures Reaches(OneAtATime, AT_ORPHANED)
  {
    hide Reaches;
    var s1 := State(Live, None, map[1 := Worker(WantClose)], UP, NO_TASKS);
    Goes(OneAtATime, AT_UNSEEN_LEAVING, 0, s1);
    Goes(OneAtATime, s1, 1, AT_ORPHANED);
  }

  const AT_ENDING := State(Live, None, map[1 := Worker(ClearRunning)], Flags(true, None, true, true), NO_TASKS)

  lemma ToEnding()
    requires Reaches(OneAtATime, AT_ORPHANED)
    ensures Reaches(OneAtATime, AT_ENDING)
  {
    hide Reaches;
    var s1 := State(Live, None, map[1 := Worker(ClearTid)], UP, NO_TASKS);
    Goes(OneAtATime, AT_ORPHANED, 1, s1);
    var s2 := State(Live, None, map[1 := Worker(SetExit)], UP.(tid := None), NO_TASKS);
    Goes(OneAtATime, s1, 1, s2);
    Goes(OneAtATime, s2, 1, AT_ENDING);
  }

  const AT_LOST := State(Live, None, map[], Flags(true, None, true, false), NO_TASKS)

  lemma ToLost()
    requires Reaches(OneAtATime, AT_ENDING)
    ensures Reaches(OneAtATime, AT_LOST)
  {
    hide Reaches;
    Goes(OneAtATime, AT_ENDING, 1, AT_LOST);
  }

  /** A start that returns AWE_OK whose worker looked at _exit_pending before the starter had
      cleared it: the looper counts as started and has no worker. */
  lemma StartMayLoseItsWorker()
    ensures exists s :: Reaches(OneAtATime, s) && s.flags.started && s.pcs == map[]
  {
    Begin(OneAtATime);
    ToCreated(OneAtATime);
    ToUnseen();
    ToUnseenLeaving();
    ToOrphaned();
    ToEnding();
    ToLost();
  }

  const AT_RAISED := State(Live, Some(0), map[0 := Control(StartSetStarted), 1 := Worker(CheckExit)], DOWN, NO_TASKS)

  lemma ToRaised(rule: Rule)
    requires Reaches(rule, AT_CREATED)
    ensures Reaches(rule, AT_RAISED)
  {
    hide Reaches;
    var s1 := State(Live, Some(0),
      map[0 := Control(StartSetRunning), 1 := Worker(CheckExit)], CREATED.(exitPending := false), NO_TASKS);
    Goes(rule, AT_CREATED, 0, s1);
    Goes(rule, s1, 0, AT_RAISED);
  }

  const AT_STARTED := State(Live, None, map[1 := Worker(CheckExit)], UP, NO_TASKS)

  lemma ToStarted(rule: Rule)
    requires Reaches(rule, AT_RAISED)
    ensures Reaches(rule, AT_STARTED)
  {
    hide Reaches;
    var s1 := State(Live, Some(0), map[0 := Control(StartLeave), 1 := Worker(CheckExit)], UP, NO_TASKS);
    Goes(rule, AT_RAISED, 0, s1);
    Goes(rule, s1, 0, AT_STARTED);
  }

  const AT_STOP_ENTERED := State(Live, Some(2), map[1 := Worker(CheckExit), 2 := Control(Stop(false))], UP, NO_TASKS)

  lemma ToStopEntered(rule: Rule)
    requires Reaches(rule, AT_STARTED)
    ensures Reaches(rule, AT_STOP_ENTERED)
  {
    hide Reaches;
    var s1 := State(Live, None, map[1 := Worker(CheckExit), 2 := Control(StopWant(false))], UP, NO_TASKS);
    Then(rule, AT_STARTED, CallStop(2, false), s1);
    Goes(rule, s1, 2, AT_STOP_ENTERED);
  }

  const AT_STOPPING := State(Live, None, map[1 := Worker(CheckExit), 2 := Control(StopRequest(false))], DOWN, NO_TASKS)

  lemma ToStopping(rule: Rule)
    requires Reaches(rule, AT_STOP_ENTERED)
    ensures Reaches(rule, AT_STOPPING)
  {
    hide Reaches;
    var s1 := State(Live, Some(2), map[1 := Worker(CheckExit), 2 := Control(StopRelease(false))], DOWN, NO_TASKS);
    Goes(rule, AT_STOP_ENTERED, 2, s1);
    Goes(rule, s1, 2, AT_STOPPING);
  }

  lemma StopUnderWay(rule: Rule)
    ensures Reaches(rule, AT_STOPPING)
  {
    Begin(rule);
    ToCreated(rule);
    ToRaised(rule);
    ToStarted(rule);
    ToStopEntered(rule);
    ToStopping(rule);
  }

  const AT_SECOND_STOP := State(Live, Some(3),
      map[1 := Worker(CheckExit), 2 := Control(StopRequest(false)), 3 := Control(StopLeaveEarly(false))],
      DOWN, NO_TASKS)

  lemma ToSecondStop()
    requires Reaches(Any, AT_STOPPING)
    ensures Reaches(Any, AT_SECOND_STOP)
  {
    hide Reaches;
    var s1 := State(Live, None,
      map[1 := Worker(CheckExit), 2 := Control(StopRequest(false)), 3 := Control(StopWant(false))], DOWN, NO_TASKS);
    Then(Any, AT_STOPPING, CallStop(3, false), s1);
    var s2 := State(Live, Some(3),
      map[1 := Worker(CheckExit), 2 := Control(StopRequest(false)), 3 := Control(Stop(false))], DOWN, NO_TASKS);
    Goes(Any, s1, 3, s2);
    Goes(Any, s2, 3, AT_SECOND_STOP);
  }

  /** A stop that overlaps another stop returns at once, with the worker still in its loop. */
  lemma OverlappingStopReturnsEarly()
    ensures exists s :: Reaches(Any, s) && StopReturns(s, Go(3, ENV)) && 1 in s.pcs && s.pcs[1] == Worker(CheckExit)
  {
    StopUnderWay(Any);
    ToSecondStop();
    assert StopReturns(AT_SECOND_STOP, Go(3, ENV));
  }

  const AT_RESTART := State(Live, Some(3),
      map[1 := Worker(CheckExit), 2 := Control(StopRequest(false)), 3 := Control(Start)], DOWN, NO_TASKS)

  lemma ToRestart()
    requires Reaches(Any, AT_STOPPING)
    ensures Reaches(Any, AT_RESTART)
  {
    hide Reaches;
    var s1 := State(Live, None,
      map[1 := Worker(CheckExit), 2 := Control(StopRequest(false)), 3 := Control(StartWant)], DOWN, NO_TASKS);
    Then(Any, AT_STOPPING, CallStart(3), s1);
    Goes(Any, s1, 3, AT_RESTART);
  }

  const AT_ABORTED := State(Aborted, Some(3),
      map[1 := Worker(CheckExit), 2 := Control(StopRequest(false)), 3 := Control(Start)], DOWN, NO_TASKS)

  lemma ToAborted()
    requires Reaches(Any, AT_RESTART)
    ensures Reaches(Any, AT_ABORTED)
  {
    hide Reaches;
    Then(Any, AT_RESTART, Go(3, Env(0, 4, false)), AT_ABORTED);
  }

  /** A start that overlaps a stop trips ALOG_ASSERT although pthread_create would have succeeded. */
  lemma OverlappingStartAborts()
    ensures exists s :: Reaches(Any, s) && s.status == Aborted
  {
    StopUnderWay(Any);
    ToRestart();
    ToAborted();
  }

  const GONE := Flags(false, None, true, true)

  const AT_LATE_START := State(Live, Some(3),
      map[1 := Worker(SetExit), 2 := Control(StopWait(false)), 3 := Control(Start)], GONE, NO_TASKS)

  const AT_WANT_CLOSE := State(Live, None, map[1 := Worker(WantClose), 2 := Control(StopWait(false))],
                             DOWN.(exitPending := true), NO_TASKS)

  lemma ToWantClose()
    requires Reaches(Any, AT_STOPPING)
    ensures Reaches(Any, AT_WANT_CLOSE)
  {
    hide Reaches;
    var s1 := State(Live, None,
      map[1 := Worker(CheckExit), 2 := Control(StopWait(false))], DOWN.(exitPending := true), NO_TASKS);
    Goes(Any, AT_STOPPING, 2, s1);
    Goes(Any, s1, 1, AT_WANT_CLOSE);
  }

  const AT_CLOSED := State(Live, None, map[1 := Worker(ClearTid), 2 := Control(StopWait(false))],
                          DOWN.(exitPending := true), NO_TASKS)

  lemma ToClosed()
    requires Reaches(Any, AT_WANT_CLOSE)
    ensures Reaches(Any, AT_CLOSED)
  {
    hide Reaches;
    var s1 := State(Live, Some(1),
      map[1 := Worker(Closing), 2 := Control(StopWait(false))], DOWN.(exitPending := true), NO_TASKS);
    Goes(Any, AT_WANT_CLOSE, 1, s1);
    Goes(Any, s1, 1, AT_CLOSED);
  }

  lemma ToLateStart()
    requires Reaches(Any, AT_CLOSED)
    ensures Reaches(Any, AT_LATE_START)
  {
    hide Reaches;
    var s1 := State(Live, None, map[1 := Worker(SetExit), 2 := Control(StopWait(false))], GONE, NO_TASKS);
    Goes(Any, AT_CLOSED, 1, s1);
    var s2 := State(Live, None,
      map[1 := Worker(SetExit), 2 := Control(StopWait(false)), 3 := Control(StartWant)], GONE, NO_TASKS);
    Then(Any, s1, CallStart(3), s2);
    Goes(Any, s2, 3, AT_LATE_START);
  }

  lemma LateStartIsUnsafe()
    ensures Single(AT_LATE_START.pcs, AT_LATE_START.lock, AT_LATE_START.flags)
    ensures Enabled(AT_LATE_START, Go(3, Env(0, 4, false))) && Starting(AT_LATE_START, Go(3, Env(0, 4, false)))
    ensures AT_LATE_START.flags.running && AT_LATE_START.flags.tid.None?
  {}

  /** A start that overlaps the end of a stop: the old worker lowers the flag of the new one, which
      stays in its loop with _running down. */
  lemma OverlappingStartLosesItsFlag()
    ensures exists s, w :: Reaches(Any, s) && FlagStuck(s, w)
  {
    StopUnderWay(Any);
    ToWantClose();
    ToClosed();
    ToLateStart();
    LateStartIsUnsafe();
    hide Leads, FlagStuck, Single, Starting, Enabled;
    var ss, acts :| RunTo(ss, acts, Any, AT_LATE_START);
    RunInv(ss, acts, |acts|);
    OldWorkerLowersNewFlag(AT_LATE_START, Go(3, Env(0, 4, false)));
    var more, t :| Leads(AT_LATE_START, more, t) && FlagStuck(t, 4);
    ReachesOn(AT_LATE_START, more, t);
  }

  lemma {:induction false} ReachesOn(s: State, acts: seq<Action>, t: State)
    requires Reaches(Any, s) && Leads(s, acts, t)
    ensures Reaches(Any, t)
    decreases |acts|
  {
    hide Reaches, Enabled, Step;
    if acts != [] {
      Then(Any, s, acts[0], Step(s, acts[0]));
      ReachesOn(Step(s, acts[0]), acts[1..], t);
    }
  }

  // a stopper halts before its late write, and a new start comes in between

  const AT_LATE_A := State(Live, Some(1), map[1 := Worker(InnerTest), 2 := Control(StopRequest(false))], DOWN, NO_TASKS)

  lemma ToLateA()
    requires Reaches(SafeStarts, AT_STOPPING)
    ensures Reaches(SafeStarts, AT_LATE_A)
  {
    hide Reaches;
    var s1 := State(Live, None, map[1 := Worker(WantInner), 2 := Control(StopRequest(false))], DOWN, NO_TASKS);
    Goes(SafeStarts, AT_STOPPING, 1, s1);
    Goes(SafeStarts, s1, 1, AT_LATE_A);
  }

  const AT_LATE_B := State(Live, None, map[1 := Worker(WantClose), 2 := Control(StopRequest(false))], DOWN, NO_TASKS)

  lemma ToLateB()
    requires Reaches(SafeStarts, AT_LATE_A)
    ensures Reaches(SafeStarts, AT_LATE_B)
  {
    hide Reaches;
    var s1 := State(Live, None, map[1 := Worker(CheckStarted), 2 := Control(StopRequest(false))], DOWN, NO_TASKS);
    Goes(SafeStarts, AT_LATE_A, 1, s1);
    Goes(SafeStarts, s1, 1, AT_LATE_B);
  }

  const AT_LATE_C := State(Live, None, map[1 := Worker(ClearTid), 2 := Control(StopRequest(false))], DOWN, NO_TASKS)

  lemma ToLateC()
    requires Reaches(SafeStarts, AT_LATE_B)
    ensures Reaches(SafeStarts, AT_LATE_C)
  {
    hide Reaches;
    var s1 := State(Live, Some(1), map[1 := Worker(Closing), 2 := Control(StopRequest(false))], DOWN, NO_TASKS);
    Goes(SafeStarts, AT_LATE_B, 1, s1);
    Goes(SafeStarts, s1, 1, AT_LATE_C);
  }

  const AT_LATE_D := State(Live, None, map[1 := Worker(ClearRunning), 2 := Control(StopRequest(false))], GONE, NO_TASKS)

  lemma ToLateD()
    requires Reaches(SafeStarts, AT_LATE_C)
    ensures Reaches(SafeStarts, AT_LATE_D)
  {
    hide Reaches;
    var s1 := State(Live, None,
      map[1 := Worker(SetExit), 2 := Control(StopRequest(false))], DOWN.(tid := None), NO_TASKS);
    Goes(SafeStarts, AT_LATE_C, 1, s1);
    Goes(SafeStarts, s1, 1, AT_LATE_D);
  }

  const AT_LATE_E := State(Live, None, map[2 := Control(StopRequest(false)), 3 := Control(StartWant)], FRESH, NO_TASKS)

  lemma ToLateE()
    requires Reaches(SafeStarts, AT_LATE_D)
    ensures Reaches(SafeStarts, AT_LATE_E)
  {
    hide Reaches;
    var s1 := State(Live, None, map[2 := Control(StopRequest(false))], FRESH, NO_TASKS);
    Goes(SafeStarts, AT_LATE_D, 1, s1);
    Then(SafeStarts, s1, CallStart(3), AT_LATE_E);
  }

  const AT_LATE_F := State(Live, Some(3),
      map[1 := Worker(CheckExit), 2 := Control(StopRequest(false)), 3 := Control(StartClearExit)], CREATED, NO_TASKS)

  lemma ToLateF()
    requires Reaches(SafeStarts, AT_LATE_E)
    ensures Reaches(SafeStarts, AT_LATE_F)
  {
    hide Reaches;
    var s1 := State(Live, Some(3), map[2 := Control(StopRequest(false)), 3 := Control(Start)], FRESH, NO_TASKS);
    Goes(SafeStarts, AT_LATE_E, 3, s1);
    Goes(SafeStarts, s1, 3, AT_LATE_F);
  }

  const AT_LATE_G := State(Live, Some(3),
      map[1 := Worker(CheckExit), 2 := Control(StopRequest(false)), 3 := Control(StartSetStarted)], DOWN, NO_TASKS)

  lemma ToLateG()
    requires Reaches(SafeStarts, AT_LATE_F)
    ensures Reaches(SafeStarts, AT_LATE_G)
  {
    hide Reaches;
    var s1 := State(Live, Some(3),
      map[1 := Worker(CheckExit), 2 := Control(StopRequest(false)), 3 := Control(StartSetRunning)],
      CREATED.(exitPending := false), NO_TASKS);
    Goes(SafeStarts, AT_LATE_F, 3, s1);
    Goes(SafeStarts, s1, 3, AT_LATE_G);
  }

  const AT_LATE_H := State(Live, None, map[1 := Worker(CheckExit), 2 := Control(StopRequest(false))], UP, NO_TASKS)

  lemma ToLateH()
    requires Reaches(SafeStarts, AT_LATE_G)
    ensures Reaches(SafeStarts, AT_LATE_H)
  {
    hide Reaches;
    var s1 := State(Live, Some(3),
      map[1 := Worker(CheckExit), 2 := Control(StopRequest(false)), 3 := Control(StartLeave)], UP, NO_TASKS);
    Goes(SafeStarts, AT_LATE_G, 3, s1);
    Goes(SafeStarts, s1, 3, AT_LATE_H);
  }

  const AT_LATE_I := State(Live, None,
      map[1 := Worker(WantClose), 2 := Control(StopWait(false))], UP.(exitPending := true), NO_TASKS)

  lemma ToLateI()
    requires Reaches(SafeStarts, AT_LATE_H)
    ensures Reaches(SafeStarts, AT_LATE_I)
  {
    hide Reaches;
    var s1 := State(Live, None,
      map[1 := Worker(CheckExit), 2 := Control(StopWait(false))], UP.(exitPending := true), NO_TASKS);
    Goes(SafeStarts, AT_LATE_H, 2, s1);
    Goes(SafeStarts, s1, 1, AT_LATE_I);
  }

  const AT_LATE_J := State(Live, None,
      map[1 := Worker(ClearTid), 2 := Control(StopWait(false))], UP.(exitPending := true), NO_TASKS)

  lemma ToLateJ()
    requires Reaches(SafeStarts, AT_LATE_I)
    ensures Reaches(SafeStarts, AT_LATE_J)
  {
    hide Reaches;
    var s1 := State(Live, Some(1),
      map[1 := Worker(Closing), 2 := Control(StopWait(false))], UP.(exitPending := true), NO_TASKS);
    Goes(SafeStarts, AT_LATE_I, 1, s1);
    Goes(SafeStarts, s1, 1, AT_LATE_J);
  }

  const AT_LATE_K := State(Live, None,
      map[1 := Worker(ClearRunning), 2 := Control(StopWait(false))], Flags(true, None, true, true), NO_TASKS)

  lemma ToLateK()
    requires Reaches(SafeStarts, AT_LATE_J)
    ensures Reaches(SafeStarts, AT_LATE_K)
  {
    hide Reaches;
    var s1 := State(Live, None,
      map[1 := Worker(SetExit), 2 := Control(StopWait(false))], Flags(true, None, true, true), NO_TASKS);
    Goes(SafeStarts, AT_LATE_J, 1, s1);
    Goes(SafeStarts, s1, 1, AT_LATE_K);
  }

  const AT_LATE_L := State(Live, Some(2), map[2 := Control(StopTest(false))], Flags(true, None, true, false), NO_TASKS)

  lemma ToLateL()
    requires Reaches(SafeStarts, AT_LATE_K)
    ensures Reaches(SafeStarts, AT_LATE_L)
  {
    hide Reaches;
    var s1 := State(Live, None, map[2 := Control(StopWait(false))], Flags(true, None, true, false), NO_TASKS);
    Goes(SafeStarts, AT_LATE_K, 1, s1);
    Goes(SafeStarts, s1, 2, AT_LATE_L);
  }

  lemma ToLateEnd()
    requires Reaches(SafeStarts, AT_LATE_L)
    ensures Reaches(SafeStarts, AT_LOST)
  {
    hide Reaches;
    var s1 := State(Live, Some(2), map[2 := Control(StopDone(false))], Flags(true, None, true, false), NO_TASKS);
    Goes(SafeStarts, AT_LATE_L, 2, s1);
    Goes(SafeStarts, s1, 2, AT_LOST);
  }

  /** A start whose worker the overlapping stop sends away, although it found both flags down: the
      looper counts as started and has no thread at all. */
  lemma LateStopLosesNewWorker()
    ensures exists s :: Reaches(SafeStarts, s) && s.flags.started && s.pcs == map[]
  {
    StopUnderWay(SafeStarts);
    ToLateA();
    ToLateB();
    ToLateC();
    ToLateD();
    ToLateE();
    ToLateF();
    ToLateG();
    ToLateH();
    ToLateI();
    ToLateJ();
    ToLateK();
    ToLateL();
    ToLateEnd();
    assert AT_LOST.flags.started && AT_LOST.pcs == map[];
  }

  const AT_POST_ENTERED := State(Live, Some(2), map[1 := Worker(CheckExit), 2 := Client(Post(0))], UP, NO_TASKS)

  lemma ToPostEntered()
    requires Reaches(Any, AT_STARTED)
    ensures Reaches(Any, AT_POST_ENTERED)
  {
    hide Reaches;
    var s1 := State(Live, None, map[1 := Worker(CheckExit), 2 := Client(PostWant(0))], UP, NO_TASKS);
    Then(Any, AT_STARTED, CallPost(2, 0), s1);
    Goes(Any, s1, 2, AT_POST_ENTERED);
  }

  const AT_POSTED := State(Live, None, map[1 := Worker(CheckExit)], UP, ONE_TASK)

  lemma ToPosted()
    requires Reaches(Any, AT_POST_ENTERED)
    ensures Reaches(Any, AT_POSTED)
  {
    hide Reaches;
    var s1 := State(Live, Some(2), map[1 := Worker(CheckExit), 2 := Client(Leave)], UP, ONE_TASK);
    Goes(Any, AT_POST_ENTERED, 2, s1);
    Goes(Any, s1, 2, AT_POSTED);
  }

  const AT_FOUND := State(Live, None, map[1 := Worker(CheckStarted)], UP, ONE_TASK)

  lemma ToFound()
    requires Reaches(Any, AT_POSTED)
    ensures Reaches(Any, AT_FOUND)
  {
    hide Reaches;
    var s1 := State(Live, None, map[1 := Worker(WantInner)], UP, ONE_TASK);
    Goes(Any, AT_POSTED, 1, s1);
    var s2 := State(Live, Some(1), map[1 := Worker(InnerTest)], UP, ONE_TASK);
    Goes(Any, s1, 1, s2);
    Goes(Any, s2, 1, AT_FOUND);
  }

  const AT_PICKING := State(Live, None, map[1 := Worker(WantPick), 3 := Control(ClearWant(false))], UP, ONE_TASK)

  lemma ToPicking()
    requires Reaches(Any, AT_FOUND)
    ensures Reaches(Any, AT_PICKING)
  {
    hide Reaches;
    var s1 := State(Live, None, map[1 := Worker(WantPick)], UP, ONE_TASK);
    Goes(Any, AT_FOUND, 1, s1);
    Then(Any, s1, CallClear(3), AT_PICKING);
  }

  const AT_CLEARING := State(Live, Some(3), map[1 := Worker(WantPick), 3 := Control(ClearAll(false))], UP, ONE_TASK)

  lemma ToClearing()
    requires Reaches(Any, AT_PICKING)
    ensures Reaches(Any, AT_CLEARING)
  {
    hide Reaches;
    Goes(Any, AT_PICKING, 3, AT_CLEARING);
  }

  const AT_EMPTIED := State(Live, Some(3), map[1 := Worker(WantPick), 3 := Control(ClearLeave(false))], UP, DROPPED)

  lemma ToEmptied()
    requires Reaches(Any, AT_CLEARING)
    ensures Reaches(Any, AT_EMPTIED)
  {
    hide Reaches;
    Goes(Any, AT_CLEARING, 3, AT_EMPTIED);
  }

  const AT_CRASHED := State(Crashed, Some(1), map[1 := Worker(PickFirst)], UP, DROPPED)

  lemma ToCrashed()
    requires Reaches(Any, AT_EMPTIED)
    ensures Reaches(Any, AT_CRASHED)
  {
    hide Reaches;
    var s1 := State(Live, None, map[1 := Worker(WantPick)], UP, DROPPED);
    Goes(Any, AT_EMPTIED, 3, s1);
    var s2 := State(Live, Some(1), map[1 := Worker(PickFirst)], UP, DROPPED);
    Goes(Any, s1, 1, s2);
    Goes(Any, s2, 1, AT_CRASHED);
  }

  /** A clear while the worker runs empties the list the worker has just found non-empty. */
  lemma ClearWhileRunningCrashes()
    ensures exists s :: Reaches(Any, s) && s.status == Crashed
  {
    Begin(Any);
    ToCreated(Any);
    ToRaised(Any);
    ToStarted(Any);
    ToPostEntered();
    ToPosted();
    ToFound();
    ToPicking();
    ToClearing();
    ToEmptied();
    ToCrashed();
  }
}
