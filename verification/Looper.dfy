/**
  The timed-task looper as a concurrent protocol: one worker thread and any
  number of client and control threads, cut into atomic steps at every lock,
  unlock, wait and unlocked read (src/looper.c, src/unix/thread.c).

  A condition wait gives the mutex up and later takes it again; it may wake at
  any moment, so signals carry no information here.  The clock is an arbitrary
  input of each step that reads it.
 */
module Looper {

  import opened Common
  import opened TimedOrder

  type Tid = nat
  type TaskId = nat

  datatype TaskRec = TaskRec(deadline: int, valid: bool)

  /** Crashed: a record that does not exist was read.  Aborted: ALOG_ASSERT stopped the process. */
  datatype Status = Live | Crashed | Aborted | Destroyed

  // ---- program counters ----

  /** looper_thread_process (src/looper.c:34-76) and the end of dummy_worker (src/unix/thread.c:65-70). */
  datatype WorkerPc =
    | CheckExit | WantInner | InnerTest | InnerWait | CheckStarted
    | WantPick | PickFirst | TimedWait | AfterWait
    | TestState(task: TaskId) | InProc(task: TaskId) | FreeTask(task: TaskId)
    | WantClose | Closing | ClearTid | SetExit | ClearRunning
  {
    predicate Wanting() { WantInner? || InnerWait? || WantPick? || TimedWait? || WantClose? }

    predicate Holding() { InnerTest? || PickFirst? || AfterWait? || Closing? }

    /** Its thread id is still recorded. */
    predicate Active() { !SetExit? && !ClearRunning? }

    predicate HasTask() { TestState? || InProc? || FreeTask? }

    /** It has not yet taken the mutex for the first time. */
    predicate Newborn() { CheckExit? || WantInner? || WantClose? }
  }

  /** awe_looper_post and awe_looper_cancel (src/looper.c:155-183). */
  datatype ClientPc = PostWant(delay: int) | Post(delay: int) | CancelWant(id: TaskId) | Cancel(id: TaskId) | Leave
  {
    predicate Wanting() { PostWant? || CancelWant? }

    predicate Holding() { !Wanting() }
  }

  /** awe_looper_start around awe_thread_start, awe_looper_stop, and awe_looper_clear
      (src/looper.c:117-153, 185-189, src/unix/thread.c:97-142); awe_looper_destroy is a stop that goes on
      to a clear (src/looper.c:95-99). */
  datatype ControlPc =
    | StartWant | Start | StartClearExit | StartSetRunning | StartSetStarted | StartLeave
    | StopWant(destroy: bool) | Stop(destroy: bool) | StopLeaveEarly(destroy: bool)
    | StopRelease(destroy: bool) | StopRequest(destroy: bool)
    | StopWait(destroy: bool) | StopTest(destroy: bool) | StopDone(destroy: bool)
    | ClearWant(destroy: bool) | ClearAll(destroy: bool) | ClearLeave(destroy: bool)
  {
    predicate Wanting() { StartWant? || StopWant? || StopWait? || ClearWant? }

    predicate Holding() { !Wanting() && !StopRequest? }

    /** A starter between creating the thread and recording that the looper is started. */
    predicate StartWindow() { StartClearExit? || StartSetRunning? || StartSetStarted? }
  }

  datatype Pc = Worker(w: WorkerPc) | Client(c: ClientPc) | Control(k: ControlPc)
  {
    predicate Wanting() {
      match this
      case Worker(w) => w.Wanting()
      case Client(c) => c.Wanting()
      case Control(k) => k.Wanting()
    }

    predicate Holding() {
      match this
      case Worker(w) => w.Holding()
      case Client(c) => c.Holding()
      case Control(k) => k.Holding()
    }
  }

  /** struct awe_looper's _started and struct awe_thread's fields; tid is None when _tid is 0. */
  datatype Flags = Flags(started: bool, tid: Option<Tid>, exitPending: bool, running: bool)

  /** The task list, the allocated task records, and what has happened so far.
      Every task ever accepted is below nextId, and ids follow the posting order. */
  datatype Queue = Queue(
    list: seq<TaskId>,
    mem: map<TaskId, TaskRec>,
    nextId: nat,
    ran: seq<TaskId>,
    freed: seq<TaskId>,
    cancelled: set<TaskId>,
    cleared: set<TaskId>)

  /** pcs holds the threads that are inside a looper function. */
  datatype State = State(status: Status, lock: Option<Tid>, pcs: map<Tid, Pc>, flags: Flags, q: Queue)

  const INIT := State(Live, None, map[], Flags(false, None, true, false), Queue([], map[], 0, [], [], {}, {}))

  /** What one step takes from outside: the clock, the identity of a new thread,
      and whether pthread_create fails. */
  datatype Env = Env(now: int, newTid: Tid, createFails: bool)

  datatype Action =
    | CallPost(t: Tid, delay: int)
    | CallCancel(t: Tid, id: TaskId)
    | CallStart(t: Tid)
    | CallStop(t: Tid, destroy: bool)
    | CallClear(t: Tid)
    | Go(t: Tid, env: Env)

  predicate Enabled(s: State, a: Action) {
    && s.status == Live
    && match a
       case Go(t, env) =>
         && t in s.pcs
         && (s.pcs[t].Wanting() ==> s.lock == None)
         && (s.pcs[t] == Control(Start) ==> env.newTid !in s.pcs)
       case _ => a.t !in s.pcs
  }

  function Step(s: State, a: Action): State
    requires Enabled(s, a)
  {
    match a
    case CallPost(t, delay) => s.(pcs := s.pcs[t := Client(PostWant(delay))])
    case CallCancel(t, id) => s.(pcs := s.pcs[t := Client(CancelWant(id))])
    case CallStart(t) => s.(pcs := s.pcs[t := Control(StartWant)])
    case CallStop(t, destroy) => s.(pcs := s.pcs[t := Control(StopWant(destroy))])
    case CallClear(t) => s.(pcs := s.pcs[t := Control(ClearWant(false))])
    case Go(t, env) =>
      var pc := s.pcs[t];
      if Fault(s, pc, env) != Live then s.(status := Fault(s, pc, env))
      else State(
          if pc == Control(ClearLeave(true)) then Destroyed else Live,
          NextLock(s, t), Advance(s.pcs, t, Next(s, pc, env), env.newTid),
          NextFlags(s.flags, pc, env), NextQueue(s, pc, env))
  }

  /** A starter that goes on to the flags has just created its worker. */
  function Advance(pcs: map<Tid, Pc>, t: Tid, next: Option<Pc>, newTid: Tid): map<Tid, Pc> {
    match next
    case None => pcs - {t}
    case Some(pc) => if pc == Control(StartClearExit) then pcs[t := pc][newTid := Worker(CheckExit)] else pcs[t := pc]
  }

  /** The first task of an empty list and the fields of a freed task cannot be read; starting a
      thread whose id is still recorded, or failing to create one, trips ALOG_ASSERT. */
  function Fault(s: State, pc: Pc, env: Env): Status {
    match pc
    case Worker(PickFirst) => if s.q.list == [] || s.q.list[0] !in s.q.mem then Crashed else Live
    case Worker(TestState(id)) => if id !in s.q.mem then Crashed else Live
    case Worker(FreeTask(id)) => if id !in s.q.mem then Crashed else Live
    case Client(Cancel(id)) => if s.flags.started && id in s.q.list && id !in s.q.mem then Crashed else Live
    case Control(Start) =>
      if !s.flags.started && (s.flags.tid.Some? || env.createFails) then Aborted else Live
    case _ => Live
  }

  /** Where a thread goes next; None when it leaves the looper's code. */
  function Next(s: State, pc: Pc, env: Env): Option<Pc> {
    match pc
    case Worker(ClearRunning) => None
    case Worker(w) => Some(Worker(WorkerNext(s, w, env)))
    case Client(PostWant(delay)) => Some(Client(Post(delay)))
    case Client(CancelWant(id)) => Some(Client(Cancel(id)))
    case Client(Leave) => None
    case Client(_) => Some(Client(Leave))
    case Control(StartLeave) => None
    case Control(ClearLeave(_)) => None
    case Control(StopLeaveEarly(d)) => if d then Some(Control(ClearWant(true))) else None
    case Control(StopDone(d)) => if d then Some(Control(ClearWant(true))) else None
    case Control(k) => Some(Control(ControlNext(s.flags, k)))
  }

  function WorkerNext(s: State, w: WorkerPc, env: Env): WorkerPc
    requires !w.ClearRunning?
  {
    match w
    case CheckExit => if s.flags.exitPending then WantClose else WantInner
    case WantInner => InnerTest
    case InnerWait => InnerTest
    case InnerTest => if s.flags.started && s.q.list == [] then InnerWait else CheckStarted
    case CheckStarted => if s.flags.started then WantPick else WantClose
    case WantPick => PickFirst
    case PickFirst => if FirstIsDue(s.q, env.now) then TestState(s.q.list[0]) else TimedWait
    case TimedWait => AfterWait
    case AfterWait => CheckExit
    case TestState(id) => if id in s.q.mem && s.q.mem[id].valid then InProc(id) else FreeTask(id)
    case InProc(id) => FreeTask(id)
    case FreeTask(id) => CheckExit
    case WantClose => Closing
    case Closing => ClearTid
    case ClearTid => SetExit
    case SetExit => ClearRunning
  }

  function ControlNext(f: Flags, k: ControlPc): ControlPc
    requires !k.StartLeave? && !k.ClearLeave? && !k.StopLeaveEarly? && !k.StopDone?
  {
    match k
    case StartWant => Start
    case Start => if f.started then StartLeave else StartClearExit
    case StartClearExit => StartSetRunning
    case StartSetRunning => StartSetStarted
    case StartSetStarted => StartLeave
    case StopWant(d) => Stop(d)
    case Stop(d) => if f.started then StopRelease(d) else StopLeaveEarly(d)
    case StopRelease(d) => StopRequest(d)
    case StopRequest(d) => StopWait(d)
    case StopWait(d) => StopTest(d)
    case StopTest(d) => if f.running then StopWait(d) else StopDone(d)
    case ClearWant(d) => ClearAll(d)
    case ClearAll(d) => ClearLeave(d)
  }

  predicate FirstIsDue(q: Queue, now: int) {
    q.list != [] && q.list[0] in q.mem && q.mem[q.list[0]].deadline - now <= 0
  }

  /** The steps that end with an unlock, or with the start of a wait. */
  predicate Unlocks(f: Flags, pc: Pc) {
    match pc
    case Worker(w) => w.Holding()
    case Client(c) => c.Leave?
    case Control(k) => k.StartLeave? || k.StopLeaveEarly? || k.StopRelease? || k.StopDone? || k.ClearLeave?
                       || (k.StopTest? && f.running)
  }

  function NextLock(s: State, t: Tid): Option<Tid>
    requires t in s.pcs
  {
    if s.pcs[t].Wanting() then Some(t) else if Unlocks(s.flags, s.pcs[t]) then None else s.lock
  }

  function NextFlags(f: Flags, pc: Pc, env: Env): Flags {
    match pc
    case Worker(ClearTid) => f.(tid := None)
    case Worker(SetExit) => f.(exitPending := true)
    case Worker(ClearRunning) => f.(running := false)
    case Control(Start) => if f.started then f else f.(tid := Some(env.newTid))
    case Control(StartClearExit) => f.(exitPending := false)
    case Control(StartSetRunning) => f.(running := true)
    case Control(StartSetStarted) => f.(started := true)
    case Control(Stop(_)) => f.(started := false)
    case Control(StopRequest(_)) => f.(exitPending := true)
    case _ => f
  }

  function NextQueue(s: State, pc: Pc, env: Env): Queue {
    match pc
    case Worker(PickFirst) => if FirstIsDue(s.q, env.now) then s.q.(list := s.q.list[1..]) else s.q
    case Worker(TestState(id)) => if id in s.q.mem && s.q.mem[id].valid then s.q.(ran := s.q.ran + [id]) else s.q
    case Worker(FreeTask(id)) => s.q.(mem := s.q.mem - {id}, freed := s.q.freed + [id])
    case Client(Post(delay)) => if s.flags.started then AcceptTask(s.q, env.now + delay) else s.q
    case Client(Cancel(id)) => if s.flags.started then CancelTask(s.q, id) else s.q
    case Control(ClearAll(_)) => ClearTasks(s.q)
    case _ => s.q
  }

  // ---- the list operations of src/timer_task.c:46-103 ----

  function Deadline(q: Queue, id: TaskId): int {
    if id in q.mem then q.mem[id].deadline else 0
  }

  function Keys(q: Queue): (keys: seq<int>)
    ensures |keys| == |q.list|
  {
    seq(|q.list|, i requires 0 <= i < |q.list| => Deadline(q, q.list[i]))
  }

  function AcceptTask(q: Queue, deadline: int): Queue {
    q.(list := InsertAt(q.list, InsertPos(Keys(q), deadline), q.nextId),
       mem := q.mem[q.nextId := TaskRec(deadline, true)],
       nextId := q.nextId + 1)
  }

  /** Only a task on the list is marked; then awe_looper_cancel returns AWE_OK. */
  function CancelTask(q: Queue, id: TaskId): Queue {
    if id in q.list && id in q.mem
    then q.(mem := q.mem[id := q.mem[id].(valid := false)], cancelled := q.cancelled + {id})
    else q
  }

  function ClearTasks(q: Queue): Queue {
    q.(list := [], mem := map id | id in q.mem && id !in q.list :: q.mem[id],
       freed := q.freed + q.list, cleared := q.cleared + set id | id in q.list)
  }
}
