/** The assertion in the connect handler of the UX connector (src/connector.c:113-227): it takes for
    granted that the timeout can still be cancelled. */
module UxConnectors {

  import opened Common
  import opened UxTable

  type TaskId = nat

  /** The callbacks that the connector registers; other numbers are the program's. */
  const CONNECTHANDLING: nat := 0
  const CONNECTTIMEOUT: nat := 1

  /** A listed timer task; a cancel marks it and leaves it listed. */
  datatype Task = Task(valid: bool, proc: nat)

  /** _uxconn with its descriptor, and _timeouttask_id. */
  datatype Conn = Conn(fd: Option<int>, timer: Option<TaskId>)

  /** The scheduler's _started, its event table and its timer tasks; the connector; whether its last open
      found the scheduler stopped; how many opens posted a timeout, how often the connector has answered,
      and how many opens were given up; whether the assertion has failed. */
  datatype State = State(started: bool, table: seq<Event>, tasks: map<TaskId, Task>, next: TaskId,
                         c: Conn, blind: bool, opens: nat, answers: nat, givenUp: nat, aborted: bool)

  const INIT := State(false, [], map[], 0, Conn(None, None), false, 0, 0, 0, false)

  // ---- what the connector uses of the scheduler ----

  function Posted(s: State, proc: nat): State {
    if s.started then s.(tasks := s.tasks[s.next := Task(true, proc)], next := s.next + 1) else s
  }

  function PostedId(s: State): Option<TaskId> {
    if s.started then Some(s.next) else None
  }

  predicate Cancellable(s: State, id: Option<TaskId>) {
    s.started && id.Some? && id.value in s.tasks
  }

  function Cancelled(s: State, id: Option<TaskId>): State {
    if Cancellable(s, id) then s.(tasks := s.tasks[id.value := s.tasks[id.value].(valid := false)]) else s
  }

  /** The connect handler is registered for ufd. */
  predicate Waits(s: State, ufd: int) {
    Lookup(s.table, ufd).Some? && Lookup(s.table, ufd).value.handler == CONNECTHANDLING
  }

  // ---- the connector ----

  function Closed(s: State): State {
    if s.c.fd.Some? then Cancelled(s.(table := Apply(s.table, Rm(s.c.fd.value))), s.c.timer) else s
  }

  /** A new connection with descriptor fd; ok: its opening has begun. */
  function Opened(s: State, fd: int, ok: bool): State {
    var s1 := s.(c := s.c.(fd := Some(fd)));
    if !ok then Closed(s1)
    else
      var s2 := Posted(s1, CONNECTTIMEOUT).(c := s1.c.(timer := PostedId(s1)), blind := !s1.started,
                                            opens := s1.opens + if s1.started then 1 else 0);
      s2.(table := Apply(s2.table, Add(fd, WRITE, CONNECTHANDLING)))
  }

  /** uxconnector_connecthandling for descriptor ufd. */
  function Connected(s: State, ufd: int): State {
    if !Cancellable(s, s.c.timer) then s.(aborted := true)
    else
      var s1 := Cancelled(s, s.c.timer);
      s1.(table := Apply(s1.table, Rm(ufd)), answers := s.answers + 1)
  }

  /** uxconnector_connecttimeout. */
  function TimedOut(s: State): State {
    Closed(s).(answers := s.answers + 1)
  }

  predicate Armed(s: State) {
    s.c.timer.Some? && s.c.timer.value in s.tasks && s.tasks[s.c.timer.value] == Task(true, CONNECTTIMEOUT)
  }

  /** A close by the program. */
  function GivenUp(s: State): State {
    Closed(s).(givenUp := s.givenUp + if s.c.fd.Some? && Armed(s) then 1 else 0)
  }

  /** Start and stop come from any thread at any moment; all else happens on the scheduler's thread. */
  datatype Step =
    | Start | Stop
    | Open(fd: int, ok: bool) | Close | Takeout | SetEventHandler(ufd: int, handler: nat)
    | OtherEvents(op: Op)
    | OtherPost(proc: nat) | OtherCancel(id: TaskId)
    | EventFires(ufd: int)
    | TaskDue(id: TaskId)

  /** Open asserts that there is no connection; the program leaves the connector's callbacks, its task
      and its descriptor to it; the scheduler calls what is registered and takes tasks that are listed. */
  predicate Enabled(s: State, e: Step) {
    && !s.aborted
    && match e
       case Open(fd, ok) => s.c.fd == None
       case SetEventHandler(ufd, handler) => handler > CONNECTTIMEOUT
       case OtherEvents(op) => op.Add? ==> op.handler > CONNECTTIMEOUT
       case OtherPost(proc) => proc > CONNECTTIMEOUT
       case OtherCancel(id) => s.c.timer != Some(id)
       case EventFires(ufd) => Lookup(s.table, ufd).Some?
       case TaskDue(id) => id in s.tasks
       case _ => true
  }

  function After(s: State, e: Step): State
    requires Enabled(s, e)
  {
    match e
    case Start => s.(started := true)
    case Stop => s.(started := false)
    case Open(fd, ok) => Opened(s, fd, ok)
    case Close => GivenUp(s)
    case Takeout => GivenUp(s).(c := s.c.(fd := None))
    case SetEventHandler(ufd, handler) => s.(table := Apply(s.table, Add(ufd, READ, handler)))
    case OtherEvents(op) => s.(table := Apply(s.table, op))
    case OtherPost(proc) => Posted(s, proc)
    case OtherCancel(id) => Cancelled(s, Some(id))
    case EventFires(ufd) => if Waits(s, ufd) then Connected(s, ufd) else s
    case TaskDue(id) =>
      var s1 := s.(tasks := s.tasks - {id});
      if s.tasks[id] == Task(true, CONNECTTIMEOUT) then TimedOut(s1) else s1
  }

  /** The connect handler is registered only for the connector's own descriptor, and then its timeout is
      listed and valid, unless the scheduler was stopped when the open posted it. */
  ghost predicate Inv(s: State) {
    && WellFormed(s.table)
    && (forall id :: id in s.tasks ==> id < s.next)
    && (forall ufd :: Waits(s, ufd) ==> s.c.fd == Some(ufd) && if s.blind then s.c.timer == None else Armed(s))
  }

  /** The entry of a descriptor after an operation, if it is the connect handler's. */
  lemma WaitsAfter(s: State, op: Op, s': State, ufd: int)
    requires WellFormed(s.table) && s'.table == Apply(s.table, op)
    ensures WellFormed(s'.table)
    ensures Waits(s', ufd) ==>
      (ufd == op.ufd && op.Add? && op.handler == CONNECTHANDLING) || (Waits(s, ufd) && !(op.Rm? && op.ufd == ufd))
  {
    ApplyUpdates(s.table, op);
    hide Apply, WellFormed, Lookup;
    assert Lookup(s'.table, ufd) == if ufd == op.ufd then Result(op, Lookup(s.table, ufd)) else Lookup(s.table, ufd);
  }

  lemma ClosedKeeps(s: State)
    requires WellFormed(s.table) && (forall id :: id in s.tasks ==> id < s.next)
    requires forall ufd :: Waits(s, ufd) ==> s.c.fd == Some(ufd)
    ensures Inv(Closed(s)) && forall ufd :: !Waits(Closed(s), ufd)
  {
    hide Apply, WellFormed, Lookup;
    if s.c.fd.Some? {
      WaitsAfter(s, Rm(s.c.fd.value), Closed(s), 0);
      forall ufd ensures !Waits(Closed(s), ufd) { WaitsAfter(s, Rm(s.c.fd.value), Closed(s), ufd); }
    }
  }

  lemma OpenedKeeps(s: State, fd: int, ok: bool)
    requires Inv(s) && s.c.fd == None
    ensures Inv(Opened(s, fd, ok))
  {
    hide Apply, WellFormed, Lookup;
    if !ok {
      ClosedKeeps(s.(c := s.c.(fd := Some(fd))));
    } else {
      var s', op := Opened(s, fd, ok), Add(fd, WRITE, CONNECTHANDLING);
      WaitsAfter(s, op, s', 0);
      forall ufd | Waits(s', ufd) ensures ufd == fd { WaitsAfter(s, op, s', ufd); }
    }
  }

  lemma ConnectedKeeps(s: State, ufd: int)
    requires Inv(s) && Waits(s, ufd)
    ensures Inv(Connected(s, ufd))
  {
    hide Apply, WellFormed, Lookup;
    if Cancellable(s, s.c.timer) {
      var s' := Connected(s, ufd);
      WaitsAfter(s, Rm(ufd), s', 0);
      forall x ensures !Waits(s', x) { WaitsAfter(s, Rm(ufd), s', x); }
    }
  }

  lemma TableOnlyKeeps(s: State, op: Op)
    requires Inv(s) && (op.Add? ==> op.handler > CONNECTTIMEOUT)
    ensures Inv(s.(table := Apply(s.table, op)))
  {
    hide Apply, WellFormed, Lookup;
    var s' := s.(table := Apply(s.table, op));
    WaitsAfter(s, op, s', 0);
    forall ufd | Waits(s', ufd) ensures Waits(s, ufd) { WaitsAfter(s, op, s', ufd); }
  }

  lemma SameWaits(s: State, s': State)
    requires s'.table == s.table
    ensures forall ufd :: Waits(s', ufd) <==> Waits(s, ufd)
  {}

  lemma StepKeeps(s: State, e: Step)
    requires Inv(s) && Enabled(s, e)
    ensures Inv(After(s, e))
  {
    hide Apply, WellFormed, Waits, Closed, Opened, Connected;
    match e {
      case Open(fd, ok) => OpenedKeeps(s, fd, ok);
      case Close =>
        ClosedKeeps(s);
        SameWaits(Closed(s), After(s, e));
      case Takeout =>
        ClosedKeeps(s);
        SameWaits(Closed(s), After(s, e));
      case SetEventHandler(ufd, handler) => TableOnlyKeeps(s, Add(ufd, READ, handler));
      case OtherEvents(op) => TableOnlyKeeps(s, op);
      case EventFires(ufd) => if Waits(s, ufd) { ConnectedKeeps(s, ufd); }
      case TaskDue(id) =>
        SameWaits(s, s.(tasks := s.tasks - {id}));
        if s.tasks[id] == Task(true, CONNECTTIMEOUT) {
          ClosedKeeps(s.(tasks := s.tasks - {id}));
          SameWaits(Closed(s.(tasks := s.tasks - {id})), After(s, e));
        }
      case _ => SameWaits(s, After(s, e));
    }
  }

  ghost predicate Run(states: seq<State>, steps: seq<Step>) {
    && |states| == |steps| + 1 && states[0] == INIT
    && forall i :: 0 <= i < |steps| ==> Enabled(states[i], steps[i]) && states[i + 1] == After(states[i], steps[i])
  }

  lemma {:induction false} RunKeeps(states: seq<State>, steps: seq<Step>, i: nat)
    requires Run(states, steps) && i < |states|
    ensures Inv(states[i])
  {
    if i > 0 {
      hide Enabled, After, Inv;
      RunKeeps(states, steps, i - 1);
      StepKeeps(states[i - 1], steps[i - 1]);
    }
  }

  /** The scheduler was stopped when the last open posted its timeout. */
  ghost predicate OpenedStopped(states: seq<State>, steps: seq<Step>, i: nat)
    requires |states| == |steps| + 1 && i < |states|
  {
    exists k :: 0 <= k < i && Posts(steps[k]) && !states[k].started && forall m :: k < m < i ==> !Posts(steps[m])
  }

  predicate Posts(e: Step) { e.Open? && e.ok }

  lemma {:induction false} BlindIsOpenedStopped(states: seq<State>, steps: seq<Step>, i: nat)
    requires Run(states, steps) && i < |states|
    ensures states[i].blind <==> OpenedStopped(states, steps, i)
  {
    if i > 0 {
      BlindIsOpenedStopped(states, steps, i - 1);
      BlindStep(states[i - 1], steps[i - 1]);
      hide Enabled, After, Posts;
    }
  }

  lemma BlindStep(s: State, e: Step)
    requires Enabled(s, e)
    ensures After(s, e).blind <==> if Posts(e) then !s.started else s.blind
  {
    hide Apply, Lookup;
  }

  /** Of all steps only the connect handler can trip the assertion, and it does exactly if the scheduler
      has been stopped by then, or was when the open posted its timeout. */
  lemma AssertionFailsExactly(states: seq<State>, steps: seq<Step>, i: nat)
    requires Run(states, steps) && i < |steps|
    ensures states[i + 1].aborted <==>
      && steps[i].EventFires? && Waits(states[i], steps[i].ufd)
      && (!states[i].started || OpenedStopped(states, steps, i))
  {
    assert Enabled(states[i], steps[i]) && states[i + 1] == After(states[i], steps[i]);
    RunKeeps(states, steps, i);
    BlindIsOpenedStopped(states, steps, i);
    hide Run, OpenedStopped;
    AbortStep(states[i], steps[i]);
  }

  lemma AbortStep(s: State, e: Step)
    requires Inv(s) && Enabled(s, e)
    ensures After(s, e).aborted <==> e.EventFires? && Waits(s, e.ufd) && (!s.started || s.blind)
  {
    hide Apply, Lookup, WellFormed;
  }

  /** It happens: a stop from another thread while the round that is to call the handler goes on. */
  lemma StopDuringRoundAborts()
    ensures exists states: seq<State> :: Run(states, [Start, Open(1, true), Stop, EventFires(1)]) && states[4].aborted
  {
    var s1 := After(INIT, Start);
    var s2 := After(s1, Open(1, true));
    ApplyUpdates([], Add(1, WRITE, CONNECTHANDLING));
    assert Waits(s2, 1);
    var s3 := After(s2, Stop);
    var s4 := After(s3, EventFires(1));
    assert Run([INIT, s1, s2, s3, s4], [Start, Open(1, true), Stop, EventFires(1)]);
  }

  // ---- what the connector's calls do ----

  /** An open registers the connect handler for writing and lists its timeout. */
  lemma OpenWaits(s: State, fd: int)
    requires Inv(s) && s.c.fd == None && fd != 0
    ensures var s' := Opened(s, fd, true);
      && Lookup(s'.table, fd) == Some(Event(fd, WRITE, CONNECTHANDLING)) && s'.c.fd == Some(fd)
      && (s.started ==> Armed(s') && s'.c.timer == Some(s.next) && s.next !in s.tasks)
      && (!s.started ==> s'.tasks == s.tasks && s'.c.timer == None)
  {
    AddSets(s.table, fd, WRITE, CONNECTHANDLING);
    hide Apply, Lookup, WellFormed;
  }

  /** An open that fails leaves nothing registered or listed anew, and keeps the connection. */
  lemma OpenFails(s: State, fd: int)
    requires Inv(s) && s.c.fd == None
    ensures var s' := Opened(s, fd, false);
      && Lookup(s'.table, fd) == None && s'.tasks.Keys == s.tasks.Keys && s'.c == Conn(Some(fd), s.c.timer)
      && s'.opens == s.opens && s'.answers == s.answers && s'.next == s.next
  {
    RmRemoves(s.table, fd);
    hide Apply, Lookup, WellFormed;
  }

  /** A close, and a handler that answers, remove the entry of the connection; and if the scheduler is
      started, the timeout will not call. */
  lemma CloseDisarms(s: State)
    requires WellFormed(s.table) && s.c.fd.Some?
    ensures Lookup(Closed(s).table, s.c.fd.value) == None
    ensures s.started ==> !Armed(Closed(s))
  {
    RmRemoves(s.table, s.c.fd.value);
    hide Apply, Lookup, WellFormed;
  }

  /** The handler set afterwards is called for reading. */
  lemma SetHandlerReads(s: State, ufd: int, handler: nat)
    requires Inv(s) && Enabled(s, SetEventHandler(ufd, handler)) && ufd != 0
    ensures Lookup(After(s, SetEventHandler(ufd, handler)).table, ufd) == Some(Event(ufd, READ, handler))
  {
    AddSets(s.table, ufd, READ, handler);
    hide Apply, Lookup, WellFormed;
  }

  // ---- how often it answers ----

  /** The connector's timeout is the only task that can call its timeout handler, and only between an open
      and its answer or its close. */
  ghost predicate Counted(s: State) {
    && Inv(s)
    && (forall id :: id in s.tasks && s.tasks[id] == Task(true, CONNECTTIMEOUT) ==> s.c.timer == Some(id))
    && (Armed(s) ==> s.c.fd.Some?)
    && s.opens == s.answers + s.givenUp + if Armed(s) then 1 else 0
  }

  lemma ClosedCounts(s: State)
    requires s.started
    requires forall id :: id in s.tasks && s.tasks[id] == Task(true, CONNECTTIMEOUT) ==> s.c.timer == Some(id)
    requires Armed(s) ==> s.c.fd.Some?
    ensures var s' := Closed(s);
      && !Armed(s') && s'.c == s.c && s'.started
      && (forall id :: id in s'.tasks ==> s'.tasks[id] != Task(true, CONNECTTIMEOUT))
      && s'.opens == s.opens && s'.answers == s.answers && s'.givenUp == s.givenUp
  {
    hide Apply;
  }

  lemma CountStep(s: State, e: Step)
    requires Counted(s) && Enabled(s, e) && s.started && !e.Stop?
    requires e.EventFires? && Waits(s, e.ufd) ==> !s.blind
    ensures Counted(After(s, e)) && After(s, e).started
  {
    StepKeeps(s, e);
    hide Apply, WellFormed, Waits, Inv;
    match e {
      case Open(fd, ok) => if !ok { ClosedCounts(s.(c := s.c.(fd := Some(fd)))); }
      case Close => ClosedCounts(s);
      case Takeout => ClosedCounts(s);
      case TaskDue(id) =>
        if s.tasks[id] == Task(true, CONNECTTIMEOUT) { ClosedCounts(s.(tasks := s.tasks - {id})); }
      case EventFires(ufd) => if Waits(s, ufd) { WaitsIsArmed(s, ufd); }
      case _ =>
    }
  }

  lemma WaitsIsArmed(s: State, ufd: int)
    requires Inv(s) && Waits(s, ufd) && !s.blind
    ensures Armed(s) && s.c.fd == Some(ufd)
  {}

  /** While the scheduler is not stopped again after its start, each open that posted its timeout is answered
      once, or given up once, or still waits. */
  lemma {:induction false} EachOpenAnsweredOnce(states: seq<State>, steps: seq<Step>, i: nat)
    requires Run(states, steps) && 0 < i < |states| && steps[0] == Start && forall k :: 0 <= k < i ==> steps[k] != Stop
    ensures Counted(states[i]) && states[i].started && !states[i].blind
  {
    assert Enabled(states[i - 1], steps[i - 1]) && states[i] == After(states[i - 1], steps[i - 1]);
    if i > 1 {
      hide Counted, Enabled, After;
      EachOpenAnsweredOnce(states, steps, i - 1);
      CountStep(states[i - 1], steps[i - 1]);
      BlindStep(states[i - 1], steps[i - 1]);
    }
  }

  // ---- the connector itself ----

  /** With the part of its scheduler that it uses. */
  class UxConnector {
    var started: bool
    var table: seq<Event>
    var tasks: map<TaskId, Task>
    var next: TaskId
    var fd: Option<int>
    var timer: Option<TaskId>
    ghost var blind: bool
    ghost var opens: nat
    ghost var answers: nat
    ghost var givenUp: nat
    var aborted: bool

    ghost function View(): State
      reads this
    {
      State(started, table, tasks, next, Conn(fd, timer), blind, opens, answers, givenUp, aborted)
    }

    // awe_uxconnector_create, with a new scheduler
    constructor ()
      ensures View() == INIT
    {
      started, table, tasks, next, fd, timer, aborted := false, [], map[], 0, None, None, false;
      blind, opens, answers, givenUp := false, 0, 0, 0;
    }

    // awe_uxscheduler_cancel
    method Cancel(id: Option<TaskId>) returns (found: bool)
      modifies this`tasks
      ensures View() == Cancelled(old(View()), id)
      ensures found <==> started && id.Some? && id.value in old(tasks)
    {
      if !started { return false; }
      found := id.Some? && id.value in tasks;
      if found { tasks := tasks[id.value := tasks[id.value].(valid := false)]; }
    }

    // awe_uxscheduler_post
    method Post(proc: nat) returns (id: Option<TaskId>)
      modifies this`tasks, this`next
      ensures View() == Posted(old(View()), proc) && id == PostedId(old(View()))
    {
      if !started { return None; }
      id := Some(next);
      tasks, next := tasks[next := Task(true, proc)], next + 1;
    }

    // awe_uxconnector_rmEventHandler, awe_uxconnector_close
    method RmEventHandler()
      modifies this`table, this`tasks
      ensures View() == Closed(old(View()))
    {
      hide Apply;
      if fd.Some? {
        table := Apply(table, Rm(fd.value));
        var _ := Cancel(timer);
      }
    }

    // awe_uxconnector_open, uxconnector_setTimeout
    method Open(newFd: int, ok: bool) returns (status: int)
      requires fd == None
      modifies this
      ensures View() == Opened(old(View()), newFd, ok) && status == if ok then 0 else -1
    {
      hide Apply;
      fd := Some(newFd);
      if !ok {
        RmEventHandler();
        return -1;
      }
      blind, opens := !started, opens + if started then 1 else 0;
      timer := Post(CONNECTTIMEOUT);
      table := Apply(table, Add(newFd, WRITE, CONNECTHANDLING));
      return 0;
    }

    // uxconnector_connecthandling
    method ConnectHandling(ufd: int)
      modifies this
      ensures View() == Connected(old(View()), ufd)
    {
      hide Apply;
      var found := Cancel(timer);
      if !found {
        aborted := true;
        return;
      }
      table := Apply(table, Rm(ufd));
      answers := answers + 1;
    }

    // uxconnector_connecttimeout
    method ConnectTimeout()
      modifies this
      ensures View() == TimedOut(old(View()))
    {
      RmEventHandler();
      answers := answers + 1;
    }
  }
}
