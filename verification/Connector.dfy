/** The connect/timeout race of src/connector.c, on the tokens of the scheduler. */
module Connectors {

  import opened Common
  import opened Schedulers
  import opened SchedulerTokens

  /** The callbacks that the connector registers; any other number is the program's. */
  const CONNECTHANDLING: nat := 0
  const CONNECTTIMEOUT: nat := 1
  const EVENTHANDLER: nat := 2

  /** _conn != NULL, _conntoken and _timeouttoken; then how many opens started to wait, how many of
      them were answered, and how many were given up. */
  datatype Conn = Conn(taken: bool, sock: Token, timer: Token, opens: nat, notified: nat, givenUp: nat)

  /** What the program can call. */
  datatype Use =
    | Open(ok: bool)
    | Close
    | Takeout
    | SetEventHandler
    | RmEventHandler
    | Other(op: Op)

  const CLOSED := Conn(false, None, None, 0, 0, 0)

  function Destroys(c: Conn): seq<Op> {
    [SockTokenDestroy(c.sock), TaskTokenDestroy(c.timer)]
  }

  /** The scheduler calls that a call of the connector makes, the next record being number n; ok of
      Open is whether the connection starts to open. */
  function Calls(c: Conn, n: nat, u: Use): seq<Op> {
    match u
    case Open(ok) => if ok then [NewTimer(Delayed, CONNECTTIMEOUT, 0), Watch({Write}, CONNECTHANDLING)] else Destroys(c)
    case Close => Destroys(c)
    case Takeout => Destroys(c)
    case SetEventHandler => if c.sock == None then [Watch({Read}, EVENTHANDLER)] else []
    case RmEventHandler => Destroys(c)
    case Other(op) => [op]
  }

  function Cleared(c: Conn): Conn {
    c.(sock := None, timer := None)
  }

  function GaveUp(c: Conn): Conn {
    Cleared(c).(givenUp := c.givenUp + if c.timer.Some? then 1 else 0)
  }

  /** The connector's own fields after it. */
  function Fields(c: Conn, n: nat, u: Use): Conn {
    match u
    case Open(ok) =>
      if ok then c.(taken := true, timer := Some(n), sock := Some(n + 1), opens := c.opens + 1)
      else GaveUp(c).(taken := true)
    case Close => GaveUp(c)
    case Takeout => GaveUp(c).(taken := false)
    case SetEventHandler => if c.sock == None then c.(sock := Some(n)) else c
    case RmEventHandler => GaveUp(c)
    case Other(op) => c
  }

  /** connector_connecthandling and connector_connecttimeout up to their call of the program. */
  function Answered(c: Conn): Conn {
    Cleared(c).(notified := c.notified + 1)
  }

  datatype Sys = Sys(s: Sched, c: Conn)

  function Perform(y: Sys, u: Use): Option<Sys> {
    match ApplyAll(y.s, Calls(y.c, y.s.next, u))
    case None => None
    case Some(s') => Some(Sys(s', Fields(y.c, y.s.next, u)))
  }

  function PerformAll(y: Sys, us: seq<Use>): Option<Sys>
    decreases |us|
  {
    if us == [] then Some(y)
    else match Perform(y, us[0])
         case None => None
         case Some(y') => PerformAll(y', us[1..])
  }

  /** The connection is still being waited for. */
  predicate Waiting(y: Sys) {
    y.c.sock.Some? && y.c.sock.value in y.s.recs && y.s.recs[y.c.sock.value].proc == CONNECTHANDLING
  }

  /** Both tokens are of live records of the right kind, no record of the connector is without its
      token, and every open is answered once, given up, or waiting. */
  ghost predicate ConnInv(y: Sys) {
    && Inv(y.s)
    && (y.c.sock.Some? ==> y.c.sock.value in y.s.io)
    && (y.c.timer.Some? ==>
          && y.c.timer.value in y.s.timers
          && y.s.recs[y.c.timer.value].kind == Delayed && y.s.recs[y.c.timer.value].proc == CONNECTTIMEOUT)
    && (forall t :: t in y.s.recs && y.s.recs[t].proc == CONNECTHANDLING ==> y.c.sock == Some(t))
    && (forall t :: t in y.s.recs && y.s.recs[t].proc == CONNECTTIMEOUT ==> y.c.timer == Some(t))
    && (!y.c.taken ==> y.c.sock == None && y.c.timer == None)
    && (y.c.timer.Some? <==> Waiting(y))
    && y.c.opens == y.c.notified + y.c.givenUp + if Waiting(y) then 1 else 0
  }

  /** The program opens and sets a handler in turn, as the assertion of awe_connector_open and its
      own use of the connection make it, enables and disables live watchers only, and leaves the
      connector's tokens and callbacks to the connector. */
  predicate Fair(y: Sys, u: Use) {
    match u
    case Open(ok) => !y.c.taken
    case SetEventHandler => y.c.taken
    case Other(op) =>
      && IsOp(op) && !StaleSwitch(y.s, op)
      && match op {
           case Watch(_, proc) => proc > CONNECTTIMEOUT
           case NewTimer(_, proc, _) => proc > CONNECTTIMEOUT
           case TaskAgain(token, _) => token.Some? ==> token != y.c.timer
           case SockTokenDestroy(token) => token.Some? ==> token != y.c.sock
           case TaskTokenDestroy(token) => token.Some? ==> token != y.c.timer
           case Enable(token, _) => token.Some? ==> token != y.c.sock
           case Disable(token, _) => token.Some? ==> token != y.c.sock
         }
    case _ => true
  }

  predicate AllFair(y: Sys, us: seq<Use>)
    decreases |us|
  {
    us == [] || (Fair(y, us[0]) && (Perform(y, us[0]).Some? ==> AllFair(Perform(y, us[0]).value, us[1..])))
  }

  lemma ApplyTwo(s: Sched, a: Op, b: Op)
    ensures ApplyAll(s, [a]) == Apply(s, a)
    ensures ApplyAll(s, [a, b]) == if Apply(s, a).Some? then Apply(Apply(s, a).value, b) else None
  {
    assert [a][1..] == [] && [a, b][1..] == [b] && [b][1..] == [];
    if Apply(s, a).Some? { assert ApplyAll(Apply(s, a).value, [b]) == Apply(Apply(s, a).value, b); }
  }

  lemma ApplyJoin(s: Sched, a: seq<Op>, b: seq<Op>)
    ensures ApplyAll(s, a + b) == if ApplyAll(s, a).Some? then ApplyAll(ApplyAll(s, a).value, b) else None
    decreases |a|
  {
    if a == [] {
      assert a + b == b;
    } else {
      assert (a + b)[1..] == a[1..] + b;
      if Apply(s, a[0]).Some? { ApplyJoin(Apply(s, a[0]).value, a[1..], b); }
    }
  }

  /** What the two destructions leave: the connector's two records are gone, all others are as they
      were. */
  lemma DestroysFree(y: Sys)
    requires ConnInv(y)
    ensures ApplyAll(y.s, Destroys(y.c)).Some?
    ensures var s' := ApplyAll(y.s, Destroys(y.c)).value;
      && Inv(s')
      && (forall t :: t in s'.recs <==> t in y.s.recs && y.c.sock != Some(t) && y.c.timer != Some(t))
      && (forall t :: t in s'.recs ==> s'.recs[t] == y.s.recs[t])
  {
    hide Without;
    var op1, op2 := SockTokenDestroy(y.c.sock), TaskTokenDestroy(y.c.timer);
    ApplyTwo(y.s, op1, op2);
    CallStep(y.s, op1);
    var s1 := Apply(y.s, op1).value;
    CallStep(s1, op2);
    assert y.c.timer.Some? ==> y.c.timer.value in s1.timers;
  }

  lemma ClearedKeeps(y: Sys, s': Sched, c': Conn)
    requires ConnInv(y) && Inv(s')
    requires forall t :: t in s'.recs <==> t in y.s.recs && y.c.sock != Some(t) && y.c.timer != Some(t)
    requires forall t :: t in s'.recs ==> s'.recs[t] == y.s.recs[t]
    requires c'.sock == None && c'.timer == None && c'.opens == y.c.opens
    requires c'.notified + c'.givenUp == y.c.notified + y.c.givenUp + if y.c.timer.Some? then 1 else 0
    ensures ConnInv(Sys(s', c')) && !Waiting(Sys(s', c'))
  {
    hide Inv;
  }

  lemma OpenKeeps(y: Sys)
    requires ConnInv(y) && !y.c.taken
    ensures Perform(y, Open(true)).Some? && ConnInv(Perform(y, Open(true)).value)
    ensures Waiting(Perform(y, Open(true)).value)
  {
    var op1, op2 := NewTimer(Delayed, CONNECTTIMEOUT, 0), Watch({Write}, CONNECTHANDLING);
    ApplyTwo(y.s, op1, op2);
    CallStep(y.s, op1);
    CallStep(Apply(y.s, op1).value, op2);
    assert y.s.next !in y.s.recs;
  }

  lemma SetKeeps(y: Sys)
    requires ConnInv(y) && y.c.taken
    ensures Perform(y, SetEventHandler).Some? && ConnInv(Perform(y, SetEventHandler).value)
  {
    if y.c.sock == None {
      ApplyTwo(y.s, Watch({Read}, EVENTHANDLER), Watch({Read}, EVENTHANDLER));
      CallStep(y.s, Watch({Read}, EVENTHANDLER));
      assert y.s.next !in y.s.recs;
    }
  }

  /** What a foreign call does to any record that is not its own argument. */
  lemma OtherRecords(s: Sched, op: Op, t: Id)
    requires Inv(s) && IsOp(op) && Apply(s, op).Some?
    requires t in s.recs
    requires (t in s.io ==> op != SockTokenDestroy(Some(t))) && (t in s.timers ==> op != TaskTokenDestroy(Some(t)))
    ensures var s' := Apply(s, op).value;
      && t in s'.recs && s'.recs[t].proc == s.recs[t].proc
      && (t in s.io ==> t in s'.io) && (t in s.timers ==> t in s'.timers && s'.recs[t].kind == s.recs[t].kind)
  {
    CallStep(s, op);
  }

  lemma NewRecords(s: Sched, op: Op, t: Id)
    requires Inv(s) && Apply(s, op).Some? && t in Apply(s, op).value.recs
    ensures t in s.recs ==> Apply(s, op).value.recs[t].proc == s.recs[t].proc
    ensures t !in s.recs ==> (op.Watch? || op.NewTimer?) && Apply(s, op).value.recs[t].proc == op.proc
  {}

  lemma OtherKeeps(y: Sys, op: Op)
    requires ConnInv(y) && Fair(y, Other(op))
    ensures Perform(y, Other(op)).Some? && ConnInv(Perform(y, Other(op)).value)
  {
    hide Inv, Apply, StaleSwitch;
    ApplyTwo(y.s, op, op);
    CallStep(y.s, op);
    var s' := Apply(y.s, op).value;
    Lists(y.s);
    Lists(s');
    if y.c.sock.Some? { OtherRecords(y.s, op, y.c.sock.value); }
    if y.c.timer.Some? { OtherRecords(y.s, op, y.c.timer.value); }
    forall t | t in s'.recs
      ensures t in y.s.recs ==> s'.recs[t].proc == y.s.recs[t].proc
      ensures t !in y.s.recs ==> s'.recs[t].proc > CONNECTTIMEOUT
    {
      NewRecords(y.s, op, t);
    }
  }

  lemma Lists(s: Sched)
    requires Inv(s)
    ensures forall t :: t in s.io ==> t in s.recs && t !in s.timers
    ensures forall t :: t in s.timers ==> t in s.recs
  {}

  /** Every use by the rules keeps the account of the opens. */
  lemma UseKeeps(y: Sys, u: Use)
    requires ConnInv(y) && Fair(y, u)
    ensures Perform(y, u).Some? && ConnInv(Perform(y, u).value)
  {
    match u {
      case Open(ok) =>
        if ok { OpenKeeps(y); } else {
          hide ApplyAll, ConnInv;
          DestroysFree(y);
          ClearedKeeps(y, ApplyAll(y.s, Destroys(y.c)).value, Fields(y.c, y.s.next, u));
        }
      case SetEventHandler => SetKeeps(y);
      case Other(op) => OtherKeeps(y, op);
      case _ =>
        hide ApplyAll, ConnInv;
        DestroysFree(y);
        ClearedKeeps(y, ApplyAll(y.s, Destroys(y.c)).value, Fields(y.c, y.s.next, u));
    }
  }

  lemma {:induction false} UsesKeep(y: Sys, us: seq<Use>)
    requires ConnInv(y) && AllFair(y, us)
    ensures PerformAll(y, us).Some? && ConnInv(PerformAll(y, us).value)
    decreases |us|
  {
    hide ConnInv, Fair, Perform;
    if us != [] {
      UseKeeps(y, us[0]);
      UsesKeep(Perform(y, us[0]).value, us[1..]);
    }
  }

  /** All the scheduler calls that a sequence of uses makes. */
  function AllCalls(y: Sys, us: seq<Use>): seq<Op>
    decreases |us|
  {
    if us == [] || Perform(y, us[0]).None? then []
    else Calls(y.c, y.s.next, us[0]) + AllCalls(Perform(y, us[0]).value, us[1..])
  }

  lemma {:induction false} UsesAreCalls(y: Sys, us: seq<Use>)
    requires PerformAll(y, us).Some?
    ensures ApplyAll(y.s, AllCalls(y, us)) == Some(PerformAll(y, us).value.s)
    decreases |us|
  {
    if us != [] {
      var y' := Perform(y, us[0]).value;
      UsesAreCalls(y', us[1..]);
      ApplyJoin(y.s, Calls(y.c, y.s.next, us[0]), AllCalls(y', us[1..]));
    }
  }

  // ---- callbacks ----

  datatype Happening = Called(u: Use) | WatcherFired(t: Id, us: seq<Use>) | TimerFired(t: Id, us: seq<Use>)

  predicate IsConnect(y: Sys, t: Id) {
    t in y.s.recs && y.s.recs[t].proc == CONNECTHANDLING
  }

  predicate IsTimeout(y: Sys, t: Id) {
    t in y.s.recs && y.s.recs[t].proc == CONNECTTIMEOUT
  }

  /** The state in which the callback of record t calls the program (us), and the calls made up to
      there. */
  function Entered(y: Sys, t: Id): Option<Sys> {
    if IsConnect(y, t) || IsTimeout(y, t) then
      match ApplyAll(y.s, Destroys(y.c))
      case None => None
      case Some(s') => Some(Sys(s', Answered(y.c)))
    else Some(y)
  }

  function Lead(y: Sys, t: Id): seq<Op> {
    if IsConnect(y, t) || IsTimeout(y, t) then Destroys(y.c) else []
  }

  function After(y: Sys, e: Happening): Option<Sys> {
    match e
    case Called(u) => Perform(y, u)
    case WatcherFired(t, us) =>
      if Entered(y, t).None? then None else PerformAll(Entered(y, t).value, us)
    case TimerFired(t, us) =>
      var y0 := Sys(Halted(y.s, t), y.c);
      if Entered(y0, t).None? then None
      else match PerformAll(Entered(y0, t).value, us)
           case None => None
           case Some(y') =>
             match FiredTimer(y.s, t, Lead(y, t) + AllCalls(Entered(y0, t).value, us))
             case None => None
             case Some(s') => Some(Sys(s', y'.c))
  }

  predicate Enabled(y: Sys, e: Happening) {
    match e
    case Called(u) => Fair(y, u)
    case WatcherFired(t, us) =>
      t in y.s.active && t in y.s.io && (Entered(y, t).Some? ==> AllFair(Entered(y, t).value, us))
    case TimerFired(t, us) =>
      var y0 := Sys(Halted(y.s, t), y.c);
      && t in y.s.active && t !in y.s.io
      && (Entered(y0, t).Some? ==> AllFair(Entered(y0, t).value, us))
  }

  lemma UsesAreOps(y: Sys, us: seq<Use>)
    requires AllFair(y, us)
    ensures forall op :: op in AllCalls(y, us) ==> IsOp(op)
    decreases |us|
  {
    if us != [] && Perform(y, us[0]).Some? { UsesAreOps(Perform(y, us[0]).value, us[1..]); }
  }

  /** A record keeps its callback as long as it lives. */
  lemma {:induction false} ProcStays(s: Sched, ops: seq<Op>, t: Id)
    requires Inv(s) && (forall op :: op in ops ==> IsOp(op)) && ApplyAll(s, ops).Some?
    requires t in s.recs && t in ApplyAll(s, ops).value.recs
    ensures ApplyAll(s, ops).value.recs[t].proc == s.recs[t].proc
    decreases |ops|
  {
    if ops != [] {
      CallStep(s, ops[0]);
      var s1 := Apply(s, ops[0]).value;
      if t in s1.recs {
        NewRecords(s, ops[0], t);
        ProcStays(s1, ops[1..], t);
      } else {
        assert t in s1.freed;
        CallsForgetNothing(s1, ops[1..], t);
      }
    }
  }

  /** The connector's handlers let go of both records before they call the program. */
  lemma EnteredKeeps(y: Sys, t: Id)
    requires ConnInv(y) && t in y.s.recs
    ensures Entered(y, t).Some? && ConnInv(Entered(y, t).value)
    ensures ApplyAll(y.s, Lead(y, t)) == Some(Entered(y, t).value.s)
    ensures IsConnect(y, t) ==> y.c.sock == Some(t)
    ensures IsTimeout(y, t) ==> y.c.timer == Some(t)
    ensures IsConnect(y, t) || IsTimeout(y, t) ==> Waiting(y) && !Waiting(Entered(y, t).value)
    ensures IsConnect(y, t) || IsTimeout(y, t) ==>
      Entered(y, t).value.c == y.c.(sock := None, timer := None, notified := y.c.notified + 1)
    ensures !IsConnect(y, t) && !IsTimeout(y, t) ==> Entered(y, t) == Some(y)
  {
    hide ApplyAll;
    if IsConnect(y, t) || IsTimeout(y, t) {
      assert y.c.timer.Some?;
      DestroysFree(y);
      ClearedKeeps(y, ApplyAll(y.s, Destroys(y.c)).value, Answered(y.c));
    } else {
      ApplyNone(y.s);
    }
  }

  lemma ApplyNone(s: Sched)
    ensures ApplyAll(s, []) == Some(s)
  {}

  lemma HaltedKeeps(y: Sys, t: Id)
    requires ConnInv(y)
    ensures ConnInv(Sys(Halted(y.s, t), y.c))
  {}

  /** The calls that a timer callback makes, the connector's own and the program's. */
  function CallsOf(y: Sys, t: Id, us: seq<Use>): seq<Op> {
    Lead(y, t) + if Entered(y, t).Some? then AllCalls(Entered(y, t).value, us) else []
  }

  lemma CallsOfTimer(y: Sys, t: Id, us: seq<Use>)
    requires ConnInv(y) && t in y.s.recs && Entered(y, t).Some? && AllFair(Entered(y, t).value, us)
    ensures PerformAll(Entered(y, t).value, us).Some? && ConnInv(PerformAll(Entered(y, t).value, us).value)
    ensures ApplyAll(y.s, CallsOf(y, t, us)) == Some(PerformAll(Entered(y, t).value, us).value.s)
    ensures forall op :: op in CallsOf(y, t, us) ==> IsOp(op)
  {
    hide ApplyAll, PerformAll, AllCalls, AllFair, Entered, Lead, Perform;
    EnteredKeeps(y, t);
    var y1 := Entered(y, t).value;
    UsesKeep(y1, us);
    UsesAreCalls(y1, us);
    UsesAreOps(y1, us);
    ApplyJoin(y.s, Lead(y, t), AllCalls(y1, us));
    LeadIsOps(y, t);
  }

  lemma LeadIsOps(y: Sys, t: Id)
    ensures forall op :: op in Lead(y, t) ==> IsOp(op)
  {}

  /** The timeout handler always makes line 159 of scheduler.c read a freed record: it destroys the
      token of the very timer that called it. */
  lemma TimeoutReadsFreedRecord(y: Sys, t: Id, us: seq<Use>)
    requires ConnInv(y) && IsTimeout(y, t) && Enabled(y, TimerFired(t, us))
    ensures After(y, TimerFired(t, us)) == None
    ensures var y0 := Sys(Halted(y.s, t), y.c);
      && Entered(y0, t).Some? && PerformAll(Entered(y0, t).value, us).Some?
      && ConnInv(PerformAll(Entered(y0, t).value, us).value)
      && t !in PerformAll(Entered(y0, t).value, us).value.s.recs
  {
    var y0 := Sys(Halted(y.s, t), y.c);
    hide ApplyAll, PerformAll, AllCalls, AllFair;
    HaltedKeeps(y, t);
    EnteredKeeps(y0, t);
    CallsOfTimer(y0, t, us);
    assert TaskTokenDestroy(Some(t)) == Lead(y0, t)[1];
    assert TaskTokenDestroy(Some(t)) in CallsOf(y0, t, us);
    TimerCallbackIsSafe(y.s, t, CallsOf(y0, t, us));
  }

  /** What a step must not do: let the timeout fire; or, in another timer's callback, destroy that
      timer's token or restart it. */
  predicate Obeys(y: Sys, e: Happening) {
    match e
    case Called(u) => true
    case WatcherFired(t, us) => true
    case TimerFired(t, us) =>
      var ops := AllCalls(Sys(Halted(y.s, t), y.c), us);
      && !IsTimeout(y, t)
      && TaskTokenDestroy(Some(t)) !in ops
      && (t in y.s.recs && y.s.recs[t].kind == Delayed ==> !Restarts(ops, t))
  }

  lemma IoStep(y: Sys, t: Id, us: seq<Use>)
    requires ConnInv(y) && Enabled(y, WatcherFired(t, us))
    ensures After(y, WatcherFired(t, us)).Some? && ConnInv(After(y, WatcherFired(t, us)).value)
  {
    hide AllFair, PerformAll, Entered;
    EnteredKeeps(y, t);
    UsesKeep(Entered(y, t).value, us);
  }

  lemma TimerStep(y: Sys, t: Id, us: seq<Use>)
    requires ConnInv(y) && Enabled(y, TimerFired(t, us)) && !IsTimeout(y, t)
    ensures After(y, TimerFired(t, us)).Some? && ConnInv(After(y, TimerFired(t, us)).value)
      <==> Obeys(y, TimerFired(t, us))
  {
    var y0 := Sys(Halted(y.s, t), y.c);
    assert !IsConnect(y, t);
    assert Entered(y0, t) == Some(y0) && Lead(y0, t) == [];
    hide AllFair, PerformAll, Entered, ApplyAll, Perform, AllCalls, Restarts;
    HaltedKeeps(y, t);
    CallsOfTimer(y0, t, us);
    var ops := AllCalls(y0, us);
    assert CallsOf(y0, t, us) == ops && [] + ops == ops;
    TimerCallbackIsSafe(y.s, t, ops);
    var y' := PerformAll(y0, us).value;
    if t in y'.s.recs {
      ProcStays(y0.s, ops, t);
      CallsOnTimer(y0.s, ops, t);
      DroppedKeeps(y', t);
    }
  }

  lemma DroppedKeeps(y: Sys, t: Id)
    requires ConnInv(y) && t in y.s.timers && y.s.recs[t].proc > CONNECTTIMEOUT
    ensures Inv(WithoutRecord(y.s, t)) ==> ConnInv(Sys(WithoutRecord(y.s, t), y.c))
  {
    hide Without;
  }

  /** Between start and stop every step is safe, and keeps the account, exactly when it obeys. */
  lemma StepKeeps(y: Sys, e: Happening)
    requires ConnInv(y) && Enabled(y, e)
    ensures After(y, e).Some? && ConnInv(After(y, e).value) <==> Obeys(y, e)
  {
    hide ConnInv, Perform, AllFair, PerformAll, Entered, ApplyAll, AllCalls;
    match e {
      case Called(u) => UseKeeps(y, u);
      case WatcherFired(t, us) => IoStep(y, t, us);
      case TimerFired(t, us) =>
        if IsTimeout(y, t) { TimeoutReadsFreedRecord(y, t, us); } else { TimerStep(y, t, us); }
    }
  }

  // ---- runs ----

  const START := Sys(INIT, CLOSED)

  ghost predicate Run(states: seq<Sys>, events: seq<Happening>) {
    && |states| == |events| + 1 && states[0] == START
    && forall i :: 0 <= i < |events| ==>
         && Enabled(states[i], events[i]) && Obeys(states[i], events[i])
         && After(states[i], events[i]) == Some(states[i + 1])
  }

  lemma {:induction false} RunKeeps(states: seq<Sys>, events: seq<Happening>, i: nat)
    requires Run(states, events) && i < |states|
    ensures ConnInv(states[i])
  {
    if i > 0 {
      hide Enabled, After, ConnInv, Obeys;
      RunKeeps(states, events, i - 1);
      StepKeeps(states[i - 1], events[i - 1]);
    } else {
      InitInv();
    }
  }

  lemma {:induction false} UsesCount(y: Sys, us: seq<Use>)
    requires PerformAll(y, us).Some?
    ensures PerformAll(y, us).value.c.givenUp >= y.c.givenUp
    decreases |us|
  {
    if us != [] { UsesCount(Perform(y, us[0]).value, us[1..]); }
  }

  lemma {:induction false} GivenUpGrows(states: seq<Sys>, events: seq<Happening>, i: nat, j: nat)
    requires Run(states, events) && i <= j < |states|
    ensures states[i].c.givenUp <= states[j].c.givenUp
    decreases j - i
  {
    if i < j {
      var y, e := states[i], events[i];
      assert After(y, e) == Some(states[i + 1]);
      match e {
        case Called(u) =>
        case WatcherFired(t, us) => UsesCount(Entered(y, t).value, us);
        case TimerFired(t, us) => UsesCount(Entered(Sys(Halted(y.s, t), y.c), t).value, us);
      }
      GivenUpGrows(states, events, i + 1, j);
    }
  }

  /** From any point of a run on, the program hears at most once of each open still waiting there or
      made since. */
  lemma OneAnswerPerOpen(states: seq<Sys>, events: seq<Happening>, i: nat, j: nat)
    requires Run(states, events) && i <= j < |states|
    ensures states[j].c.notified - states[i].c.notified
      <= states[j].c.opens - states[i].c.opens + if Waiting(states[i]) then 1 else 0
  {
    RunKeeps(states, events, i);
    RunKeeps(states, events, j);
    GivenUpGrows(states, events, i, j);
  }

  /** The same when the run ends in a firing timeout, up to the read of the freed record: the timeout is
      the one answer to the open it belongs to. */
  lemma OneAnswerWithTimeout(states: seq<Sys>, events: seq<Happening>, i: nat, t: Id, us: seq<Use>)
    requires Run(states, events) && i < |states|
    requires var y := states[|events|]; IsTimeout(y, t) && Enabled(y, TimerFired(t, us))
    ensures var y0 := Sys(Halted(states[|events|].s, t), states[|events|].c);
      && Entered(y0, t).Some? && PerformAll(Entered(y0, t).value, us).Some?
      && var z := PerformAll(Entered(y0, t).value, us).value;
         && z.c.notified - states[i].c.notified <= z.c.opens - states[i].c.opens + (if Waiting(states[i]) then 1 else 0)
         && Entered(y0, t).value.c.notified == states[|events|].c.notified + 1
  {
    var y := states[|events|];
    var y0 := Sys(Halted(y.s, t), y.c);
    RunKeeps(states, events, i);
    RunKeeps(states, events, |events|);
    TimeoutReadsFreedRecord(y, t, us);
    GivenUpGrows(states, events, i, |events|);
    UsesCount(Entered(y0, t).value, us);
  }

  // ---- what a waiting connector waits for ----

  /** While an open waits, the loop watches for its connection to become writable and runs its timer;
      otherwise a handler waits for it to become readable. */
  ghost predicate Armed(y: Sys) {
    && (y.c.timer.Some? ==> IsTimer(y.s, y.c.timer.value, Delayed, CONNECTTIMEOUT, 0, true))
    && (y.c.sock.Some? ==>
          if y.c.timer.Some? then IsWatcher(y.s, y.c.sock.value, CONNECTHANDLING, Watching({Write}, true))
          else IsWatcher(y.s, y.c.sock.value, EVENTHANDLER, Watching({Read}, true)))
  }

  lemma OpenArms(y: Sys)
    requires ConnInv(y) && !y.c.taken
    ensures Perform(y, Open(true)).Some? && Armed(Perform(y, Open(true)).value)
  {
    var op1, op2 := NewTimer(Delayed, CONNECTTIMEOUT, 0), Watch({Write}, CONNECTHANDLING);
    OpenKeeps(y);
    hide IsTimer, IsWatcher, ConnInv;
    ApplyTwo(y.s, op1, op2);
    assert Inv(y.s) by { ConnIsSound(y); }
    TimerBegins(y.s, Delayed, CONNECTTIMEOUT, 0);
    CallStep(y.s, op1);
    var s1 := Apply(y.s, op1).value;
    TimerCall(s1, op2, y.s.next, Delayed, CONNECTTIMEOUT, 0, true);
    WatcherBegins(s1, {Write}, CONNECTHANDLING);
  }

  lemma ConnIsSound(y: Sys)
    requires ConnInv(y)
    ensures Inv(y.s)
    ensures y.c.timer.Some? ==> y.c.sock.Some?
  {}

  // ---- what the connector's calls do ----

  /** Closing, taking the connection out and removing the handler let go of both records; an open that was
      waiting is given up. */
  lemma CloseGivesUp(y: Sys, u: Use)
    requires ConnInv(y) && (u == Close || u == Takeout || u == RmEventHandler)
    ensures Perform(y, u).Some?
    ensures var y' := Perform(y, u).value;
      && y'.c.sock == None && y'.c.timer == None && y'.c.taken == (y.c.taken && u != Takeout)
      && y'.c.opens == y.c.opens && y'.c.notified == y.c.notified
      && y'.c.givenUp == y.c.givenUp + (if Waiting(y) then 1 else 0)
      && (forall t :: t in y'.s.recs <==> t in y.s.recs && y.c.sock != Some(t) && y.c.timer != Some(t))
      && (forall t :: t in y'.s.recs ==> y'.s.recs[t] == y.s.recs[t])
  {
    DestroysFree(y);
    hide ApplyAll;
  }

  /** An open waits for the connection to become writable, and for its timeout; if the connection does not
      begin to open, for nothing. */
  lemma OpenWaits(y: Sys, ok: bool)
    requires ConnInv(y) && !y.c.taken
    ensures Perform(y, Open(ok)).Some?
    ensures var y' := Perform(y, Open(ok)).value;
      && y'.c.taken && y'.c.notified == y.c.notified && y'.c.givenUp == y.c.givenUp
      && y'.c.opens == y.c.opens + (if ok then 1 else 0)
      && (Waiting(y') <==> ok) && (y'.c.sock.Some? <==> ok) && (y'.c.timer.Some? <==> ok)
      && (ok ==> Armed(y'))
  {
    if ok {
      OpenKeeps(y);
      OpenArms(y);
    } else {
      DestroysFree(y);
      hide ApplyAll;
    }
  }

  /** A handler is set only where there is none, and then waits for the connection to become readable. */
  lemma SetHandlerWatches(y: Sys)
    requires ConnInv(y) && y.c.taken
    ensures Perform(y, SetEventHandler).Some?
    ensures var y' := Perform(y, SetEventHandler).value;
      if y.c.sock.Some? then y' == y
      else && y'.c == y.c.(sock := Some(y.s.next))
           && IsWatcher(y'.s, y.s.next, EVENTHANDLER, Watching({Read}, true))
  {
    SetKeeps(y);
    ApplyNone(y.s);
    if y.c.sock == None {
      ApplyTwo(y.s, Watch({Read}, EVENTHANDLER), Watch({Read}, EVENTHANDLER));
      WatcherBegins(y.s, {Read}, EVENTHANDLER);
    }
  }

  lemma OtherArms(y: Sys, op: Op)
    requires ConnInv(y) && Armed(y) && Fair(y, Other(op))
    ensures Perform(y, Other(op)).Some? && Armed(Perform(y, Other(op)).value)
  {
    OtherKeeps(y, op);
    ApplyTwo(y.s, op, op);
    ConnIsSound(y);
    hide IsTimer, IsWatcher, ConnInv, Inv, Apply, ApplyAll;
    if y.c.timer.Some? { TimerCall(y.s, op, y.c.timer.value, Delayed, CONNECTTIMEOUT, 0, true); }
    if y.c.sock.Some? {
      var proc := if y.c.timer.Some? then CONNECTHANDLING else EVENTHANDLER;
      WatcherCall(y.s, op, y.c.sock.value, proc, Watching({if y.c.timer.Some? then Write else Read}, true));
    }
  }

  lemma UseArms(y: Sys, u: Use)
    requires ConnInv(y) && Armed(y) && Fair(y, u)
    ensures Perform(y, u).Some? && ConnInv(Perform(y, u).value) && Armed(Perform(y, u).value)
  {
    UseKeeps(y, u);
    hide IsTimer, IsWatcher, ConnInv, ApplyAll;
    match u {
      case Open(ok) => OpenWaits(y, ok);
      case SetEventHandler =>
        SetHandlerWatches(y);
        ConnIsSound(y);
      case Other(op) => OtherArms(y, op);
      case _ => CloseGivesUp(y, u);
    }
  }

  lemma {:induction false} UsesArm(y: Sys, us: seq<Use>)
    requires ConnInv(y) && Armed(y) && AllFair(y, us)
    ensures PerformAll(y, us).Some? && Armed(PerformAll(y, us).value)
    decreases |us|
  {
    hide ConnInv, Armed, Fair, Perform;
    if us != [] {
      UseArms(y, us[0]);
      UsesArm(Perform(y, us[0]).value, us[1..]);
    }
  }

  lemma ArmedByTimer(y: Sys, t: Id, us: seq<Use>)
    requires ConnInv(y) && Armed(y) && Enabled(y, TimerFired(t, us)) && Obeys(y, TimerFired(t, us))
    ensures After(y, TimerFired(t, us)).Some? && Armed(After(y, TimerFired(t, us)).value)
  {
    var y0 := Sys(Halted(y.s, t), y.c);
    TimerStep(y, t, us);
    assert !IsConnect(y, t) && t in y.s.timers;
    HaltedKeeps(y, t);
    assert Armed(y0);
    assert Entered(y0, t) == Some(y0) && Lead(y0, t) == [];
    hide AllFair, PerformAll, Entered, ApplyAll, Perform, AllCalls, Restarts, Armed;
    UsesArm(y0, us);
    CallsOfTimer(y0, t, us);
    var ops, y' := AllCalls(y0, us), PerformAll(y0, us).value;
    assert CallsOf(y0, t, us) == ops && [] + ops == ops;
    CallsOnTimer(y0.s, ops, t);
    ProcStays(y0.s, ops, t);
    hide ConnInv, Inv, WithoutRecord;
    FreedKeepsArmed(y', t);
  }

  lemma FreedKeepsArmed(y: Sys, t: Id)
    requires ConnInv(y) && Armed(y) && t in y.s.timers && y.s.recs[t].proc > CONNECTTIMEOUT && t in y.s.recs
    ensures y.s.recs[t].kind == Delayed ==> Armed(Sys(WithoutRecord(y.s, t), y.c))
  {
    hide IsWatcher, WithoutRecord;
    assert y.c.timer != Some(t);
    if y.s.recs[t].kind == Delayed {
      if y.c.timer.Some? { OtherFreed(y.s, t, y.c.timer.value, Delayed, CONNECTTIMEOUT, 0, true); }
      if y.c.sock.Some? {
        var proc := if y.c.timer.Some? then CONNECTHANDLING else EVENTHANDLER;
        OtherTimerFreed(y.s, t, y.c.sock.value, proc, Watching({if y.c.timer.Some? then Write else Read}, true));
      }
    }
  }

  lemma ArmedByWatcher(y: Sys, t: Id, us: seq<Use>)
    requires ConnInv(y) && Armed(y) && Enabled(y, WatcherFired(t, us))
    ensures After(y, WatcherFired(t, us)).Some? && Armed(After(y, WatcherFired(t, us)).value)
  {
    hide AllFair, PerformAll, Entered;
    EnteredKeeps(y, t);
    assert Armed(Entered(y, t).value);
    hide Armed;
    UsesArm(Entered(y, t).value, us);
  }

  /** In every state of a run an open that waits is watched for and timed. */
  lemma {:induction false} WaitingIsWatched(states: seq<Sys>, events: seq<Happening>, i: nat)
    requires Run(states, events) && i < |states|
    ensures Armed(states[i]) && (Waiting(states[i]) <==> states[i].c.timer.Some?)
  {
    RunKeeps(states, events, i);
    if i > 0 {
      hide ConnInv, Armed;
      WaitingIsWatched(states, events, i - 1);
      RunKeeps(states, events, i - 1);
      var y, e := states[i - 1], events[i - 1];
      assert Enabled(y, e) && Obeys(y, e) && After(y, e) == Some(states[i]);
      hide Enabled, Obeys, After, Fair;
      ArmedByStep(y, e);
      ArmedMeans(states[i]);
    }
  }

  lemma ArmedMeans(y: Sys)
    requires ConnInv(y)
    ensures Waiting(y) <==> y.c.timer.Some?
  {}

  lemma ArmedByStep(y: Sys, e: Happening)
    requires ConnInv(y) && Armed(y) && Enabled(y, e) && Obeys(y, e)
    ensures After(y, e).Some? && Armed(After(y, e).value)
  {
    hide ConnInv, Armed, AllFair, Fair, PerformAll, Perform, Entered;
    match e {
      case Called(u) => UseArms(y, u);
      case WatcherFired(t, us) => ArmedByWatcher(y, t, us);
      case TimerFired(t, us) => ArmedByTimer(y, t, us);
    }
  }

  // ---- the connector itself ----

  lemma OpenNumbers(y: Sys)
    requires ConnInv(y)
    ensures y.s.next !in y.s.recs && y.s.next + 1 !in y.s.recs
  {}

  class Connector {
    const sched: Scheduler
    var taken: bool
    var conntoken: Token
    var timeouttoken: Token
    ghost var opens: nat
    ghost var notified: nat
    ghost var givenUp: nat

    ghost function View(): Sys
      reads this, sched
    {
      Sys(sched.View(), Conn(taken, conntoken, timeouttoken, opens, notified, givenUp))
    }

    // awe_connector_create
    constructor (s: Scheduler)
      ensures sched == s && View() == Sys(s.View(), CLOSED)
    {
      sched, taken, conntoken, timeouttoken := s, false, None, None;
      opens, notified, givenUp := 0, 0, 0;
    }

    // the two destructions of awe_connector_rmEventHandler and of connector_connecthandling
    method DestroyTokens()
      requires ConnInv(View())
      modifies this`conntoken, this`timeouttoken, sched
      ensures conntoken == None && timeouttoken == None
      ensures Some(sched.View()) == ApplyAll(old(sched.View()), Destroys(old(View()).c))
    {
      hide Without;
      ghost var s, op1, op2 := sched.View(), Op.SockTokenDestroy(conntoken), Op.TaskTokenDestroy(timeouttoken);
      ApplyTwo(s, op1, op2);
      CallStep(s, op1);
      conntoken := sched.SockTokenDestroy(conntoken);
      timeouttoken := sched.TaskTokenDestroy(timeouttoken);
    }

    // awe_connector_rmEventHandler, awe_connector_close
    method RmEventHandler()
      requires ConnInv(View())
      modifies this, sched
      ensures Some(View()) == Perform(old(View()), Use.RmEventHandler)
      ensures Some(View()) == Perform(old(View()), Use.Close)
    {
      hide ConnInv, ApplyAll;
      ghost var waiting := timeouttoken.Some?;
      DestroyTokens();
      givenUp := givenUp + if waiting then 1 else 0;
    }

    // awe_connector_takeout
    method Takeout()
      requires ConnInv(View())
      modifies this, sched
      ensures Some(View()) == Perform(old(View()), Use.Takeout)
    {
      RmEventHandler();
      taken := false;
    }

    // awe_connector_open
    method Open(ok: bool) returns (status: int)
      requires ConnInv(View()) && !taken
      modifies this, sched
      ensures Some(View()) == Perform(old(View()), Use.Open(ok))
      ensures status == if ok then 0 else -1
    {
      hide ConnInv, Without;
      ghost var y := View();
      if ok {
        ApplyTwo(y.s, Op.NewTimer(Delayed, CONNECTTIMEOUT, 0), Op.Watch({Write}, CONNECTHANDLING));
        OpenNumbers(y);
        taken := true;
        timeouttoken := sched.NewTimer(Delayed, CONNECTTIMEOUT, 0);
        conntoken := sched.Watch({Write}, CONNECTHANDLING);
        opens := opens + 1;
        status := 0;
      } else {
        RmEventHandler();
        taken := true;
        status := -1;
      }
    }

    // awe_connector_setEventHandler
    method SetEventHandler()
      requires ConnInv(View())
      modifies this, sched
      ensures Some(View()) == Perform(old(View()), Use.SetEventHandler)
    {
      OpenNumbers(View());
      ApplyTwo(View().s, Op.Watch({Read}, EVENTHANDLER), Op.Watch({Read}, EVENTHANDLER));
      if conntoken == None {
        conntoken := sched.Watch({Read}, EVENTHANDLER);
      }
    }

    /** connector_connecthandling and connector_connecttimeout, up to the call of the program: the
        answer goes out after both records are gone. */
    method Answer(ghost t: Id)
      requires ConnInv(View()) && (IsConnect(View(), t) || IsTimeout(View(), t))
      modifies this, sched
      ensures Some(View()) == Entered(old(View()), t)
    {
      hide ConnInv;
      DestroyTokens();
      notified := notified + 1;
    }
  }
}
