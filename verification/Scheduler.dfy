/** The records and tokens of src/scheduler.c between start and stop. All calls and callbacks are on
    the loop's thread; the loop itself is a set of active watchers. */
module Schedulers {

  import opened Common

  /** Records are numbered in the order of their creation; a record's number is also its token. */
  type Id = nat
  type Token = Option<Id>

  datatype Event = Read | Write

  datatype Kind = Io(events: set<Event>) | Delayed | Periodic

  /** struct awe_evio_userdata and struct awe_evtimer_userdata. */
  datatype Record = Record(refs: int, kind: Kind, proc: nat, arg: int)

  /** The two lists, the allocated records, the watchers that the loop may fire, and what has been
      freed so far. */
  datatype Sched = Sched(io: seq<Id>, timers: seq<Id>, recs: map<Id, Record>, active: set<Id>,
                         next: nat, freed: seq<Id>)

  datatype Op =
    | Watch(events: set<Event>, proc: nat)
    | NewTimer(kind: Kind, proc: nat, arg: int)
    | TaskAgain(token: Token, arg: int)
    | SockTokenDestroy(token: Token)
    | TaskTokenDestroy(token: Token)
    | Enable(token: Token, events: set<Event>)
    | Disable(token: Token, events: set<Event>)

  function Without(s: seq<Id>, t: Id): seq<Id> {
    if s == [] then [] else if s[0] == t then s[1..] else [s[0]] + Without(s[1..], t)
  }

  lemma {:induction false} WithoutOne(s: seq<Id>, t: Id)
    requires Distinct(s)
    ensures Distinct(Without(s, t)) && forall x :: x in Without(s, t) <==> x in s && x != t
  {
    if s != [] {
      WithoutOne(s[1..], t);
      assert s == [s[0]] + s[1..];
      if s[0] == t {
        assert forall x :: x in s[1..] ==> x != t;
      } else {
        DistinctConcat([s[0]], Without(s[1..], t));
      }
    }
  }

  function WithTimer(s: Sched, kind: Kind, proc: nat, arg: int): Sched {
    s.(timers := s.timers + [s.next], recs := s.recs[s.next := Record(1, kind, proc, arg)],
       active := s.active + {s.next}, next := s.next + 1)
  }

  function WithWatcher(s: Sched, events: set<Event>, proc: nat): Sched {
    s.(io := s.io + [s.next], recs := s.recs[s.next := Record(1, Io(events), proc, 0)],
       active := s.active + {s.next}, next := s.next + 1)
  }

  function WithEvents(s: Sched, t: Id, events: set<Event>, running: bool): Sched
    requires t in s.recs
  {
    s.(recs := s.recs[t := s.recs[t].(kind := Io(events))],
       active := if running then s.active + {t} else s.active - {t})
  }

  /** Takes a record off its list and frees it. */
  function WithoutRecord(s: Sched, t: Id): Sched {
    s.(io := Without(s.io, t), timers := Without(s.timers, t), recs := s.recs - {t}, freed := s.freed + [t])
  }

  function Halted(s: Sched, t: Id): Sched {
    s.(active := s.active - {t})
  }

  /** What one call does; None: it uses a record that is not there. */
  function Apply(s: Sched, op: Op): Option<Sched> {
    match op
    case Watch(events, proc) => Some(WithWatcher(s, events, proc))
    case NewTimer(kind, proc, arg) => Some(WithTimer(s, kind, proc, arg))
    case TaskAgain(token, arg) =>
      if token.None? || token.value !in s.timers then Some(s)
      else if token.value !in s.recs then None
      else Some(s.(recs := s.recs[token.value := s.recs[token.value].(arg := arg)], active := s.active + {token.value}))
    case SockTokenDestroy(token) =>
      if token.None? || token.value !in s.io then Some(s)
      else if token.value !in s.recs then None
      else Some(WithoutRecord(Halted(s, token.value), token.value))
    case TaskTokenDestroy(token) =>
      if token.None? || token.value !in s.timers then Some(s)
      else if token.value !in s.recs then None
      else Some(WithoutRecord(Halted(s, token.value), token.value))
    case Enable(token, events) =>
      if token.None? then Some(s)
      else if token.value !in s.recs || !s.recs[token.value].kind.Io? then None
      else Some(WithEvents(s, token.value, s.recs[token.value].kind.events + events, true))
    case Disable(token, events) =>
      if token.None? then Some(s)
      else if token.value !in s.recs || !s.recs[token.value].kind.Io? then None
      else var left := s.recs[token.value].kind.events - events;
           Some(WithEvents(s, token.value, left, left != {}))
  }

  function ApplyAll(s: Sched, ops: seq<Op>): Option<Sched>
    decreases |ops|
  {
    if ops == [] then Some(s)
    else match Apply(s, ops[0])
         case None => None
         case Some(s') => ApplyAll(s', ops[1..])
  }

  /** scheduler_evtimer_cb: the loop has stopped the expired watcher; the callback makes some calls;
      then the record is read, and deleted unless it is periodic. */
  function FiredTimer(s: Sched, t: Id, ops: seq<Op>): Option<Sched> {
    if t !in s.recs then None
    else match ApplyAll(Halted(s, t), ops)
         case None => None
         case Some(s') =>
           if t !in s'.recs then None
           else if s'.recs[t].kind == Delayed then Some(WithoutRecord(s', t))
           else Some(s')
  }

  /** scheduler_evio_cb: everything it reads of the record it reads before the callback. */
  function FiredIo(s: Sched, t: Id, ops: seq<Op>): Option<Sched> {
    if t !in s.recs then None else ApplyAll(s, ops)
  }

  const INIT := Sched([], [], map[], {}, 0, [])

  // ---- what every call keeps ----

  /** The lists hold exactly the allocated records, each once and with the list's one reference;
      every record ever created is either allocated or has been freed once. */
  ghost predicate Accounted(s: Sched) {
    && Distinct(s.io) && Distinct(s.timers) && Distinct(s.freed)
    && (forall t :: t in s.io <==> t in s.recs && s.recs[t].kind.Io?)
    && (forall t :: t in s.timers <==> t in s.recs && !s.recs[t].kind.Io?)
    && (forall t :: t in s.recs ==> s.recs[t].refs == 1)
    && (forall t: Id :: t < s.next <==> t in s.recs || t in s.freed)
    && (forall t: Id :: t in s.recs ==> t !in s.freed)
  }

  /** Besides, the loop knows no watcher inside a freed record. */
  ghost predicate Inv(s: Sched) {
    Accounted(s) && forall t :: t in s.active ==> t in s.recs
  }

  /** Enabling or disabling a token that is not a live watcher's; these two do not search. */
  predicate StaleSwitch(s: Sched, op: Op) {
    (op.Enable? || op.Disable?) && op.token.Some? && op.token.value !in s.io
  }

  /** NewTimer is only ever given a timer kind (lines 419-427). */
  predicate IsOp(op: Op) {
    op.NewTimer? ==> !op.kind.Io?
  }

  lemma DestroyKeeps(s: Sched, t: Id)
    requires Accounted(s) && t in s.recs
    ensures Accounted(WithoutRecord(s, t))
  {
    WithoutOne(s.io, t);
    WithoutOne(s.timers, t);
    DistinctConcat(s.freed, [t]);
  }

  lemma AddKeeps(s: Sched, kind: Kind, proc: nat, arg: int)
    requires Accounted(s)
    ensures kind.Io? ==> Accounted(WithWatcher(s, kind.events, proc))
    ensures !kind.Io? ==> Accounted(WithTimer(s, kind, proc, arg))
  {
    assert s.next !in s.recs && s.next !in s.freed;
    DistinctConcat(s.io, [s.next]);
    DistinctConcat(s.timers, [s.next]);
  }

  lemma AddStep(s: Sched, op: Op)
    requires Inv(s) && IsOp(op) && (op.Watch? || op.NewTimer?)
    ensures Apply(s, op).Some? && Inv(Apply(s, op).value) && s.next <= Apply(s, op).value.next
  {
    hide Without, Accounted;
    match op {
      case Watch(events, proc) => AddKeeps(s, Io(events), proc, 0);
      case NewTimer(kind, proc, arg) => AddKeeps(s, kind, proc, arg);
    }
  }

  lemma DestroyStep(s: Sched, op: Op)
    requires Inv(s) && (op.SockTokenDestroy? || op.TaskTokenDestroy?)
    ensures Apply(s, op).Some? && Inv(Apply(s, op).value) && s.next <= Apply(s, op).value.next
  {
    if Apply(s, op) != Some(s) {
      assert Accounted(Halted(s, op.token.value));
      DestroyKeeps(Halted(s, op.token.value), op.token.value);
    }
  }

  /** Whatever token it is given, a call uses a freed record only by enabling or disabling it. */
  lemma CallStep(s: Sched, op: Op)
    requires Inv(s) && IsOp(op)
    ensures Apply(s, op) == None <==> StaleSwitch(s, op)
    ensures Apply(s, op).Some? ==> Inv(Apply(s, op).value) && s.next <= Apply(s, op).value.next
  {
    if op.Watch? || op.NewTimer? {
      hide Apply, Inv;
      AddStep(s, op);
    } else if op.SockTokenDestroy? || op.TaskTokenDestroy? {
      hide Apply, Inv;
      DestroyStep(s, op);
    }
  }

  /** A stale token is searched for and not found: nothing happens. */
  lemma StaleTokenIsHarmless(s: Sched, op: Op)
    requires Inv(s) && (op.TaskAgain? || op.SockTokenDestroy? || op.TaskTokenDestroy?)
    requires op.token.Some? && op.token.value !in s.recs
    ensures Apply(s, op) == Some(s)
  {}

  lemma {:induction false} CallsKeep(s: Sched, ops: seq<Op>)
    requires Inv(s) && (forall op :: op in ops ==> IsOp(op)) && ApplyAll(s, ops).Some?
    ensures Inv(ApplyAll(s, ops).value)
    decreases |ops|
  {
    if ops != [] {
      CallStep(s, ops[0]);
      CallsKeep(Apply(s, ops[0]).value, ops[1..]);
    }
  }

  /** What calls do to one record: it stays, unless one of them destroys its token; and then its
      kind is unchanged and its timer runs if it did or if one of them restarts it. */
  lemma CallOnTimer(s: Sched, op: Op, t: Id)
    requires Inv(s) && IsOp(op) && t in s.timers && Apply(s, op).Some?
    ensures var s' := Apply(s, op).value;
      if op == TaskTokenDestroy(Some(t)) then t !in s'.recs
      else && t in s'.timers && t in s'.recs && s'.recs[t].kind == s.recs[t].kind
           && (t in s'.active <==> t in s.active || (op.TaskAgain? && op.token == Some(t)))
  {
    CallStep(s, op);
  }

  predicate Restarts(ops: seq<Op>, t: Id) {
    exists i :: 0 <= i < |ops| && ops[i].TaskAgain? && ops[i].token == Some(t)
  }

  lemma {:induction false} CallsOnTimer(s: Sched, ops: seq<Op>, t: Id)
    requires Inv(s) && (forall op :: op in ops ==> IsOp(op)) && t in s.timers && ApplyAll(s, ops).Some?
    ensures var s' := ApplyAll(s, ops).value;
      if TaskTokenDestroy(Some(t)) in ops then t !in s'.recs
      else && t in s'.timers && t in s'.recs && s'.recs[t].kind == s.recs[t].kind
           && (t in s'.active <==> t in s.active || Restarts(ops, t))
    decreases |ops|
  {
    hide Inv, Apply;
    FreedForGood(s, s, t);
    if ops != [] {
      var rest := ops[1..];
      var destroy := TaskTokenDestroy(Some(t));
      assert destroy in ops <==> ops[0] == destroy || destroy in rest by {
        assert ops == [ops[0]] + rest;
      }
      var s1 := Apply(s, ops[0]).value;
      CallStep(s, ops[0]);
      CallOnTimer(s, ops[0], t);
      assert Restarts(ops, t) <==> (ops[0].TaskAgain? && ops[0].token == Some(t)) || Restarts(rest, t) by {
        if Restarts(rest, t) {
          var i :| 0 <= i < |rest| && rest[i].TaskAgain? && rest[i].token == Some(t);
          assert ops[i + 1].TaskAgain?;
        }
      }
      if ops[0] == TaskTokenDestroy(Some(t)) {
        assert t in s1.freed by { FreedForGood(s, s1, t); }
        CallsForgetNothing(s1, rest, t);
      } else {
        CallsOnTimer(s1, rest, t);
      }
    }
  }

  lemma FreedForGood(s: Sched, s': Sched, t: Id)
    requires Inv(s) && Inv(s') && t in s.timers && s.next <= s'.next
    ensures t in s.recs && (t in s'.recs || t in s'.freed)
  {}

  /** Freed is freed: numbers are not used twice. */
  lemma {:induction false} CallsForgetNothing(s: Sched, ops: seq<Op>, t: Id)
    requires Inv(s) && (forall op :: op in ops ==> IsOp(op)) && ApplyAll(s, ops).Some? && t in s.freed
    ensures t in ApplyAll(s, ops).value.freed && t !in ApplyAll(s, ops).value.recs
    decreases |ops|
  {
    if ops != [] {
      CallStep(s, ops[0]);
      CallsForgetNothing(Apply(s, ops[0]).value, ops[1..], t);
    }
  }

  // ---- callbacks ----

  /** The read behind the callback at line 159 is of a live record exactly when the callback did not
      destroy its own token. After it, no freed record is known to the loop exactly when, moreover, a
      delayed task did not restart itself: the list entry is deleted at line 166 without stopping the
      watcher. */
  lemma TimerCallbackIsSafe(s: Sched, t: Id, ops: seq<Op>)
    requires Inv(s) && t in s.timers && (forall op :: op in ops ==> IsOp(op))
    requires ApplyAll(Halted(s, t), ops).Some?
    ensures FiredTimer(s, t, ops).Some? <==> TaskTokenDestroy(Some(t)) !in ops
    ensures FiredTimer(s, t, ops).Some? ==> Accounted(FiredTimer(s, t, ops).value)
    ensures (FiredTimer(s, t, ops).Some? && Inv(FiredTimer(s, t, ops).value))
      <==> TaskTokenDestroy(Some(t)) !in ops && (s.recs[t].kind == Delayed ==> !Restarts(ops, t))
  {
    hide ApplyAll, Without, Restarts;
    CallsOnTimer(Halted(s, t), ops, t);
    CallsKeep(Halted(s, t), ops);
    var s' := ApplyAll(Halted(s, t), ops).value;
    if t in s'.recs { DestroyKeeps(s', t); }
  }

  /** An io callback may destroy any token, its own too. */
  lemma IoCallbackIsSafe(s: Sched, t: Id, ops: seq<Op>)
    requires Inv(s) && t in s.io && (forall op :: op in ops ==> IsOp(op)) && ApplyAll(s, ops).Some?
    ensures FiredIo(s, t, ops).Some? && Inv(FiredIo(s, t, ops).value)
  {
    CallsKeep(s, ops);
  }

  // ---- runs ----

  datatype Happening = Call(op: Op) | IoFires(t: Id, ops: seq<Op>) | TimerFires(t: Id, ops: seq<Op>)

  /** The loop fires active watchers only. */
  predicate Enabled(s: Sched, e: Happening) {
    match e
    case Call(op) => IsOp(op)
    case IoFires(t, ops) => t in s.active && t in s.io && forall op :: op in ops ==> IsOp(op)
    case TimerFires(t, ops) => t in s.active && t !in s.io && forall op :: op in ops ==> IsOp(op)
  }

  function After(s: Sched, e: Happening): Option<Sched> {
    match e
    case Call(op) => Apply(s, op)
    case IoFires(t, ops) => FiredIo(s, t, ops)
    case TimerFires(t, ops) => FiredTimer(s, t, ops)
  }

  predicate LiveSwitches(s: Sched, ops: seq<Op>)
    decreases |ops|
  {
    ops == [] || (
      && !StaleSwitch(s, ops[0])
      && (Apply(s, ops[0]).Some? ==> LiveSwitches(Apply(s, ops[0]).value, ops[1..])))
  }

  /** What the program has to respect. */
  predicate Obeys(s: Sched, e: Happening) {
    match e
    case Call(op) => !StaleSwitch(s, op)
    case IoFires(t, ops) => LiveSwitches(s, ops)
    case TimerFires(t, ops) =>
      && LiveSwitches(Halted(s, t), ops)
      && TaskTokenDestroy(Some(t)) !in ops
      && (t in s.recs && s.recs[t].kind == Delayed ==> !Restarts(ops, t))
  }

  lemma {:induction false} SwitchesDecide(s: Sched, ops: seq<Op>)
    requires Inv(s) && forall op :: op in ops ==> IsOp(op)
    ensures ApplyAll(s, ops).Some? <==> LiveSwitches(s, ops)
    decreases |ops|
  {
    if ops != [] {
      CallStep(s, ops[0]);
      if Apply(s, ops[0]).Some? { SwitchesDecide(Apply(s, ops[0]).value, ops[1..]); }
    }
  }

  /** A step uses no freed record and leaves none to the loop exactly when the program obeys. */
  lemma StepIsSafe(s: Sched, e: Happening)
    requires Inv(s) && Enabled(s, e)
    ensures After(s, e).Some? && Inv(After(s, e).value) <==> Obeys(s, e)
  {
    hide Restarts, LiveSwitches, ApplyAll, Apply;
    match e {
      case Call(op) => CallStep(s, op);
      case IoFires(t, ops) =>
        SwitchesDecide(s, ops);
        if ApplyAll(s, ops).Some? { IoCallbackIsSafe(s, t, ops); }
      case TimerFires(t, ops) =>
        SwitchesDecide(Halted(s, t), ops);
        if ApplyAll(Halted(s, t), ops).Some? { TimerCallbackIsSafe(s, t, ops); }
    }
  }

  ghost predicate Run(states: seq<Sched>, events: seq<Happening>) {
    && |states| == |events| + 1 && states[0] == INIT
    && forall i :: 0 <= i < |events| ==>
         && Enabled(states[i], events[i]) && Obeys(states[i], events[i])
         && After(states[i], events[i]) == Some(states[i + 1])
  }

  /** In every state of every run by the rules each record is either allocated, and then on its list
      once, or has been freed once. */
  lemma {:induction false} EachRecordFreedOnce(states: seq<Sched>, events: seq<Happening>, i: nat)
    requires Run(states, events) && i < |states|
    ensures Inv(states[i])
  {
    hide Obeys, Enabled, After, Inv;
    if i > 0 {
      EachRecordFreedOnce(states, events, i - 1);
      StepIsSafe(states[i - 1], events[i - 1]);
    } else {
      InitInv();
    }
  }

  lemma InitInv()
    ensures Inv(INIT)
  {
    assert forall x :: x !in INIT.io;
  }

  lemma {:induction false} CallsOnlyAppend(s: Sched, ops: seq<Op>)
    requires ApplyAll(s, ops).Some?
    ensures s.freed <= ApplyAll(s, ops).value.freed
    decreases |ops|
  {
    if ops != [] { CallsOnlyAppend(Apply(s, ops[0]).value, ops[1..]); }
  }

  lemma {:induction false} FreedGrows(states: seq<Sched>, events: seq<Happening>, i: nat, j: nat)
    requires Run(states, events) && i <= j < |states|
    ensures states[i].freed <= states[j].freed
    decreases j - i
  {
    if i < j {
      var s, e := states[i], events[i];
      assert After(s, e) == Some(states[i + 1]);
      match e {
        case Call(op) =>
        case IoFires(t, ops) => CallsOnlyAppend(s, ops);
        case TimerFires(t, ops) => CallsOnlyAppend(Halted(s, t), ops);
      }
      FreedGrows(states, events, i + 1, j);
    }
  }

  /** Nothing fires a freed record: not after its token was destroyed, not after it fired. */
  lemma FreedNeverFires(states: seq<Sched>, events: seq<Happening>, t: Id, i: nat, j: nat)
    requires Run(states, events) && i <= j < |events| && t in states[i].freed
    ensures !(events[j].TimerFires? && events[j].t == t) && !(events[j].IoFires? && events[j].t == t)
  {
    hide Obeys, After;
    FreedGrows(states, events, i, j);
    EachRecordFreedOnce(states, events, j);
    assert Enabled(states[j], events[j]);
  }

  /** A delayed task runs at most once, and its record is freed when it has run. */
  lemma DelayedRunsAtMostOnce(states: seq<Sched>, events: seq<Happening>, i: nat, j: nat)
    requires Run(states, events) && i < j < |events|
    requires events[i].TimerFires? && events[i].t in states[i].recs && states[i].recs[events[i].t].kind == Delayed
    ensures events[i].t in states[i + 1].freed
    ensures !(events[j].TimerFires? && events[j].t == events[i].t)
  {
    var s, t, ops := states[i], events[i].t, events[i].ops;
    assert Obeys(s, events[i]) && Enabled(s, events[i]) && After(s, events[i]) == Some(states[i + 1]);
    hide Run, Restarts, LiveSwitches, ApplyAll, Inv;
    EachRecordFreedOnce(states, events, i);
    OneShot(s, t, ops);
    FreedNeverFires(states, events, t, i + 1, j);
  }

  lemma OneShot(s: Sched, t: Id, ops: seq<Op>)
    requires Inv(s) && t in s.active && t !in s.io && (forall op :: op in ops ==> IsOp(op))
    requires t in s.recs && s.recs[t].kind == Delayed && FiredTimer(s, t, ops).Some?
    ensures t in FiredTimer(s, t, ops).value.freed
  {
    hide ApplyAll, Without, Restarts;
    CallsOnTimer(Halted(s, t), ops, t);
    TimerCallbackIsSafe(s, t, ops);
  }

  // ---- the scheduler itself ----

  lemma ListedIsAllocated(s: Sched, t: Id)
    requires Accounted(s)
    ensures t in s.io ==> t in s.recs && s.recs[t].refs == 1 && t !in s.timers
    ensures t in s.timers ==> t in s.recs && s.recs[t].refs == 1 && t !in s.io
  {}

  lemma {:induction false} WithoutAt(s: seq<Id>, k: nat, t: Id)
    requires k <= |s| && (forall i :: 0 <= i < k ==> s[i] != t) && (k < |s| ==> s[k] == t)
    ensures Without(s, t) == if k < |s| then s[..k] + s[k + 1..] else s
  {
    if k > 0 {
      WithoutAt(s[1..], k - 1, t);
      assert s == [s[0]] + s[1..];
    }
  }

  lemma {:induction false} Absent(s: seq<Id>, t: Id)
    ensures t !in s ==> Without(s, t) == s
  {
    if s != [] { Absent(s[1..], t); }
  }

  class Scheduler {
    var io: seq<Id>
    var timers: seq<Id>
    var recs: map<Id, Record>
    var active: set<Id>
    var next: nat
    var freed: seq<Id>

    ghost function View(): Sched
      reads this
    {
      Sched(io, timers, recs, active, next, freed)
    }

    constructor ()
      ensures View() == INIT
    {
      io, timers, recs, active, next, freed := [], [], map[], {}, 0, [];
    }

    // awe_evio_userdata_autorelease, awe_evtimer_userdata_autorelease
    method Autorelease(t: Id)
      requires t in recs
      modifies this`recs, this`freed
      ensures old(recs[t]).refs == 1 ==> recs == old(recs) - {t} && freed == old(freed) + [t]
      ensures old(recs[t]).refs != 1 ==>
        recs == old(recs)[t := old(recs[t]).(refs := old(recs[t]).refs - 1)] && freed == old(freed)
    {
      var refs := recs[t].refs;
      recs := recs[t := recs[t].(refs := refs - 1)];
      if refs == 1 {
        recs, freed := recs - {t}, freed + [t];
      }
    }

    /** The search of the lists goes by identity. */
    method Unlink(s: seq<Id>, t: Id) returns (found: bool, rest: seq<Id>)
      ensures found <==> t in s
      ensures rest == Without(s, t)
    {
      var k := 0;
      while k < |s| && s[k] != t
        invariant k <= |s| && forall i :: 0 <= i < k ==> s[i] != t
      {
        k := k + 1;
      }
      WithoutAt(s, k, t);
      found := k < |s|;
      if found { rest := s[..k] + s[k + 1..]; } else { rest := s; }
    }

    // awe_scheduler_watch
    method Watch(events: set<Event>, proc: nat) returns (token: Token)
      requires next !in recs
      modifies this
      ensures View() == WithWatcher(old(View()), events, proc) && token == Some(old(next))
    {
      var t := next;
      recs, next := recs[t := Record(1, Io(events), proc, 0)], next + 1;
      active := active + {t};
      token := Some(t);
      recs, io := recs[t := recs[t].(refs := 2)], io + [t];
      Autorelease(t);
      assert recs == old(recs)[t := Record(1, Io(events), proc, 0)];
    }

    // awe_scheduler_timertask
    method NewTimer(kind: Kind, proc: nat, arg: int) returns (token: Token)
      requires next !in recs && !kind.Io?
      modifies this
      ensures View() == WithTimer(old(View()), kind, proc, arg) && token == Some(old(next))
    {
      var t := next;
      recs, next := recs[t := Record(1, kind, proc, arg)], next + 1;
      active := active + {t};
      token := Some(t);
      recs, timers := recs[t := recs[t].(refs := 2)], timers + [t];
      Autorelease(t);
      assert recs == old(recs)[t := Record(1, kind, proc, arg)];
    }

    // awe_scheduler_task_again
    method TaskAgain(token: Token, arg: int) returns (ok: bool)
      requires Accounted(View())
      modifies this`recs, this`active
      ensures Some(View()) == Apply(old(View()), Op.TaskAgain(token, arg))
      ensures ok <==> token.Some? && token.value in timers
    {
      ok := token.Some? && token.value in timers;
      if ok {
        recs := recs[token.value := recs[token.value].(arg := arg)];
        active := active - {token.value};
        active := active + {token.value};
        assert active == old(active) + {token.value};
      }
    }

    // awe_scheduler_socktoken_destroy
    method SockTokenDestroy(token: Token) returns (cleared: Token)
      requires Accounted(View())
      modifies this
      ensures Some(View()) == Apply(old(View()), Op.SockTokenDestroy(token)) && cleared == None
    {
      hide Accounted, Without;
      if token.Some? {
        Absent(timers, token.value);
        ListedIsAllocated(View(), token.value);
        var found, rest := Unlink(io, token.value);
        if found {
          io := rest;
          active := active - {token.value};
          Autorelease(token.value);
        }
      }
      cleared := None;
    }

    // awe_scheduler_tasktoken_destroy
    method TaskTokenDestroy(token: Token) returns (cleared: Token)
      requires Accounted(View())
      modifies this
      ensures Some(View()) == Apply(old(View()), Op.TaskTokenDestroy(token)) && cleared == None
    {
      hide Accounted, Without;
      if token.Some? {
        Absent(io, token.value);
        ListedIsAllocated(View(), token.value);
        var found, rest := Unlink(timers, token.value);
        if found {
          timers := rest;
          active := active - {token.value};
          Autorelease(token.value);
        }
      }
      cleared := None;
    }

    predicate IsWatcher(t: Id)
      reads this
    {
      t in recs && recs[t].kind.Io?
    }

    /** awe_scheduler_enable does not search for its token: ok is false if it uses a record that is not
        a live watcher's. */
    method Enable(token: Token, events: set<Event>) returns (ok: bool)
      modifies this`recs, this`active
      ensures ok <==> Apply(old(View()), Op.Enable(token, events)).Some?
      ensures View() == if ok then Apply(old(View()), Op.Enable(token, events)).value else old(View())
    {
      ok := token.None? || IsWatcher(token.value);
      if token.Some? && ok {
        var t := token.value;
        active := active - {t};
        recs := recs[t := recs[t].(kind := Io(recs[t].kind.events + events))];
        active := active + {t};
        assert active == old(active) + {t};
      }
    }

    // awe_scheduler_disable, likewise
    method Disable(token: Token, events: set<Event>) returns (ok: bool)
      modifies this`recs, this`active
      ensures ok <==> Apply(old(View()), Op.Disable(token, events)).Some?
      ensures View() == if ok then Apply(old(View()), Op.Disable(token, events)).value else old(View())
    {
      ok := token.None? || IsWatcher(token.value);
      if token.Some? && ok {
        var t := token.value;
        active := active - {t};
        recs := recs[t := recs[t].(kind := Io(recs[t].kind.events - events))];
        if recs[t].kind.events != {} {
          active := active + {t};
          assert active == old(active) + {t};
        }
      }
    }

    /** Calls made one after the other, as a callback makes them, up to the first that faults. */
    method Perform(ops: seq<Op>) returns (ok: bool)
      requires Inv(View()) && forall op :: op in ops ==> IsOp(op)
      modifies this
      ensures ok <==> ApplyAll(old(View()), ops).Some?
      ensures ok ==> Some(View()) == ApplyAll(old(View()), ops) && Inv(View())
    {
      hide Without, Inv;
      var k := 0;
      ok := true;
      while k < |ops|
        invariant k <= |ops| && Inv(View()) && ApplyAll(View(), ops[k..]) == ApplyAll(old(View()), ops)
      {
        var op := ops[k];
        CallStep(View(), op);
        assert ops[k..][1..] == ops[k + 1..];
        ok := Call(op);
        if !ok { return; }
        k := k + 1;
      }
    }

    method Call(op: Op) returns (ok: bool)
      requires Inv(View()) && IsOp(op)
      modifies this
      ensures ok <==> Apply(old(View()), op).Some?
      ensures ok ==> Some(View()) == Apply(old(View()), op)
    {
      hide Without;
      CallStep(View(), op);
      ok := true;
      match op {
        case Watch(events, proc) => var _ := Watch(events, proc);
        case NewTimer(kind, proc, arg) => var _ := NewTimer(kind, proc, arg);
        case TaskAgain(token, arg) => var _ := TaskAgain(token, arg);
        case SockTokenDestroy(token) => var _ := SockTokenDestroy(token);
        case TaskTokenDestroy(token) => var _ := TaskTokenDestroy(token);
        case Enable(token, events) => ok := Enable(token, events);
        case Disable(token, events) => ok := Disable(token, events);
      }
    }

    /** scheduler_evtimer_cb, for any callback: ok is false if it uses a freed record. */
    method TimerCallback(t: Id, ops: seq<Op>) returns (ok: bool)
      requires Inv(View()) && Enabled(View(), TimerFires(t, ops))
      modifies this
      ensures ok <==> FiredTimer(old(View()), t, ops).Some?
      ensures ok ==> Some(View()) == FiredTimer(old(View()), t, ops) && Accounted(View())
    {
      hide Without, ApplyAll, Restarts, LiveSwitches;
      ghost var s := View();
      active := active - {t};
      ok := Perform(ops);
      if !ok { return; }
      TimerCallbackIsSafe(s, t, ops);
      ok := t in recs;
      if ok && recs[t].kind == Delayed {
        CallsOnTimer(Halted(s, t), ops, t);
        ListedIsAllocated(View(), t);
        Absent(io, t);
        var _, rest := Unlink(timers, t);
        timers := rest;
        Autorelease(t);
      }
    }
  }
}
