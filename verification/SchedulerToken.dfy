/** What a token of src/scheduler.c stands for as long as it lives: the record is as it was created,
    but for what the calls with this token changed. */
module SchedulerTokens {

  import opened Common
  import opened Schedulers

  // ---- timers ----

  predicate Again(op: Op, t: Id) { op.TaskAgain? && op.token == Some(t) }

  /** The argument of the last TaskAgain on t in ops; a if there is none. */
  function LastArg(ops: seq<Op>, t: Id, a: int): int {
    if ops == [] then a else LastArg(ops[1..], t, if Again(ops[0], t) then ops[0].arg else a)
  }

  /** The calls made by an event, its callback's included. */
  function OpsOf(e: Happening): seq<Op> {
    match e
    case Call(op) => [op]
    case IoFires(_, ops) => ops
    case TimerFires(_, ops) => ops
  }

  /** The same over the events from i to j. */
  function LastArgBetween(events: seq<Happening>, i: nat, j: nat, t: Id, a: int): int
    requires j <= |events|
    decreases j
  {
    if j <= i then a else LastArg(OpsOf(events[j - 1]), t, LastArgBetween(events, i, j - 1, t, a))
  }

  predicate FiresTimer(e: Happening, t: Id) { e.TimerFires? && e.t == t }

  /** t has been restarted since it last fired, or never fired. */
  predicate RunsBetween(events: seq<Happening>, i: nat, j: nat, t: Id)
    requires j <= |events|
    decreases j
  {
    j <= i
    || Restarts(OpsOf(events[j - 1]), t)
    || (!FiresTimer(events[j - 1], t) && RunsBetween(events, i, j - 1, t))
  }

  /** Record t is a timer of this kind and callback, with this argument, running or not. */
  predicate IsTimer(s: Sched, t: Id, kind: Kind, proc: nat, arg: int, running: bool) {
    t in s.timers && t in s.recs && s.recs[t] == Record(1, kind, proc, arg) && (t in s.active <==> running)
  }

  lemma TimerCall(s: Sched, op: Op, t: Id, kind: Kind, proc: nat, arg: int, running: bool)
    requires Inv(s) && IsOp(op) && Apply(s, op).Some? && IsTimer(s, t, kind, proc, arg, running)
    requires op != TaskTokenDestroy(Some(t))
    ensures IsTimer(Apply(s, op).value, t, kind, proc, if Again(op, t) then op.arg else arg, running || Again(op, t))
  {
    CallStep(s, op);
  }

  lemma {:induction false} TimerCalls(s: Sched, ops: seq<Op>, t: Id, kind: Kind, proc: nat, arg: int, running: bool)
    requires Inv(s) && (forall op :: op in ops ==> IsOp(op)) && ApplyAll(s, ops).Some?
    requires IsTimer(s, t, kind, proc, arg, running) && TaskTokenDestroy(Some(t)) !in ops
    ensures IsTimer(ApplyAll(s, ops).value, t, kind, proc, LastArg(ops, t, arg), running || Restarts(ops, t))
    decreases |ops|
  {
    if ops != [] {
      var s1 := Apply(s, ops[0]).value;
      hide Inv, Apply, IsTimer;
      CallStep(s, ops[0]);
      TimerCall(s, ops[0], t, kind, proc, arg, running);
      var arg' := if Again(ops[0], t) then ops[0].arg else arg;
      TimerCalls(s1, ops[1..], t, kind, proc, arg', running || Again(ops[0], t));
      RestartsFirst(ops, t);
    }
  }

  lemma RestartsFirst(ops: seq<Op>, t: Id)
    requires ops != []
    ensures Restarts(ops, t) <==> Again(ops[0], t) || Restarts(ops[1..], t)
  {
    if Restarts(ops[1..], t) {
      var i :| 0 <= i < |ops[1..]| && ops[1..][i].TaskAgain? && ops[1..][i].token == Some(t);
      assert ops[i + 1].TaskAgain?;
    }
  }

  /** Freeing another record, or stopping its watcher, leaves t as it is. */
  lemma OtherFreed(s: Sched, x: Id, t: Id, kind: Kind, proc: nat, arg: int, running: bool)
    requires Accounted(s) && x != t && x in s.recs && IsTimer(s, t, kind, proc, arg, running)
    ensures IsTimer(WithoutRecord(s, x), t, kind, proc, arg, running)
  {
    WithoutOne(s.timers, x);
  }

  lemma TimerEvent(s: Sched, e: Happening, t: Id, kind: Kind, proc: nat, arg: int, running: bool)
    requires Inv(s) && Enabled(s, e) && After(s, e).Some? && IsTimer(s, t, kind, proc, arg, running)
    requires TaskTokenDestroy(Some(t)) !in OpsOf(e)
    requires FiresTimer(e, t) ==> kind != Delayed
    ensures IsTimer(After(s, e).value, t, kind, proc, LastArg(OpsOf(e), t, arg),
                    Restarts(OpsOf(e), t) || (!FiresTimer(e, t) && running))
  {
    hide ApplyAll, Apply, Restarts, LastArg, WithoutRecord;
    match e {
      case Call(op) =>
        assert TaskTokenDestroy(Some(t)) in [op] <==> op == TaskTokenDestroy(Some(t));
        TimerCall(s, op, t, kind, proc, arg, running);
        OneCall(op, t, arg);
      case IoFires(x, ops) =>
        TimerCalls(s, ops, t, kind, proc, arg, running);
      case TimerFires(x, ops) =>
        TimerCalls(Halted(s, x), ops, t, kind, proc, arg, running && x != t);
        var s' := ApplyAll(Halted(s, x), ops).value;
        CallsKeep(Halted(s, x), ops);
        if x in s'.recs && s'.recs[x].kind == Delayed {
          OtherFreed(s', x, t, kind, proc, LastArg(ops, t, arg), (running && x != t) || Restarts(ops, t));
        }
    }
  }

  lemma OneCall(op: Op, t: Id, a: int)
    ensures LastArg([op], t, a) == if Again(op, t) then op.arg else a
    ensures Restarts([op], t) <==> Again(op, t)
  {
    assert [op][1..] == [];
    assert Again(op, t) ==> [op][0].TaskAgain?;
  }

  /** A timer keeps its kind and its callback until its token is destroyed or, if it is a delayed task,
      until it fires; its argument is that of the last restart; and it is running unless it has fired and
      not been restarted. */
  lemma {:induction false} TimerLives(states: seq<Sched>, events: seq<Happening>, i: nat, j: nat,
                                      kind: Kind, proc: nat, a: int)
    requires Run(states, events) && i < j < |states| && events[i] == Call(NewTimer(kind, proc, a))
    requires forall m :: i < m < j ==> TaskTokenDestroy(Some(states[i].next)) !in OpsOf(events[m])
    requires kind == Delayed ==> forall m :: i < m < j ==> !FiresTimer(events[m], states[i].next)
    ensures var t := states[i].next;
      IsTimer(states[j], t, kind, proc, LastArgBetween(events, i + 1, j, t, a), RunsBetween(events, i + 1, j, t))
    decreases j
  {
    hide Inv, IsTimer, LastArg, Restarts, OpsOf, Enabled, After, Obeys;
    var t := states[i].next;
    if j == i + 1 {
      EachRecordFreedOnce(states, events, i);
      TimerBegins(states[i], kind, proc, a);
      AfterCall(states[i], events[i]);
    } else {
      TimerLives(states, events, i, j - 1, kind, proc, a);
      EachRecordFreedOnce(states, events, j - 1);
      assert Enabled(states[j - 1], events[j - 1]) && After(states[j - 1], events[j - 1]) == Some(states[j]);
      TimerEvent(states[j - 1], events[j - 1], t, kind, proc,
                 LastArgBetween(events, i + 1, j - 1, t, a), RunsBetween(events, i + 1, j - 1, t));
    }
  }

  lemma AfterCall(s: Sched, e: Happening)
    requires e.Call?
    ensures After(s, e) == Apply(s, e.op) && (Enabled(s, e) ==> IsOp(e.op))
  {}

  lemma TimerBegins(s: Sched, kind: Kind, proc: nat, a: int)
    requires Inv(s)
    ensures var op := NewTimer(kind, proc, a);
      Apply(s, op).Some? && IsTimer(Apply(s, op).value, s.next, kind, proc, a, true)
  {}

  // ---- watchers ----

  /** The conditions of a watcher, and whether the loop watches for them. */
  datatype Watching = Watching(events: set<Event>, active: bool)

  function Switched(op: Op, t: Id, w: Watching): Watching {
    if op.Enable? && op.token == Some(t) then Watching(w.events + op.events, true)
    else if op.Disable? && op.token == Some(t) then Watching(w.events - op.events, w.events - op.events != {})
    else w
  }

  function AllSwitched(ops: seq<Op>, t: Id, w: Watching): Watching {
    if ops == [] then w else AllSwitched(ops[1..], t, Switched(ops[0], t, w))
  }

  function SwitchedBetween(events: seq<Happening>, i: nat, j: nat, t: Id, w: Watching): Watching
    requires j <= |events|
    decreases j
  {
    if j <= i then w else AllSwitched(OpsOf(events[j - 1]), t, SwitchedBetween(events, i, j - 1, t, w))
  }

  predicate IsWatcher(s: Sched, t: Id, proc: nat, w: Watching) {
    t in s.io && t in s.recs && s.recs[t] == Record(1, Io(w.events), proc, 0) && (t in s.active <==> w.active)
  }

  lemma WatcherCall(s: Sched, op: Op, t: Id, proc: nat, w: Watching)
    requires Inv(s) && IsOp(op) && Apply(s, op).Some? && IsWatcher(s, t, proc, w) && op != SockTokenDestroy(Some(t))
    ensures IsWatcher(Apply(s, op).value, t, proc, Switched(op, t, w))
  {
    CallStep(s, op);
  }

  lemma {:induction false} WatcherCalls(s: Sched, ops: seq<Op>, t: Id, proc: nat, w: Watching)
    requires Inv(s) && (forall op :: op in ops ==> IsOp(op)) && ApplyAll(s, ops).Some?
    requires IsWatcher(s, t, proc, w) && SockTokenDestroy(Some(t)) !in ops
    ensures IsWatcher(ApplyAll(s, ops).value, t, proc, AllSwitched(ops, t, w))
    decreases |ops|
  {
    if ops != [] {
      var s1 := Apply(s, ops[0]).value;
      hide Inv, Apply, IsWatcher;
      CallStep(s, ops[0]);
      WatcherCall(s, ops[0], t, proc, w);
      WatcherCalls(s1, ops[1..], t, proc, Switched(ops[0], t, w));
    }
  }

  lemma WatcherEvent(s: Sched, e: Happening, t: Id, proc: nat, w: Watching)
    requires Inv(s) && Enabled(s, e) && After(s, e).Some? && IsWatcher(s, t, proc, w)
    requires SockTokenDestroy(Some(t)) !in OpsOf(e)
    ensures IsWatcher(After(s, e).value, t, proc, AllSwitched(OpsOf(e), t, w))
  {
    hide ApplyAll, Apply, AllSwitched, WithoutRecord;
    match e {
      case Call(op) =>
        assert SockTokenDestroy(Some(t)) in [op] <==> op == SockTokenDestroy(Some(t));
        WatcherCall(s, op, t, proc, w);
        OneSwitch(op, t, w);
      case IoFires(x, ops) => WatcherCalls(s, ops, t, proc, w);
      case TimerFires(x, ops) =>
        WatcherCalls(Halted(s, x), ops, t, proc, w);
        var s' := ApplyAll(Halted(s, x), ops).value;
        CallsKeep(Halted(s, x), ops);
        if x in s'.recs && s'.recs[x].kind == Delayed { OtherTimerFreed(s', x, t, proc, AllSwitched(ops, t, w)); }
    }
  }

  lemma OneSwitch(op: Op, t: Id, w: Watching)
    ensures AllSwitched([op], t, w) == Switched(op, t, w)
  {
    assert [op][1..] == [];
  }

  lemma OtherTimerFreed(s: Sched, x: Id, t: Id, proc: nat, w: Watching)
    requires Accounted(s) && x in s.recs && s.recs[x].kind == Delayed && IsWatcher(s, t, proc, w)
    ensures IsWatcher(WithoutRecord(s, x), t, proc, w)
  {
    WithoutOne(s.io, x);
  }

  /** A watcher keeps its callback until its token is destroyed; its conditions are those it was created
      with, as switched since; and the loop watches it unless nothing was left when it was last
      switched. */
  lemma {:induction false} WatcherLives(states: seq<Sched>, events: seq<Happening>, i: nat, j: nat,
                                        conditions: set<Event>, proc: nat)
    requires Run(states, events) && i < j < |states| && events[i] == Call(Watch(conditions, proc))
    requires forall m :: i < m < j ==> SockTokenDestroy(Some(states[i].next)) !in OpsOf(events[m])
    ensures var t := states[i].next;
      IsWatcher(states[j], t, proc, SwitchedBetween(events, i + 1, j, t, Watching(conditions, true)))
    decreases j
  {
    hide Inv, IsWatcher, AllSwitched, OpsOf, Enabled, After, Obeys;
    var t, w := states[i].next, Watching(conditions, true);
    if j == i + 1 {
      EachRecordFreedOnce(states, events, i);
      WatcherBegins(states[i], conditions, proc);
      AfterCall(states[i], events[i]);
    } else {
      WatcherLives(states, events, i, j - 1, conditions, proc);
      EachRecordFreedOnce(states, events, j - 1);
      assert Enabled(states[j - 1], events[j - 1]) && After(states[j - 1], events[j - 1]) == Some(states[j]);
      WatcherEvent(states[j - 1], events[j - 1], t, proc, SwitchedBetween(events, i + 1, j - 1, t, w));
    }
  }

  lemma WatcherBegins(s: Sched, conditions: set<Event>, proc: nat)
    requires Inv(s)
    ensures var op := Watch(conditions, proc);
      Apply(s, op).Some? && IsWatcher(Apply(s, op).value, s.next, proc, Watching(conditions, true))
  {}
}
