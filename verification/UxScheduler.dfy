/** src/uxscheduler.c: the operations on the event table, the descriptor sets and the dispatch of
    one round, and the time a round may wait. */
module UxScheduler {

  import opened Common
  import opened UxTable
  import opened Bits

  // ---- what a round does, as functions of the table ----

  predicate Has(e: Event, mask: bv32) { e.conditions & mask != 0 }

  /** The descriptors with a given condition, in table order. */
  function Wanting(t: seq<Event>, mask: bv32): (r: seq<int>)
    ensures |r| <= |t|
  {
    if t == [] then []
    else (if Has(t[0], mask) then [t[0].ufd] else []) + Wanting(t[1..], mask)
  }

  function ApplyAll(t: seq<Event>, ops: seq<Op>): seq<Event>
    decreases |ops|
  {
    if ops == [] then t else ApplyAll(Apply(t, ops[0]), ops[1..])
  }

  /** One handler call, and the table at the moment of the call. */
  datatype Call = Call(ufd: int, mask: bv32, handler: nat, table: seq<Event>)

  /** What happens when the descriptors of one set are visited in order.  The n-th handler called in
      the round performs the operations effects(n); n handlers have been called before. */
  function Visit(set_: seq<int>, mask: bv32, t: seq<Event>, n: nat, effects: nat -> seq<Op>): (seq<Call>, seq<Event>) {
    if set_ == [] then ([], t)
    else
      var e := Lookup(t, set_[0]);
      if set_[0] == 0 || e.None? then Visit(set_[1..], mask, t, n, effects)
      else
        var (calls, t') := Visit(set_[1..], mask, ApplyAll(t, effects(n)), n + 1, effects);
        ([Call(set_[0], mask, e.value.handler, t)] + calls, t')
  }

  lemma VisitFrom(fds: seq<int>, i: nat, mask: bv32, t: seq<Event>, n: nat, effects: nat -> seq<Op>)
    requires i < |fds|
    ensures fds[i] == 0 || Lookup(t, fds[i]) == None ==>
      Visit(fds[i..], mask, t, n, effects) == Visit(fds[i + 1..], mask, t, n, effects)
    ensures fds[i] != 0 && Lookup(t, fds[i]).Some? ==>
      var rest := Visit(fds[i + 1..], mask, ApplyAll(t, effects(n)), n + 1, effects);
      Visit(fds[i..], mask, t, n, effects)
      == ([Call(fds[i], mask, Lookup(t, fds[i]).value.handler, t)] + rest.0, rest.1)
  {
    assert fds[i..][1..] == fds[i + 1..];
  }

  lemma VisitNone(mask: bv32, t: seq<Event>, n: nat, effects: nat -> seq<Op>)
    ensures Visit([], mask, t, n, effects) == ([], t)
  {}

  /** The readable descriptors first, then the writable ones. */
  function Round(rset: seq<int>, wset: seq<int>, t: seq<Event>, effects: nat -> seq<Op>): (seq<Call>, seq<Event>) {
    var (r, t1) := Visit(rset, READ, t, 0, effects);
    var (w, t2) := Visit(wset, WRITE, t1, |r|, effects);
    (r + w, t2)
  }

  class UxScheduler {
    var started: bool
    var events: seq<Event>
    var haveRmopt: bool
    var delayMs: int

    ghost predicate Valid()
      reads this
    {
      WellFormed(events)
    }

    // awe_uxscheduler_create
    constructor ()
      ensures Valid() && events == [] && !started && delayMs == 1000
    {
      started, events, haveRmopt, delayMs := false, [], false, 1000;
    }

    /** The setting awe_uxscheduler_start takes over. */
    method Start(delay: int)
      modifies this`started, this`delayMs
      ensures started
      ensures old(started) ==> delayMs == old(delayMs)
      ensures !old(started) ==> delayMs == if delay <= 60000 then delay else 1000
    {
      if !started {
        started := true;
        if delay <= 60000 { delayMs := delay; } else { delayMs := 1000; }
      }
    }

    // uxscheduler_uxevent_find
    method Find(ufd: int) returns (i: nat)
      ensures i == IndexOf(events, ufd)
    {
      i := 0;
      while i < |events|
        invariant i <= |events| && IndexOf(events, ufd) == i + IndexOf(events[i..], ufd)
      {
        if events[i].ufd == ufd { return; }
        assert events[i..][1..] == events[i + 1..];
        i := i + 1;
      }
    }

    method AddEvent(ufd: int, conditions: bv32, handler: nat, onWorker: bool) returns (ok: bool)
      requires Valid()
      modifies this`events, this`haveRmopt
      ensures Valid() && events == Apply(old(events), Add(ufd, conditions, handler))
      ensures ok <==> ufd != 0
      ensures haveRmopt == (old(haveRmopt) ||
        (ufd != 0 && conditions == 0 && started && !onWorker && Lookup(old(events), ufd).Some?))
    {
      ApplyUpdates(events, Add(ufd, conditions, handler));
      ZeroIsNeverIn(events);
      LookupAt(events, 0);
      if ufd == 0 { return false; }
      ok := true;
      if conditions == 0 {
        RmEvent(ufd, onWorker);
        return;
      }
      var i := Find(ufd);
      if i == |events| {
        events := events + [Event(ufd, conditions, handler)];
      } else {
        events := events[i := events[i].(conditions := conditions, handler := handler)];
      }
    }

    method DisableEvent(ufd: int, mask: bv32)
      requires Valid()
      modifies this`events
      ensures Valid() && events == Apply(old(events), Disable(ufd, mask))
    {
      hide SetBits, ClearBits, Lookup, Order, Reorder;
      ApplyUpdates(events, Disable(ufd, mask));
      var i := Find(ufd);
      if i < |events| {
        events := events[i := events[i].(conditions := ClearBits(events[i].conditions, mask))];
      }
    }

    method EnableEvent(ufd: int, mask: bv32)
      requires Valid()
      modifies this`events
      ensures Valid() && events == Apply(old(events), Enable(ufd, mask))
    {
      hide SetBits, ClearBits, Lookup, Order, Reorder;
      ApplyUpdates(events, Enable(ufd, mask));
      var i := Find(ufd);
      if i < |events| {
        events := events[i := events[i].(conditions := SetBits(events[i].conditions, mask))];
      }
    }

    /** Off the worker thread a removal also asks the worker for a round-end signal. */
    method RmEvent(ufd: int, onWorker: bool)
      requires Valid()
      modifies this`events, this`haveRmopt
      ensures Valid() && events == Apply(old(events), Rm(ufd))
      ensures haveRmopt == (old(haveRmopt) || (started && !onWorker && Lookup(old(events), ufd).Some?))
    {
      ApplyUpdates(events, Rm(ufd));
      LookupAt(events, ufd);
      var i := Find(ufd);
      if i < |events| {
        events := RemoveAt(events, i);
        if started && !onWorker { haveRmopt := true; }
      }
    }

    /** The sets handed to ux_select; they are dimensioned for one entry per registered event. */
    method BuildSets() returns (rset: seq<int>, wset: seq<int>)
      ensures rset == Wanting(events, READ) && wset == Wanting(events, WRITE)
    {
      hide Has;
      rset, wset := [], [];
      var i := 0;
      while i < |events|
        invariant i <= |events|
        invariant Wanting(events, READ) == rset + Wanting(events[i..], READ)
        invariant Wanting(events, WRITE) == wset + Wanting(events[i..], WRITE)
      {
        assert events[i..][1..] == events[i + 1..];
        if Has(events[i], READ) { rset := rset + [events[i].ufd]; }
        if Has(events[i], WRITE) { wset := wset + [events[i].ufd]; }
        i := i + 1;
      }
    }

    /** A handler running on the worker thread. */
    method RunHandler(ops: seq<Op>)
      requires Valid()
      modifies this`events, this`haveRmopt
      ensures Valid() && events == ApplyAll(old(events), ops) && haveRmopt == old(haveRmopt)
    {
      hide Apply, WellFormed;
      var i := 0;
      while i < |ops|
        invariant i <= |ops| && Valid() && haveRmopt == old(haveRmopt)
        invariant ApplyAll(old(events), ops) == ApplyAll(events, ops[i..])
        decreases |ops| - i
      {
        match ops[i] {
          case Add(ufd, c, h) => var _ := AddEvent(ufd, c, h, true);
          case Rm(ufd) => RmEvent(ufd, true);
          case Enable(ufd, ev) => EnableEvent(ufd, ev);
          case Disable(ufd, ev) => DisableEvent(ufd, ev);
        }
        assert ops[i..][1..] == ops[i + 1..];
        i := i + 1;
      }
    }

    method VisitSet(fds: seq<int>, mask: bv32, n: nat, effects: nat -> seq<Op>) returns (calls: seq<Call>)
      requires Valid()
      modifies this`events, this`haveRmopt
      ensures Valid() && (calls, events) == Visit(fds, mask, old(events), n, effects)
      ensures haveRmopt == old(haveRmopt)
    {
      hide WellFormed, Lookup, ApplyAll, Visit;
      calls := [];
      var i := 0;
      assert fds[0..] == fds;
      while i < |fds|
        invariant i <= |fds| && Valid() && haveRmopt == old(haveRmopt)
        invariant Visit(fds, mask, old(events), n, effects).0
                  == calls + Visit(fds[i..], mask, events, n + |calls|, effects).0
        invariant Visit(fds, mask, old(events), n, effects).1 == Visit(fds[i..], mask, events, n + |calls|, effects).1
      {
        VisitFrom(fds, i, mask, events, n + |calls|, effects);
        if fds[i] != 0 {
          var k := Find(fds[i]);
          LookupIsEntry(events, fds[i], k);
          if k < |events| {
            var call := Call(fds[i], mask, events[k].handler, events);
            RunHandler(effects(n + |calls|));
            calls := calls + [call];
          }
        }
        i := i + 1;
      }
      assert fds[i..] == [];
      VisitNone(mask, events, n + |calls|, effects);
      assert Visit(fds, mask, old(events), n, effects).0 == calls + [] == calls;
    }

    /** The dispatch part of uxscheduler_thread_process, after a select that found something. */
    method Dispatch(rset: seq<int>, wset: seq<int>, effects: nat -> seq<Op>) returns (calls: seq<Call>)
      requires Valid()
      modifies this`events, this`haveRmopt
      ensures Valid() && (calls, events) == Round(rset, wset, old(events), effects)
      ensures haveRmopt == old(haveRmopt)
    {
      var r := VisitSet(rset, READ, 0, effects);
      var w := VisitSet(wset, WRITE, |r|, effects);
      calls := r + w;
    }
  }
}
