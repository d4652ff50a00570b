/** Properties of a dispatch round and of its timeout (src/uxscheduler.c:97-191). */
module UxRound {

  import opened Common
  import opened TimedOrder
  import opened UxTable
  import opened Bits
  import opened UxScheduler

  // ---- the descriptor sets ----

  lemma {:induction false} SetByCondition(t: seq<Event>, mask: bv32)
    requires WellFormed(t)
    ensures Distinct(Wanting(t, mask))
    ensures forall u :: u in Wanting(t, mask) <==> Lookup(t, u).Some? && Has(Lookup(t, u).value, mask)
    ensures forall u :: u in Wanting(t, mask) ==> u != 0 && exists i :: 0 <= i < |t| && t[i].ufd == u
  {
    hide Has;
    if t != [] {
      SetByCondition(t[1..], mask);
      var rest := Wanting(t[1..], mask);
      assert t[0].ufd !in rest by {
        assert forall i :: 0 <= i < |t[1..]| ==> t[1..][i].ufd != t[0].ufd;
      }
      LookupAt(t[1..], t[0].ufd);
      forall u | u in Wanting(t, mask) ensures u != 0 && exists i :: 0 <= i < |t| && t[i].ufd == u {
        if u in rest {
          var i :| 0 <= i < |t[1..]| && t[1..][i].ufd == u;
          assert t[i + 1].ufd == u;
        } else {
          assert t[0].ufd == u;
        }
      }
    }
  }

  /** A set names each registered descriptor that has one of the conditions once, and nothing else. */
  lemma SetIsExact(t: seq<Event>, mask: bv32)
    requires WellFormed(t)
    ensures Distinct(Wanting(t, mask))
    ensures forall u :: u in Wanting(t, mask) <==> Lookup(t, u).Some? && Lookup(t, u).value.conditions & mask != 0
    ensures forall u :: u in Wanting(t, mask) ==> u != 0 && exists i :: 0 <= i < |t| && t[i].ufd == u
  {
    SetByCondition(t, mask);
    hide Wanting, Lookup, WellFormed, Distinct;
  }

  // ---- the chain of tables through a round ----

  /** The first call sees t, each later call sees what the handlers before it have left, and t' is
      left at the end. */
  ghost predicate Chained(t: seq<Event>, calls: seq<Call>, t': seq<Event>, n: nat, effects: nat -> seq<Op>)
    decreases |calls|
  {
    if calls == [] then t' == t
    else calls[0].table == t && Chained(ApplyAll(t, effects(n)), calls[1..], t', n + 1, effects)
  }

  /** The handler called is the one registered at that moment. */
  ghost predicate Legal(c: Call) {
    && WellFormed(c.table) && c.ufd != 0
    && Lookup(c.table, c.ufd).Some? && Lookup(c.table, c.ufd).value.handler == c.handler
  }

  lemma {:induction false} ApplyAllKeepsForm(t: seq<Event>, ops: seq<Op>)
    requires WellFormed(t)
    ensures WellFormed(ApplyAll(t, ops))
    decreases |ops|
  {
    hide WellFormed, Apply;
    if ops != [] {
      ApplyUpdates(t, ops[0]);
      ApplyAllKeepsForm(Apply(t, ops[0]), ops[1..]);
    }
  }

  lemma {:induction false} VisitChained(fds: seq<int>, mask: bv32, t: seq<Event>, n: nat, effects: nat -> seq<Op>)
    requires WellFormed(t)
    ensures var (calls, t') := Visit(fds, mask, t, n, effects);
            && Chained(t, calls, t', n, effects) && WellFormed(t')
            && forall k :: 0 <= k < |calls| ==> Legal(calls[k]) && calls[k].mask == mask && calls[k].ufd in fds
    decreases |fds|
  {
    hide WellFormed, ApplyAll, Lookup;
    if fds != [] {
      if fds[0] == 0 || Lookup(t, fds[0]).None? {
        VisitChained(fds[1..], mask, t, n, effects);
      } else {
        var u := ApplyAll(t, effects(n));
        ApplyAllKeepsForm(t, effects(n));
        VisitChained(fds[1..], mask, u, n + 1, effects);
        var (calls, t') := Visit(fds, mask, t, n, effects);
        assert calls[1..] == Visit(fds[1..], mask, u, n + 1, effects).0;
        assert forall k :: 1 <= k < |calls| ==> calls[k] == calls[1..][k - 1];
      }
    }
  }

  lemma {:induction false} ChainedConcat(t: seq<Event>, a: seq<Call>, t1: seq<Event>, b: seq<Call>, t2: seq<Event>,
                                         n: nat, effects: nat -> seq<Op>)
    requires Chained(t, a, t1, n, effects) && Chained(t1, b, t2, n + |a|, effects)
    ensures Chained(t, a + b, t2, n, effects)
    decreases |a|
  {
    hide ApplyAll;
    if a == [] {
      assert a + b == b;
    } else {
      assert n + 1 + |a[1..]| == n + |a|;
      ChainedConcat(ApplyAll(t, effects(n)), a[1..], t1, b, t2, n + 1, effects);
      assert (a + b)[1..] == a[1..] + b;
    }
  }

  /** In a round every handler is called only while it is registered for that descriptor, and sees
      the table as the handlers before it have left it. */
  lemma CalledOnlyWhileRegistered(rset: seq<int>, wset: seq<int>, t: seq<Event>, effects: nat -> seq<Op>)
    requires WellFormed(t)
    ensures var (calls, t') := Round(rset, wset, t, effects);
            && Chained(t, calls, t', 0, effects) && WellFormed(t')
            && forall k :: 0 <= k < |calls| ==>
                 Legal(calls[k]) && calls[k].ufd in (if calls[k].mask == READ then rset else wset)
  {
    hide WellFormed, Chained, Legal, Visit;
    VisitChained(rset, READ, t, 0, effects);
    var (r, t1) := Visit(rset, READ, t, 0, effects);
    VisitChained(wset, WRITE, t1, |r|, effects);
    var (w, t2) := Visit(wset, WRITE, t1, |r|, effects);
    ChainedConcat(t, r, t1, w, t2, 0, effects);
  }

  // ---- removed descriptors ----

  predicate Adds(op: Op, ufd: int) { op.Add? && op.ufd == ufd && op.conditions != 0 }

  predicate Removes(op: Op, ufd: int) { op.ufd == ufd && (op.Rm? || (op.Add? && op.conditions == 0)) }

  ghost predicate NoneAdds(ops: seq<Op>, ufd: int) { forall i :: 0 <= i < |ops| ==> !Adds(ops[i], ufd) }

  ghost predicate NoneRemoves(ops: seq<Op>, ufd: int) { forall i :: 0 <= i < |ops| ==> !Removes(ops[i], ufd) }

  lemma {:induction false} StaysOut(t: seq<Event>, ops: seq<Op>, ufd: int)
    requires WellFormed(t) && Lookup(t, ufd) == None && NoneAdds(ops, ufd)
    ensures WellFormed(ApplyAll(t, ops)) && Lookup(ApplyAll(t, ops), ufd) == None
    decreases |ops|
  {
    hide WellFormed, Apply, Lookup, Order, Reorder, SetBits, ClearBits;
    if ops != [] {
      ApplyUpdates(t, ops[0]);
      assert !Adds(ops[0], ufd);
      StaysOut(Apply(t, ops[0]), ops[1..], ufd);
    }
  }

  lemma {:induction false} StaysIn(t: seq<Event>, ops: seq<Op>, ufd: int)
    requires WellFormed(t) && Lookup(t, ufd).Some? && ufd != 0 && NoneRemoves(ops, ufd)
    ensures WellFormed(ApplyAll(t, ops)) && Lookup(ApplyAll(t, ops), ufd).Some?
    decreases |ops|
  {
    hide WellFormed, Apply, Lookup, Order, Reorder, SetBits, ClearBits;
    if ops != [] {
      ApplyUpdates(t, ops[0]);
      assert !Removes(ops[0], ufd);
      StaysIn(Apply(t, ops[0]), ops[1..], ufd);
    }
  }

  lemma {:induction false} OutThroughCalls(t: seq<Event>, calls: seq<Call>, t': seq<Event>, n: nat,
                                           effects: nat -> seq<Op>, ufd: int, m: nat)
    requires WellFormed(t) && Chained(t, calls, t', n, effects) && m < |calls|
    requires Lookup(t, ufd) == None && forall j :: n <= j < n + m ==> NoneAdds(effects(j), ufd)
    ensures Lookup(calls[m].table, ufd) == None
    decreases m
  {
    hide WellFormed, ApplyAll, Lookup, NoneAdds;
    if m > 0 {
      StaysOut(t, effects(n), ufd);
      assert calls[1..][m - 1] == calls[m];
      OutThroughCalls(ApplyAll(t, effects(n)), calls[1..], t', n + 1, effects, ufd, m - 1);
    }
  }

  lemma {:induction false} ChainedFrom(t: seq<Event>, calls: seq<Call>, t': seq<Event>, n: nat,
                                       effects: nat -> seq<Op>, k: nat)
    requires WellFormed(t) && Chained(t, calls, t', n, effects) && k < |calls|
    ensures WellFormed(calls[k].table) && Chained(calls[k].table, calls[k..], t', n + k, effects)
    decreases k
  {
    hide WellFormed, ApplyAll;
    if k == 0 {
      assert calls[0..] == calls;
    } else {
      ApplyAllKeepsForm(t, effects(n));
      ChainedFrom(ApplyAll(t, effects(n)), calls[1..], t', n + 1, effects, k - 1);
      assert calls[1..][k - 1..] == calls[k..];
    }
  }

  /** A descriptor that is gone when call k is made is not called from then on, unless some handler
      registers it again in between. */
  lemma RemovedIsNotCalled(rset: seq<int>, wset: seq<int>, t: seq<Event>, effects: nat -> seq<Op>,
                           k: nat, m: nat, ufd: int)
    requires WellFormed(t)
    requires k <= m < |Round(rset, wset, t, effects).0|
    requires Lookup(Round(rset, wset, t, effects).0[k].table, ufd) == None
    requires forall j :: k <= j < m ==> NoneAdds(effects(j), ufd)
    ensures Round(rset, wset, t, effects).0[m].ufd != ufd
  {
    hide WellFormed, Chained, Round, NoneAdds, Lookup;
    CalledOnlyWhileRegistered(rset, wset, t, effects);
    var (calls, t') := Round(rset, wset, t, effects);
    ChainedFrom(t, calls, t', 0, effects, k);
    OutThroughCalls(calls[k].table, calls[k..], t', k, effects, ufd, m - k);
    assert Legal(calls[m]);
  }

  /** A descriptor that the select reports and that stays registered is called; disabling its
      conditions in the same round does not prevent that. */
  lemma {:induction false} RegisteredIsCalled(fds: seq<int>, mask: bv32, t: seq<Event>, n: nat,
                                              effects: nat -> seq<Op>, ufd: int)
    requires WellFormed(t) && ufd in fds && ufd != 0 && Lookup(t, ufd).Some?
    requires forall j :: n <= j < n + |Visit(fds, mask, t, n, effects).0| ==> NoneRemoves(effects(j), ufd)
    ensures exists k :: 0 <= k < |Visit(fds, mask, t, n, effects).0| && Visit(fds, mask, t, n, effects).0[k].ufd == ufd
    decreases |fds|
  {
    hide WellFormed, ApplyAll, Lookup, NoneRemoves;
    var calls := Visit(fds, mask, t, n, effects).0;
    if fds[0] == ufd {
      assert calls[0].ufd == ufd;
    } else if fds[0] == 0 || Lookup(t, fds[0]).None? {
      RegisteredIsCalled(fds[1..], mask, t, n, effects, ufd);
    } else {
      StaysIn(t, effects(n), ufd);
      RegisteredIsCalled(fds[1..], mask, ApplyAll(t, effects(n)), n + 1, effects, ufd);
      var rest := Visit(fds[1..], mask, ApplyAll(t, effects(n)), n + 1, effects).0;
      var k :| 0 <= k < |rest| && rest[k].ufd == ufd;
      assert calls[k + 1] == rest[k];
    }
  }

  lemma {:induction false} StaysRegistered(fds: seq<int>, mask: bv32, t: seq<Event>, n: nat,
                                           effects: nat -> seq<Op>, ufd: int)
    requires WellFormed(t) && ufd != 0 && Lookup(t, ufd).Some?
    requires forall j :: n <= j < n + |Visit(fds, mask, t, n, effects).0| ==> NoneRemoves(effects(j), ufd)
    ensures WellFormed(Visit(fds, mask, t, n, effects).1) && Lookup(Visit(fds, mask, t, n, effects).1, ufd).Some?
    decreases |fds|
  {
    hide WellFormed, ApplyAll, Lookup, NoneRemoves;
    if fds != [] {
      if fds[0] == 0 || Lookup(t, fds[0]).None? {
        StaysRegistered(fds[1..], mask, t, n, effects, ufd);
      } else {
        StaysIn(t, effects(n), ufd);
        StaysRegistered(fds[1..], mask, ApplyAll(t, effects(n)), n + 1, effects, ufd);
      }
    }
  }

  /** In a round every descriptor that the select reports readable (writable), and that is registered and
      stays so, has its handler called for reading (writing). */
  lemma ReportedIsCalled(rset: seq<int>, wset: seq<int>, t: seq<Event>, effects: nat -> seq<Op>, mask: bv32, ufd: int)
    requires WellFormed(t) && ufd != 0 && Lookup(t, ufd).Some?
    requires (mask == READ && ufd in rset) || (mask == WRITE && ufd in wset)
    requires forall j :: 0 <= j < |Round(rset, wset, t, effects).0| ==> NoneRemoves(effects(j), ufd)
    ensures var calls := Round(rset, wset, t, effects).0;
      exists k :: 0 <= k < |calls| && calls[k].ufd == ufd && calls[k].mask == mask
  {
    hide WellFormed, Lookup, NoneRemoves, Visit, Chained, Legal;
    var calls := Round(rset, wset, t, effects).0;
    var (r, t1) := Visit(rset, READ, t, 0, effects);
    var (w, t2) := Visit(wset, WRITE, t1, |r|, effects);
    assert calls == r + w;
    VisitChained(rset, READ, t, 0, effects);
    if mask == READ {
      RegisteredIsCalled(rset, READ, t, 0, effects, ufd);
      var k :| 0 <= k < |r| && r[k].ufd == ufd;
      assert calls[k] == r[k];
    } else {
      StaysRegistered(rset, READ, t, 0, effects, ufd);
      VisitChained(wset, WRITE, t1, |r|, effects);
      RegisteredIsCalled(wset, WRITE, t1, |r|, effects, ufd);
      var k :| 0 <= k < |w| && w[k].ufd == ufd;
      assert calls[|r| + k] == w[k];
    }
  }

  /** One call for each of some descriptors of fds, no descriptor twice. */
  ghost predicate OnceEach(calls: seq<Call>, fds: seq<int>, mask: bv32) {
    && (forall k :: 0 <= k < |calls| ==> calls[k].ufd in fds && calls[k].mask == mask)
    && (forall i, j :: 0 <= i < j < |calls| ==> calls[i].ufd != calls[j].ufd)
  }

  lemma OnceMore(c: Call, rest: seq<Call>, fds: seq<int>, mask: bv32)
    requires fds != [] && Distinct(fds) && OnceEach(rest, fds[1..], mask)
    ensures OnceEach(rest, fds, mask)
    ensures c.ufd == fds[0] && c.mask == mask ==> OnceEach([c] + rest, fds, mask)
  {
    assert fds[0] !in fds[1..];
    forall k | 0 <= k < |rest| ensures rest[k].ufd in fds && rest[k].ufd != fds[0] {
      assert rest[k].ufd in fds[1..];
    }
  }

  lemma {:induction false} VisitedOnce(fds: seq<int>, mask: bv32, t: seq<Event>, n: nat, effects: nat -> seq<Op>)
    requires Distinct(fds)
    ensures OnceEach(Visit(fds, mask, t, n, effects).0, fds, mask)
    decreases |fds|
  {
    hide ApplyAll, Lookup, OnceEach;
    if fds == [] {
      OnceNone(mask);
    } else if fds[0] == 0 || Lookup(t, fds[0]).None? {
      VisitedOnce(fds[1..], mask, t, n, effects);
      OnceMore(Call(0, mask, 0, t), Visit(fds, mask, t, n, effects).0, fds, mask);
    } else {
      VisitedOnce(fds[1..], mask, ApplyAll(t, effects(n)), n + 1, effects);
      var calls := Visit(fds, mask, t, n, effects).0;
      OnceMore(calls[0], Visit(fds[1..], mask, ApplyAll(t, effects(n)), n + 1, effects).0, fds, mask);
    }
  }

  lemma OnceNone(mask: bv32)
    ensures OnceEach([], [], mask)
  {}

  /** The calls for reading come first, and each descriptor of a set is called at most once for it. */
  lemma ReadsThenWrites(rset: seq<int>, wset: seq<int>, t: seq<Event>, effects: nat -> seq<Op>)
    requires Distinct(rset) && Distinct(wset)
    ensures exists m ::
      && 0 <= m <= |Round(rset, wset, t, effects).0|
      && OnceEach(Round(rset, wset, t, effects).0[..m], rset, READ)
      && OnceEach(Round(rset, wset, t, effects).0[m..], wset, WRITE)
  {
    hide Visit, OnceEach;
    VisitedOnce(rset, READ, t, 0, effects);
    var (r, t1) := Visit(rset, READ, t, 0, effects);
    VisitedOnce(wset, WRITE, t1, |r|, effects);
    var (w, t2) := Visit(wset, WRITE, t1, |r|, effects);
    var calls := Round(rset, wset, t, effects).0;
    assert calls[..|r|] == r && calls[|r|..] == w;
  }

  // ---- what handlers do ----

  /** A handler's operations take effect one after the other. */
  lemma {:induction false} LastOperation(t: seq<Event>, ops: seq<Op>, op: Op)
    ensures ApplyAll(t, []) == t && ApplyAll(t, ops + [op]) == Apply(ApplyAll(t, ops), op)
    decreases |ops|
  {
    hide Apply;
    if ops == [] {
      assert ops + [op] == [op] && [op][1..] == [];
      assert ApplyAll(Apply(t, op), []) == Apply(t, op);
    } else {
      assert (ops + [op])[0] == ops[0] && (ops + [op])[1..] == ops[1..] + [op];
      LastOperation(Apply(t, ops[0]), ops[1..], op);
    }
  }

  /** What the calls from k on see, the handlers up to there have left; so a descriptor that handler k
      removes last of all is not called afterwards, unless a later handler registers it again. */
  lemma RemovedByHandlerIsNotCalled(rset: seq<int>, wset: seq<int>, t: seq<Event>, effects: nat -> seq<Op>,
                                    k: nat, m: nat, ufd: int, ops: seq<Op>)
    requires WellFormed(t) && k < m < |Round(rset, wset, t, effects).0|
    requires effects(k) == ops + [Rm(ufd)]
    requires forall j :: k < j < m ==> NoneAdds(effects(j), ufd)
    ensures Round(rset, wset, t, effects).0[m].ufd != ufd
  {
    hide WellFormed, Round, NoneAdds, Lookup, Apply, Chained;
    CalledOnlyWhileRegistered(rset, wset, t, effects);
    var (calls, t') := Round(rset, wset, t, effects);
    ChainedFrom(t, calls, t', 0, effects, k);
    ChainedFrom(t, calls, t', 0, effects, k + 1);
    NextTable(calls[k].table, calls[k..], t', k, effects);
    ApplyAllKeepsForm(calls[k].table, ops);
    LastOperation(calls[k].table, ops, Rm(ufd));
    GoneAfterRm(ApplyAll(calls[k].table, ops), ufd);
    RemovedIsNotCalled(rset, wset, t, effects, k + 1, m, ufd);
  }

  lemma NextTable(t: seq<Event>, calls: seq<Call>, t': seq<Event>, n: nat, effects: nat -> seq<Op>)
    requires Chained(t, calls, t', n, effects) && |calls| > 1
    ensures calls[1].table == ApplyAll(t, effects(n))
  {
    assert calls[1..][0] == calls[1];
  }

  lemma GoneAfterRm(t: seq<Event>, ufd: int)
    requires WellFormed(t)
    ensures Lookup(Apply(t, Rm(ufd)), ufd) == None
  {
    ApplyUpdates(t, Rm(ufd));
  }

  // ---- how long a round may wait ----

  /** (int32_t)x of an int64_t x. */
  function ToInt32(x: int): (r: int)
    ensures -0x8000_0000 <= r < 0x8000_0000
  {
    (x + 0x8000_0000) % 0x1_0000_0000 - 0x8000_0000
  }

  predicate FitsInt32(x: int) { -0x8000_0000 <= x < 0x8000_0000 }

  /** The delay passed to select, in milliseconds; negative means no limit.  tasks are the deadlines
      of the timer list in list order. */
  function SelectDelay(delayMs: int, tasks: seq<int>, now: int): int {
    if tasks == [] then delayMs
    else
      var timeToDelay := ToInt32(tasks[0] - now);
      if timeToDelay >= 0 && timeToDelay < delayMs then timeToDelay
      else if timeToDelay < 0 then 0
      else delayMs
  }

  datatype Timeval = Timeval(sec: int, usec: int)

  function SelectTimeout(delayMs: int): Option<Timeval> {
    if delayMs >= 0 then Some(Timeval(delayMs / 1000, (delayMs - (delayMs / 1000) * 1000) * 1000)) else None
  }

  /** The round's decision to take the first task off the list. */
  predicate TakesFirst(tasks: seq<int>, now: int) { tasks != [] && ToInt32(tasks[0] - now) <= 0 }

  function TimeLeft(deadline: int, now: int): nat { if deadline <= now then 0 else deadline - now }

  /** With a non-negative configured delay a round waits as long as it may and no longer: at most
      the configured delay, at most until any pending task is due, and one of these exactly. */
  lemma WaitsUntilFirstDue(delayMs: int, tasks: seq<int>, now: int)
    requires 0 <= delayMs && Sorted(tasks)
    requires tasks != [] ==> FitsInt32(tasks[0] - now)
    ensures var d := SelectDelay(delayMs, tasks, now);
            && 0 <= d <= delayMs
            && (forall i :: 0 <= i < |tasks| ==> d <= TimeLeft(tasks[i], now))
            && (d == delayMs || exists i :: 0 <= i < |tasks| && d == TimeLeft(tasks[i], now))
  {
    if tasks != [] {
      forall i | 0 <= i < |tasks| ensures TimeLeft(tasks[0], now) <= TimeLeft(tasks[i], now) {
        assert i > 0 ==> tasks[0] <= tasks[i];
      }
      assert SelectDelay(delayMs, tasks, now) == delayMs
          || SelectDelay(delayMs, tasks, now) == TimeLeft(tasks[0], now);
    }
  }

  /** With a positive configured delay, and a first task overdue by less than 2^32 milliseconds, the wait
      lasts beyond some pending task's time exactly if that first task is overdue by more than 2^31. */
  lemma WaitIsBoundedExactly(delayMs: int, tasks: seq<int>, now: int)
    requires 0 < delayMs < 0x8000_0000 && Sorted(tasks) && tasks != [] && tasks[0] - now > -0x1_0000_0000
    ensures (forall i :: 0 <= i < |tasks| ==> SelectDelay(delayMs, tasks, now) <= TimeLeft(tasks[i], now))
      <==> tasks[0] - now >= -0x8000_0000
  {
    forall i | 0 <= i < |tasks| ensures TimeLeft(tasks[0], now) <= TimeLeft(tasks[i], now) {
      assert i > 0 ==> tasks[0] <= tasks[i];
    }
    CastOfFar(tasks[0] - now);
  }

  lemma CastOfFar(x: int)
    requires x > -0x1_0000_0000
    ensures x >= -0x8000_0000 ==> ToInt32(x) <= x
    ensures x < -0x8000_0000 ==> ToInt32(x) == x + 0x1_0000_0000
  {}

  /** A configured delay below zero makes a round ignore its pending tasks: the wait is bounded by the
      first task's time left exactly when the delay is not negative or that task is overdue. */
  lemma NegativeDelayWaitsForever(delayMs: int, tasks: seq<int>, now: int)
    requires tasks != [] && FitsInt32(tasks[0] - now)
    ensures var d := SelectDelay(delayMs, tasks, now);
            (SelectTimeout(d).Some? && d <= TimeLeft(tasks[0], now)) <==> delayMs >= 0 || tasks[0] < now
  {}

  /** The timeval encodes exactly the delay. */
  lemma TimeoutEncodesDelay(d: int)
    requires d >= 0
    ensures var tv := SelectTimeout(d).value;
            0 <= tv.usec < 1_000_000 && tv.sec * 1_000_000 + tv.usec == d * 1000
  {}

  /** Within 2^32 milliseconds of its deadline, the first task is taken exactly when it is due if and
      only if the difference fits the int32_t it is cast to. */
  lemma TakenExactlyWhenDue(tasks: seq<int>, now: int)
    requires tasks != [] && -0x1_0000_0000 < tasks[0] - now < 0x1_0000_0000
    ensures (TakesFirst(tasks, now) <==> tasks[0] <= now) <==> FitsInt32(tasks[0] - now)
  {}
}
