/** When the second evaluation inside `_min_` (src/ringbuffer.c:16) takes a put or a get beyond its
    caller's buffer: a condition on the request, seen at the moment of the call. */
module RingOverruns {

  import opened Words
  import opened RingSpsc

  // ---- schedules ----

  /** acts leads from s to t. */
  ghost predicate Leads(s: State, acts: seq<Action>, t: State)
    decreases |acts|
  {
    if acts == [] then s == t else Enabled(s, acts[0]) && Leads(Step(s, acts[0]), acts[1..], t)
  }

  predicate ByProducer(a: Action) { a.PutStart? || a.PutReread? || a.PutByte? || a.PutDone? }

  ghost predicate AllBy(acts: seq<Action>, producer: bool) {
    forall i :: 0 <= i < |acts| ==> ByProducer(acts[i]) == producer
  }

  lemma {:induction false} LeadsJoin(s: State, a: seq<Action>, m: State, b: seq<Action>, t: State)
    requires Leads(s, a, m) && Leads(m, b, t)
    ensures Leads(s, a + b, t)
    decreases |a|
  {
    hide Step, Enabled;
    if a == [] {
      assert a + b == b;
    } else {
      assert (a + b)[0] == a[0] && (a + b)[1..] == a[1..] + b;
      LeadsJoin(Step(s, a[0]), a[1..], m, b, t);
    }
  }

  lemma LeadsOne(s: State, a: Action)
    requires Enabled(s, a)
    ensures Leads(s, [a], Step(s, a))
  {
    assert [a][1..] == [];
  }

  /** The side that does not move keeps its place, and the ring its invariant and its capacity. */
  lemma {:induction false} OtherSideStays(s: State, acts: seq<Action>, t: State, producer: bool)
    requires Inv(s) && Leads(s, acts, t) && AllBy(acts, producer)
    ensures Inv(t) && |t.ring| == |s.ring|
    ensures if producer then t.consumer == s.consumer else t.producer == s.producer
    decreases |acts|
  {
    hide Inv, Enabled;
    if acts != [] {
      InvStep(s, acts[0]);
      StepSide(s, acts[0]);
      assert AllBy(acts[1..], producer) && ByProducer(acts[0]) == producer;
      OtherSideStays(Step(s, acts[0]), acts[1..], t, producer);
    }
  }

  lemma StepSide(s: State, a: Action)
    requires Enabled(s, a)
    ensures |Step(s, a).ring| == |s.ring|
    ensures ByProducer(a) ==> Step(s, a).consumer == s.consumer && Step(s, a).got == s.got
    ensures !ByProducer(a) ==> Step(s, a).producer == s.producer && Step(s, a).put == s.put
  {}

  /** How many published bytes are still to be got, and how many more fit. */
  function Fill(s: State): int { |s.put| - |s.got| }

  function Room(s: State): int { |s.ring| - Fill(s) }

  // ---- an operation can be brought to its end ----

  /** A producer step that stays in bounds. */
  lemma Producing(s: State, a: Action)
    requires Inv(s) && Enabled(s, a) && ByProducer(a) && (a.PutReread? ==> Room(s) <= |s.producer.data|)
    ensures Inv(Step(s, a)) && !Step(s, a).overrun
    ensures Leads(s, [a], Step(s, a)) && AllBy([a], true)
    ensures Step(s, a).consumer == s.consumer && |Step(s, a).ring| == |s.ring|
    ensures Fill(Step(s, a)) == Fill(s) + if a == PutDone then s.producer.n else 0
  {
    hide Slot, And, IsPowerOf2, Pow2, Address;
    InvStep(s, a);
    OverrunExactly(s, a);
    LeadsOne(s, a);
  }

  lemma Consuming(s: State, a: Action)
    requires Inv(s) && Enabled(s, a) && !ByProducer(a) && (a.GetReread? ==> Fill(s) <= s.consumer.size)
    ensures Inv(Step(s, a)) && !Step(s, a).overrun
    ensures Leads(s, [a], Step(s, a)) && AllBy([a], false)
    ensures Step(s, a).producer == s.producer && |Step(s, a).ring| == |s.ring|
    ensures Fill(Step(s, a)) == Fill(s) - if a == GetDone then s.consumer.n else 0
  {
    hide Slot, And, IsPowerOf2, Pow2, Address;
    InvStep(s, a);
    OverrunExactly(s, a);
    LeadsOne(s, a);
  }

  /** The producer copies the bytes it has not copied, from the k-th on, and publishes. */
  lemma {:induction false} FinishPut(s: State, k: nat) returns (acts: seq<Action>, t: State)
    requires Inv(s) && !s.overrun && s.producer.PCopy? && k <= s.producer.n
    requires forall i: nat :: i < k ==> i in s.producer.done
    ensures Leads(s, acts, t) && AllBy(acts, true) && Inv(t) && !t.overrun
    ensures t.producer == PIdle && t.consumer == s.consumer && |t.ring| == |s.ring|
    ensures Fill(t) == Fill(s) + s.producer.n
    decreases s.producer.n - k
  {
    hide Slot, And, IsPowerOf2, Pow2, Address, Leads, RingInv, ProducerInv, ConsumerInv;
    if k < s.producer.n && k in s.producer.done {
      acts, t := FinishPut(s, k + 1);
    } else {
      assert |s.ring| > 0 by { NotEmpty(s); }
      var a := if k < s.producer.n then PutByte(k) else PutDone;
      Producing(s, a);
      acts, t := [a], Step(s, a);
      if k < s.producer.n {
        var rest;
        rest, t := FinishPut(Step(s, a), k + 1);
        LeadsJoin(s, [a], Step(s, a), rest, t);
        acts := [a] + rest;
      }
    }
  }

  lemma NotEmpty(s: State)
    requires Inv(s)
    ensures |s.ring| > 0 && 0 <= Fill(s) <= |s.ring| && Used(s) == Fill(s) && Free(s) == Room(s)
  {
    Amounts(s);
  }

  lemma {:induction false} FinishGet(s: State, k: nat) returns (acts: seq<Action>, t: State)
    requires Inv(s) && !s.overrun && s.consumer.CCopy? && k <= s.consumer.n
    requires forall i: nat :: i < k ==> i in s.consumer.copied
    ensures Leads(s, acts, t) && AllBy(acts, false) && Inv(t) && !t.overrun
    ensures t.consumer == CIdle && t.producer == s.producer && |t.ring| == |s.ring|
    ensures Fill(t) == Fill(s) - s.consumer.n
    decreases s.consumer.n - k
  {
    hide Slot, And, IsPowerOf2, Pow2, Address, Leads, RingInv, ProducerInv, ConsumerInv;
    if k < s.consumer.n && k in s.consumer.copied {
      acts, t := FinishGet(s, k + 1);
    } else {
      assert |s.ring| > 0 by { NotEmpty(s); }
      var a := if k < s.consumer.n then GetByte(k) else GetDone;
      Consuming(s, a);
      acts, t := [a], Step(s, a);
      if k < s.consumer.n {
        var rest;
        rest, t := FinishGet(Step(s, a), k + 1);
        LeadsJoin(s, [a], Step(s, a), rest, t);
        acts := [a] + rest;
      }
    }
  }

  /** A put that will run over at its next step: it has compared, and by now there is more room than
      it has bytes. */
  predicate PutDoomed(s: State) { s.producer.PReread? && |s.producer.data| < Room(s) }

  predicate GetDoomed(s: State) { s.consumer.CReread? && s.consumer.size < Fill(s) }

  /** The producer can fill the ring while the consumer stands still. */
  lemma FillUp(s: State) returns (acts: seq<Action>, t: State)
    requires Inv(s) && !s.overrun && !PutDoomed(s)
    ensures Leads(s, acts, t) && AllBy(acts, true) && Inv(t) && !t.overrun
    ensures t.consumer == s.consumer && |t.ring| == |s.ring| && Fill(t) == |t.ring|
    decreases if s.producer.PCopy? then 2 else if s.producer.PIdle? then 1 else 0
  {
    hide Slot, And, IsPowerOf2, Pow2, Address, Leads, RingInv, ProducerInv, ConsumerInv;
    NotEmpty(s);
    if s.producer.PReread? {
      Producing(s, PutReread);
      var rest;
      rest, t := FinishPut(Step(s, PutReread), 0);
      LeadsJoin(s, [PutReread], Step(s, PutReread), rest, t);
      acts := [PutReread] + rest;
    } else {
      var first, m, rest;
      if s.producer.PCopy? {
        first, m := FinishPut(s, 0);
      } else {
        var a := PutStart(seq(Room(s), _ => 0));
        BelowWord(s);
        Producing(s, a);
        first, m := [a], Step(s, a);
      }
      rest, t := FillUp(m);
      LeadsJoin(s, first, m, rest, t);
      acts := first + rest;
    }
  }

  lemma BelowWord(s: State)
    requires Inv(s)
    ensures |s.ring| < WORD
  {}

  /** The consumer can empty the ring while the producer stands still. */
  lemma DrainAll(s: State) returns (acts: seq<Action>, t: State)
    requires Inv(s) && !s.overrun && !GetDoomed(s)
    ensures Leads(s, acts, t) && AllBy(acts, false) && Inv(t) && !t.overrun
    ensures t.producer == s.producer && |t.ring| == |s.ring| && Fill(t) == 0
    decreases if s.consumer.CCopy? then 2 else if s.consumer.CIdle? then 1 else 0
  {
    hide Slot, And, IsPowerOf2, Pow2, Address, Leads, RingInv, ProducerInv, ConsumerInv;
    NotEmpty(s);
    if s.consumer.CReread? {
      Consuming(s, GetReread);
      var rest;
      rest, t := FinishGet(Step(s, GetReread), 0);
      LeadsJoin(s, [GetReread], Step(s, GetReread), rest, t);
      acts := [GetReread] + rest;
    } else {
      var first, m, rest;
      if s.consumer.CCopy? {
        first, m := FinishGet(s, 0);
      } else {
        var a := GetStart(Fill(s));
        BelowWord(s);
        Consuming(s, a);
        first, m := [a], Step(s, a);
      }
      rest, t := DrainAll(m);
      LeadsJoin(s, first, m, rest, t);
      acts := first + rest;
    }
  }

  // ---- exactly which calls can run over ----

  /** What a get started in s can meet at its second evaluation, for any behaviour of the producer. */
  ghost predicate GetMayOverrun(s: State, size: nat)
    requires Enabled(s, GetStart(size))
  {
    exists acts, t :: AllBy(acts, true) && OverrunsAt(Step(s, GetStart(size)), acts, t, GetReread)
  }

  ghost predicate PutMayOverrun(s: State, data: seq<Byte>)
    requires Enabled(s, PutStart(data))
  {
    exists acts, t :: AllBy(acts, false) && OverrunsAt(Step(s, PutStart(data)), acts, t, PutReread)
  }

  ghost predicate OverrunsAt(s: State, acts: seq<Action>, t: State, a: Action) {
    Leads(s, acts, t) && Enabled(t, a) && Step(t, a).overrun
  }

  /** A get can run over exactly when it asks for all there is or more, but for less than a capacity,
      and the producer is not about to run over itself. */
  lemma GetOverrunsExactly(s: State, size: nat)
    requires Inv(s) && Enabled(s, GetStart(size))
    ensures GetMayOverrun(s, size) <==> Used(s) <= size < |s.ring| && !PutDoomed(s)
  {
    hide Slot, And, IsPowerOf2, Pow2, Address, Leads, RingInv, ProducerInv, ConsumerInv;
    NotEmpty(s);
    InvStep(s, GetStart(size));
    var s1 := Step(s, GetStart(size));
    if Used(s) <= size < |s.ring| && !PutDoomed(s) {
      var acts, t := FillUp(s1);
      OverrunExactly(t, GetReread);
      assert OverrunsAt(s1, acts, t, GetReread);
    }
    forall acts, t | AllBy(acts, true) && OverrunsAt(s1, acts, t, GetReread)
      ensures Used(s) <= size < |s.ring| && !PutDoomed(s)
    {
      OtherSideStays(s1, acts, t, true);
      NotEmpty(t);
      OverrunExactly(t, GetReread);
      if PutDoomed(s) { DoomedPutStops(s1, acts, t); }
    }
  }

  lemma PutOverrunsExactly(s: State, data: seq<Byte>)
    requires Inv(s) && Enabled(s, PutStart(data))
    ensures PutMayOverrun(s, data) <==> Free(s) <= |data| < |s.ring| && !GetDoomed(s)
  {
    hide Slot, And, IsPowerOf2, Pow2, Address, Leads, RingInv, ProducerInv, ConsumerInv;
    NotEmpty(s);
    InvStep(s, PutStart(data));
    var s1 := Step(s, PutStart(data));
    if Free(s) <= |data| < |s.ring| && !GetDoomed(s) {
      var acts, t := DrainAll(s1);
      OverrunExactly(t, PutReread);
      assert OverrunsAt(s1, acts, t, PutReread);
    }
    forall acts, t | AllBy(acts, false) && OverrunsAt(s1, acts, t, PutReread)
      ensures Free(s) <= |data| < |s.ring| && !GetDoomed(s)
    {
      OtherSideStays(s1, acts, t, false);
      NotEmpty(t);
      OverrunExactly(t, PutReread);
      if GetDoomed(s) { DoomedGetStops(s1, acts, t); }
    }
  }

  lemma DoomedPutStops(s: State, acts: seq<Action>, t: State)
    requires Inv(s) && PutDoomed(s) && AllBy(acts, true) && Leads(s, acts, t) && !t.overrun
    ensures t == s
  {
    NotEmpty(s);
  }

  lemma DoomedGetStops(s: State, acts: seq<Action>, t: State)
    requires Inv(s) && GetDoomed(s) && AllBy(acts, false) && Leads(s, acts, t) && !t.overrun
    ensures t == s
  {
    NotEmpty(s);
  }

  // ---- whole runs ----

  /** A call asks for less than it sees, or for at least a capacity. */
  predicate SafeCall(s: State, a: Action) {
    match a
    case PutStart(data) => |data| < Free(s) || |data| >= |s.ring|
    case GetStart(size) => size < Used(s) || size >= |s.ring|
    case _ => true
  }

  ghost predicate SafeInv(s: State) {
    && !s.overrun
    && (s.producer.PReread? ==> |s.producer.data| >= |s.ring|)
    && (s.consumer.CReread? ==> s.consumer.size >= |s.ring|)
  }

  lemma SafeStep(s: State, a: Action)
    requires Inv(s) && SafeInv(s) && Enabled(s, a) && SafeCall(s, a)
    ensures SafeInv(Step(s, a))
  {
    hide Slot, And, IsPowerOf2, Pow2, Address, RingInv, ProducerInv, ConsumerInv;
    NotEmpty(s);
    OverrunExactly(s, a);
  }

  /** If every call of a run is safe, nothing ever runs over, however the two sides interleave. */
  lemma {:induction false} SafeCallsNeverOverrun(ss: seq<State>, acts: seq<Action>, i: nat)
    requires Run(ss, acts) && i < |ss|
    requires forall k :: 0 <= k < i ==> SafeCall(ss[k], acts[k])
    ensures SafeInv(ss[i])
  {
    hide Inv, Enabled, Step, SafeCall;
    if i > 0 {
      SafeCallsNeverOverrun(ss, acts, i - 1);
      RunInv(ss, acts, i - 1);
      SafeStep(ss[i - 1], acts[i - 1]);
    }
  }

  /** And if all calls but the last one of a run were safe, the last can run over exactly when it is
      not safe. */
  lemma FirstUnsafeCallMayOverrun(ss: seq<State>, acts: seq<Action>, i: nat, a: Action)
    requires Run(ss, acts) && i < |ss| && Enabled(ss[i], a)
    requires forall k :: 0 <= k < i ==> SafeCall(ss[k], acts[k])
    ensures a.GetStart? ==> (GetMayOverrun(ss[i], a.size) <==> !SafeCall(ss[i], a))
    ensures a.PutStart? ==> (PutMayOverrun(ss[i], a.data) <==> !SafeCall(ss[i], a))
  {
    hide Inv, Enabled, Step, GetMayOverrun, PutMayOverrun;
    RunInv(ss, acts, i);
    SafeCallsNeverOverrun(ss, acts, i);
    NotEmpty(ss[i]);
    match a {
      case GetStart(size) => GetOverrunsExactly(ss[i], size);
      case PutStart(data) => PutOverrunsExactly(ss[i], data);
      case _ =>
    }
  }

  /** Both failures are within reach of every new ring: of any get for less than a capacity at once,
      of any such put as soon as the ring has been filled. */
  lemma NewRingMayOverrun(s: State, size: nat, data: seq<Byte>)
    requires Init(s) && size < |s.ring| && |data| < |s.ring|
    ensures Enabled(s, GetStart(size)) && GetMayOverrun(s, size)
    ensures exists acts, t :: Leads(s, acts, t) && Enabled(t, PutStart(data)) && PutMayOverrun(t, data)
  {
    hide Slot, And, IsPowerOf2, Pow2, Address, Leads, RingInv, ProducerInv, ConsumerInv, GetMayOverrun, PutMayOverrun;
    InitInv(s);
    NotEmpty(s);
    GetOverrunsExactly(s, size);
    var acts, t := Filled(s);
    NotEmpty(t);
    PutOverrunsExactly(t, data);
  }

  lemma Filled(s: State) returns (acts: seq<Action>, t: State)
    requires Init(s)
    ensures Leads(s, acts, t) && Inv(t) && !t.overrun && |t.ring| == |s.ring| < WORD
    ensures t.producer == PIdle && t.consumer == CIdle && Fill(t) == |t.ring|
  {
    hide Slot, And, IsPowerOf2, Pow2, Address, Leads, RingInv, ProducerInv, ConsumerInv;
    InitInv(s);
    NotEmpty(s);
    var data := seq(|s.ring|, _ => 0);
    Producing(s, PutStart(data));
    var s1 := Step(s, PutStart(data));
    NotEmpty(s1);
    Producing(s1, PutReread);
    var rest;
    rest, t := FinishPut(Step(s1, PutReread), 0);
    LeadsJoin(s1, [PutReread], Step(s1, PutReread), rest, t);
    LeadsJoin(s, [PutStart(data)], s1, [PutReread] + rest, t);
    acts := [PutStart(data)] + ([PutReread] + rest);
  }
}
