/**
  The byte ring of src/ringbuffer.c with one producer and one consumer running at the same time,
  byte by byte, on sequentially consistent memory.

  memcpy may move its bytes in any order.  `_min_` evaluates its second argument twice, so
  awe_ringbuffer_put reads _out twice and awe_ringbuffer_get reads _in twice when the request is
  not smaller than the first reading: once to compare, once for the value.
 */
module RingSpsc {

  import opened Words

  type Byte = bv8

  datatype Producer =
    | PIdle
    | PReread(data: seq<Byte>, seen: nat)
    | PCopy(data: seq<Byte>, n: nat, done: set<nat>)

  datatype Consumer =
    | CIdle
    | CReread(size: nat, seen: nat)
    | CCopy(n: nat, copied: map<nat, Byte>)

  /** put and got: all bytes whose put has been published, all bytes whose get has been published.
      overrun: an operation has left the ring or its caller's buffer. */
  datatype State = State(
    ring: seq<Byte>, inPos: nat, outPos: nat,
    producer: Producer, consumer: Consumer,
    put: seq<Byte>, got: seq<Byte>, overrun: bool)

  datatype Action =
    | PutStart(data: seq<Byte>) | PutReread | PutByte(i: nat) | PutDone
    | GetStart(size: nat) | GetReread | GetByte(i: nat) | GetDone

  /** _capacity - _in + _out, and _in - _out, on size_t. */
  function Free(s: State): nat { (|s.ring| - s.inPos + s.outPos) % WORD }

  function Used(s: State): nat { Sub(s.inPos, s.outPos) }

  /** Where the two memcpy calls find byte i of an operation that starts at counter pos. */
  function Address(pos: nat, i: nat, c: nat): int
    requires c > 0
  {
    var at := And(pos, c - 1);
    if i < c - at then at + i else i - (c - at)
  }

  ghost predicate Init(s: State) {
    && IsPowerOf2(|s.ring|) && |s.ring| < WORD && s.inPos == 0 && s.outPos == 0
    && s.producer == PIdle && s.consumer == CIdle && s.put == [] && s.got == [] && !s.overrun
  }

  ghost predicate Enabled(s: State, a: Action) {
    && !s.overrun && |s.ring| > 0
    && match a
       case PutStart(data) => s.producer.PIdle? && |data| < WORD
       case PutReread => s.producer.PReread?
       case PutByte(i) => s.producer.PCopy? && i < s.producer.n && i !in s.producer.done
       case PutDone => s.producer.PCopy? && forall i: nat :: i < s.producer.n ==> i in s.producer.done
       case GetStart(size) => s.consumer.CIdle? && size < WORD
       case GetReread => s.consumer.CReread?
       case GetByte(i) => s.consumer.CCopy? && i < s.consumer.n && i !in s.consumer.copied
       case GetDone => s.consumer.CCopy? && forall i: nat :: i < s.consumer.n ==> i in s.consumer.copied
  }

  ghost function Step(s: State, a: Action): State
    requires Enabled(s, a)
  {
    match a
    // src/ringbuffer.c:63-73
    case PutStart(data) =>
      if |data| < Free(s) then s.(producer := PCopy(data, |data|, {}))
      else s.(producer := PReread(data, Free(s)))
    case PutReread =>
      if Free(s) > |s.producer.data| then s.(overrun := true)
      else s.(producer := PCopy(s.producer.data, Free(s), {}))
    case PutByte(i) => PutOne(s, s.producer.data, s.producer.n, s.producer.done, i)
    case PutDone =>
      if s.producer.n > |s.producer.data| then s.(overrun := true)
      else s.(producer := PIdle, inPos := (s.inPos + s.producer.n) % WORD,
              put := s.put + s.producer.data[..s.producer.n])
    // src/ringbuffer.c:51-61
    case GetStart(size) =>
      if size < Used(s) then s.(consumer := CCopy(size, map[])) else s.(consumer := CReread(size, Used(s)))
    case GetReread =>
      if Used(s) > s.consumer.size then s.(overrun := true) else s.(consumer := CCopy(Used(s), map[]))
    case GetByte(i) => GetOne(s, s.consumer.n, s.consumer.copied, i)
    case GetDone =>
      s.(consumer := CIdle, outPos := (s.outPos + s.consumer.n) % WORD,
         got := s.got + seq(s.consumer.n, i requires 0 <= i < s.consumer.n => s.consumer.copied[i]))
  }

  function PutOne(s: State, data: seq<Byte>, n: nat, done: set<nat>, i: nat): State
    requires |s.ring| > 0
  {
    var at := Address(s.inPos, i, |s.ring|);
    if i < |data| && 0 <= at < |s.ring|
    then s.(ring := s.ring[at := data[i]], producer := PCopy(data, n, done + {i}))
    else s.(overrun := true)
  }

  function GetOne(s: State, n: nat, copied: map<nat, Byte>, i: nat): State
    requires |s.ring| > 0
  {
    var at := Address(s.outPos, i, |s.ring|);
    if 0 <= at < |s.ring| then s.(consumer := CCopy(n, copied[i := s.ring[at]])) else s.(overrun := true)
  }

  // ---- what every step keeps ----

  /** The counters are the published totals, wrapped; the published bytes not yet got stand in their slots. */
  ghost predicate RingInv(s: State) {
    && IsPowerOf2(|s.ring|) && |s.ring| < WORD
    && s.inPos == |s.put| % WORD && s.outPos == |s.got| % WORD
    && s.got <= s.put && |s.put| - |s.got| <= |s.ring|
    && forall k :: |s.got| <= k < |s.put| ==> s.ring[Slot(k, |s.ring|)] == s.put[k]
  }

  /** A put under way stays within the free space, and what it has written stands in its slots. */
  ghost predicate ProducerInv(s: State)
    requires |s.ring| > 0
  {
    match s.producer
    case PIdle => true
    case PReread(data, seen) => seen <= |data| && seen <= |s.ring| - (|s.put| - |s.got|)
    case PCopy(data, n, done) =>
      && n <= |data| && n <= |s.ring| - (|s.put| - |s.got|)
      && forall i :: i in done ==> i < n && s.ring[Slot(|s.put| + i, |s.ring|)] == data[i]
  }

  /** A get under way stays within the published bytes, and has read exactly those. */
  ghost predicate ConsumerInv(s: State) {
    match s.consumer
    case CIdle => true
    case CReread(size, seen) => seen <= size && seen <= |s.put| - |s.got|
    case CCopy(n, copied) =>
      && n <= |s.put| - |s.got|
      && forall i :: i in copied ==> i < n && copied[i] == s.put[|s.got| + i]
  }

  ghost predicate Inv(s: State) {
    RingInv(s) && ProducerInv(s) && ConsumerInv(s)
  }

  lemma InitInv(s: State)
    requires Init(s)
    ensures Inv(s)
  {
    SmallMod(0, WORD);
  }

  /** The modular differences that the code computes are the true amounts. */
  lemma Amounts(s: State)
    requires RingInv(s)
    ensures Used(s) == |s.put| - |s.got| && Free(s) == |s.ring| - (|s.put| - |s.got|)
  {
    hide Pow2, And, IsPowerOf2;
    var used := |s.put| - |s.got|;
    var q, r := |s.got| / WORD, |s.got| % WORD;
    assert |s.got| == WORD * q + r;
    if r + used < WORD {
      ModUnique(|s.put|, WORD, q, r + used);
    } else {
      assert WORD * (q + 1) == WORD * q + WORD;
      ModUnique(|s.put|, WORD, q + 1, r + used - WORD);
    }
    ModDiff(s.inPos, s.outPos, WORD);
    Counters(s.inPos, s.outPos, |s.ring|);
  }

  lemma AddressIsSlot(k: nat, i: nat, c: nat)
    requires IsPowerOf2(c) && c < WORD && i < c
    ensures Address(k % WORD, i, c) == Slot(k + i, c)
  {
    hide Pow2, IsPowerOf2, And;
    WrapKeepsSlot(k, c);
    SlotAhead(k, i, c);
  }

  /** Writing byte i of a put: the slot is inside the ring, belongs to that byte, and is the slot of
      no byte that is still to be got. */
  lemma PutWritesFreeSlot(s: State, i: nat)
    requires Inv(s) && Enabled(s, PutByte(i))
    ensures var at := Address(s.inPos, i, |s.ring|);
            && 0 <= at < |s.ring| && at == Slot(|s.put| + i, |s.ring|)
            && (forall k: nat :: |s.got| <= k < |s.put| + s.producer.n && k != |s.put| + i ==> Slot(k, |s.ring|) != at)
  {
    hide Pow2, IsPowerOf2, And, Slot;
    AddressIsSlot(|s.put|, i, |s.ring|);
    var me := |s.put| + i;
    forall k: nat | |s.got| <= k < |s.put| + s.producer.n && k != me ensures Slot(k, |s.ring|) != Slot(me, |s.ring|) {
      SlotsDiffer(if k < me then k else me, if k < me then me else k, |s.ring|);
    }
  }

  /** Reading byte i of a get: the slot is inside the ring and holds the byte that was put there. */
  lemma GetReadsPutByte(s: State, i: nat)
    requires Inv(s) && Enabled(s, GetByte(i))
    ensures var at := Address(s.outPos, i, |s.ring|);
            0 <= at < |s.ring| && s.ring[at] == s.put[|s.got| + i]
  {
    hide Pow2, IsPowerOf2, And, Slot;
    AddressIsSlot(|s.got|, i, |s.ring|);
  }

  lemma PutByteKeeps(s: State, i: nat)
    requires Inv(s) && Enabled(s, PutByte(i))
    ensures Inv(Step(s, PutByte(i)))
  {
    hide Pow2, IsPowerOf2, And, Slot, Address;
    PutWritesFreeSlot(s, i);
    var s', me := Step(s, PutByte(i)), |s.put| + i;
    assert forall k: nat :: |s.got| <= k < |s.put| + s.producer.n && k != me ==>
      s'.ring[Slot(k, |s.ring|)] == s.ring[Slot(k, |s.ring|)];
    assert ConsumerInv(s');
    assert ProducerInv(s') by { hide RingInv, ConsumerInv; }
  }

  lemma PutDoneKeeps(s: State)
    requires Inv(s) && Enabled(s, PutDone)
    ensures Inv(Step(s, PutDone))
  {
    hide Pow2, IsPowerOf2, And, Slot;
    var s', n := Step(s, PutDone), s.producer.n;
    ModOfSum(|s.put|, n, WORD);
    forall k | |s'.got| <= k < |s'.put| ensures s'.ring[Slot(k, |s'.ring|)] == s'.put[k] {
      if k >= |s.put| {
        assert k - |s.put| in s.producer.done;
      }
    }
  }

  lemma GetDoneKeeps(s: State)
    requires Inv(s) && Enabled(s, GetDone)
    ensures Inv(Step(s, GetDone))
  {
    hide Pow2, IsPowerOf2, And, Slot;
    ModOfSum(|s.got|, s.consumer.n, WORD);
  }

  /** The starts and the second readings: the amounts seen are the true ones. */
  lemma ReadKeeps(s: State, a: Action)
    requires Inv(s) && Enabled(s, a) && (a.PutStart? || a.PutReread? || a.GetStart? || a.GetReread?)
    ensures Inv(Step(s, a))
  {
    hide Pow2, IsPowerOf2, And, Slot, Free, Used;
    Amounts(s);
  }

  lemma GetByteKeeps(s: State, i: nat)
    requires Inv(s) && Enabled(s, GetByte(i))
    ensures Inv(Step(s, GetByte(i)))
  {
    hide Pow2, IsPowerOf2, And, Slot, Address;
    GetReadsPutByte(s, i);
  }

  /** Every step of either side keeps the invariant. */
  lemma InvStep(s: State, a: Action)
    requires Inv(s) && Enabled(s, a)
    ensures Inv(Step(s, a))
  {
    hide Inv, Step;
    match a
    case PutByte(i) => PutByteKeeps(s, i);
    case PutDone => PutDoneKeeps(s);
    case GetByte(i) => GetByteKeeps(s, i);
    case GetDone => GetDoneKeeps(s);
    case _ => ReadKeeps(s, a);
  }

  lemma ModOfSum(a: nat, n: nat, w: nat)
    requires w > 0
    ensures (a % w + n) % w == (a + n) % w
  {
    var p, q, r := a / w, (a % w + n) / w, (a % w + n) % w;
    assert a == w * p + a % w && a % w + n == w * q + r;
    assert w * (p + q) == w * p + w * q;
    ModUnique(a + n, w, p + q, r);
  }

  // ---- whole runs ----

  ghost predicate Run(ss: seq<State>, acts: seq<Action>) {
    && |ss| == |acts| + 1
    && Init(ss[0])
    && forall i {:trigger acts[i]} | 0 <= i < |acts| :: Enabled(ss[i], acts[i]) && ss[i + 1] == Step(ss[i], acts[i])
  }

  lemma {:induction false} RunInv(ss: seq<State>, acts: seq<Action>, i: nat)
    requires Run(ss, acts) && i < |ss|
    ensures Inv(ss[i])
  {
    hide Inv, Enabled, Step, Init;
    if i == 0 {
      InitInv(ss[0]);
    } else {
      RunInv(ss, acts, i - 1);
      InvStep(ss[i - 1], acts[i - 1]);
    }
  }

  /** Under every interleaving, the bytes got so far are the first of the bytes put so far, and at
      most a capacity of them is under way. */
  lemma GotIsPrefixOfPut(ss: seq<State>, acts: seq<Action>, i: nat)
    requires Run(ss, acts) && i < |ss|
    ensures ss[i].got <= ss[i].put && |ss[i].put| - |ss[i].got| <= |ss[i].ring|
  {
    RunInv(ss, acts, i);
  }

  // ---- the double evaluation in _min_ ----

  /** Nothing leaves the ring or the caller's buffer, except that a second evaluation may see more
      room (or more bytes) than the caller asked for. */
  lemma OverrunExactly(s: State, a: Action)
    requires Inv(s) && Enabled(s, a)
    ensures Step(s, a).overrun <==>
            || (a == PutReread && |s.ring| - (|s.put| - |s.got|) > |s.producer.data|)
            || (a == GetReread && |s.put| - |s.got| > s.consumer.size)
  {
    hide Pow2, IsPowerOf2, And, Slot, Address;
    Amounts(s);
    match a
    case PutByte(i) => PutWritesFreeSlot(s, i);
    case GetByte(i) => GetReadsPutByte(s, i);
    case _ =>
  }

  /** If the consumer publishes nothing between the two evaluations of a put, they agree. */
  lemma {:induction false} PutSeesTheSame(ss: seq<State>, acts: seq<Action>, i: nat, j: nat)
    requires Run(ss, acts) && i < j < |ss| && acts[i].PutStart? && ss[i + 1].producer.PReread?
    requires forall k :: i < k < j ==> acts[k] != GetDone && acts[k] != PutReread
    ensures ss[j].producer == ss[i + 1].producer && Free(ss[j]) == ss[j].producer.seen
    decreases j
  {
    hide Pow2, IsPowerOf2, And, Slot, Address;
    if j == i + 1 {
      assert Enabled(ss[i], acts[i]) && ss[i + 1] == Step(ss[i], acts[i]);
    } else {
      PutSeesTheSame(ss, acts, i, j - 1);
      assert Enabled(ss[j - 1], acts[j - 1]) && ss[j] == Step(ss[j - 1], acts[j - 1]);
    }
  }

  /** ... so a put that re-reads undisturbed stays inside its caller's buffer. */
  lemma UndisturbedPutFits(ss: seq<State>, acts: seq<Action>, i: nat, j: nat)
    requires Run(ss, acts) && i < j < |acts|
    requires acts[i].PutStart? && ss[i + 1].producer.PReread? && acts[j] == PutReread
    requires forall k :: i < k < j ==> acts[k] != GetDone && acts[k] != PutReread
    ensures !ss[j + 1].overrun && ss[j + 1].producer.n == ss[i + 1].producer.seen <= |acts[i].data|
  {
    hide Pow2, IsPowerOf2, And, Slot, Address;
    assert Enabled(ss[i], acts[i]) && ss[i + 1] == Step(ss[i], acts[i]);
    assert Enabled(ss[j], acts[j]) && ss[j + 1] == Step(ss[j], acts[j]);
    PutSeesTheSame(ss, acts, i, j);
  }

  lemma {:induction false} GetSeesTheSame(ss: seq<State>, acts: seq<Action>, i: nat, j: nat)
    requires Run(ss, acts) && i < j < |ss| && acts[i].GetStart? && ss[i + 1].consumer.CReread?
    requires forall k :: i < k < j ==> acts[k] != PutDone && acts[k] != GetReread
    ensures ss[j].consumer == ss[i + 1].consumer && Used(ss[j]) == ss[j].consumer.seen
    decreases j
  {
    hide Pow2, IsPowerOf2, And, Slot, Address;
    if j == i + 1 {
      assert Enabled(ss[i], acts[i]) && ss[i + 1] == Step(ss[i], acts[i]);
    } else {
      GetSeesTheSame(ss, acts, i, j - 1);
      assert Enabled(ss[j - 1], acts[j - 1]) && ss[j] == Step(ss[j - 1], acts[j - 1]);
    }
  }

  /** Likewise for a get, when the producer publishes nothing in between. */
  lemma UndisturbedGetFits(ss: seq<State>, acts: seq<Action>, i: nat, j: nat)
    requires Run(ss, acts) && i < j < |acts|
    requires acts[i].GetStart? && ss[i + 1].consumer.CReread? && acts[j] == GetReread
    requires forall k :: i < k < j ==> acts[k] != PutDone && acts[k] != GetReread
    ensures !ss[j + 1].overrun && ss[j + 1].consumer.n == ss[i + 1].consumer.seen <= acts[i].size
  {
    hide Pow2, IsPowerOf2, And, Slot, Address;
    assert Enabled(ss[i], acts[i]) && ss[i + 1] == Step(ss[i], acts[i]);
    assert Enabled(ss[j], acts[j]) && ss[j + 1] == Step(ss[j], acts[j]);
    GetSeesTheSame(ss, acts, i, j);
  }
}
