/** The ring of slots of src/ringarray.c: a write or a read is a Ready call, the use of the slot, and
    a Finish call with the token that Ready gave. */
module RingArrays {

  import opened Common

  /** _array (block by block), _rindex, _windex and _nmemb. */
  datatype Ring<T> = Ring(slots: seq<T>, rindex: int, windex: int, nmemb: int)

  /** What the Finish calls refuse: tokens up to this limit. */
  const WRITE_LIMIT: int := -1
  const READ_LIMIT: int := 0

  const NONE: int := -2

  /** The k-th slot after slot a. */
  function Slot(a: int, k: int, n: int): (p: int)
    requires 0 <= a < n && 0 <= k <= n
    ensures p == if a + k < n then a + k else a + k - n
  {
    Remainder(a + k, n);
    (a + k) % n
  }

  lemma Remainder(x: int, n: int)
    requires 0 <= x < 2 * n
    ensures x % n == if x < n then x else x - n
  {
    var q := x / n;
    assert x == q * n + x % n;
    assert q >= 2 ==> q * n >= 2 * n;
    assert q <= 0 ==> q * n <= 0;
    assert q == 1 ==> q * n == n;
    assert q <= -1 ==> q * n <= -n;
  }

  ghost predicate Valid<T>(r: Ring<T>) {
    && 0 <= r.rindex < |r.slots| && 0 <= r.windex < |r.slots| && 0 <= r.nmemb <= |r.slots|
    && r.windex == Slot(r.rindex, r.nmemb, |r.slots|)
  }

  function WriteToken<T>(r: Ring<T>): int {
    if r.nmemb >= |r.slots| then NONE else r.windex
  }

  function ReadToken<T>(r: Ring<T>): int {
    if r.nmemb <= 0 then NONE else r.rindex
  }

  function WriteFinished<T>(r: Ring<T>, wresult: int): Ring<T>
    requires 0 <= r.windex < |r.slots|
  {
    if wresult <= WRITE_LIMIT then r
    else r.(windex := Slot(r.windex, 1, |r.slots|), nmemb := r.nmemb + 1)
  }

  /** readFinish, for a limit other than its own too. */
  function ReadFinished<T>(r: Ring<T>, rresult: int, limit: int): Ring<T>
    requires 0 <= r.rindex < |r.slots|
  {
    if rresult <= limit then r
    else r.(rindex := Slot(r.rindex, 1, |r.slots|), nmemb := r.nmemb - 1)
  }

  ghost function Contents<T>(r: Ring<T>): seq<T>
    requires Valid(r)
  {
    seq(r.nmemb, k requires 0 <= k < r.nmemb => r.slots[Slot(r.rindex, k, |r.slots|)])
  }

  // ---- one writer and one reader, each between Ready and Finish or not ----

  /** accepted: the elements whose write was finished with a slot; got: those whose read was. */
  datatype Sys<T> = Sys(ring: Ring<T>, writing: Option<int>, reading: Option<int>, accepted: seq<T>, got: seq<T>)

  datatype Step<T> = WriteReady | WriteFinish(x: T) | ReadReady | ReadFinish

  ghost predicate Enabled<T>(y: Sys<T>, e: Step<T>) {
    match e
    case WriteReady => y.writing == None
    case WriteFinish(_) => y.writing.Some?
    case ReadReady => y.reading == None
    case ReadFinish => y.reading.Some?
  }

  /** The writer fills the slot it was given, and the reader takes the element of its slot, before
      they finish. */
  ghost function After<T>(y: Sys<T>, e: Step<T>, limit: int): Sys<T>
    requires Valid(y.ring)
  {
    match e
    case WriteReady => y.(writing := Some(WriteToken(y.ring)))
    case WriteFinish(x) =>
      if y.writing.Some? && 0 <= y.writing.value < |y.ring.slots| then
        y.(ring := WriteFinished(y.ring.(slots := y.ring.slots[y.writing.value := x]), y.writing.value),
           writing := None, accepted := y.accepted + [x])
      else y.(writing := None)
    case ReadReady => y.(reading := Some(ReadToken(y.ring)))
    case ReadFinish =>
      if y.reading.Some? && 0 <= y.reading.value < |y.ring.slots| then
        y.(ring := ReadFinished(y.ring, y.reading.value, limit),
           reading := None, got := y.got + [y.ring.slots[y.reading.value]])
      else y.(reading := None)
  }

  /** A token in use is still the current one, and its slot is still free, or still filled. */
  ghost predicate Inv<T>(y: Sys<T>) {
    && Valid(y.ring)
    && (y.writing.Some? && y.writing.value != NONE ==>
          y.writing.value == y.ring.windex && y.ring.nmemb < |y.ring.slots|)
    && (y.reading.Some? && y.reading.value != NONE ==> y.reading.value == y.ring.rindex && y.ring.nmemb > 0)
  }

  lemma FinishWrite<T>(r: Ring<T>, x: T)
    requires Valid(r) && r.nmemb < |r.slots|
    ensures var r' := WriteFinished(r.(slots := r.slots[r.windex := x]), r.windex);
      Valid(r') && Contents(r') == Contents(r) + [x]
  {
    hide Slot;
    var r' := WriteFinished(r.(slots := r.slots[r.windex := x]), r.windex);
    assert forall k :: 0 <= k < r.nmemb ==> Contents(r')[k] == Contents(r)[k];
  }

  lemma FinishRead<T>(r: Ring<T>, limit: int)
    requires Valid(r) && r.nmemb > 0 && r.rindex > limit
    ensures var r' := ReadFinished(r, r.rindex, limit);
      Valid(r') && Contents(r) == [r.slots[r.rindex]] + Contents(r')
  {
    hide Slot;
    var r' := ReadFinished(r, r.rindex, limit);
    assert forall k :: 0 <= k < r.nmemb - 1 ==> Contents(r')[k] == Contents(r)[k + 1];
  }

  /** What readFinish is for: the read token of a non-empty ring removes the first element exactly
      when it is not refused, and as written it is refused exactly when it is token 0. */
  lemma ReadRemovesExactly<T>(r: Ring<T>)
    requires Valid(r) && r.nmemb > 0
    ensures ReadFinished(r, ReadToken(r), WRITE_LIMIT).nmemb == r.nmemb - 1
    ensures ReadFinished(r, ReadToken(r), READ_LIMIT).nmemb == r.nmemb - 1 <==> ReadToken(r) != 0
    ensures ReadToken(r) == 0 ==> ReadFinished(r, ReadToken(r), READ_LIMIT) == r
  {}

  lemma StepKeeps<T>(y: Sys<T>, e: Step<T>, limit: int)
    requires Inv(y) && Enabled(y, e)
    ensures Inv(After(y, e, limit))
  {
    hide Contents;
    match e {
      case WriteFinish(x) => if y.writing.value >= 0 { FinishWrite(y.ring, x); }
      case ReadFinish => if y.reading.value > limit && y.reading.value >= 0 { FinishRead(y.ring, limit); }
      case _ =>
    }
  }

  lemma FirstIsFront<T>(r: Ring<T>)
    requires Valid(r) && r.nmemb > 0
    ensures Contents(r) != [] && Contents(r)[0] == r.slots[r.rindex]
  {}

  /** Ready refuses a write exactly if the ring is full, and a read exactly if it is empty. */
  lemma ReadyRefuses<T>(y: Sys<T>, limit: int)
    requires Inv(y)
    ensures y.writing == None ==> var y' := After(y, WriteReady, limit);
      y' == y.(writing := y'.writing) && y'.writing.Some?
      && (y'.writing.value == NONE <==> |Contents(y.ring)| == |y.ring.slots|)
    ensures y.reading == None ==> var y' := After(y, ReadReady, limit);
      y' == y.(reading := y'.reading) && y'.reading.Some?
      && (y'.reading.value == NONE <==> Contents(y.ring) == [])
  {}

  /** A write that was given a slot puts its element last; one that was refused does nothing. */
  lemma WriteAppends<T>(y: Sys<T>, x: T, limit: int)
    requires Inv(y) && y.writing.Some?
    ensures var y' := After(y, WriteFinish(x), limit);
      && y'.writing == None && y'.reading == y.reading && y'.got == y.got && Valid(y'.ring)
      && if y.writing.value != NONE
         then y'.accepted == y.accepted + [x] && Contents(y'.ring) == Contents(y.ring) + [x]
         else y'.accepted == y.accepted && y'.ring == y.ring
  {
    hide Contents;
    if y.writing.value != NONE { FinishWrite(y.ring, x); }
  }

  /** A read that was given a slot gets the first element, and removes it if its token is not refused. */
  lemma ReadGetsFirst<T>(y: Sys<T>, limit: int)
    requires Inv(y) && y.reading.Some?
    ensures var y' := After(y, ReadFinish, limit);
      && y'.reading == None && y'.writing == y.writing && y'.accepted == y.accepted && Valid(y'.ring)
      && if y.reading.value != NONE
         then && Contents(y.ring) != [] && y'.got == y.got + [Contents(y.ring)[0]]
              && Contents(y'.ring) == if y.reading.value > limit then Contents(y.ring)[1..] else Contents(y.ring)
         else y'.got == y.got && y'.ring == y.ring
  {
    hide Contents;
    if y.reading.value != NONE {
      FirstIsFront(y.ring);
      if y.reading.value > limit { FinishRead(y.ring, limit); }
    }
  }

  // ---- with the guard of the write side ----

  /** First in, first out, and none lost. */
  ghost predicate Fifo<T>(y: Sys<T>) {
    Inv(y) && y.accepted == y.got + Contents(y.ring)
  }

  lemma FifoStep<T>(y: Sys<T>, e: Step<T>)
    requires Fifo(y) && Enabled(y, e)
    ensures Fifo(After(y, e, WRITE_LIMIT))
  {
    hide Contents;
    StepKeeps(y, e, WRITE_LIMIT);
    match e {
      case WriteFinish(x) => if y.writing.value >= 0 { FinishWrite(y.ring, x); }
      case ReadFinish => if y.reading.value >= 0 { FinishRead(y.ring, WRITE_LIMIT); }
      case _ =>
    }
  }

  // ---- as written ----

  /** Nothing is ever removed: the ring holds all that was accepted, at most its capacity, and every
      read gives the first element again. */
  ghost predicate Stuck<T>(y: Sys<T>) {
    && Inv(y) && y.ring.rindex == 0
    && y.accepted == Contents(y.ring)
    && Repeats(y.got, y.accepted)
  }

  /** All of got is the first of accepted. */
  ghost predicate Repeats<T>(got: seq<T>, accepted: seq<T>) {
    forall x :: x in got ==> accepted != [] && x == accepted[0]
  }

  lemma RepeatsOn<T>(got: seq<T>, accepted: seq<T>, x: T)
    requires Repeats(got, accepted)
    ensures Repeats(got, accepted + [x])
    ensures accepted != [] ==> Repeats(got + [accepted[0]], accepted)
  {}

  lemma StuckStep<T>(y: Sys<T>, e: Step<T>)
    requires Stuck(y) && Enabled(y, e)
    ensures Stuck(After(y, e, READ_LIMIT))
  {
    hide Slot, Contents, Repeats;
    StepKeeps(y, e, READ_LIMIT);
    match e {
      case WriteFinish(x) =>
        if y.writing.value >= 0 {
          FinishWrite(y.ring, x);
          RepeatsOn(y.got, y.accepted, x);
        }
      case ReadFinish =>
        if y.reading.value >= 0 {
          FirstIsFront(y.ring);
          RepeatsOn(y.got, y.accepted, y.accepted[0]);
        }
      case WriteReady =>
      case ReadReady =>
    }
  }

  // ---- runs from creation ----

  ghost predicate Run<T>(states: seq<Sys<T>>, steps: seq<Step<T>>, limit: int) {
    && |states| == |steps| + 1
    && |states[0].ring.slots| > 0
    && states[0] == Sys(Ring(states[0].ring.slots, 0, 0, 0), None, None, [], [])
    && forall i :: 0 <= i < |steps| ==>
         Enabled(states[i], steps[i]) && Valid(states[i].ring) && states[i + 1] == After(states[i], steps[i], limit)
  }

  /** With the guard of the write side the ring is a bounded queue, however the two sides' calls are
      interleaved. */
  lemma {:induction false} QueueWithWriteGuard<T>(states: seq<Sys<T>>, steps: seq<Step<T>>, i: nat)
    requires Run(states, steps, WRITE_LIMIT) && i < |states|
    ensures Fifo(states[i])
  {
    hide Fifo, Enabled, After;
    if i > 0 {
      QueueWithWriteGuard(states, steps, i - 1);
      FifoStep(states[i - 1], steps[i - 1]);
    } else {
      AtCreation(states[0]);
    }
  }

  /** As written nothing ever leaves it. */
  lemma {:induction false} NothingLeavesAsWritten<T>(states: seq<Sys<T>>, steps: seq<Step<T>>, i: nat)
    requires Run(states, steps, READ_LIMIT) && i < |states|
    ensures Stuck(states[i]) && |states[i].accepted| <= |states[i].ring.slots|
  {
    hide Enabled, After;
    if i > 0 {
      NothingLeavesAsWritten(states, steps, i - 1);
      StuckStep(states[i - 1], steps[i - 1]);
    } else {
      AtCreation(states[0]);
    }
  }

  lemma AtCreation<T>(y: Sys<T>)
    requires |y.ring.slots| > 0 && y == Sys(Ring(y.ring.slots, 0, 0, 0), None, None, [], [])
    ensures Fifo(y) && Stuck(y)
  {
  }

  // ---- the ring itself ----

  class RingArray<T(0)> {
    const slots: array<T>
    var rindex: int
    var windex: int
    var nmemb: int

    ghost function View(): Ring<T>
      reads this, slots
    {
      Ring(slots[..], rindex, windex, nmemb)
    }

    // awe_ringarray_create
    constructor (capacity: nat)
      requires capacity > 0
      ensures fresh(slots) && slots.Length == capacity && View() == Ring(slots[..], 0, 0, 0)
      ensures Valid(View()) && Contents(View()) == []
    {
      slots := new T[capacity];
      rindex, windex, nmemb := 0, 0, 0;
    }

    // awe_ringarray_writeReady: the token is also the index of the slot
    method WriteReady() returns (wresult: int)
      requires Valid(View())
      ensures wresult == WriteToken(View())
      ensures wresult == NONE <==> |Contents(View())| == slots.Length
      ensures wresult != NONE ==> 0 <= wresult < slots.Length
    {
      if nmemb >= slots.Length { return -2; }
      return windex;
    }

    // awe_ringarray_writeFinish
    method WriteFinish(wresult: int)
      requires 0 <= windex < slots.Length
      modifies this`windex, this`nmemb
      ensures View() == WriteFinished(old(View()), wresult)
      ensures old(Valid(View()) && wresult == WriteToken(View())) ==> Valid(View())
      ensures old(Valid(View()) && wresult == WriteToken(View())) ==>
        Contents(View()) == old(Contents(View())) + if wresult == NONE then [] else [old(slots[windex])]
    {
      ghost var r := View();
      if Valid(r) && r.nmemb < |r.slots| {
        assert r.slots[r.windex := r.slots[r.windex]] == r.slots;
        FinishWrite(r, r.slots[r.windex]);
      }
      if wresult < 0 { return; }
      windex := (windex + 1) % slots.Length;
      nmemb := nmemb + 1;
    }

    // awe_ringarray_readReady
    method ReadReady() returns (rresult: int)
      requires Valid(View())
      ensures rresult == ReadToken(View())
      ensures rresult == NONE <==> Contents(View()) == []
      ensures rresult != NONE ==> 0 <= rresult < slots.Length && slots[rresult] == Contents(View())[0]
    {
      if nmemb <= 0 { return -2; }
      return rindex;
    }

    // awe_ringarray_readFinish
    method ReadFinish(rresult: int)
      requires 0 <= rindex < slots.Length
      modifies this`rindex, this`nmemb
      ensures View() == ReadFinished(old(View()), rresult, READ_LIMIT)
      ensures old(Valid(View()) && rresult == ReadToken(View())) ==> Valid(View())
      ensures old(Valid(View()) && rresult == ReadToken(View())) ==>
        Contents(View()) == if rresult <= 0 then old(Contents(View())) else old(Contents(View()))[1..]
    {
      ghost var r := View();
      if Valid(r) && r.nmemb > 0 && r.rindex > READ_LIMIT { FinishRead(r, READ_LIMIT); }
      if rresult <= 0 { return; }
      rindex := (rindex + 1) % slots.Length;
      nmemb := nmemb - 1;
    }
  }
}
