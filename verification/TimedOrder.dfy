/** The order of a timer list, on the deadlines alone (src/timer_task.c:46-66).
    Both the linked list of timer_task.c and the looper protocol use it. */
module TimedOrder {

  import opened Common

  ghost predicate Sorted(keys: seq<int>) {
    forall i, j :: 0 <= i < j < |keys| ==> keys[i] <= keys[j]
  }

  /** Where a deadline goes: behind the last entry that is not later. */
  function InsertPos(keys: seq<int>, d: int): (p: nat)
    ensures p <= |keys|
    ensures p > 0 ==> keys[p - 1] <= d
    ensures forall i :: p <= i < |keys| ==> d < keys[i]
  {
    if |keys| == 0 then 0
    else if keys[|keys| - 1] <= d then |keys|
    else InsertPos(keys[..|keys| - 1], d)
  }

  /** The position cuts a sorted list into the entries due no later and the entries due later,
      so equal deadlines keep their posting order. */
  lemma InsertPosSplits(keys: seq<int>, d: int)
    requires Sorted(keys)
    ensures forall i :: 0 <= i < |keys| ==> (i < InsertPos(keys, d) <==> keys[i] <= d)
    ensures Sorted(InsertAt(keys, InsertPos(keys, d), d))
  {
    var p := InsertPos(keys, d);
    if p > 0 {
      forall i | 0 <= i < p ensures keys[i] <= d {
        assert i < p - 1 ==> keys[i] <= keys[p - 1];
      }
    }
  }
}
