/** How many bytes a put or a get moves while the other side is running (src/ringbuffer.c:51-73). */
module RingAmounts {

  import opened Words
  import opened RingSpsc
  import opened RingOverruns

  // ---- what an operation under way keeps ----

  /** A put that is copying goes on with its bytes and its number. */
  lemma {:induction false} PutCopyLasts(ss: seq<State>, acts: seq<Action>, i: nat, k: nat)
    requires Run(ss, acts) && i <= k < |ss| && ss[i].producer.PCopy?
    requires forall m :: i <= m < k ==> acts[m] != PutDone
    ensures ss[k].producer.PCopy? && ss[k].put == ss[i].put
    ensures ss[k].producer.data == ss[i].producer.data && ss[k].producer.n == ss[i].producer.n
    decreases k
  {
    hide Inv, Address, Slot, Free, Used;
    if i < k {
      PutCopyLasts(ss, acts, i, k - 1);
      assert Enabled(ss[k - 1], acts[k - 1]) && ss[k] == Step(ss[k - 1], acts[k - 1]);
    }
  }

  /** A put that has compared waits for its second reading. */
  lemma {:induction false} PutRereadLasts(ss: seq<State>, acts: seq<Action>, i: nat, k: nat)
    requires Run(ss, acts) && i <= k < |ss| && ss[i].producer.PReread?
    requires forall m :: i <= m < k ==> acts[m] != PutReread
    ensures ss[k].producer == ss[i].producer && ss[k].put == ss[i].put
    decreases k
  {
    hide Inv, Address, Slot, Free, Used;
    if i < k {
      PutRereadLasts(ss, acts, i, k - 1);
      assert Enabled(ss[k - 1], acts[k - 1]) && ss[k] == Step(ss[k - 1], acts[k - 1]);
    }
  }

  lemma {:induction false} GetCopyLasts(ss: seq<State>, acts: seq<Action>, i: nat, k: nat)
    requires Run(ss, acts) && i <= k < |ss| && ss[i].consumer.CCopy?
    requires forall m :: i <= m < k ==> acts[m] != GetDone
    ensures ss[k].consumer.CCopy? && ss[k].got == ss[i].got && ss[k].consumer.n == ss[i].consumer.n
    decreases k
  {
    hide Inv, Address, Slot, Free, Used;
    if i < k {
      GetCopyLasts(ss, acts, i, k - 1);
      assert Enabled(ss[k - 1], acts[k - 1]) && ss[k] == Step(ss[k - 1], acts[k - 1]);
    }
  }

  lemma {:induction false} GetRereadLasts(ss: seq<State>, acts: seq<Action>, i: nat, k: nat)
    requires Run(ss, acts) && i <= k < |ss| && ss[i].consumer.CReread?
    requires forall m :: i <= m < k ==> acts[m] != GetReread
    ensures ss[k].consumer == ss[i].consumer && ss[k].got == ss[i].got
    decreases k
  {
    hide Inv, Address, Slot, Free, Used;
    if i < k {
      GetRereadLasts(ss, acts, i, k - 1);
      assert Enabled(ss[k - 1], acts[k - 1]) && ss[k] == Step(ss[k - 1], acts[k - 1]);
    }
  }

  /** The first occurrence of a between i and j, j if there is none. */
  lemma {:induction false} FirstOf(acts: seq<Action>, a: Action, i: nat, j: nat) returns (r: nat)
    requires i <= j <= |acts|
    ensures i <= r <= j && (r < j ==> acts[r] == a) && forall m :: i <= m < r ==> acts[m] != a
    decreases j - i
  {
    if i == j || acts[i] == a { r := i; } else { r := FirstOf(acts, a, i + 1, j); }
  }

  // ---- single steps ----

  lemma PutStarts(s: State, data: seq<Byte>)
    requires Inv(s) && Enabled(s, PutStart(data))
    ensures var s' := Step(s, PutStart(data));
      && s'.put == s.put
      && if |data| < Room(s) then s'.producer.PCopy? && s'.producer.data == data && s'.producer.n == |data|
         else s'.producer.PReread? && s'.producer.data == data
  {
    NotEmpty(s);
  }

  lemma PutRereads(s: State)
    requires Inv(s) && Enabled(s, PutReread) && !Step(s, PutReread).overrun
    ensures var s' := Step(s, PutReread);
      s'.put == s.put && s'.producer.PCopy? && s'.producer.data == s.producer.data && s'.producer.n == Room(s)
  {
    NotEmpty(s);
  }

  lemma GetStarts(s: State, size: nat)
    requires Inv(s) && Enabled(s, GetStart(size))
    ensures var s' := Step(s, GetStart(size));
      && s'.got == s.got
      && if size < Fill(s) then s'.consumer.CCopy? && s'.consumer.n == size else s'.consumer.CReread?
  {
    NotEmpty(s);
  }

  lemma GetRereads(s: State)
    requires Inv(s) && Enabled(s, GetReread) && !Step(s, GetReread).overrun
    ensures Step(s, GetReread).got == s.got
    ensures Step(s, GetReread).consumer.CCopy? && Step(s, GetReread).consumer.n == Fill(s)
  {
    NotEmpty(s);
  }

  lemma StepAt(ss: seq<State>, acts: seq<Action>, k: nat)
    requires Run(ss, acts) && k < |acts|
    ensures |ss| == |acts| + 1
    ensures Inv(ss[k]) && Enabled(ss[k], acts[k]) && ss[k + 1] == Step(ss[k], acts[k])
    ensures k + 1 < |acts| ==> !ss[k + 1].overrun
  {
    hide Inv;
    RunInv(ss, acts, k);
    assert k + 1 < |acts| ==> Enabled(ss[k + 1], acts[k + 1]);
  }

  lemma DoneNeedsCopy(s: State)
    ensures Enabled(s, PutDone) ==> s.producer.PCopy?
    ensures Enabled(s, GetDone) ==> s.consumer.CCopy?
  {}

  // ---- whole operations ----

  /** A put publishes all its bytes if there is more room when it starts; otherwise the first n, n being
      the room at its second reading (r). */
  lemma PutPublishes(ss: seq<State>, acts: seq<Action>, i: nat, j: nat) returns (n: nat, r: nat)
    requires Run(ss, acts) && i < j < |acts| && acts[i].PutStart? && acts[j] == PutDone && !ss[j + 1].overrun
    requires forall m :: i < m < j ==> acts[m] != PutDone
    ensures n <= |acts[i].data| && ss[j + 1].put == ss[i].put + acts[i].data[..n]
    ensures |acts[i].data| < Room(ss[i]) ==> n == |acts[i].data|
    ensures |acts[i].data| >= Room(ss[i]) ==> i < r < j && acts[r] == PutReread && n == Room(ss[r])
  {
    hide Inv, Step, Run;
    var data := acts[i].data;
    StepAt(ss, acts, i);
    StepAt(ss, acts, j);
    DoneNeedsCopy(ss[j]);
    PutStarts(ss[i], data);
    r := i;
    if |data| < Room(ss[i]) {
      n := |data|;
      PutCopyLasts(ss, acts, i + 1, j);
    } else {
      r := FirstOf(acts, PutReread, i + 1, j);
      PutRereadLasts(ss, acts, i + 1, r);
      assert r < j;
      StepAt(ss, acts, r);
      PutRereads(ss[r]);
      n := ss[r + 1].producer.n;
      PutCopyLasts(ss, acts, r + 1, j);
    }
    PutEnds(ss[j]);
  }

  lemma PutEnds(s: State)
    requires Enabled(s, PutDone) && !Step(s, PutDone).overrun
    ensures s.producer.PCopy? && s.producer.n <= |s.producer.data|
    ensures Step(s, PutDone).put == s.put + s.producer.data[..s.producer.n]
  {}

  /** A get takes size bytes if more are there when it starts; otherwise all that are there at its
      second reading (r); and they are the next of those put. */
  lemma GetTakes(ss: seq<State>, acts: seq<Action>, i: nat, j: nat) returns (n: nat, r: nat)
    requires Run(ss, acts) && i < j < |acts| && acts[i].GetStart? && acts[j] == GetDone
    requires forall m :: i < m < j ==> acts[m] != GetDone
    ensures |ss[i].got| + n <= |ss[j + 1].put| && ss[j + 1].got == ss[j + 1].put[..|ss[i].got| + n]
    ensures acts[i].size < Fill(ss[i]) ==> n == acts[i].size
    ensures acts[i].size >= Fill(ss[i]) ==> i < r < j && acts[r] == GetReread && n == Fill(ss[r])
  {
    hide Inv, Step, Run;
    var size := acts[i].size;
    StepAt(ss, acts, i);
    StepAt(ss, acts, j);
    DoneNeedsCopy(ss[j]);
    GetStarts(ss[i], size);
    r := i;
    if size < Fill(ss[i]) {
      n := size;
      GetCopyLasts(ss, acts, i + 1, j);
    } else {
      r := FirstOf(acts, GetReread, i + 1, j);
      GetRereadLasts(ss, acts, i + 1, r);
      assert r < j;
      StepAt(ss, acts, r);
      GetRereads(ss[r]);
      n := ss[r + 1].consumer.n;
      GetCopyLasts(ss, acts, r + 1, j);
    }
    GetEnds(ss[j]);
    GotIsPrefixOfPut(ss, acts, j + 1);
  }

  lemma GetEnds(s: State)
    requires Enabled(s, GetDone)
    ensures s.consumer.CCopy? && |Step(s, GetDone).got| == |s.got| + s.consumer.n
  {}
}
