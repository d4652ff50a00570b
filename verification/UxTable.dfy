/** The event table of src/uxscheduler.c and one dispatch round over it. */
module UxTable {

  import opened Common
  import opened Bits

  /** uxevent; handler stands for the proc and its userdata. */
  datatype Event = Event(ufd: int, conditions: bv32, handler: nat)

  const READ: bv32 := 1
  const WRITE: bv32 := 2

  /** At most one entry per descriptor, and never descriptor 0. */
  ghost predicate WellFormed(t: seq<Event>) {
    && (forall i, j :: 0 <= i < j < |t| ==> t[i].ufd != t[j].ufd)
    && (forall i :: 0 <= i < |t| ==> t[i].ufd != 0)
  }

  /** The table as a map: what is registered for a descriptor. */
  function Lookup(t: seq<Event>, ufd: int): Option<Event> {
    if t == [] then None else if t[0].ufd == ufd then Some(t[0]) else Lookup(t[1..], ufd)
  }

  /** The descriptors in order of registration. */
  function Order(t: seq<Event>): (r: seq<int>)
    ensures |r| == |t| && forall i :: 0 <= i < |t| ==> r[i] == t[i].ufd
  {
    seq(|t|, i requires 0 <= i < |t| => t[i].ufd)
  }

  datatype Op =
    | Add(ufd: int, conditions: bv32, handler: nat)
    | Rm(ufd: int)
    | Enable(ufd: int, events: bv32)
    | Disable(ufd: int, events: bv32)

  /** What an operation makes of the entry of its descriptor. */
  function Result(op: Op, e: Option<Event>): Option<Event> {
    match op
    case Add(ufd, c, h) => if ufd == 0 then e else if c == 0 then None else Some(Event(ufd, c, h))
    case Rm(_) => None
    case Enable(_, ev) => if e.Some? then Some(e.value.(conditions := SetBits(e.value.conditions, ev))) else None
    case Disable(_, ev) => if e.Some? then Some(e.value.(conditions := ClearBits(e.value.conditions, ev))) else None
  }

  /** The order after an operation on ufd: a new descriptor goes last, a removed one drops out. */
  function Reorder(order: seq<int>, ufd: int, registered: bool): seq<int> {
    if registered then (if ufd in order then order else order + [ufd]) else Without(order, ufd)
  }

  function Without(order: seq<int>, ufd: int): seq<int> {
    if order == [] then [] else if order[0] == ufd then order[1..] else [order[0]] + Without(order[1..], ufd)
  }

  /** Event table t' is t after op, as an insertion-ordered map. */
  ghost predicate Updated(t: seq<Event>, op: Op, t': seq<Event>) {
    && WellFormed(t')
    && (forall ufd :: Lookup(t', ufd) == if ufd == op.ufd then Result(op, Lookup(t, ufd)) else Lookup(t, ufd))
    && Order(t') == Reorder(Order(t), op.ufd, Result(op, Lookup(t, op.ufd)).Some?)
  }

  lemma {:induction false} LookupAt(t: seq<Event>, ufd: int)
    ensures Lookup(t, ufd).Some? <==> exists i :: 0 <= i < |t| && t[i].ufd == ufd
    ensures Lookup(t, ufd).Some? ==> Lookup(t, ufd).value in t && Lookup(t, ufd).value.ufd == ufd
    ensures forall i :: WellFormed(t) && 0 <= i < |t| && t[i].ufd == ufd ==> Lookup(t, ufd) == Some(t[i])
  {
    if t != [] && t[0].ufd != ufd {
      LookupAt(t[1..], ufd);
      if Lookup(t, ufd).Some? {
        var i :| 0 <= i < |t[1..]| && t[1..][i].ufd == ufd;
        assert t[i + 1].ufd == ufd;
      }
      forall i | 0 <= i < |t| && t[i].ufd == ufd
        ensures Lookup(t, ufd).Some? && (WellFormed(t) ==> Lookup(t, ufd) == Some(t[i]))
      {
        assert t[1..][i - 1] == t[i];
      }
    }
  }

  /** Two tables with the same order and the same entries are the same table. */
  lemma TableIsDetermined(t: seq<Event>, t': seq<Event>)
    requires WellFormed(t) && WellFormed(t') && Order(t) == Order(t')
    requires forall ufd :: Lookup(t, ufd) == Lookup(t', ufd)
    ensures t == t'
  {
    forall i | 0 <= i < |t| ensures t[i] == t'[i] {
      assert Order(t)[i] == Order(t')[i];
      LookupAt(t, t[i].ufd);
      LookupAt(t', t[i].ufd);
    }
  }

  function IndexOf(t: seq<Event>, ufd: int): (i: nat)
    ensures i <= |t| && (i < |t| ==> t[i].ufd == ufd)
    ensures forall k :: 0 <= k < i ==> t[k].ufd != ufd
  {
    if t == [] then 0 else if t[0].ufd == ufd then 0 else 1 + IndexOf(t[1..], ufd)
  }

  /** The table after an operation. */
  function Apply(t: seq<Event>, op: Op): seq<Event> {
    var i := IndexOf(t, op.ufd);
    var r := Result(op, if i < |t| then Some(t[i]) else None);
    if i < |t| then (if r.Some? then t[i := r.value] else RemoveAt(t, i))
    else (if r.Some? then t + [r.value] else t)
  }

  lemma {:induction false} WithoutAt(order: seq<int>, i: nat)
    requires i < |order| && forall k :: 0 <= k < i ==> order[k] != order[i]
    ensures Without(order, order[i]) == RemoveAt(order, i)
  {
    if i > 0 {
      assert order[1..][i - 1] == order[i];
      WithoutAt(order[1..], i - 1);
      assert RemoveAt(order, i) == [order[0]] + RemoveAt(order[1..], i - 1);
    }
  }

  lemma {:induction false} WithoutAbsent(order: seq<int>, ufd: int)
    requires ufd !in order
    ensures Without(order, ufd) == order
  {
    if order != [] { WithoutAbsent(order[1..], ufd); }
  }

  lemma LookupIsEntry(t: seq<Event>, ufd: int, i: nat)
    requires WellFormed(t)
    requires i < |t| ==> t[i].ufd == ufd
    requires i >= |t| ==> forall k :: 0 <= k < |t| ==> t[k].ufd != ufd
    ensures Lookup(t, ufd) == if i < |t| then Some(t[i]) else None
  {
    LookupAt(t, ufd);
  }

  lemma SetLookup(t: seq<Event>, i: nat, e: Event, ufd: int)
    requires WellFormed(t) && i < |t| && e.ufd == t[i].ufd
    ensures WellFormed(t[i := e]) && Order(t[i := e]) == Order(t)
    ensures Lookup(t[i := e], ufd) == if ufd == e.ufd then Some(e) else Lookup(t, ufd)
  {
    var k := IndexOf(t, ufd);
    LookupIsEntry(t, ufd, k);
    LookupIsEntry(t[i := e], ufd, k);
  }

  lemma RemoveLookup(t: seq<Event>, i: nat, ufd: int)
    requires WellFormed(t) && i < |t|
    ensures WellFormed(RemoveAt(t, i)) && Order(RemoveAt(t, i)) == RemoveAt(Order(t), i)
    ensures Lookup(RemoveAt(t, i), ufd) == if ufd == t[i].ufd then None else Lookup(t, ufd)
  {
    var k := IndexOf(t, ufd);
    LookupIsEntry(t, ufd, k);
    LookupIsEntry(RemoveAt(t, i), ufd, if ufd == t[i].ufd then |t| - 1 else if k < i then k else k - 1);
  }

  lemma AppendLookup(t: seq<Event>, e: Event, ufd: int)
    requires WellFormed(t) && e.ufd != 0 && forall k :: 0 <= k < |t| ==> t[k].ufd != e.ufd
    ensures WellFormed(t + [e]) && Order(t + [e]) == Order(t) + [e.ufd]
    ensures Lookup(t + [e], ufd) == if ufd == e.ufd then Some(e) else Lookup(t, ufd)
  {
    var k := IndexOf(t, ufd);
    LookupIsEntry(t, ufd, k);
    LookupIsEntry(t + [e], ufd, if ufd == e.ufd then |t| else if k < |t| then k else |t| + 1);
  }

  /** Adding, removing, enabling and disabling refine an insertion-ordered map. */
  lemma ApplyUpdates(t: seq<Event>, op: Op)
    requires WellFormed(t)
    ensures Updated(t, op, Apply(t, op))
  {
    hide Lookup, Order, IndexOf, WellFormed, RemoveAt;
    var i, t' := IndexOf(t, op.ufd), Apply(t, op);
    LookupIsEntry(t, op.ufd, i);
    var r := Result(op, Lookup(t, op.ufd));
    assert op.ufd != 0 || r.None? by { LookupAt(t, op.ufd); ZeroIsNeverIn(t); }
    forall ufd ensures WellFormed(t') && Lookup(t', ufd) == if ufd == op.ufd then r else Lookup(t, ufd) {
      if i < |t| {
        if r.Some? { SetLookup(t, i, r.value, ufd); } else { RemoveLookup(t, i, ufd); }
      } else if r.Some? {
        AppendLookup(t, r.value, ufd);
      }
    }
    if i < |t| {
      assert Order(t)[i] == op.ufd;
      if r.Some? { SetLookup(t, i, r.value, 0); } else { RemoveLookup(t, i, 0); WithoutAt(Order(t), i); }
    } else {
      if r.Some? { AppendLookup(t, r.value, 0); } else { WithoutAbsent(Order(t), op.ufd); }
    }
  }

  lemma ZeroIsNeverIn(t: seq<Event>)
    requires WellFormed(t)
    ensures Lookup(t, 0) == None
  {
    LookupAt(t, 0);
  }

  // ---- what each operation does to the entry of its descriptor, bit by bit ----

  lemma EnableMeets(t: seq<Event>, ufd: int, ev: bv32, m: bv32)
    requires WellFormed(t) && Lookup(t, ufd).Some?
    ensures var e, e' := Lookup(t, ufd).value, Lookup(Apply(t, Enable(ufd, ev)), ufd);
      && e'.Some? && e'.value.ufd == ufd && e'.value.handler == e.handler
      && (Meets(e'.value.conditions, m) <==> Meets(e.conditions, m) || Meets(ev, m))
  {
    hide SetBits, Meets, Apply, Order, WellFormed;
    ApplyUpdates(t, Enable(ufd, ev));
    LookupAt(t, ufd);
    hide Lookup;
    MeetsSet(Lookup(t, ufd).value.conditions, ev, m);
  }

  /** Enabling adds exactly the given conditions to those of a registered descriptor (m: any of them). */
  lemma EnableAdds(t: seq<Event>, ufd: int, ev: bv32, m: bv32)
    requires WellFormed(t)
    ensures Lookup(t, ufd).Some? ==>
      var e, e' := Lookup(t, ufd).value, Lookup(Apply(t, Enable(ufd, ev)), ufd);
      && e'.Some? && e'.value.ufd == ufd && e'.value.handler == e.handler
      && ((e'.value.conditions & m != 0) <==> (e.conditions & m != 0) || (ev & m != 0))
    ensures Lookup(t, ufd).None? ==> Apply(t, Enable(ufd, ev)) == t
  {
    hide Apply, Lookup, WellFormed;
    if Lookup(t, ufd).Some? {
      EnableMeets(t, ufd, ev, m);
    } else {
      UnknownIsUntouched(t, Enable(ufd, ev));
    }
  }

  lemma DisableMeets(t: seq<Event>, ufd: int, ev: bv32, m: bv32)
    requires WellFormed(t) && Lookup(t, ufd).Some?
    ensures var e, e' := Lookup(t, ufd).value, Lookup(Apply(t, Disable(ufd, ev)), ufd);
      && e'.Some? && e'.value.ufd == ufd && e'.value.handler == e.handler
      && (Meets(e'.value.conditions, m) <==> Meets(e.conditions, m & !ev))
  {
    hide ClearBits, Meets, Apply, Order, WellFormed;
    ApplyUpdates(t, Disable(ufd, ev));
    LookupAt(t, ufd);
    hide Lookup;
    MeetsCleared(Lookup(t, ufd).value.conditions, ev, m);
  }

  /** Disabling takes exactly the given conditions away. */
  lemma DisableDrops(t: seq<Event>, ufd: int, ev: bv32, m: bv32)
    requires WellFormed(t)
    ensures Lookup(t, ufd).Some? ==>
      var e, e' := Lookup(t, ufd).value, Lookup(Apply(t, Disable(ufd, ev)), ufd);
      && e'.Some? && e'.value.ufd == ufd && e'.value.handler == e.handler
      && ((e'.value.conditions & m != 0) <==> e.conditions & (m & !ev) != 0)
    ensures Lookup(t, ufd).None? ==> Apply(t, Disable(ufd, ev)) == t
  {
    hide Apply, Lookup, WellFormed;
    if Lookup(t, ufd).Some? {
      DisableMeets(t, ufd, ev, m);
    } else {
      UnknownIsUntouched(t, Disable(ufd, ev));
    }
  }

  /** Only add makes an entry. */
  lemma UnknownIsUntouched(t: seq<Event>, op: Op)
    requires WellFormed(t) && Lookup(t, op.ufd) == None && (op.Add? ==> op.ufd == 0 || op.conditions == 0)
    ensures Apply(t, op) == t
  {
    LookupIsEntry(t, op.ufd, IndexOf(t, op.ufd));
  }

  /** Adding gives the descriptor exactly these conditions and this handler, registered before or not; a
      new descriptor goes last, and the others keep their order.  No conditions: a removal. */
  lemma AddSets(t: seq<Event>, ufd: int, conditions: bv32, handler: nat)
    requires WellFormed(t) && ufd != 0
    ensures var t' := Apply(t, Add(ufd, conditions, handler));
      conditions != 0 ==>
        && Lookup(t', ufd) == Some(Event(ufd, conditions, handler))
        && Order(t') == if Lookup(t, ufd).Some? then Order(t) else Order(t) + [ufd]
    ensures conditions == 0 ==> Apply(t, Add(ufd, conditions, handler)) == Apply(t, Rm(ufd))
  {
    hide Lookup, Order;
    ApplyUpdates(t, Add(ufd, conditions, handler));
    InOrder(t, ufd);
  }

  lemma InOrder(t: seq<Event>, ufd: int)
    ensures ufd in Order(t) <==> Lookup(t, ufd).Some?
  {
    LookupAt(t, ufd);
    if i :| 0 <= i < |t| && t[i].ufd == ufd { assert Order(t)[i] == ufd; }
  }

  /** Removing leaves the others in their order. */
  lemma RmRemoves(t: seq<Event>, ufd: int)
    requires WellFormed(t)
    ensures Lookup(Apply(t, Rm(ufd)), ufd) == None
    ensures Lookup(t, ufd) == None ==> Apply(t, Rm(ufd)) == t
    ensures Lookup(t, ufd).Some? ==>
      exists k :: 0 <= k < |t| && t[k].ufd == ufd && Apply(t, Rm(ufd)) == t[..k] + t[k + 1..]
  {
    ApplyUpdates(t, Rm(ufd));
    var i := IndexOf(t, ufd);
    LookupIsEntry(t, ufd, i);
  }

  /** Adding for descriptor 0 does nothing, and no operation touches another descriptor's entry. */
  lemma OthersUntouched(t: seq<Event>, op: Op, ufd: int)
    requires WellFormed(t)
    ensures ufd != op.ufd ==> Lookup(Apply(t, op), ufd) == Lookup(t, ufd)
    ensures op.Add? && op.ufd == 0 ==> Apply(t, op) == t
  {
    ApplyUpdates(t, op);
    ZeroIsNeverIn(t);
    if op.Add? && op.ufd == 0 { UnknownIsUntouched(t, op); }
  }
}
