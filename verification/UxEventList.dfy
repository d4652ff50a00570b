/** The event table of src/uxscheduler.c on its linked list: each operation on the nodes is the
    operation of UxTable on the table. */
module UxEventLists {

  import opened Dlist
  import opened EntryLists
  import opened UxTable
  import opened Bits

  // uxscheduler_uxevent_find
  method FindEvent(list: EntryList<Event>, ufd: int) returns (pos: ListHead<Event>, ghost k: nat)
    requires list.Valid()
    ensures k == IndexOf(list.Contents(), ufd) && k <= |list.nodes|
    ensures pos == if k < |list.nodes| then list.nodes[k] else list.head
    ensures pos == list.head <==> k == |list.nodes|
  {
    hide Ring;
    pos, k := list.Find((e: Event) => e.ufd == ufd);
  }

  method AddEvent(list: EntryList<Event>, ufd: int, conditions: bv32, handler: nat) returns (ok: bool)
    requires list.Valid() && WellFormed(list.Contents())
    modifies list`nodes, list.Nodes()`next, list.Nodes()`prev, list.nodes`entry
    ensures list.Valid() && list.Contents() == Apply(old(list.Contents()), Op.Add(ufd, conditions, handler))
    ensures WellFormed(list.Contents()) && (ok <==> ufd != 0)
  {
    hide Ring, Entries, WellFormed, Lookup, Order;
    ApplyUpdates(list.Contents(), Op.Add(ufd, conditions, handler));
    ZeroIsAbsent(list.Contents());
    if ufd == 0 { return false; }
    ok := true;
    if conditions == 0 {
      RmEvent(list, ufd);
      return;
    }
    var pos, k := FindEvent(list, ufd);
    if pos == list.head {
      list.Append(Event(ufd, conditions, handler));
    } else {
      list.Update(pos, Event(ufd, conditions, handler), k);
    }
  }

  lemma ZeroIsAbsent(t: seq<Event>)
    requires WellFormed(t)
    ensures IndexOf(t, 0) == |t|
  {}

  method DisableEvent(list: EntryList<Event>, ufd: int, mask: bv32)
    requires list.Valid() && WellFormed(list.Contents())
    modifies list.nodes`entry
    ensures list.Valid() && list.Contents() == Apply(old(list.Contents()), Op.Disable(ufd, mask))
    ensures WellFormed(list.Contents())
  {
    hide Ring, WellFormed, Lookup, Order, ClearBits;
    ApplyUpdates(list.Contents(), Op.Disable(ufd, mask));
    var pos, k := FindEvent(list, ufd);
    if pos != list.head {
      list.Update(pos, pos.entry.value.(conditions := ClearBits(pos.entry.value.conditions, mask)), k);
    }
  }

  method EnableEvent(list: EntryList<Event>, ufd: int, mask: bv32)
    requires list.Valid() && WellFormed(list.Contents())
    modifies list.nodes`entry
    ensures list.Valid() && list.Contents() == Apply(old(list.Contents()), Op.Enable(ufd, mask))
    ensures WellFormed(list.Contents())
  {
    hide Ring, WellFormed, Lookup, Order, SetBits;
    ApplyUpdates(list.Contents(), Op.Enable(ufd, mask));
    var pos, k := FindEvent(list, ufd);
    if pos != list.head {
      list.Update(pos, pos.entry.value.(conditions := SetBits(pos.entry.value.conditions, mask)), k);
    }
  }

  method RmEvent(list: EntryList<Event>, ufd: int)
    requires list.Valid() && WellFormed(list.Contents())
    modifies list`nodes, list.Nodes()`next, list.Nodes()`prev
    ensures list.Valid() && list.Contents() == Apply(old(list.Contents()), Op.Rm(ufd))
    ensures WellFormed(list.Contents())
  {
    hide Ring, Entries, WellFormed, Lookup, Order;
    ApplyUpdates(list.Contents(), Op.Rm(ufd));
    var pos, k := FindEvent(list, ufd);
    if pos != list.head {
      list.Delete(pos, k);
    }
  }
}
