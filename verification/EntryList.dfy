/** Lists kept in the order of arrival, on the nodes of include/awe/dlist.h. */
module EntryLists {

  import opened Common
  import opened Dlist

  /** What the nodes hold, in order. */
  ghost function Entries<T>(nodes: seq<ListHead<T>>): (s: seq<T>)
    requires forall i :: 0 <= i < |nodes| ==> nodes[i].entry.Some?
    reads nodes`entry
    ensures |s| == |nodes| && forall i :: 0 <= i < |nodes| ==> s[i] == nodes[i].entry.value
  {
    if nodes == [] then [] else Entries(nodes[..|nodes| - 1]) + [nodes[|nodes| - 1].entry.value]
  }

  lemma AtTheEnd<T>(s: seq<T>, x: T)
    ensures InsertAt(s, |s|, x) == s + [x]
  {}

  class EntryList<T> {
    const head: ListHead<T>
    ghost var nodes: seq<ListHead<T>>

    ghost function Nodes(): seq<ListHead<T>>
      reads this
    {
      [head] + nodes
    }

    ghost predicate Valid()
      reads this, head, nodes
    {
      Ring(Nodes()) && forall i :: 0 <= i < |nodes| ==> nodes[i].entry.Some?
    }

    ghost function Contents(): (s: seq<T>)
      requires Valid()
      reads this, head, nodes
    {
      Entries(nodes)
    }

    // INIT_LIST_HEAD
    constructor ()
      ensures Valid() && Contents() == [] && fresh(head)
    {
      head := new ListHead(None);
      nodes := [];
    }

    /** list_for_each, up to the first entry that satisfies p; the head if there is none. */
    method Find(p: T -> bool) returns (pos: ListHead<T>, ghost k: nat)
      requires Valid()
      ensures k <= |nodes| && pos == (if k < |nodes| then nodes[k] else head) && (pos == head <==> k == |nodes|)
      ensures k < |nodes| ==> p(Contents()[k])
      ensures forall i :: 0 <= i < k ==> !p(Contents()[i])
    {
      hide Ring, Entries;
      k := 0;
      Neighbours(Nodes(), 0);
      pos := head.next;
      while pos != head
        invariant k <= |nodes| && pos == (if k < |nodes| then nodes[k] else head)
        invariant forall i :: 0 <= i < k ==> !p(Contents()[i])
        decreases |nodes| - k
      {
        if k < |nodes| { Neighbours(Nodes(), k + 1); }
        if p(pos.entry.value) { break; }
        pos := pos.next;
        k := k + 1;
      }
      Neighbours(Nodes(), 0);
      assert k < |nodes| ==> Nodes()[k + 1] == nodes[k];
    }

    /** list_for_each, counting. */
    method Size() returns (n: nat)
      requires Valid()
      ensures n == |Contents()|
    {
      hide Ring, Entries;
      n := 0;
      Neighbours(Nodes(), 0);
      var pos := head.next;
      while pos != head
        invariant n <= |nodes| && pos == (if n < |nodes| then nodes[n] else head)
        decreases |nodes| - n
      {
        if n < |nodes| { Neighbours(Nodes(), n + 1); }
        pos := pos.next;
        n := n + 1;
      }
      Neighbours(Nodes(), 0);
      if n < |nodes| { Neighbours(Nodes(), n + 1); }
    }

    // list_add_tail in front of the head
    method Append(x: T)
      requires Valid()
      modifies this`nodes, Nodes()`next, Nodes()`prev
      ensures Valid() && Contents() == old(Contents()) + [x]
    {
      hide Ring, Entries;
      ghost var r := Nodes();
      var node := new ListHead(Some(x));
      AtTheEnd(r, node);
      assert [head] + (nodes + [node]) == r + [node];
      nodes := nodes + [node];
      ListAddTail(node, head, r, |r|);
      assert Entries(nodes) == old(Entries(nodes)) + [x];
    }

    // list_del
    method Delete(pos: ListHead<T>, ghost k: nat)
      requires Valid() && k < |nodes| && pos == nodes[k]
      modifies this`nodes, Nodes()`next, Nodes()`prev
      ensures Valid() && nodes == RemoveAt(old(nodes), k) && Contents() == RemoveAt(old(Contents()), k)
    {
      hide Ring, Entries;
      ghost var r := Nodes();
      RemoveBehindHead(head, nodes, k);
      nodes := RemoveAt(nodes, k);
      ListDel(pos, r, k + 1);
      assert Entries(nodes) == RemoveAt(old(Entries(nodes)), k);
    }

    method Update(pos: ListHead<T>, x: T, ghost k: nat)
      requires Valid() && k < |nodes| && pos == nodes[k]
      modifies pos`entry
      ensures Valid() && nodes == old(nodes) && Contents() == old(Contents())[k := x]
    {
      hide Entries;
      assert forall i :: 0 <= i < |nodes| ==> nodes[i] == Nodes()[i + 1];
      pos.entry := Some(x);
      assert Entries(nodes) == old(Entries(nodes))[k := x];
    }
  }
}
