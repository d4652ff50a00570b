/** The intrusive circular doubly linked list of include/awe/dlist.h, on real node objects. */
module Dlist {

  import opened Common

  /** struct list_head inside the structure that list_entry finds around it; the head of a list is
      inside none. */
  class ListHead<T> {
    var next: ListHead?<T>
    var prev: ListHead?<T>
    var entry: Option<T>

    constructor (entry: Option<T>)
      ensures this.entry == entry && next == this && prev == this
    {
      this.entry := entry;
      next := this;
      prev := this;
    }
  }

  /** The nodes of r, in order, form one closed ring: each node's next is its successor, each
      node's prev its predecessor, and the last and the first are neighbours. */
  ghost predicate Ring<T>(r: seq<ListHead<T>>)
    reads r`next, r`prev
  {
    && |r| > 0
    && Distinct(r)
    && (forall i :: 0 <= i < |r| - 1 ==> r[i].next == r[i + 1])
    && (forall i :: 0 < i < |r| ==> r[i].prev == r[i - 1])
    && r[|r| - 1].next == r[0]
    && r[0].prev == r[|r| - 1]
  }

  ghost predicate Disjoint<T>(r: seq<T>, r': seq<T>) {
    forall i, j :: 0 <= i < |r| && 0 <= j < |r'| ==> r[i] != r'[j]
  }

  /** In a ring every node is the prev of its next and the next of its prev. */
  lemma NextPrev<T>(r: seq<ListHead<T>>, n: ListHead<T>)
    requires Ring(r) && n in r
    ensures n.next != null && n.next in r && n.next.prev == n
    ensures n.prev != null && n.prev in r && n.prev.next == n
  {
    var i :| 0 <= i < |r| && r[i] == n;
    if i < |r| - 1 { assert r[i + 1].prev == r[i]; }
    if i > 0 { assert r[i - 1].next == r[i]; }
  }

  /** The neighbours of the i-th node. */
  lemma Neighbours<T>(r: seq<ListHead<T>>, i: nat)
    requires Ring(r) && i < |r|
    ensures r[i].next == r[if i == |r| - 1 then 0 else i + 1]
    ensures r[i].prev == r[if i == 0 then |r| - 1 else i - 1]
    ensures forall k :: 0 <= k < |r| && r[k] == r[i] ==> k == i
  {}

  /** The pointers determine the ring: a node has one successor. */
  lemma {:induction false} RingIsUnique<T>(r: seq<ListHead<T>>, r': seq<ListHead<T>>)
    requires Ring(r) && Ring(r') && r[0] == r'[0]
    ensures r == r'
  {
    var n := if |r| <= |r'| then |r| else |r'|;
    var i := 0;
    while i < n - 1
      invariant 0 <= i < n
      invariant forall k :: 0 <= k <= i ==> r[k] == r'[k]
    {
      assert r[i + 1] == r[i].next == r'[i].next == r'[i + 1];
      i := i + 1;
    }
    assert r[n - 1].next == r'[n - 1].next;
  }

  // INIT_LIST_HEAD
  method InitListHead<T>(p: ListHead<T>)
    modifies p`next, p`prev
    ensures Ring([p])
  {
    p.next := p;
    p.prev := p;
  }

  // __list_add
  method AddBetween<T>(node: ListHead<T>, prev: ListHead<T>, next: ListHead<T>)
    requires node != prev && node != next
    modifies next`prev, node`next, node`prev, prev`next
    ensures next.prev == node && node.next == next && node.prev == prev && prev.next == node
  {
    next.prev := node;
    node.next := next;
    node.prev := prev;
    prev.next := node;
  }

  /** list_add_tail puts a node in front of any node of the ring: in front of r[p], or, for the
      first node, at the end. */
  method ListAddTail<T>(node: ListHead<T>, pos: ListHead<T>, ghost r: seq<ListHead<T>>, ghost p: nat)
    requires Ring(r) && node !in r && 0 < p <= |r| && pos == r[if p == |r| then 0 else p]
    modifies node`next, node`prev, r`next, r`prev
    ensures Ring(InsertAt(r, p, node))
  {
    assert pos.prev == r[p - 1];
    AddBetween(node, pos.prev, pos);
    InsertAtElements(r, p, node);
  }

  /** list_add puts a node behind any node of the ring. */
  method ListAdd<T>(node: ListHead<T>, pos: ListHead<T>, ghost r: seq<ListHead<T>>, ghost p: nat)
    requires Ring(r) && node !in r && p < |r| && pos == r[p]
    modifies node`next, node`prev, r`next, r`prev
    ensures Ring(InsertAt(r, p + 1, node))
  {
    assert pos.next == r[if p + 1 == |r| then 0 else p + 1];
    AddBetween(node, pos, pos.next);
    InsertAtElements(r, p + 1, node);
  }

  method ListEmpty<T>(head: ListHead<T>, ghost r: seq<ListHead<T>>) returns (empty: bool)
    requires Ring(r) && r[0] == head
    ensures empty <==> r == [head]
  {
    empty := head.next == head;
    assert |r| > 1 ==> r[1] != r[0];
  }

  // __list_del
  method JoinNeighbours<T>(prev: ListHead<T>, next: ListHead<T>)
    modifies next`prev, prev`next
    ensures next.prev == prev && prev.next == next
  {
    next.prev := prev;
    prev.next := next;
  }

  lemma RemoveAtElements<T>(s: seq<T>, k: nat)
    requires k < |s|
    ensures forall i :: 0 <= i < k ==> RemoveAt(s, k)[i] == s[i]
    ensures forall i :: k <= i < |s| - 1 ==> RemoveAt(s, k)[i] == s[i + 1]
    ensures Distinct(s) ==> Distinct(RemoveAt(s, k)) && s[k] !in RemoveAt(s, k)
    ensures forall x :: x in s <==> x in RemoveAt(s, k) || x == s[k]
  {
    forall x | x in s && x != s[k] ensures x in RemoveAt(s, k) {
      var i :| 0 <= i < |s| && s[i] == x;
      assert RemoveAt(s, k)[if i < k then i else i - 1] == x;
    }
  }

  lemma RemoveBehindHead<T>(x: T, s: seq<T>, k: nat)
    requires k < |s|
    ensures RemoveAt([x] + s, k + 1) == [x] + RemoveAt(s, k)
  {
    assert ([x] + s)[..k + 1] == [x] + s[..k];
    assert ([x] + s)[k + 2..] == s[k + 1..];
  }

  /** Taking a node out leaves the ring of the others. */
  method Unlink<T>(node: ListHead<T>, ghost r: seq<ListHead<T>>, ghost k: nat)
    requires Ring(r) && k < |r| && |r| > 1 && node == r[k]
    modifies RemoveAt(r, k)`next, RemoveAt(r, k)`prev
    ensures Ring(RemoveAt(r, k))
  {
    NextPrev(r, node);
    assert node.prev == r[if k == 0 then |r| - 1 else k - 1];
    assert node.next == r[if k == |r| - 1 then 0 else k + 1];
    RemoveAtElements(r, k);
    JoinNeighbours(node.prev, node.next);
  }

  method ListDel<T>(entry: ListHead<T>, ghost r: seq<ListHead<T>>, ghost k: nat)
    requires Ring(r) && k < |r| && |r| > 1 && entry == r[k]
    modifies r`next, r`prev
    ensures Ring(RemoveAt(r, k)) && entry.next == null && entry.prev == null
  {
    RemoveAtElements(r, k);
    Unlink(entry, r, k);
    entry.next := null;
    entry.prev := null;
  }

  method ListDelInit<T>(entry: ListHead<T>, ghost r: seq<ListHead<T>>, ghost k: nat)
    requires Ring(r) && k < |r| && |r| > 1 && entry == r[k]
    modifies r`next, r`prev
    ensures Ring(RemoveAt(r, k)) && Ring([entry])
  {
    RemoveAtElements(r, k);
    Unlink(entry, r, k);
    InitListHead(entry);
  }

  /** Where a moved node may go: a position in another ring, or in its own ring without it. */
  ghost predicate Target<T>(src: seq<ListHead<T>>, k: nat, dst: seq<ListHead<T>>)
    requires k < |src|
    reads dst`next, dst`prev
  {
    dst == RemoveAt(src, k) || (Ring(dst) && Disjoint(src, dst))
  }

  lemma MoveFits<T>(src: seq<ListHead<T>>, k: nat, dst: seq<ListHead<T>>)
    requires Ring(src) && k < |src| && Target(src, k, dst)
    ensures src[k] !in dst
    ensures |RemoveAt(src, k)| == |src| - 1
    ensures forall i :: 0 <= i < |src| - 1 ==> RemoveAt(src, k)[i] == src[if i < k then i else i + 1]
    ensures dst == RemoveAt(src, k) || Disjoint(RemoveAt(src, k), dst)
  {
    RemoveAtElements(src, k);
  }

  method ListMove<T>(node: ListHead<T>, pos: ListHead<T>, ghost src: seq<ListHead<T>>, ghost k: nat,
                     ghost dst: seq<ListHead<T>>, ghost p: nat)
    requires Ring(src) && k < |src| && |src| > 1 && node == src[k]
    requires Target(src, k, dst) && p < |dst| && pos == dst[p]
    modifies src`next, src`prev, dst`next, dst`prev
    ensures Ring(InsertAt(dst, p + 1, node))
    ensures dst != RemoveAt(src, k) ==> Ring(RemoveAt(src, k))
  {
    MoveFits(src, k, dst);
    hide Ring, RemoveAt, InsertAt;
    Unlink(node, src, k);
    ListAdd(node, pos, dst, p);
  }

  method ListMoveTail<T>(node: ListHead<T>, pos: ListHead<T>, ghost src: seq<ListHead<T>>, ghost k: nat,
                         ghost dst: seq<ListHead<T>>, ghost p: nat)
    requires Ring(src) && k < |src| && |src| > 1 && node == src[k]
    requires Target(src, k, dst) && 0 < p <= |dst| && pos == dst[if p == |dst| then 0 else p]
    modifies src`next, src`prev, dst`next, dst`prev
    ensures Ring(InsertAt(dst, p, node))
    ensures dst != RemoveAt(src, k) ==> Ring(RemoveAt(src, k))
  {
    MoveFits(src, k, dst);
    hide Ring, RemoveAt, InsertAt;
    Unlink(node, src, k);
    ListAddTail(node, pos, dst, p);
  }

  /** The ring of list_splice: the entries of ring a, without its head, behind the head of ring b. */
  function Spliced<T>(a: seq<T>, b: seq<T>): (c: seq<T>)
    requires |a| > 0 && |b| > 0
    ensures |c| == |a| + |b| - 1 && c[0] == b[0]
    ensures forall i :: 0 < i < |a| ==> c[i] == a[i]
    ensures forall i :: |a| <= i < |c| ==> c[i] == b[i - |a| + 1]
  {
    [b[0]] + a[1..] + b[1..]
  }

  lemma SplicedElements<T>(a: seq<T>, b: seq<T>)
    requires |a| > 0 && |b| > 0 && Distinct(a) && Distinct(b) && Disjoint(a, b)
    ensures Distinct(Spliced(a, b))
    ensures forall i :: 0 <= i < |Spliced(a, b)| ==> Spliced(a, b)[i] != a[0]
  {}

  // __list_splice
  method Splice<T>(list: ListHead<T>, head: ListHead<T>, ghost a: seq<ListHead<T>>, ghost b: seq<ListHead<T>>)
    requires Ring(a) && Ring(b) && |a| > 1 && Disjoint(a, b) && list == a[0] && head == b[0]
    modifies a`next, a`prev, b`next, b`prev
    ensures Ring(Spliced(a, b))
  {
    ghost var c := Spliced(a, b);
    SplicedElements(a, b);
    var first, last, at := list.next, list.prev, head.next;
    assert first == c[1] && last == c[|a| - 1] && at == c[if |b| == 1 then 0 else |a|];
    first.prev := head;
    head.next := first;
    last.next := at;
    at.prev := last;
    forall i | 0 <= i < |c| - 1 ensures c[i].next == c[i + 1] && c[i + 1].prev == c[i] {
      if 0 < i < |a| - 1 {
        assert c[i] == a[i] && c[i + 1] == a[i + 1];
      } else if i >= |a| {
        assert c[i] == b[i - |a| + 1] && c[i + 1] == b[i - |a| + 2];
      }
    }
  }

  /** list_splice_init: the entries of one list go, in order, in front of the other's. */
  method ListSpliceInit<T>(list: ListHead<T>, head: ListHead<T>, ghost a: seq<ListHead<T>>, ghost b: seq<ListHead<T>>)
    requires Ring(a) && Ring(b) && Disjoint(a, b) && list == a[0] && head == b[0]
    modifies a`next, a`prev, b`next, b`prev
    ensures Ring([list]) && Ring(Spliced(a, b))
  {
    hide Spliced;
    var empty := ListEmpty(list, a);
    if !empty {
      Splice(list, head, a, b);
      ghost var c := Spliced(a, b);
      assert forall i :: 0 <= i < |c| ==> c[i] != list by { SplicedElements(a, b); }
      InitListHead(list);
    } else {
      assert Spliced(a, b) == b;
    }
  }
}
