/** The reference-holding list of src/linkedlist.c on its linked nodes: in step with one list of the
    reference-count model, operation by operation. */
module ObjectLists {

  import opened Common
  import opened Dlist
  import opened EntryLists
  import opened RefLists

  /** The nodes hold the objects of list l, and the counter their number. */
  ghost predicate InStep(list: EntryList<Obj>, w: World, l: nat)
    reads list, list.head, list.nodes, w
  {
    list.Valid() && w.Valid() && l < |w.lists| && list.Contents() == w.lists[l]
  }

  lemma OneFirstMatch(s: seq<Obj>, p: Obj -> bool, k: nat, k': nat)
    requires FirstMatch(s, p, k) && FirstMatch(s, p, k')
    ensures k == k'
  {}

  // awe_linkedlist_add
  method Add(list: EntryList<Obj>, w: World, l: nat, o: Obj)
    requires InStep(list, w, l) && o in w.refs
    modifies list`nodes, list.Nodes()`next, list.Nodes()`prev, w`refs, w`lists, w`sizes
    ensures InStep(list, w, l) && list.Contents() == old(list.Contents()) + [o]
  {
    hide Ring, Entries, Balanced;
    list.Append(o);
    w.Add(l, o);
  }

  /** awe_linkedlist_remove: the first object that satisfies p leaves, and its reference goes to the
      caller. */
  method Remove(list: EntryList<Obj>, w: World, l: nat, p: Obj -> bool)
    returns (r: Option<Obj>, ghost k: nat)
    requires InStep(list, w, l)
    modifies list`nodes, list.Nodes()`next, list.Nodes()`prev, w`lists, w`sizes, w`outside
    ensures InStep(list, w, l) && FirstMatch(old(list.Contents()), p, k) && (r.Some? <==> k < |old(list.Contents())|)
    ensures r.Some? ==>
      && r.value == old(list.Contents())[k] && list.Contents() == RemoveAt(old(list.Contents()), k)
      && w.outside == old(w.outside) + multiset{r.value}
    ensures r == None ==> list.Contents() == old(list.Contents()) && w.outside == old(w.outside)
  {
    hide Ring, Entries, Balanced;
    ghost var s := list.Contents();
    var pos;
    pos, k := list.Find(p);
    if pos != list.head { list.Delete(pos, k); }
    ghost var k';
    r, k' := w.Remove(l, p);
    OneFirstMatch(s, p, k, k');
  }

  // awe_linkedlist_del, awe_linkedlist_del3
  method Del(list: EntryList<Obj>, w: World, l: nat, p: Obj -> bool)
    returns (ok: bool, ghost k: nat)
    requires InStep(list, w, l)
    modifies list`nodes, list.Nodes()`next, list.Nodes()`prev, w`refs, w`lists, w`sizes
    ensures InStep(list, w, l) && FirstMatch(old(list.Contents()), p, k) && (ok <==> k < |old(list.Contents())|)
    ensures list.Contents() == if ok then RemoveAt(old(list.Contents()), k) else old(list.Contents())
  {
    hide Ring, Entries, Balanced;
    ghost var s := list.Contents();
    var pos;
    pos, k := list.Find(p);
    if pos != list.head { list.Delete(pos, k); }
    ghost var k';
    ok, k' := w.Del(l, p);
    OneFirstMatch(s, p, k, k');
  }
}
