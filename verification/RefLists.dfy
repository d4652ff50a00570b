/** Reference counts and the lists that hold references: include/awe/object.h, src/linkedlist.c. */
module RefLists {

  import opened Common

  type Obj = nat

  /** How many list nodes hold o. */
  ghost function Nodes(lists: seq<seq<Obj>>, o: Obj): nat {
    if lists == [] then 0 else multiset(lists[0])[o] + Nodes(lists[1..], o)
  }

  lemma {:induction false} NodesUpdate(lists: seq<seq<Obj>>, l: nat, s: seq<Obj>, o: Obj)
    requires l < |lists|
    ensures Nodes(lists[l := s], o) == Nodes(lists, o) - multiset(lists[l])[o] + multiset(s)[o]
  {
    if l == 0 {
      assert lists[0 := s][1..] == lists[1..];
    } else {
      assert lists[l := s][1..] == lists[1..][l - 1 := s];
      NodesUpdate(lists[1..], l - 1, s, o);
    }
  }

  lemma {:induction false} NodesBound(lists: seq<seq<Obj>>, l: nat, o: Obj)
    requires l < |lists|
    ensures multiset(lists[l])[o] <= Nodes(lists, o)
  {
    if l > 0 { NodesBound(lists[1..], l - 1, o); }
  }

  lemma {:induction false} NoNodes(lists: seq<seq<Obj>>, o: Obj)
    requires forall l :: 0 <= l < |lists| ==> lists[l] == []
    ensures Nodes(lists, o) == 0
  {
    if lists != [] { NoNodes(lists[1..], o); }
  }

  lemma OccurrenceRemoved(s: seq<Obj>, k: nat, o: Obj)
    requires k < |s|
    ensures multiset(RemoveAt(s, k))[o] == multiset(s)[o] - if s[k] == o then 1 else 0
  {
    assert s == s[..k] + [s[k]] + s[k + 1..];
  }

  /** Every object is allocated exactly as long as it has an owner, outside or in a list, and its
      count is the number of its owners. */
  ghost predicate Balanced(refs: map<Obj, int>, outside: multiset<Obj>, lists: seq<seq<Obj>>) {
    forall o: Obj ::
      if outside[o] + Nodes(lists, o) > 0 then o in refs && refs[o] == outside[o] + Nodes(lists, o) else o !in refs
  }

  /** Giving one reference up, as an autorelease does. */
  function Dropped(refs: map<Obj, int>, o: Obj): map<Obj, int>
    requires o in refs
  {
    if refs[o] == 1 then refs - {o} else refs[o := refs[o] - 1]
  }

  lemma NodeAdded(refs: map<Obj, int>, outside: multiset<Obj>, lists: seq<seq<Obj>>, l: nat, o: Obj)
    requires Balanced(refs, outside, lists) && l < |lists| && o in refs
    ensures Balanced(refs[o := refs[o] + 1], outside, lists[l := lists[l] + [o]])
  {
    forall x: Obj ensures Nodes(lists[l := lists[l] + [o]], x) == Nodes(lists, x) + if x == o then 1 else 0 {
      NodesUpdate(lists, l, lists[l] + [o], x);
    }
  }

  lemma NodeMoved(refs: map<Obj, int>, outside: multiset<Obj>, lists: seq<seq<Obj>>, l: nat, k: nat)
    requires Balanced(refs, outside, lists) && l < |lists| && k < |lists[l]|
    ensures Balanced(refs, outside + multiset{lists[l][k]}, lists[l := RemoveAt(lists[l], k)])
  {
    forall x: Obj
      ensures Nodes(lists[l := RemoveAt(lists[l], k)], x) == Nodes(lists, x) - if x == lists[l][k] then 1 else 0
    {
      NodesUpdate(lists, l, RemoveAt(lists[l], k), x);
      OccurrenceRemoved(lists[l], k, x);
    }
  }

  lemma ReferenceDropped(refs: map<Obj, int>, outside: multiset<Obj>, lists: seq<seq<Obj>>, o: Obj)
    requires Balanced(refs, outside + multiset{o}, lists)
    ensures o in refs && Balanced(Dropped(refs, o), outside, lists)
  {
    assert (outside + multiset{o})[o] == outside[o] + 1;
  }

  /** First position whose object satisfies p; |s| if there is none. */
  ghost predicate FirstMatch(s: seq<Obj>, p: Obj -> bool, k: nat) {
    && k <= |s|
    && (k < |s| ==> p(s[k]))
    && forall i :: 0 <= i < k ==> !p(s[i])
  }

  /** The allocated objects with their counts, the lists over them, and (ghost) the references held
      outside the lists. */
  class World {
    var refs: map<Obj, int>
    var lists: seq<seq<Obj>>
    var sizes: seq<int>
    ghost var outside: multiset<Obj>

    ghost predicate Valid()
      reads this
    {
      && Balanced(refs, outside, lists)
      && |sizes| == |lists|
      && (forall l :: 0 <= l < |lists| ==> sizes[l] == |lists[l]|)
    }

    constructor (n: nat)
      ensures Valid() && outside == multiset{} && refs == map[]
      ensures |lists| == n && forall l :: 0 <= l < n ==> lists[l] == []
    {
      refs, outside := map[], multiset{};
      lists, sizes := seq(n, _ => []), seq(n, _ => 0);
      new;
      forall o: Obj ensures Nodes(lists, o) == 0 { NoNodes(lists, o); }
    }

    // awe_object_init
    method Create(o: Obj)
      requires Valid() && o !in refs
      modifies this`refs, this`outside
      ensures Valid() && outside == old(outside) + multiset{o} && refs == old(refs)[o := 1]
    {
      refs := refs[o := 1];
      outside := outside + multiset{o};
    }

    // awe_object_ref_inc
    method AddRef(o: Obj)
      requires Valid() && o in refs
      modifies this`refs, this`outside
      ensures Valid() && outside == old(outside) + multiset{o} && refs == old(refs)[o := old(refs[o]) + 1]
    {
      refs := refs[o := refs[o] + 1];
      outside := outside + multiset{o};
    }

    /** An autorelease by an outside owner: the object is freed exactly when no owner is left. */
    method Release(o: Obj)
      requires Valid() && o in outside
      modifies this`refs, this`outside
      ensures Valid() && outside == old(outside) - multiset{o}
      ensures o !in refs <==> outside[o] + Nodes(lists, o) == 0
      ensures refs - {o} == old(refs) - {o}
    {
      assert outside == (outside - multiset{o}) + multiset{o};
      outside := outside - multiset{o};
      ReferenceDropped(refs, outside, lists, o);
      Drop(o);
    }

    method Drop(o: Obj)
      requires o in refs
      modifies this`refs
      ensures refs == Dropped(old(refs), o)
    {
      var before := refs[o];
      refs := refs[o := refs[o] - 1];
      if before == 1 { refs := refs - {o}; }
    }

    // awe_linkedlist_add
    method Add(l: nat, o: Obj)
      requires Valid() && l < |lists| && o in refs
      modifies this`refs, this`lists, this`sizes
      ensures Valid() && lists == old(lists)[l := old(lists[l]) + [o]]
    {
      NodeAdded(refs, outside, lists, l, o);
      refs := refs[o := refs[o] + 1];
      lists, sizes := lists[l := lists[l] + [o]], sizes[l := sizes[l] + 1];
    }

    // the loop of awe_linkedlist_remove, _del, _del3, _get and _contains
    method Find(l: nat, p: Obj -> bool) returns (k: nat)
      requires l < |lists|
      ensures FirstMatch(lists[l], p, k)
    {
      k := 0;
      while k < |lists[l]|
        invariant k <= |lists[l]| && forall i :: 0 <= i < k ==> !p(lists[l][i])
      {
        if p(lists[l][k]) { return; }
        k := k + 1;
      }
    }

    /** awe_linkedlist_remove hands the reference of the first matching node over to the caller. */
    method Remove(l: nat, p: Obj -> bool) returns (r: Option<Obj>, ghost k: nat)
      requires Valid() && l < |lists|
      modifies this`lists, this`sizes, this`outside
      ensures Valid() && FirstMatch(old(lists[l]), p, k)
      ensures k == |old(lists[l])| ==> r == None && lists == old(lists) && outside == old(outside)
      ensures k < |old(lists[l])| ==>
        && r == Some(old(lists[l])[k]) && outside == old(outside) + multiset{old(lists[l])[k]}
        && lists == old(lists)[l := RemoveAt(old(lists[l]), k)]
    {
      var i := Find(l, p);
      k := i;
      if i == |lists[l]| { return None, k; }
      r := Some(lists[l][i]);
      NodeMoved(refs, outside, lists, l, i);
      lists, sizes := lists[l := RemoveAt(lists[l], i)], sizes[l := sizes[l] - 1];
      outside := outside + multiset{r.value};
    }

    /** awe_linkedlist_del3, and awe_linkedlist_del with equality: the reference of the first matching
        node is given up. */
    method Del(l: nat, p: Obj -> bool) returns (ok: bool, ghost k: nat)
      requires Valid() && l < |lists|
      modifies this`refs, this`lists, this`sizes
      ensures Valid() && FirstMatch(old(lists[l]), p, k) && (ok <==> k < |old(lists[l])|)
      ensures lists == if ok then old(lists)[l := RemoveAt(old(lists[l]), k)] else old(lists)
    {
      var i := Find(l, p);
      k := i;
      ok := i < |lists[l]|;
      if ok { DelAt(l, i); }
    }

    // linkedlist_delfromlist
    method DelAt(l: nat, k: nat)
      requires Valid() && l < |lists| && k < |lists[l]|
      modifies this`refs, this`lists, this`sizes
      ensures Valid() && lists == old(lists)[l := RemoveAt(old(lists[l]), k)]
    {
      var o := lists[l][k];
      NodeMoved(refs, outside, lists, l, k);
      lists, sizes := lists[l := RemoveAt(lists[l], k)], sizes[l := sizes[l] - 1];
      ReferenceDropped(refs, outside, lists, o);
      Drop(o);
    }

    // awe_linkedlist_clear
    method Clear(l: nat)
      requires Valid() && l < |lists|
      modifies this`refs, this`lists, this`sizes
      ensures Valid() && lists == old(lists)[l := []]
    {
      while lists[l] != []
        invariant Valid() && |lists| == |old(lists)| && lists == old(lists)[l := lists[l]]
        decreases |lists[l]|
      {
        DelAt(l, 0);
      }
      sizes := sizes[l := 0];
    }
  }
}
