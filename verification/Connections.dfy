/** Connection ownership (src/connection.c:23-136): handles, and the bindings of UX connections to
    the UDP connections that carry them. */
module Connections {

  import opened Common

  /** Connections are numbered in the order of their creation. */
  type Id = nat

  datatype Impl = InetStream | Inet4Dgram | Inet6Dgram | UxStream | UxDgram

  /** _refs, _fd, _udpconn and _impl of struct awe_connection. */
  datatype Conn = Conn(refs: int, fd: int, udp: Option<Id>, impl: Option<Impl>)

  /** The address families that awe_connection_dgram tells apart. */
  datatype Family = AfInet | AfInet6 | AfOther

  type Heap = map<Id, Conn>

  /** A connection is bound only at its creation, to one that exists already: bindings cannot form
      a cycle. */
  ghost predicate Ordered(h: Heap, n: nat) {
    forall c: Id :: c in h ==> c < n && (h[c].udp.Some? ==> h[c].udp.value < c && h[c].udp.value in h)
  }

  /** How many of the connections below n are bound to c. */
  ghost function Bound(h: Heap, n: nat, c: Id): nat {
    if n == 0 then 0
    else (if n - 1 in h && h[n - 1].udp == Some(c) then 1 else 0) + Bound(h, n - 1, c)
  }

  /** Each count is the number of handles plus the number of bindings, and only what has an owner
      is allocated. */
  ghost predicate Balanced(h: Heap, n: nat, handles: multiset<Id>) {
    && Ordered(h, n)
    && forall c: Id ::
         if handles[c] + Bound(h, n, c) > 0 then c in h && h[c].refs == handles[c] + Bound(h, n, c) else c !in h
  }

  /** One more reference to c. */
  ghost function Referred(h: Heap, c: Id): Heap
    requires c in h
  {
    h[c := h[c].(refs := h[c].refs + 1)]
  }

  // ---- counting ----

  lemma {:induction false} BoundRest(h: Heap, n: nat, c: Id, x: Id)
    ensures Bound(h - {x}, n, c) == Bound(h, n, c) - if x < n && x in h && h[x].udp == Some(c) then 1 else 0
  {
    if n > 0 { BoundRest(h, n - 1, c, x); }
  }

  lemma {:induction false} BoundRefs(h: Heap, n: nat, c: Id, x: Id, r: int)
    requires x in h
    ensures Bound(h[x := h[x].(refs := r)], n, c) == Bound(h, n, c)
  {
    if n > 0 { BoundRefs(h, n - 1, c, x, r); }
  }

  lemma {:induction false} BoundNew(h: Heap, n: nat, c: Id, conn: Conn)
    requires n !in h
    ensures Bound(h[n := conn], n, c) == Bound(h, n, c)
    ensures Bound(h[n := conn], n + 1, c) == Bound(h, n, c) + if conn.udp == Some(c) then 1 else 0
  {
    BoundSame(h, h[n := conn], n, c);
  }

  lemma {:induction false} BoundSame(h: Heap, h': Heap, n: nat, c: Id)
    requires forall d: Id :: d < n ==> (d in h <==> d in h') && (d in h ==> h[d].udp == h'[d].udp)
    ensures Bound(h, n, c) == Bound(h', n, c)
  {
    if n > 0 { BoundSame(h, h', n - 1, c); }
  }

  lemma {:induction false} BoundWitness(h: Heap, n: nat, c: Id) returns (d: Id)
    requires Bound(h, n, c) > 0
    ensures d < n && d in h && h[d].udp == Some(c)
  {
    if n - 1 in h && h[n - 1].udp == Some(c) { d := n - 1; } else { d := BoundWitness(h, n - 1, c); }
  }

  lemma {:induction false} BoundPositive(h: Heap, n: nat, d: Id)
    requires d < n && d in h && h[d].udp.Some?
    ensures Bound(h, n, h[d].udp.value) > 0
  {
    if d < n - 1 { BoundPositive(h, n - 1, d); }
  }

  // ---- releasing ----

  /** awe_connection_autorelease and connection_destroy: the last release of a connection also
      releases the one it is bound to. */
  ghost function Released(h: Heap, c: Id): Heap
    decreases c
  {
    if c !in h then h
    else if h[c].refs != 1 then h[c := h[c].(refs := h[c].refs - 1)]
    else if h[c].udp.Some? && h[c].udp.value < c then Released(h - {c}, h[c].udp.value)
    else h - {c}
  }

  /** The connections this destroys, in the order in which their destructions begin and their
      descriptors are closed.  Their memory is given back in the opposite order. */
  ghost function DestroyedBy(h: Heap, c: Id): seq<Id>
    decreases c
  {
    if c !in h || h[c].refs != 1 then []
    else if h[c].udp.Some? && h[c].udp.value < c then [c] + DestroyedBy(h - {c}, h[c].udp.value)
    else [c]
  }

  /** Backwards. */
  function Reversed(s: seq<Id>): (r: seq<Id>)
    ensures |r| == |s| && forall i :: 0 <= i < |s| ==> r[i] == s[|s| - 1 - i]
  {
    if s == [] then [] else Reversed(s[1..]) + [s[0]]
  }

  /** The open descriptors of some connections: those that closing all of them closes. */
  ghost function OpenFds(h: Heap, s: seq<Id>): seq<int> {
    if s == [] then []
    else (if s[0] in h && h[s[0]].fd > 0 then [h[s[0]].fd] else []) + OpenFds(h, s[1..])
  }

  /** The release closes some connection through a null _impl. */
  ghost predicate CallsNull(h: Heap, c: Id)
    decreases c
  {
    && c in h && h[c].refs == 1
    && (h[c].impl.None? || (h[c].udp.Some? && h[c].udp.value < c && CallsNull(h - {c}, h[c].udp.value)))
  }

  /** Every connection has its interface. */
  ghost predicate Implemented(h: Heap) {
    forall c :: c in h ==> h[c].impl.Some?
  }

  /** How many of some connections have fd open. */
  ghost function HoldersOf(h: Heap, s: seq<Id>, fd: int): nat {
    if s == [] then 0 else (if s[0] in h && h[s[0]].fd == fd && fd > 0 then 1 else 0) + HoldersOf(h, s[1..], fd)
  }

  lemma UnboundCanGo(h: Heap, n: nat, c: Id)
    requires Ordered(h, n) && Bound(h, n, c) == 0
    ensures Ordered(h - {c}, n)
  {
    forall d: Id | d in h && h[d].udp.Some? ensures h[d].udp.value != c {
      BoundPositive(h, n, d);
    }
  }

  lemma BalanceIsOrdered(h: Heap, n: nat, handles: multiset<Id>)
    requires Balanced(h, n, handles)
    ensures Ordered(h, n)
  {}

  lemma DropKeepsBalance(h: Heap, n: nat, handles: multiset<Id>, c: Id)
    requires Balanced(h, n, handles + multiset{c}) && c in h && h[c].refs != 1
    ensures Balanced(h[c := h[c].(refs := h[c].refs - 1)], n, handles)
  {
    assert (handles + multiset{c})[c] == handles[c] + 1;
    var h' := h[c := h[c].(refs := h[c].refs - 1)];
    forall x: Id ensures Bound(h', n, x) == Bound(h, n, x) { BoundRefs(h, n, x, c, h[c].refs - 1); }
    hide Bound;
  }

  lemma FreeKeepsBalance(h: Heap, n: nat, handles: multiset<Id>, c: Id)
    requires Balanced(h, n, handles + multiset{c}) && c in h && h[c].refs == 1
    ensures Balanced(h - {c}, n, if h[c].udp.Some? then handles + multiset{h[c].udp.value} else handles)
  {
    assert (handles + multiset{c})[c] == handles[c] + 1;
    UnboundCanGo(h, n, c);
    forall x: Id ensures Bound(h - {c}, n, x) == Bound(h, n, x) - if h[c].udp == Some(x) then 1 else 0 {
      BoundRest(h, n, x, c);
    }
    hide Bound;
    if h[c].udp.Some? {
      var u := h[c].udp.value;
      forall x: Id ensures (handles + multiset{u})[x] == handles[x] + if x == u then 1 else 0 {}
    }
  }

  /** A release gives back one reference, and everything stays balanced down the chain of bindings. */
  lemma {:induction false} ReleaseKeepsBalance(h: Heap, n: nat, handles: multiset<Id>, c: Id)
    requires Balanced(h, n, handles + multiset{c})
    ensures c in h && Balanced(Released(h, c), n, handles)
    decreases c
  {
    assert c in h by { assert (handles + multiset{c})[c] == handles[c] + 1; }
    BalanceIsOrdered(h, n, handles + multiset{c});
    hide Balanced;
    if h[c].refs != 1 {
      DropKeepsBalance(h, n, handles, c);
    } else {
      FreeKeepsBalance(h, n, handles, c);
      if h[c].udp.Some? { ReleaseKeepsBalance(h - {c}, n, handles, h[c].udp.value); }
    }
  }

  // ---- what is still allocated ----

  /** k leads to d along the bindings. */
  ghost predicate Leads(h: Heap, k: Id, d: Id)
    decreases k
  {
    k in h && (k == d || (h[k].udp.Some? && h[k].udp.value < k && Leads(h, h[k].udp.value, d)))
  }

  lemma {:induction false} LeadsOn(h: Heap, k: Id, d: Id)
    requires Leads(h, k, d) && d in h && h[d].udp.Some? && h[d].udp.value < d && h[d].udp.value in h
    ensures Leads(h, k, h[d].udp.value)
    decreases k
  {
    if k != d { LeadsOn(h, h[k].udp.value, d); }
  }

  lemma {:induction false} LeadsToAllocated(h: Heap, k: Id, d: Id)
    requires Leads(h, k, d)
    ensures d in h
    decreases k
  {
    if k != d { LeadsToAllocated(h, h[k].udp.value, d); }
  }

  /** No leak and no dangling pointer: a connection is allocated exactly when some handle leads to it. */
  lemma {:induction false} AllocatedIffOwned(h: Heap, n: nat, handles: multiset<Id>, d: Id)
    requires Balanced(h, n, handles)
    ensures d in h <==> exists k :: k in handles && Leads(h, k, d)
    decreases n - d
  {
    if d in h {
      if d in handles {
        assert Leads(h, d, d);
      } else {
        var e := BoundWitness(h, n, d);
        AllocatedIffOwned(h, n, handles, e);
        var k :| k in handles && Leads(h, k, e);
        LeadsOn(h, k, e);
      }
    } else {
      forall k | k in handles && Leads(h, k, d) ensures false { LeadsToAllocated(h, k, d); }
    }
  }

  lemma {:induction false} ReleasedKeepsBindings(h: Heap, c: Id, d: Id)
    ensures d in Released(h, c) ==> d in h && Released(h, c)[d] == h[d].(refs := Released(h, c)[d].refs)
    decreases c
  {
    if c in h && h[c].refs == 1 && h[c].udp.Some? && h[c].udp.value < c {
      ReleasedKeepsBindings(h - {c}, h[c].udp.value, d);
    }
  }

  lemma {:induction false} SameLeads(h: Heap, h': Heap, n: nat, k: Id, d: Id)
    requires Ordered(h', n) && k in h'
    requires forall x: Id :: x in h' ==> x in h && h'[x].udp == h[x].udp
    ensures Leads(h', k, d) <==> Leads(h, k, d)
    decreases k
  {
    if k != d && h'[k].udp.Some? { SameLeads(h, h', n, h'[k].udp.value, d); }
  }

  /** A release frees exactly the connections that no remaining handle leads to. */
  lemma ReleaseFreesTheUnowned(h: Heap, n: nat, handles: multiset<Id>, c: Id, d: Id)
    requires Balanced(h, n, handles + multiset{c}) && d in h
    ensures d !in Released(h, c) <==> forall k :: k in handles ==> !Leads(h, k, d)
  {
    hide Released, Leads;
    var h' := Released(h, c);
    ReleaseKeepsBalance(h, n, handles, c);
    AllocatedIffOwned(h', n, handles, d);
    forall x: Id | x in h' ensures x in h && h'[x].udp == h[x].udp { ReleasedKeepsBindings(h, c, x); }
    forall k | k in handles ensures Leads(h', k, d) <==> Leads(h, k, d) {
      assert handles[k] > 0;
      SameLeads(h, h', n, k, d);
    }
  }

  /** A release destroys exactly the connections that it frees, each once, and begins with a connection
      before it comes to the one it is bound to. */
  lemma {:induction false} DestroyedByExactly(h: Heap, c: Id, d: Id)
    ensures d in DestroyedBy(h, c) <==> d in h && d !in Released(h, c)
    ensures forall i, j :: 0 <= i < j < |DestroyedBy(h, c)| ==> DestroyedBy(h, c)[i] > DestroyedBy(h, c)[j]
    ensures forall i :: 0 <= i < |DestroyedBy(h, c)| ==> DestroyedBy(h, c)[i] <= c
    decreases c
  {
    if c in h && h[c].refs == 1 && h[c].udp.Some? && h[c].udp.value < c {
      DestroyedByExactly(h - {c}, h[c].udp.value, d);
      StaysReleased(h - {c}, h[c].udp.value, c);
    }
  }

  /** A release faults exactly if one of the connections it would free has no interface. */
  lemma {:induction false} CallsNullExactly(h: Heap, c: Id)
    ensures CallsNull(h, c) <==> exists d :: d in DestroyedBy(h, c) && d in h && h[d].impl.None?
    decreases c
  {
    if c in h && h[c].refs == 1 {
      if h[c].udp.Some? && h[c].udp.value < c {
        var rest := DestroyedBy(h - {c}, h[c].udp.value);
        CallsNullExactly(h - {c}, h[c].udp.value);
        assert DestroyedBy(h, c) == [c] + rest;
        FreedOther(h, c, h[c].udp.value);
        assert forall d :: d in rest ==> d != c;
        assert forall d :: d in DestroyedBy(h, c) <==> d == c || d in rest;
      } else {
        assert DestroyedBy(h, c) == [c];
      }
    }
  }

  lemma StaysReleased(h: Heap, c: Id, d: Id)
    ensures d in Released(h, c) ==> d in h
  {
    ReleasedKeepsBindings(h, c, d);
  }

  /** The connection being destroyed is out of reach of the cascade it starts, so it makes no
      difference that its own memory is given back last. */
  lemma {:induction false} CascadeBelow(h: Heap, c: Id, x: Conn, u: Id)
    requires u < c && c in h
    ensures Released(h[c := x], u) == Released(h - {c}, u)[c := x]
    ensures DestroyedBy(h[c := x], u) == DestroyedBy(h - {c}, u)
    ensures CallsNull(h[c := x], u) <==> CallsNull(h - {c}, u)
    decreases u
  {
    if u in h && h[u].refs == 1 {
      assert h[c := x] - {u} == (h - {u})[c := x];
      assert h - {c} - {u} == (h - {u}) - {c};
      if h[u].udp.Some? && h[u].udp.value < u { CascadeBelow(h - {u}, c, x, h[u].udp.value); }
    } else if u in h {
      var y := h[u].(refs := h[u].refs - 1);
      assert h[c := x][u := y] == (h - {c})[u := y][c := x];
    } else {
      assert h[c := x] == (h - {c})[c := x];
    }
  }

  lemma {:induction false} OpenFdsSame(h: Heap, h': Heap, s: seq<Id>)
    requires forall i :: 0 <= i < |s| ==> (s[i] in h <==> s[i] in h') && (s[i] in h ==> h[s[i]].fd == h'[s[i]].fd)
    ensures OpenFds(h, s) == OpenFds(h', s)
  {
    if s != [] { OpenFdsSame(h, h', s[1..]); }
  }

  lemma ReleasedStaysImplemented(h: Heap, c: Id)
    requires Implemented(h)
    ensures Implemented(Released(h, c)) && !CallsNull(h, c)
  {
    forall d | d in Released(h, c) ensures d in h && h[d].impl == Released(h, c)[d].impl {
      ReleasedKeepsBindings(h, c, d);
    }
    CallsNullExactly(h, c);
  }

  lemma OrderedWith(h: Heap, n: nat, c: Id, x: Conn)
    requires Ordered(h, n) && c in h && x.udp == h[c].udp
    ensures Ordered(h[c := x], n)
    ensures x.udp.Some? ==> x.udp.value < c && x.udp.value in h[c := x]
  {}

  lemma OpenNone(h: Heap)
    ensures OpenFds(h, []) == []
  {}

  lemma UnsetIsGone(h: Heap, c: Id)
    requires c in h
    ensures h[c := h[c].(udp := None)] - {c} == h - {c}
  {}

  /** One destruction, in the order of the code: close, release the binding, free. */
  lemma CascadeStep(h: Heap, c: Id, x: Conn)
    requires c in h && h[c].refs == 1 && x.udp == h[c].udp && (x.udp.Some? ==> x.udp.value < c)
    ensures h[c].impl.Some? ==> (CallsNull(h, c) <==> x.udp.Some? && CallsNull(h[c := x], x.udp.value))
    ensures x.udp == None ==> Released(h, c) == h[c := x] - {c} && DestroyedBy(h, c) == [c]
    ensures x.udp.Some? ==>
      && Released(h, c) == Released(h[c := x], x.udp.value) - {c}
      && DestroyedBy(h, c) == [c] + DestroyedBy(h[c := x], x.udp.value)
      && c in Released(h[c := x], x.udp.value)
      && DestroyedBy(h, c)[1..] == DestroyedBy(h[c := x], x.udp.value)
      && Reversed(DestroyedBy(h, c)) == Reversed(DestroyedBy(h[c := x], x.udp.value)) + [c]
      && OpenFds(h[c := x], DestroyedBy(h[c := x], x.udp.value)) == OpenFds(h, DestroyedBy(h[c := x], x.udp.value))
    ensures x.udp == None ==> Reversed(DestroyedBy(h, c)) == [c] && DestroyedBy(h, c)[1..] == []
  {
    if x.udp.Some? {
      var u := x.udp.value;
      CascadeBelow(h, c, x, u);
      FreedOther(h, c, u);
      OpenFdsSame(h, h[c := x], DestroyedBy(h - {c}, u));
      StaysReleased(h - {c}, u, c);
      assert ([c] + DestroyedBy(h[c := x], u))[1..] == DestroyedBy(h[c := x], u);
    }
  }

  lemma OpenFdsOne(h: Heap, c: Id)
    requires c in h
    ensures OpenFds(h, [c]) == if h[c].fd > 0 then [h[c].fd] else []
  {
    assert [c][1..] == [];
  }

  /** A release closes the open descriptor of each connection it frees, as often as it is the descriptor of
      one, and no other. */
  lemma {:induction false} ClosesExactly(h: Heap, s: seq<Id>, fd: int)
    ensures multiset(OpenFds(h, s))[fd] == HoldersOf(h, s, fd)
  {
    if s != [] {
      ClosesExactly(h, s[1..], fd);
      assert s == [s[0]] + s[1..];
    }
  }

  lemma OpenFdsJoin(h: Heap, c: Id, s: seq<Id>)
    ensures OpenFds(h, [c] + s) == OpenFds(h, [c]) + OpenFds(h, s)
  {
    assert ([c] + s)[1..] == s;
  }

  lemma FreedOther(h: Heap, c: Id, u: Id)
    requires u < c
    ensures forall i :: 0 <= i < |DestroyedBy(h - {c}, u)| ==> DestroyedBy(h - {c}, u)[i] != c
  {
    DestroyedByExactly(h - {c}, u, c);
  }

  lemma ReferredKeepsBalance(h: Heap, n: nat, handles: multiset<Id>, c: Id)
    requires Balanced(h, n, handles) && c in h
    ensures Balanced(Referred(h, c), n, handles + multiset{c})
  {
    forall x: Id ensures Bound(Referred(h, c), n, x) == Bound(h, n, x) { BoundSame(h, Referred(h, c), n, x); }
    forall x: Id ensures (handles + multiset{c})[x] == handles[x] + if x == c then 1 else 0 {}
  }

  lemma ReferredOnly(h: Heap, bind: Option<Id>)
    requires bind.Some? ==> bind.value in h
    ensures bind.Some? ==> Referred(h, bind.value).Keys == h.Keys
    ensures bind.Some? && Implemented(h) ==> Implemented(Referred(h, bind.value))
  {}

  /** A new connection with one handle, bound to u if there is one. */
  lemma NewKeepsBalance(h: Heap, n: nat, handles: multiset<Id>, conn: Conn)
    requires Balanced(h, n, handles) && conn.refs == 1 && (conn.udp.Some? ==> conn.udp.value in h)
    ensures n !in h
    ensures conn.udp == None ==> Balanced(h[n := conn], n + 1, handles + multiset{n}) && h[n := conn] - {n} == h
    ensures conn.udp.Some? ==>
      && Balanced(Referred(h, conn.udp.value)[n := conn], n + 1, handles + multiset{n})
      && Referred(h, conn.udp.value)[n := conn] - {n} == Referred(h, conn.udp.value)
  {
    NewIsNew(h, n, handles);
    var h1 := if conn.udp.Some? then Referred(h, conn.udp.value) else h;
    hide Bound;
    NewCounts(h, h1, n, handles, conn);
    assert Ordered(h1[n := conn], n + 1);
  }

  lemma NewCounts(h: Heap, h1: Heap, n: nat, handles: multiset<Id>, conn: Conn)
    requires n !in h && h1.Keys == h.Keys && forall d :: d in h ==> h1[d].udp == h[d].udp
    ensures forall x: Id ::
      Bound(h1[n := conn], n + 1, x) == Bound(h, n, x) + if conn.udp == Some(x) then 1 else 0
    ensures forall x: Id :: (handles + multiset{n})[x] == handles[x] + if x == n then 1 else 0
  {
    forall x: Id
      ensures Bound(h1[n := conn], n + 1, x) == Bound(h, n, x) + if conn.udp == Some(x) then 1 else 0
    {
      BoundSame(h, h1, n, x);
      BoundNew(h1, n, x, conn);
    }
  }

  lemma NewIsNew(h: Heap, n: nat, handles: multiset<Id>)
    requires Balanced(h, n, handles)
    ensures n !in h && handles[n] == 0 && Bound(h, n, n) == 0
  {}

  /** The connections, the descriptors closed so far and (ghost) the handles held by the program. */
  class Connections {
    var conns: Heap
    var created: nat
    var closed: seq<int>
    ghost var handles: multiset<Id>
    /** The records given back so far. */
    ghost var freed: seq<Id>

    ghost predicate Valid()
      reads this
    {
      Balanced(conns, created, handles) && Implemented(conns)
    }

    constructor ()
      ensures Valid() && conns == map[] && closed == [] && handles == multiset{} && freed == []
    {
      conns, created, closed, handles, freed := map[], 0, [], multiset{}, [];
      new;
      forall c: Id ensures Bound(conns, 0, c) == 0 {}
    }

    /** The common part of the three kinds: the new handle has one reference, and a binding adds one to
        the connection it refers to. */
    method Create(fd: int, bind: Option<Id>, impl: Option<Impl>) returns (c: Id)
      requires Valid() && (bind.Some? ==> bind.value in conns)
      modifies this`conns, this`created, this`handles
      ensures Balanced(conns, created, handles) && (impl.Some? ==> Valid())
      ensures handles == old(handles) + multiset{c} && c == old(created) && c !in old(conns)
      ensures c in conns && conns[c] == Conn(1, fd, bind, impl)
      ensures bind == None ==> conns - {c} == old(conns)
      ensures bind.Some? ==> conns - {c} == Referred(old(conns), bind.value)
    {
      hide Bound, Balanced, Referred;
      c := created;
      NewKeepsBalance(conns, created, handles, Conn(1, fd, bind, impl));
      ReferredOnly(conns, bind);
      if bind.Some? {
        IncRef(bind.value);
      }
      conns := conns[c := Conn(1, fd, bind, impl)];
      created, handles := created + 1, handles + multiset{c};
    }

    // awe_connection_stream
    method Stream(fd: int) returns (c: Id)
      requires Valid()
      modifies this`conns, this`created, this`handles
      ensures Valid() && handles == old(handles) + multiset{c} && c !in old(conns)
      ensures conns == old(conns)[c := Conn(1, fd, None, Some(InetStream))]
    {
      hide Balanced;
      c := Create(fd, None, Some(InetStream));
      assert conns == (conns - {c})[c := conns[c]];
    }

    /** awe_connection_dgram gives a connection of the two families back with its interface.  For any
        other it releases a record without one, and the close inside that release calls through null. */
    method Dgram(af: Family, fd: int) returns (conn: Option<Id>, ok: bool)
      requires Valid()
      modifies this
      ensures ok <==> af == AfInet || af == AfInet6
      ensures ok ==> Valid() && conn.Some? && conn.value !in old(conns)
      ensures closed == old(closed) && freed == old(freed)
      ensures ok ==> handles == old(handles) + multiset{conn.value}
      ensures ok ==>
        conns == old(conns)[conn.value := Conn(1, fd, None, Some(if af == AfInet then Inet4Dgram else Inet6Dgram))]
      ensures !ok ==> conns == old(conns)[old(created) := Conn(0, fd, None, None)]
    {
      hide Balanced, Bound;
      var impl := match af case AfInet => Some(Inet4Dgram) case AfInet6 => Some(Inet6Dgram) case AfOther => None;
      var c := Create(fd, None, impl);
      assert conns == (conns - {c})[c := conns[c]];
      conn, ok := Some(c), true;
      if af == AfOther {
        BalanceIsOrdered(conns, created, handles);
        handles := handles - multiset{c};
        conn := None;
        ok := Release(c);
      }
    }

    // awe_connection_ux
    method Ux(stream: bool, fd: int, bind: Id) returns (c: Id)
      requires Valid() && bind in conns
      modifies this`conns, this`created, this`handles
      ensures Valid() && handles == old(handles) + multiset{c} && c !in old(conns)
      ensures conns
        == Referred(old(conns), bind)[c := Conn(1, fd, Some(bind), Some(if stream then UxStream else UxDgram))]
    {
      hide Balanced;
      c := Create(fd, Some(bind), Some(if stream then UxStream else UxDgram));
      assert conns == (conns - {c})[c := conns[c]];
    }

    // awe_connection_addref
    method AddRef(c: Id)
      requires Valid() && c in conns
      modifies this`conns, this`handles
      ensures Valid() && handles == old(handles) + multiset{c} && conns == Referred(old(conns), c)
    {
      hide Bound, Balanced, Referred;
      ReferredKeepsBalance(conns, created, handles, c);
      ReferredOnly(conns, Some(c));
      IncRef(c);
      handles := handles + multiset{c};
    }

    // awe_object_ref_inc
    method IncRef(c: Id)
      requires c in conns
      modifies this`conns
      ensures conns == Referred(old(conns), c)
    {
      conns := conns[c := conns[c].(refs := conns[c].refs + 1)];
    }

    /** awe_connection_close: a second close of the same connection does nothing; without an interface
        it faults. */
    method Close(c: Id) returns (ok: bool)
      requires c in conns
      modifies this`conns, this`closed
      ensures ok <==> old(conns[c].impl.Some?)
      ensures conns == if ok && old(conns[c].fd) > 0 then old(conns)[c := old(conns[c]).(fd := -1)] else old(conns)
      ensures closed == old(closed) + if ok && old(conns[c].fd) > 0 then [old(conns[c].fd)] else []
      ensures ok ==> conns[c].fd <= 0
      ensures old(Valid()) ==> Valid()
    {
      if conns[c].impl == None { return false; }
      ok := true;
      if conns[c].fd > 0 {
        closed := closed + [conns[c].fd];
        ghost var h := conns;
        conns := conns[c := conns[c].(fd := -1)];
        forall x: Id ensures Bound(h, created, x) == Bound(conns, created, x) { BoundSame(h, conns, created, x); }
      }
    }

    /** awe_connection_autorelease of a handle (none: a null pointer). What it leaves, frees and
        closes is fixed, and the counts are right again when it returns. */
    method Autorelease(handle: Option<Id>)
      requires Valid() && (handle.Some? ==> handle.value in handles)
      modifies this`conns, this`closed, this`handles, this`freed
      ensures Valid()
      ensures handle == None ==>
        conns == old(conns) && closed == old(closed) && handles == old(handles) && freed == old(freed)
      ensures handle.Some? ==>
        && handles == old(handles) - multiset{handle.value}
        && conns == Released(old(conns), handle.value)
        && closed == old(closed) + OpenFds(old(conns), DestroyedBy(old(conns), handle.value))
        && freed == old(freed) + Reversed(DestroyedBy(old(conns), handle.value))
    {
      hide Released, DestroyedBy, OpenFds, Bound, CallsNull;
      if handle.Some? {
        var c := handle.value;
        assert handles == (handles - multiset{c}) + multiset{c};
        ReleaseKeepsBalance(conns, created, handles - multiset{c}, c);
        ReleasedStaysImplemented(conns, c);
        handles := handles - multiset{c};
        var ok := Release(c);
        assert ok;
      }
    }

    /** The same, also while a destruction is under way and the counts are not balanced; ok is false
        if it faults. */
    method Release(c: Id) returns (ok: bool)
      requires Ordered(conns, created) && c in conns
      modifies this`conns, this`closed, this`freed
      ensures ok <==> !CallsNull(old(conns), c)
      ensures ok ==> freed == old(freed) + Reversed(DestroyedBy(old(conns), c))
      ensures ok ==> conns == Released(old(conns), c)
      ensures ok ==> closed == old(closed) + OpenFds(old(conns), DestroyedBy(old(conns), c))
      ensures old(conns[c].refs == 1 && conns[c].impl.None?) ==>
        conns == old(conns)[c := old(conns[c]).(refs := 0)] && closed == old(closed) && freed == old(freed)
      decreases c
    {
      ghost var h := conns;
      var refs := conns[c].refs;
      conns := conns[c := conns[c].(refs := refs - 1)];
      ok := true;
      if refs == 1 {
        ok := Destroy(c, h);
      }
    }

    // connection_destroy
    method Destroy(c: Id, ghost h: Heap) returns (ok: bool)
      requires Ordered(h, created) && c in h && h[c].refs == 1 && conns == h[c := h[c].(refs := 0)]
      modifies this`conns, this`closed, this`freed
      ensures ok <==> !CallsNull(h, c)
      ensures ok ==> freed == old(freed) + Reversed(DestroyedBy(h, c))
      ensures ok ==> conns == Released(h, c)
      ensures ok ==> closed == old(closed) + OpenFds(h, DestroyedBy(h, c))
      ensures h[c].impl.None? ==> conns == old(conns) && closed == old(closed) && freed == old(freed)
      decreases c, 1
    {
      hide OpenFds, Bound, Released, Reversed, Balanced, Implemented;
      assert OpenFds(h, [c]) == OpenFds(conns, [c]) by { OpenFdsSame(h, conns, [c]); }
      OpenFdsOne(h, c);
      ok := Close(c);
      if !ok { return; }
      OpenFdsJoin(h, c, DestroyedBy(h, c)[1..]);
      assert [c] + DestroyedBy(h, c)[1..] == DestroyedBy(h, c);
      ok := Dismantle(c, h, conns[c]);
    }

    /** The rest of it: the binding is released and set to null, then the memory is given back. */
    method Dismantle(c: Id, ghost h: Heap, ghost x: Conn) returns (ok: bool)
      requires Ordered(h, created) && c in h && h[c].refs == 1 && h[c].impl.Some?
      requires conns == h[c := x] && x.udp == h[c].udp
      modifies this`conns, this`closed, this`freed
      ensures ok <==> !CallsNull(h, c)
      ensures DestroyedBy(h, c) != []
      ensures ok ==> conns == Released(h, c) && freed == old(freed) + Reversed(DestroyedBy(h, c))
      ensures ok ==> closed == old(closed) + OpenFds(h, DestroyedBy(h, c)[1..])
      decreases c, 0
    {
      OrderedWith(h, created, c, x);
      hide Ordered, OpenFds, Bound, Released, DestroyedBy, Reversed, CallsNull;
      CascadeStep(h, c, x);
      OpenNone(h);
      ok := true;
      if conns[c].udp.Some? {
        ok := Release(conns[c].udp.value);
        if !ok { return; }
        UnsetIsGone(conns, c);
        conns := conns[c := conns[c].(udp := None)];
      }
      conns := conns - {c};
      freed := freed + [c];
    }
  }
}
