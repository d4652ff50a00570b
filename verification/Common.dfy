/** Small vocabulary shared by every component. */
module Common {

  datatype Option<+T> = None | Some(value: T)

  /** No value occurs twice. */
  ghost predicate Distinct<T>(s: seq<T>) {
    forall i, j :: 0 <= i < j < |s| ==> s[i] != s[j]
  }

  function InsertAt<T>(s: seq<T>, p: nat, x: T): (r: seq<T>)
    requires p <= |s|
    ensures |r| == |s| + 1
  {
    s[..p] + [x] + s[p..]
  }

  function RemoveAt<T>(s: seq<T>, p: nat): seq<T>
    requires p < |s|
  {
    s[..p] + s[p + 1..]
  }

  lemma DistinctConcat<T>(a: seq<T>, b: seq<T>)
    requires Distinct(a) && Distinct(b) && (forall x :: x in a ==> x !in b)
    ensures Distinct(a + b)
  {
    forall i, j | 0 <= i < j < |a + b| ensures (a + b)[i] != (a + b)[j] {
      assert i < |a| ==> a[i] in a;
      assert j >= |a| ==> b[j - |a|] in b;
    }
  }

  lemma InsertAtElements<T>(s: seq<T>, p: nat, x: T)
    requires p <= |s|
    ensures forall i :: 0 <= i < p ==> InsertAt(s, p, x)[i] == s[i]
    ensures InsertAt(s, p, x)[p] == x
    ensures forall i :: p < i <= |s| ==> InsertAt(s, p, x)[i] == s[i - 1]
    ensures forall y :: y in InsertAt(s, p, x) <==> y in s || y == x
    ensures Distinct(s) && x !in s ==> Distinct(InsertAt(s, p, x))
  {
    var r := InsertAt(s, p, x);
    forall y | y in s ensures y in r {
      var i :| 0 <= i < |s| && s[i] == y;
      assert r[if i < p then i else i + 1] == y;
    }
    assert r[p] == x;
  }
}
