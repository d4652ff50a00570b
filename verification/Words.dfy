/** size_t arithmetic: wrapping counters and the bit masks of src/ringbuffer.c. */
module Words {

  function Pow2(k: nat): (p: nat)
    ensures p > 0
  {
    if k == 0 then 1 else 2 * Pow2(k - 1)
  }

  /** The number of values of a size_t. */
  const WORD: nat := Pow2(64)

  lemma {:induction false} Pow2Grows(k: nat)
    ensures Pow2(k) > k
  {
    if k > 0 { Pow2Grows(k - 1); }
  }

  /** The bitwise & of two unsigned numbers. */
  function And(a: nat, b: nat): nat {
    if a == 0 || b == 0 then 0
    else (if a % 2 == 1 && b % 2 == 1 then 1 else 0) + 2 * And(a / 2, b / 2)
  }

  // _is_power_of_2_
  predicate IsPowerOf2(x: nat)
    ensures IsPowerOf2(x) ==> x > 0
  {
    x != 0 && And(x, x - 1) == 0
  }

  lemma {:induction false} AndSelf(x: nat)
    ensures And(x, x) == x
  {
    if x > 0 { AndSelf(x / 2); }
  }

  /** The bit trick is exact: it accepts the powers of two and nothing else. */
  lemma {:induction false} PowerOf2IsExact(x: nat)
    ensures IsPowerOf2(x) <==> exists k: nat :: x == Pow2(k)
  {
    if x == 0 {
    } else if x == 1 {
      assert x == Pow2(0);
    } else if x % 2 == 1 {
      AndSelf(x / 2);
      forall k: nat ensures x != Pow2(k) {}
    } else {
      var y := x / 2;
      PowerOf2IsExact(y);
      assert And(x, x - 1) == 2 * And(y, y - 1);
      if IsPowerOf2(y) {
        var k: nat :| y == Pow2(k);
        assert x == Pow2(k + 1);
      }
      forall k: nat | x == Pow2(k) ensures IsPowerOf2(y) {
        assert y == Pow2(k - 1);
      }
    }
  }

  lemma HalfMod(x: nat, d: nat)
    requires d > 0
    ensures x % (2 * d) == x % 2 + 2 * ((x / 2) % d)
  {
    var q, r := (x / 2) / d, (x / 2) % d;
    assert x == (2 * d) * q + (x % 2 + 2 * r);
    ModUnique(x, 2 * d, q, x % 2 + 2 * r);
  }

  lemma MulStep(m: int, a: int, b: int)
    requires m >= 0 && a < b
    ensures m * a + m <= m * b
  {
    assert m * a + m == m * (a + 1);
  }

  lemma ModUnique(x: int, m: nat, q: int, r: int)
    requires m > 0 && x == m * q + r && 0 <= r < m
    ensures x % m == r
  {
    var q', r' := x / m, x % m;
    assert x == m * q' + r';
    if q > q' {
      MulStep(m, q', q);
    } else if q < q' {
      MulStep(m, q, q');
    }
  }

  /** Masking with capacity - 1 is the remainder. */
  lemma {:induction false} MaskIsMod(x: nat, k: nat)
    ensures And(x, Pow2(k) - 1) == x % Pow2(k)
  {
    if k > 0 {
      var d := Pow2(k - 1);
      HalfMod(x, d);
      MaskIsMod(x / 2, k - 1);
      assert (2 * d - 1) / 2 == d - 1 && (2 * d - 1) % 2 == 1;
    }
  }

  lemma {:induction false} Pow2Divides(j: nat, k: nat)
    requires j <= k
    ensures exists m: nat :: Pow2(k) == m * Pow2(j)
    decreases k
  {
    if j == k {
      assert Pow2(k) == 1 * Pow2(j);
    } else {
      Pow2Divides(j, k - 1);
      var m: nat :| Pow2(k - 1) == m * Pow2(j);
      assert Pow2(k) == (2 * m) * Pow2(j);
    }
  }

  /** size_t subtraction. */
  function Sub(a: nat, b: nat): (d: nat)
    ensures d < WORD
  {
    (a - b) % WORD
  }

  lemma SmallMod(x: nat, w: nat)
    requires x < w
    ensures x % w == x
  {
    ModUnique(x, w, 0, x);
  }

  lemma ModDiff(a: nat, b: nat, w: nat)
    requires a < w && b < w
    ensures (a - b) % w == if a >= b then a - b else a - b + w
  {
    if a >= b { ModUnique(a - b, w, 0, a - b); } else { ModUnique(a - b, w, -1, a - b + w); }
  }

  lemma ModSum(a: nat, b: nat, w: nat)
    requires a < w && b <= w
    ensures (a + b) % w == if a + b < w then a + b else a + b - w
  {
    if a + b < w { ModUnique(a + b, w, 0, a + b); } else { ModUnique(a + b, w, 1, a + b - w); }
  }

  /** The counters of a ring: in is out plus what is used, and the free space that the code
      computes is the capacity minus what is used. */
  lemma Counters(inPos: nat, outPos: nat, capacity: nat)
    requires inPos < WORD && outPos < WORD && capacity < WORD && Sub(inPos, outPos) <= capacity
    ensures inPos == (outPos + Sub(inPos, outPos)) % WORD
    ensures (capacity - inPos + outPos) % WORD == capacity - Sub(inPos, outPos)
  {
    ModDiff(inPos, outPos, WORD);
    var used := Sub(inPos, outPos);
    ModSum(outPos, used, WORD);
    if inPos >= outPos {
      ModUnique(capacity - inPos + outPos, WORD, 0, capacity - used);
    } else {
      ModUnique(capacity - inPos + outPos, WORD, 1, capacity - used);
    }
  }

  /** Moving one counter of a ring forward changes the difference by as much. */
  lemma AdvanceIn(inPos: nat, outPos: nat, n: nat)
    requires inPos < WORD && outPos < WORD && Sub(inPos, outPos) + n < WORD
    ensures Sub((inPos + n) % WORD, outPos) == Sub(inPos, outPos) + n
  {
    ModDiff(inPos, outPos, WORD);
    ModSum(inPos, n, WORD);
    ModDiff((inPos + n) % WORD, outPos, WORD);
  }

  lemma AdvanceOut(inPos: nat, outPos: nat, n: nat)
    requires inPos < WORD && outPos < WORD && n < WORD
    ensures Sub(inPos, (outPos + n) % WORD)
            == if n <= Sub(inPos, outPos) then Sub(inPos, outPos) - n else Sub(inPos, outPos) - n + WORD
  {
    ModDiff(inPos, outPos, WORD);
    ModSum(outPos, n, WORD);
    ModDiff(inPos, (outPos + n) % WORD, WORD);
  }

  // ---- slots of a ring whose capacity divides the word ----

  /** The slot of the k-th byte ever put. */
  function Slot(k: nat, capacity: nat): (i: nat)
    requires capacity > 0
    ensures i < capacity
  {
    k % capacity
  }

  /** Wrapping a counter does not move its slot. */
  lemma WrapKeepsSlot(k: nat, c: nat)
    requires IsPowerOf2(c) && c < WORD
    ensures Slot(k % WORD, c) == Slot(k, c)
    ensures And(k % WORD, c - 1) == Slot(k, c)
  {
    hide Pow2, And;
    PowerOf2IsExact(c);
    var j: nat :| c == Pow2(j);
    MaskIsMod(k % WORD, j);
    Pow2Below(j, 64);
    Pow2Divides(j, 64);
    var m: nat :| WORD == m * c;
    ModOfMultiple(k, WORD, m, c);
  }

  lemma ModOfMultiple(k: nat, w: nat, m: nat, c: nat)
    requires c > 0 && w == m * c && w > 0
    ensures (k % w) % c == k % c
  {
    var p, q, r := k / w, (k % w) / c, (k % w) % c;
    assert k == w * p + k % w && k % w == c * q + r;
    assert w * p == c * (m * p) by { Reorder(m, c, p); }
    assert c * (m * p + q) == c * (m * p) + c * q;
    ModUnique(k, c, m * p + q, r);
  }

  lemma Reorder(m: nat, c: nat, p: nat)
    ensures (m * c) * p == c * (m * p)
  {}

  lemma {:induction false} Pow2Below(j: nat, k: nat)
    requires Pow2(j) < Pow2(k)
    ensures j < k
    decreases j
  {
    if j >= k && k > 0 { Pow2Below(j - 1, k - 1); }
  }

  /** Two counters less than a capacity apart use different slots. */
  lemma SlotsDiffer(a: nat, b: nat, c: nat)
    requires c > 0 && a < b < a + c
    ensures Slot(a, c) != Slot(b, c)
  {
    if Slot(a, c) == Slot(b, c) {
      var qa, qb := a / c, b / c;
      assert a == c * qa + a % c && b == c * qb + b % c;
      if qa < qb { MulStep(c, qa, qb); } else if qb < qa { MulStep(c, qb, qa); }
    }
  }

  /** Counting on from a slot: straight up to the end of the ring, then from its start. */
  lemma SlotAhead(a: nat, k: nat, c: nat)
    requires c > 0 && k <= c
    ensures Slot(a + k, c) == if Slot(a, c) + k < c then Slot(a, c) + k else Slot(a, c) + k - c
  {
    var q, r := a / c, a % c;
    assert a == c * q + r;
    if r + k < c {
      ModUnique(a + k, c, q, r + k);
    } else {
      assert c * (q + 1) == c * q + c;
      ModUnique(a + k, c, q + 1, r + k - c);
    }
  }
}
