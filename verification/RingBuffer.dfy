/** The byte ring of src/ringbuffer.c: a power-of-two buffer with free-running size_t counters. */
module RingBuffers {

  import opened Words

  type Byte = bv8

  function Min(a: nat, b: nat): nat { if a < b then a else b }

  /** n bytes of the ring, from the slot of counter `start` on. */
  function Window(ring: seq<Byte>, start: nat, n: nat): (w: seq<Byte>)
    requires |ring| > 0
    ensures |w| == n && forall i :: 0 <= i < n ==> w[i] == ring[Slot(start + i, |ring|)]
  {
    seq(n, i requires 0 <= i < n => ring[Slot(start + i, |ring|)])
  }

  function Overwrite(s: seq<Byte>, at: nat, data: seq<Byte>): (r: seq<Byte>)
    requires at + |data| <= |s|
    ensures |r| == |s|
  {
    s[..at] + data + s[at + |data|..]
  }

  /** Both parts of a write: up to the end of the buffer, the rest at its beginning. */
  function Store(ring: seq<Byte>, at: nat, data: seq<Byte>): (r: seq<Byte>)
    requires at < |ring| && |data| <= |ring|
    ensures |r| == |ring|
  {
    var len := Min(|data|, |ring| - at);
    Overwrite(Overwrite(ring, at, data[..len]), 0, data[len..])
  }

  /** Both parts of a read. */
  function Fetch(ring: seq<Byte>, at: nat, n: nat): (r: seq<Byte>)
    requires at < |ring| && n <= |ring|
  {
    var len := Min(n, |ring| - at);
    ring[at..at + len] + ring[..n - len]
  }

  lemma FetchParts(ring: seq<Byte>, at: nat, n: nat)
    requires at < |ring| && n <= |ring|
    ensures var len := Min(n, |ring| - at);
            Fetch(ring, at, n) == ring[at..at + len] + ring[..n - len]
  {}

  lemma FetchIsWindow(ring: seq<Byte>, start: nat, n: nat)
    requires 0 < |ring| && n <= |ring|
    ensures Fetch(ring, Slot(start, |ring|), n) == Window(ring, start, n)
  {
    forall i | 0 <= i < n ensures Fetch(ring, Slot(start, |ring|), n)[i] == Window(ring, start, n)[i] {
      SlotAhead(start, i, |ring|);
    }
  }

  /** The j-th byte of a write lands in the j-th slot; slots beyond the write keep their bytes. */
  lemma StoreAt(ring: seq<Byte>, start: nat, data: seq<Byte>, j: nat)
    requires |data| <= |ring| && j < |ring|
    ensures var c := |ring|;
            Store(ring, Slot(start, c), data)[Slot(start + j, c)]
            == if j < |data| then data[j] else ring[Slot(start + j, c)]
  {
    SlotAhead(start, j, |ring|);
  }

  lemma StoreAppends(ring: seq<Byte>, start: nat, n: nat, data: seq<Byte>)
    requires 0 < |ring| && n + |data| <= |ring|
    ensures var at := Slot(start + n, |ring|);
            Window(Store(ring, at, data), start, n + |data|) == Window(ring, start, n) + data
  {
    var c := |ring|;
    var ring' := Store(ring, Slot(start + n, c), data);
    forall i | 0 <= i < n + |data|
      ensures Window(ring', start, n + |data|)[i] == (Window(ring, start, n) + data)[i]
    {
      if i < n {
        SlotAhead(start + i, c, c);
        assert start + n + (c - n + i) == start + i + c;
      }
      StoreAt(ring, start + n, data, if i < n && c - n + i < c then c - n + i else i - n);
    }
  }

  lemma SlotOfWrapped(k: nat, j: nat, c: nat)
    requires IsPowerOf2(c) && c < WORD && j <= c
    ensures Slot(k % WORD + j, c) == Slot(k + j, c)
  {
    WrapKeepsSlot(k, c);
    SlotAhead(k, j, c);
    SlotAhead(k % WORD, j, c);
  }

  /** Moving the start of a window drops its first bytes, also when the counter wraps. */
  lemma DropWindow(ring: seq<Byte>, start: nat, n: nat, k: nat)
    requires IsPowerOf2(|ring|) && |ring| < WORD && k <= n <= |ring|
    ensures Window(ring, (start + k) % WORD, n - k) == Window(ring, start, n)[k..]
  {
    hide Pow2, And, IsPowerOf2;
    hide Slot;
    var w, w' := Window(ring, start, n), Window(ring, (start + k) % WORD, n - k);
    forall i | 0 <= i < n - k ensures w'[i] == w[k..][i] {
      SlotOfWrapped(start + k, i, |ring|);
      assert w[k + i] == ring[Slot(start + (k + i), |ring|)];
      assert start + k + i == start + (k + i);
    }
  }

  lemma WindowPrefix(ring: seq<Byte>, start: nat, n: nat, k: nat)
    requires |ring| > 0 && k <= n
    ensures Window(ring, start, n)[..k] == Window(ring, start, k)
  {}

  lemma OverwriteTwice(s: seq<Byte>, a: seq<Byte>, b: seq<Byte>)
    requires |a| + |b| <= |s|
    ensures Overwrite(Overwrite(s, 0, a), |a|, b) == a + b + s[|a| + |b|..]
  {}

  // memcpy
  method Copy(dst: array<Byte>, at: nat, src: seq<Byte>)
    requires at + |src| <= dst.Length
    modifies dst
    ensures dst[..] == Overwrite(old(dst[..]), at, src)
  {
    forall i | 0 <= i < |src| {
      dst[at + i] := src[i];
    }
  }

  class RingBuffer {
    const capacity: nat
    const buffer: array<Byte>
    var inPos: nat
    var outPos: nat

    // awe_ringbuffer_create
    constructor (capacity: nat)
      requires IsPowerOf2(capacity) && capacity < WORD
      ensures Valid() && Contents() == [] && this.capacity == capacity && fresh(buffer)
    {
      this.capacity := capacity;
      buffer := new Byte[capacity];
      inPos, outPos := 0, 0;
    }

    /** awe_ringbuffer_size: a subtraction of size_t values. */
    function Size(): nat
      reads this
    {
      Sub(inPos, outPos)
    }

    ghost predicate Valid()
      reads this
    {
      && IsPowerOf2(capacity) && capacity < WORD && buffer.Length == capacity
      && inPos < WORD && outPos < WORD
      && Size() <= capacity
    }

    /** The bytes put and not yet got, oldest first. */
    ghost function Contents(): seq<Byte>
      requires Valid()
      reads this, buffer
    {
      Window(buffer[..], outPos, Size())
    }

    method Put(data: seq<Byte>, size: nat) returns (n: nat)
      requires Valid() && size <= |data| && size < WORD
      modifies this`inPos, buffer
      ensures Valid() && n == Min(size, capacity - old(Size()))
      ensures Contents() == old(Contents()) + data[..n]
    {
      hide Pow2, And, IsPowerOf2, Sub, Window, Slot, Store;
      Counters(inPos, outPos, capacity);
      n := Min(size, (capacity - inPos + outPos) % WORD);
      PutAppends(data[..n]);
      var at := And(inPos, capacity - 1);
      CopyIn(at, data[..n]);
      inPos := (inPos + n) % WORD;
    }

    // the two memcpy calls of awe_ringbuffer_put
    method CopyIn(at: nat, data: seq<Byte>)
      requires at < buffer.Length && |data| <= buffer.Length
      modifies buffer
      ensures buffer[..] == Store(old(buffer[..]), at, data)
    {
      hide Overwrite;
      var len := Min(|data|, buffer.Length - at);
      Copy(buffer, at, data[..len]);
      Copy(buffer, 0, data[len..]);
    }

    /** What a write of data behind the used bytes makes of the contents. */
    lemma PutAppends(data: seq<Byte>)
      requires Valid() && |data| <= capacity - Size()
      ensures And(inPos, capacity - 1) < capacity
      ensures Sub((inPos + |data|) % WORD, outPos) == Size() + |data|
      ensures Window(Store(buffer[..], And(inPos, capacity - 1), data), outPos, Size() + |data|) == Contents() + data
    {
      hide Pow2, And, IsPowerOf2, Sub, Window, Slot, Store;
      SlotOfIn();
      StoreAppends(buffer[..], outPos, Size(), data);
      AdvanceIn(inPos, outPos, |data|);
    }

    method Get(dst: array<Byte>, size: nat) returns (n: nat)
      requires Valid() && size < WORD && dst != buffer && dst.Length >= Min(size, Size())
      modifies this`outPos, dst
      ensures Valid() && n == Min(size, old(Size()))
      ensures dst[..] == old(Contents())[..n] + old(dst[n..])
      ensures Contents() == old(Contents())[n..]
    {
      hide Pow2, And, IsPowerOf2, Sub, Window, Slot;
      n := Min(size, Size());
      GetLeaves(n);
      CopyOut(dst, And(outPos, capacity - 1), n);
      outPos := (outPos + n) % WORD;
    }

    // the two memcpy calls of awe_ringbuffer_get
    method CopyOut(dst: array<Byte>, at: nat, n: nat)
      requires at < buffer.Length && n <= buffer.Length && n <= dst.Length && dst != buffer
      modifies dst
      ensures var len := Min(n, buffer.Length - at);
              dst[..] == buffer[at..at + len] + buffer[..n - len] + old(dst[n..])
    {
      hide Overwrite;
      var len := Min(n, buffer.Length - at);
      OverwriteTwice(dst[..], buffer[at..at + len], buffer[..n - len]);
      Copy(dst, 0, buffer[at..at + len]);
      Copy(dst, len, buffer[..n - len]);
    }

    /** What the two parts of a read of n bytes give, and what is left. */
    lemma GetLeaves(n: nat)
      requires Valid() && n <= Size()
      ensures And(outPos, capacity - 1) < capacity
      ensures var at := And(outPos, capacity - 1);
              var len := Min(n, capacity - at);
              buffer[at..at + len] + buffer[..n - len] == Contents()[..n]
      ensures Sub(inPos, (outPos + n) % WORD) == Size() - n
      ensures Window(buffer[..], (outPos + n) % WORD, Size() - n) == Contents()[n..]
    {
      hide Pow2, And, IsPowerOf2, Sub, Window, Slot, Overwrite, Fetch;
      SlotOfIn();
      FetchIsWindow(buffer[..], outPos, n);
      FetchParts(buffer[..], And(outPos, capacity - 1), n);
      WindowPrefix(buffer[..], outPos, Size(), n);
      AdvanceOut(inPos, outPos, n);
      DropWindow(buffer[..], outPos, Size(), n);
    }

    /** awe_ringbuffer_moveReadPosition does not check its argument.  The ring stays consistent exactly
        when the move skips at most what is used, or, taken as a move back, stays within the free space. */
    method MoveReadPosition(size: nat)
      requires Valid() && size < WORD
      modifies this`outPos
      ensures Valid() <==> size <= old(Size()) || WORD - size <= capacity - old(Size())
      ensures size <= old(Size()) ==> Contents() == old(Contents())[size..]
      ensures size > old(Size()) && Valid() ==> Contents() == Window(buffer[..], outPos, WORD - size) + old(Contents())
    {
      hide Pow2, And, IsPowerOf2, Sub, Window, Slot;
      AdvanceOut(inPos, outPos, size);
      ModSum(outPos, size, WORD);
      if size <= Size() {
        DropWindow(buffer[..], outPos, Size(), size);
      } else if WORD - size <= capacity - Size() {
        var back := (outPos + size) % WORD;
        ModSum(back, WORD - size, WORD);
        DropWindow(buffer[..], back, Size() + (WORD - size), WORD - size);
        WindowPrefix(buffer[..], back, Size() + (WORD - size), WORD - size);
      }
      outPos := (outPos + size) % WORD;
    }

    lemma SlotOfIn()
      requires Valid()
      ensures And(inPos, capacity - 1) == Slot(outPos + Size(), capacity)
      ensures And(outPos, capacity - 1) == Slot(outPos, capacity)
    {
      hide Pow2, And, IsPowerOf2, Sub;
      Counters(inPos, outPos, capacity);
      WrapKeepsSlot(outPos + Size(), capacity);
      WrapKeepsSlot(outPos, capacity);
      SmallMod(outPos, WORD);
    }
  }
}
