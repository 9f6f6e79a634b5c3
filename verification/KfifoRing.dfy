/** The ring a kfifo keeps its bytes in, and the arithmetic of its free-running
    32-bit indices. */
module KfifoRing {
  import opened Common


  const WORD: nat := 0x1_0000_0000

  // -------------------------------------------------------------- index arithmetic

  lemma Pow2Of32()
    ensures Pow2(32) == WORD
  {
    assert Pow2(4) == 16;
    Pow2Adds(4, 4);
    Pow2Adds(8, 8);
    Pow2Adds(16, 16);
  }

  /** Every power of two up to 2^31 divides the word. */
  lemma Divides(bits: nat) returns (q: nat)
    requires bits <= 32
    ensures q > 0 && Pow2(bits) * q == WORD
  {
    q := Pow2(32 - bits);
    Pow2Adds(bits, 32 - bits);
    Pow2Of32();
  }

  /** The remainder survives a wrap of the word. */
  lemma WrapKeepsMod(x: nat, size: nat, q: nat)
    requires size > 0 && q > 0 && size * q == WORD && x < 2 * WORD
    ensures (x % WORD) % size == x % size
  {
    if x >= WORD {
      var y := x - WORD;
      var k := y / size;
      assert y == k * size + y % size;
      assert x == (k + q) * size + y % size;
      DivIs(x, size, k + q, y % size);
    }
  }

  /** (x + n) % size, for an n of at most size. */
  lemma ModStep(x: nat, n: nat, size: nat)
    requires 0 < size && n <= size
    ensures (x + n) % size == if x % size + n < size then x % size + n else x % size + n - size
  {
    var k := x / size;
    var r := x % size;
    assert x == k * size + r;
    if r + n < size {
      DivIs(x + n, size, k, r + n);
    } else {
      assert x + n == (k + 1) * size + (r + n - size);
      if r + n - size < size { DivIs(x + n, size, k + 1, r + n - size); }
    }
  }

  // ------------------------------------------------------------------------- the ring

  /** The place k after start, on a ring of n. */
  function At(start: nat, k: nat, n: nat): nat
    requires start < n && k <= n
  {
    if start + k < n then start + k else start + k - n
  }

  /** An index moved on by n: its place on the ring moves on by as much. */
  lemma IndexMoves(x: nat, n: nat, size: nat, q: nat)
    requires 0 < size && q > 0 && size * q == WORD && x < WORD && n <= size
    ensures (x + n) % WORD % size == At(x % size, n, size)
  {
    assert size <= WORD by { assert q >= 1; assert size * q >= size * 1; }
    WrapKeepsMod(x + n, size, q);
    ModStep(x, n, size);
  }

  lemma AtScales(s: nat, k: nat, size: nat, esize: nat)
    requires s < size && k <= size && esize > 0
    ensures s * esize < size * esize && k * esize <= size * esize
    ensures At(s, k, size) * esize == At(s * esize, k * esize, size * esize)
  {
    Scales(s, size, esize);
    if k < size { Scales(k, size, esize); }
    assert (s + k) * esize == s * esize + k * esize;
    if s + k < size {
      Scales(s + k, size, esize);
    } else {
      assert (s + k - size) * esize == s * esize + k * esize - size * esize;
      if s + k > size { Scales(size, s + k, esize); }
    }
  }

  lemma Scales(a: nat, b: nat, e: nat)
    requires a < b && e > 0
    ensures a * e < b * e
  {
    assert b * e == a * e + (b - a) * e;
    assert (b - a) * e > 0;
  }

  /** n bytes of the ring from start on. */
  function Ring(d: seq<Byte>, start: nat, n: nat): (r: seq<Byte>)
    requires start < |d| && n <= |d|
    ensures |r| == n && forall k :: 0 <= k < n ==> r[k] == d[At(start, k, |d|)]
  {
    if n == 0 then [] else Ring(d, start, n - 1) + [d[At(start, n - 1, |d|)]]
  }

  lemma RingSplits(d: seq<Byte>, start: nat, a: nat, b: nat)
    requires start < |d| && a + b <= |d|
    ensures Ring(d, start, a + b) == Ring(d, start, a) + Ring(d, At(start, a, |d|), b)
  {
    forall k | 0 <= k < a + b
      ensures Ring(d, start, a + b)[k] == (Ring(d, start, a) + Ring(d, At(start, a, |d|), b))[k]
    {}
  }

  /** src is on the ring from off on, and everything else is as before. */
  ghost predicate Written(d: seq<Byte>, d': seq<Byte>, off: nat, src: seq<Byte>) {
    && |d'| == |d| && off < |d| && |src| <= |d|
    && (forall k :: 0 <= k < |src| ==> d'[At(off, k, |d|)] == src[k])
    && (forall k :: |src| <= k < |d| ==> d'[At(off, k, |d|)] == d[At(off, k, |d|)])
  }

  /** Bytes written behind what is in the ring are added to it. */
  lemma RingAppend(d: seq<Byte>, d': seq<Byte>, start: nat, n: nat, src: seq<Byte>)
    requires start < |d| && n + |src| <= |d| && Written(d, d', At(start, n, |d|), src)
    ensures Ring(d', start, n + |src|) == Ring(d, start, n) + src
  {
    var off := At(start, n, |d|);
    RingSplits(d', start, n, |src|);
    forall k | 0 <= k < n ensures Ring(d', start, n)[k] == Ring(d, start, n)[k] {
      Behind(start, n, k, |d|);
    }
    assert Ring(d', start, n) == Ring(d, start, n);
    forall k | 0 <= k < |src| ensures Ring(d', off, |src|)[k] == src[k] {}
  }

  /** Seen from off, what is in the ring lies at the far end. */
  lemma Behind(start: nat, n: nat, k: nat, size: nat)
    requires start < size && n <= size && k < n
    ensures size - n + k < size && At(start, k, size) == At(At(start, n, size), size - n + k, size)
  {}

  /** Two writes one after the other are one. */
  lemma WrittenTwice(d: seq<Byte>, d1: seq<Byte>, d2: seq<Byte>, off: nat, a: seq<Byte>, b: seq<Byte>)
    requires Written(d, d1, off, a) && |a| + |b| <= |d| && Written(d1, d2, At(off, |a|, |d|), b)
    ensures Written(d, d2, off, a + b)
  {
    var n := |d|;
    forall k | 0 <= k < n ensures d2[At(off, k, n)] == if k < |a| then a[k] else if k < |a| + |b| then b[k - |a|] else d[At(off, k, n)] {
      var k' := if k >= |a| then k - |a| else n - |a| + k;
      assert At(off, k, n) == At(At(off, |a|, n), k', n);
    }
  }
}
