/** The circular dictionary of xz_dec_lzma2.c (multi-call mode) and the
    unbounded LZ77 history it stands for. */
module LzmaDict {
  import opened Common
  import opened LzmaRange

  /** Where the byte at distance d behind position pos lies. */
  function Slot(size: nat, pos: nat, d: nat): int {
    if d < pos then pos - 1 - d else pos - 1 - d + size
  }

  lemma SlotIs(size: nat, pos: nat, d: nat)
    ensures Slot(size, pos, d) == if d < pos then pos - 1 - d else pos - 1 - d + size
  {}

  /** The next byte of a copy is in the next place, around the end. */
  lemma SlotNext(size: nat, pos: nat, d: nat)
    requires pos < size && d < size
    ensures 0 <= Slot(size, pos, d) < size
    ensures Slot(size, pos + 1, d) == if Slot(size, pos, d) + 1 == size then 0 else Slot(size, pos, d) + 1
  {}

  /** The last `full` bytes of the history are in the buffer. Dictionary sizes
      are multiples of 16, so the low four bits of the position, which the
      decoder uses as context, are those of the length of the history. */
  ghost predicate Agrees(buf: seq<Byte>, pos: nat, full: nat, hist: seq<Byte>) {
    && 0 < |buf| && pos <= full <= |buf| && (full == pos || full == |buf|)
    && full <= |hist| && (full < |buf| ==> full == |hist|)
    && |buf| % 16 == 0 && |hist| % 16 == pos % 16
    && forall d :: 0 <= d < full ==> buf[Slot(|buf|, pos, d)] == hist[|hist| - 1 - d]
  }

  function Max(a: nat, b: nat): nat { if a < b then b else a }

  function Min(a: nat, b: nat): nat { if a < b then a else b }

  lemma LowBitsSucc(a: nat, b: nat)
    requires a % 16 == b % 16
    ensures (a + 1) % 16 == (b + 1) % 16
  {}

  /** Storing a byte at pos appends it to the history. */
  lemma PutAgrees(buf: seq<Byte>, pos: nat, full: nat, hist: seq<Byte>, b: Byte)
    requires Agrees(buf, pos, full, hist) && pos < |buf|
    ensures Agrees(buf[pos := b], pos + 1, Max(full, pos + 1), hist + [b])
  {
    LowBitsSucc(|hist|, pos);
    var buf' := buf[pos := b];
    var hist' := hist + [b];
    var next := pos + 1;
    forall d | 0 <= d < Max(full, next) ensures buf'[Slot(|buf|, next, d)] == hist'[|hist'| - 1 - d] {
      if d > 0 {
        assert Slot(|buf|, next, d) == Slot(|buf|, pos, d - 1);
        assert buf[Slot(|buf|, pos, d - 1)] == hist[|hist| - 1 - (d - 1)];
      }
    }
  }

  /** At the end of the buffer the position may go back to 0. */
  lemma WrapAgrees(buf: seq<Byte>, full: nat, hist: seq<Byte>)
    requires Agrees(buf, |buf|, full, hist)
    ensures Agrees(buf, 0, full, hist)
  {
    forall d | 0 <= d < full ensures buf[Slot(|buf|, 0, d)] == hist[|hist| - 1 - d] {
      assert Slot(|buf|, 0, d) == Slot(|buf|, |buf|, d);
    }
  }

  /** n bytes copied from distance dist, one after the other, so that a copy may
      read what it has just written. */
  function CopyFrom(hist: seq<Byte>, dist: nat, n: nat): (r: seq<Byte>)
    requires dist < |hist|
    ensures |r| == |hist| + n
    decreases n
  {
    if n == 0 then hist else CopyFrom(hist + [hist[|hist| - 1 - dist]], dist, n - 1)
  }

  lemma AgreesBounds(buf: seq<Byte>, pos: nat, full: nat, hist: seq<Byte>)
    requires Agrees(buf, pos, full, hist)
    ensures pos <= full <= |buf| && full <= |hist|
  {}

  lemma CopyUnroll(hist: seq<Byte>, dist: nat, n: nat)
    requires dist < |hist|
    ensures CopyFrom(hist, dist, n) == if n == 0 then hist else CopyFrom(hist + [hist[|hist| - 1 - dist]], dist, n - 1)
  {}

  /** A copy interrupted by a full dictionary and resumed later is the whole copy. */
  lemma {:induction false} CopySplits(hist: seq<Byte>, dist: nat, a: nat, b: nat)
    requires dist < |hist|
    ensures CopyFrom(CopyFrom(hist, dist, a), dist, b) == CopyFrom(hist, dist, a + b)
    decreases a
  {
    if a > 0 { CopySplits(hist + [hist[|hist| - 1 - dist]], dist, a - 1, b); }
  }

  /** What the copy means: the history is kept and each new byte equals the one
      dist + 1 before it. */
  lemma {:induction false} CopyMeans(hist: seq<Byte>, dist: nat, n: nat)
    requires dist < |hist|
    ensures hist <= CopyFrom(hist, dist, n)
    ensures forall i :: |hist| <= i < |hist| + n ==> CopyFrom(hist, dist, n)[i] == CopyFrom(hist, dist, n)[i - dist - 1]
    decreases n
  {
    if n > 0 {
      var h' := hist + [hist[|hist| - 1 - dist]];
      CopyMeans(h', dist, n - 1);
      var r := CopyFrom(hist, dist, n);
      assert hist <= h' <= r;
      assert r[|hist|] == h'[|hist|] && r[|hist| - 1 - dist] == h'[|hist| - 1 - dist];
    }
  }

  /** The caller's buffers (struct xz_buf). */
  class XzBuf {
    const input: seq<Byte>
    var inPos: nat
    const out: array<Byte>
    var outPos: nat

    ghost predicate Valid()
      reads this
    {
      inPos <= |input| && outPos <= out.Length
    }

    constructor (input: seq<Byte>, out: array<Byte>)
      ensures Valid() && this.input == input && this.out == out && inPos == 0 && outPos == 0
    {
      this.input := input;
      this.out := out;
      inPos := 0;
      outPos := 0;
    }

    /** Bytes behind those already in the output buffer. */
    method Emit(src: seq<Byte>)
      requires Valid() && |src| <= out.Length - outPos
      modifies this`outPos, out
      ensures Valid() && outPos == old(outPos) + |src|
      ensures out[..outPos] == old(out[..outPos]) + src
    {
      var n := |src|;
      for i := 0 to n
        invariant outPos == old(outPos)
        invariant out[..outPos] == old(out[..outPos])
        invariant forall k :: 0 <= k < i ==> out[outPos + k] == src[k]
      {
        out[outPos + i] := src[i];
      }
      outPos := outPos + n;
      assert out[..outPos] == old(out[..outPos]) + src;
    }
  }

  class Dict {
    const buf: array<Byte>
    var start: nat
    var pos: nat
    var full: nat
    var limit: nat
    ghost var hist: seq<Byte>    // everything written since the last reset

    /** end == size == buf.Length in multi-call mode. */
    ghost predicate Valid()
      reads this, buf
    {
      && start <= pos
      && Agrees(buf[..], pos, full, hist)
    }

    constructor (size: nat)
      requires 0 < size && size % 16 == 0
      ensures Valid() && fresh(buf) && buf.Length == size && hist == [] && start == pos == limit == 0
    {
      buf := new Byte[size](_ => 0);
      start, pos, full, limit := 0, 0, 0, 0;
      hist := [];
    }

    /** dict_reset. */
    method Reset()
      requires Valid()
      modifies this
      ensures Valid() && hist == [] && start == pos == limit == 0
    {
      start, pos, limit, full := 0, 0, 0, 0;
      hist := [];
    }

    /** dict_limit. */
    method SetLimit(outMax: nat)
      requires Valid()
      modifies this`limit
      ensures Valid() && limit == Min(buf.Length, pos + outMax) && pos <= limit <= buf.Length
    {
      if buf.Length - pos <= outMax {
        limit := buf.Length;
      } else {
        limit := pos + outMax;
      }
    }

    /** dict_get: the byte `dist` back in the history. */
    method Get(dist: nat) returns (b: Byte)
      requires Valid() && (dist < full || hist == [])
      ensures b == if hist == [] then 0 else hist[|hist| - 1 - dist]
    {
      if full > 0 {
        assert buf[..][Slot(buf.Length, pos, dist)] == hist[|hist| - 1 - dist];
        var offset := pos - dist - 1;
        if dist >= pos {
          offset := offset + buf.Length;
        }
        b := buf[offset];
      } else {
        b := 0;
      }
    }

    /** dict_put. */
    method Put(b: Byte)
      requires Valid() && pos < limit <= buf.Length
      modifies this`pos, this`full, this`hist, buf
      ensures Valid() && hist == old(hist) + [b] && pos == old(pos) + 1 && old(full) <= full
    {
      PutAgrees(buf[..], pos, full, hist, b);
      buf[pos] := b;
      pos := pos + 1;
      hist := hist + [b];
      if full < pos {
        full := pos;
      }
      assert buf[..] == old(buf[..])[old(pos) := b];
    }

    /** dict_repeat: false exactly when the distance reaches behind what was
        written; otherwise copies as much of the match as there is space for. */
    method Repeat(len: nat, dist: nat) returns (ok: bool, rest: nat)
      requires Valid() && pos < limit <= buf.Length && 0 < len
      modifies this`pos, this`full, this`hist, buf
      ensures Valid() && pos <= limit && old(full) <= full
      ensures ok <==> dist < old(full)
      ensures ok ==>
                && rest == len - Min(limit - old(pos), len)
                && hist == CopyFrom(old(hist), dist, len - rest)
                && pos == old(pos) + (len - rest)
      ensures !ok ==> rest == len && hist == old(hist) && pos == old(pos)
    {
      hide Agrees, CopyFrom, Slot;
      AgreesBounds(buf[..], pos, full, hist);
      if dist >= full || dist >= buf.Length {
        return false, len;
      }
      var left: nat := Min(limit - pos, len);
      rest := len - left;
      ok := true;
      var back := pos - dist - 1;
      if dist >= pos {
        back := back + buf.Length;
      }
      SlotIs(buf.Length, pos, dist);
      CopyLoop(left, dist, back);
      AgreesBounds(buf[..], pos, Max(full, pos), hist);
      if full < pos {
        full := pos;
      }
    }

    /** The loop of dict_repeat; `full` is brought up to date behind it. */
    method CopyLoop(n: nat, dist: nat, back0: nat)
      requires Valid() && pos + n <= buf.Length && 0 < n && dist < full && back0 == Slot(buf.Length, pos, dist)
      modifies this`pos, this`hist, buf
      ensures start <= pos && pos == old(pos) + n && Agrees(buf[..], pos, Max(full, pos), hist)
      ensures dist < |old(hist)| && hist == CopyFrom(old(hist), dist, n)
    {
      hide Agrees, CopyFrom, Slot;
      AgreesBounds(buf[..], pos, full, hist);
      var back, left := back0, n;
      ghost var total := CopyFrom(hist, dist, left);
      ghost var f := full;
      while left > 0
        invariant left <= n && pos + left == old(pos) + n
        invariant start <= pos && f == Max(full, pos)
        invariant Agrees(buf[..], pos, f, hist) && dist < f <= |hist|
        invariant left > 0 ==> back == Slot(buf.Length, pos, dist)
        invariant CopyFrom(hist, dist, left) == total
        decreases left
      {
        AgreesBounds(buf[..], pos, f, hist);
        CopyUnroll(hist, dist, left);
        SlotNext(buf.Length, pos, dist);
        CopyByte(back, dist, f);
        f := Max(f, pos);
        back := back + 1;
        if back == buf.Length {
          back := 0;
        }
        left := left - 1;
      }
      CopyUnroll(hist, dist, 0);
    }

    /** One byte of a match goes to the end of the history. */
    method CopyByte(back: nat, ghost dist: nat, ghost f: nat)
      requires Agrees(buf[..], pos, f, hist) && dist < f && pos < buf.Length && back == Slot(buf.Length, pos, dist)
      modifies this`pos, this`hist, buf
      ensures hist == old(hist) + [old(hist)[|old(hist)| - 1 - dist]] && pos == old(pos) + 1
      ensures Agrees(buf[..], pos, Max(f, pos), hist) && Max(f, pos) <= |hist|
    {
      ghost var before := buf[..];
      assert before[back] == hist[|hist| - 1 - dist];
      PutAgrees(before, pos, f, hist, before[back]);
      buf[pos] := buf[back];
      hist := hist + [hist[|hist| - 1 - dist]];
      pos := pos + 1;
      assert buf[..] == before[pos - 1 := before[back]];
    }

    /** dict_flush: the pending bytes go out, in order, and nothing is pending. */
    method Flush(b: XzBuf) returns (n: nat)
      requires Valid() && b.Valid() && pos - start <= b.out.Length - b.outPos && b.out != buf
      modifies this`pos, this`start, b`outPos, b.out
      ensures Valid() && b.Valid() && start == pos < buf.Length && hist == old(hist)
      ensures n == old(pos) - old(start) <= |hist|
      ensures b.outPos == old(b.outPos) + n
      ensures b.out[..b.outPos] == old(b.out[..b.outPos]) + hist[|hist| - n..]
    {
      n := pos - start;
      assert hist[|hist| - n..] == buf[start..pos] by { PendingIs(buf[..], start, pos, full, hist); }
      var src := buf[start..pos];
      if pos == buf.Length {
        WrapAgrees(buf[..], full, hist);
        pos := 0;
      }
      b.Emit(src);
      start := pos;
    }

    /** dict_uncompressed: copies bytes of the input to the history and to the
        output, as many as input, output and chunk allow. */
    method Uncompressed(b: XzBuf, left: nat) returns (rest: nat)
      requires Valid() && b.Valid() && start == pos < buf.Length && b.out != buf
      modifies this`pos, this`start, this`full, this`hist, buf, b`inPos, b`outPos, b.out
      ensures Valid() && b.Valid() && start == pos < buf.Length && old(b.inPos) <= b.inPos && old(full) <= full
      ensures left - rest == b.inPos - old(b.inPos) == b.outPos - old(b.outPos) ==
              Min(left, Min(|b.input| - old(b.inPos), b.out.Length - old(b.outPos)))
      ensures hist == old(hist) + b.input[old(b.inPos)..b.inPos]
      ensures b.out[..b.outPos] == old(b.out[..b.outPos]) + b.input[old(b.inPos)..b.inPos]
      ensures limit == old(limit) && pos == PosAfter(old(pos), left - rest, buf.Length)
    {
      hide Agrees, CopyFrom, PosAfter, Min;
      rest := left;
      PosNone(pos, buf.Length);
      assert b.input[b.inPos..b.inPos] == [];
      while rest > 0 && b.inPos < |b.input| && b.outPos < b.out.Length
        invariant Valid() && b.Valid() && start == pos < buf.Length && rest <= left && old(full) <= full
        invariant old(b.inPos) <= b.inPos && left - rest == b.inPos - old(b.inPos) == b.outPos - old(b.outPos)
        invariant hist == old(hist) + b.input[old(b.inPos)..b.inPos]
        invariant b.out[..b.outPos] == old(b.out[..b.outPos]) + b.input[old(b.inPos)..b.inPos]
        invariant pos == PosAfter(old(pos), left - rest, buf.Length)
      {
        ghost var done, part := b.inPos, b.input[old(b.inPos)..b.inPos];
        var copySize := CopyPart(b, rest);
        assert part + b.input[done..b.inPos] == b.input[old(b.inPos)..b.inPos];
        PosStep(old(pos), left - rest, copySize, buf.Length);
        rest := rest - copySize;
      }
      MinIs(left, Min(|b.input| - old(b.inPos), b.out.Length - old(b.outPos)));
      MinIs(|b.input| - old(b.inPos), b.out.Length - old(b.outPos));
    }

    /** One round: up to the end of the buffer. */
    method CopyPart(b: XzBuf, rest: nat) returns (copySize: nat)
      requires Valid() && b.Valid() && start == pos < buf.Length && b.out != buf
      requires rest > 0 && b.inPos < |b.input| && b.outPos < b.out.Length
      modifies this`pos, this`start, this`full, this`hist, buf, b`inPos, b`outPos, b.out
      ensures Valid() && b.Valid() && start == pos < buf.Length && old(full) <= full && 0 < copySize <= rest
      ensures b.inPos == old(b.inPos) + copySize && b.outPos == old(b.outPos) + copySize && old(pos) + copySize <= buf.Length
      ensures hist == old(hist) + b.input[old(b.inPos)..b.inPos]
      ensures b.out[..b.outPos] == old(b.out[..b.outPos]) + b.input[old(b.inPos)..b.inPos]
      ensures pos == if old(pos) + copySize == buf.Length then 0 else old(pos) + copySize
    {
      hide Agrees;
      copySize := Min(|b.input| - b.inPos, b.out.Length - b.outPos);
      if copySize > buf.Length - pos {
        copySize := buf.Length - pos;
      }
      if copySize > rest {
        copySize := rest;
      }
      var src := b.input[b.inPos..b.inPos + copySize];
      CopyIn(src);
      b.Emit(src);
      b.inPos := b.inPos + copySize;
    }

    /** memcpy into the buffer at pos, and the wrap at its end. */
    method CopyIn(src: seq<Byte>)
      requires Agrees(buf[..], pos, full, hist) && |src| <= buf.Length - pos
      modifies this`pos, this`start, this`full, this`hist, buf
      ensures Valid() && start == pos < buf.Length && hist == old(hist) + src && old(full) <= full
      ensures pos == if old(pos) + |src| == buf.Length then 0 else old(pos) + |src|
    {
      for i := 0 to |src|
        invariant pos == old(pos) + i && hist == old(hist) + src[..i] && old(full) <= full
        invariant Agrees(buf[..], pos, full, hist)
      {
        ghost var before := buf[..];
        PutAgrees(before, pos, full, hist, src[i]);
        buf[pos] := src[i];
        assert buf[..] == before[pos := src[i]];
        assert src[..i] + [src[i]] == src[..i + 1];
        hist := hist + [src[i]];
        pos := pos + 1;
        if full < pos {
          full := pos;
        }
      }
      assert src[..|src|] == src;
      if pos == buf.Length {
        WrapAgrees(buf[..], full, hist);
        pos := 0;
      }
      start := pos;
    }
  }

  /** The position after n more bytes, around the end of the buffer. */
  function PosAfter(pos: nat, n: nat, size: nat): nat
    requires 0 < size
  {
    (pos + n) % size
  }

  lemma PosNone(pos: nat, size: nat)
    requires pos < size
    ensures PosAfter(pos, 0, size) == pos
  {
    DivIs(pos, size, 0, pos);
  }

  lemma MinIs(a: nat, b: nat)
    ensures Min(a, b) == if a < b then a else b
  {}

  lemma PosStep(pos: nat, n: nat, k: nat, size: nat)
    requires pos < size && PosAfter(pos, n, size) + k <= size
    ensures PosAfter(pos, n + k, size) == if PosAfter(pos, n, size) + k == size then 0 else PosAfter(pos, n, size) + k
  {
    var q, r := (pos + n) / size, PosAfter(pos, n, size);
    assert pos + n == q * size + r;
    if r + k == size {
      DivIs(pos + n + k, size, q + 1, 0);
    } else {
      DivIs(pos + n + k, size, q, r + k);
    }
  }

  /** dict_uncompressed leaves the limit where it was, and the limit may be overtaken:
      from a position not beyond it, pos <= limit survives n bytes if and only if what
      is left of them after whole rounds fits before the limit, or goes around the end
      and not beyond the limit. */
  lemma LimitKept(pos: nat, n: nat, size: nat, limit: nat)
    requires pos < size && pos <= limit <= size
    ensures var k := n % size;
            PosAfter(pos, n, size) <= limit <==> k <= limit - pos || size - pos <= k <= size - pos + limit
  {
    var q, k := n / size, n % size;
    assert n == q * size + k;
    if pos + k < size {
      DivIs(pos + n, size, q, pos + k);
    } else {
      assert (q + 1) * size == q * size + size;
      DivIs(pos + n, size, q + 1, pos + k - size);
    }
  }

  /** After dict_reset, with limit 0, pos <= limit holds behind an uncompressed chunk
      if and only if it fills the buffer a whole number of times. */
  method ResetThenCopy(size: nat, bytes: seq<Byte>) returns (pos: nat, limit: nat)
    requires 0 < size && size % 16 == 0
    ensures limit == 0 && pos == |bytes| % size
    ensures pos <= limit <==> |bytes| % size == 0
  {
    var d := new Dict(size);
    var out := new Byte[|bytes|];
    var b := new XzBuf(bytes, out);
    d.Reset();
    var _ := d.Uncompressed(b, |bytes|);
    pos, limit := d.pos, d.limit;
  }

  /** The pending bytes of the buffer are the last bytes of the history. */
  lemma PendingIs(buf: seq<Byte>, start: nat, pos: nat, full: nat, hist: seq<Byte>)
    requires Agrees(buf, pos, full, hist) && start <= pos
    ensures hist[|hist| - (pos - start)..] == buf[start..pos]
  {
    var n := pos - start;
    forall k | 0 <= k < n ensures hist[|hist| - n..][k] == buf[start..pos][k] {
      var d := n - 1 - k;
      assert Slot(|buf|, pos, d) == start + k;
      assert buf[Slot(|buf|, pos, d)] == hist[|hist| - 1 - d];
    }
  }
}
