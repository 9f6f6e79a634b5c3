/** The kfifo (kfifo.c): a ring buffer of a power of two elements with
    free-running 32-bit indices, and records framed in it. */
module Kfifo {
  import opened Common
  import opened KfifoRing

  // ---------------------------------------------------------------------- records

  /** 256 to the power of recsize, the header's 1 or 2 bytes. */
  function HeaderRange(recsize: nat): nat { if recsize == 1 then 0x100 else 0x1_0000 }

  predicate RecSize(recsize: nat) { recsize == 1 || recsize == 2 }

  /** __kfifo_poke_n: the length, low byte first, as far as it fits. */
  function Header(n: nat, recsize: nat): (h: seq<Byte>)
    requires RecSize(recsize)
    ensures |h| == recsize
  {
    if recsize == 1 then [n % 256] else [n % 256, n / 256 % 256]
  }

  /** __kfifo_peek_n. */
  function Length(h: seq<Byte>): (n: nat)
    requires RecSize(|h|)
    ensures n < HeaderRange(|h|)
  {
    var low: nat := h[0];
    if |h| == 1 then low
    else
      var high: nat := h[1];
      low + 256 * high
  }

  lemma LengthOf(n: nat, recsize: nat)
    requires RecSize(recsize)
    ensures Length(Header(n, recsize)) == n % HeaderRange(recsize)
  {}

  /** The bytes that stand for a sequence of records. */
  function Framed(rs: seq<seq<Byte>>, recsize: nat): seq<Byte>
    requires RecSize(recsize)
  {
    if rs == [] then [] else Header(|rs[0]|, recsize) + rs[0] + Framed(rs[1..], recsize)
  }

  predicate Fit(rs: seq<seq<Byte>>, recsize: nat) {
    forall i :: 0 <= i < |rs| ==> |rs[i]| < HeaderRange(recsize)
  }

  /** The records the bytes stand for, if they are whole records. */
  function Parsed(bytes: seq<Byte>, recsize: nat): Option<seq<seq<Byte>>>
    requires RecSize(recsize)
    decreases |bytes|
  {
    if bytes == [] then Some([])
    else if |bytes| < recsize then None
    else
      var n := Length(bytes[..recsize]);
      if |bytes| < recsize + n then None
      else
        match Parsed(bytes[recsize + n..], recsize)
        case None => None
        case Some(rest) => Some([bytes[recsize..recsize + n]] + rest)
  }

  lemma {:induction false} FramedParses(rs: seq<seq<Byte>>, recsize: nat)
    requires RecSize(recsize) && Fit(rs, recsize)
    ensures Parsed(Framed(rs, recsize), recsize) == Some(rs)
  {
    if rs != [] {
      var h, r, rest := Header(|rs[0]|, recsize), rs[0], Framed(rs[1..], recsize);
      var b := h + r + rest;
      LengthOf(|r|, recsize);
      assert Length(h) == |r|;
      hide Header, Length, HeaderRange;
      assert b[..recsize] == h && b[recsize..recsize + |r|] == r && b[recsize + |r|..] == rest;
      FramedParses(rs[1..], recsize);
      assert [rs[0]] + rs[1..] == rs;
    }
  }

  lemma {:induction false} FramedAppends(rs: seq<seq<Byte>>, r: seq<Byte>, recsize: nat)
    requires RecSize(recsize)
    ensures Framed(rs + [r], recsize) == Framed(rs, recsize) + Header(|r|, recsize) + r
  {
    if rs == [] {
      assert [r][1..] == [];
      assert Framed([r], recsize) == Header(|r|, recsize) + r + Framed([], recsize);
      assert rs + [r] == [r];
    } else {
      FramedAppends(rs[1..], r, recsize);
      assert (rs + [r])[1..] == rs[1..] + [r];
      var h := Header(|rs[0]|, recsize);
      assert h + rs[0] + (Framed(rs[1..], recsize) + Header(|r|, recsize) + r) == (h + rs[0] + Framed(rs[1..],
          recsize)) + Header(|r|, recsize) + r;
    }
  }

  /** A record that is put in comes out again if and only if its length fits the
      header. */
  lemma AppendedParses(rs: seq<seq<Byte>>, r: seq<Byte>, recsize: nat)
    requires RecSize(recsize) && Fit(rs, recsize)
    ensures Parsed(Framed(rs, recsize) + Header(|r|, recsize) + r, recsize) == Some(rs + [r]) <==> |r| < HeaderRange(recsize)
  {
    FramedAppends(rs, r, recsize);
    if |r| < HeaderRange(recsize) {
      FramedParses(rs + [r], recsize);
    } else {
      ParsedFit(Framed(rs + [r], recsize), recsize);
      assert (rs + [r])[|rs|] == r;
      assert !Fit(rs + [r], recsize);
    }
  }

  /** Bytes that are whole records are the frames of these. */
  lemma {:induction false} ParsedFrames(bytes: seq<Byte>, recsize: nat)
    requires RecSize(recsize) && Parsed(bytes, recsize).Some?
    ensures Framed(Parsed(bytes, recsize).value, recsize) == bytes
    decreases |bytes|
  {
    hide Header, Length, Parsed, Framed;
    if bytes == [] {
      EmptyFrames(recsize);
    } else {
      ParsedFirst(bytes, recsize);
      var h := bytes[..recsize];
      var n := Length(h);
      var r, rest := bytes[recsize..recsize + n], bytes[recsize + n..];
      ParsedFrames(rest, recsize);
      HeaderOf(h);
      FrameFirst(r, Parsed(rest, recsize).value, recsize);
      assert bytes == h + r + rest;
    }
  }

  lemma ParsedFirst(bytes: seq<Byte>, recsize: nat)
    requires RecSize(recsize) && Parsed(bytes, recsize).Some? && bytes != []
    ensures |bytes| >= recsize
    ensures var n := Length(bytes[..recsize]);
            && |bytes| >= recsize + n && Parsed(bytes[recsize + n..], recsize).Some?
            && Parsed(bytes, recsize).value == [bytes[recsize..recsize + n]] + Parsed(bytes[recsize + n..], recsize).value
  {}

  lemma EmptyFrames(recsize: nat)
    requires RecSize(recsize)
    ensures Parsed([], recsize) == Some([]) && Framed([], recsize) == []
  {}

  lemma FrameFirst(r: seq<Byte>, rs: seq<seq<Byte>>, recsize: nat)
    requires RecSize(recsize)
    ensures Framed([r] + rs, recsize) == Header(|r|, recsize) + r + Framed(rs, recsize)
  {
    assert ([r] + rs)[1..] == rs;
  }

  lemma HeaderOf(h: seq<Byte>)
    requires RecSize(|h|)
    ensures Header(Length(h), |h|) == h
  {}

  /** No record longer than the header can say is ever read. */
  lemma {:induction false} ParsedFit(bytes: seq<Byte>, recsize: nat)
    requires RecSize(recsize)
    ensures Parsed(bytes, recsize).Some? ==> Fit(Parsed(bytes, recsize).value, recsize)
    decreases |bytes|
  {
    if Parsed(bytes, recsize).Some? && bytes != [] {
      var n := Length(bytes[..recsize]);
      ParsedFit(bytes[recsize + n..], recsize);
    }
  }

  /** For instance a record of 300 bytes behind a one-byte header. */
  lemma LongRecordIsLost(r: seq<Byte>)
    requires |r| == 300
    ensures Parsed(Header(|r|, 1) + r, 1) != Some([r])
  {
    AppendedParses([], r, 1);
    assert Framed([], 1) + Header(|r|, 1) + r == Header(|r|, 1) + r;
    assert [] + [r] == [r];
  }

  // --------------------------------------------------------------------- the class

  /** rounddown_pow_of_two. */
  function RoundDown(n: nat): nat
    requires n > 0
  {
    if n == 1 then 1 else 2 * RoundDown(n / 2)
  }

  lemma {:induction false} RoundDownIs(n: nat, k: nat)
    requires Pow2(k) <= n < 2 * Pow2(k)
    ensures RoundDown(n) == Pow2(k)
  {
    if k > 0 { RoundDownIs(n / 2, k - 1); }
  }

  lemma {:induction false} RoundDownPow2(n: nat)
    requires n > 0
    ensures RoundDown(n) <= n < 2 * RoundDown(n)
  {
    if n > 1 { RoundDownPow2(n / 2); }
  }

  /** a - b in 32 bits. */
  lemma Difference(a: nat, b: nat)
    requires a < WORD && b < WORD
    ensures (a + WORD - b) % WORD == if b <= a then a - b else a + WORD - b
  {
    DivIs(a + WORD - b, WORD, if b <= a then 1 else 0, if b <= a then a - b else a + WORD - b);
  }

  datatype AllocResult = Allocated | EInval | ENoMem

  class Fifo {
    const data: array<Byte>
    const mask: nat
    const esize: nat
    ghost const bits: nat
    var in_: nat
    var out: nat

    ghost predicate Valid()
      reads this, data
    {
      && 1 <= bits <= 31 && mask + 1 == Pow2(bits) && esize > 0
      && data.Length == Len(mask + 1) && data.Length < WORD
      && in_ < WORD && out < WORD && Used() <= mask + 1
    }

    /** in - out, in 32 bits. */
    function Used(): nat
      reads this
      requires in_ < WORD && out < WORD
    {
      if out <= in_ then in_ - out else in_ + WORD - out
    }

    /** n elements in bytes. */
    function Len(n: nat): nat { n * esize }

    /** Where in the buffer the element of index x is. */
    function Spot(x: nat): nat { x % (mask + 1) * esize }

    /** x += n, in 32 bits. */
    function Next(x: nat, n: nat): nat { (x + n) % WORD }

    /** The bytes in the fifo, oldest first. */
    ghost function Contents(): (s: seq<Byte>)
      reads this, data
      requires Valid()
      ensures |s| == Len(Used())
    {
      SpotIn(out);
      LenMono(Used(), mask + 1);
      Ring(data[..], Spot(out), Len(Used()))
    }

    lemma SpotIn(x: nat)
      requires Valid()
      ensures Spot(x) < data.Length
    {
      AtScales(x % (mask + 1), 0, mask + 1, esize);
    }

    lemma LenMono(a: nat, b: nat)
      requires a <= b
      ensures Len(a) <= Len(b)
    {
      assert b * esize == a * esize + (b - a) * esize;
    }

    lemma LenAdds(a: nat, b: nat)
      ensures Len(a + b) == Len(a) + Len(b)
    {}

    /** An index that moves on moves on in the ring. */
    lemma SpotMoves(x: nat, n: nat)
      requires Valid() && x < WORD && n <= mask + 1
      ensures Spot(x) < data.Length && Len(n) <= data.Length && Spot(Next(x, n)) == At(Spot(x), Len(n), data.Length)
    {
      var q := Divides(bits);
      IndexMoves(x, n, mask + 1, q);
      AtScales(x % (mask + 1), n, mask + 1, esize);
    }

    lemma UsedIs()
      requires Valid()
      ensures in_ == Next(out, Used())
    {}

    /** in - out after in has moved on by n, and after out has. */
    lemma UsedMoves(n: nat)
      requires Valid()
      ensures n <= mask + 1 - Used() ==> var i := Next(in_, n); i < WORD && Used() + n == if out <= i then i - out else i + WORD - out
      ensures n <= Used() ==> var o := Next(out, n); o < WORD && Used() - n == if o <= in_ then in_ - o else in_ + WORD - o
    {
      hide Len, Pow2, Next;
      Half();
      if n <= mask + 1 { NextIs(in_, n); NextIs(out, n); }
    }

    lemma NextIs(x: nat, n: nat)
      requires x < WORD && n < WORD
      ensures Next(x, n) == if x + n < WORD then x + n else x + n - WORD
    {
      DivIs(x + n, WORD, if x + n < WORD then 0 else 1, if x + n < WORD then x + n else x + n - WORD);
    }

    lemma Half()
      requires Valid()
      ensures 2 * (mask + 1) <= WORD
    {
      var q := Divides(bits);
      Pow2Adds(bits, 31 - bits);
      Pow2Adds(31, 1);
      Pow2Of32();
      AtMost(Pow2(bits), Pow2(31 - bits));
    }

    static lemma AtMost(a: nat, b: nat)
      requires b > 0
      ensures a <= a * b
    {
      assert a * b == a + a * (b - 1);
    }

    /** The successful case of __kfifo_alloc: the size is rounded down to a power of
        two, and the buffer has to be addressed in 32 bits. */
    constructor (size: nat, esize: nat)
      requires 2 <= size < WORD && esize > 0 && RoundDown(size) * esize < WORD
      ensures Valid() && fresh(data) && this.esize == esize && Contents() == []
      ensures mask + 1 == RoundDown(size)
    {
      var n := 2;
      ghost var k := 1;
      while 2 * n <= size
        invariant n == Pow2(k) && k >= 1 && n <= size
        decreases size - n
      {
        n := 2 * n;
        k := k + 1;
      }
      SmallBits(k, size);
      RoundDownIs(size, k);
      this.esize := esize;
      mask := n - 1;
      bits := k;
      data := new Byte[n * esize](_ => 0);
      in_, out := 0, 0;
    }

    /** __kfifo_alloc; `memory` says whether kmalloc finds any. */
    static method Alloc(size: nat, esize: nat, memory: bool) returns (ret: AllocResult, fifo: Fifo?)
      requires 0 < size < WORD && esize > 0 && RoundDown(size) * esize < WORD
      ensures ret == EInval <==> size < 2
      ensures ret == ENoMem <==> 2 <= size && !memory
      ensures ret == Allocated <==> fifo != null
      ensures fifo != null ==>
                && fresh(fifo) && fresh(fifo.data) && fifo.Valid() && fifo.esize == esize && fifo.Contents() == []
                && fifo.mask + 1 <= size < 2 * (fifo.mask + 1)
    {
      RoundDownPow2(size);
      if size < 2 {
        return EInval, null;
      }
      if !memory {
        return ENoMem, null;
      }
      fifo := new Fifo(size, esize);
      ret := Allocated;
    }

    static lemma SmallBits(k: nat, size: nat)
      requires Pow2(k) <= size < WORD
      ensures k <= 31
    {
      if k >= 32 {
        Pow2Adds(32, k - 32);
        Pow2Of32();
        AtMost(WORD, Pow2(k - 32));
      }
    }

    /** kfifo_unused. */
    method Unused() returns (n: nat)
      requires Valid()
      ensures Len(n) + |Contents()| == data.Length && n + Used() == mask + 1
    {
      hide Len, Pow2, Ring, Spot;
      Half();
      LenAdds(mask + 1 - Used(), Used());
      Difference(in_, out);
      Difference(mask + 1, Used());
      var used := (in_ + WORD - out) % WORD;
      n := (mask + 1 + WORD - used) % WORD;
    }

    // ------------------------------------------------------------------- copying

    /** memcpy into the buffer. */
    method CopyTo(off: nat, src: seq<Byte>, from: nat, n: nat)
      requires off + n <= data.Length && from + n <= |src|
      modifies data
      ensures forall k :: 0 <= k < data.Length ==> data[k] == if off <= k < off + n then src[from + k - off] else old(data[k])
    {
      for k := 0 to n
        invariant forall j :: 0 <= j < data.Length ==> data[j] == if off <= j < off + k then src[from + j - off] else old(data[j])
      {
        data[off + k] := src[from + k];
      }
    }

    /** kfifo_copy_in: in two parts if the end of the buffer is in the way. */
    method CopyIn(src: seq<Byte>, off: nat)
      requires Valid() && |src| <= data.Length
      modifies data
      ensures Valid()
      ensures Written(old(data[..]), data[..], Spot(off), src)
    {
      hide Spot, Len;
      SpotIn(off);
      var o := Spot(off);
      var l := if |src| <= data.Length - o then |src| else data.Length - o;
      CopyTo(o, src, 0, l);
      CopyTo(0, src, l, |src| - l);
    }

    /** kfifo_copy_out. */
    method CopyOut(len: nat, off: nat) returns (dst: seq<Byte>)
      requires Valid() && len <= data.Length
      ensures Spot(off) < data.Length && dst == Ring(data[..], Spot(off), len)
    {
      hide Spot, Len;
      SpotIn(off);
      var o := Spot(off);
      var l := if len <= data.Length - o then len else data.Length - o;
      dst := data[o..o + l] + data[..len - l];
    }

    // ------------------------------------------------------------------- elements

    /** __kfifo_in: as many elements as there is room for. */
    method In(buf: seq<Byte>, len: nat) returns (n: nat)
      requires Valid() && |buf| == Len(len)
      modifies this`in_, data
      ensures Valid() && n == (if len <= mask + 1 - old(Used()) then len else mask + 1 - old(Used()))
      ensures Len(n) <= |buf| && Contents() == old(Contents()) + buf[..Len(n)]
      ensures Used() == old(Used()) + n && in_ == Next(old(in_), n)
    {
      hide Len, Spot, Next;
      n := Unused();
      if len < n {
        n := len;
      }
      ghost var used, d := Used(), data[..];
      LenMono(n, len);
      LenMono(used + n, mask + 1);
      LenMono(used, mask + 1);
      LenAdds(used, n);
      UsedIs();
      SpotMoves(out, used);
      UsedMoves(n);
      CopyIn(buf[..Len(n)], in_);
      RingAppend(d, data[..], Spot(out), Len(used), buf[..Len(n)]);
      in_ := Next(in_, n);
    }

    /** What is n elements into the contents. */
    lemma Splits(n: nat)
      requires Valid() && n <= Used()
      ensures Len(n) <= Len(Used()) && Len(n) <= data.Length && Spot(out) < data.Length
      ensures Ring(data[..], Spot(out), Len(n)) == Contents()[..Len(n)]
      ensures Spot(Next(out, n)) < data.Length && Len(Used() - n) <= data.Length
      ensures Ring(data[..], Spot(Next(out, n)), Len(Used() - n)) == Contents()[Len(n)..]
    {
      hide Len, Spot, Next;
      var used := Used();
      LenMono(n, used);
      LenMono(used, mask + 1);
      LenMono(used - n, mask + 1);
      LenAdds(n, used - n);
      SpotMoves(out, n);
      SpotIn(Next(out, n));
      RingSplits(data[..], Spot(out), Len(n), Len(used - n));
    }

    /** __kfifo_out_peek: the oldest elements, up to len. */
    method OutPeek(len: nat) returns (n: nat, buf: seq<Byte>)
      requires Valid()
      ensures n == if len <= Used() then len else Used()
      ensures Len(n) <= Len(Used()) && buf == Contents()[..Len(n)]
    {
      hide Len, Spot, Next;
      n := Used();
      if len < n {
        n := len;
      }
      Splits(n);
      buf := CopyOut(Len(n), out);
    }

    /** __kfifo_out. */
    method Out(len: nat) returns (n: nat, buf: seq<Byte>)
      requires Valid()
      modifies this`out
      ensures Valid() && n == (if len <= old(Used()) then len else old(Used()))
      ensures old(Contents()) == buf + Contents() && |buf| == Len(n)
      ensures Used() == old(Used()) - n && out == Next(old(out), n)
    {
      hide Len, Spot, Next, Ring;
      n, buf := OutPeek(len);
      ghost var s := Contents();
      Splits(n);
      UsedMoves(n);
      out := Next(out, n);
      assert s == s[..Len(n)] + s[Len(n)..];
    }

    // -------------------------------------------------------------------- records

    /** A fifo of whole records. */
    ghost predicate Recorded(recsize: nat)
      reads this, data
    {
      RecSize(recsize) && Valid() && esize == 1 && Parsed(Contents(), recsize).Some?
    }

    ghost function Records(recsize: nat): seq<seq<Byte>>
      reads this, data
      requires Recorded(recsize)
    {
      Parsed(Contents(), recsize).value
    }

    lemma TwoFit(recsize: nat)
      requires Valid() && RecSize(recsize)
      ensures recsize <= mask + 1
    {
    }

    lemma ByteLen(n: nat)
      requires esize == 1
      ensures Len(n) == n
    {}

    /** __kfifo_poke_n. */
    method Poke(n: nat, recsize: nat)
      requires Valid() && esize == 1 && RecSize(recsize)
      modifies data
      ensures Valid() && Written(old(data[..]), data[..], Spot(in_), Header(n, recsize))
    {
      TwoFit(recsize);
      SpotMoves(in_, 1);
      ByteLen(1);
      ByteLen(mask + 1);
      SpotIn(in_);
      SpotIn(Next(in_, 1));
      hide Spot, Next, Len;
      ghost var d := data[..];
      var a, b := Spot(in_), Spot(Next(in_, 1));
      data[a] := n % 256;
      if recsize > 1 {
        data[b] := n / 256 % 256;
      }
    }

    /** __kfifo_in_r: the whole record or nothing. Whole records are in the fifo
        afterwards, this one last, if and only if its length fits the header. */
    method InR(buf: seq<Byte>, recsize: nat) returns (n: nat)
      requires Recorded(recsize)
      modifies this`in_, data
      ensures |buf| + recsize > mask + 1 - old(Used()) ==> n == 0 && in_ == old(in_) && data[..] == old(data[..])
      ensures |buf| + recsize <= mask + 1 - old(Used()) ==>
                n == |buf| && Valid() && Contents() == old(Contents()) + Header(|buf|, recsize) + buf
      ensures |buf| + recsize <= mask + 1 - old(Used()) ==>
                (Parsed(Contents(), recsize) == Some(old(Records(recsize)) + [buf]) <==> |buf| < HeaderRange(recsize))
    {
      hide Len, Spot, Next, Parsed, Header, HeaderRange;
      var room := Unused();
      if |buf| + recsize > room {
        return 0;
      }
      ghost var s := Contents();
      PutRecord(buf, recsize);
      ParsedFrames(s, recsize);
      ParsedFit(s, recsize);
      AppendedParses(Parsed(s, recsize).value, buf, recsize);
      n := |buf|;
    }

    method PutRecord(buf: seq<Byte>, recsize: nat)
      requires Valid() && esize == 1 && RecSize(recsize) && |buf| + recsize <= mask + 1 - Used()
      modifies this`in_, data
      ensures Valid() && Contents() == old(Contents()) + Header(|buf|, recsize) + buf
    {
      hide Len, Spot, Next, Header, Ring;
      ghost var used, d, n := Used(), data[..], |buf| + recsize;
      var h := Header(|buf|, recsize);
      ByteLen(used); ByteLen(used + n); ByteLen(recsize); ByteLen(mask + 1);
      UsedIs();
      SpotMoves(out, used);
      SpotMoves(in_, recsize);
      UsedMoves(n);
      Poke(|buf|, recsize);
      ghost var d1 := data[..];
      CopyIn(buf, Next(in_, recsize));
      WrittenTwice(d, d1, data[..], Spot(in_), h, buf);
      RingAppend(d, data[..], Spot(out), used, h + buf);
      in_ := Next(in_, |buf| + recsize);
      assert Contents() == Ring(d, Spot(out), used) + (h + buf);
    }

    /** __kfifo_peek_n and __kfifo_len_r: what is where the next header would be. */
    method PeekN(recsize: nat) returns (n: nat)
      requires Valid() && esize == 1 && RecSize(recsize)
      ensures recsize <= data.Length && Spot(out) < data.Length && n == Length(Ring(data[..], Spot(out), recsize))
    {
      TwoFit(recsize);
      SpotMoves(out, 1);
      ByteLen(1);
      ByteLen(mask + 1);
      SpotIn(out);
      SpotIn(Next(out, 1));
      hide Spot, Next, Len;
      ghost var r := Ring(data[..], Spot(out), recsize);
      var low: nat, high: nat := data[Spot(out)], 0;
      assert r[0] == data[Spot(out)];
      if recsize > 1 {
        high := data[Spot(Next(out, 1))];
        assert r[1] == data[Spot(Next(out, 1))];
      }
      n := low + 256 * high;
    }

    /** The next record's header and body in the contents. */
    lemma FirstRecord(recsize: nat)
      requires Recorded(recsize) && Used() > 0
      ensures var s := Contents(); var n := Length(Ring(data[..], Spot(out), recsize));
              && |s| == Used() && recsize <= data.Length && recsize + n <= Used() && Spot(out) < data.Length
              && Records(recsize) == [s[recsize..recsize + n]] + Parsed(s[recsize + n..], recsize).value
              && Parsed(s[recsize + n..], recsize).Some?
    {
      hide Spot, Len, Next, Parsed, Length;
      ByteLen(Used());
      ByteLen(recsize);
      var s := Contents();
      assert s != [];
      ParsedFirst(s, recsize);
      Splits(recsize);
      assert s[..recsize] == Ring(data[..], Spot(out), recsize);
    }

    /** kfifo_out_copy_r: up to len bytes of the next record. */
    method OutCopyR(len: nat, recsize: nat) returns (buf: seq<Byte>, n: nat)
      requires Recorded(recsize) && Used() > 0
      ensures var rs := Records(recsize); rs != [] && n == |rs[0]| && buf == (if len <= n then rs[0][..len] else rs[0])
      ensures recsize + n <= Used() && |Contents()| == Used() && Parsed(Contents()[recsize + n..], recsize) == Some(Records(recsize)[1..])
    {
      hide Len, Spot, Next, Parsed, Ring, Length;
      n := PeekN(recsize);
      FirstRecord(recsize);
      ghost var s, rs := Contents(), Records(recsize);
      assert rs[0] == s[recsize..recsize + n] && rs[1..] == Parsed(s[recsize + n..], recsize).value;
      var l := if len <= n then len else n;
      RecordPart(recsize, l);
      assert s[recsize..recsize + l] == rs[0][..l];
      buf := CopyOut(l, Next(out, recsize));
    }

    lemma RecordPart(at: nat, l: nat)
      requires Valid() && esize == 1 && at + l <= Used()
      ensures l <= data.Length && Spot(Next(out, at)) < data.Length && |Contents()| == Used()
      ensures Ring(data[..], Spot(Next(out, at)), l) == Contents()[at..at + l]
    {
      hide Len, Spot, Next, Ring;
      ByteLen(at); ByteLen(Used()); ByteLen(Used() - at); ByteLen(mask + 1);
      Splits(at);
      var start := Spot(Next(out, at));
      RingSplits(data[..], start, l, Used() - at - l);
    }

    /** __kfifo_out_peek_r. */
    method OutPeekR(len: nat, recsize: nat) returns (buf: seq<Byte>)
      requires Recorded(recsize)
      ensures Used() == 0 ==> buf == []
      ensures Used() > 0 ==> Records(recsize) != [] && buf == var r := Records(recsize)[0]; if len <= |r| then r[..len] else r
    {
      if in_ == out {
        return [];
      }
      var n;
      buf, n := OutCopyR(len, recsize);
    }

    /** __kfifo_out_r: up to len bytes of the next record, and on to the record
        after it. */
    method OutR(len: nat, recsize: nat) returns (buf: seq<Byte>)
      requires Recorded(recsize)
      modifies this`out
      ensures Recorded(recsize)
      ensures old(Records(recsize)) == [] ==> buf == [] && out == old(out)
      ensures old(Records(recsize)) != [] ==>
                var r := old(Records(recsize))[0];
                buf == (if len <= |r| then r[..len] else r) && Records(recsize) == old(Records(recsize))[1..]
    {
      hide Len, Spot, Next, Ring;
      NoRecords(recsize);
      if in_ == out {
        return [];
      }
      var n;
      buf, n := OutCopyR(len, recsize);
      TakeBytes(n + recsize);
    }

    lemma NoRecords(recsize: nat)
      requires Recorded(recsize)
      ensures Records(recsize) == [] <==> Used() == 0
      ensures Used() == 0 <==> in_ == out
    {
      ByteLen(Used());
      if Used() > 0 { FirstRecord(recsize); }
    }

    /** out += n. */
    method TakeBytes(n: nat)
      requires Valid() && esize == 1 && n <= Used()
      modifies this`out
      ensures Valid() && |old(Contents())| == old(Used()) && Contents() == old(Contents())[n..]
    {
      hide Len, Spot, Next, Ring;
      ByteLen(n); ByteLen(Used());
      Splits(n);
      UsedMoves(n);
      out := Next(out, n);
    }

    /** __kfifo_skip_r, which does not look whether there is a record: on an empty
        fifo the indices come out of step. */
    method SkipR(recsize: nat)
      requires Recorded(recsize)
      modifies this`out
      ensures Valid() <==> old(Records(recsize)) != []
      ensures old(Records(recsize)) != [] ==> Recorded(recsize) && Records(recsize) == old(Records(recsize))[1..]
    {
      hide Len, Spot, Next, Ring, Parsed, Length;
      NoRecords(recsize);
      var n := PeekN(recsize);
      if Used() == 0 {
        Overrun(n + recsize);
      } else {
        FirstRecord(recsize);
        ByteLen(n + recsize); ByteLen(Used());
        Splits(n + recsize);
        UsedMoves(n + recsize);
      }
      out := Next(out, n + recsize);
    }

    lemma Overrun(n: nat)
      requires Valid() && Used() == 0 && 0 < n < 0x1_0002
      ensures var o := Next(out, n); o < WORD && (if o <= in_ then in_ - o else in_ + WORD - o) > mask + 1
    {
      Half();
    }
  }
}
