/** The LZMA2 layer: chunk headers, chunk data in pieces of any size, and the
    dictionary output (xz_dec_lzma2_run). */
module Lzma2 {
  import opened Common
  import opened LzmaRange
  import opened LzmaSymbol
  import opened LzmaBound
  import opened LzmaDict
  import opened LzmaMachine
  import opened LzmaLocal
  import opened LzmaDecoder
  import opened LzmaChunk
  import opened LzmaWhole

  const TEMP_SIZE := 63           // 3 * LZMA_IN_REQUIRED

  class Chunk {
    const dec: Decoder
    const temp: array<Byte>
    var tempSize: nat
    var compressed: nat           // bytes of the chunk the range decoder has not taken
    ghost var m0: Machine         // the decoder when the data of the chunk began
    ghost var data: seq<Byte>     // what the range decoder took since then
    ghost var steps: nat          // symbols decoded since then
    ghost var target: nat         // length of the history when the chunk is over
    ghost var taken: seq<Byte>    // what was taken from the caller since then

    ghost function Repr(): set<object>
      reads this, dec
    {
      {this, dec, temp, dec.probs, dec.dict, dec.dict.buf}
    }

    ghost predicate Valid()
      reads this, dec, temp, dec.probs, dec.dict, dec.dict.buf
    {
      && temp.Length == TEMP_SIZE && temp != dec.dict.buf
      && dec.Ready() && dec.rc.range >= TOP
      && tempSize <= MAX_SYMBOL_BYTES && tempSize <= compressed
      && taken == data + temp[..tempSize]
      && Decoded(m0, data, dec.dict.buf.Length, steps, ShiftM(dec.MachineOf(), |data|))
      && Below(m0, data, dec.dict.buf.Length, steps, target)
    }

    constructor (size: nat)
      requires 0 < size && size % 16 == 0
      ensures Valid() && fresh(Repr()) && dec.dict.buf.Length == size && tempSize == compressed == 0
      ensures dec.len == 0 && dec.dict.hist == [] && dec.dict.start == dec.dict.pos == 0
    {
      dec := new Decoder(size);
      temp := new Byte[TEMP_SIZE](_ => 0);
      tempSize, compressed := 0, 0;
      data, steps, taken, target := [], 0, [], 0;
      new;
      m0 := ShiftM(dec.MachineOf(), 0);
      DecodedStart(m0, size);
    }

    /** The data of a chunk begin. */
    lemma Begun()
      requires temp.Length == TEMP_SIZE && temp != dec.dict.buf && dec.Ready() && dec.rc.range >= TOP
      requires tempSize == 0 && data == taken == [] && steps == 0 && m0 == ShiftM(dec.MachineOf(), 0)
      ensures Valid()
    {
      hide Decoder.Ready, MachineOk, Decoded;
      ShiftOk(dec.MachineOf(), 0);
      DecodedStart(m0, dec.dict.buf.Length);
      BelowNone(m0, data, dec.dict.buf.Length, target);
      assert temp[..0] == [];
    }

    /** memcpy into temp.buf. */
    method Save(at: nat, src: seq<Byte>)
      requires at + |src| <= temp.Length
      modifies temp
      ensures temp[..] == old(temp[..])[..at] + src + old(temp[..])[at + |src|..]
      ensures temp[..at + |src|] == old(temp[..at]) + src
    {
      for i := 0 to |src|
        invariant temp[..] == old(temp[..])[..at] + src[..i] + old(temp[..])[at + i..]
      {
        temp[at + i] := src[i];
        assert src[..i] + [src[i]] == src[..i + 1];
      }
      assert src[..|src|] == src;
    }

    /** What the dictionary has room for does not go past the end of the chunk. */
    ghost predicate Room()
      reads this, dec, dec.dict
    {
      dec.dict.pos <= dec.dict.limit <= dec.dict.buf.Length && |dec.dict.hist| + (dec.dict.limit - dec.dict.pos) <= target
    }

    /** lzma_main on `buf` from position p, which holds the next `avail` bytes of
        the chunk; succeeds only if no more than those were taken, and fails only
        if no chunk that begins with the bytes known is correct. */
    method Decode(buf: seq<Byte>, p: nat, inLimit: nat, avail: nat) returns (ok: bool, used: nat)
      requires Valid() && Room()
      requires inLimit + IN_REQUIRED <= |buf| && p + avail <= |buf| && avail <= compressed
      requires avail < compressed ==> inLimit + IN_REQUIRED <= p + avail
      modifies dec, dec.probs, dec.dict`pos, dec.dict`full, dec.dict`hist, dec.dict.buf, this`data, this`steps
      ensures dec.Valid() && dec.dict.pos <= dec.dict.limit && dec.dict.start == old(dec.dict.start)
      ensures ok ==>
                && used <= avail && dec.Ready() && dec.rc.range >= TOP
                && data == old(data) + buf[p..p + used]
                && Decoded(m0, data, dec.dict.buf.Length, steps, ShiftM(dec.MachineOf(), |data|))
                && Below(m0, data, dec.dict.buf.Length, steps, target)
                && (old(dec.dict.pos) < dec.dict.limit && p <= inLimit ==> old(dec.dict.pos) < dec.dict.pos)
      ensures !ok ==> FailsFor(m0, old(data) + buf[p..p + avail], |old(data)| + compressed, dec.dict.buf.Length, target)
      ensures |dec.dict.hist| - |old(dec.dict.hist)| == dec.dict.pos - old(dec.dict.pos) && old(dec.dict.hist) <= dec.dict.hist
    {
      hide Decoded, Agrees, Steps, MachineOk, Normalize, IsLiteralState, LzOk, ProbsOk, Below, FailsFor, LastBegan, Overtaxed;
      ghost var m := ShiftM(dec.MachineOf(), |data|);
      ShiftOk(dec.MachineOf(), |data|);
      dec.inBuf := buf;
      dec.inLimit := inLimit;
      dec.rc := dec.rc.(pos := p);
      assert dec.MachineOf() == ShiftM(m, p);
      ghost var k;
      ok, k := dec.LzmaMain();
      used := dec.rc.pos - p;
      BelowCall(m, p, buf, dec.dict.buf.Length, k, |old(dec.dict.hist)| + (dec.dict.limit - old(dec.dict.pos)), inLimit, target);
      if !ok || used > avail {
        FailedCall(m, p, buf, dec.dict.buf.Length, k, |old(dec.dict.hist)| + (dec.dict.limit - old(dec.dict.pos)),
            inLimit, avail, compressed, target);
        CallFails(m0, data, dec.dict.buf.Length, steps, m, buf, p, avail, k, |data| + compressed, target);
        ok := false;
      }
      if ok {
        ghost var m' := dec.MachineOf();
        DecodedOn(m0, data, dec.dict.buf.Length, steps, m, buf, p, k, m');
        NoneUsed(m, p, buf, dec.dict.buf.Length, k, m');
        BelowKept(m0, data, dec.dict.buf.Length, steps, m, buf, p, used, k, ShiftM(m', |data| + used), target);
        data := data + buf[p..p + used];
        steps := steps + k;
      }
    }

    /** What one call leaves behind, whether it fills temp, empties it or not. */
    ghost predicate Fed(b: XzBuf, inPos: nat, taken0: seq<Byte>)
      reads this, b
    {
      b.Valid() && inPos <= b.inPos && taken == taken0 + b.input[inPos..b.inPos]
    }

    /** Appends to temp as much as is useful; zeroes follow the end of the chunk. */
    method TopUp(src: seq<Byte>)
      requires Valid() && tempSize + |src| <= TEMP_SIZE && tempSize + |src| <= compressed
      modifies temp
      ensures Valid() && temp[..tempSize + |src|] == temp[..tempSize] + src
    {
      hide Decoded, MachineOk, ShiftM, Decoder.Ready, Dict.Valid, Below;
      ghost var m, kept := dec.MachineOf(), temp[..tempSize];
      Save(tempSize, src);
      var avail := tempSize + |src|;
      if avail == compressed {
        Save(avail, seq(TEMP_SIZE - avail, _ => 0));
      }
      assert temp[..tempSize] == temp[..avail][..tempSize] == kept;
      assert dec.MachineOf() == m;
    }

    /** Too little for a symbol: all of it stays in temp. */
    method KeepAll(src: seq<Byte>)
      requires Valid() && tempSize + |src| <= MAX_SYMBOL_BYTES && tempSize + |src| <= compressed
      requires temp[..tempSize + |src|] == temp[..tempSize] + src
      modifies this`tempSize, this`taken
      ensures Valid() && taken == old(taken) + src && tempSize == old(tempSize) + |src|
    {
      hide Decoded, MachineOk, ShiftM, Decoder.Ready, Dict.Valid, Below;
      ghost var m := dec.MachineOf();
      tempSize := tempSize + |src|;
      taken := taken + src;
      assert dec.MachineOf() == m;
    }

    lemma TempFacts()
      requires Valid()
      ensures tempSize <= MAX_SYMBOL_BYTES && tempSize <= compressed && temp.Length == TEMP_SIZE && dec.Valid()
      ensures |taken| == |data| + tempSize
    {}

    /** After lzma_main took `used` bytes of temp: drop them and go on with temp,
        or continue in the caller's buffer behind the part of `src` taken. */
    method DropUsed(used: nat, ghost src: seq<Byte>) returns (extra: nat)
      requires temp.Length == TEMP_SIZE && tempSize <= MAX_SYMBOL_BYTES && used <= tempSize + |src| <= TEMP_SIZE
      requires temp[..tempSize + |src|] == temp[..tempSize] + src
      modifies this`tempSize, temp
      ensures extra == (if used < old(tempSize) then 0 else used - old(tempSize)) && extra <= |src|
      ensures tempSize == (if used < old(tempSize) then old(tempSize) - used else 0)
      ensures old(temp[..used]) + temp[..tempSize] == old(temp[..tempSize]) + src[..extra]
    {
      DropFacts(temp[..], tempSize, used, src);
      ghost var before := temp[..];
      assert temp[..used] == before[..used] && temp[..tempSize] == before[..tempSize];
      if used < tempSize {
        var rest := temp[used..tempSize];
        assert rest == before[used..tempSize];
        tempSize := tempSize - used;
        Save(0, rest);
        extra := 0;
      } else {
        extra := used - tempSize;
        tempSize := 0;
      }
    }

    /** lzma_main on temp, which holds src behind its old contents. */
    method DecodeTemp(src: seq<Byte>, inLimit: nat) returns (ok: bool, extra: nat)
      requires Valid() && Room()
      requires tempSize + |src| <= compressed && tempSize + |src| <= TEMP_SIZE && inLimit + IN_REQUIRED <= TEMP_SIZE
      requires tempSize + |src| < compressed ==> inLimit + IN_REQUIRED <= tempSize + |src|
      requires temp[..tempSize + |src|] == temp[..tempSize] + src
      modifies this, temp, dec, dec.probs, dec.dict`pos, dec.dict`full, dec.dict`hist, dec.dict.buf
      ensures dec.Valid() && dec.dict.pos <= dec.dict.limit && dec.dict.start == old(dec.dict.start)
      ensures |dec.dict.hist| - |old(dec.dict.hist)| == dec.dict.pos - old(dec.dict.pos) && old(dec.dict.hist) <= dec.dict.hist
      ensures m0 == old(m0) && target == old(target)
      ensures !ok ==> FailsFor(m0, old(taken) + src, |old(data)| + old(compressed), dec.dict.buf.Length, target)
      ensures ok ==> Valid() && extra <= |src| && taken == old(taken) + src[..extra]
      ensures ok ==> |data| + compressed == |old(data)| + old(compressed)
      ensures ok && old(dec.dict.pos) < dec.dict.limit ==> old(dec.dict.pos) < dec.dict.pos
    {
      hide Decoded, Below, FailsFor, MachineOk, ShiftM, Decoder.Ready, Decoder.Valid;
      var used;
      extra := 0;
      assert temp[..][0..tempSize + |src|] == temp[..tempSize] + src;
      assert data + (temp[..tempSize] + src) == taken + src;
      ok, used := Decode(temp[..], 0, inLimit, tempSize + |src|);
      if ok {
        assert temp[..][0..used] == temp[..used];
        extra := Advance(used, src, old(data));
      }
    }

    /** lzma_main took `used` bytes of temp. */
    method Advance(used: nat, src: seq<Byte>, ghost data0: seq<Byte>) returns (extra: nat)
      requires temp.Length == TEMP_SIZE && temp != dec.dict.buf && dec.Ready() && dec.rc.range >= TOP
      requires tempSize <= MAX_SYMBOL_BYTES && used <= tempSize + |src| <= compressed && tempSize + |src| <= TEMP_SIZE
      requires temp[..tempSize + |src|] == temp[..tempSize] + src
      requires data == data0 + temp[..used] && taken == data0 + temp[..tempSize]
      requires Decoded(m0, data, dec.dict.buf.Length, steps, ShiftM(dec.MachineOf(), |data|))
      requires Below(m0, data, dec.dict.buf.Length, steps, target)
      modifies this`compressed, this`tempSize, this`taken, temp
      ensures Valid() && extra <= |src| && taken == old(taken) + src[..extra] && compressed == old(compressed) - used
    {
      hide Decoded, Below, MachineOk, ShiftM, Decoder.Ready;
      ghost var m := dec.MachineOf();
      compressed := compressed - used;
      ghost var part, kept := temp[..used], temp[..tempSize];
      extra := DropUsed(used, src);
      assert part + temp[..tempSize] == kept + src[..extra];
      assert data + temp[..tempSize] == data0 + (part + temp[..tempSize]);
      assert taken + src[..extra] == data0 + (kept + src[..extra]);
      taken := taken + src[..extra];
      assert dec.MachineOf() == m;
    }

    /** The first part of lzma2_lzma: the decoder reads from temp. */
    method FromTemp(b: XzBuf) returns (ok: bool, done: bool)
      requires Valid() && b.Valid() && Room()
      requires tempSize > 0 || compressed == 0
      modifies this, temp, dec, dec.probs, dec.dict`pos, dec.dict`full, dec.dict`hist, dec.dict.buf, b`inPos
      ensures dec.Valid() && dec.dict.pos <= dec.dict.limit && dec.dict.start == old(dec.dict.start)
      ensures |dec.dict.hist| - |old(dec.dict.hist)| == dec.dict.pos - old(dec.dict.pos) && old(dec.dict.hist) <= dec.dict.hist
      ensures m0 == old(m0) && target == old(target)
      ensures !ok ==> Fails(m0, old(taken) + b.input[old(b.inPos)..], |old(data)| + old(compressed), dec.dict.buf.Length, target)
      ensures ok ==> Valid() && Fed(b, old(b.inPos), old(taken)) && |data| + compressed == |old(data)| + old(compressed)
      ensures !done ==> ok && tempSize == 0
      ensures ok && old(dec.dict.pos) < dec.dict.limit ==>
                old(dec.dict.pos) < dec.dict.pos || (done && b.inPos == |b.input| && tempSize < compressed)
    {
      hide Valid, Decoder.Valid, FailsFor, Fails;
      TempFacts();
      var tmp: nat := Min(Min(2 * IN_REQUIRED - tempSize, compressed - tempSize), |b.input| - b.inPos);
      var src := b.input[b.inPos..b.inPos + tmp];
      TopUp(src);
      var avail := tempSize + tmp;
      if avail != compressed && avail < IN_REQUIRED {
        KeepAll(src);
        TempFacts();
        b.inPos := b.inPos + tmp;
        return true, true;
      }
      var extra;
      ok, extra := DecodeTemp(src, if avail == compressed then avail else avail - IN_REQUIRED);
      done := !ok || tempSize > 0;
      if ok {
        b.inPos := b.inPos + extra;
        assert b.input[old(b.inPos)..b.inPos] == src[..extra];
      } else {
        ghost var seen := old(taken) + b.input[old(b.inPos)..];
        assert old(taken) + src == seen[..|old(taken)| + tmp];
        FailsMore(m0, old(taken) + src, |old(data)| + old(compressed), dec.dict.buf.Length, target, seen);
      }
    }

    /** The second part: the decoder reads from the caller's buffer. */
    method FromInput(b: XzBuf) returns (ok: bool)
      requires Valid() && b.Valid() && Room()
      requires tempSize == 0 && |b.input| - b.inPos >= IN_REQUIRED
      modifies this, dec, dec.probs, dec.dict`pos, dec.dict`full, dec.dict`hist, dec.dict.buf, b`inPos
      ensures dec.Valid() && dec.dict.pos <= dec.dict.limit && dec.dict.start == old(dec.dict.start)
      ensures |dec.dict.hist| - |old(dec.dict.hist)| == dec.dict.pos - old(dec.dict.pos) && old(dec.dict.hist) <= dec.dict.hist
      ensures m0 == old(m0) && tempSize == 0 && target == old(target)
      ensures !ok ==> Fails(m0, old(taken) + b.input[old(b.inPos)..], |old(data)| + old(compressed), dec.dict.buf.Length, target)
      ensures ok ==> Valid() && Fed(b, old(b.inPos), old(taken)) && |data| + compressed == |old(data)| + old(compressed)
      ensures ok && old(dec.dict.pos) < dec.dict.limit ==> old(dec.dict.pos) < dec.dict.pos
    {
      hide Decoded, Below, FailsFor, Fails, MachineOk, ShiftM, Decoder.Ready, Decoder.Valid;
      var inAvail := |b.input| - b.inPos;
      var inLimit := if inAvail >= compressed + IN_REQUIRED then b.inPos + compressed else |b.input| - IN_REQUIRED;
      var used;
      ok, used := Decode(b.input, b.inPos, inLimit, Min(compressed, inAvail));
      if ok {
        ghost var m := dec.MachineOf();
        compressed := compressed - used;
        b.inPos := b.inPos + used;
        taken := taken + b.input[old(b.inPos)..b.inPos];
        assert dec.MachineOf() == m;
        assert temp[..0] == [];
      } else {
        ghost var a := Min(old(compressed), inAvail);
        ghost var seen := old(taken) + b.input[old(b.inPos)..];
        assert old(taken) == old(data) + old(temp[..tempSize]) == old(data);
        KnownPart(old(data), b.input, old(b.inPos), a);
        ghost var known := old(data) + b.input[old(b.inPos)..old(b.inPos) + a];
        FailsMore(m0, known, |old(data)| + old(compressed), dec.dict.buf.Length, target, seen);
      }
    }

    /** The last part: too little input for a symbol is kept for the next call. */
    method SaveRest(b: XzBuf)
      requires Valid() && b.Valid() && tempSize == 0 && |b.input| - b.inPos < IN_REQUIRED
      modifies this`tempSize, this`taken, temp, b`inPos
      ensures Valid() && Fed(b, old(b.inPos), old(taken))
      ensures b.inPos == |b.input| || tempSize == compressed
      ensures tempSize == b.inPos - old(b.inPos)
    {
      hide Decoded, Agrees, LzOk, ProbsOk, RcOk, IsLiteralState, MachineOk, PropsOk, ShiftM, Decoder.Ready, Dict.Valid, Below;
      ghost var m := dec.MachineOf();
      var n := Min(|b.input| - b.inPos, compressed);
      var src := b.input[b.inPos..b.inPos + n];
      assert temp[..0] == [] && taken == data + [] == data;
      Save(0, src);
      SavedAll(temp[..n], [], src);
      assert dec.MachineOf() == m;
      tempSize := n;
      taken := taken + src;
      b.inPos := b.inPos + n;
    }

    /** lzma2_lzma. Each byte goes from the caller to the range decoder or to
        temp, in order; with space in the dictionary, the call writes something,
        takes some input, or has used up the input without the whole chunk. */
    method Feed(b: XzBuf) returns (ok: bool)
      requires Valid() && b.Valid() && Room()
      modifies this, temp, dec, dec.probs, dec.dict`pos, dec.dict`full, dec.dict`hist, dec.dict.buf, b`inPos
      ensures dec.Valid() && dec.dict.pos <= dec.dict.limit && dec.dict.start == old(dec.dict.start)
      ensures |dec.dict.hist| - |old(dec.dict.hist)| == dec.dict.pos - old(dec.dict.pos) && old(dec.dict.hist) <= dec.dict.hist
      ensures m0 == old(m0) && target == old(target)
      ensures !ok ==> Fails(m0, old(taken) + b.input[old(b.inPos)..], |old(data)| + old(compressed), dec.dict.buf.Length, target)
      ensures ok ==> Valid() && Fed(b, old(b.inPos), old(taken)) && |data| + compressed == |old(data)| + old(compressed)
      ensures ok && old(dec.dict.pos) < dec.dict.limit ==>
                old(dec.dict.pos) < dec.dict.pos || old(b.inPos) < b.inPos || (b.inPos == |b.input| && tempSize < compressed)
    {
      hide Valid, Decoder.Valid, Fails;
      TempFacts();
      if tempSize > 0 || compressed == 0 {
        var done;
        ok, done := FromTemp(b);
        if done {
          return;
        }
      }
      ghost var mid, takenMid := b.inPos, taken;
      ok := FromCaller(b);
      if ok {
        FedTrans(b, old(b.inPos), mid, old(taken), takenMid);
      } else {
        assert takenMid + b.input[mid..] == old(taken) + b.input[old(b.inPos)..] by {
          assert b.input[old(b.inPos)..] == b.input[old(b.inPos)..mid] + b.input[mid..];
        }
      }
    }

    /** The second and the last part, with temp empty. */
    method FromCaller(b: XzBuf) returns (ok: bool)
      requires Valid() && b.Valid() && Room() && tempSize == 0
      modifies this, temp, dec, dec.probs, dec.dict`pos, dec.dict`full, dec.dict`hist, dec.dict.buf, b`inPos
      ensures dec.Valid() && dec.dict.pos <= dec.dict.limit && dec.dict.start == old(dec.dict.start)
      ensures |dec.dict.hist| - |old(dec.dict.hist)| == dec.dict.pos - old(dec.dict.pos) && old(dec.dict.hist) <= dec.dict.hist
      ensures m0 == old(m0) && target == old(target)
      ensures !ok ==> Fails(m0, old(taken) + b.input[old(b.inPos)..], |old(data)| + old(compressed), dec.dict.buf.Length, target)
      ensures ok ==> Valid() && Fed(b, old(b.inPos), old(taken)) && |data| + compressed == |old(data)| + old(compressed)
      ensures ok && old(dec.dict.pos) < dec.dict.limit && old(compressed) > 0 ==>
                old(dec.dict.pos) < dec.dict.pos || old(b.inPos) < b.inPos || (b.inPos == |b.input| && tempSize < compressed)
    {
      hide Valid, Decoder.Valid, Fails;
      TempFacts();
      ok := true;
      if |b.input| - b.inPos >= IN_REQUIRED {
        ok := FromInput(b);
        if !ok {
          return;
        }
      }
      ghost var mid, takenMid := b.inPos, taken;
      if |b.input| - b.inPos < IN_REQUIRED {
        SaveRest(b);
        TempFacts();
        FedTrans(b, old(b.inPos), mid, old(taken), takenMid);
      }
    }

    /** dict_limit; the decoder is not touched. */
    method LimitTo(outMax: nat)
      requires Valid()
      modifies dec.dict`limit
      ensures Valid() && dec.dict.limit == Min(dec.dict.buf.Length, dec.dict.pos + outMax)
      ensures dec.dict.pos <= dec.dict.limit <= dec.dict.buf.Length
    {
      hide Decoded, Agrees, LzOk, ProbsOk, RcOk, IsLiteralState, MachineOk;
      ghost var m := dec.MachineOf();
      dec.dict.SetLimit(outMax);
      assert dec.MachineOf() == m;
    }

    lemma Means()
      requires Valid()
      ensures temp.Length == TEMP_SIZE && temp != dec.dict.buf && dec.Valid() && dec.Ready() && dec.dict.Valid() && dec.len <= 273
    {}

    /** dict_flush; the decoder is not touched. */
    method FlushTo(b: XzBuf) returns (n: nat)
      requires Valid() && b.Valid() && b.out != dec.dict.buf && b.out != temp
      requires dec.dict.pos - dec.dict.start <= b.out.Length - b.outPos
      modifies dec.dict`pos, dec.dict`start, b`outPos, b.out
      ensures Valid() && b.Valid() && dec.dict.start == dec.dict.pos < dec.dict.buf.Length && dec.dict.hist == old(dec.dict.hist)
      ensures n == old(dec.dict.pos) - old(dec.dict.start) <= |dec.dict.hist| && b.outPos == old(b.outPos) + n
      ensures b.out[..b.outPos] == old(b.out[..b.outPos]) + dec.dict.hist[|dec.dict.hist| - n..]
    {
      hide Decoded, Agrees, LzOk, ProbsOk, RcOk, IsLiteralState, MachineOk;
      ghost var m := dec.MachineOf();
      n := dec.dict.Flush(b);
      assert dec.MachineOf() == m;
    }

    lemma FedTrans(b: XzBuf, a: nat, m: nat, takenA: seq<Byte>, takenM: seq<Byte>)
      requires a <= m <= |b.input| && takenM == takenA + b.input[a..m] && Fed(b, m, takenM)
      ensures Fed(b, a, takenA)
    {
      assert b.input[a..m] + b.input[m..b.inPos] == b.input[a..b.inPos];
    }
  }

  lemma BelowNone(m: Machine, inp: seq<Byte>, size: nat, target: nat)
    requires MachineOk(m)
    ensures Below(m, inp, size, 0, target)
  {}

  /** What lzma_main says of its last symbol, for the chunk. */
  lemma BelowCall(m: Machine, p: nat, buf: seq<Byte>, size: nat, k: nat, bound: nat, inLimit: nat, target: nat)
    requires MachineOk(ShiftM(m, p)) && bound <= target
    requires k > 0 ==> LastBegan(ShiftM(m, p), buf, size, k, bound, inLimit)
    ensures Below(ShiftM(m, p), buf, size, k, target)
  {
    hide Steps, MachineOk;
  }

  lemma FailedCall(m: Machine, p: nat, buf: seq<Byte>, size: nat, k: nat, bound: nat, inLimit: nat, a: nat, rest: nat, target: nat)
    requires MachineOk(ShiftM(m, p)) && a <= rest && (a < rest ==> inLimit + IN_REQUIRED <= p + a) && m.core.rc.range >= TOP
    requires k > 0 ==> LastBegan(ShiftM(m, p), buf, size, k, bound, inLimit)
    requires var r := Steps(ShiftM(m, p), buf, size, k);
             if r.Some? then p + a < LzmaMachine.Ahead(r.value, buf).core.rc.pos <= Max(p, inLimit + IN_REQUIRED) else k > 0
    ensures Overtaxed(m, buf, size, p, a, rest, k)
  {
    hide MachineOk, Step;
  }

  lemma NoneUsed(m: Machine, p: nat, buf: seq<Byte>, size: nat, k: nat, m': Machine)
    requires MachineOk(ShiftM(m, p)) && m.core.rc.range >= TOP && Steps(ShiftM(m, p), buf, size, k).Some?
    requires m' == LzmaMachine.Ahead(Steps(ShiftM(m, p), buf, size, k).value, buf)
    ensures k == 0 ==> m'.core.rc.pos == p
  {
    hide MachineOk, Step;
  }

  lemma KnownPart(data: seq<Byte>, input: seq<Byte>, p: nat, a: nat)
    requires p + a <= |input|
    ensures data + input[p..p + a] <= data + input[p..]
  {
    assert input[p..p + a] == input[p..][..a];
  }

  lemma SavedAll(t: seq<Byte>, none: seq<Byte>, src: seq<Byte>)
    requires none == [] && t == none + src
    ensures t == src
  {}

  lemma DropFacts(t: seq<Byte>, size: nat, used: nat, src: seq<Byte>)
    requires size + |src| <= |t| && used <= size + |src| && t[..size + |src|] == t[..size] + src
    ensures used < size ==> [] + t[used..size] == t[used..size] && t[..used] + t[used..size] == t[..size] + src[..0]
    ensures used >= size ==> t[..used] + [] == t[..size] + src[..used - size]
  {
    if used >= size {
      assert t[..used] == t[..size + |src|][..used];
    }
  }
}
