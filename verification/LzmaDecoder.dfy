/** The LZMA decoder of xz_dec_lzma2.c: registers, probabilities and dictionary
    updated in place, proved against the symbol functions of LzmaSymbol. */
module LzmaDecoder {
  import opened Common
  import opened LzmaRange
  import opened LzmaSymbol
  import opened LzmaBound
  import opened LzmaDict
  import opened LzmaMachine

  class Decoder {
    var rc: Rc                  // range, code and in_pos
    var inBuf: seq<Byte>        // rc->in: the temp buffer or the caller's
    var inLimit: nat
    var lz: Lz
    var len: nat                // bytes of a match still to be repeated
    const probs: array<nat>       // PROBS_TOTAL of them
    const dict: Dict

    ghost predicate Valid()
      reads this, probs, dict, dict.buf
    {
      RcOk(rc) && ProbsOk(probs[..]) && LzOk(lz) && dict.Valid()
    }

    ghost function CoreOf(): Core
      reads this, probs
    {
      Core(rc, probs[..])
    }

    constructor (size: nat)
      requires 0 < size && size % 16 == 0
      ensures Valid() && fresh(probs) && fresh(dict) && fresh(dict.buf) && dict.buf.Length == size
      ensures len == 0 && dict.hist == [] && dict.start == dict.pos == 0 && rc.range >= TOP && Ready()
    {
      probs := new nat[PROBS_TOTAL](_ => TOTAL / 2);
      dict := new Dict(size);
      rc := Rc(TWO32 - 1, 0, 0);
      inBuf := [];
      inLimit := 0;
      len := 0;
      lz := Lz(0, 0, 0, 0, 0, 0, 0, 0);
      new;
      Pow2Small();
    }

    /** rc_normalize. */
    method RcNormalize()
      requires rc.range < TOP ==> rc.pos < |inBuf|
      modifies this`rc
      ensures rc == Normalize(old(rc), inBuf)
    {
      if rc.range < TOP {
        rc := Rc((rc.range * 256) % TWO32, (rc.code * 256) % TWO32 + inBuf[rc.pos], rc.pos + 1);
      }
    }

    /** rc_bit. `start`, p and d count what was decoded since the symbol began. */
    method RcBit(i: nat, ghost start: nat, ghost p: nat, ghost d: nat) returns (bit: nat)
      requires RcOk(rc) && ProbsOk(probs[..]) && i < PROBS_TOTAL
      requires Within(rc, start, p, d) && RoomFor(p, d) && start + MAX_SYMBOL_BYTES <= |inBuf|
      modifies this`rc, probs
      ensures RcOk(rc) && ProbsOk(probs[..]) && Within(rc, start, p + 1, d)
      ensures (CoreOf(), bit) == Bit(old(CoreOf()), inBuf, i)
    {
      ghost var c := CoreOf();
      BitWithin(c, inBuf, i, start, p, d);
      BitKeeps(rc, inBuf, probs[i]);
      ShareBound(Normalize(rc, inBuf).range, probs[i]);
      hide Within, Floor;
      RcNormalize();
      var prob := probs[i];
      var bound := (rc.range / TOTAL) * prob;
      if rc.code < bound {
        rc := Rc(bound, rc.code, rc.pos);
        probs[i] := prob + (TOTAL - prob) / 32;
        bit := 0;
      } else {
        rc := Rc(rc.range - bound, rc.code - bound, rc.pos);
        probs[i] := prob - prob / 32;
        bit := 1;
      }
      assert probs[..] == c.probs[i := Adapt(prob, bit)];
    }

    /** rc_bittree. */
    method RcBitTree(base: nat, limit: nat, ghost n: nat, ghost start: nat, ghost p: nat) returns (symbol: nat)
      requires RcOk(rc) && ProbsOk(probs[..]) && limit == Pow2(n) && n > 0 && base + limit <= PROBS_TOTAL
      requires Within(rc, start, p, 0) && p + n <= 23 && start + MAX_SYMBOL_BYTES <= |inBuf|
      modifies this`rc, probs
      ensures RcOk(rc) && ProbsOk(probs[..]) && Within(rc, start, p + n, 0)
      ensures (CoreOf(), symbol) == BitTree(old(CoreOf()), inBuf, base, limit, 1)
    {
      hide Within, Floor, Bit, Normalize, ProbsOk, BitTree, RcOk;
      symbol := 1;
      ghost var i: nat := 0;
      while symbol < limit
        invariant RcOk(rc) && ProbsOk(probs[..]) && i <= n && Pow2(i) <= symbol < 2 * Pow2(i)
        invariant Within(rc, start, p + i, 0)
        invariant BitTree(CoreOf(), inBuf, base, limit, symbol) == BitTree(old(CoreOf()), inBuf, base, limit, 1)
        decreases limit - symbol
      {
        BitTreeUnroll(CoreOf(), inBuf, base, limit, symbol);
        var bit := RcBit(base + symbol, start, p + i, 0);
        if bit != 0 {
          symbol := symbol * 2 + 1;
        } else {
          symbol := symbol * 2;
        }
        i := i + 1;
        if i > n { Pow2Mono(n, i); }
      }
      if i < n { Pow2Mono(i, n); }
      BitTreeUnroll(CoreOf(), inBuf, base, limit, symbol);
    }

    /** rc_bittree_reverse. */
    method RcBitTreeReverse(base: nat, dest: nat, limit: nat, ghost start: nat, ghost p: nat, ghost d: nat) returns (r: nat)
      requires RcOk(rc) && ProbsOk(probs[..]) && 0 < limit && base + Pow2(limit) <= PROBS_TOTAL && d <= 26
      requires Within(rc, start, p, d) && (p + limit <= 22 || (p + limit <= 23 && d == 0)) && start + MAX_SYMBOL_BYTES <= |inBuf|
      modifies this`rc, probs
      ensures RcOk(rc) && ProbsOk(probs[..]) && Within(rc, start, p + limit, d)
      ensures (CoreOf(), r) == BitTreeReverse(old(CoreOf()), inBuf, base, dest, limit, 0, 1)
    {
      hide Within, Floor, Bit, Normalize, ProbsOk, BitTreeReverse, RcOk;
      var symbol := 1;
      var i := 0;
      r := dest;
      while i < limit
        invariant RcOk(rc) && ProbsOk(probs[..]) && i <= limit && Pow2(i) <= symbol < 2 * Pow2(i)
        invariant Within(rc, start, p + i, d)
        invariant BitTreeReverse(CoreOf(), inBuf, base, r, limit, i, symbol) == BitTreeReverse(old(CoreOf()), inBuf, base,
                  dest, limit, 0, 1)
      {
        Pow2Mono(i, limit);
        ReverseUnroll(CoreOf(), inBuf, base, r, limit, i, symbol);
        var bit := RcBit(base + symbol, start, p + i, d);
        if bit != 0 {
          symbol := symbol * 2 + 1;
          r := r + Pow2(i);
        } else {
          symbol := symbol * 2;
        }
        i := i + 1;
      }
      ReverseUnroll(CoreOf(), inBuf, base, r, limit, i, symbol);
    }

    /** One direct bit. */
    method RcDirectBit(ghost start: nat, ghost p: nat, ghost d: nat) returns (bit: nat)
      requires RcOk(rc) && Within(rc, start, p, d) && p <= 21 && d <= 25 && start + MAX_SYMBOL_BYTES <= |inBuf|
      modifies this`rc
      ensures RcOk(rc) && Within(rc, start, p, d + 1)
      ensures (rc, bit) == DirectRc(old(rc), inBuf)
    {
      DirectWithin(rc, inBuf, start, p, d);
      hide Within;
      RcNormalize();
      var half := rc.range / 2;
      var diff := (rc.code + TWO32 - half % TWO32) % TWO32;
      var negative := diff >= TWO32 / 2;      // the mask is all ones
      rc := Rc(half, if negative then (diff + half) % TWO32 else diff, rc.pos);
      bit := if negative then 0 else 1;
      WithinOk(rc, start, p, d + 1);
    }

    /** rc_direct. */
    method RcDirect(dest: nat, limit: nat, ghost start: nat, ghost p: nat) returns (r: nat)
      requires RcOk(rc) && ProbsOk(probs[..]) && limit <= 26 && p <= 21
      requires Within(rc, start, p, 0) && start + MAX_SYMBOL_BYTES <= |inBuf|
      modifies this`rc
      ensures RcOk(rc) && Within(rc, start, p, limit)
      ensures (CoreOf(), r) == Direct(old(CoreOf()), inBuf, dest, limit)
    {
      hide Within, Pow2, DirectRc, ProbsOk, Normalize;
      r := dest;
      var i := 0;
      while i < limit
        invariant RcOk(rc) && i <= limit && probs[..] == old(probs[..])
        invariant Within(rc, start, p, i)
        invariant Direct(CoreOf(), inBuf, r, limit - i) == Direct(old(CoreOf()), inBuf, dest, limit)
      {
        var bit := RcDirectBit(start, p, i);
        r := 2 * r + bit;
        i := i + 1;
      }
    }

    /** lzma_literal without its dict_put: the byte and the new state. */
    method LzmaLiteral(ghost start: nat) returns (byte: Byte)
      requires Valid() && (!IsLiteralState(lz.state) ==> lz.rep0 < dict.full)
      requires Within(rc, start, 1, 0) && start + MAX_SYMBOL_BYTES <= |inBuf|
      modifies this`rc, this`lz, probs
      ensures RcOk(rc) && ProbsOk(probs[..]) && LzOk(lz)
      ensures dict.full <= |dict.hist| && (!IsLiteralState(old(lz).state) ==> old(lz).rep0 < |dict.hist|)
      ensures (CoreOf(), byte) == LiteralSymbol(old(CoreOf()), old(lz), inBuf, dict.hist)
      ensures lz == old(lz).(state := StateLiteral(old(lz).state))
    {
      hide Within, Floor, Bit, Normalize, BitTree, MatchedLiteral, Agrees;
      HistFacts();
      StateTracksLatest(lz.state);
      var prev := dict.Get(0);
      var base := LiteralBase(lz, prev, dict.pos);
      assert base == LiteralBase(lz, prev, |dict.hist|) by { ContextBits(lz.lpMask, dict.pos, |dict.hist|); }
      assert Pow2(8) == 256;
      if IsLiteralState(lz.state) {
        var symbol := RcBitTree(base, 0x100, 8, start, 1);
        byte := symbol - 0x100;
      } else {
        var matchByte := dict.Get(lz.rep0);
        var symbol := LzmaMatchedLiteral(base, matchByte, start);
        byte := symbol - 0x100;
      }
      lz := lz.(state := StateLiteral(lz.state));
    }

    lemma HistFacts()
      requires dict.Valid()
      ensures dict.full <= |dict.hist| && (dict.full > 0 || dict.hist == []) && |dict.hist| % 16 == dict.pos % 16
      ensures dict.pos <= dict.buf.Length && dict.full <= dict.buf.Length
    {}

    /** The loop of lzma_literal with a match byte. */
    method LzmaMatchedLiteral(base: nat, matchByte: Byte, ghost start: nat) returns (symbol: nat)
      requires RcOk(rc) && ProbsOk(probs[..]) && base + 0x300 <= PROBS_TOTAL
      requires Within(rc, start, 1, 0) && start + MAX_SYMBOL_BYTES <= |inBuf|
      modifies this`rc, probs
      ensures RcOk(rc) && ProbsOk(probs[..])
      ensures (CoreOf(), symbol) == MatchedLiteral(old(CoreOf()), inBuf, base, 2 * matchByte, 0x100, 1)
    {
      hide Within, Floor, Bit, Normalize, ProbsOk, MatchedLiteral, RcOk;
      symbol := 1;
      var m: nat := 2 * matchByte;
      var offset: nat := 0x100;
      ghost var i: nat := 0;
      assert Pow2(8) == 256;
      while symbol < 0x100
        invariant RcOk(rc) && ProbsOk(probs[..]) && i <= 8 && Pow2(i) <= symbol < 2 * Pow2(i)
        invariant offset == 0 || offset == 0x100
        invariant Within(rc, start, 1 + i, 0)
        invariant MatchedLiteral(CoreOf(), inBuf, base, m, offset, symbol) ==
                  MatchedLiteral(old(CoreOf()), inBuf, base, 2 * matchByte, 0x100, 1)
        decreases 0x100 - symbol
      {
        MatchedUnroll(CoreOf(), inBuf, base, m, offset, symbol);
        var matchBit := MatchBit(m, offset);   // match_byte & offset
        m := m * 2;
        var bit := RcBit(base + offset + matchBit + symbol, start, 1 + i, 0);
        if bit != 0 {
          symbol := symbol * 2 + 1;
          offset := matchBit;
        } else {
          symbol := symbol * 2;
          offset := offset - matchBit;
        }
        i := i + 1;
        if i > 8 { Pow2Mono(8, i); }
      }
      MatchedUnroll(CoreOf(), inBuf, base, m, offset, symbol);
    }

    /** lzma_len. */
    method LzmaLen(base: nat, posState: nat, ghost start: nat, ghost p: nat) returns (n: nat)
      requires RcOk(rc) && ProbsOk(probs[..]) && posState < 16 && base + 514 <= PROBS_TOTAL
      requires Within(rc, start, p, 0) && p <= 8 && start + MAX_SYMBOL_BYTES <= |inBuf|
      modifies this`rc, probs
      ensures RcOk(rc) && ProbsOk(probs[..]) && Within(rc, start, p + 10, 0)
      ensures (CoreOf(), n) == LenSymbol(old(CoreOf()), inBuf, base, posState)
    {
      hide Within, Floor, Bit, Normalize, ProbsOk, RcOk, BitTree;
      Pow2Small();
      assert Pow2(8) == 256;
      var choice := RcBit(base + LEN_CHOICE, start, p, 0);
      if choice == 0 {
        var s := RcBitTree(base + LEN_LOW + 8 * posState, 8, 3, start, p + 1);
        WithinMore(rc, start, p + 4, 0, p + 10, 0);
        n := 2 + s - 8;
      } else {
        var choice2 := RcBit(base + LEN_CHOICE2, start, p + 1, 0);
        if choice2 == 0 {
          var s := RcBitTree(base + LEN_MID + 8 * posState, 8, 3, start, p + 2);
          WithinMore(rc, start, p + 5, 0, p + 10, 0);
          n := 10 + s - 8;
        } else {
          var s := RcBitTree(base + LEN_HIGH, 256, 8, start, p + 2);
          n := 18 + s - 256;
        }
      }
    }

    /** The distance part of lzma_match. */
    method LzmaDist(n: nat, ghost start: nat) returns (dist: nat)
      requires RcOk(rc) && ProbsOk(probs[..]) && n >= 2
      requires Within(rc, start, 12, 0) && start + MAX_SYMBOL_BYTES <= |inBuf|
      modifies this`rc, probs
      ensures RcOk(rc) && ProbsOk(probs[..])
      ensures (CoreOf(), dist) == DistSymbol(old(CoreOf()), inBuf, n)
    {
      hide Within, Floor, Bit, Normalize, ProbsOk, BitTree, BitTreeReverse, Direct;
      Pow2Small();
      assert Pow2(6) == 64;
      var s := RcBitTree(DIST_SLOT + 64 * DistState(n), 64, 6, start, 12);
      var slot := s - 64;
      if slot < 4 {
        dist := slot;
      } else {
        var limit := slot / 2 - 1;
        if slot < 14 {
          SpecialIndex(slot);
          var rep := (2 + slot % 2) * Pow2(limit);
          dist := RcBitTreeReverse(DIST_SPECIAL + rep - slot - 1, rep, limit, start, 18, 0);
        } else {
          var d := RcDirect(2 + slot % 2, limit - 4, start, 18);
          dist := RcBitTreeReverse(DIST_ALIGN, 16 * d, 4, start, 18, limit - 4);
        }
      }
    }

    /** lzma_match. */
    method LzmaMatch(posState: nat, ghost start: nat)
      requires RcOk(rc) && ProbsOk(probs[..]) && LzOk(lz) && posState < 16
      requires Within(rc, start, 2, 0) && start + MAX_SYMBOL_BYTES <= |inBuf|
      modifies this`rc, this`lz, this`len, probs
      ensures RcOk(rc) && ProbsOk(probs[..]) && LzOk(lz)
      ensures (CoreOf(), lz, len) == MatchSymbol(old(CoreOf()), old(lz), inBuf, posState)
    {
      hide Within, Floor, Bit, Normalize, ProbsOk, LenSymbol, DistSymbol;
      StateTracksLatest(lz.state);
      lz := lz.(state := StateMatch(lz.state));
      lz := lz.(rep3 := lz.rep2);
      lz := lz.(rep2 := lz.rep1);
      lz := lz.(rep1 := lz.rep0);
      len := LzmaLen(MATCH_LEN, posState, start, 2);
      var dist := LzmaDist(len, start);
      lz := lz.(rep0 := dist);
    }

    /** lzma_rep_match. */
    method LzmaRepMatch(posState: nat, ghost start: nat)
      requires RcOk(rc) && ProbsOk(probs[..]) && LzOk(lz) && posState < 16
      requires Within(rc, start, 2, 0) && start + MAX_SYMBOL_BYTES <= |inBuf|
      modifies this`rc, this`lz, this`len, probs
      ensures RcOk(rc) && ProbsOk(probs[..]) && LzOk(lz)
      ensures (CoreOf(), lz, len) == RepMatchSymbol(old(CoreOf()), old(lz), inBuf, posState)
    {
      hide Within, Floor, Bit, Normalize, ProbsOk, LenSymbol;
      StateTracksLatest(lz.state);
      var s := lz.state;
      ghost var p := 4;
      var b := RcBit(IS_REP0 + s, start, 2, 0);
      if b == 0 {
        var long := RcBit(IS_REP0_LONG + 16 * s + posState, start, 3, 0);
        if long == 0 {
          lz := lz.(state := StateShortRep(s));
          len := 1;
          return;
        }
      } else {
        var tmp;
        var b1 := RcBit(IS_REP1 + s, start, 3, 0);
        if b1 == 0 {
          tmp := lz.rep1;
        } else {
          var b2 := RcBit(IS_REP2 + s, start, 4, 0);
          p := 5;
          if b2 == 0 {
            tmp := lz.rep2;
          } else {
            tmp := lz.rep3;
            lz := lz.(rep3 := lz.rep2);
          }
          lz := lz.(rep2 := lz.rep1);
        }
        lz := lz.(rep1 := lz.rep0);
        lz := lz.(rep0 := tmp);
      }
      lz := lz.(state := StateLongRep(s));
      len := LzmaLen(REP_LEN, posState, start, p);
    }

    /** The history once the pending part of the last match is repeated. */
    ghost function HistAhead(): seq<Byte>
      requires len > 0 ==> lz.rep0 < |dict.hist|
      reads this, dict
    {
      if len == 0 then dict.hist else CopyFrom(dict.hist, lz.rep0, len)
    }

    /** Between symbols: the last non-literal symbol and a pending repeat refer
        to bytes that are in the dictionary. */
    ghost predicate Ready()
      reads this, probs, dict, dict.buf
    {
      && Valid() && len <= 273
      && (!IsLiteralState(lz.state) ==> lz.rep0 < dict.full)
      && (len > 0 ==> lz.rep0 < dict.full)
    }

    ghost function MachineOf(): (m: Machine)
      requires Ready()
      reads this, probs, dict, dict.buf
      ensures MachineOk(m)
    {
      HistFacts();
      Machine(CoreOf(), lz, HistAhead())
    }

    /** The bits of one symbol. */
    method NextSymbol() returns (lit: bool, byte: Byte)
      requires Ready() && len == 0 && rc.pos + MAX_SYMBOL_BYTES <= |inBuf|
      modifies this`rc, this`lz, this`len, probs
      ensures RcOk(rc) && ProbsOk(probs[..]) && LzOk(lz)
      ensures dict.full <= |dict.hist| && (!IsLiteralState(old(lz).state) ==> old(lz).rep0 < |dict.hist|)
      ensures (CoreOf(), lz, if lit then Lit(byte) else Copy(len)) == Symbol(old(CoreOf()), old(lz), inBuf, dict.hist)
      ensures lit ==> len == 0
    {
      hide Within, Floor, Bit, Normalize, Agrees, LiteralSymbol, NonLiteralSymbol, ProbsOk, RcOk;
      HistFacts();
      ghost var start := rc.pos;
      StartWithin(rc);
      byte := 0;
      ContextBits(lz.pbMask, dict.pos, |dict.hist|);
      var posState := PosState(lz, dict.pos);
      assert posState == PosState(lz, |dict.hist|);
      hide PosState, PropsOk;
      var isMatch := RcBit(IS_MATCH + 16 * lz.state + posState, start, 0, 0);
      hide LzOk, IsLiteralState, StateLiteral;
      if isMatch == 0 {
        byte := LzmaLiteral(start);
        lit := true;
      } else {
        lit := false;
        LzmaNonLiteral(posState, start);
      }
    }

    method LzmaNonLiteral(posState: nat, ghost start: nat)
      requires RcOk(rc) && ProbsOk(probs[..]) && LzOk(lz) && posState < 16
      requires Within(rc, start, 1, 0) && start + MAX_SYMBOL_BYTES <= |inBuf|
      modifies this`rc, this`lz, this`len, probs
      ensures RcOk(rc) && ProbsOk(probs[..]) && LzOk(lz)
      ensures (CoreOf(), lz, len) == NonLiteralSymbol(old(CoreOf()), old(lz), inBuf, posState)
    {
      hide Within, Floor, Bit, Normalize, ProbsOk, RcOk, RepMatchSymbol, MatchSymbol, PropsOk;
      var isRep := RcBit(IS_REP + lz.state, start, 1, 0);
      if isRep != 0 {
        LzmaRepMatch(posState, start);
      } else {
        LzmaMatch(posState, start);
      }
    }

    /** One round of the loop of lzma_main. */
    method DecodeSymbol() returns (ok: bool)
      requires Ready() && len == 0 && dict.pos < dict.limit <= dict.buf.Length && rc.pos + MAX_SYMBOL_BYTES <= |inBuf|
      modifies this`rc, this`lz, this`len, probs, dict`pos, dict`full, dict`hist, dict.buf
      ensures Valid() && dict.pos <= dict.limit
      ensures ok && dict.pos < dict.limit ==> len == 0
      ensures old(rc.pos) <= rc.pos <= old(rc.pos) + MAX_SYMBOL_BYTES
      ensures Normalize(rc, inBuf).pos <= old(rc.pos) + MAX_SYMBOL_BYTES + 1
      ensures var r := Step(old(MachineOf()), inBuf, dict.buf.Length);
              if ok then Ready() && r == Some(MachineOf()) else r == None
      ensures |dict.hist| - |old(dict.hist)| == dict.pos - old(dict.pos) && old(dict.hist) <= dict.hist
      ensures ok ==> old(dict.pos) < dict.pos
    {
      HistFacts();
      ghost var m := MachineOf();
      SymbolTakesAtMost20(m.core, lz, inBuf, m.hist);
      hide Agrees, Symbol, ProbsOk, RcOk, LzOk, Normalize, CopyFrom;
      var lit, byte := NextSymbol();
      if lit {
        dict.Put(byte);
        ok := true;
      } else {
        ok := RepeatMatch();
      }
    }

    /** Copies as much of the current match as the dictionary has room for. */
    method RepeatMatch() returns (ok: bool)
      requires dict.Valid() && dict.pos < dict.limit <= dict.buf.Length && 0 < len
      modifies this`len, dict`pos, dict`full, dict`hist, dict.buf
      ensures dict.Valid() && dict.pos <= dict.limit && old(dict.full) <= dict.full
      ensures ok <==> lz.rep0 < Min(|old(dict.hist)|, dict.buf.Length)
      ensures ok ==> lz.rep0 < dict.full <= |dict.hist| && HistAhead() == CopyFrom(old(dict.hist), lz.rep0, old(len)) && len <= old(len)
      ensures dict.pos < dict.limit && ok ==> len == 0
      ensures if ok then old(dict.pos) < dict.pos else dict.pos == old(dict.pos)
      ensures |dict.hist| - |old(dict.hist)| == dict.pos - old(dict.pos) && old(dict.hist) <= dict.hist
    {
      ghost var h := dict.hist;
      ghost var n := len;
      ok, len := dict.Repeat(len, lz.rep0);
      if ok {
        CopyMeans(h, lz.rep0, n - len);
        CopySplits(h, lz.rep0, n - len, len);
      }
    }

    /** lzma_main: decodes k symbols, until the dictionary has no space up to its
        limit or less than a symbol's worth of input is left, and normalises. */
    method LzmaMain() returns (ok: bool, ghost k: nat)
      requires Ready() && rc.range >= TOP && dict.pos <= dict.limit <= dict.buf.Length
      requires inLimit + MAX_SYMBOL_BYTES + 1 <= |inBuf|
      modifies this`rc, this`lz, this`len, probs, dict`pos, dict`full, dict`hist, dict.buf
      ensures Valid() && dict.pos <= dict.limit
      ensures ok ==> Ready() && rc.range >= TOP
      ensures ok && dict.pos < dict.limit ==> len == 0 && rc.pos > inLimit
      ensures old(rc.pos) <= rc.pos <= Max(old(rc.pos), inLimit + MAX_SYMBOL_BYTES + 1)
      ensures var r := Steps(old(MachineOf()), inBuf, dict.buf.Length, k);
              if ok then r.Some? && MachineOf() == Ahead(r.value, inBuf) else r == None
      ensures |dict.hist| - |old(dict.hist)| == dict.pos - old(dict.pos) && old(dict.hist) <= dict.hist
      ensures ok && old(dict.pos) < dict.limit && old(rc.pos) <= inLimit ==> old(dict.pos) < dict.pos
      ensures !ok ==> k > 0
      ensures k > 0 ==> LastBegan(old(MachineOf()), inBuf, dict.buf.Length, k, |old(dict.hist)| + (dict.limit - old(dict.pos)), inLimit)
    {
      hide Agrees, ProbsOk, LzOk, Step, CopyFrom, Normalize, IsLiteralState, Steps, LastBegan;
      ghost var m := MachineOf();
      StepsNone(m, inBuf, dict.buf.Length);
      k := 0;
      if dict.pos < dict.limit && len > 0 {
        HistFacts();
        var _ := RepeatMatch();
      }
      NormalizedAlready(rc, inBuf);
      while dict.pos < dict.limit && rc.pos <= inLimit
        invariant Ready() && dict.pos <= dict.limit && (dict.pos < dict.limit ==> len == 0)
        invariant Steps(m, inBuf, dict.buf.Length, k) == Some(MachineOf())
        invariant old(rc.pos) <= rc.pos
        invariant Normalize(rc, inBuf).pos <= Max(old(rc.pos), inLimit + MAX_SYMBOL_BYTES + 1)
        invariant |dict.hist| - |old(dict.hist)| == dict.pos - old(dict.pos) && old(dict.hist) <= dict.hist
        invariant old(dict.pos) < dict.limit && old(rc.pos) <= inLimit ==>
                    old(dict.pos) < dict.pos || (rc.pos <= inLimit && dict.pos < dict.limit)
        invariant k > 0 ==> LastBegan(m, inBuf, dict.buf.Length, k, |old(dict.hist)| + (dict.limit - old(dict.pos)), inLimit)
        decreases dict.limit - dict.pos
      {
        StepsNext(m, inBuf, dict.buf.Length, k, |old(dict.hist)| + (dict.limit - old(dict.pos)), inLimit);
        var more := DecodeSymbol();
        k := k + 1;
        if !more {
          NormalizePos(rc, inBuf);
          return false, k;
        }
      }
      ghost var before := MachineOf();
      NormalizePos(rc, inBuf);
      RcNormalize();
      NormalizedOk(before.core.rc, inBuf);
      ok := true;
    }

    /** lzma_reset, with rc_reset. */
    method LzmaReset()
      requires PropsOk(lz.lc, lz.lpMask, lz.pbMask) && dict.Valid() && probs.Length == PROBS_TOTAL
      modifies this`rc, this`lz, probs
      ensures Valid() && lz == Lz(0, 0, 0, 0, 0, old(lz).lc, old(lz).lpMask, old(lz).pbMask)
      ensures rc.range == TWO32 - 1 && rc.code == 0
      ensures forall i :: 0 <= i < PROBS_TOTAL ==> probs[i] == TOTAL / 2
    {
      lz := Lz(0, 0, 0, 0, 0, lz.lc, lz.lpMask, lz.pbMask);
      for i := 0 to PROBS_TOTAL
        invariant lz == Lz(0, 0, 0, 0, 0, old(lz).lc, old(lz).lpMask, old(lz).pbMask)
        invariant forall j :: 0 <= j < i ==> probs[j] == TOTAL / 2
      {
        probs[i] := TOTAL / 2;
      }
      rc := Rc(TWO32 - 1, 0, rc.pos);
    }

    lemma StartWithin(rc: Rc)
      requires RcOk(rc)
      ensures Within(rc, rc.pos, 0, 0)
    {}
  }

  /** The last of k symbols began with the history below the target, and with the
      input position within the limit. */
  ghost predicate LastBegan(m: Machine, inp: seq<Byte>, size: nat, k: nat, target: nat, inLimit: nat)
    requires MachineOk(m)
  {
    && k > 0 && Steps(m, inp, size, k - 1).Some?
    && |Steps(m, inp, size, k - 1).value.hist| < target && Steps(m, inp, size, k - 1).value.core.rc.pos <= inLimit
  }

  lemma StepsNone(m: Machine, inp: seq<Byte>, size: nat)
    requires MachineOk(m)
    ensures Steps(m, inp, size, 0) == Some(m)
  {}

  lemma StepsNext(m: Machine, inp: seq<Byte>, size: nat, k: nat, target: nat, inLimit: nat)
    requires MachineOk(m) && Steps(m, inp, size, k).Some?
    requires |Steps(m, inp, size, k).value.hist| < target && Steps(m, inp, size, k).value.core.rc.pos <= inLimit
    ensures Steps(m, inp, size, k + 1) == Step(Steps(m, inp, size, k).value, inp, size)
    ensures LastBegan(m, inp, size, k + 1, target, inLimit)
  {
    hide Step, MachineOk;
  }

  lemma NormalizedAlready(rc: Rc, inp: seq<Byte>)
    requires rc.range >= TOP
    ensures Normalize(rc, inp) == rc
  {}

  lemma NormalizePos(rc: Rc, inp: seq<Byte>)
    ensures rc.pos <= Normalize(rc, inp).pos <= rc.pos + 1
    ensures rc.range < TOP ==> Normalize(rc, inp).pos == rc.pos + 1
  {}

  lemma NormalizedOk(rc: Rc, inp: seq<Byte>)
    requires RcOk(rc)
    ensures RcOk(Normalize(rc, inp)) && Normalize(rc, inp).range >= TOP
  {
    NormalizeRestores(rc, inp);
  }

  lemma BitTreeUnroll(c: Core, inp: seq<Byte>, base: nat, limit: nat, symbol: nat)
    requires CoreOk(c) && 1 <= symbol && base + limit <= PROBS_TOTAL
    ensures BitTree(c, inp, base, limit, symbol) ==
            if symbol >= limit then (c, symbol)
            else var (c', bit) := Bit(c, inp, base + symbol); BitTree(c', inp, base, limit, 2 * symbol + bit)
  {
    hide Bit;
  }

  lemma ReverseUnroll(c: Core, inp: seq<Byte>, base: nat, dest: nat, limit: nat, i: nat, symbol: nat)
    requires CoreOk(c) && i <= limit && Pow2(i) <= symbol < 2 * Pow2(i) && base + Pow2(limit) <= PROBS_TOTAL
    requires i < limit ==> 2 * Pow2(i) <= Pow2(limit)
    ensures BitTreeReverse(c, inp, base, dest, limit, i, symbol) ==
            if i == limit then (c, dest)
            else var (c', bit) := Bit(c, inp, base + symbol);
                 BitTreeReverse(c', inp, base, if bit == 1 then dest + Pow2(i) else dest, limit, i + 1, 2 * symbol + bit)
  {
    hide Bit;
  }

  lemma ContextBits(mask: nat, a: nat, b: nat)
    requires mask in {0, 1, 3, 7, 15} && a % 16 == b % 16
    ensures a % (mask + 1) == b % (mask + 1)
  {
    LowBits(a);
    LowBits(b);
    if mask == 0 {
    } else if mask == 1 {
      assert a % 2 == b % 2;
    } else if mask == 3 {
      assert a % 4 == b % 4;
    } else if mask == 7 {
      assert a % 8 == b % 8;
    }
  }

  lemma LowBits(a: nat)
    ensures a % 2 == a % 16 % 2 && a % 4 == a % 16 % 4 && a % 8 == a % 16 % 8
  {
    LowBit(a);
    LowTwo(a);
    LowThree(a);
  }

  lemma LowBit(a: nat)
    ensures a % 2 == a % 16 % 2
  {}

  lemma LowTwo(a: nat)
    ensures a % 4 == a % 16 % 4
  {}

  lemma LowThree(a: nat)
    ensures a % 8 == a % 16 % 8
  {}
}
