/** Decoding one LZMA symbol takes at most 20 bytes of input. */
module LzmaBound {
  import opened Common
  import opened LzmaRange
  import opened LzmaSymbol

  const MAX_SYMBOL_BYTES := 20    // LZMA_IN_REQUIRED - 1

  /** A floor of the range after p bits with probabilities, d direct bits and u
      input bytes, from the least range a symbol can start with. A bit with a
      probability keeps at least 61/4096 of a normalised range (31/2048 less the
      truncation), a direct bit 4095/8192, and a byte multiplies it by 256. */
  ghost function Floor(p: nat, d: nat, u: nat): (r: real)
    ensures r > 0.0
    decreases u, d, p
  {
    if u > 0 then 256.0 * Floor(p, d, u - 1)
    else if d > 0 then Floor(p, d - 1, 0) * 4095.0 / 8192.0
    else if p > 0 then Floor(p - 1, 0, 0) * 61.0 / 4096.0
    else RANGE_MIN as real
  }

  lemma {:induction false} FloorDirect(p: nat, d: nat, u: nat)
    ensures Floor(p, d + 1, u) == Floor(p, d, u) * 4095.0 / 8192.0
  {
    if u > 0 { FloorDirect(p, d, u - 1); }
  }

  lemma {:induction false} FloorProb(p: nat, d: nat, u: nat)
    ensures Floor(p + 1, d, u) == Floor(p, d, u) * 61.0 / 4096.0
  {
    if u > 0 { FloorProb(p, d, u - 1); } else if d > 0 { FloorProb(p, d - 1, 0); }
  }

  lemma {:induction false} FloorMonotone(p: nat, d: nat, p': nat, d': nat, u: nat)
    requires p <= p' && d <= d'
    ensures Floor(p', d', u) <= Floor(p, d, u)
    decreases p' + d' - p - d
  {
    if p < p' {
      FloorMonotone(p, d, p' - 1, d', u);
      FloorProb(p' - 1, d', u);
    } else if d < d' {
      FloorMonotone(p, d, p', d' - 1, u);
      FloorDirect(p', d' - 1, u);
    }
  }

  lemma FloorProb4(p: nat, d: nat, u: nat)
    ensures Floor(p + 4, d, u) >= Floor(p, d, u) * 0.0000000491
  {
    hide Floor;
    FloorProb(p, d, u);
    FloorProb(p + 1, d, u);
    FloorProb(p + 2, d, u);
    FloorProb(p + 3, d, u);
  }

  lemma FloorDirect4(p: nat, d: nat, u: nat)
    ensures Floor(p, d + 4, u) >= Floor(p, d, u) * 0.0624
  {
    hide Floor;
    FloorDirect(p, d, u);
    FloorDirect(p, d + 1, u);
    FloorDirect(p, d + 2, u);
    FloorDirect(p, d + 3, u);
  }

  lemma FloorByte4(p: nat, d: nat, u: nat)
    ensures Floor(p, d, u + 4) == Floor(p, d, u) * 4294967296.0
  {
    assert Floor(p, d, u + 4) == 256.0 * Floor(p, d, u + 3);
    assert Floor(p, d, u + 3) == 256.0 * Floor(p, d, u + 2);
  }

  /** After 20 bytes and 20 bits with probabilities. */
  lemma FloorAt20()
    ensures Floor(20, 0, 20) >= 253952.0 * 0.0000000491 * 0.0000000491 * 0.0000000491 * 0.0000000491 * 0.0000000491
                                 * 4294967296.0 * 4294967296.0 * 4294967296.0 * 4294967296.0 * 4294967296.0
  {
    assert Floor(0, 0, 0) == 253952.0;
    hide Floor;
    FloorByte4(0, 0, 0);
    FloorProb4(0, 0, 4);
    FloorByte4(4, 0, 4);
    FloorProb4(4, 0, 8);
    FloorByte4(8, 0, 8);
    FloorProb4(8, 0, 12);
    FloorByte4(12, 0, 12);
    FloorProb4(12, 0, 16);
    FloorByte4(16, 0, 16);
    FloorProb4(16, 0, 20);
  }

  lemma FloorDirect24(p: nat, u: nat)
    ensures Floor(p, 24, u) >= Floor(p, 0, u) * 0.0624 * 0.0624 * 0.0624 * 0.0624 * 0.0624 * 0.0624
  {
    FloorDirect4(p, 0, u);
    FloorDirect4(p, 4, u);
    FloorDirect4(p, 8, u);
    FloorDirect4(p, 12, u);
    FloorDirect4(p, 16, u);
    FloorDirect4(p, 20, u);
    hide Floor;
  }

  /** A range normalised by 20 bytes is still above 2^24 before the last bit. */
  lemma FloorAtEnd()
    ensures Floor(21, 26, 20) >= TOP as real && Floor(22, 0, 20) >= TOP as real
  {
    hide Floor;
    FloorAt20();
    FloorProb(20, 0, 20);
    FloorProb(21, 0, 20);
    FloorDirect24(21, 20);
    FloorDirect(21, 24, 20);
    FloorDirect(21, 25, 20);
  }

  /** The bits decoded before the next one leave room: 22 and 26 in all, or 23
      bits with probabilities and no direct bits. */
  predicate RoomFor(p: nat, d: nat) {
    (p <= 21 && d <= 26) || (p <= 22 && d == 0)
  }

  /** Since `start`, p bits with probabilities and d direct bits were decoded. */
  ghost predicate Within(rc: Rc, start: nat, p: nat, d: nat) {
    && RcOk(rc) && start <= rc.pos <= start + MAX_SYMBOL_BYTES
    && rc.range as real >= Floor(p, d, rc.pos - start)
  }

  lemma WithinOk(rc: Rc, start: nat, p: nat, d: nat)
    requires Within(rc, start, p, d)
    ensures RcOk(rc)
  {}

  lemma WithinMore(rc: Rc, start: nat, p: nat, d: nat, p': nat, d': nat)
    requires Within(rc, start, p, d) && p <= p' && d <= d'
    ensures Within(rc, start, p', d')
  {
    hide Floor, RcOk;
    FloorMonotone(p, d, p', d', rc.pos - start);
  }

  /** If another byte is needed, fewer than 20 were taken. */
  lemma NormalizeWithin(rc: Rc, inp: seq<Byte>, start: nat, p: nat, d: nat)
    requires Within(rc, start, p, d) && RoomFor(p, d)
    ensures rc.range < TOP ==> rc.pos < start + MAX_SYMBOL_BYTES
    ensures Within(Normalize(rc, inp), start, p, d)
  {
    NormalizeRestores(rc, inp);
    if rc.range < TOP && rc.pos == start + MAX_SYMBOL_BYTES {
      FloorAtEnd();
      if p <= 21 && d <= 26 { FloorMonotone(p, d, 21, 26, 20); } else { FloorMonotone(p, d, 22, 0, 20); }
      assert false;
    }
  }

  lemma BitWithin(c: Core, inp: seq<Byte>, i: nat, start: nat, p: nat, d: nat)
    requires CoreOk(c) && i < PROBS_TOTAL && Within(c.rc, start, p, d) && RoomFor(p, d)
    ensures c.rc.range < TOP ==> c.rc.pos < start + MAX_SYMBOL_BYTES
    ensures Within(Bit(c, inp, i).0.rc, start, p + 1, d)
  {
    NormalizeWithin(c.rc, inp, start, p, d);
    NormalizeRestores(c.rc, inp);
    var n := Normalize(c.rc, inp);
    BitKeeps(c.rc, inp, c.probs[i]);
    FloorProb(p, d, n.pos - start);
    Share(n.range);
  }

  lemma Share(range: nat)
    requires range >= TOP
    ensures ((range / TOTAL) * PROB_MIN) as real >= range as real * 61.0 / 4096.0
  {
    var q := range / TOTAL;
    assert range < q * TOTAL + TOTAL;
    assert 4096 * (q * 31) >= 61 * range;
  }

  lemma DirectWithin(rc: Rc, inp: seq<Byte>, start: nat, p: nat, d: nat)
    requires Within(rc, start, p, d) && RoomFor(p, d) && p <= 21 && d <= 25
    ensures rc.range < TOP ==> rc.pos < start + MAX_SYMBOL_BYTES
    ensures Within(DirectRc(rc, inp).0, start, p, d + 1)
  {
    NormalizeWithin(rc, inp, start, p, d);
    NormalizeRestores(rc, inp);
    var n := Normalize(rc, inp);
    FloorDirect(p, d, n.pos - start);
    var half := n.range / 2;
    assert 2 * half + 1 >= n.range;
    assert 8192 * half >= 4095 * n.range;
  }

  /** A tree of n levels takes one bit a level. */
  lemma {:induction false} BitTreeWithin(c: Core, inp: seq<Byte>, base: nat, n: nat, k: nat, symbol: nat, start: nat, p: nat)
    requires CoreOk(c) && base + Pow2(n) <= PROBS_TOTAL && k <= n
    requires Pow2(n - k) <= symbol < 2 * Pow2(n - k)
    requires Within(c.rc, start, p, 0) && p + k <= 23
    ensures Within(BitTree(c, inp, base, Pow2(n), symbol).0.rc, start, p + k, 0)
    decreases k
  {
    hide Within, Bit, Floor, CoreOk;
    if k > 0 {
      Pow2Mono(n - k, n);
      BitWithin(c, inp, base + symbol, start, p, 0);
      var (c', bit) := Bit(c, inp, base + symbol);
      BitTreeWithin(c', inp, base, n, k - 1, 2 * symbol + bit, start, p + 1);
    }
  }

  lemma {:induction false} ReverseWithin(c: Core, inp: seq<Byte>, base: nat, dest: nat, limit: nat, i: nat, symbol: nat,
                                         start: nat, p: nat, d: nat)
    requires CoreOk(c) && i <= limit && Pow2(i) <= symbol < 2 * Pow2(i) && base + Pow2(limit) <= PROBS_TOTAL
    requires Within(c.rc, start, p, d) && (p + limit - i <= 22 || (p + limit - i <= 23 && d == 0)) && d <= 26
    ensures Within(BitTreeReverse(c, inp, base, dest, limit, i, symbol).0.rc, start, p + limit - i, d)
    decreases limit - i
  {
    hide Within, Bit, Floor, CoreOk;
    if i < limit {
      Pow2Mono(i, limit);
      BitWithin(c, inp, base + symbol, start, p, d);
      var (c', bit) := Bit(c, inp, base + symbol);
      ReverseWithin(c', inp, base, if bit == 1 then dest + Pow2(i) else dest, limit, i + 1, 2 * symbol + bit, start, p + 1, d);
    }
  }

  lemma {:induction false} DirectBitsWithin(c: Core, inp: seq<Byte>, dest: nat, limit: nat, start: nat, p: nat, d: nat)
    requires CoreOk(c) && Within(c.rc, start, p, d) && p <= 21 && d + limit <= 26
    ensures Within(Direct(c, inp, dest, limit).0.rc, start, p, d + limit)
    decreases limit
  {
    hide Within, Floor;
    if limit > 0 {
      DirectWithin(c.rc, inp, start, p, d);
      var (rc, bit) := DirectRc(c.rc, inp);
      NormalizeRestores(c.rc, inp);
      DirectBitsWithin(Core(rc, c.probs), inp, 2 * dest + bit, limit - 1, start, p, d + 1);
    }
  }

  /** A symbol of 9 - k bits, k > 0, is below 0x100, and the next has one bit more. */
  lemma BitsLeft(k: nat, symbol: nat)
    requires k <= 8 && Pow2(8 - k) <= symbol < 2 * Pow2(8 - k)
    ensures k == 0 ==> symbol >= 0x100
    ensures k > 0 ==> 1 <= symbol < 0x100 && Pow2(8 - (k - 1)) <= 2 * symbol && 2 * symbol + 1 < 2 * Pow2(8 - (k - 1))
  {
    assert Pow2(8) == 256;
    if k > 1 { Pow2Mono(8 - (k - 1), 8); }
  }

  lemma {:induction false} MatchedWithin(c: Core, inp: seq<Byte>, base: nat, m: nat, offset: nat, k: nat, symbol: nat, start: nat, p: nat)
    requires CoreOk(c) && base + 0x300 <= PROBS_TOTAL && (offset == 0 || offset == 0x100) && k <= 8
    requires Pow2(8 - k) <= symbol < 2 * Pow2(8 - k)
    requires Within(c.rc, start, p, 0) && p + k <= 23
    ensures Within(MatchedLiteral(c, inp, base, m, offset, symbol).0.rc, start, p + k, 0)
    decreases k
  {
    hide Within, Bit, Floor, CoreOk, MatchBit, Pow2;
    BitsLeft(k, symbol);
    if k > 0 {
      var matchBit := MatchBit(m, offset);
      BitWithin(c, inp, base + offset + matchBit + symbol, start, p, 0);
      var (c', bit) := Bit(c, inp, base + offset + matchBit + symbol);
      MatchedWithin(c', inp, base, 2 * m, if bit == 1 then matchBit else offset - matchBit, k - 1, 2 * symbol + bit, start, p + 1);
    }
  }

  /** A length takes at most 10 bits. */
  lemma LenWithin(c: Core, inp: seq<Byte>, base: nat, posState: nat, start: nat, p: nat)
    requires CoreOk(c) && posState < 16 && base + 514 <= PROBS_TOTAL
    requires Within(c.rc, start, p, 0) && p <= 8
    ensures Within(LenSymbol(c, inp, base, posState).0.rc, start, p + 10, 0)
  {
    hide Within, Bit, Floor, CoreOk;
    Pow2Small();
    assert Pow2(8) == 256;
    BitWithin(c, inp, base + LEN_CHOICE, start, p, 0);
    var (c1, choice) := Bit(c, inp, base + LEN_CHOICE);
    if choice == 0 {
      BitTreeWithin(c1, inp, base + LEN_LOW + 8 * posState, 3, 3, 1, start, p + 1);
      WithinMore(LenSymbol(c, inp, base, posState).0.rc, start, p + 4, 0, p + 10, 0);
    } else {
      BitWithin(c1, inp, base + LEN_CHOICE2, start, p + 1, 0);
      var (c2, choice2) := Bit(c1, inp, base + LEN_CHOICE2);
      if choice2 == 0 {
        BitTreeWithin(c2, inp, base + LEN_MID + 8 * posState, 3, 3, 1, start, p + 2);
        WithinMore(LenSymbol(c, inp, base, posState).0.rc, start, p + 5, 0, p + 10, 0);
      } else {
        BitTreeWithin(c2, inp, base + LEN_HIGH, 8, 8, 1, start, p + 2);
      }
    }
  }

  /** A distance takes 6 bits and then at most 5, or 26 direct bits and 4. */
  lemma DistWithin(c: Core, inp: seq<Byte>, len: nat, start: nat, p: nat)
    requires CoreOk(c) && len >= 2 && Within(c.rc, start, p, 0) && p <= 12
    ensures Within(DistSymbol(c, inp, len).0.rc, start, p + 11, 26)
  {
    hide Within, Bit, Floor, CoreOk;
    Pow2Small();
    assert Pow2(6) == 64;
    BitTreeWithin(c, inp, DIST_SLOT + 64 * DistState(len), 6, 6, 1, start, p);
    var (c1, s) := BitTree(c, inp, DIST_SLOT + 64 * DistState(len), 64, 1);
    var slot := s - 64;
    var end := DistSymbol(c, inp, len).0.rc;
    if slot < 4 {
      WithinMore(end, start, p + 6, 0, p + 11, 26);
    } else if slot < 14 {
      SpecialWithin(c1, inp, slot, start, p + 6);
      WithinMore(end, start, p + 11, 0, p + 11, 26);
    } else {
      LongWithin(c1, inp, slot, start, p + 6);
      WithinMore(end, start, p + 10, 26, p + 11, 26);
    }
  }

  lemma SpecialWithin(c: Core, inp: seq<Byte>, slot: nat, start: nat, p: nat)
    requires CoreOk(c) && 4 <= slot < 14 && Within(c.rc, start, p, 0) && p <= 18
    ensures Within(SpecialDist(c, inp, slot).0.rc, start, p + 5, 0)
  {
    hide Within, Bit, Floor, CoreOk;
    Pow2Small();
    SpecialIndex(slot);
    var limit := slot / 2 - 1;
    var rep := (2 + slot % 2) * Pow2(limit);
    ReverseWithin(c, inp, DIST_SPECIAL + rep - slot - 1, rep, limit, 0, 1, start, p, 0);
    WithinMore(SpecialDist(c, inp, slot).0.rc, start, p + limit, 0, p + 5, 0);
  }

  lemma LongWithin(c: Core, inp: seq<Byte>, slot: nat, start: nat, p: nat)
    requires CoreOk(c) && 14 <= slot < 64 && Within(c.rc, start, p, 0) && p <= 18
    ensures Within(LongDist(c, inp, slot).0.rc, start, p + 4, 26)
  {
    hide Within, Bit, Floor, CoreOk;
    Pow2Small();
    var limit := slot / 2 - 1;
    DirectBitsWithin(c, inp, 2 + slot % 2, limit - 4, start, p, 0);
    var (c1, d) := Direct(c, inp, 2 + slot % 2, limit - 4);
    ReverseWithin(c1, inp, DIST_ALIGN, 16 * d, 4, 0, 1, start, p, limit - 4);
    WithinMore(LongDist(c, inp, slot).0.rc, start, p + 4, limit - 4, p + 4, 26);
  }

  /** A literal takes 8 bits after the first. */
  lemma LiteralWithin(c: Core, lz: Lz, inp: seq<Byte>, hist: seq<Byte>, start: nat, p: nat)
    requires CoreOk(c) && LzOk(lz) && (!IsLiteralState(lz.state) ==> lz.rep0 < |hist|)
    requires Within(c.rc, start, p, 0) && p <= 12
    ensures Within(LiteralSymbol(c, lz, inp, hist).0.rc, start, p + 8, 0)
  {
    hide Within, Bit, Floor, CoreOk;
    assert Pow2(8) == 256 && Pow2(0) == 1;
    var base := LiteralBase(lz, Back(hist, 0), |hist|);
    if IsLiteralState(lz.state) {
      BitTreeWithin(c, inp, base, 8, 8, 1, start, p);
    } else {
      MatchedWithin(c, inp, base, 2 * Back(hist, lz.rep0), 0x100, 8, 1, start, p);
    }
  }

  lemma RepMatchWithin(c: Core, lz: Lz, inp: seq<Byte>, posState: nat, start: nat, p: nat)
    requires CoreOk(c) && LzOk(lz) && posState < 16 && Within(c.rc, start, p, 0) && p <= 5
    ensures Within(RepMatchSymbol(c, lz, inp, posState).0.rc, start, p + 13, 0)
  {
    hide Within, Bit, Floor, CoreOk;
    var end := RepMatchSymbol(c, lz, inp, posState).0.rc;
    BitWithin(c, inp, IS_REP0 + lz.state, start, p, 0);
    var (c1, b1) := Bit(c, inp, IS_REP0 + lz.state);
    if b1 == 0 {
      BitWithin(c1, inp, IS_REP0_LONG + 16 * lz.state + posState, start, p + 1, 0);
      var (c2, b2) := Bit(c1, inp, IS_REP0_LONG + 16 * lz.state + posState);
      if b2 == 0 {
        WithinMore(end, start, p + 2, 0, p + 13, 0);
      } else {
        LenWithin(c2, inp, REP_LEN, posState, start, p + 2);
        WithinMore(end, start, p + 12, 0, p + 13, 0);
      }
    } else {
      BitWithin(c1, inp, IS_REP1 + lz.state, start, p + 1, 0);
      var (c2, b2) := Bit(c1, inp, IS_REP1 + lz.state);
      if b2 == 0 {
        LenWithin(c2, inp, REP_LEN, posState, start, p + 2);
        WithinMore(end, start, p + 12, 0, p + 13, 0);
      } else {
        BitWithin(c2, inp, IS_REP2 + lz.state, start, p + 2, 0);
        var (c3, b3) := Bit(c2, inp, IS_REP2 + lz.state);
        LenWithin(c3, inp, REP_LEN, posState, start, p + 3);
      }
    }
  }

  /** Every LZMA symbol, for every input, state and reachable probabilities,
      takes at most LZMA_IN_REQUIRED - 1 = 20 bytes, also when the range was left
      unnormalised by the symbol before it; one byte more normalises the range. */
  lemma SymbolTakesAtMost20(c: Core, lz: Lz, inp: seq<Byte>, hist: seq<Byte>)
    requires CoreOk(c) && LzOk(lz) && (!IsLiteralState(lz.state) ==> lz.rep0 < |hist|)
    ensures var c' := Symbol(c, lz, inp, hist).0;
            c.rc.pos <= c'.rc.pos <= c.rc.pos + MAX_SYMBOL_BYTES && Normalize(c'.rc, inp).pos <= c.rc.pos + MAX_SYMBOL_BYTES + 1
  {
    var start := c.rc.pos;
    assert Within(c.rc, start, 0, 0);
    SymbolWithin(c, lz, inp, hist, start);
    hide Floor, Symbol;
  }

  lemma SymbolWithin(c: Core, lz: Lz, inp: seq<Byte>, hist: seq<Byte>, start: nat)
    requires CoreOk(c) && LzOk(lz) && (!IsLiteralState(lz.state) ==> lz.rep0 < |hist|)
    requires Within(c.rc, start, 0, 0)
    ensures Within(Symbol(c, lz, inp, hist).0.rc, start, 23, 26)
  {
    hide Within, Bit, Floor, CoreOk, LiteralSymbol, RepMatchSymbol, LenSymbol, DistSymbol;
    var posState := PosState(lz, |hist|);
    var end := Symbol(c, lz, inp, hist).0.rc;
    BitWithin(c, inp, IS_MATCH + 16 * lz.state + posState, start, 0, 0);
    var (c1, isMatch) := Bit(c, inp, IS_MATCH + 16 * lz.state + posState);
    if isMatch == 0 {
      LiteralWithin(c1, lz, inp, hist, start, 1);
      WithinMore(end, start, 9, 0, 23, 26);
    } else {
      BitWithin(c1, inp, IS_REP + lz.state, start, 1, 0);
      var (c2, isRep) := Bit(c1, inp, IS_REP + lz.state);
      if isRep == 1 {
        RepMatchWithin(c2, lz, inp, posState, start, 2);
        WithinMore(end, start, 15, 0, 23, 26);
      } else {
        LenWithin(c2, inp, MATCH_LEN, posState, start, 2);
        var (c3, len) := LenSymbol(c2, inp, MATCH_LEN, posState);
        DistWithin(c3, inp, len, start, 12);
      }
    }
  }
}
