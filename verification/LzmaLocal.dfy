/** Decoding depends only on the input bytes it takes: the same bytes at another
    place of another buffer give the same symbols. */
module LzmaLocal {
  import opened Common
  import opened LzmaRange
  import opened LzmaSymbol
  import opened LzmaDict
  import opened LzmaMachine

  function ShiftRc(rc: Rc, to: nat): Rc { rc.(pos := to) }

  function Shift(c: Core, to: nat): Core { c.(rc := ShiftRc(c.rc, to)) }

  /** inp from p on for n bytes reads like inq from q on. */
  predicate Same(inp: seq<Byte>, p: nat, inq: seq<Byte>, q: nat, n: nat) {
    forall j {:trigger ByteAt(inp, j)} :: p <= j < p + n ==> ByteAt(inp, j) == ByteAt(inq, q + (j - p))
  }

  lemma SamePart(inp: seq<Byte>, p: nat, inq: seq<Byte>, q: nat, n: nat, a: nat, b: nat)
    requires Same(inp, p, inq, q, n) && a + b <= n
    ensures Same(inp, p + a, inq, q + a, b)
  {}

  /** What a decoding function must satisfy to be local: it took `n` bytes. */
  ghost predicate Moved(c: Core, c': Core, q: nat, d': Core) {
    c.rc.pos <= c'.rc.pos && d' == Shift(c', q + (c'.rc.pos - c.rc.pos))
  }

  lemma BitAdvances(c: Core, inp: seq<Byte>, i: nat)
    requires CoreOk(c) && i < PROBS_TOTAL
    ensures c.rc.pos <= Bit(c, inp, i).0.rc.pos
  {
    BitKeeps(c.rc, inp, c.probs[i]);
  }

  lemma BitLocal(c: Core, inp: seq<Byte>, i: nat, inq: seq<Byte>, q: nat)
    requires CoreOk(c) && i < PROBS_TOTAL
    requires Same(inp, c.rc.pos, inq, q, Bit(c, inp, i).0.rc.pos - c.rc.pos)
    ensures Bit(Shift(c, q), inq, i).1 == Bit(c, inp, i).1
    ensures Moved(c, Bit(c, inp, i).0, q, Bit(Shift(c, q), inq, i).0)
  {
    BitKeeps(c.rc, inp, c.probs[i]);
    if c.rc.range < TOP {
      assert ByteAt(inp, c.rc.pos) == ByteAt(inq, q);
    }
    assert Normalize(ShiftRc(c.rc, q), inq) == ShiftRc(Normalize(c.rc, inp), q + (Normalize(c.rc, inp).pos - c.rc.pos));
  }

  lemma {:induction false} BitTreeAdvances(c: Core, inp: seq<Byte>, base: nat, limit: nat, symbol: nat)
    requires CoreOk(c) && 1 <= symbol && base + limit <= PROBS_TOTAL
    ensures c.rc.pos <= BitTree(c, inp, base, limit, symbol).0.rc.pos
    decreases limit - symbol
  {
    hide Bit;
    if symbol < limit {
      BitAdvances(c, inp, base + symbol);
      var (c', bit) := Bit(c, inp, base + symbol);
      BitTreeAdvances(c', inp, base, limit, 2 * symbol + bit);
    }
  }

  lemma {:induction false} BitTreeLocal(c: Core, inp: seq<Byte>, base: nat, limit: nat, symbol: nat, inq: seq<Byte>, q: nat)
    requires CoreOk(c) && 1 <= symbol && base + limit <= PROBS_TOTAL
    requires c.rc.pos <= BitTree(c, inp, base, limit, symbol).0.rc.pos
    requires Same(inp, c.rc.pos, inq, q, BitTree(c, inp, base, limit, symbol).0.rc.pos - c.rc.pos)
    ensures BitTree(Shift(c, q), inq, base, limit, symbol).1 == BitTree(c, inp, base, limit, symbol).1
    ensures Moved(c, BitTree(c, inp, base, limit, symbol).0, q, BitTree(Shift(c, q), inq, base, limit, symbol).0)
    decreases limit - symbol
  {
    hide Bit, Same;
    if symbol < limit {
      var (c', bit) := Bit(c, inp, base + symbol);
      BitAdvances(c, inp, base + symbol);
      BitTreeAdvances(c', inp, base, limit, 2 * symbol + bit);
      var n := BitTree(c, inp, base, limit, symbol).0.rc.pos - c.rc.pos;
      var a := c'.rc.pos - c.rc.pos;
      SamePart(inp, c.rc.pos, inq, q, n, 0, a);
      BitLocal(c, inp, base + symbol, inq, q);
      SamePart(inp, c.rc.pos, inq, q, n, a, n - a);
      BitTreeLocal(c', inp, base, limit, 2 * symbol + bit, inq, q + a);
    }
  }

  lemma {:induction false} MatchedAdvances(c: Core, inp: seq<Byte>, base: nat, m: nat, offset: nat, symbol: nat)
    requires CoreOk(c) && base + 0x300 <= PROBS_TOTAL && (offset == 0 || offset == 0x100) && 1 <= symbol
    ensures c.rc.pos <= MatchedLiteral(c, inp, base, m, offset, symbol).0.rc.pos
    decreases 0x100 - symbol
  {
    hide Bit;
    if symbol < 0x100 {
      var matchBit := MatchBit(m, offset);
      BitAdvances(c, inp, base + offset + matchBit + symbol);
      var (c', bit) := Bit(c, inp, base + offset + matchBit + symbol);
      MatchedAdvances(c', inp, base, 2 * m, if bit == 1 then matchBit else offset - matchBit, 2 * symbol + bit);
    }
  }

  lemma {:induction false} MatchedLocal(c: Core, inp: seq<Byte>, base: nat, m: nat, offset: nat, symbol: nat, inq: seq<Byte>, q: nat)
    requires CoreOk(c) && base + 0x300 <= PROBS_TOTAL && (offset == 0 || offset == 0x100) && 1 <= symbol
    requires c.rc.pos <= MatchedLiteral(c, inp, base, m, offset, symbol).0.rc.pos
    requires Same(inp, c.rc.pos, inq, q, MatchedLiteral(c, inp, base, m, offset, symbol).0.rc.pos - c.rc.pos)
    ensures MatchedLiteral(Shift(c, q), inq, base, m, offset, symbol).1 == MatchedLiteral(c, inp, base, m, offset, symbol).1
    ensures Moved(c, MatchedLiteral(c, inp, base, m, offset, symbol).0, q, MatchedLiteral(Shift(c, q), inq, base, m, offset, symbol).0)
    decreases 0x100 - symbol
  {
    hide Bit, Same, MatchBit, MatchedLiteral;
    MatchedUnroll(c, inp, base, m, offset, symbol);
    MatchedUnroll(Shift(c, q), inq, base, m, offset, symbol);
    if symbol < 0x100 {
      var matchBit := MatchBit(m, offset);
      var i := base + offset + matchBit + symbol;
      var (c', bit) := Bit(c, inp, i);
      var offset' := if bit == 1 then matchBit else offset - matchBit;
      BitAdvances(c, inp, i);
      MatchedAdvances(c', inp, base, 2 * m, offset', 2 * symbol + bit);
      var n := MatchedLiteral(c, inp, base, m, offset, symbol).0.rc.pos - c.rc.pos;
      var a := c'.rc.pos - c.rc.pos;
      SamePart(inp, c.rc.pos, inq, q, n, 0, a);
      BitLocal(c, inp, i, inq, q);
      SamePart(inp, c.rc.pos, inq, q, n, a, n - a);
      MatchedLocal(c', inp, base, 2 * m, offset', 2 * symbol + bit, inq, q + a);
    }
  }

  lemma {:induction false} ReverseAdvances(c: Core, inp: seq<Byte>, base: nat, dest: nat, limit: nat, i: nat, symbol: nat)
    requires CoreOk(c) && i <= limit && Pow2(i) <= symbol < 2 * Pow2(i) && base + Pow2(limit) <= PROBS_TOTAL
    ensures c.rc.pos <= BitTreeReverse(c, inp, base, dest, limit, i, symbol).0.rc.pos
    decreases limit - i
  {
    hide Bit;
    if i < limit {
      Pow2Mono(i, limit);
      BitAdvances(c, inp, base + symbol);
      var (c', bit) := Bit(c, inp, base + symbol);
      ReverseAdvances(c', inp, base, if bit == 1 then dest + Pow2(i) else dest, limit, i + 1, 2 * symbol + bit);
    }
  }

  lemma {:induction false} ReverseLocal(c: Core, inp: seq<Byte>, base: nat, dest: nat, limit: nat, i: nat, symbol: nat,
                                        inq: seq<Byte>, q: nat)
    requires CoreOk(c) && i <= limit && Pow2(i) <= symbol < 2 * Pow2(i) && base + Pow2(limit) <= PROBS_TOTAL
    requires c.rc.pos <= BitTreeReverse(c, inp, base, dest, limit, i, symbol).0.rc.pos
    requires Same(inp, c.rc.pos, inq, q, BitTreeReverse(c, inp, base, dest, limit, i, symbol).0.rc.pos - c.rc.pos)
    ensures BitTreeReverse(Shift(c, q), inq, base, dest, limit, i, symbol).1 == BitTreeReverse(c, inp, base, dest, limit, i, symbol).1
    ensures Moved(c, BitTreeReverse(c, inp, base, dest, limit, i, symbol).0, q,
                  BitTreeReverse(Shift(c, q), inq, base, dest, limit, i, symbol).0)
    decreases limit - i
  {
    hide Bit, Same, CoreOk;
    if i < limit {
      Pow2Mono(i, limit);
      var (c', bit) := Bit(c, inp, base + symbol);
      var dest' := if bit == 1 then dest + Pow2(i) else dest;
      BitAdvances(c, inp, base + symbol);
      ReverseAdvances(c', inp, base, dest', limit, i + 1, 2 * symbol + bit);
      var n := BitTreeReverse(c, inp, base, dest, limit, i, symbol).0.rc.pos - c.rc.pos;
      var a := c'.rc.pos - c.rc.pos;
      SamePart(inp, c.rc.pos, inq, q, n, 0, a);
      BitLocal(c, inp, base + symbol, inq, q);
      SamePart(inp, c.rc.pos, inq, q, n, a, n - a);
      ReverseLocal(c', inp, base, dest', limit, i + 1, 2 * symbol + bit, inq, q + a);
    }
  }

  lemma DirectBitLocal(rc: Rc, inp: seq<Byte>, inq: seq<Byte>, q: nat)
    requires RcOk(rc) && Same(inp, rc.pos, inq, q, Normalize(rc, inp).pos - rc.pos)
    ensures rc.pos <= DirectRc(rc, inp).0.pos == Normalize(rc, inp).pos
    ensures DirectRc(ShiftRc(rc, q), inq) ==
            (ShiftRc(DirectRc(rc, inp).0, q + (DirectRc(rc, inp).0.pos - rc.pos)), DirectRc(rc, inp).1)
  {
    if rc.range < TOP {
      assert ByteAt(inp, rc.pos) == ByteAt(inq, q);
    }
    assert Normalize(ShiftRc(rc, q), inq) == ShiftRc(Normalize(rc, inp), q + (Normalize(rc, inp).pos - rc.pos));
  }

  lemma {:induction false} DirectAdvances(c: Core, inp: seq<Byte>, dest: nat, limit: nat)
    requires CoreOk(c)
    ensures c.rc.pos <= Direct(c, inp, dest, limit).0.rc.pos
    decreases limit
  {
    if limit > 0 {
      var (rc, bit) := DirectRc(c.rc, inp);
      NormalizeRestores(c.rc, inp);
      DirectAdvances(Core(rc, c.probs), inp, 2 * dest + bit, limit - 1);
    }
  }

  lemma DirectNone(c: Core, inp: seq<Byte>, dest: nat)
    requires CoreOk(c)
    ensures Direct(c, inp, dest, 0) == (c, dest)
  {}

  lemma {:induction false} DirectLocal(c: Core, inp: seq<Byte>, dest: nat, limit: nat, inq: seq<Byte>, q: nat)
    requires CoreOk(c) && c.rc.pos <= Direct(c, inp, dest, limit).0.rc.pos
    requires Same(inp, c.rc.pos, inq, q, Direct(c, inp, dest, limit).0.rc.pos - c.rc.pos)
    ensures Direct(Shift(c, q), inq, dest, limit).1 == Direct(c, inp, dest, limit).1
    ensures Moved(c, Direct(c, inp, dest, limit).0, q, Direct(Shift(c, q), inq, dest, limit).0)
    decreases limit
  {
    hide DirectRc, Normalize, Same, Direct;
    DirectNone(c, inp, dest);
    DirectNone(Shift(c, q), inq, dest);
    if limit > 0 {
      DirectUnroll(c, inp, dest, limit);
      DirectUnroll(Shift(c, q), inq, dest, limit);
      var (rc, bit) := DirectRc(c.rc, inp);
      var c' := Core(rc, c.probs);
      DirectAdvances(c', inp, 2 * dest + bit, limit - 1);
      var n := Direct(c, inp, dest, limit).0.rc.pos - c.rc.pos;
      var a := rc.pos - c.rc.pos;
      SamePart(inp, c.rc.pos, inq, q, n, 0, a);
      DirectBitLocal(c.rc, inp, inq, q);
      SamePart(inp, c.rc.pos, inq, q, n, a, n - a);
      DirectLocal(c', inp, 2 * dest + bit, limit - 1, inq, q + a);
    }
  }

  lemma LenAdvances(c: Core, inp: seq<Byte>, base: nat, posState: nat)
    requires CoreOk(c) && posState < 16 && base + 514 <= PROBS_TOTAL
    ensures c.rc.pos <= LenSymbol(c, inp, base, posState).0.rc.pos
  {
    hide Bit, BitTree;
    BitAdvances(c, inp, base + LEN_CHOICE);
    var (c1, choice) := Bit(c, inp, base + LEN_CHOICE);
    if choice == 0 {
      BitTreeAdvances(c1, inp, base + LEN_LOW + 8 * posState, 8, 1);
    } else {
      BitAdvances(c1, inp, base + LEN_CHOICE2);
      var (c2, choice2) := Bit(c1, inp, base + LEN_CHOICE2);
      if choice2 == 0 {
        BitTreeAdvances(c2, inp, base + LEN_MID + 8 * posState, 8, 1);
      } else {
        BitTreeAdvances(c2, inp, base + LEN_HIGH, 256, 1);
      }
    }
  }

  /** The bytes from c to c', for a step in the middle of a longer one. */
  lemma SameBetween(inp: seq<Byte>, p: nat, inq: seq<Byte>, q: nat, n: nat, c: Core, c': Core)
    requires Same(inp, p, inq, q, n) && p <= c.rc.pos <= c'.rc.pos <= p + n
    ensures Same(inp, c.rc.pos, inq, q + (c.rc.pos - p), c'.rc.pos - c.rc.pos)
  {
    SamePart(inp, p, inq, q, n, c.rc.pos - p, c'.rc.pos - c.rc.pos);
  }

  lemma LenLocal(c: Core, inp: seq<Byte>, base: nat, posState: nat, inq: seq<Byte>, q: nat)
    requires CoreOk(c) && posState < 16 && base + 514 <= PROBS_TOTAL
    requires c.rc.pos <= LenSymbol(c, inp, base, posState).0.rc.pos
    requires Same(inp, c.rc.pos, inq, q, LenSymbol(c, inp, base, posState).0.rc.pos - c.rc.pos)
    ensures LenSymbol(Shift(c, q), inq, base, posState).1 == LenSymbol(c, inp, base, posState).1
    ensures Moved(c, LenSymbol(c, inp, base, posState).0, q, LenSymbol(Shift(c, q), inq, base, posState).0)
  {
    hide Bit, BitTree, Same;
    var p := c.rc.pos;
    var end := LenSymbol(c, inp, base, posState).0;
    var n := end.rc.pos - p;
    var (c1, choice) := Bit(c, inp, base + LEN_CHOICE);
    BitAdvances(c, inp, base + LEN_CHOICE);
    if choice == 0 {
      BitTreeAdvances(c1, inp, base + LEN_LOW + 8 * posState, 8, 1);
      SameBetween(inp, p, inq, q, n, c, c1);
      BitLocal(c, inp, base + LEN_CHOICE, inq, q);
      SameBetween(inp, p, inq, q, n, c1, end);
      BitTreeLocal(c1, inp, base + LEN_LOW + 8 * posState, 8, 1, inq, q + (c1.rc.pos - p));
    } else {
      var (c2, choice2) := Bit(c1, inp, base + LEN_CHOICE2);
      BitAdvances(c1, inp, base + LEN_CHOICE2);
      var b := if choice2 == 0 then base + LEN_MID + 8 * posState else base + LEN_HIGH;
      var limit := if choice2 == 0 then 8 else 256;
      BitTreeAdvances(c2, inp, b, limit, 1);
      SameBetween(inp, p, inq, q, n, c, c1);
      BitLocal(c, inp, base + LEN_CHOICE, inq, q);
      SameBetween(inp, p, inq, q, n, c1, c2);
      BitLocal(c1, inp, base + LEN_CHOICE2, inq, q + (c1.rc.pos - p));
      SameBetween(inp, p, inq, q, n, c2, end);
      BitTreeLocal(c2, inp, b, limit, 1, inq, q + (c2.rc.pos - p));
    }
  }

  lemma LongAdvances(c: Core, inp: seq<Byte>, slot: nat)
    requires CoreOk(c) && 14 <= slot < 64
    ensures c.rc.pos <= Direct(c, inp, 2 + slot % 2, slot / 2 - 5).0.rc.pos <= LongDist(c, inp, slot).0.rc.pos
  {
    hide BitTreeReverse, Direct;
    DirectAdvances(c, inp, 2 + slot % 2, slot / 2 - 5);
    var (c1, d) := Direct(c, inp, 2 + slot % 2, slot / 2 - 5);
    Pow2Small();
    ReverseAdvances(c1, inp, DIST_ALIGN, 16 * d, 4, 0, 1);
  }

  lemma LongLocal(c: Core, inp: seq<Byte>, slot: nat, inq: seq<Byte>, q: nat)
    requires CoreOk(c) && 14 <= slot < 64 && c.rc.pos <= LongDist(c, inp, slot).0.rc.pos
    requires Same(inp, c.rc.pos, inq, q, LongDist(c, inp, slot).0.rc.pos - c.rc.pos)
    ensures LongDist(Shift(c, q), inq, slot).1 == LongDist(c, inp, slot).1
    ensures Moved(c, LongDist(c, inp, slot).0, q, LongDist(Shift(c, q), inq, slot).0)
  {
    hide BitTreeReverse, Direct, Same;
    Pow2Small();
    LongAdvances(c, inp, slot);
    var p := c.rc.pos;
    var end := LongDist(c, inp, slot).0;
    var (c1, d) := Direct(c, inp, 2 + slot % 2, slot / 2 - 5);
    SameBetween(inp, p, inq, q, end.rc.pos - p, c, c1);
    DirectLocal(c, inp, 2 + slot % 2, slot / 2 - 5, inq, q);
    SameBetween(inp, p, inq, q, end.rc.pos - p, c1, end);
    ReverseLocal(c1, inp, DIST_ALIGN, 16 * d, 4, 0, 1, inq, q + (c1.rc.pos - p));
  }

  lemma SpecialAdvances(c: Core, inp: seq<Byte>, slot: nat)
    requires CoreOk(c) && 4 <= slot < 14
    ensures c.rc.pos <= SpecialDist(c, inp, slot).0.rc.pos
  {
    hide BitTreeReverse;
    Pow2Small();
    SpecialIndex(slot);
    var limit := slot / 2 - 1;
    var rep := (2 + slot % 2) * Pow2(limit);
    ReverseAdvances(c, inp, DIST_SPECIAL + rep - slot - 1, rep, limit, 0, 1);
  }

  lemma SpecialLocal(c: Core, inp: seq<Byte>, slot: nat, inq: seq<Byte>, q: nat)
    requires CoreOk(c) && 4 <= slot < 14 && c.rc.pos <= SpecialDist(c, inp, slot).0.rc.pos
    requires Same(inp, c.rc.pos, inq, q, SpecialDist(c, inp, slot).0.rc.pos - c.rc.pos)
    ensures SpecialDist(Shift(c, q), inq, slot).1 == SpecialDist(c, inp, slot).1
    ensures Moved(c, SpecialDist(c, inp, slot).0, q, SpecialDist(Shift(c, q), inq, slot).0)
  {
    hide BitTreeReverse, Same;
    Pow2Small();
    SpecialIndex(slot);
    var limit := slot / 2 - 1;
    var rep := (2 + slot % 2) * Pow2(limit);
    ReverseLocal(c, inp, DIST_SPECIAL + rep - slot - 1, rep, limit, 0, 1, inq, q);
  }

  lemma DistAdvances(c: Core, inp: seq<Byte>, len: nat)
    requires CoreOk(c) && len >= 2
    ensures c.rc.pos <= BitTree(c, inp, DIST_SLOT + 64 * DistState(len), 64, 1).0.rc.pos <= DistSymbol(c, inp, len).0.rc.pos
  {
    hide BitTree, SpecialDist, LongDist;
    BitTreeAdvances(c, inp, DIST_SLOT + 64 * DistState(len), 64, 1);
    var (c1, s) := BitTree(c, inp, DIST_SLOT + 64 * DistState(len), 64, 1);
    if 4 <= s - 64 < 14 { SpecialAdvances(c1, inp, s - 64); }
    if 14 <= s - 64 { LongAdvances(c1, inp, s - 64); }
  }

  lemma DistLocal(c: Core, inp: seq<Byte>, len: nat, inq: seq<Byte>, q: nat)
    requires CoreOk(c) && len >= 2 && c.rc.pos <= DistSymbol(c, inp, len).0.rc.pos
    requires Same(inp, c.rc.pos, inq, q, DistSymbol(c, inp, len).0.rc.pos - c.rc.pos)
    ensures DistSymbol(Shift(c, q), inq, len).1 == DistSymbol(c, inp, len).1
    ensures Moved(c, DistSymbol(c, inp, len).0, q, DistSymbol(Shift(c, q), inq, len).0)
  {
    hide BitTree, SpecialDist, LongDist, Same;
    DistAdvances(c, inp, len);
    var p := c.rc.pos;
    var end := DistSymbol(c, inp, len).0;
    var base := DIST_SLOT + 64 * DistState(len);
    var (c1, s) := BitTree(c, inp, base, 64, 1);
    SameBetween(inp, p, inq, q, end.rc.pos - p, c, c1);
    BitTreeLocal(c, inp, base, 64, 1, inq, q);
    SameBetween(inp, p, inq, q, end.rc.pos - p, c1, end);
    if 4 <= s - 64 < 14 { SpecialLocal(c1, inp, s - 64, inq, q + (c1.rc.pos - p)); }
    if 14 <= s - 64 { LongLocal(c1, inp, s - 64, inq, q + (c1.rc.pos - p)); }
  }

  lemma LiteralAdvances(c: Core, lz: Lz, inp: seq<Byte>, hist: seq<Byte>)
    requires CoreOk(c) && LzOk(lz) && (!IsLiteralState(lz.state) ==> lz.rep0 < |hist|)
    ensures c.rc.pos <= LiteralSymbol(c, lz, inp, hist).0.rc.pos
  {
    hide BitTree, MatchedLiteral, LzOk;
    var base := LiteralBase(lz, Back(hist, 0), |hist|);
    if IsLiteralState(lz.state) {
      BitTreeAdvances(c, inp, base, 0x100, 1);
    } else {
      MatchedAdvances(c, inp, base, 2 * Back(hist, lz.rep0), 0x100, 1);
    }
  }

  lemma LiteralLocal(c: Core, lz: Lz, inp: seq<Byte>, hist: seq<Byte>, inq: seq<Byte>, q: nat)
    requires CoreOk(c) && LzOk(lz) && (!IsLiteralState(lz.state) ==> lz.rep0 < |hist|)
    requires c.rc.pos <= LiteralSymbol(c, lz, inp, hist).0.rc.pos
    requires Same(inp, c.rc.pos, inq, q, LiteralSymbol(c, lz, inp, hist).0.rc.pos - c.rc.pos)
    ensures LiteralSymbol(Shift(c, q), lz, inq, hist).1 == LiteralSymbol(c, lz, inp, hist).1
    ensures Moved(c, LiteralSymbol(c, lz, inp, hist).0, q, LiteralSymbol(Shift(c, q), lz, inq, hist).0)
  {
    hide BitTree, MatchedLiteral, LzOk, Same, LiteralBase;
    var base := LiteralBase(lz, Back(hist, 0), |hist|);
    if IsLiteralState(lz.state) {
      BitTreeLocal(c, inp, base, 0x100, 1, inq, q);
    } else {
      MatchedLocal(c, inp, base, 2 * Back(hist, lz.rep0), 0x100, 1, inq, q);
    }
  }

  lemma RepMatchAdvances(c: Core, lz: Lz, inp: seq<Byte>, posState: nat)
    requires CoreOk(c) && LzOk(lz) && posState < 16
    ensures c.rc.pos <= RepMatchSymbol(c, lz, inp, posState).0.rc.pos
  {
    hide Bit, LenSymbol;
    BitAdvances(c, inp, IS_REP0 + lz.state);
    var (c1, b1) := Bit(c, inp, IS_REP0 + lz.state);
    if b1 == 0 {
      BitAdvances(c1, inp, IS_REP0_LONG + 16 * lz.state + posState);
      LenAdvances(Bit(c1, inp, IS_REP0_LONG + 16 * lz.state + posState).0, inp, REP_LEN, posState);
    } else {
      BitAdvances(c1, inp, IS_REP1 + lz.state);
      var (c2, b2) := Bit(c1, inp, IS_REP1 + lz.state);
      if b2 == 0 {
        LenAdvances(c2, inp, REP_LEN, posState);
      } else {
        BitAdvances(c2, inp, IS_REP2 + lz.state);
        LenAdvances(Bit(c2, inp, IS_REP2 + lz.state).0, inp, REP_LEN, posState);
      }
    }
  }

  lemma RepMatchLocal(c: Core, lz: Lz, inp: seq<Byte>, posState: nat, inq: seq<Byte>, q: nat)
    requires CoreOk(c) && LzOk(lz) && posState < 16
    requires c.rc.pos <= RepMatchSymbol(c, lz, inp, posState).0.rc.pos
    requires Same(inp, c.rc.pos, inq, q, RepMatchSymbol(c, lz, inp, posState).0.rc.pos - c.rc.pos)
    ensures RepMatchSymbol(Shift(c, q), lz, inq, posState).1 == RepMatchSymbol(c, lz, inp, posState).1
    ensures RepMatchSymbol(Shift(c, q), lz, inq, posState).2 == RepMatchSymbol(c, lz, inp, posState).2
    ensures Moved(c, RepMatchSymbol(c, lz, inp, posState).0, q, RepMatchSymbol(Shift(c, q), lz, inq, posState).0)
  {
    hide Bit, LenSymbol, Same, PropsOk;
    var p := c.rc.pos;
    var end := RepMatchSymbol(c, lz, inp, posState).0;
    var n := end.rc.pos - p;
    var i0 := IS_REP0 + lz.state;
    BitAdvances(c, inp, i0);
    var (c1, b1) := Bit(c, inp, i0);
    var i1 := if b1 == 0 then IS_REP0_LONG + 16 * lz.state + posState else IS_REP1 + lz.state;
    BitAdvances(c1, inp, i1);
    var (c2, b2) := Bit(c1, inp, i1);
    var q1 := q + (c1.rc.pos - p);
    var q2 := q + (c2.rc.pos - p);
    if b1 == 0 && b2 == 0 {
      SameBetween(inp, p, inq, q, n, c, c1);
      BitLocal(c, inp, i0, inq, q);
      SameBetween(inp, p, inq, q, n, c1, c2);
      BitLocal(c1, inp, i1, inq, q1);
    } else if b1 == 0 || b2 == 0 {
      LenAdvances(c2, inp, REP_LEN, posState);
      SameBetween(inp, p, inq, q, n, c, c1);
      BitLocal(c, inp, i0, inq, q);
      SameBetween(inp, p, inq, q, n, c1, c2);
      BitLocal(c1, inp, i1, inq, q1);
      SameBetween(inp, p, inq, q, n, c2, end);
      LenLocal(c2, inp, REP_LEN, posState, inq, q2);
    } else {
      BitAdvances(c2, inp, IS_REP2 + lz.state);
      var (c3, b3) := Bit(c2, inp, IS_REP2 + lz.state);
      LenAdvances(c3, inp, REP_LEN, posState);
      SameBetween(inp, p, inq, q, n, c, c1);
      BitLocal(c, inp, i0, inq, q);
      SameBetween(inp, p, inq, q, n, c1, c2);
      BitLocal(c1, inp, i1, inq, q1);
      SameBetween(inp, p, inq, q, n, c2, c3);
      BitLocal(c2, inp, IS_REP2 + lz.state, inq, q2);
      SameBetween(inp, p, inq, q, n, c3, end);
      LenLocal(c3, inp, REP_LEN, posState, inq, q + (c3.rc.pos - p));
    }
  }

  lemma MatchAdvances(c: Core, lz: Lz, inp: seq<Byte>, posState: nat)
    requires CoreOk(c) && LzOk(lz) && posState < 16
    ensures c.rc.pos <= LenSymbol(c, inp, MATCH_LEN, posState).0.rc.pos <= MatchSymbol(c, lz, inp, posState).0.rc.pos
  {
    hide LenSymbol, DistSymbol;
    LenAdvances(c, inp, MATCH_LEN, posState);
    var (c1, len) := LenSymbol(c, inp, MATCH_LEN, posState);
    DistAdvances(c1, inp, len);
  }

  lemma MatchLocal(c: Core, lz: Lz, inp: seq<Byte>, posState: nat, inq: seq<Byte>, q: nat)
    requires CoreOk(c) && LzOk(lz) && posState < 16 && c.rc.pos <= MatchSymbol(c, lz, inp, posState).0.rc.pos
    requires Same(inp, c.rc.pos, inq, q, MatchSymbol(c, lz, inp, posState).0.rc.pos - c.rc.pos)
    ensures MatchSymbol(Shift(c, q), lz, inq, posState).1 == MatchSymbol(c, lz, inp, posState).1
    ensures MatchSymbol(Shift(c, q), lz, inq, posState).2 == MatchSymbol(c, lz, inp, posState).2
    ensures Moved(c, MatchSymbol(c, lz, inp, posState).0, q, MatchSymbol(Shift(c, q), lz, inq, posState).0)
  {
    hide LenSymbol, DistSymbol, Same, PropsOk;
    MatchAdvances(c, lz, inp, posState);
    var p := c.rc.pos;
    var end := MatchSymbol(c, lz, inp, posState).0;
    var (c1, len) := LenSymbol(c, inp, MATCH_LEN, posState);
    SameBetween(inp, p, inq, q, end.rc.pos - p, c, c1);
    LenLocal(c, inp, MATCH_LEN, posState, inq, q);
    SameBetween(inp, p, inq, q, end.rc.pos - p, c1, end);
    DistLocal(c1, inp, len, inq, q + (c1.rc.pos - p));
  }

  lemma NonLiteralAdvances(c: Core, lz: Lz, inp: seq<Byte>, posState: nat)
    requires CoreOk(c) && LzOk(lz) && posState < 16
    ensures c.rc.pos <= Bit(c, inp, IS_REP + lz.state).0.rc.pos <= NonLiteralSymbol(c, lz, inp, posState).0.rc.pos
  {
    hide Bit, RepMatchSymbol, MatchSymbol;
    BitAdvances(c, inp, IS_REP + lz.state);
    var (c1, isRep) := Bit(c, inp, IS_REP + lz.state);
    RepMatchAdvances(c1, lz, inp, posState);
    MatchAdvances(c1, lz, inp, posState);
  }

  lemma NonLiteralLocal(c: Core, lz: Lz, inp: seq<Byte>, posState: nat, inq: seq<Byte>, q: nat)
    requires CoreOk(c) && LzOk(lz) && posState < 16 && c.rc.pos <= NonLiteralSymbol(c, lz, inp, posState).0.rc.pos
    requires Same(inp, c.rc.pos, inq, q, NonLiteralSymbol(c, lz, inp, posState).0.rc.pos - c.rc.pos)
    ensures NonLiteralSymbol(Shift(c, q), lz, inq, posState).1 == NonLiteralSymbol(c, lz, inp, posState).1
    ensures NonLiteralSymbol(Shift(c, q), lz, inq, posState).2 == NonLiteralSymbol(c, lz, inp, posState).2
    ensures Moved(c, NonLiteralSymbol(c, lz, inp, posState).0, q, NonLiteralSymbol(Shift(c, q), lz, inq, posState).0)
  {
    hide Bit, RepMatchSymbol, MatchSymbol, Same, PropsOk;
    NonLiteralAdvances(c, lz, inp, posState);
    var p := c.rc.pos;
    var end := NonLiteralSymbol(c, lz, inp, posState).0;
    var (c1, isRep) := Bit(c, inp, IS_REP + lz.state);
    SameBetween(inp, p, inq, q, end.rc.pos - p, c, c1);
    BitLocal(c, inp, IS_REP + lz.state, inq, q);
    SameBetween(inp, p, inq, q, end.rc.pos - p, c1, end);
    if isRep == 1 {
      RepMatchLocal(c1, lz, inp, posState, inq, q + (c1.rc.pos - p));
    } else {
      MatchLocal(c1, lz, inp, posState, inq, q + (c1.rc.pos - p));
    }
  }

  lemma SymbolAdvances(c: Core, lz: Lz, inp: seq<Byte>, hist: seq<Byte>)
    requires CoreOk(c) && LzOk(lz) && (!IsLiteralState(lz.state) ==> lz.rep0 < |hist|)
    ensures c.rc.pos <= Bit(c, inp, IS_MATCH + 16 * lz.state + PosState(lz, |hist|)).0.rc.pos <= Symbol(c, lz, inp, hist).0.rc.pos
  {
    hide Bit, LiteralSymbol, NonLiteralSymbol, PosState, PropsOk;
    var i := IS_MATCH + 16 * lz.state + PosState(lz, |hist|);
    BitAdvances(c, inp, i);
    var (c1, isMatch) := Bit(c, inp, i);
    LiteralAdvances(c1, lz, inp, hist);
    NonLiteralAdvances(c1, lz, inp, PosState(lz, |hist|));
  }

  /** One symbol from the same bytes elsewhere is the same symbol. */
  lemma SymbolLocal(c: Core, lz: Lz, inp: seq<Byte>, hist: seq<Byte>, inq: seq<Byte>, q: nat)
    requires CoreOk(c) && LzOk(lz) && (!IsLiteralState(lz.state) ==> lz.rep0 < |hist|)
    requires c.rc.pos <= Symbol(c, lz, inp, hist).0.rc.pos
    requires Same(inp, c.rc.pos, inq, q, Symbol(c, lz, inp, hist).0.rc.pos - c.rc.pos)
    ensures Symbol(Shift(c, q), lz, inq, hist).1 == Symbol(c, lz, inp, hist).1
    ensures Symbol(Shift(c, q), lz, inq, hist).2 == Symbol(c, lz, inp, hist).2
    ensures Moved(c, Symbol(c, lz, inp, hist).0, q, Symbol(Shift(c, q), lz, inq, hist).0)
  {
    hide Bit, LiteralSymbol, NonLiteralSymbol, Same, PropsOk, PosState;
    SymbolAdvances(c, lz, inp, hist);
    var p := c.rc.pos;
    var i := IS_MATCH + 16 * lz.state + PosState(lz, |hist|);
    var end := Symbol(c, lz, inp, hist).0;
    var (c1, isMatch) := Bit(c, inp, i);
    SameBetween(inp, p, inq, q, end.rc.pos - p, c, c1);
    BitLocal(c, inp, i, inq, q);
    SameBetween(inp, p, inq, q, end.rc.pos - p, c1, end);
    if isMatch == 0 {
      LiteralLocal(c1, lz, inp, hist, inq, q + (c1.rc.pos - p));
    } else {
      NonLiteralLocal(c1, lz, inp, PosState(lz, |hist|), inq, q + (c1.rc.pos - p));
    }
  }

  function ShiftM(m: Machine, to: nat): Machine { m.(core := Shift(m.core, to)) }

  lemma StepAdvances(m: Machine, inp: seq<Byte>, size: nat)
    requires MachineOk(m)
    ensures Step(m, inp, size).Some? ==> m.core.rc.pos <= Step(m, inp, size).value.core.rc.pos
  {
    hide Symbol;
    SymbolAdvances(m.core, m.lz, inp, m.hist);
  }

  lemma StepLocal(m: Machine, inp: seq<Byte>, size: nat, inq: seq<Byte>, q: nat)
    requires MachineOk(m) && Step(m, inp, size).Some?
    requires m.core.rc.pos <= Step(m, inp, size).value.core.rc.pos
    requires Same(inp, m.core.rc.pos, inq, q, Step(m, inp, size).value.core.rc.pos - m.core.rc.pos)
    ensures var m' := Step(m, inp, size).value;
            Step(ShiftM(m, q), inq, size) == Some(ShiftM(m', q + (m'.core.rc.pos - m.core.rc.pos)))
  {
    hide Symbol, Same, CopyFrom;
    SymbolLocal(m.core, m.lz, inp, m.hist, inq, q);
  }

  lemma {:induction false} StepsAdvance(m: Machine, inp: seq<Byte>, size: nat, k: nat)
    requires MachineOk(m)
    ensures Steps(m, inp, size, k).Some? ==> m.core.rc.pos <= Steps(m, inp, size, k).value.core.rc.pos
  {
    hide Step;
    if k > 0 && Steps(m, inp, size, k - 1).Some? {
      StepsAdvance(m, inp, size, k - 1);
      StepAdvances(Steps(m, inp, size, k - 1).value, inp, size);
    }
  }

  /** k symbols from the same bytes elsewhere are the same symbols. */
  lemma {:induction false} StepsLocal(m: Machine, inp: seq<Byte>, size: nat, k: nat, inq: seq<Byte>, q: nat)
    requires MachineOk(m) && Steps(m, inp, size, k).Some?
    requires m.core.rc.pos <= Steps(m, inp, size, k).value.core.rc.pos
    requires Same(inp, m.core.rc.pos, inq, q, Steps(m, inp, size, k).value.core.rc.pos - m.core.rc.pos)
    ensures var m' := Steps(m, inp, size, k).value;
            Steps(ShiftM(m, q), inq, size, k) == Some(ShiftM(m', q + (m'.core.rc.pos - m.core.rc.pos)))
  {
    hide Step, Same, MachineOk;
    ShiftOk(m, q);
    if k > 0 {
      var p := m.core.rc.pos;
      var m1 := Steps(m, inp, size, k - 1).value;
      var m' := Steps(m, inp, size, k).value;
      StepsAdvance(m, inp, size, k - 1);
      StepAdvances(m1, inp, size);
      SameBetween(inp, p, inq, q, m'.core.rc.pos - p, m.core, m1.core);
      StepsLocal(m, inp, size, k - 1, inq, q);
      SameBetween(inp, p, inq, q, m'.core.rc.pos - p, m1.core, m'.core);
      StepLocal(m1, inp, size, inq, q + (m1.core.rc.pos - p));
    }
  }

  lemma ShiftOk(m: Machine, q: nat)
    requires MachineOk(m)
    ensures MachineOk(ShiftM(m, q))
  {}

  /** Decoding on continues the run. */
  lemma {:induction false} StepsCompose(m: Machine, inp: seq<Byte>, size: nat, a: nat, b: nat)
    requires MachineOk(m) && Steps(m, inp, size, a).Some?
    ensures Steps(m, inp, size, a + b) == Steps(Steps(m, inp, size, a).value, inp, size, b)
  {
    hide Step, MachineOk;
    if b > 0 { StepsCompose(m, inp, size, a, b - 1); }
  }

  /** Normalising ahead of the run does not change it, once a symbol is decoded. */
  lemma {:induction false} StepsNormalized(m: Machine, inp: seq<Byte>, size: nat, k: nat)
    requires MachineOk(m) && k > 0
    ensures MachineOk(LzmaMachine.Ahead(m, inp)) && Steps(LzmaMachine.Ahead(m, inp), inp, size, k) == Steps(m, inp, size, k)
  {
    hide Step, MachineOk, Ahead;
    StepNormalized(m, inp, size);
    if k > 1 {
      StepsNormalized(m, inp, size, k - 1);
    } else {
      assert Steps(m, inp, size, 1 - 1) == Some(m);
      assert Steps(LzmaMachine.Ahead(m, inp), inp, size, 1 - 1) == Some(LzmaMachine.Ahead(m, inp));
    }
  }
}
