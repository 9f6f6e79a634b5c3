/** The LZMA range decoder and the symbols built from it (xz_dec_lzma2.c), as
    functions of the probabilities, the decoder registers and the input. */
module LzmaRange {
  import opened Common


  const TOP := 0x100_0000         // RC_TOP_VALUE
  const TWO32 := 0x1_0000_0000
  const TOTAL := 2048             // RC_BIT_MODEL_TOTAL
  const PROB_MIN := 31
  const PROB_MAX := 2017
  const RANGE_MIN := 253952       // (TOP >> 11) * PROB_MIN

  // Layout of the probabilities: one block, as lzma_reset treats it.
  const IS_MATCH := 0
  const IS_REP := 192
  const IS_REP0 := 204
  const IS_REP1 := 216
  const IS_REP2 := 228
  const IS_REP0_LONG := 240
  const DIST_SLOT := 432
  const DIST_SPECIAL := 688
  const DIST_ALIGN := 802
  const MATCH_LEN := 818
  const REP_LEN := 1332
  const LITERAL := 1846
  const PROBS_TOTAL := 14134

  // Layout of a length decoder.
  const LEN_CHOICE := 0
  const LEN_CHOICE2 := 1
  const LEN_LOW := 2
  const LEN_MID := 130
  const LEN_HIGH := 258

  /** The registers; `pos` counts the bytes taken from the input. */
  datatype Rc = Rc(range: nat, code: nat, pos: nat)

  /** Registers and probabilities. */
  datatype Core = Core(rc: Rc, probs: seq<nat>)

  /** Input past the end reads as zero here; LzmaDecoder shows it is never read. */
  function ByteAt(inp: seq<Byte>, i: nat): Byte {
    if i < |inp| then inp[i] else 0
  }

  function Normalize(rc: Rc, inp: seq<Byte>): Rc {
    if rc.range < TOP
    then Rc((rc.range * 256) % TWO32, (rc.code * 256) % TWO32 + ByteAt(inp, rc.pos), rc.pos + 1)
    else rc
  }

  /** rc_bit: the bit, the registers after it and the adapted probability. */
  function BitRc(rc: Rc, inp: seq<Byte>, prob: nat): (Rc, nat)
    requires prob <= TOTAL
  {
    var n := Normalize(rc, inp);
    var bound := (n.range / TOTAL) * prob;
    assert bound <= n.range by { ShareBound(n.range, prob); }
    if n.code < bound then (Rc(bound, n.code, n.pos), 0)
    else (Rc(n.range - bound, n.code - bound, n.pos), 1)
  }

  function Adapt(prob: nat, bit: nat): nat
    requires prob <= TOTAL
  {
    if bit == 0 then prob + (TOTAL - prob) / 32 else prob - prob / 32
  }

  lemma ShareBound(range: nat, prob: nat)
    requires prob <= TOTAL
    ensures (range / TOTAL) * prob <= range
  {
    assert (range / TOTAL) * prob <= (range / TOTAL) * TOTAL;
  }

  predicate ProbsOk(probs: seq<nat>) {
    |probs| == PROBS_TOTAL && forall i :: 0 <= i < |probs| ==> PROB_MIN <= probs[i] <= PROB_MAX
  }

  predicate RcOk(rc: Rc) {
    RANGE_MIN <= rc.range < TWO32 && rc.code < TWO32
  }

  predicate CoreOk(c: Core) {
    RcOk(c.rc) && ProbsOk(c.probs)
  }

  function Bit(c: Core, inp: seq<Byte>, i: nat): (r: (Core, nat))
    requires CoreOk(c) && i < PROBS_TOTAL
    ensures CoreOk(r.0) && r.1 <= 1
  {
    BitKeeps(c.rc, inp, c.probs[i]);
    var (rc, bit) := BitRc(c.rc, inp, c.probs[i]);
    (Core(rc, c.probs[i := Adapt(c.probs[i], bit)]), bit)
  }

  /** One byte always brings the range back to at least 2^24. */
  lemma NormalizeRestores(rc: Rc, inp: seq<Byte>)
    requires RcOk(rc)
    ensures RcOk(Normalize(rc, inp)) && Normalize(rc, inp).range >= TOP
    ensures Normalize(Normalize(rc, inp), inp) == Normalize(rc, inp)
    ensures rc.range < TOP ==> Normalize(rc, inp).range == rc.range * 256
  {}

  /** Both parts of a split range are at least 31/2048 of it. */
  lemma SplitBounds(range: nat, prob: nat)
    requires range >= TOP && PROB_MIN <= prob <= PROB_MAX
    ensures var q := range / TOTAL;
            q * PROB_MIN >= RANGE_MIN && q * PROB_MIN <= q * prob && q * PROB_MIN <= range - q * prob
  {
    var q := range / TOTAL;
    assert q >= 8192;
    assert q * TOTAL <= range;
    assert q * prob <= q * PROB_MAX;
    assert q * TOTAL == q * PROB_MAX + q * PROB_MIN;
  }

  /** Probabilities stay in [31, 2017]. */
  lemma AdaptKeeps(prob: nat, bit: nat)
    requires PROB_MIN <= prob <= PROB_MAX
    ensures PROB_MIN <= Adapt(prob, bit) <= PROB_MAX
  {}

  /** The range stays at least (2^24 >> 11) * 31. */
  lemma BitKeeps(rc: Rc, inp: seq<Byte>, prob: nat)
    requires RcOk(rc) && PROB_MIN <= prob <= PROB_MAX
    ensures var (rc', bit) := BitRc(rc, inp, prob);
            && RcOk(rc') && bit <= 1 && PROB_MIN <= Adapt(prob, bit) <= PROB_MAX
            && rc'.range >= (Normalize(rc, inp).range / TOTAL) * PROB_MIN
            && rc'.pos == Normalize(rc, inp).pos
  {
    NormalizeRestores(rc, inp);
    var n := Normalize(rc, inp);
    SplitBounds(n.range, prob);
    AdaptKeeps(prob, 0);
    AdaptKeeps(prob, 1);
    hide Normalize, Adapt;
  }

  /** rc_bittree, from `symbol` on; with probabilities at base + symbol. */
  function BitTree(c: Core, inp: seq<Byte>, base: nat, limit: nat, symbol: nat): (r: (Core, nat))
    requires CoreOk(c) && 1 <= symbol && base + limit <= PROBS_TOTAL
    ensures CoreOk(r.0) && limit <= r.1 && (symbol < limit ==> r.1 < 2 * limit) && (symbol >= limit ==> r.1 == symbol)
    decreases limit - symbol
  {
    if symbol >= limit then (c, symbol)
    else
      var (c', bit) := Bit(c, inp, base + symbol);
      BitTree(c', inp, base, limit, 2 * symbol + bit)
  }

  /** rc_bittree_reverse from bit i on. */
  function BitTreeReverse(c: Core, inp: seq<Byte>, base: nat, dest: nat, limit: nat, i: nat, symbol: nat): (r: (Core, nat))
    requires CoreOk(c) && i <= limit && Pow2(i) <= symbol < 2 * Pow2(i)
    requires base + Pow2(limit) <= PROBS_TOTAL
    ensures CoreOk(r.0) && dest <= r.1 < dest + Pow2(limit) - Pow2(i) + 1
    decreases limit - i
  {
    if i == limit then (c, dest)
    else
      Pow2Mono(i, limit);
      assert symbol < Pow2(limit);
      var (c', bit) := Bit(c, inp, base + symbol);
      BitTreeReverse(c', inp, base, if bit == 1 then dest + Pow2(i) else dest, limit, i + 1, 2 * symbol + bit)
  }

  /** One step of rc_direct, with its sign-bit mask. */
  function DirectRc(rc: Rc, inp: seq<Byte>): (Rc, nat) {
    var n := Normalize(rc, inp);
    var half := n.range / 2;
    var diff := (n.code + TWO32 - half % TWO32) % TWO32;
    var negative := diff >= TWO32 / 2;
    (Rc(half, if negative then (diff + half) % TWO32 else diff, n.pos), if negative then 0 else 1)
  }

  lemma NormalizeKeepsBelow(rc: Rc, inp: seq<Byte>)
    requires RcOk(rc) && rc.code < rc.range
    ensures var n := Normalize(rc, inp); n.code < n.range
  {}

  /** With code below range, as every stream an encoder writes has it, a bit with
      a probability picks the part of the range the code lies in and keeps the
      code below the new range. */
  lemma BitPicksPart(rc: Rc, inp: seq<Byte>, prob: nat)
    requires RcOk(rc) && rc.code < rc.range && PROB_MIN <= prob <= PROB_MAX
    ensures var n := Normalize(rc, inp);
            var bound := (n.range / TOTAL) * prob;
            var (b, bit) := BitRc(rc, inp, prob);
            && bit == (if n.code < bound then 0 else 1)
            && b.range == (if bit == 0 then bound else n.range - bound)
            && b.code == n.code - bit * bound && b.code < b.range
  {
    NormalizeRestores(rc, inp);
    NormalizeKeepsBelow(rc, inp);
    SplitBounds(Normalize(rc, inp).range, prob);
    hide Normalize;
  }

  /** The sign-bit mask of rc_direct is the comparison with half the range. Halving
      drops the last value of an odd range, and only a code with that value is then
      no longer below the range. */
  lemma DirectPicksHalf(rc: Rc, inp: seq<Byte>)
    requires RcOk(rc) && rc.code < rc.range
    ensures var n := Normalize(rc, inp);
            var half := n.range / 2;
            var (d, bit) := DirectRc(rc, inp);
            && bit == (if n.code < half then 0 else 1)
            && d == Rc(half, if bit == 0 then n.code else n.code - half, n.pos)
            && (d.code < d.range <==> n.range % 2 == 0 || n.code < n.range - 1)
  {
    NormalizeRestores(rc, inp);
    NormalizeKeepsBelow(rc, inp);
    hide Normalize;
    var n := Normalize(rc, inp);
    var half := n.range / 2;
    assert half < TWO32 / 2 && n.code < 2 * half + 2;
    assert half % TWO32 == half;
    if n.code < half {
      var diff := n.code + TWO32 - half;
      assert diff % TWO32 == diff >= TWO32 / 2;
      assert (diff + half) % TWO32 == n.code;
    } else {
      assert (n.code + TWO32 - half) % TWO32 == n.code - half < TWO32 / 2;
    }
  }

  /** So it is with the registers that the initial bytes 00 FF FF FF FE leave. */
  lemma DirectDropsLast()
    ensures var rc := Rc(TWO32 - 1, TWO32 - 2, 0);
            var (d, bit) := DirectRc(rc, []);
            RcOk(rc) && rc.code < rc.range && d.code == d.range
  {
    DirectPicksHalf(Rc(TWO32 - 1, TWO32 - 2, 0), []);
  }

  function Direct(c: Core, inp: seq<Byte>, dest: nat, limit: nat): (r: (Core, nat))
    requires CoreOk(c)
    ensures CoreOk(r.0)
    decreases limit
  {
    if limit == 0 then (c, dest)
    else
      NormalizeRestores(c.rc, inp);
      var (rc, bit) := DirectRc(c.rc, inp);
      Direct(Core(rc, c.probs), inp, 2 * dest + bit, limit - 1)
  }

  lemma DirectUnroll(c: Core, inp: seq<Byte>, dest: nat, limit: nat)
    requires CoreOk(c) && limit > 0
    ensures var (rc, bit) := DirectRc(c.rc, inp);
            && CoreOk(Core(rc, c.probs)) && c.rc.pos <= rc.pos == Normalize(c.rc, inp).pos
            && Direct(c, inp, dest, limit) == Direct(Core(rc, c.probs), inp, 2 * dest + bit, limit - 1)
  {
    NormalizeRestores(c.rc, inp);
  }

  /** n direct bits extend dest by n binary digits. */
  lemma {:induction false} DirectDigits(c: Core, inp: seq<Byte>, dest: nat, limit: nat)
    requires CoreOk(c)
    ensures dest * Pow2(limit) <= Direct(c, inp, dest, limit).1 < (dest + 1) * Pow2(limit)
    decreases limit
  {
    if limit > 0 {
      NormalizeRestores(c.rc, inp);
      var (rc, bit) := DirectRc(c.rc, inp);
      DirectDigits(Core(rc, c.probs), inp, 2 * dest + bit, limit - 1);
      DigitStep(dest, bit, Pow2(limit - 1));
    }
  }

  lemma DigitStep(dest: nat, bit: nat, k: nat)
    requires bit <= 1
    ensures dest * (2 * k) <= (2 * dest + bit) * k && (2 * dest + bit + 1) * k <= (dest + 1) * (2 * k)
  {
    assert dest * (2 * k) == (2 * dest) * k;
    assert (dest + 1) * (2 * k) == (2 * dest + 2) * k;
  }

  // ------------------------------------------------------------------ symbols

  /** match_bit: the next bit of the match byte, as long as all bits were equal. */
  function MatchBit(m: nat, offset: nat): (r: nat)
    requires offset == 0 || offset == 0x100
    ensures r == 0 || r == offset
  {
    if offset == 0 then 0 else (m / 256 % 2) * 256
  }

  /** The literal decoded with a match byte: `m` is the byte shifted so that the
      current bit is bit 8, `offset` is 0x100 until a decoded bit differs. */
  function MatchedLiteral(c: Core, inp: seq<Byte>, base: nat, m: nat, offset: nat, symbol: nat): (r: (Core, nat))
    requires CoreOk(c) && base + 0x300 <= PROBS_TOTAL && (offset == 0 || offset == 0x100) && 1 <= symbol
    ensures CoreOk(r.0) && 0x100 <= r.1 && (symbol < 0x100 ==> r.1 < 0x200) && (symbol >= 0x100 ==> r.1 == symbol)
    decreases 0x100 - symbol
  {
    if symbol >= 0x100 then (c, symbol)
    else
      var matchBit := MatchBit(m, offset);
      var (c', bit) := Bit(c, inp, base + offset + matchBit + symbol);
      MatchedLiteral(c', inp, base, 2 * m, if bit == 1 then matchBit else offset - matchBit, 2 * symbol + bit)
  }

  lemma MatchedUnroll(c: Core, inp: seq<Byte>, base: nat, m: nat, offset: nat, symbol: nat)
    requires CoreOk(c) && base + 0x300 <= PROBS_TOTAL && (offset == 0 || offset == 0x100) && 1 <= symbol
    ensures MatchedLiteral(c, inp, base, m, offset, symbol) ==
            if symbol >= 0x100 then (c, symbol)
            else
              var matchBit := MatchBit(m, offset);
              var (c', bit) := Bit(c, inp, base + offset + matchBit + symbol);
              MatchedLiteral(c', inp, base, 2 * m, if bit == 1 then matchBit else offset - matchBit, 2 * symbol + bit)
  {
    hide Bit, MatchBit;
  }

  /** lzma_len: the match length, 2 to 273. */
  function LenSymbol(c: Core, inp: seq<Byte>, base: nat, posState: nat): (r: (Core, nat))
    requires CoreOk(c) && posState < 16 && base + 514 <= PROBS_TOTAL
    ensures CoreOk(r.0) && 2 <= r.1 <= 273
  {
    var (c1, choice) := Bit(c, inp, base + LEN_CHOICE);
    if choice == 0 then
      var (c2, s) := BitTree(c1, inp, base + LEN_LOW + 8 * posState, 8, 1);
      (c2, 2 + s - 8)
    else
      var (c2, choice2) := Bit(c1, inp, base + LEN_CHOICE2);
      if choice2 == 0 then
        var (c3, s) := BitTree(c2, inp, base + LEN_MID + 8 * posState, 8, 1);
        (c3, 10 + s - 8)
      else
        var (c3, s) := BitTree(c2, inp, base + LEN_HIGH, 256, 1);
        (c3, 18 + s - 256)
  }

  /** lzma_get_dist_state. */
  function DistState(len: nat): (r: nat)
    requires len >= 2
    ensures r < 4
  {
    if len < 6 then len - 2 else 3
  }

  lemma Pow2Small()
    ensures Pow2(0) == 1 && Pow2(1) == 2 && Pow2(2) == 4 && Pow2(3) == 8 && Pow2(4) == 16 && Pow2(5) == 32
  {}

  lemma Pow2At26()
    ensures Pow2(26) == 0x400_0000
  {
    assert Pow2(8) == 256;
    assert Pow2(16) == 65536;
    assert Pow2(24) == 0x100_0000;
  }

  /** Distances 4 to 127: all low bits from dist_special. */
  function SpecialDist(c: Core, inp: seq<Byte>, slot: nat): (r: (Core, nat))
    requires CoreOk(c) && 4 <= slot < 14
    ensures CoreOk(r.0) && r.1 < 128
  {
    Pow2Small();
    SpecialIndex(slot);
    var limit := slot / 2 - 1;
    var rep := (2 + slot % 2) * Pow2(limit);
    BitTreeReverse(c, inp, DIST_SPECIAL + rep - slot - 1, rep, limit, 0, 1)
  }

  lemma LongDirect(c: Core, inp: seq<Byte>, dest: nat, limit: nat)
    requires CoreOk(c) && dest <= 3 && limit <= 26
    ensures Direct(c, inp, dest, limit).1 < 0x1000_0000
  {
    hide Direct, Pow2;
    DirectDigits(c, inp, dest, limit);
    Pow2Monotone(limit, 26);
    Pow2At26();
    assert (dest + 1) * Pow2(limit) <= 4 * Pow2(limit);
  }

  /** Distances from 128: direct bits, then four align bits. */
  function LongDist(c: Core, inp: seq<Byte>, slot: nat): (r: (Core, nat))
    requires CoreOk(c) && 14 <= slot < 64
    ensures CoreOk(r.0) && r.1 < TWO32
  {
    var limit := slot / 2 - 1;
    LongDirect(c, inp, 2 + slot % 2, limit - 4);
    var (c1, d) := Direct(c, inp, 2 + slot % 2, limit - 4);
    Pow2Small();
    BitTreeReverse(c1, inp, DIST_ALIGN, 16 * d, 4, 0, 1)
  }

  /** The distance of a match of the given length (lzma_match after lzma_len):
      a 32-bit value, with every probability index inside the block. */
  function DistSymbol(c: Core, inp: seq<Byte>, len: nat): (r: (Core, nat))
    requires CoreOk(c) && len >= 2
    ensures CoreOk(r.0) && r.1 < TWO32
  {
    var (c1, s) := BitTree(c, inp, DIST_SLOT + 64 * DistState(len), 64, 1);
    var slot := s - 64;
    if slot < 4 then (c1, slot) else if slot < 14 then SpecialDist(c1, inp, slot) else LongDist(c1, inp, slot)
  }

  lemma Pow2Monotone(a: nat, b: nat)
    requires a <= b
    ensures Pow2(a) <= Pow2(b)
  {
    if a < b { Pow2Mono(a, b); }
  }

  /** dist_special + rep0 - slot - 1 + symbol never leaves dist_special. */
  lemma SpecialIndex(slot: nat)
    requires 4 <= slot < 14
    ensures var limit := slot / 2 - 1;
            var rep := (2 + slot % 2) * Pow2(limit);
            0 <= rep - slot && rep - slot - 1 + Pow2(limit) <= 114 && rep + Pow2(limit) <= 128
  {
    Pow2Small();
    var limit := slot / 2 - 1;
    assert limit == 1 || limit == 2 || limit == 3 || limit == 4 || limit == 5;
  }
}
