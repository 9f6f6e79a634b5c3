/** One LZMA symbol: literal, match or repeated match. */
module LzmaSymbol {
  import opened Common
  import opened LzmaRange

  const LIT_STATES := 7

  // lzma_state_literal, _match, _long_rep, _short_rep and _is_literal of xz_lzma2.h
  function StateLiteral(s: nat): nat
    requires s < 12
  { if s <= 3 then 0 else if s <= 9 then s - 3 else s - 6 }

  function StateMatch(s: nat): nat { if s < LIT_STATES then 7 else 10 }

  function StateLongRep(s: nat): nat { if s < LIT_STATES then 8 else 11 }

  function StateShortRep(s: nat): nat { if s < LIT_STATES then 9 else 11 }

  predicate IsLiteralState(s: nat) { s < LIT_STATES }

  /** The state counts exactly whether the latest symbol was a literal. */
  lemma StateTracksLatest(s: nat)
    requires s < 12
    ensures IsLiteralState(StateLiteral(s)) && StateLiteral(s) < 12
    ensures !IsLiteralState(StateMatch(s)) && !IsLiteralState(StateLongRep(s)) && !IsLiteralState(StateShortRep(s))
    ensures StateMatch(s) < 12 && StateLongRep(s) < 12 && StateShortRep(s) < 12
  {}

  /** The latest four distances, the state and the properties as masks. */
  datatype Lz = Lz(state: nat, rep0: nat, rep1: nat, rep2: nat, rep3: nat, lc: nat, lpMask: nat, pbMask: nat)

  predicate PropsOk(lc: nat, lpMask: nat, pbMask: nat) {
    && lc <= 4 && pbMask in {0, 1, 3, 7, 15}
    && lpMask in {0, 1, 3, 7, 15} && (lpMask + 1) * Pow2(lc) <= 16
  }

  predicate LzOk(lz: Lz) {
    && lz.state < 12 && PropsOk(lz.lc, lz.lpMask, lz.pbMask)
    && lz.rep0 < TWO32 && lz.rep1 < TWO32 && lz.rep2 < TWO32 && lz.rep3 < TWO32
  }

  /** What a symbol does to the history; the distance of a copy is rep0. */
  datatype Sym = Lit(byte: Byte) | Copy(len: nat)

  /** The byte at a distance back from the end; 0 when the history is empty. */
  function Back(hist: seq<Byte>, dist: nat): Byte
    requires dist < |hist| || hist == []
  {
    if hist == [] then 0 else hist[|hist| - 1 - dist]
  }

  /** lzma_literal_probs. */
  function LiteralBase(lz: Lz, prev: Byte, pos: nat): (base: nat)
    requires LzOk(lz)
    ensures LITERAL <= base && base + 0x300 <= PROBS_TOTAL
  {
    Pow2Small();
    LiteralIndex(lz, prev, pos);
    LITERAL + 0x300 * (prev / Pow2(8 - lz.lc) + (pos % (lz.lpMask + 1)) * Pow2(lz.lc))
  }

  lemma LiteralIndex(lz: Lz, prev: Byte, pos: nat)
    requires LzOk(lz)
    ensures prev / Pow2(8 - lz.lc) + (pos % (lz.lpMask + 1)) * Pow2(lz.lc) < 16
  {
    Pow2Small();
    assert Pow2(6) == 64 && Pow2(7) == 128 && Pow2(8) == 256;
    var k := Pow2(lz.lc);
    var low := prev / Pow2(8 - lz.lc);
    assert lz.lc == 0 || lz.lc == 1 || lz.lc == 2 || lz.lc == 3 || lz.lc == 4;
    assert low < k;
    var m := pos % (lz.lpMask + 1);
    assert m <= lz.lpMask;
    assert m * k <= lz.lpMask * k;
    assert (lz.lpMask + 1) * k == lz.lpMask * k + k;
  }

  /** lzma_literal: the byte. */
  function LiteralSymbol(c: Core, lz: Lz, inp: seq<Byte>, hist: seq<Byte>): (r: (Core, Byte))
    requires CoreOk(c) && LzOk(lz) && (!IsLiteralState(lz.state) ==> lz.rep0 < |hist|)
    ensures CoreOk(r.0)
  {
    var base := LiteralBase(lz, Back(hist, 0), |hist|);
    if IsLiteralState(lz.state) then
      var (c', s) := BitTree(c, inp, base, 0x100, 1);
      (c', s - 0x100)
    else
      var (c', s) := MatchedLiteral(c, inp, base, 2 * Back(hist, lz.rep0), 0x100, 1);
      (c', s - 0x100)
  }

  /** lzma_rep_match: which of the four distances, and the length. */
  function RepMatchSymbol(c: Core, lz: Lz, inp: seq<Byte>, posState: nat): (r: (Core, Lz, nat))
    requires CoreOk(c) && LzOk(lz) && posState < 16
    ensures CoreOk(r.0) && LzOk(r.1) && !IsLiteralState(r.1.state) && 1 <= r.2 <= 273
    ensures r.1.rep0 in {lz.rep0, lz.rep1, lz.rep2, lz.rep3}
  {
    StateTracksLatest(lz.state);
    var (c1, b1) := Bit(c, inp, IS_REP0 + lz.state);
    if b1 == 0 then
      var (c2, b2) := Bit(c1, inp, IS_REP0_LONG + 16 * lz.state + posState);
      if b2 == 0 then (c2, lz.(state := StateShortRep(lz.state)), 1)
      else
        var (c3, len) := LenSymbol(c2, inp, REP_LEN, posState);
        (c3, lz.(state := StateLongRep(lz.state)), len)
    else
      var (c2, b2) := Bit(c1, inp, IS_REP1 + lz.state);
      if b2 == 0 then
        var (c3, len) := LenSymbol(c2, inp, REP_LEN, posState);
        (c3, lz.(rep0 := lz.rep1, rep1 := lz.rep0, state := StateLongRep(lz.state)), len)
      else
        var (c3, b3) := Bit(c2, inp, IS_REP2 + lz.state);
        var (c4, len) := LenSymbol(c3, inp, REP_LEN, posState);
        if b3 == 0 then (c4, lz.(rep0 := lz.rep2, rep1 := lz.rep0, rep2 := lz.rep1, state := StateLongRep(lz.state)), len)
        else (c4, lz.(rep0 := lz.rep3, rep1 := lz.rep0, rep2 := lz.rep1, rep3 := lz.rep2, state := StateLongRep(lz.state)), len)
  }

  /** lzma_match: length, then a new distance in rep0. */
  function MatchSymbol(c: Core, lz: Lz, inp: seq<Byte>, posState: nat): (r: (Core, Lz, nat))
    requires CoreOk(c) && LzOk(lz) && posState < 16
    ensures CoreOk(r.0) && LzOk(r.1) && !IsLiteralState(r.1.state) && 2 <= r.2 <= 273
  {
    StateTracksLatest(lz.state);
    var (c1, len) := LenSymbol(c, inp, MATCH_LEN, posState);
    var (c2, dist) := DistSymbol(c1, inp, len);
    (c2, lz.(rep0 := dist, rep1 := lz.rep0, rep2 := lz.rep1, rep3 := lz.rep2, state := StateMatch(lz.state)), len)
  }

  /** A match or a repeated match. */
  function NonLiteralSymbol(c: Core, lz: Lz, inp: seq<Byte>, posState: nat): (r: (Core, Lz, nat))
    requires CoreOk(c) && LzOk(lz) && posState < 16
    ensures CoreOk(r.0) && LzOk(r.1) && !IsLiteralState(r.1.state) && 1 <= r.2 <= 273
  {
    var (c1, isRep) := Bit(c, inp, IS_REP + lz.state);
    if isRep == 1 then RepMatchSymbol(c1, lz, inp, posState) else MatchSymbol(c1, lz, inp, posState)
  }

  /** The low bits of the position select among the probabilities. */
  function PosState(lz: Lz, pos: nat): (r: nat)
    requires LzOk(lz)
    ensures r < 16
  {
    pos % (lz.pbMask + 1)
  }

  /** One round of lzma_main's loop, up to the dictionary update. */
  function Symbol(c: Core, lz: Lz, inp: seq<Byte>, hist: seq<Byte>): (r: (Core, Lz, Sym))
    requires CoreOk(c) && LzOk(lz) && (!IsLiteralState(lz.state) ==> lz.rep0 < |hist|)
    ensures CoreOk(r.0) && LzOk(r.1)
    ensures r.2.Lit? <==> IsLiteralState(r.1.state)
    ensures r.2.Copy? ==> 1 <= r.2.len <= 273
  {
    var posState := PosState(lz, |hist|);
    var (c1, isMatch) := Bit(c, inp, IS_MATCH + 16 * lz.state + posState);
    if isMatch == 0 then
      StateTracksLatest(lz.state);
      var (c2, byte) := LiteralSymbol(c1, lz, inp, hist);
      (c2, lz.(state := StateLiteral(lz.state)), Lit(byte))
    else
      var (c2, lz', len) := NonLiteralSymbol(c1, lz, inp, posState);
      (c2, lz', Copy(len))
  }
}
