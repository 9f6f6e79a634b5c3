/** The decoder's symbols are the writer's: a decoder that makes the choices of a
    symbol returns this symbol, and so for lists of symbols. */
module LzmaRoundTrip {
  import opened Common
  import opened LzmaRange
  import opened LzmaSymbol
  import opened LzmaDict
  import opened LzmaMachine
  import opened LzmaFormat
  import opened LzmaTrack
  import opened LzmaWhole

  // ---------------------------------------------------------------------- choices

  /** The decoder makes the first choice and goes on with the others. */
  lemma DecideFirst(c: Core, inp: seq<Byte>, ch: Choice, rest: seq<Choice>)
    requires CoreOk(c) && Decide(c, inp, [ch] + rest).Some?
    ensures Pick(c, inp, ch).Some? && Decide(c, inp, [ch] + rest) == Decide(Pick(c, inp, ch).value, inp, rest)
  {
    hide Pick, CoreOk;
    assert ([ch] + rest)[1..] == rest;
  }

  /** A bit with a probability. */
  lemma DecideBit(c: Core, inp: seq<Byte>, x: Context, bit: nat, rest: seq<Choice>, i: nat)
    requires CoreOk(c) && Decide(c, inp, [Coded(x, bit)] + rest).Some? && (Good(x) ==> Index(x) == i)
    ensures i < PROBS_TOTAL && Bit(c, inp, i).1 == bit
    ensures Decide(Bit(c, inp, i).0, inp, rest) == Decide(c, inp, [Coded(x, bit)] + rest)
  {
    hide Bit, Decide, Good, Index, CoreOk;
    DecideFirst(c, inp, Coded(x, bit), rest);
    OwnProbability(x);
  }

  lemma DecideFlat(c: Core, inp: seq<Byte>, bit: nat, rest: seq<Choice>)
    requires CoreOk(c) && Decide(c, inp, [Flat(bit)] + rest).Some?
    ensures var (rc, b) := DirectRc(c.rc, inp);
            b == bit && CoreOk(Core(rc, c.probs)) && Decide(Core(rc, c.probs), inp, rest) == Decide(c, inp, [Flat(bit)] + rest)
  {
    DecideFirst(c, inp, Flat(bit), rest);
    hide Decide, DirectRc, ProbsOk;
  }

  // ------------------------------------------------------------------------ numbers

  /** v written in n digits behind those of x. */
  function Behind(x: nat, n: nat, v: nat): nat { x * Pow2(n) + v }

  /** The first of the digits goes to the others. */
  lemma BehindNext(x: nat, n: nat, v: nat)
    requires n > 0 && v < Pow2(n)
    ensures LowDigits(v, n) < Pow2(n - 1) && Behind(2 * x + TopDigit(v, n), n - 1, LowDigits(v, n)) == Behind(x, n, v)
  {
    var b, p := TopDigit(v, n), Pow2(n - 1);
    assert Pow2(n) == 2 * p;
    hide Pow2;
    if b == 1 {
      assert (2 * x + 1) * p + (v - p) == x * (2 * p) + v;
    } else {
      assert (2 * x) * p == x * (2 * p);
    }
  }

  /** A node k levels below the root. */
  predicate AtLevel(node: nat, k: nat) { Pow2(k) <= node < 2 * Pow2(k) }

  lemma NextLevel(node: nat, k: nat, b: nat)
    requires AtLevel(node, k) && b <= 1
    ensures AtLevel(2 * node + b, k + 1)
  {}

  lemma AboveLeaves(node: nat, k: nat, n: nat)
    requires AtLevel(node, k) && k <= n
    ensures node >= 1 && (node < Pow2(n) <==> k < n)
  {
    if k < n { Pow2Mono(k, n); }
  }

  lemma DownTreeIs(t: Tree, n: nat, v: nat, node: nat)
    requires n > 0
    ensures var b := TopDigit(v, n);
            DownTree(t, n, v, node) == [Coded(Node(t, node), b)] + DownTree(t, n - 1, LowDigits(v, n), 2 * node + b)
  {}

  lemma BitTreeIs(c: Core, inp: seq<Byte>, base: nat, limit: nat, node: nat)
    requires CoreOk(c) && 1 <= node < limit && base + limit <= PROBS_TOTAL
    ensures var (c', bit) := Bit(c, inp, base + node);
            BitTree(c, inp, base, limit, node) == BitTree(c', inp, base, limit, 2 * node + bit)
  {
    hide Bit, CoreOk;
  }

  lemma TreeEnds(c: Core, inp: seq<Byte>, t: Tree, base: nat, limit: nat, v: nat, node: nat)
    requires CoreOk(c) && limit <= node && 1 <= node && base + limit <= PROBS_TOTAL && v < Pow2(0)
    ensures BitTree(c, inp, base, limit, node) == (c, Behind(node, 0, v)) && Decide(c, inp, DownTree(t, 0, v, node)) == Some(c)
  {}

  /** Down a tree of size Pow2(levels): from `node` on, n levels above the leaves. */
  lemma {:induction false} TreeReads(c: Core, inp: seq<Byte>, t: Tree, base: nat, levels: nat, n: nat, v: nat, node: nat)
    requires CoreOk(c) && TreeGood(t) && base == TreeBase(t) && n <= levels && base + Pow2(levels) <= PROBS_TOTAL
    requires AtLevel(node, levels - n) && v < Pow2(n)
    requires Decide(c, inp, DownTree(t, n, v, node)).Some?
    ensures node >= 1
    ensures BitTree(c, inp, base, Pow2(levels), node) == (Decide(c, inp, DownTree(t, n, v, node)).value, Behind(node, n, v))
    decreases n
  {
    hide Bit, Decide, CoreOk, TreeGood, TreeBase, Behind, AtLevel, Pow2, BitTree, DownTree, TopDigit, LowDigits;
    AboveLeaves(node, levels - n, levels);
    if n == 0 {
      TreeEnds(c, inp, t, base, Pow2(levels), v, node);
    } else {
      var b := TopDigit(v, n);
      BehindNext(node, n, v);
      var v' := LowDigits(v, n);
      DownTreeIs(t, n, v, node);
      IndexOfNode(t, node);
      DecideBit(c, inp, Node(t, node), b, DownTree(t, n - 1, v', 2 * node + b), base + node);
      BitTreeIs(c, inp, base, Pow2(levels), node);
      NextLevel(node, levels - n, b);
      TreeReads(Bit(c, inp, base + node).0, inp, t, base, levels, n - 1, v', 2 * node + b);
    }
  }

  lemma IndexOfNode(t: Tree, node: nat)
    ensures Good(Node(t, node)) ==> Index(Node(t, node)) == TreeBase(t) + node
  {}

  /** v, from place i on, added to x. */
  function Above(x: nat, i: nat, v: nat): nat { x + v * Pow2(i) }

  lemma AboveNext(x: nat, i: nat, v: nat)
    ensures Above(if v % 2 == 1 then x + Pow2(i) else x, i + 1, v / 2) == Above(x, i, v)
  {
    var p, h := Pow2(i), v / 2;
    assert Pow2(i + 1) == 2 * p;
    hide Pow2;
    assert v == 2 * h + v % 2;
    if v % 2 == 1 {
      assert (2 * h + 1) * p == h * (2 * p) + p;
    } else {
      assert (2 * h) * p == h * (2 * p);
    }
  }

  lemma HalfFits(v: nat, n: nat)
    requires n > 0 && v < Pow2(n)
    ensures v / 2 < Pow2(n - 1)
  {}

  lemma ReverseIs(c: Core, inp: seq<Byte>, base: nat, dest: nat, limit: nat, i: nat, symbol: nat)
    requires CoreOk(c) && i < limit && AtLevel(symbol, i) && base + Pow2(limit) <= PROBS_TOTAL && symbol < Pow2(limit)
    ensures var (c', bit) := Bit(c, inp, base + symbol);
            && AtLevel(2 * symbol + bit, i + 1)
            && BitTreeReverse(c, inp, base, dest, limit, i, symbol) ==
               BitTreeReverse(c', inp, base, if bit == 1 then dest + Pow2(i) else dest, limit, i + 1, 2 * symbol + bit)
  {
    hide Bit, CoreOk;
  }

  lemma DownReversedIs(t: Tree, n: nat, v: nat, node: nat)
    requires n > 0
    ensures DownReversed(t, n, v, node) == [Coded(Node(t, node), v % 2)] + DownReversed(t, n - 1, v / 2, 2 * node + v % 2)
  {}

  lemma ReverseEnds(c: Core, inp: seq<Byte>, t: Tree, base: nat, dest: nat, levels: nat, v: nat, node: nat)
    requires CoreOk(c) && AtLevel(node, levels) && base + Pow2(levels) <= PROBS_TOTAL && v < Pow2(0)
    ensures BitTreeReverse(c, inp, base, dest, levels, levels, node) == (c, Above(dest, levels, v))
    ensures Decide(c, inp, DownReversed(t, 0, v, node)) == Some(c)
  {
    hide CoreOk;
  }

  /** The reverse, from bit i on. */
  lemma {:induction false} ReverseReads(c: Core, inp: seq<Byte>, t: Tree, base: nat, dest: nat, levels: nat, i: nat, v: nat, node: nat)
    requires CoreOk(c) && TreeGood(t) && base == TreeBase(t) && i <= levels && base + Pow2(levels) <= PROBS_TOTAL
    requires AtLevel(node, i) && v < Pow2(levels - i)
    requires Decide(c, inp, DownReversed(t, levels - i, v, node)).Some?
    ensures BitTreeReverse(c, inp, base, dest, levels, i, node) ==
            (Decide(c, inp, DownReversed(t, levels - i, v, node)).value, Above(dest, i, v))
    decreases levels - i
  {
    hide Bit, Decide, CoreOk, TreeGood, TreeBase, Above, Pow2, BitTreeReverse, DownReversed;
    AboveLeaves(node, i, levels);
    if i == levels {
      ReverseEnds(c, inp, t, base, dest, levels, v, node);
    } else {
      var n := levels - i;
      var b := v % 2;
      DownReversedIs(t, n, v, node);
      HalfFits(v, n);
      IndexOfNode(t, node);
      DecideBit(c, inp, Node(t, node), b, DownReversed(t, n - 1, v / 2, 2 * node + b), base + node);
      ReverseIs(c, inp, base, dest, levels, i, node);
      ReverseReads(Bit(c, inp, base + node).0, inp, t, base, if b == 1 then dest + Pow2(i) else dest, levels, i + 1, v / 2, 2 * node + b);
      AboveNext(dest, i, v);
    }
  }

  lemma FlatDigitsIs(n: nat, v: nat)
    requires n > 0
    ensures FlatDigits(n, v) == [Flat(TopDigit(v, n))] + FlatDigits(n - 1, LowDigits(v, n))
  {}

  lemma FlatEnds(c: Core, inp: seq<Byte>, dest: nat, v: nat)
    requires CoreOk(c) && v < Pow2(0)
    ensures Direct(c, inp, dest, 0) == (c, Behind(dest, 0, v)) && Decide(c, inp, FlatDigits(0, v)) == Some(c)
  {}

  lemma {:induction false} FlatReads(c: Core, inp: seq<Byte>, dest: nat, n: nat, v: nat)
    requires CoreOk(c) && v < Pow2(n) && Decide(c, inp, FlatDigits(n, v)).Some?
    ensures Direct(c, inp, dest, n) == (Decide(c, inp, FlatDigits(n, v)).value, Behind(dest, n, v))
    decreases n
  {
    hide Decide, DirectRc, CoreOk, Pow2, Behind, FlatDigits, Direct, TopDigit, LowDigits;
    if n == 0 {
      FlatEnds(c, inp, dest, v);
    } else {
      var b := TopDigit(v, n);
      BehindNext(dest, n, v);
      var v' := LowDigits(v, n);
      FlatDigitsIs(n, v);
      DecideFlat(c, inp, b, FlatDigits(n - 1, v'));
      DirectUnroll(c, inp, dest, n);
      FlatReads(Core(DirectRc(c.rc, inp).0, c.probs), inp, 2 * dest + b, n - 1, v');
    }
  }

  // ------------------------------------------------------------------------ lengths

  lemma TreeFits(t: Tree)
    requires TreeGood(t)
    ensures TreeBase(t) + Pow2(Levels(t)) <= PROBS_TOTAL
  {
    LevelSizes();
    if t.SpecialTree? { SpecialIndex(t.slot); }
    hide Pow2;
  }

  lemma RootLevel(n: nat, v: nat)
    ensures AtLevel(1, 0) && Behind(1, n, v) == Pow2(n) + v
  {}

  /** A whole tree. */
  lemma WholeTree(c: Core, inp: seq<Byte>, t: Tree, n: nat, size: nat, base: nat, v: nat)
    requires CoreOk(c) && TreeGood(t) && n == Levels(t) && size == Pow2(n) && base == TreeBase(t) && v < size
    requires Decide(c, inp, DownTree(t, n, v, 1)).Some?
    ensures base + size <= PROBS_TOTAL
    ensures BitTree(c, inp, base, size, 1) == (Decide(c, inp, DownTree(t, n, v, 1)).value, size + v)
  {
    hide Decide, CoreOk, TreeGood, TreeBase, Levels, DownTree, BitTree, AtLevel, Behind, Pow2;
    TreeFits(t);
    RootLevel(n, v);
    TreeReads(c, inp, t, base, n, n, v, 1);
  }

  lemma LenReads(c: Core, inp: seq<Byte>, rep: bool, pos: nat, len: nat)
    requires CoreOk(c) && pos < 16 && LenFits(len) && Decide(c, inp, LenChoices(rep, pos, len)).Some?
    ensures LenSymbol(c, inp, LenBase(rep), pos) == (Decide(c, inp, LenChoices(rep, pos, len)).value, len)
  {
    hide Decide, CoreOk, DownTree, BitTree, Bit;
    LevelSizes();
    hide Pow2;
    var base := LenBase(rep);
    if len < 10 {
      var rest := DownTree(LowTree(rep, pos), 3, len - 2, 1);
      DecideBit(c, inp, LenChoice(rep), 0, rest, base + LEN_CHOICE);
      var c1 := Bit(c, inp, base + LEN_CHOICE).0;
      WholeTree(c1, inp, LowTree(rep, pos), 3, 8, base + LEN_LOW + 8 * pos, len - 2);
    } else {
      var last := if len < 18 then 0 else 1;
      var rest := if len < 18 then DownTree(MidTree(rep, pos), 3, len - 10, 1) else DownTree(HighTree(rep), 8, len - 18, 1);
      assert LenChoices(rep, pos, len) == [Coded(LenChoice(rep), 1)] + ([Coded(LenChoice2(rep), last)] + rest);
      DecideBit(c, inp, LenChoice(rep), 1, [Coded(LenChoice2(rep), last)] + rest, base + LEN_CHOICE);
      var c1 := Bit(c, inp, base + LEN_CHOICE).0;
      DecideBit(c1, inp, LenChoice2(rep), last, rest, base + LEN_CHOICE2);
      var c2 := Bit(c1, inp, base + LEN_CHOICE2).0;
      if len < 18 {
        WholeTree(c2, inp, MidTree(rep, pos), 3, 8, base + LEN_MID + 8 * pos, len - 10);
      } else {
        WholeTree(c2, inp, HighTree(rep), 8, 256, base + LEN_HIGH, len - 18);
      }
    }
  }

  // ---------------------------------------------------------------------- distances

  lemma Pow2At32()
    ensures Pow2(32) == TWO32
  {
    Pow2At26();
    assert Pow2(32) == 64 * Pow2(26);
  }

  /** A distance from 4 on: slot and low digits. */
  lemma DistParts(dist: nat)
    requires 4 <= dist < TWO32
    ensures 4 <= DistSlot(dist) < 64 && DistLow(dist) < Pow2(DistSlot(dist) / 2 - 1)
    ensures dist == SlotStart(DistSlot(dist)) + DistLow(dist)
  {
    var k := Log2(dist);
    LogFits(dist);
    assert Pow2(k) == 2 * Pow2(k - 1);
    var p, slot := Pow2(k - 1), 2 * k + TopDigit(dist - Pow2(k), k);
    hide Pow2, Log2;
    assert slot / 2 == k && slot % 2 == TopDigit(dist - Pow2(k), k);
  }

  lemma LogFits(dist: nat)
    requires 4 <= dist < TWO32
    ensures 2 <= Log2(dist) < 32 && Pow2(Log2(dist)) <= dist < 2 * Pow2(Log2(dist))
  {
    var k := Log2(dist);
    hide Log2;
    Pow2At32();
    if k >= 32 { Pow2Monotone(32, k); }
    if k < 2 { Pow2Small(); }
  }

  lemma SpecialReads(c: Core, inp: seq<Byte>, slot: nat, low: nat)
    requires CoreOk(c) && 4 <= slot < 14 && low < Pow2(slot / 2 - 1)
    requires Decide(c, inp, DownReversed(SpecialTree(slot), slot / 2 - 1, low, 1)).Some?
    ensures SpecialDist(c, inp, slot) ==
            (Decide(c, inp, DownReversed(SpecialTree(slot), slot / 2 - 1, low, 1)).value, SlotStart(slot) + low)
  {
    hide Decide, CoreOk, DownReversed, BitTreeReverse;
    var t, n := SpecialTree(slot), slot / 2 - 1;
    TreeFits(t);
    RootLevel(0, 0);
    ReverseReads(c, inp, t, TreeBase(t), SlotStart(slot), n, 0, low, 1);
    assert Above(SlotStart(slot), 0, low) == SlotStart(slot) + low;
    assert SpecialDist(c, inp, slot) == BitTreeReverse(c, inp, TreeBase(t), SlotStart(slot), n, 0, 1) by {
      SpecialIndex(slot);
      hide Pow2;
    }
  }

  lemma SixteenFold(k: nat, x: nat, low: nat)
    requires k >= 6 && low < Pow2(k - 1)
    ensures low / 16 < Pow2(k - 5) && low % 16 < Pow2(4)
    ensures Above(16 * Behind(x, k - 5, low / 16), 0, low % 16) == x * Pow2(k - 1) + low
  {
    Pow2Small();
    Pow2Adds(4, k - 5);
    var p, q := Pow2(k - 5), Pow2(k - 1);
    assert q == 16 * p;
    assert Pow2(0) == 1;
    hide Pow2;
    assert x * q == 16 * (x * p);
  }

  lemma LongReads(c: Core, inp: seq<Byte>, slot: nat, k: nat, low: nat)
    requires CoreOk(c) && 14 <= slot < 64 && k == slot / 2 && low < Pow2(k - 1)
    requires Decide(c, inp, FlatDigits(k - 5, low / 16) + DownReversed(AlignTree, 4, low % 16, 1)).Some?
    ensures LongDist(c, inp, slot) ==
            (Decide(c, inp, FlatDigits(k - 5, low / 16) + DownReversed(AlignTree, 4, low % 16, 1)).value, SlotStart(slot) + low)
  {
    hide Decide, CoreOk, DownReversed, BitTreeReverse, Direct, FlatDigits, Behind, Above, AtLevel;
    var t, x := AlignTree, 2 + slot % 2;
    DecideJoins(c, inp, FlatDigits(k - 5, low / 16), DownReversed(t, 4, low % 16, 1));
    SixteenFold(k, x, low);
    TreeFits(t);
    RootLevel(0, 0);
    FlatReads(c, inp, x, k - 5, low / 16);
    var (c1, d) := Direct(c, inp, x, k - 5);
    ReverseReads(c1, inp, t, DIST_ALIGN, 16 * d, 4, 0, low % 16, 1);
  }

  lemma FarReads(c: Core, inp: seq<Byte>, len: nat, slot: nat, low: nat)
    requires CoreOk(c) && LenFits(len) && 4 <= slot < 64 && low < Pow2(slot / 2 - 1)
    requires Decide(c, inp, DownTree(SlotTree(DistState(len)), 6, slot, 1) + LowChoices(slot, low)).Some?
    ensures DistSymbol(c, inp, len) ==
            (Decide(c, inp, DownTree(SlotTree(DistState(len)), 6, slot, 1) + LowChoices(slot, low)).value, SlotStart(slot) + low)
  {
    hide Decide, CoreOk, DownReversed, DownTree, BitTree, FlatDigits, SpecialDist, LongDist, SlotStart, Pow2;
    var t := SlotTree(DistState(len));
    DecideJoins(c, inp, DownTree(t, 6, slot, 1), LowChoices(slot, low));
    LevelSizes();
    WholeTree(c, inp, t, 6, 64, DIST_SLOT + 64 * DistState(len), slot);
    var c1 := Decide(c, inp, DownTree(t, 6, slot, 1)).value;
    if slot < 14 { SpecialReads(c1, inp, slot, low); } else { LongReads(c1, inp, slot, slot / 2, low); }
  }

  lemma DistReads(c: Core, inp: seq<Byte>, len: nat, dist: nat)
    requires CoreOk(c) && LenFits(len) && dist < TWO32 && Decide(c, inp, DistChoices(len, dist)).Some?
    ensures DistSymbol(c, inp, len) == (Decide(c, inp, DistChoices(len, dist)).value, dist)
  {
    hide Decide, CoreOk, DownTree, BitTree, SpecialDist, LongDist, Pow2, DistSlot, DistLow, LowChoices, SlotStart;
    var t := SlotTree(DistState(len));
    LevelSizes();
    if dist < 4 {
      WholeTree(c, inp, t, 6, 64, DIST_SLOT + 64 * DistState(len), dist);
    } else {
      DistParts(dist);
      FarReads(c, inp, len, DistSlot(dist), DistLow(dist));
    }
  }

  // ----------------------------------------------------------------------- literals

  /** The digits of the byte at the distance that are left are those from bit 8 of m
      down. */
  ghost predicate Shifted(m: nat, n: nat, like: nat, done: nat) {
    n <= 8 && like < Pow2(n) && m == 512 * done + like * Pow2(9 - n)
  }

  lemma DigitOut(m: nat, like: nat, done: nat, l: nat, rest: nat, p: nat, q: nat)
    requires p * q == 256 && rest < p && l <= 1 && like == (if l == 1 then p + rest else rest) && m == 512 * done + like * q
    ensures m / 256 % 2 == l && 2 * m == 512 * (2 * done + l) + rest * (2 * q)
  {
    assert like * q == (if l == 1 then 256 + rest * q else rest * q) by {
      if l == 1 { assert (p + rest) * q == p * q + rest * q; }
    }
    RestFits(rest, p, q);
    DivIs(m, 256, 2 * done + l, rest * q);
    assert rest * (2 * q) == 2 * (rest * q);
  }

  lemma RestFits(rest: nat, p: nat, q: nat)
    requires rest < p && p * q == 256
    ensures 0 <= rest * q < 256
  {
    assert (p - rest) * q == p * q - rest * q;
    assert q >= 1;
    AtLeast(p - rest, q);
  }

  lemma Pow2Pair(n: nat)
    requires 0 < n <= 8
    ensures Pow2(n - 1) * Pow2(9 - n) == 256 && Pow2(n) == 2 * Pow2(n - 1) && Pow2(10 - n) == 2 * Pow2(9 - n)
  {
    Pow2Adds(n - 1, 9 - n);
    LevelSizes();
  }

  lemma ShiftedNext(m: nat, n: nat, like: nat, done: nat)
    requires n > 0 && Shifted(m, n, like, done)
    ensures m / 256 % 2 == TopDigit(like, n)
    ensures Shifted(2 * m, n - 1, LowDigits(like, n), 2 * done + TopDigit(like, n))
  {
    Pow2Pair(n);
    hide Pow2;
    DigitOut(m, like, done, TopDigit(like, n), LowDigits(like, n), Pow2(n - 1), Pow2(9 - n));
  }

  lemma MatchedIs(place: nat, n: nat, v: nat, like: nat, same: bool, node: nat)
    requires n > 0
    ensures var b, l := TopDigit(v, n), TopDigit(like, n);
            MatchedChoices(place, n, v, like, same, node) ==
            [Coded(Node(LiteralTree(place, if same then 1 + l else 0), node), b)] +
            MatchedChoices(place, n - 1, LowDigits(v, n), LowDigits(like, n), same && b == l, 2 * node + b)
  {}

  lemma MatchedEnds(c: Core, inp: seq<Byte>, base: nat, m: nat, offset: nat, place: nat, v: nat, like: nat, same: bool, node: nat)
    requires CoreOk(c) && base + 0x300 <= PROBS_TOTAL && (offset == 0 || offset == 0x100) && node >= 0x100 && v < Pow2(0)
    ensures MatchedLiteral(c, inp, base, m, offset, node) == (c, Behind(node, 0, v))
    ensures Decide(c, inp, MatchedChoices(place, 0, v, like, same, node)) == Some(c)
  {}

  /** A literal with a byte to compare with. */
  lemma {:induction false} MatchedReads(c: Core, inp: seq<Byte>, place: nat, m: nat, n: nat, v: nat, like: nat, done: nat,
                                        same: bool, node: nat)
    requires CoreOk(c) && place < 16 && Shifted(m, n, like, done) && AtLevel(node, 8 - n) && v < Pow2(n)
    requires Decide(c, inp, MatchedChoices(place, n, v, like, same, node)).Some?
    ensures node >= 1
    ensures MatchedLiteral(c, inp, LITERAL + 0x300 * place, m, if same then 0x100 else 0, node) ==
            (Decide(c, inp, MatchedChoices(place, n, v, like, same, node)).value, Behind(node, n, v))
    decreases n
  {
    hide Bit, Decide, CoreOk, Behind, AtLevel, Pow2, MatchedLiteral, MatchedChoices, TopDigit, LowDigits;
    var base, offset := LITERAL + 0x300 * place, if same then 0x100 else 0;
    AboveLeaves(node, 8 - n, 8);
    LevelSizes();
    if n == 0 {
      MatchedEnds(c, inp, base, m, offset, place, v, like, same, node);
    } else {
      var b, l := TopDigit(v, n), TopDigit(like, n);
      ShiftedNext(m, n, like, done);
      hide Shifted;
      BehindNext(node, n, v);
      MatchedIs(place, n, v, like, same, node);
      var t := LiteralTree(place, if same then 1 + l else 0);
      var rest := MatchedChoices(place, n - 1, LowDigits(v, n), LowDigits(like, n), same && b == l, 2 * node + b);
      var i := base + offset + MatchBit(m, offset) + node;
      IndexOfNode(t, node);
      DecideBit(c, inp, Node(t, node), b, rest, i);
      MatchedUnroll(c, inp, base, m, offset, node);
      NextLevel(node, 8 - n, b);
      var c' := Bit(c, inp, i).0;
      MatchedReads(c', inp, place, 2 * m, n - 1, LowDigits(v, n), LowDigits(like, n), 2 * done + l, same && b == l, 2 * node + b);
    }
  }

  /** What the decoder keeps, for these properties and this memory. */
  function LzOf(p: Props, m: Memory): Lz
    requires MemoryOk(m)
  {
    Lz(m.state, m.reps[0], m.reps[1], m.reps[2], m.reps[3], p.lc, Pow2(p.lp) - 1, Pow2(p.pb) - 1)
  }

  lemma LzOfOk(p: Props, m: Memory)
    requires PropsFit(p) && MemoryOk(m)
    ensures LzOk(LzOf(p, m)) && (!IsLiteralState(LzOf(p, m).state) ==> LzOf(p, m).rep0 < |m.text|)
  {
    Pow2Small();
    assert p.lp == 0 || p.lp == 1 || p.lp == 2 || p.lp == 3 || p.lp == 4;
    assert p.lc == 0 || p.lc == 1 || p.lc == 2 || p.lc == 3 || p.lc == 4;
    assert p.pb == 0 || p.pb == 1 || p.pb == 2 || p.pb == 3 || p.pb == 4;
  }

  lemma PlaceIs(p: Props, m: Memory)
    requires PropsFit(p) && MemoryOk(m) && LzOk(LzOf(p, m))
    ensures LiteralPlace(p, m.text) < 16
    ensures LiteralBase(LzOf(p, m), Back(m.text, 0), |m.text|) == LITERAL + 0x300 * LiteralPlace(p, m.text)
  {
    LiteralIndex(LzOf(p, m), Back(m.text, 0), |m.text|);
    hide Pow2, LzOk;
  }

  lemma LiteralReads(c: Core, inp: seq<Byte>, p: Props, m: Memory, byte: Byte)
    requires CoreOk(c) && PropsFit(p) && MemoryOk(m) && Decide(c, inp, LiteralChoices(p, m, byte)).Some?
    ensures LzOk(LzOf(p, m)) && (!IsLiteralState(LzOf(p, m).state) ==> LzOf(p, m).rep0 < |m.text|)
    ensures LiteralSymbol(c, LzOf(p, m), inp, m.text) == (Decide(c, inp, LiteralChoices(p, m, byte)).value, byte)
  {
    hide Bit, Decide, CoreOk, DownTree, BitTree, MatchedLiteral, MatchedChoices, LiteralBase, LiteralPlace, LzOk;
    LzOfOk(p, m);
    PlaceIs(p, m);
    LevelSizes();
    var place := LiteralPlace(p, m.text);
    if m.state < 7 {
      hide Pow2;
      WholeTree(c, inp, LiteralTree(place, 0), 8, 256, LITERAL + 0x300 * place, byte);
    } else {
      var like: nat := m.text[|m.text| - 1 - m.reps[0]];
      assert Shifted(2 * like, 8, like, 0);
      RootLevel(8, byte);
      hide Pow2, Shifted, Behind;
      MatchedReads(c, inp, place, 2 * like, 8, byte, like, 0, true, 1);
    }
  }

  // ------------------------------------------------------------------------ symbols

  /** Which distance the bits select: the i-th of the latest four, for the unary code
      0, 10, 110 or 111 of i, and it moves to the front. */
  lemma RepReads(c: Core, inp: seq<Byte>, p: Props, m: Memory, pos: nat, i: nat, len: nat)
    requires CoreOk(c) && PropsFit(p) && MemoryOk(m) && pos < 16 && i < 4 && LenFits(len)
    requires Decide(c, inp, RepChoices(i, m.state, pos) + LenChoices(true, pos, len)).Some?
    ensures LzOk(LzOf(p, m))
    ensures var (c', lz, n) := RepMatchSymbol(c, LzOf(p, m), inp, pos);
            && Some(c') == Decide(c, inp, RepChoices(i, m.state, pos) + LenChoices(true, pos, len)) && n == len
            && [lz.rep0, lz.rep1, lz.rep2, lz.rep3] == MoveToFront(m.reps, i) && lz.state == REP_NEXT[m.state]
            && lz.lc == p.lc && lz.lpMask + 1 == Pow2(p.lp) && lz.pbMask + 1 == Pow2(p.pb)
  {
    hide Bit, Decide, CoreOk, LenChoices, LenSymbol, LzOk, Pow2;
    LzOfOk(p, m);
    var last := LenChoices(true, pos, len);
    var s := m.state;
    if i == 0 {
      var r2 := [Coded(IsRep0Long(s, pos), 1)] + last;
      assert RepChoices(i, s, pos) + last == [Coded(IsRep0(s), 0)] + r2;
      DecideBit(c, inp, IsRep0(s), 0, r2, IS_REP0 + s);
      var c1 := Bit(c, inp, IS_REP0 + s).0;
      DecideBit(c1, inp, IsRep0Long(s, pos), 1, last, IS_REP0_LONG + 16 * s + pos);
      LenReads(Bit(c1, inp, IS_REP0_LONG + 16 * s + pos).0, inp, true, pos, len);
    } else if i == 1 {
      var r2 := [Coded(IsRep1(s), 0)] + last;
      assert RepChoices(i, s, pos) + last == [Coded(IsRep0(s), 1)] + r2;
      DecideBit(c, inp, IsRep0(s), 1, r2, IS_REP0 + s);
      var c1 := Bit(c, inp, IS_REP0 + s).0;
      DecideBit(c1, inp, IsRep1(s), 0, last, IS_REP1 + s);
      LenReads(Bit(c1, inp, IS_REP1 + s).0, inp, true, pos, len);
    } else {
      var b3 := if i == 2 then 0 else 1;
      var r3 := [Coded(IsRep2(s), b3)] + last;
      var r2 := [Coded(IsRep1(s), 1)] + r3;
      assert RepChoices(i, s, pos) + last == [Coded(IsRep0(s), 1)] + r2;
      DecideBit(c, inp, IsRep0(s), 1, r2, IS_REP0 + s);
      var c1 := Bit(c, inp, IS_REP0 + s).0;
      DecideBit(c1, inp, IsRep1(s), 1, r3, IS_REP1 + s);
      var c2 := Bit(c1, inp, IS_REP1 + s).0;
      DecideBit(c2, inp, IsRep2(s), b3, last, IS_REP2 + s);
      LenReads(Bit(c2, inp, IS_REP2 + s).0, inp, true, pos, len);
    }
  }

  lemma ShortRepReads(c: Core, inp: seq<Byte>, p: Props, m: Memory, pos: nat)
    requires CoreOk(c) && PropsFit(p) && MemoryOk(m) && pos < 16
    requires Decide(c, inp, [Coded(IsRep0(m.state), 0), Coded(IsRep0Long(m.state, pos), 0)]).Some?
    ensures LzOk(LzOf(p, m))
    ensures RepMatchSymbol(c, LzOf(p, m), inp, pos) ==
            (Decide(c, inp, [Coded(IsRep0(m.state), 0), Coded(IsRep0Long(m.state, pos), 0)]).value,
             LzOf(p, m).(state := SHORT_REP_NEXT[m.state]), 1)
  {
    hide Bit, CoreOk, LzOk, Pow2, Decide;
    LzOfOk(p, m);
    var s := m.state;
    var r2 := [Coded(IsRep0Long(s, pos), 0)];
    assert [Coded(IsRep0(s), 0), Coded(IsRep0Long(s, pos), 0)] == [Coded(IsRep0(s), 0)] + r2;
    DecideBit(c, inp, IsRep0(s), 0, r2, IS_REP0 + s);
    var c1 := Bit(c, inp, IS_REP0 + s).0;
    assert r2 == r2 + [];
    DecideBit(c1, inp, IsRep0Long(s, pos), 0, [], IS_REP0_LONG + 16 * s + pos);
    DecideNone(Bit(c1, inp, IS_REP0_LONG + 16 * s + pos).0, inp);
  }

  lemma DecideNone(c: Core, inp: seq<Byte>)
    requires CoreOk(c)
    ensures Decide(c, inp, []) == Some(c)
  {}

  lemma MatchReads(c: Core, inp: seq<Byte>, p: Props, m: Memory, pos: nat, dist: nat, len: nat)
    requires CoreOk(c) && PropsFit(p) && MemoryOk(m) && pos < 16 && LenFits(len) && dist < TWO32
    requires Decide(c, inp, LenChoices(false, pos, len) + DistChoices(len, dist)).Some?
    ensures LzOk(LzOf(p, m))
    ensures var (c', lz, n) := MatchSymbol(c, LzOf(p, m), inp, pos);
            && Some(c') == Decide(c, inp, LenChoices(false, pos, len) + DistChoices(len, dist)) && n == len
            && [lz.rep0, lz.rep1, lz.rep2, lz.rep3] == [dist] + m.reps[..3] && lz.state == MATCH_NEXT[m.state]
            && lz.lc == p.lc && lz.lpMask + 1 == Pow2(p.lp) && lz.pbMask + 1 == Pow2(p.pb)
  {
    hide Bit, Decide, CoreOk, LenChoices, LenSymbol, DistChoices, DistSymbol, LzOk, Pow2;
    LzOfOk(p, m);
    DecideJoins(c, inp, LenChoices(false, pos, len), DistChoices(len, dist));
    LenReads(c, inp, false, pos, len);
    DistReads(Decide(c, inp, LenChoices(false, pos, len)).value, inp, len, dist);
  }

  lemma {:induction false} SameCopy(text: seq<Byte>, dist: nat, n: nat)
    requires dist < |text|
    ensures CopyFrom(text, dist, n) == Repeated(text, dist, n)
    decreases n
  {
    if n > 0 { SameCopy(text + [text[|text| - 1 - dist]], dist, n - 1); }
  }

  lemma PosFits(p: Props, text: seq<Byte>)
    requires PropsFit(p)
    ensures |text| % Pow2(p.pb) < 16
  {
    Pow2Small();
    assert p.pb == 0 || p.pb == 1 || p.pb == 2 || p.pb == 3 || p.pb == 4;
  }

  /** The decoder's registers and what it keeps beside them. */
  function At(c: Core, p: Props, m: Memory): (r: Machine)
    requires CoreOk(c) && PropsFit(p) && MemoryOk(m)
    ensures MachineOk(r)
  {
    LzOfOk(p, m);
    Machine(c, LzOf(p, m), m.text)
  }

  lemma SameLz(lz: Lz, p: Props, m: Memory)
    requires MemoryOk(m) && [lz.rep0, lz.rep1, lz.rep2, lz.rep3] == m.reps && lz.state == m.state
    requires lz.lc == p.lc && lz.lpMask + 1 == Pow2(p.lp) && lz.pbMask + 1 == Pow2(p.pb)
    ensures lz == LzOf(p, m)
  {
    assert [lz.rep0, lz.rep1, lz.rep2, lz.rep3][3] == m.reps[3];
  }

  /** A copy of n bytes from the distance in front. */
  lemma CopyReads(c: Core, inp: seq<Byte>, p: Props, m: Memory, size: nat, c': Core, m': Memory, n: nat)
    requires CoreOk(c) && PropsFit(p) && MemoryOk(m) && MemoryOk(m') && CoreOk(c')
    requires Symbol(c, At(c, p, m).lz, inp, m.text) == (c', LzOf(p, m'), Copy(n))
    requires InReach(m, m'.reps[0], size) && m'.text == Repeated(m.text, m'.reps[0], n)
    ensures Step(At(c, p, m), inp, size) == Some(At(c', p, m'))
  {
    hide Symbol, CoreOk, LzOk;
    SameCopy(m.text, m'.reps[0], n);
  }

  lemma CopyRejected(c: Core, inp: seq<Byte>, p: Props, m: Memory, size: nat, lz: Lz, n: nat)
    requires CoreOk(c) && PropsFit(p) && MemoryOk(m)
    requires Symbol(c, At(c, p, m).lz, inp, m.text).1 == lz && Symbol(c, At(c, p, m).lz, inp, m.text).2 == Copy(n)
    requires !InReach(m, lz.rep0, size)
    ensures Step(At(c, p, m), inp, size) == None
  {
    hide Symbol, CoreOk, LzOk;
  }

  lemma LiteralStep(c: Core, inp: seq<Byte>, p: Props, m: Memory, b: Byte, size: nat)
    requires CoreOk(c) && PropsFit(p) && MemoryOk(m)
    requires Decide(c, inp, TokenChoices(p, m, Literal(b))).Some?
    ensures Step(At(c, p, m), inp, size) ==
            Some(At(Decide(c, inp, TokenChoices(p, m, Literal(b))).value, p, Meaning(m, Literal(b), size)))
  {
    hide Bit, Decide, CoreOk, LiteralChoices, LiteralSymbol, LzOk, Pow2;
    var pos, i := |m.text| % Pow2(p.pb), IS_MATCH + 16 * m.state + |m.text| % Pow2(p.pb);
    PosFits(p, m.text);
    LzOfOk(p, m);
    DecideBit(c, inp, IsMatch(m.state, pos), 0, LiteralChoices(p, m, b), i);
    LiteralReads(Bit(c, inp, i).0, inp, p, m, b);
  }

  /** After a choice of a match: the rest of the symbol. */
  lemma NonLiteralStep(c: Core, inp: seq<Byte>, p: Props, m: Memory, bit: nat, rest: seq<Choice>, pos: nat)
    requires CoreOk(c) && PropsFit(p) && MemoryOk(m) && pos == |m.text| % Pow2(p.pb) && bit <= 1
    requires Decide(c, inp, [Coded(IsMatch(m.state, pos), 1), Coded(IsRep(m.state), bit)] + rest).Some?
    ensures pos < 16
    ensures var i := IS_MATCH + 16 * m.state + pos;
            var c1 := Bit(Bit(c, inp, i).0, inp, IS_REP + m.state).0;
            && CoreOk(c1) && LzOk(LzOf(p, m))
            && Decide(c1, inp, rest) == Decide(c, inp, [Coded(IsMatch(m.state, pos), 1), Coded(IsRep(m.state), bit)] + rest)
            && var (c2, lz, n) := if bit == 1 then RepMatchSymbol(c1, LzOf(p, m), inp, pos) else MatchSymbol(c1, LzOf(p, m), inp, pos);
               Symbol(c, At(c, p, m).lz, inp, m.text) == (c2, lz, Copy(n))
  {
    hide Bit, Decide, CoreOk, RepMatchSymbol, MatchSymbol, LzOk, Pow2;
    PosFits(p, m.text);
    LzOfOk(p, m);
    var i := IS_MATCH + 16 * m.state + pos;
    var r1 := [Coded(IsRep(m.state), bit)] + rest;
    assert [Coded(IsMatch(m.state, pos), 1), Coded(IsRep(m.state), bit)] + rest == [Coded(IsMatch(m.state, pos), 1)] + r1;
    DecideBit(c, inp, IsMatch(m.state, pos), 1, r1, i);
    DecideBit(Bit(c, inp, i).0, inp, IsRep(m.state), bit, rest, IS_REP + m.state);
  }

  lemma CopyStep(c: Core, inp: seq<Byte>, p: Props, m: Memory, t: Token, size: nat)
    requires CoreOk(c) && PropsFit(p) && MemoryOk(m) && Formed(t) && !t.Literal?
    requires Decide(c, inp, TokenChoices(p, m, t)).Some?
    ensures TokenFits(m, t, size) ==>
              Step(At(c, p, m), inp, size) == Some(At(Decide(c, inp, TokenChoices(p, m, t)).value, p, Meaning(m, t, size)))
    ensures !TokenFits(m, t, size) ==> Step(At(c, p, m), inp, size) == None
  {
    hide Bit, Decide, CoreOk, RepMatchSymbol, MatchSymbol, LzOk, Pow2, Symbol, RepChoices, LenChoices, DistChoices, Repeated, LzOf;
    var pos := |m.text| % Pow2(p.pb);
    var r := Decide(c, inp, TokenChoices(p, m, t)).value;
    var n, reps, state := CopySymbol(c, inp, p, m, t);
    var lz := Symbol(c, At(c, p, m).lz, inp, m.text).1;
    if TokenFits(m, t, size) {
      var m' := Meaning(m, t, size);
      SameLz(lz, p, m');
      CopyReads(c, inp, p, m, size, r, m', n);
    } else {
      CopyRejected(c, inp, p, m, size, lz, n);
    }
  }

  /** Length, distances and state after a copy. */
  lemma CopySymbol(c: Core, inp: seq<Byte>, p: Props, m: Memory, t: Token) returns (n: nat, reps: seq<nat>, state: nat)
    requires CoreOk(c) && PropsFit(p) && MemoryOk(m) && Formed(t) && !t.Literal?
    requires Decide(c, inp, TokenChoices(p, m, t)).Some?
    ensures n == (if t.ShortRep? then 1 else t.len)
    ensures reps == (if t.Match? then [t.dist] + m.reps[..3] else if t.ShortRep? then m.reps else MoveToFront(m.reps, t.i))
    ensures state == (if t.Match? then MATCH_NEXT[m.state] else if t.ShortRep? then SHORT_REP_NEXT[m.state] else REP_NEXT[m.state])
    ensures var (c', lz, sym) := Symbol(c, At(c, p, m).lz, inp, m.text);
            && Some(c') == Decide(c, inp, TokenChoices(p, m, t)) && sym == Copy(n)
            && [lz.rep0, lz.rep1, lz.rep2, lz.rep3] == reps && lz.rep0 == reps[0] == Source(m, t) && lz.state == state
            && lz.lc == p.lc && lz.lpMask + 1 == Pow2(p.lp) && lz.pbMask + 1 == Pow2(p.pb)
  {
    hide Bit, Decide, CoreOk, RepMatchSymbol, MatchSymbol, LzOk, Pow2, Symbol, RepChoices, LenChoices, DistChoices;
    var pos := |m.text| % Pow2(p.pb);
    var s := m.state;
    var bit := if t.Match? then 0 else 1;
    var rest := RestChoices(m, t, pos);
    assert TokenChoices(p, m, t) == [Coded(IsMatch(s, pos), 1), Coded(IsRep(s), bit)] + rest;
    NonLiteralStep(c, inp, p, m, bit, rest, pos);
    var c1 := Bit(Bit(c, inp, IS_MATCH + 16 * s + pos).0, inp, IS_REP + s).0;
    n := if t.ShortRep? then 1 else t.len;
    reps := if t.Match? then [t.dist] + m.reps[..3] else if t.ShortRep? then m.reps else MoveToFront(m.reps, t.i);
    state := if t.Match? then MATCH_NEXT[m.state] else if t.ShortRep? then SHORT_REP_NEXT[m.state] else REP_NEXT[m.state];
    ghost var lz := Symbol(c, At(c, p, m).lz, inp, m.text).1;
    match t
    case Match(dist, len) => MatchReads(c1, inp, p, m, pos, dist, len); FirstOf(lz, reps);
    case ShortRep => ShortRepReads(c1, inp, p, m, pos);
    case Rep(i, len) => RepReads(c1, inp, p, m, pos, i, len); FirstOf(lz, reps);
  }

  lemma FirstOf(lz: Lz, reps: seq<nat>)
    requires [lz.rep0, lz.rep1, lz.rep2, lz.rep3] == reps
    ensures lz.rep0 == reps[0]
  {
    assert [lz.rep0, lz.rep1, lz.rep2, lz.rep3][0] == reps[0];
  }

  /** The choices after the first two. */
  function RestChoices(m: Memory, t: Token, pos: nat): seq<Choice>
    requires !t.Literal? && (t.ShortRep? || LenFits(t.len))
  {
    match t
    case Match(dist, len) => LenChoices(false, pos, len) + DistChoices(len, dist)
    case ShortRep => [Coded(IsRep0(m.state), 0), Coded(IsRep0Long(m.state, pos), 0)]
    case Rep(i, len) => RepChoices(i, m.state, pos) + LenChoices(true, pos, len)
  }

  /** A symbol: a decoder that makes its choices does what the symbol means, and reports
      an error if and only if it makes no sense here. */
  lemma TokenStep(c: Core, inp: seq<Byte>, p: Props, m: Memory, t: Token, size: nat)
    requires CoreOk(c) && PropsFit(p) && MemoryOk(m) && Formed(t)
    requires Decide(c, inp, TokenChoices(p, m, t)).Some?
    ensures TokenFits(m, t, size) ==>
              Step(At(c, p, m), inp, size) == Some(At(Decide(c, inp, TokenChoices(p, m, t)).value, p, Meaning(m, t, size)))
    ensures !TokenFits(m, t, size) ==> Step(At(c, p, m), inp, size) == None
  {
    hide Decide, CoreOk, Step, TokenChoices, MemoryOk, Meaning;
    if t.Literal? { LiteralStep(c, inp, p, m, t.byte, size); } else { CopyStep(c, inp, p, m, t, size); }
  }

  /** A list of symbols. */
  lemma {:induction false} TokenSteps(c: Core, inp: seq<Byte>, p: Props, m: Memory, ts: seq<Token>, size: nat)
    requires CoreOk(c) && PropsFit(p) && MemoryOk(m) && TokensFit(m, ts, size)
    requires Decide(c, inp, AllChoices(p, m, ts, size)).Some?
    ensures Steps(At(c, p, m), inp, size, |ts|) == Some(At(Decide(c, inp, AllChoices(p, m, ts, size)).value, p, Meanings(m, ts, size)))
    decreases |ts|
  {
    hide Decide, CoreOk, Step, TokenChoices, MemoryOk, Meaning, Formed, InReach, At;
    if ts == [] {
      DecideNone(c, inp);
    } else {
      var n := |ts| - 1;
      var before := ts[..n];
      DecideJoins(c, inp, AllChoices(p, m, before, size), TokenChoices(p, Meanings(m, before, size), ts[n]));
      TokenSteps(c, inp, p, m, before, size);
      TokenStep(Decide(c, inp, AllChoices(p, m, before, size)).value, inp, p, Meanings(m, before, size), ts[n], size);
    }
  }

  // ------------------------------------------------------- every choice has a probability

  lemma {:induction false} DownTreeOk(t: Tree, levels: nat, n: nat, v: nat, node: nat)
    requires TreeGood(t) && levels == Levels(t) && n <= levels && AtLevel(node, levels - n)
    ensures ChoicesOk(DownTree(t, n, v, node))
    decreases n
  {
    hide TreeGood, Levels, AtLevel, Pow2, TopDigit;
    AboveLeaves(node, levels - n, levels);
    if n > 0 {
      NextLevel(node, levels - n, TopDigit(v, n));
      DownTreeOk(t, levels, n - 1, LowDigits(v, n), 2 * node + TopDigit(v, n));
    }
  }

  lemma {:induction false} DownReversedOk(t: Tree, levels: nat, n: nat, v: nat, node: nat)
    requires TreeGood(t) && levels == Levels(t) && n <= levels && AtLevel(node, levels - n)
    ensures ChoicesOk(DownReversed(t, n, v, node))
    decreases n
  {
    hide TreeGood, Levels, AtLevel, Pow2;
    AboveLeaves(node, levels - n, levels);
    if n > 0 {
      NextLevel(node, levels - n, v % 2);
      DownReversedOk(t, levels, n - 1, v / 2, 2 * node + v % 2);
    }
  }

  lemma {:induction false} FlatOk(n: nat, v: nat)
    ensures ChoicesOk(FlatDigits(n, v))
    decreases n
  {
    hide Pow2;
    if n > 0 { FlatOk(n - 1, LowDigits(v, n)); }
  }

  lemma {:induction false} MatchedOk(place: nat, n: nat, v: nat, like: nat, same: bool, node: nat)
    requires place < 16 && n <= 8 && AtLevel(node, 8 - n)
    ensures ChoicesOk(MatchedChoices(place, n, v, like, same, node))
    decreases n
  {
    hide AtLevel, Pow2, TopDigit;
    AboveLeaves(node, 8 - n, 8);
    if n > 0 {
      var b, l := TopDigit(v, n), TopDigit(like, n);
      NextLevel(node, 8 - n, b);
      MatchedOk(place, n - 1, LowDigits(v, n), LowDigits(like, n), same && b == l, 2 * node + b);
    }
  }

  lemma LenOk(rep: bool, pos: nat, len: nat)
    requires pos < 16 && LenFits(len)
    ensures ChoicesOk(LenChoices(rep, pos, len))
  {
    hide DownTree, Pow2, AtLevel;
    RootLevel(0, 0);
    if len < 10 { DownTreeOk(LowTree(rep, pos), 3, 3, len - 2, 1); }
    else if len < 18 { DownTreeOk(MidTree(rep, pos), 3, 3, len - 10, 1); }
    else { DownTreeOk(HighTree(rep), 8, 8, len - 18, 1); }
  }

  lemma DistOk(len: nat, dist: nat)
    requires LenFits(len) && dist < TWO32
    ensures ChoicesOk(DistChoices(len, dist))
  {
    hide DownTree, DownReversed, FlatDigits, Pow2, AtLevel, DistSlot, DistLow, SlotStart, ChoiceOk;
    RootLevel(0, 0);
    var t := SlotTree(DistState(len));
    if dist < 4 {
      DownTreeOk(t, 6, 6, dist, 1);
    } else {
      DistParts(dist);
      var slot, low := DistSlot(dist), DistLow(dist);
      DownTreeOk(t, 6, 6, slot, 1);
      if slot < 14 {
        DownReversedOk(SpecialTree(slot), slot / 2 - 1, slot / 2 - 1, low, 1);
      } else {
        FlatOk(slot / 2 - 5, low / 16);
        DownReversedOk(AlignTree, 4, 4, low % 16, 1);
      }
    }
  }

  lemma LiteralOk(p: Props, m: Memory, byte: Byte)
    requires PropsFit(p) && MemoryOk(m)
    ensures ChoicesOk(LiteralChoices(p, m, byte))
  {
    hide DownTree, MatchedChoices, Pow2, AtLevel, LiteralPlace, ChoiceOk, LzOk;
    RootLevel(0, 0);
    LzOfOk(p, m);
    PlaceIs(p, m);
    var place := LiteralPlace(p, m.text);
    if m.state < 7 { DownTreeOk(LiteralTree(place, 0), 8, 8, byte, 1); }
    else { MatchedOk(place, 8, byte, m.text[|m.text| - 1 - m.reps[0]], true, 1); }
  }

  lemma TokenOk(p: Props, m: Memory, t: Token)
    requires PropsFit(p) && MemoryOk(m) && Formed(t)
    ensures ChoicesOk(TokenChoices(p, m, t))
  {
    hide LiteralChoices, LenChoices, DistChoices, Pow2;
    PosFits(p, m.text);
    var pos := |m.text| % Pow2(p.pb);
    match t
    case Literal(b) => LiteralOk(p, m, b);
    case Match(dist, len) =>
      LenOk(false, pos, len);
      DistOk(len, dist);
    case ShortRep =>
    case Rep(i, len) => LenOk(true, pos, len);
  }

  lemma {:induction false} TokensOk(p: Props, m: Memory, ts: seq<Token>, size: nat)
    requires PropsFit(p) && MemoryOk(m) && TokensFit(m, ts, size)
    ensures ChoicesOk(AllChoices(p, m, ts, size))
    decreases |ts|
  {
    hide TokenChoices, MemoryOk, Meaning, Formed, InReach, ChoiceOk;
    if ts != [] {
      var n := |ts| - 1;
      TokensOk(p, m, ts[..n], size);
      TokenOk(p, Meanings(m, ts[..n], size), ts[n]);
    }
  }

  // ----------------------------------------------------------------------- the data of a chunk

  lemma StepsReach(c: Core, inp: seq<Byte>, p: Props, m: Memory, ts: seq<Token>, size: nat)
    requires CoreOk(c) && PropsFit(p) && MemoryOk(m) && TokensFit(m, ts, size)
    requires Decide(c, inp, AllChoices(p, m, ts, size)).Some?
    ensures DecodeTo(At(c, p, m), inp, size, |Meanings(m, ts, size).text|) ==
            Some(At(Decide(c, inp, AllChoices(p, m, ts, size)).value, p, Meanings(m, ts, size)))
  {
    hide Decide, CoreOk, Step, TokenChoices, MemoryOk, Formed, InReach, Meaning, MachineOk;
    var target := |Meanings(m, ts, size).text|;
    if ts != [] {
      var n := |ts| - 1;
      var before := ts[..n];
      DecideJoins(c, inp, AllChoices(p, m, before, size), TokenChoices(p, Meanings(m, before, size), ts[n]));
      TokenSteps(c, inp, p, m, before, size);
    }
    TokenSteps(c, inp, p, m, ts, size);
    assert Below(At(c, p, m), inp, size, |ts|, target);
    ThroughSteps(At(c, p, m), inp, size, target, |ts|);
  }

  /** The bytes written for a list of symbols, from a memory and a model that the decoder
      shares, are correct data of a chunk, decode to the text that the symbols mean and
      leave the decoder with the memory and the model that the writer is left with. */
  lemma DataRoundTrip(p: Props, m: Memory, ts: seq<Token>, size: nat, model: Model, probs: seq<nat>)
    requires PropsFit(p) && MemoryOk(m) && TokensFit(m, ts, size) && ProbsOk(probs) && Agree(model, probs)
    ensures var cs := AllChoices(p, m, ts, size);
            var s := Written(model, cs);
            var c := Core(Rc(TWO32 - 1, Value(s[..5]), 0), probs);
            && Value(s[..5]) < TWO32 && CoreOk(c)
            && var r := Whole(At(c, p, m), s[5..], size, |Meanings(m, ts, size).text|);
               && r.Some? && r.value.hist == Meanings(m, ts, size).text && r.value.lz == LzOf(p, Meanings(m, ts, size))
               && Agree(Closed(model, cs).model, r.value.core.probs)
  {
    hide Decide, Value, Written, Closed, Agree, AllChoices, MemoryOk, TokensFit, Meanings, DecodeTo, ProbsOk, Normalize, LzOf;
    var cs := AllChoices(p, m, ts, size);
    var s := Written(model, cs);
    TokensOk(p, m, ts, size);
    MakesChoices(model, probs, cs);
    var c := Core(Rc(TWO32 - 1, Value(s[..5]), 0), probs);
    StepsReach(c, s[5..], p, m, ts, size);
  }
}
