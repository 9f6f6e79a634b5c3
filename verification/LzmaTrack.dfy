/** The range decoder follows the writer's range coder: from the bytes written for a
    list of choices it makes these choices. */
module LzmaTrack {
  import opened Common
  import opened LzmaRange
  import opened LzmaFormat

  // --------------------------------------------------- where the probabilities are

  predicate TreeGood(t: Tree) {
    match t
    case SlotTree(d) => d < 4
    case SpecialTree(slot) => 4 <= slot < 14
    case AlignTree => true
    case LowTree(_, pos) => pos < 16
    case MidTree(_, pos) => pos < 16
    case HighTree(_) => true
    case LiteralTree(l, m) => l < 16 && m < 3
  }

  /** The levels of a tree. */
  function Levels(t: Tree): nat
    requires TreeGood(t)
  {
    match t
    case SlotTree(_) => 6
    case SpecialTree(slot) => slot / 2 - 1
    case AlignTree => 4
    case LowTree(_, _) => 3
    case MidTree(_, _) => 3
    case HighTree(_) => 8
    case LiteralTree(_, _) => 8
  }

  predicate Good(x: Context) {
    match x
    case IsMatch(s, pos) => s < 12 && pos < 16
    case IsRep(s) => s < 12
    case IsRep0(s) => s < 12
    case IsRep1(s) => s < 12
    case IsRep2(s) => s < 12
    case IsRep0Long(s, pos) => s < 12 && pos < 16
    case LenChoice(_) => true
    case LenChoice2(_) => true
    case Node(t, node) => TreeGood(t) && 1 <= node < Pow2(Levels(t))
  }

  function LenBase(rep: bool): nat { if rep then REP_LEN else MATCH_LEN }

  /** The first distance of a slot, from 4 on. */
  function SlotStart(slot: nat): nat
    requires slot >= 4
  {
    (2 + slot % 2) * Pow2(slot / 2 - 1)
  }

  function TreeBase(t: Tree): nat
    requires TreeGood(t)
  {
    match t
    case SlotTree(d) => DIST_SLOT + 64 * d
    case SpecialTree(slot) => SpecialIndex(slot); DIST_SPECIAL + SlotStart(slot) - slot - 1
    case AlignTree => DIST_ALIGN
    case LowTree(rep, pos) => LenBase(rep) + LEN_LOW + 8 * pos
    case MidTree(rep, pos) => LenBase(rep) + LEN_MID + 8 * pos
    case HighTree(rep) => LenBase(rep) + LEN_HIGH
    case LiteralTree(l, m) => LITERAL + 0x300 * l + 0x100 * m
  }

  function Index(x: Context): nat
    requires Good(x)
  {
    match x
    case IsMatch(s, pos) => IS_MATCH + 16 * s + pos
    case IsRep(s) => IS_REP + s
    case IsRep0(s) => IS_REP0 + s
    case IsRep1(s) => IS_REP1 + s
    case IsRep2(s) => IS_REP2 + s
    case IsRep0Long(s, pos) => IS_REP0_LONG + 16 * s + pos
    case LenChoice(rep) => LenBase(rep) + LEN_CHOICE
    case LenChoice2(rep) => LenBase(rep) + LEN_CHOICE2
    case Node(t, node) => TreeBase(t) + node
  }

  /** The slot whose tree holds the k-th probability of dist_special. */
  function SlotAt(k: nat): nat {
    if k < 1 then 4 else if k < 2 then 5 else if k < 5 then 6 else if k < 8 then 7 else if k < 15 then 8 else if k < 22 then 9
    else if k < 37 then 10 else if k < 52 then 11 else if k < 83 then 12 else 13
  }

  function LenContextAt(rep: bool, k: nat): Context {
    if k == 0 then LenChoice(rep) else if k == 1 then LenChoice2(rep)
    else if k < LEN_MID then Node(LowTree(rep, (k - LEN_LOW) / 8), (k - LEN_LOW) % 8)
    else if k < LEN_HIGH then Node(MidTree(rep, (k - LEN_MID) / 8), (k - LEN_MID) % 8)
    else Node(HighTree(rep), k - LEN_HIGH)
  }

  function DistContextAt(i: nat): Context
    requires DIST_SLOT <= i < MATCH_LEN
  {
    if i < DIST_SPECIAL then Node(SlotTree((i - DIST_SLOT) / 64), (i - DIST_SLOT) % 64)
    else if i < DIST_ALIGN then
      var slot := SlotAt(i - DIST_SPECIAL);
      SpecialIndex(slot);
      Node(SpecialTree(slot), if i >= TreeBase(SpecialTree(slot)) then i - TreeBase(SpecialTree(slot)) else 0)
    else Node(AlignTree, i - DIST_ALIGN)
  }

  /** The context of a probability. */
  function ContextAt(i: nat): Context {
    if i < IS_REP then IsMatch(i / 16, i % 16)
    else if i < IS_REP0 then IsRep(i - IS_REP)
    else if i < IS_REP1 then IsRep0(i - IS_REP0)
    else if i < IS_REP2 then IsRep1(i - IS_REP1)
    else if i < IS_REP0_LONG then IsRep2(i - IS_REP2)
    else if i < DIST_SLOT then IsRep0Long((i - IS_REP0_LONG) / 16, (i - IS_REP0_LONG) % 16)
    else if i < MATCH_LEN then DistContextAt(i)
    else if i < REP_LEN then LenContextAt(false, i - MATCH_LEN)
    else if i < LITERAL then LenContextAt(true, i - REP_LEN)
    else
      var k := i - LITERAL;
      Node(LiteralTree(k / 0x300, k % 0x300 / 0x100), k % 0x100)
  }

  lemma SlotCases(slot: nat)
    requires 4 <= slot < 14
    ensures slot == 4 || slot == 5 || slot == 6 || slot == 7 || slot == 8 || slot == 9 || slot == 10 || slot == 11 || slot == 12 ||
            slot == 13
  {}

  lemma SpecialAt(slot: nat, node: nat)
    requires 4 <= slot < 14 && 1 <= node < Pow2(slot / 2 - 1)
    ensures var i := SlotStart(slot) - slot - 1 + node; 0 <= i < 114 && SlotAt(i) == slot
  {
    Pow2Small();
    SlotCases(slot);
  }

  lemma LevelSizes()
    ensures Pow2(3) == 8 && Pow2(4) == 16 && Pow2(6) == 64 && Pow2(8) == 256
  {
    Pow2Small();
  }

  /** Every context has a probability of its own. */
  lemma OwnProbability(x: Context)
    requires Good(x)
    ensures Index(x) < PROBS_TOTAL && ContextAt(Index(x)) == x
  {
    if x.Node? {
      hide ContextAt, Index, Good;
      OwnNode(x.tree, x.node);
    }
  }

  lemma OwnNode(t: Tree, node: nat)
    requires Good(Node(t, node))
    ensures Index(Node(t, node)) < PROBS_TOTAL && ContextAt(Index(Node(t, node))) == Node(t, node)
  {
    LevelSizes();
    hide Pow2;
    match t
    case SpecialTree(slot) => SpecialAt(slot, node);
    case LiteralTree(l, m) => OwnLiteral(l, m, node);
    case LowTree(rep, pos) => assert (8 * pos + node) / 8 == pos && (8 * pos + node) % 8 == node;
    case MidTree(rep, pos) => assert (8 * pos + node) / 8 == pos && (8 * pos + node) % 8 == node;
    case SlotTree(d) => assert (64 * d + node) / 64 == d && (64 * d + node) % 64 == node;
    case _ =>
  }

  lemma OwnLiteral(l: nat, m: nat, node: nat)
    requires l < 16 && m < 3 && 1 <= node < 256
    ensures var k := 0x300 * l + 0x100 * m + node;
            k < 12288 && k / 0x300 == l && k % 0x300 / 0x100 == m && k % 0x100 == node
  {
    var k := 0x300 * l + 0x100 * m + node;
    DivIs(k, 0x300, l, 0x100 * m + node);
    DivIs(0x100 * m + node, 0x100, m, node);
    DivIs(k, 0x100, 3 * l + m, node);
  }

  // ---------------------------------------------------------------- one choice

  /** The decoder's next bit in this context, if it is the one of the choice. */
  function Pick(c: Core, inp: seq<Byte>, ch: Choice): (r: Option<Core>)
    requires CoreOk(c)
    ensures r.Some? ==> CoreOk(r.value)
  {
    match ch
    case Coded(x, bit) =>
      if !Good(x) then None
      else
        OwnProbability(x);
        var (c', b) := Bit(c, inp, Index(x));
        if b == bit then Some(c') else None
    case Flat(bit) =>
      NormalizeRestores(c.rc, inp);
      var (rc, b) := DirectRc(c.rc, inp);
      if b == bit then Some(Core(rc, c.probs)) else None
  }

  /** The decoder after these choices, if it makes them. */
  function Decide(c: Core, inp: seq<Byte>, cs: seq<Choice>): (r: Option<Core>)
    requires CoreOk(c)
    ensures r.Some? ==> CoreOk(r.value)
    decreases |cs|
  {
    if cs == [] then Some(c)
    else
      match Pick(c, inp, cs[0])
      case None => None
      case Some(c') => Decide(c', inp, cs[1..])
  }

  lemma {:induction false} DecideJoins(c: Core, inp: seq<Byte>, a: seq<Choice>, b: seq<Choice>)
    requires CoreOk(c)
    ensures Decide(c, inp, a).None? ==> Decide(c, inp, a + b) == None
    ensures Decide(c, inp, a).Some? ==> Decide(c, inp, a + b) == Decide(Decide(c, inp, a).value, inp, b)
    decreases |a|
  {
    hide Pick, CoreOk;
    if a == [] {
      assert a + b == b;
    } else {
      assert (a + b)[1..] == a[1..] + b;
      var p := Pick(c, inp, a[0]);
      if p.Some? { DecideJoins(p.value, inp, a[1..], b); }
    }
  }

  // -------------------------------------------------------------- coder and decoder

  ghost predicate Agree(model: Model, probs: seq<nat>) {
    |probs| == PROBS_TOTAL && forall x :: Good(x) ==> Index(x) < |probs| && probs[Index(x)] == ProbOf(model, x)
  }

  lemma AgreeKept(model: Model, probs: seq<nat>, x: Context, p: Prob)
    requires Agree(model, probs) && Good(x)
    ensures Index(x) < |probs| && Agree(model[x := p], probs[Index(x) := p])
  {
    hide Index, Good, ContextAt;
    OwnProbability(x);
    forall y | Good(y) ensures Index(y) < |probs| && probs[Index(x) := p][Index(y)] == ProbOf(model[x := p], y) {
      OwnProbability(y);
    }
  }

  lemma FreshAgree()
    ensures Agree(map[], seq(PROBS_TOTAL, _ => 1024))
  {
    hide Index, Good, ContextAt;
    forall x | Good(x) ensures Index(x) < PROBS_TOTAL { OwnProbability(x); }
  }

  /** The number with these digits of base 256. */
  function Value(s: seq<Byte>): nat {
    if s == [] then 0 else 256 * Value(s[..|s| - 1]) + s[|s| - 1]
  }

  /** What the first bytes say, up to where the coder is, lies in its interval. */
  ghost predicate Inside(e: Coder, s: seq<Byte>) {
    5 + e.shifts <= |s| && e.low <= Value(s[..5 + e.shifts]) < e.low + e.range
  }

  lemma ValueNext(s: seq<Byte>, n: nat)
    requires n < |s|
    ensures Value(s[..n + 1]) == 256 * Value(s[..n]) + s[n]
  {
    assert s[..n + 1][..n] == s[..n];
  }

  lemma WidenBack(e: Coder, s: seq<Byte>)
    requires Inside(Widen(e), s)
    ensures Inside(e, s)
  {
    hide Value;
    if e.range < 0x100_0000 {
      ValueNext(s, 5 + e.shifts);
      var v, b: nat := Value(s[..5 + e.shifts]), s[5 + e.shifts];
      assert 256 * e.low <= 256 * v + b < 256 * (e.low + e.range);
    }
  }

  /** Intervals are within each other. */
  lemma PutBack(e: Coder, ch: Choice, s: seq<Byte>)
    requires Inside(Put(e, ch), s)
    ensures Inside(Widen(e), s) && Inside(e, s)
  {
    hide Value;
    WidenBack(e, s);
  }

  lemma {:induction false} PutAllBack(e: Coder, cs: seq<Choice>, s: seq<Byte>)
    requires Inside(PutAll(e, cs), s)
    ensures Inside(e, s)
    decreases |cs|
  {
    hide Put, Inside;
    if cs != [] {
      PutAllBack(Put(e, cs[0]), cs[1..], s);
      PutBack(e, cs[0], s);
    }
  }

  /** The decoder is where the coder was: the same range and probabilities, and the
      code is how far the bytes taken lie above low. */
  ghost predicate Tracks(c: Core, e: Coder, s: seq<Byte>) {
    && CoreOk(c) && Inside(e, s) && Agree(e.model, c.probs)
    && c.rc == Rc(e.range, Value(s[..5 + e.shifts]) - e.low, e.shifts)
  }

  /** The registers, without the probabilities. */
  ghost predicate Stands(rc: Rc, e: Coder, s: seq<Byte>) {
    Inside(e, s) && rc == Rc(e.range, Value(s[..5 + e.shifts]) - e.low, e.shifts)
  }

  lemma WidenAt(rc: Rc, e: Coder, s: seq<Byte>)
    requires RcOk(rc) && Stands(rc, e, s) && Inside(Widen(e), s)
    ensures Stands(Normalize(rc, s[5..]), Widen(e), s)
  {
    hide Value;
    if e.range < TOP {
      ValueNext(s, 5 + e.shifts);
      assert ByteAt(s[5..], e.shifts) == s[5 + e.shifts];
      assert (rc.code * 256) % TWO32 == rc.code * 256 && (rc.range * 256) % TWO32 == rc.range * 256;
    }
  }

  lemma CodedAt(rc: Rc, e: Coder, x: Context, bit: nat, s: seq<Byte>)
    requires RcOk(rc) && Stands(rc, e, s) && bit <= 1 && Inside(Put(e, Coded(x, bit)), s)
    ensures BitRc(rc, s[5..], ProbOf(e.model, x)).1 == bit
    ensures Stands(BitRc(rc, s[5..], ProbOf(e.model, x)).0, Put(e, Coded(x, bit)), s)
  {
    hide Value, Normalize, RcOk;
    PutBack(e, Coded(x, bit), s);
    WidenAt(rc, e, s);
    BitPicksPart(rc, s[5..], ProbOf(e.model, x));
  }

  lemma FlatAt(rc: Rc, e: Coder, bit: nat, s: seq<Byte>)
    requires RcOk(rc) && Stands(rc, e, s) && bit <= 1 && Inside(Put(e, Flat(bit)), s)
    ensures DirectRc(rc, s[5..]).1 == bit
    ensures Stands(DirectRc(rc, s[5..]).0, Put(e, Flat(bit)), s)
  {
    hide Value, Normalize, RcOk, DirectRc;
    PutBack(e, Flat(bit), s);
    WidenAt(rc, e, s);
    DirectPicksHalf(rc, s[5..]);
  }

  predicate ChoiceOk(ch: Choice) { ch.bit <= 1 && (ch.Coded? ==> Good(ch.context)) }

  predicate ChoicesOk(cs: seq<Choice>) { forall i :: 0 <= i < |cs| ==> ChoiceOk(cs[i]) }

  lemma PickFollows(c: Core, e: Coder, ch: Choice, s: seq<Byte>)
    requires Tracks(c, e, s) && ChoiceOk(ch) && Inside(Put(e, ch), s)
    ensures Pick(c, s[5..], ch).Some? && Tracks(Pick(c, s[5..], ch).value, Put(e, ch), s)
  {
    match ch
    case Coded(x, bit) => CodedFollows(c, e, x, bit, s);
    case Flat(bit) =>
      hide Value, Normalize, RcOk, DirectRc, ProbsOk, Agree, Inside;
      FlatAt(c.rc, e, bit, s);
  }

  lemma CodedFollows(c: Core, e: Coder, x: Context, bit: nat, s: seq<Byte>)
    requires Tracks(c, e, s) && ChoiceOk(Coded(x, bit)) && Inside(Put(e, Coded(x, bit)), s)
    ensures Pick(c, s[5..], Coded(x, bit)).Some? && Tracks(Pick(c, s[5..], Coded(x, bit)).value, Put(e, Coded(x, bit)), s)
  {
    hide Value, BitRc, RcOk, Inside, Good, Index;
    OwnProbability(x);
    CodedAt(c.rc, e, x, bit, s);
    AgreeKept(e.model, c.probs, x, Learned(ProbOf(e.model, x), bit));
    hide Agree;
  }

  lemma {:induction false} Follows(c: Core, e: Coder, cs: seq<Choice>, s: seq<Byte>)
    requires Tracks(c, e, s) && ChoicesOk(cs) && Inside(PutAll(e, cs), s)
    ensures Decide(c, s[5..], cs).Some? && Tracks(Decide(c, s[5..], cs).value, PutAll(e, cs), s)
    decreases |cs|
  {
    hide Put, Pick, ChoiceOk, Value;
    if cs != [] {
      PutAllBack(Put(e, cs[0]), cs[1..], s);
      assert ChoiceOk(cs[0]);
      PickFollows(c, e, cs[0], s);
      Follows(Pick(c, s[5..], cs[0]).value, Put(e, cs[0]), cs[1..], s);
    }
  }

  // ------------------------------------------------------------------------- bytes

  /** 256 to the n. */
  function Pow256(n: nat): (r: nat)
    ensures r >= 1
  {
    if n == 0 then 1 else 256 * Pow256(n - 1)
  }

  lemma {:induction false} ValueOf(v: nat, n: nat)
    requires v < Pow256(n)
    ensures Value(BigEndian(v, n)) == v
  {
    if n > 0 {
      ValueOf(v / 256, n - 1);
      assert BigEndian(v, n)[..n - 1] == BigEndian(v / 256, n - 1);
    }
  }

  /** Intervals do not vanish and stay within the numbers of their length. */
  ghost predicate Bounded(e: Coder) { RANGE_MIN <= e.range && e.low + e.range <= TWO32 * Pow256(e.shifts) }

  lemma WidenBounded(e: Coder)
    requires Bounded(e)
    ensures Bounded(Widen(e)) && Widen(e).range >= TOP
  {
    var p, q := Pow256(e.shifts), Pow256(e.shifts + 1);
    assert q == 256 * p;
    hide Pow256;
  }

  lemma PutBounded(e: Coder, ch: Choice)
    requires Bounded(e)
    ensures Bounded(Put(e, ch))
  {
    WidenBounded(e);
    var n := Widen(e);
    hide Pow256, Widen;
    if ch.Coded? { SplitBounds(n.range, ProbOf(n.model, ch.context)); }
  }

  lemma {:induction false} PutAllBounded(e: Coder, cs: seq<Choice>)
    requires Bounded(e)
    ensures Bounded(PutAll(e, cs))
    decreases |cs|
  {
    hide Put, Bounded;
    if cs != [] {
      PutBounded(e, cs[0]);
      PutAllBounded(Put(e, cs[0]), cs[1..]);
    }
  }

  lemma FreshBounded(model: Model)
    ensures Bounded(Fresh(model))
  {}

  lemma FiveMore(n: nat)
    ensures Pow256(5 + n) == 256 * TWO32 * Pow256(n)
  {
    assert Pow256(5 + n) == 256 * Pow256(4 + n);
    assert Pow256(4 + n) == 256 * Pow256(3 + n);
    assert Pow256(3 + n) == 256 * Pow256(2 + n);
    assert Pow256(2 + n) == 256 * Pow256(1 + n);
  }

  lemma LowFits(e: Coder)
    requires Bounded(e)
    ensures e.low < Pow256(5 + e.shifts)
  {
    FiveMore(e.shifts);
    hide Pow256;
  }

  /** The bytes written lie in every interval on the way to them. */
  lemma WrittenInside(model: Model, cs: seq<Choice>)
    ensures Inside(Closed(model, cs), Written(model, cs)) && Inside(PutAll(Fresh(model), cs), Written(model, cs))
    ensures Inside(Fresh(model), Written(model, cs))
    ensures Value(Written(model, cs)) == Closed(model, cs).low
  {
    var e, s := Closed(model, cs), Written(model, cs);
    FreshBounded(model);
    PutAllBounded(Fresh(model), cs);
    WidenBounded(PutAll(Fresh(model), cs));
    LowFits(e);
    hide Pow256, PutAll, Value, BigEndian, Widen;
    ValueOf(e.low, 5 + e.shifts);
    assert s[..5 + e.shifts] == s;
    WidenBack(PutAll(Fresh(model), cs), s);
    PutAllBack(Fresh(model), cs, s);
  }

  /** From the bytes written for a list of choices the decoder makes these choices,
      takes all bytes and is left with a code of zero. */
  lemma MakesChoices(model: Model, probs: seq<nat>, cs: seq<Choice>)
    requires ProbsOk(probs) && Agree(model, probs) && ChoicesOk(cs)
    ensures var s := Written(model, cs);
            var c := Core(Rc(TWO32 - 1, Value(s[..5]), 0), probs);
            && Value(s[..5]) < TWO32 && CoreOk(c)
            && Decide(c, s[5..], cs).Some?
            && var r := Decide(c, s[5..], cs).value;
               var end := Normalize(r.rc, s[5..]);
               end.pos == |s[5..]| && end.code == 0 && Agree(Closed(model, cs).model, r.probs)
  {
    hide PutAll, Written, Value, Widen, Agree, Decide, ProbsOk, ChoicesOk;
    var s := Written(model, cs);
    var c := Core(Rc(TWO32 - 1, Value(s[..5]), 0), probs);
    WrittenInside(model, cs);
    Follows(c, Fresh(model), cs, s);
    EndsAtZero(Decide(c, s[5..], cs).value, model, cs);
  }

  lemma EndsAtZero(r: Core, model: Model, cs: seq<Choice>)
    requires Tracks(r, PutAll(Fresh(model), cs), Written(model, cs))
    ensures var s := Written(model, cs);
            var end := Normalize(r.rc, s[5..]);
            end.pos == |s[5..]| && end.code == 0 && Agree(Closed(model, cs).model, r.probs)
  {
    hide PutAll, Value, Agree, ProbsOk, BigEndian;
    var s := Written(model, cs);
    WrittenInside(model, cs);
    WidenAt(r.rc, PutAll(Fresh(model), cs), s);
    assert s[..|s|] == s;
  }
}
