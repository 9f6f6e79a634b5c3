/** The LZMA format from the writer's side: symbols, the binary choices that stand
    for them, and a range coder for those choices on unbounded integers. Nothing
    here is taken from the decoder. */
module LzmaFormat {
  import opened Common

  // -------------------------------------------------------------------- choices

  /** Binary trees, and what tells apart trees of one kind. */
  datatype Tree =
    | SlotTree(distState: nat)
    | SpecialTree(slot: nat)
    | AlignTree
    | LowTree(rep: bool, pos: nat)
    | MidTree(rep: bool, pos: nat)
    | HighTree(rep: bool)
    | LiteralTree(literal: nat, matched: nat)

  /** What a probability is kept for. */
  datatype Context =
    | IsMatch(state: nat, pos: nat)
    | IsRep(state: nat)
    | IsRep0(state: nat)
    | IsRep1(state: nat)
    | IsRep2(state: nat)
    | IsRep0Long(state: nat, pos: nat)
    | LenChoice(rep: bool)
    | LenChoice2(rep: bool)
    | Node(tree: Tree, node: nat)

  /** A bit with a probability or one without. */
  datatype Choice = Coded(context: Context, bit: nat) | Flat(bit: nat)

  /** The first of n binary digits, and the number the others make. */
  function TopDigit(v: nat, n: nat): (b: nat)
    requires n > 0
    ensures b <= 1
  {
    if v >= Pow2(n - 1) then 1 else 0
  }

  function LowDigits(v: nat, n: nat): nat
    requires n > 0
  {
    if v >= Pow2(n - 1) then v - Pow2(n - 1) else v
  }

  /** n binary digits of v down a tree, the highest first. */
  function DownTree(t: Tree, n: nat, v: nat, node: nat): seq<Choice> {
    if n == 0 then []
    else
      var b := TopDigit(v, n);
      [Coded(Node(t, node), b)] + DownTree(t, n - 1, LowDigits(v, n), 2 * node + b)
  }

  /** The lowest first. */
  function DownReversed(t: Tree, n: nat, v: nat, node: nat): seq<Choice> {
    if n == 0 then [] else [Coded(Node(t, node), v % 2)] + DownReversed(t, n - 1, v / 2, 2 * node + v % 2)
  }

  function FlatDigits(n: nat, v: nat): seq<Choice> {
    if n == 0 then [] else [Flat(TopDigit(v, n))] + FlatDigits(n - 1, LowDigits(v, n))
  }

  // -------------------------------------------------------------------- symbols

  datatype Props = Props(lc: nat, lp: nat, pb: nat)

  predicate PropsFit(p: Props) { p.lc + p.lp <= 4 && p.pb <= 4 }

  datatype Token = Literal(byte: Byte) | Match(dist: nat, len: nat) | ShortRep | Rep(i: nat, len: nat)

  /** The state, the latest four distances, latest first, and the text so far. */
  datatype Memory = Memory(state: nat, reps: seq<nat>, text: seq<Byte>)

  predicate MemoryOk(m: Memory) {
    && m.state < 12 && |m.reps| == 4 && (forall i :: 0 <= i < 4 ==> m.reps[i] < 0x1_0000_0000)
    && (m.state >= 7 ==> m.reps[0] < |m.text|)
  }

  // The state after a symbol, by the state before it.
  const LITERAL_NEXT: seq<nat> := [0, 0, 0, 0, 1, 2, 3, 4, 5, 6, 4, 5]
  const MATCH_NEXT: seq<nat> := [7, 7, 7, 7, 7, 7, 7, 10, 10, 10, 10, 10]
  const REP_NEXT: seq<nat> := [8, 8, 8, 8, 8, 8, 8, 11, 11, 11, 11, 11]
  const SHORT_REP_NEXT: seq<nat> := [9, 9, 9, 9, 9, 9, 9, 11, 11, 11, 11, 11]

  /** A distance counts from 0 for the last byte; `size` is the dictionary's. */
  predicate InReach(m: Memory, dist: nat, size: nat) { dist < |m.text| && dist < size }

  predicate LenFits(len: nat) { 2 <= len <= 273 }

  /** A symbol of the format. */
  predicate Formed(t: Token) {
    match t
    case Literal(_) => true
    case Match(dist, len) => dist < 0x1_0000_0000 && LenFits(len)
    case ShortRep => true
    case Rep(i, len) => i < 4 && LenFits(len)
  }

  /** The distance a symbol copies from. */
  function Source(m: Memory, t: Token): nat
    requires MemoryOk(m) && Formed(t) && !t.Literal?
  {
    if t.Match? then t.dist else if t.ShortRep? then m.reps[0] else m.reps[t.i]
  }

  /** It makes sense here. */
  predicate TokenFits(m: Memory, t: Token, size: nat)
    requires MemoryOk(m)
  {
    Formed(t) && (!t.Literal? ==> InReach(m, Source(m, t), size))
  }

  function MoveToFront(reps: seq<nat>, i: nat): seq<nat>
    requires i < |reps|
  {
    [reps[i]] + reps[..i] + reps[i + 1..]
  }

  /** n more bytes, each the one at the distance before it. */
  function Repeated(text: seq<Byte>, dist: nat, n: nat): seq<Byte>
    requires dist < |text|
    decreases n
  {
    if n == 0 then text else Repeated(text + [text[|text| - 1 - dist]], dist, n - 1)
  }

  lemma {:induction false} RepeatedGrows(text: seq<Byte>, dist: nat, n: nat)
    requires dist < |text|
    ensures text <= Repeated(text, dist, n) && |Repeated(text, dist, n)| == |text| + n
    decreases n
  {
    if n > 0 { RepeatedGrows(text + [text[|text| - 1 - dist]], dist, n - 1); }
  }

  /** What a symbol means. */
  function Meaning(m: Memory, t: Token, size: nat): (r: Memory)
    requires MemoryOk(m) && TokenFits(m, t, size)
    ensures MemoryOk(r) && m.text < r.text
  {
    match t
    case Literal(b) => Memory(LITERAL_NEXT[m.state], m.reps, m.text + [b])
    case Match(dist, len) =>
      RepeatedGrows(m.text, dist, len);
      Memory(MATCH_NEXT[m.state], [dist] + m.reps[..3], Repeated(m.text, dist, len))
    case ShortRep =>
      RepeatedGrows(m.text, m.reps[0], 1);
      Memory(SHORT_REP_NEXT[m.state], m.reps, Repeated(m.text, m.reps[0], 1))
    case Rep(i, len) =>
      RepeatedGrows(m.text, m.reps[i], len);
      Memory(REP_NEXT[m.state], MoveToFront(m.reps, i), Repeated(m.text, m.reps[i], len))
  }

  // ---------------------------------------------------------- the choices of a symbol

  function LenChoices(rep: bool, pos: nat, len: nat): seq<Choice>
    requires LenFits(len)
  {
    if len < 10 then [Coded(LenChoice(rep), 0)] + DownTree(LowTree(rep, pos), 3, len - 2, 1)
    else if len < 18 then [Coded(LenChoice(rep), 1), Coded(LenChoice2(rep), 0)] + DownTree(MidTree(rep, pos), 3, len - 10, 1)
    else [Coded(LenChoice(rep), 1), Coded(LenChoice2(rep), 1)] + DownTree(HighTree(rep), 8, len - 18, 1)
  }

  /** The place of the highest one of v. */
  function Log2(v: nat): (k: nat)
    requires v > 0
    ensures Pow2(k) <= v < 2 * Pow2(k)
  {
    if v < 2 then 0 else 1 + Log2(v / 2)
  }

  /** The place of the highest one and the digit after it make the slot. */
  function DistSlot(dist: nat): nat
    requires dist >= 4
  {
    assert Log2(dist) > 0;
    var k := Log2(dist);
    2 * k + TopDigit(dist - Pow2(k), k)
  }

  /** The digits after these. */
  function DistLow(dist: nat): nat
    requires dist >= 4
  {
    var k := Log2(dist);
    LowDigits(dist - Pow2(k), k)
  }

  /** One digit less than the place says: up to five of them in a tree of their own, from
      six on all but four flat. */
  function LowChoices(slot: nat, low: nat): seq<Choice>
    requires slot >= 4
  {
    var n := slot / 2 - 1;
    if n < 6 then DownReversed(SpecialTree(slot), n, low, 1)
    else FlatDigits(n - 4, low / 16) + DownReversed(AlignTree, 4, low % 16, 1)
  }

  function DistChoices(len: nat, dist: nat): seq<Choice>
    requires LenFits(len)
  {
    var tree := SlotTree(if len >= 5 then 3 else len - 2);
    if dist < 4 then DownTree(tree, 6, dist, 1)
    else
      DistSlotOk(dist);
      DownTree(tree, 6, DistSlot(dist), 1) + LowChoices(DistSlot(dist), DistLow(dist))
  }

  lemma DistSlotOk(dist: nat)
    requires dist >= 4
    ensures DistSlot(dist) >= 4
  {
    assert Pow2(0) == 1 && Pow2(1) == 2;
  }

  /** Which of the latest distances, in unary: 0, 10, 110 or 111. A repeat of the
      latest one says in addition that it is longer than a single byte. */
  function RepChoices(i: nat, state: nat, pos: nat): seq<Choice> {
    if i == 0 then [Coded(IsRep0(state), 0), Coded(IsRep0Long(state, pos), 1)]
    else if i == 1 then [Coded(IsRep0(state), 1), Coded(IsRep1(state), 0)]
    else [Coded(IsRep0(state), 1), Coded(IsRep1(state), 1), Coded(IsRep2(state), if i == 2 then 0 else 1)]
  }

  /** The last byte of the text. */
  function Latest(text: seq<Byte>): nat { if text == [] then 0 else text[|text| - 1] }

  /** The position's low bits, then the high bits of the byte before. */
  function LiteralPlace(p: Props, text: seq<Byte>): nat
    requires PropsFit(p)
  {
    var low: nat, block: nat, high: nat := |text| % Pow2(p.lp), Pow2(p.lc), Latest(text) / Pow2(8 - p.lc);
    low * block + high
  }

  /** A byte after a match: as long as its digits are those of the byte the latest
      distance points at, the next of those selects the tree. */
  function MatchedChoices(place: nat, n: nat, v: nat, like: nat, same: bool, node: nat): seq<Choice> {
    if n == 0 then []
    else
      var b, l := TopDigit(v, n), TopDigit(like, n);
      [Coded(Node(LiteralTree(place, if same then 1 + l else 0), node), b)] +
        MatchedChoices(place, n - 1, LowDigits(v, n), LowDigits(like, n), same && b == l, 2 * node + b)
  }

  function LiteralChoices(p: Props, m: Memory, byte: Byte): seq<Choice>
    requires PropsFit(p) && MemoryOk(m)
  {
    var place := LiteralPlace(p, m.text);
    if m.state < 7 then DownTree(LiteralTree(place, 0), 8, byte, 1)
    else MatchedChoices(place, 8, byte, m.text[|m.text| - 1 - m.reps[0]], true, 1)
  }

  function TokenChoices(p: Props, m: Memory, t: Token): seq<Choice>
    requires PropsFit(p) && MemoryOk(m) && Formed(t)
  {
    var pos := |m.text| % Pow2(p.pb);
    match t
    case Literal(byte) => [Coded(IsMatch(m.state, pos), 0)] + LiteralChoices(p, m, byte)
    case Match(dist, len) =>
      [Coded(IsMatch(m.state, pos), 1), Coded(IsRep(m.state), 0)] + (LenChoices(false, pos, len) + DistChoices(len, dist))
    case ShortRep =>
      [Coded(IsMatch(m.state, pos), 1), Coded(IsRep(m.state), 1), Coded(IsRep0(m.state), 0), Coded(IsRep0Long(m.state, pos), 0)]
    case Rep(i, len) =>
      [Coded(IsMatch(m.state, pos), 1), Coded(IsRep(m.state), 1)] + (RepChoices(i, m.state, pos) + LenChoices(true, pos, len))
  }

  // ------------------------------------------------------------------ lists of symbols

  predicate TokensFit(m: Memory, ts: seq<Token>, size: nat)
    requires MemoryOk(m)
    decreases |ts|, 0
  {
    ts == [] || (var n := |ts| - 1; TokensFit(m, ts[..n], size) && TokenFits(Meanings(m, ts[..n], size), ts[n], size))
  }

  function Meanings(m: Memory, ts: seq<Token>, size: nat): (r: Memory)
    requires MemoryOk(m) && TokensFit(m, ts, size)
    ensures MemoryOk(r) && m.text <= r.text
    decreases |ts|, 1
  {
    if ts == [] then m else Meaning(Meanings(m, ts[..|ts| - 1], size), ts[|ts| - 1], size)
  }

  function AllChoices(p: Props, m: Memory, ts: seq<Token>, size: nat): seq<Choice>
    requires PropsFit(p) && MemoryOk(m) && TokensFit(m, ts, size)
  {
    if ts == [] then []
    else
      var n := |ts| - 1;
      AllChoices(p, m, ts[..n], size) + TokenChoices(p, Meanings(m, ts[..n], size), ts[n])
  }

  // ------------------------------------------------------------------- the range coder

  type Prob = p: nat | 31 <= p <= 2017 witness 1024

  type Model = map<Context, Prob>

  /** Bits are even until something is known of them. */
  function ProbOf(model: Model, x: Context): Prob { if x in model then model[x] else 1024 }

  function Learned(p: Prob, bit: nat): Prob { if bit == 0 then p + (2048 - p) / 32 else p - p / 32 }

  /** The interval from low on, low + range excluded, after `shifts` digits of base 256. */
  datatype Coder = Coder(low: nat, range: nat, shifts: nat, model: Model)

  function Widen(e: Coder): Coder {
    if e.range < 0x100_0000 then e.(low := 256 * e.low, range := 256 * e.range, shifts := e.shifts + 1) else e
  }

  /** The part of an interval for a zero. */
  function ZeroPart(range: nat, p: Prob): (r: nat)
    ensures r <= range
  {
    assert (range / 2048) * p <= (range / 2048) * 2048;
    (range / 2048) * p
  }

  function Put(e: Coder, ch: Choice): Coder {
    var n := Widen(e);
    match ch
    case Coded(x, bit) =>
      var p := ProbOf(n.model, x);
      var zero := ZeroPart(n.range, p);
      var model := n.model[x := Learned(p, bit)];
      if bit == 0 then Coder(n.low, zero, n.shifts, model) else Coder(n.low + zero, n.range - zero, n.shifts, model)
    case Flat(bit) =>
      var half := n.range / 2;
      n.(low := if bit == 0 then n.low else n.low + half, range := half)
  }

  function PutAll(e: Coder, cs: seq<Choice>): Coder
    decreases |cs|
  {
    if cs == [] then e else PutAll(Put(e, cs[0]), cs[1..])
  }

  /** v in n digits of base 256. */
  function BigEndian(v: nat, n: nat): (s: seq<Byte>)
    ensures |s| == n
  {
    if n == 0 then [] else BigEndian(v / 256, n - 1) + [v % 256]
  }

  function Fresh(model: Model): Coder { Coder(0, 0xFFFF_FFFF, 0, model) }

  /** The coder after these choices, and the bytes it writes: the least number in the
      last interval, with five digits before the first shift. */
  function Closed(model: Model, cs: seq<Choice>): Coder { Widen(PutAll(Fresh(model), cs)) }

  function Written(model: Model, cs: seq<Choice>): (s: seq<Byte>)
    ensures |s| == 5 + Closed(model, cs).shifts
  {
    var e := Closed(model, cs);
    BigEndian(e.low, 5 + e.shifts)
  }
}
