/** The XArray's tree (xarray.c): a 64-way radix tree whose nodes carry counts
    and mark bits, its invariants, and the single steps its operations take.
    A node is named by the place it covers, its level (shift / 6) and the index
    bits above it: a node keeps its place from allocation until it is freed. */
module XArrayTree {
  import opened Common

  datatype Place = Place(level: nat, prefix: nat)

  /** What a slot or the head holds. Zero is a reserved entry. */
  datatype Entry = Null | Zero | Value(v: nat) | Pointer(p: nat) | Child(place: Place)

  datatype Node = Node(parent: Option<Place>, offset: nat, count: nat, nrValues: nat,
                       slots: seq<Entry>, marks: seq<seq<bool>>)

  /** XA_FLAGS_TRACK_FREE and XA_FLAGS_ZERO_BUSY. */
  datatype Config = Config(trackFree: bool, zeroBusy: bool)

  datatype Tree = Tree(nodes: map<Place, Node>, head: Entry, marks: seq<bool>)

  type Mark = m: nat | m < 3

  const FREE: Mark := 0

  type Offset = o: nat | o < 64

  // -------------------------------------------------------------------- indices

  /** index >> shift, for a shift of 6 * l. */
  function Shr(i: nat, l: nat): nat {
    if l == 0 then i else Shr(i, l - 1) / 64
  }

  /** get_offset. */
  function Off(i: nat, l: nat): (o: Offset) { Shr(i, l) % 64 }

  /** The node of level l that covers index i. */
  function Over(i: nat, l: nat): Place { Place(l, Shr(i, l) / 64) }

  /** The first index whose bits from level l up are x. */
  function Base(x: nat, l: nat): nat
    decreases l
  {
    if l == 0 then x else Base(x * 64, l - 1)
  }

  lemma {:induction false} ShrBase(x: nat, l: nat)
    ensures Shr(Base(x, l), l) == x
    decreases l
  {
    if l > 0 { ShrBase(x * 64, l - 1); }
  }

  lemma OverBase(p: nat, l: nat)
    ensures Over(Base(p * 64, l), l) == Place(l, p)
  {
    ShrBase(p * 64, l);
  }

  lemma {:induction false} ShrBelow(i: nat, x: nat, l: nat)
    ensures i < Base(x, l) <==> Shr(i, l) < x
    decreases l
  {
    if l > 0 { ShrBelow(i, x * 64, l - 1); }
  }

  /** The node above n, the slot n is in there, and the node below slot o of n. */
  function Up(n: Place): (u: Place)
    ensures u.level == n.level + 1
  {
    Place(n.level + 1, n.prefix / 64)
  }

  function SlotNo(n: Place): Offset { n.prefix % 64 }

  function Down(n: Place, o: nat): (c: Place)
    requires n.level > 0
    ensures c.level == n.level - 1
  {
    Place(n.level - 1, n.prefix * 64 + o)
  }

  lemma TopUp(n: Place)
    requires n.prefix == 0
    ensures Up(n) == Place(n.level + 1, 0) && SlotNo(n) == 0
  {}

  lemma UpDown(n: Place, o: Offset)
    requires n.level > 0
    ensures Up(Down(n, o)) == n && SlotNo(Down(n, o)) == o
  {}

  lemma OverUp(i: nat, l: nat)
    ensures Up(Over(i, l)) == Over(i, l + 1) && SlotNo(Over(i, l)) == Off(i, l + 1)
  {}

  lemma OverDown(i: nat, l: nat)
    requires l > 0
    ensures Down(Over(i, l), Off(i, l)) == Over(i, l - 1)
  {}

  // ----------------------------------------------------------------- invariants

  function Weigh(e: Entry, values: bool): nat {
    if (if values then e.Value? else !e.Null?) then 1 else 0
  }

  /** How many entries are present, or how many are value entries. */
  function Tally(s: seq<Entry>, values: bool): nat {
    if s == [] then 0 else Tally(s[..|s| - 1], values) + Weigh(s[|s| - 1], values)
  }

  ghost predicate Any(bits: seq<bool>) { exists o :: 0 <= o < |bits| && bits[o] }

  /** The mark of an index that has no entry. */
  predicate Default(cfg: Config, m: Mark) { cfg.trackFree && m == FREE }

  ghost predicate Sized(nd: Node) {
    |nd.slots| == 64 && |nd.marks| == 3 && forall m :: 0 <= m < 3 ==> |nd.marks[m]| == 64
  }

  ghost predicate SlotOk(t: Tree, n: Place, e: Entry, o: nat) {
    match e
    case Null => true
    case Child(c) => n.level > 0 && c == Down(n, o) && c in t.nodes
    case _ => n.level == 0
  }

  ghost predicate UpOk(t: Tree, n: Place, nd: Node) {
    && nd.offset == SlotNo(n)
    && (if t.head == Child(n) then n.prefix == 0 && nd.parent == None
        else
          var u := Up(n);
          nd.parent == Some(u) && u in t.nodes && |t.nodes[u].slots| == 64 && t.nodes[u].slots[SlotNo(n)] == Child(n))
  }

  ghost predicate LevelOk(t: Tree, n: Place) {
    t.head.Child? && n.level <= t.head.place.level && (n.level == t.head.place.level ==> n == t.head.place)
  }

  ghost predicate DownOk(t: Tree, n: Place, nd: Node) {
    forall o :: 0 <= o < |nd.slots| ==> SlotOk(t, n, nd.slots[o], o)
  }

  ghost predicate NodeOk(t: Tree, n: Place, nd: Node) {
    Sized(nd) && UpOk(t, n, nd) && LevelOk(t, n) && DownOk(t, n, nd)
  }

  /** Children and parents point at each other and entries sit at level 0. */
  ghost predicate Shape(t: Tree) {
    && |t.marks| == 3
    && (t.head.Child? ==> t.head.place in t.nodes)
    && forall n :: n in t.nodes ==> NodeOk(t, n, t.nodes[n])
  }

  ghost predicate CountOk(nd: Node) {
    nd.count == Tally(nd.slots, false) && nd.nrValues == Tally(nd.slots, true)
  }

  /** count and nr_values are exact. */
  ghost predicate Counts(t: Tree) {
    forall n :: n in t.nodes ==> CountOk(t.nodes[n])
  }

  /** A child's bit in its parent tells whether any bit of the child is set; an
      absent entry has the default marks. */
  ghost predicate BitOk(t: Tree, cfg: Config, m: Mark, e: Entry, b: bool) {
    match e
    case Null => b == Default(cfg, m)
    case Child(c) => c in t.nodes && |t.nodes[c].marks| == 3 && b == Any(t.nodes[c].marks[m])
    case _ => true
  }

  ghost predicate BitsOk(t: Tree, cfg: Config, m: Mark, n: Place)
    requires n in t.nodes && Sized(t.nodes[n])
  {
    forall o :: 0 <= o < 64 ==> BitOk(t, cfg, m, t.nodes[n].slots[o], t.nodes[n].marks[m][o])
  }

  ghost predicate RootOk(t: Tree, cfg: Config, m: Mark)
    requires |t.marks| == 3
  {
    match t.head
    case Null => !cfg.zeroBusy ==> t.marks[m] == Default(cfg, m)
    case _ => BitOk(t, cfg, m, t.head, t.marks[m])
  }

  ghost predicate MarkedFor(t: Tree, cfg: Config, m: Mark)
    requires Shape(t)
  {
    RootOk(t, cfg, m) && forall n :: n in t.nodes ==> BitsOk(t, cfg, m, n)
  }

  ghost predicate Marked(t: Tree, cfg: Config)
    requires Shape(t)
  {
    forall m: Mark :: MarkedFor(t, cfg, m)
  }

  ghost predicate TreeOk(t: Tree, cfg: Config) { Shape(t) && Counts(t) && Marked(t, cfg) }

  // ------------------------------------------------------------- what it stands for

  /** The entry stored at index i. */
  ghost function EntryAt(t: Tree, i: nat): Entry
    requires Shape(t)
  {
    if !t.head.Child? then (if i == 0 then t.head else Null)
    else if Over(i, 0) in t.nodes then t.nodes[Over(i, 0)].slots[i % 64]
    else Null
  }

  ghost predicate MarkAt(t: Tree, cfg: Config, m: Mark, i: nat)
    requires Shape(t)
  {
    if !t.head.Child? then (if i == 0 then t.marks[m] else Default(cfg, m))
    else if Over(i, 0) in t.nodes then t.nodes[Over(i, 0)].marks[m][i % 64]
    else Default(cfg, m)
  }

  /** In a zero-busy array, an absent entry 0 and a reserved one are the same. */
  function Norm(cfg: Config, i: nat, e: Entry): Entry {
    if cfg.zeroBusy && i == 0 && e == Null then Zero else e
  }

  /** Entry 0, held in a node, once the head has come down to `head`. */
  function Lowered(cfg: Config, e: Entry, head: Entry): Entry {
    if cfg.zeroBusy && e == Zero && !head.Child? then Null else e
  }

  ghost function Content(t: Tree, cfg: Config, i: nat): Entry
    requires Shape(t)
  {
    Norm(cfg, i, EntryAt(t, i))
  }

  /** The two trees hold the same entries and marks. */
  ghost predicate Same(t: Tree, t': Tree, cfg: Config)
    requires Shape(t) && Shape(t')
  {
    && (forall i: nat :: Content(t', cfg, i) == Content(t, cfg, i))
    && (forall m: Mark, i: nat :: MarkAt(t', cfg, m, i) == MarkAt(t, cfg, m, i))
  }

  lemma NodeAt(t: Tree, n: Place)
    requires Shape(t) && n in t.nodes
    ensures NodeOk(t, n, t.nodes[n])
  {}

  lemma RootThere(t: Tree)
    requires Shape(t)
    ensures |t.marks| == 3 && (t.head.Child? ==> t.head.place in t.nodes)
  {}

  lemma AllNodesOk(t: Tree)
    requires |t.marks| == 3 && (t.head.Child? ==> t.head.place in t.nodes)
    requires forall n :: n in t.nodes ==> NodeOk(t, n, t.nodes[n])
    ensures Shape(t)
  {}

  lemma LevelAt(t: Tree, n: Place)
    requires Shape(t) && n in t.nodes
    ensures LevelOk(t, n)
  {}

  lemma BareNodes(t: Tree)
    requires Shape(t) && !t.head.Child?
    ensures t.nodes == map[]
  {
    forall n | n in t.nodes ensures false { LevelAt(t, n); }
  }

  lemma BitsAt(t: Tree, cfg: Config, m: Mark, n: Place, o: Offset)
    requires Shape(t) && Marked(t, cfg) && n in t.nodes
    ensures Sized(t.nodes[n]) && BitOk(t, cfg, m, t.nodes[n].slots[o], t.nodes[n].marks[m][o])
  {
    assert MarkedFor(t, cfg, m) && BitsOk(t, cfg, m, n);
  }

  lemma RootAt(t: Tree, cfg: Config, m: Mark)
    requires Shape(t) && Marked(t, cfg)
    ensures RootOk(t, cfg, m)
  {
    assert MarkedFor(t, cfg, m);
  }

  // -------------------------------------------------------------------- tallies

  lemma {:induction false} TallyUpdate(s: seq<Entry>, o: nat, e: Entry, values: bool)
    requires o < |s|
    ensures Tally(s[o := e], values) + Weigh(s[o], values) == Tally(s, values) + Weigh(e, values)
  {
    var k := |s| - 1;
    if o < k {
      TallyUpdate(s[..k], o, e, values);
      assert s[o := e][..k] == s[..k][o := e];
    } else {
      assert s[o := e][..k] == s[..k];
    }
  }

  lemma {:induction false} TallyPositive(s: seq<Entry>, o: nat)
    requires o < |s| && s[o] != Null
    ensures Tally(s, false) > 0
  {
    var k := |s| - 1;
    if o < k { TallyPositive(s[..k], o); }
  }

  lemma {:induction false} TallyZero(s: seq<Entry>)
    requires forall o :: 0 <= o < |s| ==> s[o] == Null
    ensures Tally(s, false) == 0 && Tally(s, true) == 0
  {
    if s != [] { TallyZero(s[..|s| - 1]); }
  }

  /** A count of 0 means every slot is empty. */
  lemma AllNull(s: seq<Entry>)
    requires Tally(s, false) == 0
    ensures forall o :: 0 <= o < |s| ==> s[o] == Null
  {
    forall o | 0 <= o < |s| ensures s[o] == Null {
      if s[o] != Null { TallyPositive(s, o); }
    }
  }

  lemma {:induction false} TallyTwo(s: seq<Entry>, a: nat, b: nat)
    requires a < b < |s| && s[a] != Null && s[b] != Null
    ensures Tally(s, false) >= 2
  {
    var k := |s| - 1;
    if b < k { TallyTwo(s[..k], a, b); } else { TallyPositive(s[..k], a); }
  }

  /** A count of 1 with slot 0 in use means slot 0 is the only one. */
  lemma OnlyFirst(s: seq<Entry>)
    requires s != [] && Tally(s, false) == 1 && s[0] != Null
    ensures forall o :: 0 < o < |s| ==> s[o] == Null
  {
    forall o | 0 < o < |s| ensures s[o] == Null {
      if s[o] != Null { TallyTwo(s, 0, o); }
    }
  }

  lemma {:induction false} TallyBelow(s: seq<Entry>, values: bool)
    ensures Tally(s, values) <= |s|
  {
    if s != [] { TallyBelow(s[..|s| - 1], values); }
  }

  // ------------------------------------------------------------------ ancestors

  /** Every node's ancestors are in the tree, each the child of the next. */
  lemma {:induction false} Ancestor(t: Tree, i: nat, l: nat, k: nat)
    requires Shape(t) && Over(i, l) in t.nodes
    requires t.head.Child? && l <= k <= t.head.place.level
    ensures Over(i, k) in t.nodes && Sized(t.nodes[Over(i, k)])
    ensures k > l ==> t.nodes[Over(i, k)].slots[Off(i, k)] == Child(Over(i, k - 1))
    decreases k
  {
    hide Shape, NodeOk, Up, SlotNo, Off;
    if k == l {
      SizedAt(t, Over(i, l));
    } else {
      Ancestor(t, i, l, k - 1);
      var n := Over(i, k - 1);
      assert t.head != Child(n);
      ParentHas(t, n);
      OverUp(i, k - 1);
    }
  }

  lemma SizedAt(t: Tree, n: Place)
    requires Shape(t) && n in t.nodes
    ensures Sized(t.nodes[n])
  {}

  lemma ParentHas(t: Tree, n: Place)
    requires Shape(t) && n in t.nodes && t.head != Child(n)
    ensures var u := Up(n);
            u in t.nodes && Sized(t.nodes[u]) && t.nodes[u].slots[SlotNo(n)] == Child(n)
  {
    hide Up, SlotNo;
    NodeAt(t, n);
    SizedAt(t, Up(n));
  }

  /** An index with a leaf is in reach of the head. */
  lemma InReach(t: Tree, i: nat, l: nat)
    requires Shape(t) && Over(i, l) in t.nodes
    ensures t.head.Child? && l <= t.head.place.level && Over(i, t.head.place.level) == t.head.place
    ensures Shr(i, t.head.place.level) < 64
  {
    NodeAt(t, Over(i, l));
    var h := t.head.place.level;
    Ancestor(t, i, l, h);
    NodeAt(t, Over(i, h));
    NodeAt(t, t.head.place);
  }

  /** Where the walk down meets an empty slot, there is nothing below. */
  lemma NothingBelow(t: Tree, i: nat, l: nat, k: nat)
    requires Shape(t) && Over(i, l) in t.nodes && t.nodes[Over(i, l)].slots[Off(i, l)] == Null && k < l
    ensures Over(i, k) !in t.nodes
  {
    if Over(i, k) in t.nodes {
      InReach(t, i, k);
      InReach(t, i, l);
      Ancestor(t, i, k, l);
    }
  }
}
