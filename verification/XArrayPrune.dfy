/** Steps that take a node out of the XArray's tree. */
module XArrayPrune {
  import opened Common
  import opened XArrayTree
  import opened XArraySteps
  import opened XArrayGrow

  /** All slots of n are empty. */
  ghost predicate Empty(t: Tree, n: Place) {
    n in t.nodes && Sized(t.nodes[n]) && forall o: Offset :: t.nodes[n].slots[o] == Null
  }

  lemma EmptyIs(t: Tree, n: Place)
    requires Shape(t) && Counts(t) && n in t.nodes && t.nodes[n].count == 0
    ensures Empty(t, n)
  {
    SizedAt(t, n);
    assert CountOk(t.nodes[n]);
    AllNull(t.nodes[n].slots);
  }

  lemma EmptyMarks(t: Tree, cfg: Config, n: Place, m: Mark)
    requires Shape(t) && Marked(t, cfg) && Empty(t, n)
    ensures forall o: Offset :: t.nodes[n].marks[m][o] == Default(cfg, m)
    ensures Any(t.nodes[n].marks[m]) == Default(cfg, m)
  {
    forall o: Offset ensures t.nodes[n].marks[m][o] == Default(cfg, m) { BitsAt(t, cfg, m, n, o); }
    var o: Offset := 0;
    assert t.nodes[n].marks[m][o] == Default(cfg, m);
    hide Marked, Shape;
    forall k: nat | k < 64 ensures t.nodes[n].marks[m][k] == Default(cfg, m) { var o: Offset := k; }
  }

  // ---------------------------------------------------------- an empty node goes

  /** One round of xas_delete_node. */
  function Drop(t: Tree, n: Place): Tree
    requires n in t.nodes
    requires var u := t.nodes[n].parent; u.Some? ==> u.value in t.nodes && |t.nodes[u.value].slots| == 64 && u.value != n
    requires t.nodes[n].offset < 64
  {
    match t.nodes[n].parent
    case None => t.(nodes := t.nodes - {n}, head := Null)
    case Some(u) =>
      var ud := t.nodes[u];
      t.(nodes := t.nodes[u := ud.(slots := ud.slots[t.nodes[n].offset := Null], count := if ud.count > 0 then ud.count - 1 else 0)] - {n})
  }

  lemma DropPre(t: Tree, n: Place)
    requires Shape(t) && n in t.nodes
    ensures var u := t.nodes[n].parent; u.Some? ==> u.value in t.nodes && Sized(t.nodes[u.value]) && u.value != n
    ensures t.nodes[n].offset < 64
    ensures t.nodes[n].parent == None <==> t.head == Child(n)
  {
    hide Up, SlotNo;
    NodeAt(t, n);
    if t.head != Child(n) { ParentHas(t, n); }
  }

  /** An empty head is the only node. */
  lemma Alone(t: Tree, n: Place)
    requires Shape(t) && Empty(t, n) && t.head == Child(n)
    ensures t.nodes.Keys == {n}
  {
    forall q | q in t.nodes ensures q == n {
      LevelAt(t, q);
      if q.level < n.level {
        OverBase(q.prefix, q.level);
        var i := Base(q.prefix * 64, q.level);
        InReach(t, i, q.level);
        Ancestor(t, i, q.level, n.level);
      }
    }
  }

  ghost predicate Droppable(t: Tree, n: Place) {
    && Shape(t) && Empty(t, n) && t.nodes[n].offset < 64
    && (t.nodes[n].parent.Some? ==> var u := t.nodes[n].parent.value; u in t.nodes && Sized(t.nodes[u]) && u != n)
  }

  /** The nodes that are left. */
  lemma DropIs(t: Tree, n: Place)
    requires Droppable(t, n) && t.head != Child(n)
    ensures var t' := Drop(t, n);
            var u := Up(n);
            && t'.head == t.head && t'.marks == t.marks && t'.nodes.Keys == t.nodes.Keys - {n}
            && u in t.nodes && u != n && Sized(t.nodes[u]) && t.nodes[u].slots[SlotNo(n)] == Child(n)
            && t'.nodes[u] == t.nodes[u].(slots := t.nodes[u].slots[SlotNo(n) := Null],
                count := if t.nodes[u].count > 0 then t.nodes[u].count - 1 else 0)
            && forall q :: q in t'.nodes && q != u ==> t'.nodes[q] == t.nodes[q]
  {
    hide Up, SlotNo;
    NodeAt(t, n);
    hide Shape;
    ParentHas(t, n);
  }

  lemma DropHead(t: Tree, n: Place)
    requires Droppable(t, n) && t.head == Child(n)
    ensures Drop(t, n) == Tree(map[], Null, t.marks)
  {
    NodeAt(t, n);
    Alone(t, n);
    assert t.nodes - {n} == map[];
  }

  lemma DropShape(t: Tree, n: Place)
    requires Droppable(t, n) && Counts(t)
    ensures Shape(Drop(t, n)) && Counts(Drop(t, n))
  {
    assert |t.marks| == 3 && (t.head.Child? ==> t.head.place in t.nodes);
    var t' := Drop(t, n);
    if t.head == Child(n) {
      DropHead(t, n);
    } else {
      hide Shape, NodeOk, CountOk, Drop, Up, SlotNo;
      DropIs(t, n);
      var u := Up(n);
      DropCount(t.nodes[u], SlotNo(n));
      forall q | q in t'.nodes ensures NodeOk(t', q, t'.nodes[q]) { DropNode(t, n, q); }
      AllNodesOk(t');
    }
  }

  lemma DropCount(nd: Node, o: Offset)
    requires |nd.slots| == 64 && CountOk(nd) && nd.slots[o].Child?
    ensures CountOk(nd.(slots := nd.slots[o := Null], count := if nd.count > 0 then nd.count - 1 else 0))
  {
    TallyUpdate(nd.slots, o, Null, false);
    TallyUpdate(nd.slots, o, Null, true);
  }

  lemma DropNode(t: Tree, n: Place, q: Place)
    requires Droppable(t, n) && t.head != Child(n) && q in t.nodes && q != n
    ensures q in Drop(t, n).nodes && NodeOk(Drop(t, n), q, Drop(t, n).nodes[q])
  {
    hide Drop, UpOk;
    DropIs(t, n);
    NodeAt(t, q);
    DropUp(t, n, q);
    DropDown(t, n, q);
  }

  lemma DropDown(t: Tree, n: Place, q: Place)
    requires Droppable(t, n) && t.head != Child(n) && q in t.nodes && q != n
    ensures q in Drop(t, n).nodes && Sized(Drop(t, n).nodes[q]) && DownOk(Drop(t, n), q, Drop(t, n).nodes[q])
  {
    hide Drop, UpOk, Up, Down, SlotNo;
    var t' := Drop(t, n);
    DropIs(t, n);
    NodeAt(t, q);
    var nd, nd' := t.nodes[q], t'.nodes[q];
    forall k: nat | k < 64 ensures SlotOk(t', q, nd'.slots[k], k) {
      assert SlotOk(t, q, nd.slots[k], k);
      if nd.slots[k] == Child(n) { ChildSpot(t, q, k, n); UpSpotIs(t, n); }
    }
  }

  /** A node other than n still has its parent, which was not n. */
  lemma DropUp(t: Tree, n: Place, q: Place)
    requires Droppable(t, n) && t.head != Child(n) && q in t.nodes && q != n
    ensures q in Drop(t, n).nodes && UpOk(Drop(t, n), q, Drop(t, n).nodes[q])
  {
    hide Drop, Up, SlotNo;
    DropIs(t, n);
    NodeAt(t, q);
    if t.head != Child(q) {
      ParentHas(t, q);
      NotParent(t, n, q);
    }
  }

  lemma NotParent(t: Tree, n: Place, q: Place)
    requires Shape(t) && Empty(t, n) && q in t.nodes && t.head != Child(q)
    ensures Up(q) != n
  {
    hide Up, SlotNo;
    ParentHas(t, q);
  }

  lemma DropMarked(t: Tree, cfg: Config, n: Place)
    requires Droppable(t, n) && Marked(t, cfg) && Shape(Drop(t, n))
    ensures Marked(Drop(t, n), cfg)
  {
    forall m: Mark ensures MarkedFor(Drop(t, n), cfg, m) {
      EmptyMarks(t, cfg, n, m);
      RootAt(t, cfg, m);
      if t.head == Child(n) { DropHead(t, n); } else { DropMarkedFor(t, cfg, n, m); }
    }
  }

  lemma DropMarkedFor(t: Tree, cfg: Config, n: Place, m: Mark)
    requires Droppable(t, n) && Marked(t, cfg) && Shape(Drop(t, n)) && t.head != Child(n)
    requires RootOk(t, cfg, m) && Any(t.nodes[n].marks[m]) == Default(cfg, m)
    ensures MarkedFor(Drop(t, n), cfg, m)
  {
    hide Marked, Drop, NodeOk, Up, SlotNo, Any;
    var t' := Drop(t, n);
    DropIs(t, n);
    var u := Up(n);
    assert |t.marks| == 3;
    forall q | q in t'.nodes ensures Sized(t'.nodes[q]) && BitsOk(t', cfg, m, q) {
      SizedAt(t', q);
      forall k: nat | k < 64 ensures BitOk(t', cfg, m, t'.nodes[q].slots[k], t'.nodes[q].marks[m][k]) {
        BitsAt(t, cfg, m, q, k);
        if t.nodes[q].slots[k] == Child(n) { ChildSpot(t, q, k, n); UpSpotIs(t, n); }
      }
    }
  }

  lemma DropSame(t: Tree, cfg: Config, n: Place)
    requires Droppable(t, n) && Marked(t, cfg) && Shape(Drop(t, n))
    ensures Same(t, Drop(t, n), cfg)
    ensures forall i: nat :: EntryAt(Drop(t, n), i) == EntryAt(t, i)
  {
    hide Shape, Marked, Drop, EntryAt, MarkAt;
    var t' := Drop(t, n);
    forall i: nat ensures EntryAt(t', i) == EntryAt(t, i) { DropEntry(t, n, i); }
    forall m: Mark, i: nat ensures MarkAt(t', cfg, m, i) == MarkAt(t, cfg, m, i) { DropMark(t, cfg, n, m, i); }
    forall i: nat ensures Content(t', cfg, i) == Content(t, cfg, i) {}
    SameIs(t, t', cfg);
  }

  lemma DropEntry(t: Tree, n: Place, i: nat)
    requires Droppable(t, n) && Shape(Drop(t, n))
    ensures EntryAt(Drop(t, n), i) == EntryAt(t, i)
  {
    hide Drop, Shape, Up, SlotNo;
    if Over(i, 0) in t.nodes { SizedAt(t, Over(i, 0)); }
    if t.head == Child(n) { DropHead(t, n); Alone(t, n); } else { DropIs(t, n); }
    if Over(i, 0) == n { var k: Offset := i % 64; assert t.nodes[n].slots[k] == Null; }
    if t.head != Child(n) && Over(i, 0) == Up(n) { UpNotLeaf(n, i); }
  }

  lemma UpNotLeaf(n: Place, i: nat)
    ensures Over(i, 0) != Up(n)
  {}

  lemma DropMark(t: Tree, cfg: Config, n: Place, m: Mark, i: nat)
    requires Droppable(t, n) && Marked(t, cfg) && Shape(Drop(t, n))
    ensures MarkAt(Drop(t, n), cfg, m, i) == MarkAt(t, cfg, m, i)
  {
    hide Drop, Shape, Up, SlotNo, Marked, Any;
    if Over(i, 0) in t.nodes { SizedAt(t, Over(i, 0)); }
    EmptyMarks(t, cfg, n, m);
    if t.head == Child(n) {
      DropHead(t, n);
      Alone(t, n);
      RootAt(t, cfg, m);
    } else {
      DropIs(t, n);
    }
    if Over(i, 0) == n { var k: Offset := i % 64; assert t.nodes[n].marks[m][k] == Default(cfg, m); }
  }

  // ------------------------------------------------------------- the top node goes

  /** The head's only entry is its first, and may take the head's place. */
  ghost predicate Shrinkable(t: Tree) {
    && t.head.Child? && t.head.place in t.nodes && |t.nodes[t.head.place].slots| == 64 && |t.nodes[t.head.place].marks| == 3
    && |t.nodes[t.head.place].marks[FREE]| == 64 && |t.marks| == 3
    && var nd := t.nodes[t.head.place];
       var e := nd.slots[0];
       nd.count == 1 && e != Null && (e.Child? ==> e.place in t.nodes && e.place != t.head.place) && (!e.Child? ==> t.head.place.level == 0)
  }

  function ShrunkHead(cfg: Config, e: Entry): Entry {
    if e.Zero? && cfg.zeroBusy then Null else e
  }

  /** One round of xas_shrink. */
  function Shrink(t: Tree, cfg: Config): Tree
    requires Shrinkable(t)
  {
    var h := t.head.place;
    var e := t.nodes[h].slots[0];
    var nodes := if e.Child? then t.nodes[e.place := t.nodes[e.place].(parent := None)] else t.nodes;
    Tree(nodes - {h}, ShrunkHead(cfg, e),
         if cfg.trackFree && !t.nodes[h].marks[FREE][0] then t.marks[FREE := false] else t.marks)
  }

  lemma ShrinkOnly(t: Tree, cfg: Config)
    requires Shape(t) && Counts(t) && Shrinkable(t)
    ensures forall o: Offset :: o > 0 ==> t.nodes[t.head.place].slots[o] == Null
    ensures var e := t.nodes[t.head.place].slots[0];
            e.Child? ==> e.place == Place(t.head.place.level - 1, 0) && t.head.place.level > 0
  {
    NodeAt(t, t.head.place);
    assert CountOk(t.nodes[t.head.place]);
    OnlyFirst(t.nodes[t.head.place].slots);
    assert SlotOk(t, t.head.place, t.nodes[t.head.place].slots[0], 0);
  }

  /** The nodes that are left. */
  lemma ShrinkIs(t: Tree, cfg: Config)
    requires Shape(t) && Counts(t) && Shrinkable(t)
    ensures var t' := Shrink(t, cfg);
            var h := t.head.place;
            var e := t.nodes[h].slots[0];
            && |t'.marks| == 3 && t'.nodes.Keys == t.nodes.Keys - {h} && t'.head == ShrunkHead(cfg, e)
            && (e.Child? ==> t'.nodes[e.place] == t.nodes[e.place].(parent := None))
            && (!e.Child? ==> t'.nodes == map[] && t.nodes.Keys == {h})
            && forall q :: q in t'.nodes && Child(q) != e ==> t'.nodes[q] == t.nodes[q]
  {
    hide Counts, NodeOk, ShrunkHead;
    var h := t.head.place;
    var e := t.nodes[h].slots[0];
    if e.Child? {
      hide Shape;
      var nodes := t.nodes[e.place := t.nodes[e.place].(parent := None)];
      assert nodes.Keys == t.nodes.Keys;
      assert (nodes - {h}).Keys == t.nodes.Keys - {h};
    } else {
      LevelAll(t);
      assert t.nodes.Keys == {h};
    }
  }

  lemma ShrinkShape(t: Tree, cfg: Config)
    requires Shape(t) && Counts(t) && Shrinkable(t)
    ensures Shape(Shrink(t, cfg)) && Counts(Shrink(t, cfg))
  {
    hide Shrink, NodeOk, CountOk;
    var e := t.nodes[t.head.place].slots[0];
    var t' := Shrink(t, cfg);
    ShrinkOnly(t, cfg);
    ShrinkIs(t, cfg);
    if e.Child? {
      forall q | q in t'.nodes ensures NodeOk(t', q, t'.nodes[q]) && CountOk(t'.nodes[q]) { ShrinkNode(t, cfg, q); }
    }
  }

  lemma LevelAll(t: Tree)
    requires Shape(t) && t.head.Child? && t.head.place.level == 0
    ensures forall q :: q in t.nodes ==> q == t.head.place
  {
    forall q | q in t.nodes ensures q == t.head.place { LevelAt(t, q); }
  }

  lemma ShrinkNode(t: Tree, cfg: Config, q: Place)
    requires Shape(t) && Counts(t) && Shrinkable(t) && t.nodes[t.head.place].slots[0].Child?
    requires q in t.nodes && q != t.head.place
    ensures q in Shrink(t, cfg).nodes && NodeOk(Shrink(t, cfg), q, Shrink(t, cfg).nodes[q]) && CountOk(Shrink(t, cfg).nodes[q])
  {
    hide Shrink, Up, Down, SlotNo, Shrinkable;
    var t' := Shrink(t, cfg);
    var h := t.head.place;
    var c := t.nodes[h].slots[0].place;
    ShrinkOnly(t, cfg);
    ShrinkIs(t, cfg);
    assert CountOk(t.nodes[q]);
    BelowHead(t, q);
    ShrinkUp(t, cfg, q);
    ShrinkDown(t, cfg, q);
    hide Shape, Counts, CountOk, UpOk, DownOk;
    CountSame(t.nodes[q], t'.nodes[q]);
  }

  lemma ShrinkDown(t: Tree, cfg: Config, q: Place)
    requires Shape(t) && Counts(t) && Shrinkable(t) && t.nodes[t.head.place].slots[0].Child?
    requires q in t.nodes && q != t.head.place
    ensures q in Shrink(t, cfg).nodes && Sized(Shrink(t, cfg).nodes[q]) && DownOk(Shrink(t, cfg), q, Shrink(t, cfg).nodes[q])
  {
    hide Shrink, Up, Down, SlotNo, Shrinkable, Counts;
    var t' := Shrink(t, cfg);
    ShrinkIs(t, cfg);
    SizedAt(t, q);
    LevelAt(t, q);
    forall k: nat | k < 64 ensures SlotOk(t', q, t'.nodes[q].slots[k], k) {
      SlotAtPlace(t, q, k);
      SlotBelow(t, q, k);
    }
  }

  /** The head is nobody's child. */
  lemma SlotBelow(t: Tree, q: Place, k: Offset)
    requires Shape(t) && t.head.Child? && q in t.nodes && Sized(t.nodes[q])
    ensures t.nodes[q].slots[k] != t.head
  {
    hide Shape, Up, Down, SlotNo;
    LevelAt(t, q);
    SlotAtPlace(t, q, k);
  }

  lemma ShrinkUp(t: Tree, cfg: Config, q: Place)
    requires Shape(t) && Counts(t) && Shrinkable(t) && t.nodes[t.head.place].slots[0].Child?
    requires q in t.nodes && q != t.head.place
    ensures q in Shrink(t, cfg).nodes && UpOk(Shrink(t, cfg), q, Shrink(t, cfg).nodes[q])
  {
    hide Shrink, Up, SlotNo, Shrinkable, Counts;
    var c := t.nodes[t.head.place].slots[0];
    ShrinkOnly(t, cfg);
    ShrinkIs(t, cfg);
    NodeAt(t, q);
    ParentHas(t, q);
    BelowHead(t, q);
    hide Shape, NodeOk;
    var t' := Shrink(t, cfg);
    var u := Up(q);
    assert t'.head == c;
    if Child(q) == c {
      assert q.prefix == 0;
    } else {
      assert u != t.head.place;
      assert u in t'.nodes && t'.nodes[u].slots == t.nodes[u].slots;
    }
  }

  lemma CountSame(nd: Node, nd': Node)
    requires CountOk(nd) && nd'.slots == nd.slots && nd'.count == nd.count && nd'.nrValues == nd.nrValues
    ensures CountOk(nd')
  {}

  /** Just below a head with one child there is that child alone. */
  lemma BelowHead(t: Tree, q: Place)
    requires Shape(t) && Counts(t) && Shrinkable(t) && t.nodes[t.head.place].slots[0].Child?
    requires q in t.nodes && q != t.head.place
    ensures q.level < t.head.place.level
    ensures q.level + 1 == t.head.place.level <==> Child(q) == t.nodes[t.head.place].slots[0]
  {
    var h := t.head.place;
    ShrinkOnly(t, Config(false, false));
    LevelAt(t, q);
    ParentHas(t, q);
    LevelAt(t, Up(q));
    if q.level + 1 == h.level {
      var k: Offset := SlotNo(q);
      assert t.nodes[h].slots[k] == Child(q);
    }
  }

  lemma ShrinkMarked(t: Tree, cfg: Config)
    requires TreeOk(t, cfg) && Shrinkable(t) && Shape(Shrink(t, cfg))
    ensures Marked(Shrink(t, cfg), cfg)
  {
    forall m: Mark ensures MarkedFor(Shrink(t, cfg), cfg, m) {
      ShrinkRootBit(t, cfg, m);
      ShrinkMarkedFor(t, cfg, m);
    }
  }

  /** The head's bits tell of its first slot only, but for those of free slots. */
  lemma ShrinkRootBit(t: Tree, cfg: Config, m: Mark)
    requires TreeOk(t, cfg) && Shrinkable(t)
    ensures Sized(t.nodes[t.head.place])
    ensures Shrink(t, cfg).marks[m] == t.nodes[t.head.place].marks[m][0]
  {
    var h := t.head.place;
    SizedAt(t, h);
    var bits := t.nodes[h].marks[m];
    RootAt(t, cfg, m);
    ShrinkOnly(t, cfg);
    forall o: nat | 0 < o < 64 ensures bits[o] == Default(cfg, m) {
      var k: Offset := o;
      BitsAt(t, cfg, m, h, k);
      assert t.nodes[h].slots[k] == Null;
    }
    hide Shape, Counts, Marked;
    assert bits[1] == Default(cfg, m);
    assert t.marks[m] == Any(bits);
    if Default(cfg, m) { assert Any(bits); }
    else { assert Any(bits) == bits[0]; }
  }

  lemma ShrinkMarkedFor(t: Tree, cfg: Config, m: Mark)
    requires TreeOk(t, cfg) && Shrinkable(t) && Shape(Shrink(t, cfg)) && Sized(t.nodes[t.head.place])
    requires Shrink(t, cfg).marks[m] == t.nodes[t.head.place].marks[m][0]
    ensures MarkedFor(Shrink(t, cfg), cfg, m)
  {
    hide Shrink, NodeOk;
    var t' := Shrink(t, cfg);
    var h := t.head.place;
    BitsAt(t, cfg, m, h, 0);
    RootAt(t, cfg, m);
    ShrinkOnly(t, cfg);
    ShrinkIs(t, cfg);
    if t'.head.Child? {
      forall q | q in t'.nodes ensures Sized(t'.nodes[q]) && BitsOk(t', cfg, m, q) {
        SizedAt(t', q);
        forall k: nat | k < 64 ensures BitOk(t', cfg, m, t'.nodes[q].slots[k], t'.nodes[q].marks[m][k]) {
          BitsAt(t, cfg, m, q, k);
          if t.nodes[q].slots[k] == Child(h) { ChildSpot(t, q, k, h); UpSpotIs(t, h); assert false; }
          SlotIn(t, q, k);
        }
      }
    }
  }

  lemma SlotIn(t: Tree, n: Place, o: Offset)
    requires Shape(t) && n in t.nodes
    ensures Sized(t.nodes[n]) && (t.nodes[n].slots[o].Child? ==> t.nodes[n].slots[o].place in t.nodes)
  {
    NodeAt(t, n);
    assert SlotOk(t, n, t.nodes[n].slots[o], o);
  }

  lemma ShrinkSame(t: Tree, cfg: Config)
    requires TreeOk(t, cfg) && Shrinkable(t) && Shape(Shrink(t, cfg))
    ensures Same(t, Shrink(t, cfg), cfg)
    ensures EntryAt(Shrink(t, cfg), 0) == Lowered(cfg, EntryAt(t, 0), Shrink(t, cfg).head)
  {
    hide Shrink, NodeOk;
    var t' := Shrink(t, cfg);
    forall i: nat ensures EntryAt(t', i) == if i == 0 then Lowered(cfg, EntryAt(t, i), t'.head) else EntryAt(t, i) {
      ShrinkEntry(t, cfg, i);
    }
    forall m: Mark, i: nat ensures MarkAt(t', cfg, m, i) == MarkAt(t, cfg, m, i) {
      ShrinkMark(t, cfg, m, i);
    }
  }

  lemma ShrinkMark(t: Tree, cfg: Config, m: Mark, i: nat)
    requires TreeOk(t, cfg) && Shrinkable(t) && Shape(Shrink(t, cfg))
    ensures MarkAt(Shrink(t, cfg), cfg, m, i) == MarkAt(t, cfg, m, i)
  {
    hide Shrink, NodeOk;
    var t' := Shrink(t, cfg);
    var h := t.head.place;
    ShrinkOnly(t, cfg);
    ShrinkIs(t, cfg);
    ShrinkRootBit(t, cfg, m);
    NodeAt(t, h);
    HeadPrefix(t);
    if Over(i, 0) == h {
      var k: Offset := i % 64;
      BitsAt(t, cfg, m, h, k);
      assert k > 0 ==> t.nodes[h].slots[k] == Null;
    }
  }

  lemma HeadPrefix(t: Tree)
    requires Shape(t) && t.head.Child?
    ensures t.head.place in t.nodes && t.head.place.prefix == 0
  {
    NodeAt(t, t.head.place);
  }

  lemma ShrinkEntry(t: Tree, cfg: Config, i: nat)
    requires TreeOk(t, cfg) && Shrinkable(t) && Shape(Shrink(t, cfg))
    ensures var t' := Shrink(t, cfg);
            EntryAt(t', i) == if i == 0 then Lowered(cfg, EntryAt(t, i), t'.head) else EntryAt(t, i)
  {
    hide Shrink, NodeOk;
    var h := t.head.place;
    ShrinkOnly(t, cfg);
    ShrinkIs(t, cfg);
    HeadPrefix(t);
    var k: Offset := i % 64;
    assert Over(i, 0) == h && k > 0 ==> t.nodes[h].slots[k] == Null;
  }
}
