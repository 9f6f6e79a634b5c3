/** Steps that write an entry or add a node to the XArray's tree. */
module XArrayGrow {
  import opened Common
  import opened XArrayTree

  // ------------------------------------------------------------ writing an entry

  function WithEntry(nd: Node, o: Offset, e: Entry): Node
    requires |nd.slots| == 64
  {
    var c := nd.count + Weigh(e, false) - Weigh(nd.slots[o], false);
    var v := nd.nrValues + Weigh(e, true) - Weigh(nd.slots[o], true);
    nd.(slots := nd.slots[o := e], count := if c < 0 then 0 else c, nrValues := if v < 0 then 0 else v)
  }

  /** *slot = entry in a leaf, with the counts. */
  function PutLeaf(t: Tree, n: Place, o: Offset, e: Entry): Tree
    requires n in t.nodes && |t.nodes[n].slots| == 64
  {
    t.(nodes := t.nodes[n := WithEntry(t.nodes[n], o, e)])
  }

  lemma WithEntryCount(nd: Node, o: Offset, e: Entry)
    requires |nd.slots| == 64 && CountOk(nd)
    ensures CountOk(WithEntry(nd, o, e))
    ensures nd.count + Weigh(e, false) >= Weigh(nd.slots[o], false)
    ensures nd.nrValues + Weigh(e, true) >= Weigh(nd.slots[o], true)
  {
    TallyUpdate(nd.slots, o, e, false);
    TallyUpdate(nd.slots, o, e, true);
  }

  lemma PutShape(t: Tree, n: Place, o: Offset, e: Entry)
    requires Shape(t) && Counts(t) && n in t.nodes && Sized(t.nodes[n]) && n.level == 0 && !e.Child?
    ensures Shape(PutLeaf(t, n, o, e)) && Counts(PutLeaf(t, n, o, e))
  {
    assert |t.marks| == 3 && (t.head.Child? ==> t.head.place in t.nodes);
    hide Shape, NodeOk, CountOk, WithEntry;
    var t' := PutLeaf(t, n, o, e);
    WithEntryCount(t.nodes[n], o, e);
    forall q | q in t'.nodes ensures NodeOk(t', q, t'.nodes[q]) { PutNode(t, n, o, e, q); }
    AllNodesOk(t');
  }

  lemma PutNode(t: Tree, n: Place, o: Offset, e: Entry, q: Place)
    requires Shape(t) && n in t.nodes && Sized(t.nodes[n]) && n.level == 0 && !e.Child? && q in t.nodes
    ensures NodeOk(PutLeaf(t, n, o, e), q, PutLeaf(t, n, o, e).nodes[q])
  {
    hide Up, Down, SlotNo, WithEntry;
    WithEntryIs(t.nodes[n], o, e);
    PutUp(t, n, o, e, q);
    var t' := PutLeaf(t, n, o, e);
    NodeAt(t, q);
    hide Shape, UpOk;
    var nd, nd' := t.nodes[q], t'.nodes[q];
    forall k | 0 <= k < |nd'.slots| ensures SlotOk(t', q, nd'.slots[k], k) {
      assert SlotOk(t, q, nd.slots[k], k);
    }
  }

  lemma PutUp(t: Tree, n: Place, o: Offset, e: Entry, q: Place)
    requires Shape(t) && n in t.nodes && Sized(t.nodes[n]) && n.level == 0 && q in t.nodes
    ensures UpOk(PutLeaf(t, n, o, e), q, PutLeaf(t, n, o, e).nodes[q])
  {
    hide Up, Down, SlotNo, WithEntry, DownOk;
    WithEntryIs(t.nodes[n], o, e);
    NodeAt(t, q);
    if t.head != Child(q) { ParentHas(t, q); }
  }

  lemma WithEntryIs(nd: Node, o: Offset, e: Entry)
    requires |nd.slots| == 64
    ensures var nd' := WithEntry(nd, o, e);
            nd'.slots == nd.slots[o := e] && nd'.marks == nd.marks && nd'.parent == nd.parent && nd'.offset == nd.offset
  {}

  lemma PutMarked(t: Tree, cfg: Config, n: Place, o: Offset, e: Entry)
    requires Shape(t) && Marked(t, cfg) && n in t.nodes && Sized(t.nodes[n]) && n.level == 0 && !e.Child?
    requires Shape(PutLeaf(t, n, o, e))
    requires e == Null ==> forall m: Mark :: t.nodes[n].marks[m][o] == Default(cfg, m)
    ensures Marked(PutLeaf(t, n, o, e), cfg)
  {
    forall m: Mark ensures MarkedFor(PutLeaf(t, n, o, e), cfg, m) {
      PutMarkedFor(t, cfg, n, o, e, m);
    }
  }

  lemma PutMarkedFor(t: Tree, cfg: Config, n: Place, o: Offset, e: Entry, m: Mark)
    requires Shape(t) && Marked(t, cfg) && n in t.nodes && Sized(t.nodes[n]) && n.level == 0 && !e.Child?
    requires Shape(PutLeaf(t, n, o, e))
    requires e == Null ==> t.nodes[n].marks[m][o] == Default(cfg, m)
    ensures MarkedFor(PutLeaf(t, n, o, e), cfg, m)
  {
    hide Marked;
    var t' := PutLeaf(t, n, o, e);
    var nd' := WithEntry(t.nodes[n], o, e);
    assert nd'.slots == t.nodes[n].slots[o := e] && nd'.marks == t.nodes[n].marks;
    hide WithEntry;
    forall q | q in t'.nodes ensures BitsOk(t', cfg, m, q) {
      forall k: nat | k < 64 ensures BitOk(t', cfg, m, t'.nodes[q].slots[k], t'.nodes[q].marks[m][k]) {
        BitsAt(t, cfg, m, q, k);
      }
    }
    RootAt(t, cfg, m);
  }

  /** Only the entry at n's o-th index changes, and no mark. */
  lemma PutSame(t: Tree, cfg: Config, n: Place, o: Offset, e: Entry, i: nat)
    requires Shape(t) && n in t.nodes && Sized(t.nodes[n]) && n == Over(i, 0) && o == Off(i, 0) && !e.Child?
    requires Shape(PutLeaf(t, n, o, e))
    ensures var t' := PutLeaf(t, n, o, e);
            && (forall j: nat :: EntryAt(t', j) == if j == i then e else EntryAt(t, j))
            && (forall m: Mark, j: nat :: MarkAt(t', cfg, m, j) == MarkAt(t, cfg, m, j))
  {
    NodeAt(t, n);
    forall j: nat ensures EntryAt(PutLeaf(t, n, o, e), j) == if j == i then e else EntryAt(t, j) {
      assert j == i <==> j / 64 == i / 64 && j % 64 == i % 64;
    }
  }

  // -------------------------------------------------------------- adding a node

  /** xas_alloc: zeroed memory, and all entries marked free if those are tracked. */
  function Fresh(cfg: Config, parent: Option<Place>, offset: nat): Node {
    Node(parent, offset, 0, 0, seq(64, _ => Null), [seq(64, _ => cfg.trackFree), seq(64, _ => false), seq(64, _ => false)])
  }

  lemma FreshIs(cfg: Config, parent: Option<Place>, offset: nat)
    ensures var nd := Fresh(cfg, parent, offset);
            && Sized(nd) && CountOk(nd) && (forall o: Offset :: nd.slots[o] == Null)
            && (forall m: Mark, o: Offset :: nd.marks[m][o] == Default(cfg, m))
            && (forall m: Mark :: Any(nd.marks[m]) == Default(cfg, m))
  {
    var nd := Fresh(cfg, parent, offset);
    TallyZero(nd.slots);
    forall m: Mark ensures Any(nd.marks[m]) == Default(cfg, m) {
      assert nd.marks[m][0] == Default(cfg, m);
    }
  }

  /** An empty node under an empty slot. */
  function AddChild(t: Tree, cfg: Config, n: Place, o: Offset): Tree
    requires n in t.nodes && |t.nodes[n].slots| == 64 && n.level > 0
  {
    var c := Down(n, o);
    var nd := t.nodes[n];
    t.(nodes := t.nodes[n := nd.(slots := nd.slots[o := Child(c)], count := nd.count + 1)][c := Fresh(cfg, Some(n), o)])
  }

  lemma ChildIsNew(t: Tree, n: Place, o: Offset)
    requires Shape(t) && n in t.nodes && Sized(t.nodes[n]) && n.level > 0 && t.nodes[n].slots[o] == Null
    ensures Down(n, o) !in t.nodes
  {
    hide Shape, Up, Down, SlotNo;
    var c := Down(n, o);
    UpDown(n, o);
    if c in t.nodes {
      LevelAt(t, n);
      LevelAt(t, c);
      assert t.head != Child(c);
      ParentHas(t, c);
    }
  }

  /** The nodes of the tree with a child added. */
  lemma AddChildIs(t: Tree, cfg: Config, n: Place, o: Offset, c: Place)
    requires Shape(t) && n in t.nodes && Sized(t.nodes[n]) && n.level > 0 && t.nodes[n].slots[o] == Null
    requires c == Down(n, o)
    ensures c !in t.nodes && c != n
    ensures var t' := AddChild(t, cfg, n, o);
            && t'.head == t.head && t'.marks == t.marks
            && t'.nodes.Keys == t.nodes.Keys + {c} && t'.nodes[c] == Fresh(cfg, Some(n), o)
            && t'.nodes[n] == t.nodes[n].(slots := t.nodes[n].slots[o := Child(c)], count := t.nodes[n].count + 1)
            && forall q :: q in t.nodes && q != n ==> t'.nodes[q] == t.nodes[q]
  {
    ChildIsNew(t, n, o);
  }

  lemma AddChildShape(t: Tree, cfg: Config, n: Place, o: Offset)
    requires Shape(t) && Counts(t) && n in t.nodes && Sized(t.nodes[n]) && n.level > 0 && t.nodes[n].slots[o] == Null
    ensures Shape(AddChild(t, cfg, n, o)) && Counts(AddChild(t, cfg, n, o))
  {
    hide Shape, NodeOk, Fresh, CountOk, AddChild, Down;
    RootThere(t);
    var t' := AddChild(t, cfg, n, o);
    var c := Down(n, o);
    AddChildIs(t, cfg, n, o, c);
    FreshIs(cfg, Some(n), o);
    AddChildCount(t.nodes[n], o, c);
    forall q | q in t'.nodes ensures NodeOk(t', q, t'.nodes[q]) {
      if q == c { AddChildNew(t, cfg, n, o); } else { AddChildOld(t, cfg, n, o, q); }
    }
    AllNodesOk(t');
  }

  lemma AddChildCount(nd: Node, o: Offset, c: Place)
    requires |nd.slots| == 64 && CountOk(nd) && nd.slots[o] == Null
    ensures CountOk(nd.(slots := nd.slots[o := Child(c)], count := nd.count + 1))
  {
    TallyUpdate(nd.slots, o, Child(c), false);
    TallyUpdate(nd.slots, o, Child(c), true);
  }

  lemma AddChildNew(t: Tree, cfg: Config, n: Place, o: Offset)
    requires Shape(t) && n in t.nodes && Sized(t.nodes[n]) && n.level > 0 && t.nodes[n].slots[o] == Null
    ensures var c := Down(n, o);
            NodeOk(AddChild(t, cfg, n, o), c, AddChild(t, cfg, n, o).nodes[c])
  {
    hide Shape, Up, Down, SlotNo;
    var t' := AddChild(t, cfg, n, o);
    var c := Down(n, o);
    FreshIs(cfg, Some(n), o);
    UpDown(n, o);
    LevelAt(t, n);
    ChildIsNew(t, n, o);
    forall k: nat | k < 64 ensures SlotOk(t', c, t'.nodes[c].slots[k], k) {
      var k': Offset := k;
      assert t'.nodes[c].slots[k'] == Null;
    }
  }

  lemma AddChildOld(t: Tree, cfg: Config, n: Place, o: Offset, q: Place)
    requires Shape(t) && n in t.nodes && Sized(t.nodes[n]) && n.level > 0 && t.nodes[n].slots[o] == Null
    requires q in t.nodes && q != Down(n, o)
    ensures NodeOk(AddChild(t, cfg, n, o), q, AddChild(t, cfg, n, o).nodes[q])
  {
    hide Up, Down, SlotNo;
    var t' := AddChild(t, cfg, n, o);
    var nd, nd' := t.nodes[q], t'.nodes[q];
    NodeAt(t, q);
    AddChildUp(t, cfg, n, o, q);
    hide Shape, UpOk;
    forall k | 0 <= k < |nd'.slots| ensures SlotOk(t', q, nd'.slots[k], k) {
      assert SlotOk(t, q, nd.slots[k], k);
    }
  }

  lemma AddChildUp(t: Tree, cfg: Config, n: Place, o: Offset, q: Place)
    requires Shape(t) && n in t.nodes && Sized(t.nodes[n]) && n.level > 0 && t.nodes[n].slots[o] == Null
    requires q in t.nodes && q != Down(n, o)
    ensures UpOk(AddChild(t, cfg, n, o), q, AddChild(t, cfg, n, o).nodes[q])
  {
    hide Up, Down, SlotNo, DownOk, AddChild, Fresh;
    NodeAt(t, q);
    AddChildIs(t, cfg, n, o, Down(n, o));
    if t.head != Child(q) { ParentHas(t, q); }
  }

  lemma AddChildMarked(t: Tree, cfg: Config, n: Place, o: Offset)
    requires Shape(t) && Marked(t, cfg) && n in t.nodes && Sized(t.nodes[n]) && n.level > 0 && t.nodes[n].slots[o] == Null
    requires Shape(AddChild(t, cfg, n, o))
    ensures Marked(AddChild(t, cfg, n, o), cfg)
  {
    forall m: Mark ensures MarkedFor(AddChild(t, cfg, n, o), cfg, m) {
      AddChildMarkedFor(t, cfg, n, o, m);
    }
  }

  lemma AddChildMarkedFor(t: Tree, cfg: Config, n: Place, o: Offset, m: Mark)
    requires Shape(t) && Marked(t, cfg) && n in t.nodes && Sized(t.nodes[n]) && n.level > 0 && t.nodes[n].slots[o] == Null
    requires Shape(AddChild(t, cfg, n, o))
    ensures MarkedFor(AddChild(t, cfg, n, o), cfg, m)
  {
    assert |t.marks| == 3;
    hide Marked, Fresh, NodeOk, AddChild, Down, Shape, Any, Default, BitOk;
    var t' := AddChild(t, cfg, n, o);
    var c := Down(n, o);
    AddChildIs(t, cfg, n, o, c);
    FreshIs(cfg, Some(n), o);
    forall q | q in t'.nodes ensures Sized(t'.nodes[q]) && BitsOk(t', cfg, m, q) {
      SizedAt(t', q);
      forall k: Offset ensures BitOk(t', cfg, m, t'.nodes[q].slots[k], t'.nodes[q].marks[m][k]) {
        if q != c {
          BitsAt(t, cfg, m, q, k);
          if q == n && k == o { BitNew(t, t', cfg, m, c); } else { BitKeeps(t, t', cfg, m, t.nodes[q].slots[k],
              t.nodes[q].marks[m][k], n, c); }
        } else {
          assert t'.nodes[c].slots[k] == Null && t'.nodes[c].marks[m][k] == Default(cfg, m);
        }
      }
      AllOffsets(t', cfg, m, q);
    }
    RootAt(t, cfg, m);
    if t.head.Child? { BitKeeps(t, t', cfg, m, t.head, t.marks[m], n, c); }
  }

  lemma BitNew(t: Tree, t': Tree, cfg: Config, m: Mark, c: Place)
    requires c in t'.nodes && Sized(t'.nodes[c]) && Any(t'.nodes[c].marks[m]) == Default(cfg, m)
    ensures BitOk(t', cfg, m, Child(c), Default(cfg, m))
  {}

  lemma BitKeeps(t: Tree, t': Tree, cfg: Config, m: Mark, e: Entry, b: bool, n: Place, c: Place)
    requires BitOk(t, cfg, m, e, b) && n in t.nodes && n in t'.nodes && t'.nodes[n].marks == t.nodes[n].marks && c !in t.nodes
    requires forall q :: q in t.nodes && q != n ==> q in t'.nodes && t'.nodes[q] == t.nodes[q]
    ensures BitOk(t', cfg, m, e, b)
  {}

  lemma AllOffsets(t: Tree, cfg: Config, m: Mark, n: Place)
    requires n in t.nodes && Sized(t.nodes[n])
    requires forall k: Offset :: BitOk(t, cfg, m, t.nodes[n].slots[k], t.nodes[n].marks[m][k])
    ensures BitsOk(t, cfg, m, n)
  {
    hide BitOk;
    forall o: nat | o < 64 ensures BitOk(t, cfg, m, t.nodes[n].slots[o], t.nodes[n].marks[m][o]) { var k: Offset := o; }
  }

  lemma AddChildSame(t: Tree, cfg: Config, n: Place, o: Offset)
    requires Shape(t) && n in t.nodes && Sized(t.nodes[n]) && n.level > 0 && t.nodes[n].slots[o] == Null
    requires Shape(AddChild(t, cfg, n, o))
    ensures Same(t, AddChild(t, cfg, n, o), cfg)
    ensures forall i: nat :: EntryAt(AddChild(t, cfg, n, o), i) == EntryAt(t, i)
  {
    hide NodeOk, Fresh, AddChild, Down;
    var t' := AddChild(t, cfg, n, o);
    var c := Down(n, o);
    AddChildIs(t, cfg, n, o, c);
    FreshIs(cfg, Some(n), o);
    LevelAt(t, n);
    SizedAt(t', c);
    assert |t.marks| == 3 && |t'.marks| == 3;
    forall i: nat ensures EntryAt(t', i) == EntryAt(t, i) {
      if Over(i, 0) == c {
        var k: Offset := i % 64;
        assert t'.nodes[c].slots[k] == Null;
      }
    }
    forall m: Mark, i: nat ensures MarkAt(t', cfg, m, i) == MarkAt(t, cfg, m, i) {
      if Over(i, 0) == c {
        var k: Offset := i % 64;
        assert t'.nodes[c].marks[m][k] == Default(cfg, m);
      }
    }
  }

  // ---------------------------------------------------------- adding a top node

  /** An empty node as the head of an empty array. */
  function AddTop(t: Tree, cfg: Config, l: nat): Tree {
    t.(nodes := map[Place(l, 0) := Fresh(cfg, None, 0)], head := Child(Place(l, 0)))
  }

  /** What it takes for the marks to stay right: the root's are the default ones. */
  ghost predicate RootDefault(t: Tree, cfg: Config)
    requires |t.marks| == 3
  {
    forall m: Mark :: t.marks[m] == Default(cfg, m)
  }

  lemma AddTopOk(t: Tree, cfg: Config, l: nat)
    requires Shape(t) && t.head == Null
    ensures Shape(AddTop(t, cfg, l)) && Counts(AddTop(t, cfg, l))
    ensures Marked(AddTop(t, cfg, l), cfg) <==> RootDefault(t, cfg)
    ensures forall i: nat :: EntryAt(AddTop(t, cfg, l), i) == EntryAt(t, i)
    ensures RootDefault(t, cfg) ==> Same(t, AddTop(t, cfg, l), cfg)
  {
    var t' := AddTop(t, cfg, l);
    FreshIs(cfg, None, 0);
    var h := Place(l, 0);
    assert NodeOk(t', h, t'.nodes[h]);
    forall m: Mark ensures BitsOk(t', cfg, m, h) {
      forall k: nat | k < 64 ensures BitOk(t', cfg, m, t'.nodes[h].slots[k], t'.nodes[h].marks[m][k]) {
        var o: Offset := k;
        assert t'.nodes[h].slots[o] == Null;
      }
    }
    assert forall m: Mark :: RootOk(t', cfg, m) <==> t.marks[m] == Default(cfg, m);
    assert forall m: Mark :: MarkedFor(t', cfg, m) <==> t.marks[m] == Default(cfg, m);
    forall i: nat ensures EntryAt(t', i) == EntryAt(t, i) {
      var k: Offset := i % 64;
      assert t'.nodes[h].slots[k] == Null;
    }
    forall m: Mark, i: nat | RootDefault(t, cfg) ensures MarkAt(t', cfg, m, i) == MarkAt(t, cfg, m, i) {
      var k: Offset := i % 64;
      assert t'.nodes[h].marks[m][k] == Default(cfg, m);
    }
  }

  // ----------------------------------------------------------- a level on top

  function TopMarks(cfg: Config, marks: seq<bool>): seq<seq<bool>>
    requires |marks| == 3
  {
    [seq(64, _ => cfg.trackFree)[0 := marks[0]], seq(64, _ => false)[0 := marks[1]], seq(64, _ => false)[0 := marks[2]]]
  }

  function TopNode(cfg: Config, marks: seq<bool>, e: Entry): Node
    requires |marks| == 3
  {
    Node(None, 0, 1, Weigh(e, true), seq(64, _ => Null)[0 := e], TopMarks(cfg, marks))
  }

  function TopLevel(head: Entry): nat { if head.Child? then head.place.level + 1 else 0 }

  /** One round of xas_expand: e is the head, and stays the first entry. */
  function Grow(t: Tree, cfg: Config, e: Entry): Tree
    requires |t.marks| == 3
  {
    var p := Place(TopLevel(e), 0);
    var nodes := if e.Child? && e.place in t.nodes
                 then t.nodes[e.place := t.nodes[e.place].(offset := 0, parent := Some(p))]
                 else t.nodes;
    Tree(nodes[p := TopNode(cfg, t.marks, e)], Child(p), if cfg.trackFree then t.marks[FREE := true] else t.marks)
  }

  /** The head, or the reserved entry that a zero-busy array starts with. */
  ghost predicate GrowsFrom(t: Tree, cfg: Config, e: Entry) {
    (e == t.head && e != Null) || (cfg.zeroBusy && t.head == Null && e == Zero)
  }

  lemma TopNodeIs(cfg: Config, marks: seq<bool>, e: Entry)
    requires |marks| == 3 && e != Null
    ensures var nd := TopNode(cfg, marks, e);
            && Sized(nd) && CountOk(nd)
            && (forall o: Offset :: nd.slots[o] == if o == 0 then e else Null)
            && (forall m: Mark, o: Offset :: nd.marks[m][o] == if o == 0 then marks[m] else Default(cfg, m))
  {
    var nd := TopNode(cfg, marks, e);
    var s: seq<Entry> := seq(64, _ => Null);
    TallyZero(s);
    TallyUpdate(s, 0, e, false);
    TallyUpdate(s, 0, e, true);
  }

  lemma GrowShape(t: Tree, cfg: Config, e: Entry)
    requires Shape(t) && Counts(t) && GrowsFrom(t, cfg, e)
    ensures Shape(Grow(t, cfg, e)) && Counts(Grow(t, cfg, e))
  {
    var t' := Grow(t, cfg, e);
    var p := Place(TopLevel(e), 0);
    TopNodeIs(cfg, t.marks, e);
    assert p !in t.nodes by { if p in t.nodes { NodeAt(t, p); } }
    forall q | q in t'.nodes && q != p ensures NodeOk(t', q, t'.nodes[q]) && CountOk(t'.nodes[q]) {
      assert q in t.nodes;
      NodeAt(t, q);
      assert CountOk(t.nodes[q]);
      GrowNode(t, cfg, e, q);
    }
    forall k: nat | k < 64 ensures SlotOk(t', p, t'.nodes[p].slots[k], k) {
      var o: Offset := k;
      assert t'.nodes[p].slots[o] == if o == 0 then e else Null;
      if e.Child? { NodeAt(t, e.place); }
    }
    assert NodeOk(t', p, t'.nodes[p]);
  }

  lemma GrowNode(t: Tree, cfg: Config, e: Entry, q: Place)
    requires Shape(t) && GrowsFrom(t, cfg, e) && q in t.nodes && Place(TopLevel(e), 0) !in t.nodes
    ensures NodeOk(Grow(t, cfg, e), q, Grow(t, cfg, e).nodes[q])
    ensures t.nodes[q].slots == Grow(t, cfg, e).nodes[q].slots && t.nodes[q].count == Grow(t, cfg, e).nodes[q].count
    ensures t.nodes[q].nrValues == Grow(t, cfg, e).nodes[q].nrValues
  {
    hide Up, Down, SlotNo;
    GrowUp(t, cfg, e, q);
    var t' := Grow(t, cfg, e);
    NodeAt(t, q);
    assert t.head.Child? ==> t.head.place in t.nodes;
    hide Shape, TopNode, TopMarks, UpOk;
    var nd, nd' := t.nodes[q], t'.nodes[q];
    forall k | 0 <= k < |nd'.slots| ensures SlotOk(t', q, nd'.slots[k], k) {
      assert SlotOk(t, q, nd.slots[k], k);
    }
  }

  /** What a level on top changes: the old head's place in the tree, and the root. */
  lemma GrowIs(t: Tree, cfg: Config, e: Entry)
    requires Shape(t) && GrowsFrom(t, cfg, e)
    ensures |t.marks| == 3
    ensures var p, t' := Place(TopLevel(e), 0), Grow(t, cfg, e);
            && p !in t.nodes && t'.nodes.Keys == t.nodes.Keys + {p} && t'.nodes[p] == TopNode(cfg, t.marks, e) && t'.head == Child(p)
            && |t'.marks| == 3 && (forall m: Mark :: t'.marks[m] == if Default(cfg, m) then true else t.marks[m])
            && (forall q :: q in t.nodes ==>
                  t'.nodes[q] == if e == Child(q) then t.nodes[q].(offset := 0, parent := Some(p)) else t.nodes[q])
  {
    var p := Place(TopLevel(e), 0);
    if p in t.nodes { LevelAt(t, p); }
    hide TopNode, Shape;
  }

  lemma GrowUp(t: Tree, cfg: Config, e: Entry, q: Place)
    requires Shape(t) && GrowsFrom(t, cfg, e) && q in t.nodes && Place(TopLevel(e), 0) !in t.nodes
    ensures q in Grow(t, cfg, e).nodes && UpOk(Grow(t, cfg, e), q, Grow(t, cfg, e).nodes[q])
  {
    hide Up, Down, SlotNo, TopNode, Grow, Shape, DownOk;
    GrowIs(t, cfg, e);
    NodeAt(t, q);
    if e != Child(q) {
      HeadNotBare(t, cfg, e, q);
      ParentHas(t, q);
      assert Up(q) in Grow(t, cfg, e).nodes;
    } else {
      TopUp(q);
      TopNodeIs(cfg, t.marks, e);
      var o: Offset := 0;
      assert Grow(t, cfg, e).nodes[Place(TopLevel(e), 0)].slots[o] == e;
    }
  }

  lemma HeadNotBare(t: Tree, cfg: Config, e: Entry, q: Place)
    requires Shape(t) && GrowsFrom(t, cfg, e) && q in t.nodes
    ensures e == t.head && e.Child?
  {
    LevelAt(t, q);
  }

  lemma GrowMarked(t: Tree, cfg: Config, e: Entry)
    requires Shape(t) && Marked(t, cfg) && GrowsFrom(t, cfg, e) && Shape(Grow(t, cfg, e))
    ensures Marked(Grow(t, cfg, e), cfg)
  {
    forall m: Mark ensures MarkedFor(Grow(t, cfg, e), cfg, m) {
      GrowMarkedFor(t, cfg, e, m);
    }
  }

  lemma GrowMarkedFor(t: Tree, cfg: Config, e: Entry, m: Mark)
    requires Shape(t) && Marked(t, cfg) && GrowsFrom(t, cfg, e) && Shape(Grow(t, cfg, e))
    ensures MarkedFor(Grow(t, cfg, e), cfg, m)
  {
    hide Marked, Shape, TopNode, Grow, Any, BitOk;
    GrowIs(t, cfg, e);
    var t' := Grow(t, cfg, e);
    var p := Place(TopLevel(e), 0);
    TopNodeIs(cfg, t.marks, e);
    RootAt(t, cfg, m);
    forall q | q in t'.nodes ensures Sized(t'.nodes[q]) && BitsOk(t', cfg, m, q) {
      SizedAt(t', q);
      forall k: Offset ensures BitOk(t', cfg, m, t'.nodes[q].slots[k], t'.nodes[q].marks[m][k]) {
        if q != p {
          BitsAt(t, cfg, m, q, k);
          BitSame(t, t', cfg, m, t.nodes[q].slots[k], t.nodes[q].marks[m][k]);
        } else {
          TopBit(t, t', cfg, e, m, k);
        }
      }
      AllOffsets(t', cfg, m, q);
    }
    TopAny(cfg, t.marks, e, m);
    RootNew(t', cfg, m, p);
  }

  lemma BitSame(t: Tree, t': Tree, cfg: Config, m: Mark, e: Entry, b: bool)
    requires BitOk(t, cfg, m, e, b) && forall q :: q in t.nodes ==> q in t'.nodes && t'.nodes[q].marks == t.nodes[q].marks
    ensures BitOk(t', cfg, m, e, b)
  {}

  lemma RootNew(t: Tree, cfg: Config, m: Mark, p: Place)
    requires p in t.nodes && |t.marks| == 3 && |t.nodes[p].marks| == 3 && t.head == Child(p) && t.marks[m] == Any(t.nodes[p].marks[m])
    ensures RootOk(t, cfg, m)
  {}

  /** The bits of the new head. */
  lemma TopBit(t: Tree, t': Tree, cfg: Config, e: Entry, m: Mark, k: Offset)
    requires |t.marks| == 3 && GrowsFrom(t, cfg, e) && RootOk(t, cfg, m)
    requires forall q :: q in t.nodes ==> q in t'.nodes && t'.nodes[q].marks == t.nodes[q].marks
    ensures Sized(TopNode(cfg, t.marks, e))
    ensures BitOk(t', cfg, m, TopNode(cfg, t.marks, e).slots[k], TopNode(cfg, t.marks, e).marks[m][k])
  {
    TopNodeIs(cfg, t.marks, e);
    hide TopNode;
    if k == 0 && e.Child? { BitSame(t, t', cfg, m, e, t.marks[m]); }
  }

  lemma TopAny(cfg: Config, marks: seq<bool>, e: Entry, m: Mark)
    requires |marks| == 3 && e != Null
    ensures Any(TopNode(cfg, marks, e).marks[m]) == if Default(cfg, m) then true else marks[m]
  {
    TopNodeIs(cfg, marks, e);
    var bits := TopNode(cfg, marks, e).marks[m];
    var a: Offset, b: Offset := 0, 1;
    assert bits[a] == marks[m] && bits[b] == Default(cfg, m);
    assert forall o: nat :: o < 64 ==> (var k: Offset := o; bits[k] == if k == 0 then marks[m] else Default(cfg, m));
  }

  lemma GrowSame(t: Tree, cfg: Config, e: Entry)
    requires Shape(t) && GrowsFrom(t, cfg, e) && Shape(Grow(t, cfg, e))
    ensures Same(t, Grow(t, cfg, e), cfg)
    ensures e == t.head ==> forall i: nat :: EntryAt(Grow(t, cfg, e), i) == EntryAt(t, i)
    ensures EntryAt(Grow(t, cfg, e), 0) == if e.Child? then EntryAt(t, 0) else e
  {
    hide Shape, Grow, EntryAt, MarkAt, Content;
    GrowIs(t, cfg, e);
    var t' := Grow(t, cfg, e);
    forall i: nat ensures Content(t', cfg, i) == Content(t, cfg, i) && (e == t.head ==> EntryAt(t', i) == EntryAt(t, i)) {
      GrowAt(t, cfg, e, i);
    }
    forall m: Mark, i: nat ensures MarkAt(t', cfg, m, i) == MarkAt(t, cfg, m, i) {
      GrowAt(t, cfg, e, i);
    }
    GrowAt(t, cfg, e, 0);
    SameIs(t, t', cfg);
  }

  lemma SameIs(t: Tree, t': Tree, cfg: Config)
    requires Shape(t) && Shape(t') && forall i: nat :: Content(t', cfg, i) == Content(t, cfg, i)
    requires forall m: Mark, i: nat :: MarkAt(t', cfg, m, i) == MarkAt(t, cfg, m, i)
    ensures Same(t, t', cfg)
  {
    hide Shape, Content, MarkAt;
  }

  lemma GrowAt(t: Tree, cfg: Config, e: Entry, i: nat)
    requires Shape(t) && GrowsFrom(t, cfg, e) && Shape(Grow(t, cfg, e))
    ensures var t' := Grow(t, cfg, e); Content(t', cfg, i) == Content(t, cfg, i) && (e == t.head ==> EntryAt(t', i) == EntryAt(t, i))
    ensures forall m: Mark :: MarkAt(Grow(t, cfg, e), cfg, m, i) == MarkAt(t, cfg, m, i)
    ensures i == 0 ==> EntryAt(Grow(t, cfg, e), 0) == if e.Child? then EntryAt(t, 0) else e
  {
    hide TopNode, Grow, Shape;
    GrowIs(t, cfg, e);
    var t' := Grow(t, cfg, e);
    var p := Place(TopLevel(e), 0);
    TopNodeIs(cfg, t.marks, e);
    if !t.head.Child? { BareNodes(t); }
    if Over(i, 0) in t.nodes { SizedAt(t, Over(i, 0)); }
    if Over(i, 0) == p {
      var o: Offset := i % 64;
      assert t'.nodes[p].slots[o] == if o == 0 then e else Null;
      assert forall m: Mark :: t'.nodes[p].marks[m][o] == if o == 0 then t.marks[m] else Default(cfg, m);
    }
  }
}
