/** The XArray (xarray.c) under its lock: single-index entries, the operation
    state passed as a cursor and an index. */
module XArray {
  import opened Common
  import opened XArrayTree
  import opened XArraySteps
  import opened XArrayMarks
  import opened XArrayGrow
  import opened XArrayPrune
  import opened XArrayWalk
  import opened XArrayFind

  datatype Outcome = Done | NoMem | Busy | Invalid

  /** What __xa_store puts in for e. */
  function Stored(cfg: Config, e: Entry): Entry {
    if cfg.trackFree && e == Null then Zero else e
  }

  /** xas_result and xa_load: a reserved entry is none to the caller. */
  function Shown(e: Entry): Entry {
    if e == Zero then Null else e
  }

  /** The free marks are those of the absent entries. */
  ghost predicate FreeExact(t: Tree, cfg: Config)
    requires Shape(t)
  {
    forall i: nat :: MarkAt(t, cfg, FREE, i) <==> Content(t, cfg, i) == Null
  }

  /** Only the entry at i differs, and is e. */
  ghost predicate EntryIs(t: Tree, t': Tree, cfg: Config, i: nat, e: Entry) {
    && Shape(t) && Shape(t') && Counts(t')
    && forall j: nat :: Content(t', cfg, j) == if j == i then Norm(cfg, i, e) else Content(t, cfg, j)
  }

  /** What else a store through the interface does: i is marked as not free, other
      marks stay if an entry is stored, the free marks keep telling which entries
      are absent, and a canonical tree stays one. */
  ghost predicate Allotted(t: Tree, t': Tree, cfg: Config, i: nat, e: Entry) {
    && Shape(t) && Shape(t')
    && (forall m: Mark, j: nat :: MarkAt(t', cfg, m, j) ==
          if j == i && cfg.trackFree && m == FREE then false
          else if j == i && e == Null && EntryAt(t, i) != Null then Default(cfg, m)
          else MarkAt(t, cfg, m, j))
    && (cfg.trackFree && FreeExact(t, cfg) ==> FreeExact(t', cfg))
    && Formed(t, t', i, e) && EntryAt(t', 0) == ZerothAfter(t, t', cfg, i, e)
  }

  /** What Hazard costs: entry 0 of an empty zero-busy array is reserved, and when
      the tree next grows the free entries beside it are out of sight: index 1 is
      marked free, but the bit above it is clear. */
  lemma ReservedZeroHidesFree()
    ensures var cfg := Config(true, true);
            var t0 := Tree(map[], Null, [false, false, false]);
            var t1 := Put(AddTop(t0, cfg, 0), At(Place(0, 0), 0), Zero);
            var t2 := Grow(t1, cfg, t1.head);
            && TreeOk(t0, cfg) && Hazard(t0, cfg, 0, false)
            && Shape(t2) && MarkAt(t2, cfg, FREE, 1) && Place(1, 0) in t2.nodes && Sized(t2.nodes[Place(1, 0)])
            && !t2.nodes[Place(1, 0)].marks[FREE][0]
  {
    var cfg := Config(true, true);
    var t0 := Tree(map[], Null, [false, false, false]);
    assert TreeOk(t0, cfg) by { assert forall m: Mark :: MarkedFor(t0, cfg, m); }
    assert t0.marks[FREE] != Default(cfg, FREE);
    var t1 := HazardTree(t0, cfg);
    HazardGrows(t1, cfg);
  }

  lemma HazardTree(t0: Tree, cfg: Config) returns (t1: Tree)
    requires Shape(t0) && t0.head == Null && cfg.trackFree && !t0.marks[FREE]
    ensures SpotIn(AddTop(t0, cfg, 0), At(Place(0, 0), 0)) && t1 == Put(AddTop(t0, cfg, 0), At(Place(0, 0), 0), Zero)
    ensures Shape(t1) && Counts(t1) && t1.head == Child(Place(0, 0)) && MarkAt(t1, cfg, FREE, 1) && !t1.marks[FREE]
  {
    AddTopOk(t0, cfg, 0);
    var t := AddTop(t0, cfg, 0);
    var spot := At(Place(0, 0), 0);
    FreshIs(cfg, None, 0);
    var a: Offset, b: Offset := 0, 1;
    assert t.nodes[Place(0, 0)].slots[a] == Null && t.nodes[Place(0, 0)].marks[FREE][b];
    t1 := Put(t, spot, Zero);
    PutOk(t, cfg, 0, On(spot), Zero);
    assert Over(1, 0) == Place(0, 0);
    hide Shape;
    assert MarkAt(t, cfg, FREE, 1);
  }

  lemma HazardGrows(t1: Tree, cfg: Config)
    requires Shape(t1) && Counts(t1) && t1.head == Child(Place(0, 0)) && MarkAt(t1, cfg, FREE, 1) && !t1.marks[FREE]
    ensures var t2 := Grow(t1, cfg, t1.head);
            && Shape(t2) && MarkAt(t2, cfg, FREE, 1) && Place(1, 0) in t2.nodes && Sized(t2.nodes[Place(1, 0)])
            && !t2.nodes[Place(1, 0)].marks[FREE][0]
  {
    assert |t1.marks| == 3;
    hide Shape, Counts, MarkAt, EntryAt;
    GrowShape(t1, cfg, t1.head);
    GrowSame(t1, cfg, t1.head);
    var t2 := Grow(t1, cfg, t1.head);
    assert Place(1, 0) in t2.nodes;
    SizedAt(t2, Place(1, 0));
    TopNodeIs(cfg, t1.marks, t1.head);
    var k: Offset := 0;
    assert t2.nodes[Place(1, 0)].marks[FREE][k] == t1.marks[FREE];
  }

  /** The free mark of entry 0 after it is erased from a zero-busy array: here it is
      the only entry. An absent entry 0 of such an array counts as reserved. */
  lemma ErasedZeroIsFree(v: nat, t1: Tree)
    requires StoreOk(Tree(map[], Value(v), [false, false, false]), t1, Config(true, true), 0, Null, false)
    ensures var cfg := Config(true, true);
            var t0 := Tree(map[], Value(v), [false, false, false]);
            && TreeOk(t0, cfg) && FreeExact(t0, cfg)
            && MarkAt(t1, cfg, FREE, 0) && Content(t1, cfg, 0) == Zero && !FreeExact(t1, cfg)
  {
    var cfg := Config(true, true);
    var t0 := Tree(map[], Value(v), [false, false, false]);
    assert TreeOk(t0, cfg) by { assert forall m: Mark :: MarkedFor(t0, cfg, m); }
    assert MarkAt(t1, cfg, FREE, 0) == Default(cfg, FREE);
    hide Shape;
    assert Content(t1, cfg, 0) == Zero;
    assert Content(t0, cfg, 0) != Null;
    EraseMeans(t0, t1, cfg, 0);
  }

  /** The tree that holds v at index 64 alone, and a walk to index 0, which stops at
      the head's first slot: a search for free indices from there passes over 1 to 63,
      all of them free. */
  lemma WalkPassesFree(v: nat) returns (t: Tree, cur: Cursor)
    ensures var cfg := Config(true, false);
            && TreeOk(t, cfg) && EntryAt(t, 64) == Value(v) && (forall j: nat :: j != 64 ==> EntryAt(t, j) == Null)
            && CursorOk(t, 0, cur) && cur == On(At(Place(1, 0), 0)) && After(0, cur) == 64
            && (forall j: nat :: 0 < j < 64 ==> MarkAt(t, cfg, FREE, j)) && !NoneIn(t, cfg, FREE, 1, After(0, cur))
  {
    hide TreeOk, Shape, EntryAt, MarkAt, CursorOk, NoneIn, After, Kept;
    var cfg := Config(true, false);
    var t1 := TwoLevels(cfg);
    t := EntryPlaced(t1, cfg, v);
    cur := On(At(Place(1, 0), 0));
    PassesFree(t, cfg);
  }

  /** A head for indices up to 4095, and an empty node for 64 to 127 under it. */
  lemma TwoLevels(cfg: Config) returns (t: Tree)
    requires cfg == Config(true, false)
    ensures TreeOk(t, cfg) && (forall j: nat :: EntryAt(t, j) == Null)
    ensures Place(1, 0) in t.nodes && Sized(t.nodes[Place(1, 0)]) && t.nodes[Place(1, 0)].slots[0] == Null
    ensures Place(0, 1) in t.nodes && Sized(t.nodes[Place(0, 1)]) && t.nodes[Place(0, 1)].slots[0] == Null
  {
    hide Shape, Counts, Marked, EntryAt, AddChild, AddTop, Fresh;
    var t0, n, b: Offset, z: Offset := Tree(map[], Null, [true, false, false]), Place(1, 0), 1, 0;
    NothingOk(cfg, t0);
    AddTopOk(t0, cfg, 1);
    TopIs(t0, cfg, 1);
    var t1 := AddTop(t0, cfg, 1);
    FreshIs(cfg, None, 0);
    assert t1.nodes[n].slots[b] == Null && t1.nodes[n].slots[z] == Null;
    AddChildKept(t1, cfg, n, b);
    t := AddChild(t1, cfg, n, b);
    AddChildSame(t1, cfg, n, b);
    assert Down(n, b) == Place(0, 1);
    AddChildIs(t1, cfg, n, b, Place(0, 1));
    FreshIs(cfg, Some(n), b);
    assert t.nodes[Place(0, 1)].slots[z] == Null;
  }

  lemma NothingOk(cfg: Config, t: Tree)
    requires cfg == Config(true, false) && t == Tree(map[], Null, [true, false, false])
    ensures TreeOk(t, cfg) && RootDefault(t, cfg) && forall j: nat :: EntryAt(t, j) == Null
  {
    assert forall m: Mark :: MarkedFor(t, cfg, m);
  }

  lemma TopIs(t: Tree, cfg: Config, l: nat)
    ensures AddTop(t, cfg, l).nodes == map[Place(l, 0) := Fresh(cfg, None, 0)]
  {}

  lemma EntryPlaced(t2: Tree, cfg: Config, v: nat) returns (t: Tree)
    requires cfg == Config(true, false) && TreeOk(t2, cfg) && (forall j: nat :: EntryAt(t2, j) == Null)
    requires Place(1, 0) in t2.nodes && Sized(t2.nodes[Place(1, 0)]) && t2.nodes[Place(1, 0)].slots[0] == Null
    requires Place(0, 1) in t2.nodes && Sized(t2.nodes[Place(0, 1)]) && t2.nodes[Place(0, 1)].slots[0] == Null
    ensures TreeOk(t, cfg) && EntryAt(t, 64) == Value(v) && (forall j: nat :: j != 64 ==> EntryAt(t, j) == Null)
    ensures Place(1, 0) in t.nodes && Sized(t.nodes[Place(1, 0)]) && t.nodes[Place(1, 0)].slots[0] == Null
  {
    hide Shape, Counts, Marked, EntryAt, MarkAt;
    var leaf := On(At(Place(0, 1), 0));
    assert LeafCursor(t2, 64, leaf);
    PutOk(t2, cfg, 64, leaf, Value(v));
    PutKeepsMarks(t2, cfg, 64, leaf, Value(v));
    t := Put(t2, leaf.spot, Value(v));
    forall j: nat | j != 64 ensures EntryAt(t, j) == Null {
      assert Content(t, cfg, j) == Content(t2, cfg, j) == Norm(cfg, j, EntryAt(t2, j));
    }
  }

  lemma PassesFree(t: Tree, cfg: Config)
    requires cfg == Config(true, false) && TreeOk(t, cfg)
    requires Place(1, 0) in t.nodes && Sized(t.nodes[Place(1, 0)]) && t.nodes[Place(1, 0)].slots[0] == Null
    ensures var cur := On(At(Place(1, 0), 0));
            && CursorOk(t, 0, cur) && After(0, cur) == 64
            && (forall j: nat :: 0 < j < 64 ==> MarkAt(t, cfg, FREE, j)) && !NoneIn(t, cfg, FREE, 1, After(0, cur))
  {
    hide Shape, Counts, Marked, MarkAt, CursorOk, After;
    var cur := On(At(Place(1, 0), 0));
    CursorAbove(t);
    forall j: nat | 0 < j < 64 ensures MarkAt(t, cfg, FREE, j) { PassedMark(t, cfg, FREE, 0, cur, j); }
    assert MarkAt(t, cfg, FREE, 1);
  }

  lemma CursorAbove(t: Tree)
    requires Place(1, 0) in t.nodes && Sized(t.nodes[Place(1, 0)]) && t.nodes[Place(1, 0)].slots[0] == Null
    ensures CursorOk(t, 0, On(At(Place(1, 0), 0))) && After(0, On(At(Place(1, 0), 0))) == 64
  {
    assert Shr(0, 1) == 0 && Shr(0, 2) == 0;
    assert Base(1, 1) == Base(64, 0) == 64;
  }

  lemma MarksCanon(t: Tree, t': Tree)
    requires Shape(t) && SameLinks(t, t')
    ensures Canonical(t) ==> Canonical(t')
    ensures Tall(t) ==> Tall(t')
  {
    RootThere(t);
    LinksCanon(t, t');
  }

  lemma StoreLinked(t0: Tree, t1: Tree, cfg: Config, i: nat, e: Entry, hz: bool)
    requires StoreOk(t0, t1, cfg, i, e, hz)
    ensures Shape(t1) && Counts(t1) && (!hz ==> TreeOk(t1, cfg))
  {}

  lemma PlainOk(t0: Tree, t1: Tree, cfg: Config, i: nat, e: Entry, hz: bool)
    requires StoreOk(t0, t1, cfg, i, e, hz) && !cfg.trackFree
    ensures EntryIs(t0, t1, cfg, i, e) && (!hz ==> Allotted(t0, t1, cfg, i, e))
  {
    hide Shape, Counts, Marked, EntryAt, MarkAt, Content, Formed, ZerothAfter;
  }

  lemma AllotOk(t0: Tree, t1: Tree, t2: Tree, cfg: Config, i: nat, e: Entry, hz: bool)
    requires StoreOk(t0, t1, cfg, i, e, hz) && cfg.trackFree && e != Null
    requires Shape(t2) && Counts(t2) && SameLinks(t1, t2) && MarkBecomes(t1, t2, cfg, FREE, i, false)
    ensures EntryIs(t0, t2, cfg, i, e) && (!hz ==> Allotted(t0, t2, cfg, i, e))
  {
    hide Shape, Counts, Marked, EntryAt, MarkAt, SameLinks, FullBut, TopOk, Tall;
    LinksKeep(t1, t2);
    MarksCanon(t1, t2);
    LinksHead(t1, t2);
    forall j: nat ensures Content(t2, cfg, j) == Content(t1, cfg, j) {}
    if !hz {
      if FreeExact(t0, cfg) { AllotFree(t0, t2, cfg, i, e); }
    }
  }

  lemma LinksHead(t: Tree, t': Tree)
    requires SameLinks(t, t')
    ensures t'.head == t.head
  {}

  lemma AllotFree(t0: Tree, t2: Tree, cfg: Config, i: nat, e: Entry)
    requires Shape(t0) && Shape(t2) && FreeExact(t0, cfg) && e != Null
    requires forall j: nat :: Content(t2, cfg, j) == if j == i then Norm(cfg, i, e) else Content(t0, cfg, j)
    requires forall j: nat :: MarkAt(t2, cfg, FREE, j) == if j == i then false else MarkAt(t0, cfg, FREE, j)
    ensures FreeExact(t2, cfg)
  {
    hide Shape, MarkAt, Content;
    forall j: nat ensures MarkAt(t2, cfg, FREE, j) <==> Content(t2, cfg, j) == Null {
      assert MarkAt(t0, cfg, FREE, j) <==> Content(t0, cfg, j) == Null;
    }
  }

  lemma EraseMeans(t0: Tree, t1: Tree, cfg: Config, i: nat)
    requires StoreOk(t0, t1, cfg, i, Null, false)
    ensures TreeOk(t1, cfg)
    ensures cfg.trackFree && FreeExact(t0, cfg) ==>
              (FreeExact(t1, cfg) <==> !(cfg.zeroBusy && i == 0 && EntryAt(t0, i) != Null))
  {
    if cfg.trackFree && FreeExact(t0, cfg) {
      hide Shape, Counts, Marked, EntryAt, MarkAt;
      forall j: nat | j != i ensures MarkAt(t1, cfg, FREE, j) <==> Content(t1, cfg, j) == Null {
        assert MarkAt(t0, cfg, FREE, j) <==> Content(t0, cfg, j) == Null;
      }
      assert MarkAt(t0, cfg, FREE, i) <==> Content(t0, cfg, i) == Null;
      assert FreeExact(t1, cfg) <==> (MarkAt(t1, cfg, FREE, i) <==> Content(t1, cfg, i) == Null);
    }
  }

  lemma FoundFree(t: Tree, cfg: Config, min: nat, max: nat, x: nat, cur: Cursor, e: Entry)
    requires Shape(t) && cfg.trackFree && Found(t, cfg, FREE, min, max, x, cur, e)
    ensures cur == Restart <==> NoneIn(t, cfg, FREE, min, max + 1)
    ensures cur != Restart ==> !cur.Failed? && min <= x <= max && MarkAt(t, cfg, FREE, x) && NoneIn(t, cfg, FREE, min, x)
    ensures CursorOk(t, x, cur)
  {
    hide Shape, EntryAt, MarkAt;
    if cur == Bounds { assert MarkAt(t, cfg, FREE, x) == Default(cfg, FREE); }
    if cur != Restart { assert min <= x < max + 1 && MarkAt(t, cfg, FREE, x); }
  }

  class XArr {
    var nodes: map<Place, Node>
    var head: Entry
    var marks: seq<bool>
    const cfg: Config

    ghost function View(): Tree
      reads this
    {
      Tree(nodes, head, marks)
    }

    ghost predicate Valid()
      reads this
    {
      TreeOk(View(), cfg)
    }

    /** Links and counts are right; marks perhaps not. */
    ghost predicate Linked()
      reads this
    {
      Shape(View()) && Counts(View())
    }

    /** XA_FLAGS_ALLOC starts with entry 0 marked free, XA_FLAGS_ALLOC1 does not. */
    constructor (cfg: Config)
      ensures Valid() && this.cfg == cfg
      ensures forall i: nat :: EntryAt(View(), i) == Null
      ensures forall m: Mark, i: nat :: MarkAt(View(), cfg, m, i) == (Default(cfg, m) && !(cfg.zeroBusy && i == 0))
      ensures Canonical(View())
    {
      this.cfg := cfg;
      nodes := map[];
      head := Null;
      marks := [cfg.trackFree && !cfg.zeroBusy, false, false];
      new;
      assert forall m: Mark :: MarkedFor(View(), cfg, m);
    }

    // ----------------------------------------------------------------- marks

    /** node_set_mark and node_clear_mark; xa_mark_set and xa_mark_clear. */
    method PutBit(n: Place, o: Offset, m: Mark, b: bool)
      requires n in nodes && Sized(nodes[n])
      modifies this`nodes
      ensures View() == SetBit(old(View()), n, o, m, b)
      ensures n in nodes && nodes[n].parent == old(nodes[n].parent) && nodes[n].offset == old(nodes[n].offset)
      ensures |nodes[n].marks| == 3 && |nodes[n].marks[m]| == 64 && nodes[n].marks[m][o] == b
    {
      var nd := nodes[n];
      nodes := nodes[n := nd.(marks := nd.marks[m := nd.marks[m][o := b]])];
    }

    method PutRoot(m: Mark, b: bool)
      requires |marks| == 3
      modifies this`marks
      ensures View() == SetRoot(old(View()), m, b)
    {
      if marks[m] != b {
        marks := marks[m := b];
      }
    }

    /** xas_set_mark, which stops at the first bit that is set already. */
    method SetMark(cur: Cursor, m: Mark, ghost i: nat)
      requires Linked() && CursorOk(View(), i, cur) && (cur.On? ==> EntryAt(View(), i) != Null)
      modifies this
      ensures Linked() && SameLinks(old(View()), View()) && (old(Valid()) ==> Valid())
      ensures cur.On? ==> MarkBecomes(old(View()), View(), cfg, m, i, true)
      ensures !cur.On? ==> View() == old(View())
    {
      hide Shape, Counts, Marked, Climbing, MarkBecomes, SameLinks, CursorOk, EntryAt, SetBit, SetRoot;
      ghost var t0 := View();
      if !cur.On? {
        LinksSelf(t0);
        return;
      }
      var spot := cur.spot;
      ClimbBegins(t0, cfg, m, i, true, cur);
      while spot.At?
        invariant Climbing(t0, View(), cfg, m, i, true, cur.spot, spot)
        decreases Rest(head, spot)
      {
        ghost var t := View();
        ClimbLinked(t0, t, cfg, m, i, true, cur.spot, spot);
        var n, o := spot.n, spot.o;
        var nd := nodes[n];
        if nd.marks[m][o] {
          ClimbEnds(t0, t, cfg, m, i, true, cur.spot, spot);
          return;
        }
        PutBit(n, o, m, true);
        ClimbOn(t0, t, cfg, m, i, true, cur.spot, n, o);
        spot := if nd.parent == None then AtRoot else At(nd.parent.value, nd.offset);
      }
      ClimbTop(t0, View(), cfg, m, i, true, cur.spot);
      PutRoot(m, true);
    }

    /** xas_clear_mark, which stops where a bit is clear already or where another
        bit of the node is set. */
    method ClearMark(cur: Cursor, m: Mark, ghost i: nat)
      requires Linked() && CursorOk(View(), i, cur) && (cur.On? ==> EntryAt(View(), i) != Null)
      modifies this
      ensures Linked() && SameLinks(old(View()), View()) && (old(Valid()) ==> Valid())
      ensures cur.On? ==> MarkBecomes(old(View()), View(), cfg, m, i, false)
      ensures !cur.On? ==> View() == old(View())
    {
      hide Shape, Counts, Marked, Climbing, MarkBecomes, SameLinks, CursorOk, EntryAt, SetBit, SetRoot;
      ghost var t0 := View();
      if !cur.On? {
        LinksSelf(t0);
        return;
      }
      var spot := cur.spot;
      ClimbBegins(t0, cfg, m, i, false, cur);
      while spot.At?
        invariant Climbing(t0, View(), cfg, m, i, false, cur.spot, spot)
        decreases Rest(head, spot)
      {
        ghost var t := View();
        ClimbLinked(t0, t, cfg, m, i, false, cur.spot, spot);
        var n, o := spot.n, spot.o;
        var nd := nodes[n];
        if !nd.marks[m][o] {
          ClimbEnds(t0, t, cfg, m, i, false, cur.spot, spot);
          return;
        }
        PutBit(n, o, m, false);
        if true in nodes[n].marks[m] {
          ClimbStays(t0, t, cfg, m, i, cur.spot, n, o);
          return;
        }
        ClimbOn(t0, t, cfg, m, i, false, cur.spot, n, o);
        spot := if nd.parent == None then AtRoot else At(nd.parent.value, nd.offset);
      }
      ClimbTop(t0, View(), cfg, m, i, false, cur.spot);
      PutRoot(m, false);
    }

    /** xas_init_marks: all marks of the entry as for an absent one. */
    method InitMarks(cur: Cursor, ghost i: nat)
      requires Linked() && CursorOk(View(), i, cur) && cur.On? && EntryAt(View(), i) != Null
      modifies this
      ensures Linked() && SameLinks(old(View()), View()) && (old(Valid()) ==> Valid())
      ensures forall k: Mark, j: nat :: MarkAt(View(), cfg, k, j) == if j == i then Default(cfg, k) else old(MarkAt(View(), cfg, k, j))
    {
      hide Shape, Counts, Marked, SameLinks;
      ghost var t0 := View();
      LinksSelf(t0);
      var m := 0;
      while m < 3
        invariant m <= 3 && Linked() && SameLinks(t0, View()) && (TreeOk(t0, cfg) ==> Valid())
        invariant CursorOk(View(), i, cur) && EntryAt(View(), i) != Null
        invariant forall k: Mark, j: nat :: MarkAt(View(), cfg, k, j) == if j == i && k < m then Default(cfg, k) else MarkAt(t0, cfg, k, j)
      {
        ghost var t := View();
        if cfg.trackFree && m == FREE {
          SetMark(cur, m, i);
        } else {
          ClearMark(cur, m, i);
        }
        LinksKeep(t, View());
        LinksJoin(t0, t, View());
        LinksCursor(t, View(), i, cur);
        m := m + 1;
      }
    }

    // ------------------------------------------------------------------ loading

    /** xas_start and xas_load: the entry of index i, and the cursor on it. */
    method Load(i: nat, cur: Cursor) returns (e: Entry, cur': Cursor)
      requires Linked() && CursorOk(View(), i, cur)
      ensures CursorOk(View(), i, cur') && !e.Child? && (!cur'.On? ==> e == Null)
      ensures cur.Failed? ==> cur' == cur && e == Null
      ensures !cur.Failed? ==> !cur'.Failed? && e == EntryAt(View(), i) && (cur'.On? ==> e == SlotAt(View(), cur'.spot))
    {
      hide Counts, EntryAt, NodeOk;
      ghost var t := View();
      if cur.On? {
        e := if cur.spot == AtRoot then head else nodes[cur.spot.n].slots[cur.spot.o];
        CursorEntry(t, i, cur);
        return e, cur;
      }
      if cur.Failed? {
        return Null, cur;
      }
      e := head;
      if !e.Child? {
        BareEntry(t, i);
        if i != 0 {
          return Null, Bounds;
        }
      } else {
        HeadOver(t, i);
        if Shr(i, e.place.level) > 63 {
          OutOfReach(t, i);
          return Null, Bounds;
        }
      }
      cur' := On(AtRoot);
      hide Shape;
      while e.Child?
        invariant e.Child? ==> e.place in nodes && e.place == Over(i, e.place.level)
        invariant !e.Child? ==> cur'.On? && CursorOk(t, i, cur') && e == SlotAt(t, cur'.spot)
        decreases if e.Child? then e.place.level + 1 else 0
      {
        var n := e.place;
        var o := Off(i, n.level);
        WalkDown(t, i, n);
        e := nodes[n].slots[o];
        cur' := On(At(n, o));
        if n.level == 0 {
          break;
        }
      }
      CursorEntry(t, i, cur');
    }

    lemma BareEntry(t: Tree, i: nat)
      requires Shape(t) && !t.head.Child?
      ensures EntryAt(t, i) == if i == 0 then t.head else Null
    {}

    // ----------------------------------------------------------------- growing

    /** xas_expand: levels on top until index i is in reach. Returns the number of
        levels, or nothing if memory ran out on the way. */
    method Expand(i: nat, h0: Entry) returns (r: Option<nat>)
      requires Valid() && (h0 == head || (cfg.zeroBusy && head == Null && h0 == Zero))
      modifies this
      ensures Kept(old(View()), View(), cfg)
      ensures h0 == Null ==>
                View() == old(View()) && r.Some? && (if i == 0 then r.value == 0 else r.value > 0 && 0 < Shr(i, r.value - 1) < 64)
      ensures h0 != Null && head.Child? && r.Some? ==> r.value == head.place.level + 1 && Shr(i, head.place.level) < 64
      ensures h0 != Null && !head.Child? && r.Some? ==> View() == old(View()) && i == 0 && r.value == 0
      ensures i == 0 ==> View() == old(View()) && r.Some?
      ensures old(FullBut(View(), Restart)) ==> FullBut(View(), Restart)
      ensures r.Some? && old(Ready(View(), i)) ==> TopFor(View(), i)
      ensures old(EntryAt(View(), i)) != Null ==> View() == old(View())
      ensures r.Some? && (h0 == Null ==> !cfg.zeroBusy) ==> EntryAt(View(), 0) == old(Opened(View(), cfg, i))
    {
      hide TreeOk, Kept, Grow, Ready, EntryAt, Shape;
      KeptSelf(View(), cfg);
      KeptShapes(View(), View(), cfg);
      var h := h0;
      var s := 0;
      if h == Null {
        if i == 0 {
          return Some(0);
        }
        while Shr(i, s) >= 64
          invariant Shr(i, s) > 0
          decreases Shr(i, s)
        {
          s := s + 1;
        }
        return Some(s + 1);
      }
      if h.Child? {
        s := h.place.level + 1;
      }
      ghost var t0 := View();
      while i > MaxIndex(h)
        invariant Kept(t0, View(), cfg) && h != Null && GrowsFrom(View(), cfg, h) && s == TopLevel(h)
        invariant FullBut(t0, Restart) ==> FullBut(View(), Restart)
        invariant i == 0 ==> View() == t0
        invariant View() == t0 || (h.Child? && Shr(i, h.place.level) > 0)
        invariant View() == t0 ==> h == h0
        invariant Shape(View()) && (EntryAt(t0, i) != Null ==> View() == t0)
        invariant View() != t0 ==> i > 0 && EntryAt(View(), 0) == Opened(t0, cfg, i)
        decreases Shr(i, s)
      {
        ghost var t := View();
        KeptMeans(t0, t, cfg);
        MaxIndexMeans(h, i);
        if h.Child? { ShrZero(h.place.level); }
        var ok: bool := *;
        if !ok {
          return None;
        }
        if View() == t0 { NotReached(t0, h, i); }
        GrowKept(t, cfg, h);
        KeptShapes(t, Grow(t, cfg, h), cfg);
        KeptJoin(t0, t, Grow(t, cfg, h), cfg);
        if FullBut(t0, Restart) { GrowCanon(t, cfg, h, i); }
        AddLevel(h);
        h := head;
        s := s + 1;
      }
      MaxIndexMeans(h, i);
      KeptMeans(t0, View(), cfg);
      if Ready(t0, i) && View() == t0 { ReadyTop(t0, i); }
      return Some(s);
    }

    /** What the head does not reach is not there. */
    lemma NotReached(t: Tree, h: Entry, i: nat)
      requires Shape(t) && GrowsFrom(t, cfg, h) && i > MaxIndex(h)
      ensures EntryAt(t, i) == Null && (!h.Child? ==> Opened(t, cfg, i) == h && i > 0) && (h.Child? ==> Opened(t, cfg, i) == EntryAt(t, 0))
    {
      MaxIndexMeans(h, i);
      if h.Child? { OutOfReach(t, i); }
    }

    lemma KeptMeans(t0: Tree, t: Tree, cfg: Config)
      requires Kept(t0, t, cfg)
      ensures TreeOk(t, cfg) && |t.marks| == 3 && (t.head.Child? ==> t.head.place in t.nodes)
    {}

    /** The body of xas_expand's loop, once it has the node. */
    method AddLevel(h: Entry)
      requires |marks| == 3 && (h.Child? ==> h.place in nodes) && h != Null
      modifies this
      ensures View() == Grow(old(View()), cfg, h)
      ensures head == Child(Place(TopLevel(h), 0))
    {
      var p := Place(TopLevel(h), 0);
      var slots := seq(64, _ => Null);
      var bits := [seq(64, _ => false), seq(64, _ => false), seq(64, _ => false)];
      ghost var marks0 := marks;
      var m := 0;
      while m < 3
        invariant m <= 3 && |bits| == 3 && |marks| == 3 && nodes == old(nodes) && head == old(head)
        invariant forall k: nat :: k < 3 ==> bits[k] == if k < m then TopMarks(cfg, marks0)[k] else seq(64, _ => false)
        invariant forall k: nat :: m <= k < 3 ==> marks[k] == marks0[k]
        invariant marks == if m > 0 && cfg.trackFree then marks0[FREE := true] else marks0
      {
        if cfg.trackFree && m == FREE {
          bits := bits[m := seq(64, _ => true)];
          if !marks[m] {
            bits := bits[m := bits[m][0 := false]];
            marks := marks[m := true];
          }
        } else if marks[m] {
          bits := bits[m := bits[m][0 := true]];
        }
        assert bits[m] == TopMarks(cfg, marks0)[m];
        m := m + 1;
      }
      assert bits == TopMarks(cfg, marks0);
      var node := Node(None, 0, 1, if h.Value? then 1 else 0, slots[0 := h], bits);
      if h.Child? {
        nodes := nodes[h.place := nodes[h.place].(offset := 0, parent := Some(p))];
      }
      nodes := nodes[p := node];
      head := Child(p);
    }

    /** xas_alloc for an empty slot, with the free marks, and linked there. */
    method AllocUnder(n: Place, o: Offset) returns (c: Place)
      requires n in nodes && |nodes[n].slots| == 64 && n.level > 0
      modifies this`nodes
      ensures View() == AddChild(old(View()), cfg, n, o) && c == Down(n, o)
    {
      c := Down(n, o);
      var nd := nodes[n];
      nodes := nodes[n := nd.(slots := nd.slots[o := Child(c)], count := nd.count + 1)][c := Fresh(cfg, Some(n), o)];
    }

    method AllocTop(l: nat) returns (c: Place)
      requires nodes == map[]
      modifies this`nodes, this`head
      ensures View() == AddTop(old(View()), cfg, l) && c == Place(l, 0)
    {
      c := Place(l, 0);
      nodes := nodes[c := Fresh(cfg, None, 0)];
      head := Child(c);
    }

    /** xas_create: makes a slot for index i, from the top or from where the cursor
        is, and returns what is in it. */
    method Create(i: nat, cur0: Cursor, allowRoot: bool) returns (e: Entry, cur: Cursor)
      requires Valid() && CursorOk(View(), i, cur0) && |marks| == 3
      modifies this
      ensures cur.Failed? ==> e == Null && Kept(old(View()), View(), cfg)
      ensures cur.On? || cur.Failed?
      ensures cur0.Failed? ==> cur.Failed?
      ensures cur.On? ==> Linked() && CursorOk(View(), i, cur) && e == SlotAt(View(), cur.spot) && (cur.spot.At? ==> cur.spot.n.level == 0)
      ensures cur.On? && !old(Hazard(View(), cfg, i, allowRoot)) ==> Kept(old(View()), View(), cfg)
      ensures cur.On? && old(Hazard(View(), cfg, i, allowRoot)) ==> View() == AddTop(old(View()), cfg, 0) && cur == On(At(Place(0, 0), 0))
      ensures cur.On? ==> Slotted(old(View()), View(), cfg, i, cur, allowRoot)
    {
      hide TreeOk, Kept, Shape, Counts, AddTop, AddChild, Building, FullBut, TopOk, TopFor, RootDefault, Opening, Ready,
          EntryAt, Opened, Slotted, Descent;
      ghost var t0 := View();
      KeptSelf(t0, cfg);
      KeptShapes(t0, t0, cfg);
      ghost var canon := Ready(t0, i) && !Guarded(t0, i, allowRoot);
      ghost var hz := Hazard(t0, cfg, i, allowRoot);
      if cur0.Failed? {
        return Null, cur0;
      }
      var s: nat;
      if cur0.On? && cur0.spot.At? {
        BuildFromCursor(t0, cfg, i, cur0, canon);
        OpenFromCursor(t0, cfg, i, cur0, allowRoot);
        cur := cur0;
        s := cur.spot.n.level;
        e := nodes[cur.spot.n].slots[cur.spot.o];
      } else {
        var h := if head == Null && cfg.zeroBusy then Zero else head;
        var r := Expand(i, h);
        if r == None {
          return Null, Failed;
        }
        ReadyFull(t0, View(), i);
        KeptShapes(t0, View(), cfg);
        BuildFromTop(t0, View(), cfg, i, r.value, allowRoot, canon);
        OpenFromTop(t0, View(), cfg, i, r.value, allowRoot);
        s := if r.value == 0 && !allowRoot then 1 else r.value;
        e := head;
        cur := On(AtRoot);
      }
      while s > 0
        invariant Building(t0, View(), cfg, i, s, cur, e, hz, canon) && Opening(t0, View(), cfg, i, s, cur, allowRoot)
      {
        ghost var t := View();
        var c;
        if e == Null {
          var ok: bool := *;
          if !ok {
            BuildFails(t0, t, cfg, i, s, cur, e, hz, canon);
            return Null, Failed;
          }
          BuildMeans(t0, t, cfg, i, s, cur, e, hz, canon);
          c := Extend(t0, i, s, cur, hz, canon, allowRoot);
        } else if e.Child? {
          c := e.place;
          BuildDescent(t0, t, cfg, i, s, cur, e, hz, canon);
          OpenNode(t0, t, cfg, i, s, cur, c, allowRoot);
          BuildNode(t0, t, cfg, i, s, cur, c, hz, canon);
        } else {
          break;
        }
        s := s - 1;
        cur := On(At(c, Off(i, s)));
        e := nodes[c].slots[Off(i, s)];
      }
      BuildEnd(t0, View(), cfg, i, s, cur, e, hz, canon);
      BuildDescent(t0, View(), cfg, i, s, cur, e, hz, canon);
      OpenEnd(t0, View(), cfg, i, s, cur, e, allowRoot);
    }

    lemma ReadyFull(t0: Tree, t: Tree, i: nat)
      requires FullBut(t0, Restart) ==> FullBut(t, Restart)
      ensures Ready(t0, i) ==> FullBut(t, Restart)
    {}

    lemma BuildDescent(t0: Tree, t: Tree, cfg: Config, i: nat, s: nat, cur: Cursor, e: Entry, hz: bool, canon: bool)
      requires Building(t0, t, cfg, i, s, cur, e, hz, canon)
      ensures Descent(t, i, s, cur, e) && Shape(t) && (hz ==> i == 0) && (!hz ==> TreeOk(t, cfg))
    {}

    /** A new node for the empty slot the cursor is on. */
    method Extend(ghost t0: Tree, i: nat, s: nat, cur: Cursor, ghost hz: bool, ghost canon: bool, ghost allowRoot: bool) returns (c: Place)
      requires s > 0 && cur.On? && Building(t0, View(), cfg, i, s, cur, Null, hz, canon) && |marks| == 3
      requires Opening(t0, View(), cfg, i, s, cur, allowRoot)
      requires hz ==> !RootDefault(View(), cfg)
      modifies this
      ensures c in nodes && |nodes[c].slots| == 64
      ensures Building(t0, View(), cfg, i, s - 1, On(At(c, Off(i, s - 1))), nodes[c].slots[Off(i, s - 1)], hz, canon)
      ensures Opening(t0, View(), cfg, i, s - 1, On(At(c, Off(i, s - 1))), allowRoot)
    {
      hide Building, AddChild, AddTop, Descent, RootDefault, Opening, TreeOk;
      ghost var t := View();
      BuildDescent(t0, t, cfg, i, s, cur, Null, hz, canon);
      if cur.spot.At? {
        BuildNotHazard(t0, t, cfg, i, s, cur, hz, canon);
        OpenUnder(t0, t, cfg, i, s, cur.spot.n, cur.spot.o, allowRoot);
        BuildUnder(t0, t, cfg, i, s, cur.spot.n, cur.spot.o, hz, canon);
        c := AllocUnder(cur.spot.n, cur.spot.o);
      } else {
        BuildTop(t0, t, cfg, i, s, hz, canon);
        OpenTop(t0, t, cfg, i, s, allowRoot);
        c := AllocTop(s - 1);
      }
      BuildSlot(t0, View(), cfg, i, s - 1, c, hz, canon);
    }

    lemma BuildNotHazard(t0: Tree, t: Tree, cfg: Config, i: nat, s: nat, cur: Cursor, hz: bool, canon: bool)
      requires Building(t0, t, cfg, i, s, cur, Null, hz, canon) && s > 0 && cur.On? && cur.spot.At?
      ensures !hz
    {}

    // ----------------------------------------------------------------- pruning

    /** xas_shrink: the head goes while its only entry is its first. */
    method ShrinkHead() returns (shrunk: bool)
      requires Valid() && head.Child?
      modifies this
      ensures Kept(old(View()), View(), cfg) && TopOk(View())
      ensures old(FullBut(View(), Restart)) ==> FullBut(View(), Restart)
      ensures EntryAt(View(), 0) == Lowered(cfg, old(EntryAt(View(), 0)), head)
    {
      hide TreeOk, Kept, Shrink, FullBut, Shrinkable, EntryAt, Shape;
      ghost var t0 := View();
      KeptSelf(t0, cfg);
      KeptShapes(t0, t0, cfg);
      shrunk := false;
      while true
        invariant head.Child? && Kept(t0, View(), cfg) && (FullBut(t0, Restart) ==> FullBut(View(), Restart))
        invariant Shape(View()) && EntryAt(View(), 0) == EntryAt(t0, 0)
        decreases |nodes|
      {
        ghost var t := View();
        ShrinkStep(t0, t, cfg);
        var nd := nodes[head.place];
        if nd.count != 1 {
          break;
        }
        var e := nd.slots[0];
        if e == Null {
          break;
        }
        TakeHead(e);
        KeptShapes(t0, View(), cfg);
        shrunk := true;
        if !e.Child? {
          return;
        }
      }
    }

    /** The body of xas_shrink's loop. */
    method TakeHead(e: Entry)
      requires Shrinkable(View()) && e == nodes[head.place].slots[0]
      modifies this
      ensures View() == Shrink(old(View()), cfg)
      ensures head.Child? <==> e.Child?
    {
      var h := head.place;
      var free := nodes[h].marks[FREE][0];
      head := if e.Zero? && cfg.zeroBusy then Null else e;
      if cfg.trackFree && !free && marks[FREE] {
        marks := marks[FREE := false];
      }
      if e.Child? {
        nodes := nodes[e.place := nodes[e.place].(parent := None)];
      }
      nodes := nodes - {h};
    }

    /** xas_delete_node: empty nodes go, from node n0 up, and then perhaps the head. */
    method DeleteNode(n0: Place, o0: Offset) returns (cur: Cursor)
      requires Valid() && n0 in nodes
      modifies this
      ensures Kept(old(View()), View(), cfg) && !cur.Failed?
      ensures old(FullBut(View(), On(At(n0, 0)))) ==> FullBut(View(), Restart)
      ensures old(TopOk(View()) || head == Child(n0)) ==> TopOk(View())
      ensures EntryAt(View(), 0) == Lowered(cfg, old(EntryAt(View(), 0)), head)
    {
      hide TreeOk, Kept, Drop, FullBut, TopOk, Pruning, EntryAt, Shape;
      ghost var t0 := View();
      KeptSelf(t0, cfg);
      KeptShapes(t0, t0, cfg);
      ghost var full, top := FullBut(t0, On(At(n0, 0))), TopOk(t0) || head == Child(n0);
      var n: Place, o: nat := n0, o0;
      PruneStart(t0, n0, full, top);
      while nodes[n].count == 0
        invariant o < 64 && n in nodes && Pruning(t0, View(), cfg, n, full, top)
        decreases |nodes|
      {
        PruneUp(t0, View(), cfg, n, full, top);
        DropShapes(View(), n);
        var parent, offset := nodes[n].parent, nodes[n].offset;
        FreeNode(n);
        if parent == None {
          KeptShapes(t0, View(), cfg);
          BareEntry(View(), 0);
          return Bounds;
        }
        n, o := parent.value, offset;
      }
      ghost var t := View();
      PruneStop(t0, t, cfg, n, full, top);
      KeptShapes(t0, t, cfg);
      cur := On(At(n, o));
      if nodes[n].parent == None {
        KeptOk(t0, t, cfg);
        var shrunk := ShrinkHead();
        KeptShapes(t, View(), cfg);
        KeptJoin(t0, t, View(), cfg);
        if shrunk {
          cur := Bounds;
        }
      }
    }

    /** xa_node_free, and the slot above it, or the head. */
    method FreeNode(n: Place)
      requires Droppable(View(), n) && (nodes[n].parent.Some? ==> nodes[nodes[n].parent.value].count > 0)
      modifies this
      ensures View() == Drop(old(View()), n)
    {
      hide Shape;
      ghost var t := View();
      if nodes[n].parent == None {
        DropIsHead(t, n);
        nodes, head := nodes - {n}, Null;
      } else {
        var u, offset := nodes[n].parent.value, nodes[n].offset;
        DropIsSlot(t, n, u);
        nodes := nodes[u := nodes[u].(slots := nodes[u].slots[offset := Null], count := nodes[u].count - 1)] - {n};
      }
    }

    lemma PruneStart(t: Tree, n: Place, full: bool, top: bool)
      requires TreeOk(t, cfg) && n in t.nodes && full == FullBut(t, On(At(n, 0))) && top == (TopOk(t) || t.head == Child(n))
      ensures Pruning(t, t, cfg, n, full, top)
    {
      KeptSelf(t, cfg);
    }

    lemma DropShapes(t: Tree, n: Place)
      requires Droppable(t, n)
      ensures n in t.nodes && t.nodes[n].offset < 64
      ensures t.nodes[n].parent.Some? ==> var u := t.nodes[n].parent.value; u in t.nodes && |t.nodes[u].slots| == 64 && u != n
    {}

    lemma DropIsHead(t: Tree, n: Place)
      requires Droppable(t, n) && t.nodes[n].parent == None
      ensures Drop(t, n) == t.(nodes := t.nodes - {n}, head := Null)
    {}

    lemma DropIsSlot(t: Tree, n: Place, u: Place)
      requires Droppable(t, n) && t.nodes[n].parent == Some(u) && t.nodes[u].count > 0
      ensures Drop(t, n) == t.(nodes := t.nodes[u := t.nodes[u].(slots := t.nodes[u].slots[t.nodes[n].offset := Null],
              count := t.nodes[u].count - 1)] - {n})
    {}

    // ------------------------------------------------------------------ storing

    /** xas_store, for one index. Returns the old entry; the marks come out right
        unless Hazard says otherwise. */
    method Store(i: nat, cur0: Cursor, e: Entry) returns (first: Entry, cur: Cursor)
      requires Valid() && CursorOk(View(), i, cur0) && !e.Child? && |marks| == 3
      modifies this
      ensures cur0.Failed? ==> cur.Failed? && View() == old(View())
      ensures cur.Failed? ==> Kept(old(View()), View(), cfg)
      ensures !cur.Failed? ==> StoreOk(old(View()), View(), cfg, i, e, e == Zero && old(Hazard(View(), cfg, i, false)))
      ensures !cur.Failed? ==> Norm(cfg, i, first) == old(Content(View(), cfg, i))
      ensures !cur.Failed? && e != Null ==> cur.On? && CursorOk(View(), i, cur) && EntryAt(View(), i) == e
      ensures e == Null && !cur0.Failed? ==> !cur.Failed?
    {
      hide TreeOk, Kept, StoreOk;
      ghost var t0 := View();
      if cur0.Failed? {
        KeptSelf(t0, cfg);
        return Null, cur0;
      }
      if e != Null {
        first, cur := StoreEntry(i, cur0, e);
      } else {
        first, cur := StoreNull(i, cur0);
      }
    }

    /** The slot, and the counts that update_node keeps. */
    method Write(spot: Spot, e: Entry)
      requires SpotIn(View(), spot)
      requires spot.At? ==> CountOk(nodes[spot.n])
      modifies this
      ensures View() == Put(old(View()), spot, e)
      ensures marks == old(marks)
    {
      if spot == AtRoot {
        head := e;
      } else {
        var nd := nodes[spot.n];
        WithEntryCount(nd, spot.o, e);
        var next := nd.slots[spot.o];
        var count := (if next == Null then 1 else 0) - (if e == Null then 1 else 0);
        var values := (if next.Value? then 0 else 1) - (if e.Value? then 0 else 1);
        nodes := nodes[spot.n := nd.(slots := nd.slots[spot.o := e], count := nd.count + count, nrValues := nd.nrValues + values)];
      }
    }

    method StoreEntry(i: nat, cur0: Cursor, e: Entry) returns (first: Entry, cur: Cursor)
      requires Valid() && CursorOk(View(), i, cur0) && !cur0.Failed? && e != Null && !e.Child? && |marks| == 3
      modifies this
      ensures cur.Failed? ==> Kept(old(View()), View(), cfg)
      ensures !cur.Failed? ==> StoreOk(old(View()), View(), cfg, i, e, e == Zero && old(Hazard(View(), cfg, i, false)))
      ensures !cur.Failed? ==> Norm(cfg, i, first) == old(Content(View(), cfg, i))
      ensures !cur.Failed? ==> cur.On? && CursorOk(View(), i, cur) && EntryAt(View(), i) == e
    {
      hide TreeOk, Kept, StoreOk, Shape, Counts, CursorOk, EntryAt, FullBut, TopOk, TopFor, AddTop, RootDefault, Put, Slotted;
      ghost var t0 := View();
      ghost var hz := e == Zero && Hazard(t0, cfg, i, false);
      first, cur := Create(i, cur0, e != Zero);
      if cur.Failed? {
        return;
      }
      ghost var t1 := View();
      LeafIs(t1, i, cur);
      CreatedEntry(t0, t1, cfg, i, first, hz);
      PutOk(t1, cfg, i, cur, e);
      StoredEntry(t0, t1, cfg, i, cur, e, hz);
      if first == e {
        PutSelf(t1, cur.spot, e);
        return;
      }
      Write(cur.spot, e);
    }

    lemma LeafIs(t: Tree, i: nat, cur: Cursor)
      requires Shape(t) && Counts(t) && cur.On? && CursorOk(t, i, cur) && (cur.spot.At? ==> cur.spot.n.level == 0)
      ensures LeafCursor(t, i, cur) && SpotIn(t, cur.spot) && EntryAt(t, i) == SlotAt(t, cur.spot)
      ensures cur.spot.At? ==> CountOk(t.nodes[cur.spot.n])
    {
      CursorEntry(t, i, cur);
    }

    lemma CreatedEntry(t0: Tree, t1: Tree, cfg: Config, i: nat, first: Entry, hz: bool)
      requires TreeOk(t0, cfg) && Shape(t1) && EntryAt(t1, i) == first
      requires if hz then t0.head == Null && t1 == AddTop(t0, cfg, 0) else Kept(t0, t1, cfg)
      ensures Norm(cfg, i, first) == Content(t0, cfg, i)
    {
      if hz { AddTopOk(t0, cfg, 0); } else { assert Content(t1, cfg, i) == Content(t0, cfg, i); }
    }

    method StoreNull(i: nat, cur0: Cursor) returns (first: Entry, cur: Cursor)
      requires Valid() && CursorOk(View(), i, cur0) && !cur0.Failed?
      modifies this
      ensures !cur.Failed? && StoreOk(old(View()), View(), cfg, i, Null, false)
      ensures first == old(EntryAt(View(), i))
    {
      hide TreeOk, Kept, StoreOk, Shape, Counts, CursorOk, EntryAt, FullBut, TopOk, Put, Written, SameLinks, Marked, Tall;
      ghost var t0 := View();
      OkLinked(t0);
      KeptSelf(t0, cfg);
      first, cur := Load(i, cur0);
      if !cur.On? {
        NothingToErase(t0, cfg, i);
        return;
      }
      if first == Null {
        NothingToErase(t0, cfg, i);
        return;
      }
      LeafHere(t0, i, cur);
      InitMarks(cur, i);
      ghost var t1 := View();
      LinksCursor(t0, t1, i, cur);
      LinksKeep(t0, t1);
      LeafIs(t1, i, cur);
      ErasedEntry(t0, t1, cfg, i, cur);
      Write(cur.spot, Null);
      ghost var t2 := View();
      KeptSelf(t2, cfg);
      KeptShapes(t2, t2, cfg);
      if cur.spot.At? {
        PutIn(t1, cur.spot, Null);
        cur := DeleteNode(cur.spot.n, cur.spot.o);
      } else {
        RootErased(t1, cur);
      }
      KeptShapes(t2, View(), cfg);
      ErasedOk(t0, t2, View(), cfg, i);
    }

    lemma OkLinked(t: Tree)
      requires TreeOk(t, cfg)
      ensures Shape(t) && Counts(t) && Marked(t, cfg)
    {}

    lemma RootErased(t: Tree, cur: Cursor)
      requires Shape(t) && cur == On(AtRoot) && SpotIn(t, cur.spot) && Shape(Put(t, cur.spot, Null))
      ensures EntryAt(Put(t, cur.spot, Null), 0) == Null
    {}

    lemma PutIn(t: Tree, spot: Spot, e: Entry)
      requires SpotIn(t, spot) && spot.At?
      ensures spot.n in Put(t, spot, e).nodes
    {}

    lemma LeafHere(t: Tree, i: nat, cur: Cursor)
      requires Shape(t) && cur.On? && CursorOk(t, i, cur) && EntryAt(t, i) != Null
      ensures cur.spot.At? ==> cur.spot.n.level == 0
    {
      CursorEntry(t, i, cur);
    }

    // ---------------------------------------------------------------- searching

    /** xas_find_marked: the least marked index from x0 on, or behind the slot of the
        cursor if that has been walked to x0 already. */
    method FindMarked(x0: nat, cur0: Cursor, max: nat, m: Mark) returns (e: Entry, x: nat, cur: Cursor)
      requires Valid() && CursorOk(View(), x0, cur0)
      ensures cur0.Failed? <==> cur.Failed?
      ensures !cur0.Failed? ==> Found(View(), cfg, m, After(x0, cur0), max, x, cur, e)
    {
      hide TreeOk, Shape, Found, Searching, Base, MoveIndex, NoneIn, CursorOk, MarkAt, EntryAt;
      ghost var t := View();
      OkLinked(t);
      ghost var from := After(x0, cur0);
      if cur0.On? { PassedOver(t, cfg, m, x0, cur0); }
      x := x0;
      e := Null;
      NoneYet(t, cfg, m, from, x);
      if cur0.Failed? {
        return e, x, cur0;
      }
      if x > max {
        NoneAbove(t, cfg, m, from, max, x);
        return e, x, Restart;
      }
      if cur0 == On(AtRoot) {
        x := 1;
        RootWalked(t, cfg, m, x0, cur0, max);
        return e, x, if x > max then Restart else Bounds;
      }
      var n: Place;
      var o: nat;
      var advance: bool;
      if cur0.On? {
        n, o, advance := cur0.spot.n, cur0.spot.o, true;
        SearchFromCursor(t, cfg, m, x, cur0);
      } else {
        e := head;
        MaxIndexMeans(e, x);
        if x > MaxIndex(e) {
          SearchEnds(t, cfg, m, from, x, max, Bounds, e);
          return e, x, Bounds;
        }
        if !e.Child? {
          if marks[m] {
            BareHit(t, cfg, m, max);
            return e, x, On(AtRoot);
          }
          x := 1;
          BareMiss(t, cfg, m, max, e);
          return e, x, if x > max then Restart else Bounds;
        }
        SearchFromTop(t, cfg, m, x);
        n, o, advance := e.place, Shr(x, e.place.level), false;
      }
      while x <= max
        invariant Searching(t, cfg, m, from, x, n, o, advance)
        decreases Base(64, t.head.place.level) - x, Turns(t.head.place.level, n.level, o)
      {
        SearchMeans(t, cfg, m, from, x, n, o, advance);
        if o == 64 {
          SearchUp(t, cfg, m, from, x, n);
          var parent := nodes[n].parent;
          o := nodes[n].offset + 1;
          if parent == None {
            SearchLeaves(t, cfg, m, from, x, n, max, e);
            return e, x, Bounds;
          }
          n, advance := parent.value, false;
          SearchMeans(t, cfg, m, from, x, n, o, advance);
          continue;
        }
        var off := NextBit(nodes[n].marks[m], if advance then o + 1 else o);
        if off > o {
          SearchOn(t, cfg, m, from, x, n, o, advance, off);
          advance := false;
          x := MoveIndex(x, n.level, off);
          SearchMeans(t, cfg, m, from, x, n, off, false);
          if x - 1 >= max {
            SearchGivesUp(t, cfg, m, from, x, n, off, advance, max, e);
            return e, x, Restart;
          }
          o := off;
          if off == 64 {
            continue;
          }
        }
        e := nodes[n].slots[o];
        if !e.Child? {
          // An empty slot comes up only for the free mark (xas_find_marked looks again otherwise).
          SearchHits(t, cfg, m, from, x, n, o, max);
          return e, x, On(At(n, o));
        }
        SearchDown(t, cfg, m, from, x, n, o, e.place);
        n := e.place;
        o := Off(x, n.level);
      }
      SearchGivesUp(t, cfg, m, from, x, n, o, advance, max, e);
      cur := Restart;
    }

    lemma NoneYet(t: Tree, cfg: Config, m: Mark, from: nat, x: nat)
      requires Shape(t) && x <= from
      ensures NoneIn(t, cfg, m, from, x)
    {}

    lemma NoneAbove(t: Tree, cfg: Config, m: Mark, from: nat, max: nat, x: nat)
      requires Shape(t) && from > max
      ensures Found(t, cfg, m, from, max, x, Restart, Null)
    {}

    lemma RootWalked(t: Tree, cfg: Config, m: Mark, x0: nat, cur0: Cursor, max: nat)
      requires Shape(t) && cur0 == On(AtRoot) && CursorOk(t, x0, cur0)
      ensures Found(t, cfg, m, x0 + 1, max, 1, if 1 > max then Restart else Bounds, Null)
    {
      SearchEnds(t, cfg, m, 1, 1, max, if 1 > max then Restart else Bounds, Null);
    }

    lemma BareHit(t: Tree, cfg: Config, m: Mark, max: nat)
      requires Shape(t) && !t.head.Child? && t.marks[m]
      ensures Found(t, cfg, m, 0, max, 0, On(AtRoot), t.head)
    {}

    lemma BareMiss(t: Tree, cfg: Config, m: Mark, max: nat, e: Entry)
      requires Shape(t) && !t.head.Child? && !t.marks[m]
      ensures Found(t, cfg, m, 0, max, 1, if 1 > max then Restart else Bounds, e)
    {
      SearchEnds(t, cfg, m, 0, 1, max, if 1 > max then Restart else Bounds, e);
    }

    lemma SearchLeaves(t: Tree, cfg: Config, m: Mark, from: nat, x: nat, n: Place, max: nat, e: Entry)
      requires Searching(t, cfg, m, from, x, n, 64, false) && x == Base(64, t.head.place.level) && x <= max
      ensures Shape(t) && Found(t, cfg, m, from, max, x, Bounds, e)
    {
      SearchEnds(t, cfg, m, from, x, max, Bounds, e);
    }

    // ---------------------------------------------------------------- the interface

    /** xa_load: a reserved entry reads as none. */
    method XaLoad(i: nat) returns (e: Entry)
      requires Valid()
      ensures e == Shown(EntryAt(View(), i))
    {
      var cur;
      e, cur := Load(i, Restart);
      if e == Zero {
        e := Null;
      }
    }

    /** __xa_store: the entry at i becomes e, a reserved one in an array that
        tracks free entries if e is none. */
    method XaStore(i: nat, e: Entry) returns (curr: Entry, out: Outcome)
      requires Valid() && !e.Child?
      modifies this
      ensures out == Done || out == NoMem
      ensures out == Done ==> curr == old(Shown(EntryAt(View(), i)))
      ensures out == NoMem ==> Kept(old(View()), View(), cfg)
      ensures out == Done ==> EntryIs(old(View()), View(), cfg, i, Stored(cfg, e))
      ensures out == Done && !(Stored(cfg, e) == Zero && old(Hazard(View(), cfg, i, false))) ==>
                Valid() && Allotted(old(View()), View(), cfg, i, Stored(cfg, e))
    {
      assert |marks| == 3;
      hide TreeOk, Kept, StoreOk, EntryIs, Allotted, Hazard;
      ghost var t0 := View();
      var e1 := if cfg.trackFree && e == Null then Zero else e;
      var cur;
      curr, cur := Store(i, Restart, e1);
      ghost var t1 := View();
      ghost var hz := e1 == Zero && Hazard(t0, cfg, i, false);
      if cur.Failed? {
        return curr, NoMem;
      }
      StoreLinked(t0, t1, cfg, i, e1, hz);
      if cfg.trackFree {
        ClearMark(cur, FREE, i);
        AllotOk(t0, t1, View(), cfg, i, e1, hz);
      } else {
        PlainOk(t0, t1, cfg, i, e1, hz);
      }
      curr := Shown(curr);
      out := Done;
    }

    /** __xa_erase. Entry 0 of a zero-busy array becomes free by it, so that the
        free marks are those of the absent entries afterwards only if that is not
        what was erased. */
    method XaErase(i: nat) returns (curr: Entry)
      requires Valid()
      modifies this
      ensures Valid() && StoreOk(old(View()), View(), cfg, i, Null, false)
      ensures curr == old(Shown(EntryAt(View(), i)))
      ensures cfg.trackFree && old(FreeExact(View(), cfg)) ==>
                (FreeExact(View(), cfg) <==> !(cfg.zeroBusy && i == 0 && old(EntryAt(View(), i)) != Null))
    {
      hide TreeOk, StoreOk, FreeExact;
      ghost var t0 := View();
      var cur;
      curr, cur := StoreNull(i, Restart);
      EraseMeans(t0, View(), cfg, i);
      curr := Shown(curr);
    }

    /** __xa_insert: only if no entry is present, not even a reserved one. */
    method XaInsert(i: nat, e: Entry) returns (out: Outcome)
      requires Valid() && !e.Child?
      modifies this
      ensures out == Done || out == NoMem || out == Busy
      ensures out == Busy <==> old(EntryAt(View(), i)) != Null
      ensures out == Busy ==> View() == old(View())
      ensures out == NoMem ==> Kept(old(View()), View(), cfg)
      ensures out == Done ==> EntryIs(old(View()), View(), cfg, i, if e == Null then Zero else e)
      ensures out == Done && !(e in {Null, Zero} && old(Hazard(View(), cfg, i, false))) ==>
                Valid() && Allotted(old(View()), View(), cfg, i, if e == Null then Zero else e)
    {
      assert |marks| == 3;
      hide TreeOk, Kept, StoreOk, EntryIs, Allotted, Hazard;
      ghost var t0 := View();
      OkLinked(t0);
      var e1 := if e == Null then Zero else e;
      var curr, cur := Load(i, Restart);
      if curr != Null {
        return Busy;
      }
      curr, cur := Store(i, cur, e1);
      ghost var t1 := View();
      ghost var hz := e1 == Zero && Hazard(t0, cfg, i, false);
      if cur.Failed? {
        return NoMem;
      }
      StoreLinked(t0, t1, cfg, i, e1, hz);
      if cfg.trackFree {
        ClearMark(cur, FREE, i);
        AllotOk(t0, t1, View(), cfg, i, e1, hz);
      } else {
        PlainOk(t0, t1, cfg, i, e1, hz);
      }
      out := Done;
    }

    /** __xa_set_mark and __xa_clear_mark: nothing happens where no entry is. */
    method XaSetMark(i: nat, m: Mark)
      requires Valid()
      modifies this
      ensures Valid() && SameLinks(old(View()), View())
      ensures if old(EntryAt(View(), i)) == Null then View() == old(View()) else MarkBecomes(old(View()), View(), cfg, m, i, true)
      ensures (old(Canonical(View())) ==> Canonical(View())) && (old(Tall(View())) ==> Tall(View()))
    {
      ghost var t0 := View();
      LinksSelf(t0);
      var e, cur := Load(i, Restart);
      if e != Null {
        SetMark(cur, m, i);
      }
      MarksCanon(t0, View());
    }

    method XaClearMark(i: nat, m: Mark)
      requires Valid()
      modifies this
      ensures Valid() && SameLinks(old(View()), View())
      ensures if old(EntryAt(View(), i)) == Null then View() == old(View()) else MarkBecomes(old(View()), View(), cfg, m, i, false)
      ensures (old(Canonical(View())) ==> Canonical(View())) && (old(Tall(View())) ==> Tall(View()))
    {
      ghost var t0 := View();
      LinksSelf(t0);
      var e, cur := Load(i, Restart);
      if e != Null {
        ClearMark(cur, m, i);
      }
      MarksCanon(t0, View());
    }

    /** __xa_alloc: the least free index from min to max, or -EBUSY if and only if
        there is none. */
    method XaAlloc(e: Entry, min: nat, max: nat) returns (id: nat, out: Outcome)
      requires Valid() && !e.Child?
      modifies this
      ensures out == Invalid <==> !cfg.trackFree
      ensures out == Invalid || out == Busy ==> View() == old(View())
      ensures cfg.trackFree ==> (out == Busy <==> old(NoneIn(View(), cfg, FREE, min, max + 1)))
      ensures out == NoMem ==> Kept(old(View()), View(), cfg)
      ensures out == Done ==> min <= id <= max && old(MarkAt(View(), cfg, FREE, id)) && old(NoneIn(View(), cfg, FREE, min, id))
      ensures out == Done ==> EntryIs(old(View()), View(), cfg, id, if e == Null then Zero else e)
      ensures out == Done && !(e in {Null, Zero} && old(Hazard(View(), cfg, id, false))) ==>
                Valid() && Allotted(old(View()), View(), cfg, id, if e == Null then Zero else e)
    {
      assert |marks| == 3;
      hide TreeOk, Kept, StoreOk, EntryIs, Allotted, Hazard, Found;
      ghost var t0 := View();
      OkLinked(t0);
      if !cfg.trackFree {
        return 0, Invalid;
      }
      var e1 := if e == Null then Zero else e;
      var found, x, cur := FindMarked(min, Restart, max, FREE);
      FoundFree(t0, cfg, min, max, x, cur, found);
      id := x;
      if cur == Restart {
        return id, Busy;
      }
      var curr;
      curr, cur := Store(x, cur, e1);
      ghost var t1 := View();
      ghost var hz := e1 == Zero && Hazard(t0, cfg, x, false);
      if cur.Failed? {
        return id, NoMem;
      }
      StoreLinked(t0, t1, cfg, x, e1, hz);
      ClearMark(cur, FREE, x);
      AllotOk(t0, t1, View(), cfg, x, e1, hz);
      out := Done;
    }
  }
}
