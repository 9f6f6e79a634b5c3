/** Walking down the XArray's tree, and its canonical shape. */
module XArrayWalk {
  import opened Common
  import opened XArrayTree
  import opened XArraySteps
  import opened XArrayMarks
  import opened XArrayGrow
  import opened XArrayPrune

  // ----------------------------------------------------------------- the way down

  lemma WalkDown(t: Tree, i: nat, n: Place)
    requires Shape(t) && n in t.nodes && n == Over(i, n.level)
    ensures Sized(t.nodes[n])
    ensures var e := t.nodes[n].slots[Off(i, n.level)];
            e.Child? ==> n.level > 0 && e.place in t.nodes && e.place == Over(i, e.place.level) && e.place.level == n.level - 1
  {
    hide Shape, Down, Over, Off;
    SizedAt(t, n);
    SlotAtPlace(t, n, Off(i, n.level));
    if n.level > 0 { OverDown(i, n.level); OverLevel(i, n.level - 1); }
  }

  lemma OverLevel(i: nat, l: nat)
    ensures Over(i, l).level == l
  {}

  lemma HeadOver(t: Tree, i: nat)
    requires Shape(t) && t.head.Child?
    ensures t.head.place in t.nodes
    ensures Shr(i, t.head.place.level) < 64 <==> t.head.place == Over(i, t.head.place.level)
  {
    NodeAt(t, t.head.place);
  }

  lemma OutOfReach(t: Tree, i: nat)
    requires Shape(t) && t.head.Child? && Shr(i, t.head.place.level) >= 64
    ensures EntryAt(t, i) == Null
  {
    if Over(i, 0) in t.nodes { InReach(t, i, 0); }
  }

  /** max_index. */
  function MaxIndex(e: Entry): int {
    if e.Child? then Base(64, e.place.level) - 1 else 0
  }

  lemma MaxIndexMeans(e: Entry, i: nat)
    ensures i > MaxIndex(e) <==> if e.Child? then Shr(i, e.place.level) >= 64 else i > 0
  {
    if e.Child? { ShrBelow(i, 64, e.place.level); }
  }

  // --------------------------------------------------------------- canonical shape

  /** No node is empty, but perhaps the one the cursor is on. */
  ghost predicate FullBut(t: Tree, cur: Cursor) {
    forall n :: n in t.nodes && t.nodes[n].count == 0 ==> cur.On? && cur.spot.At? && cur.spot.n == n
  }

  /** The head could not be lower. */
  ghost predicate TopOk(t: Tree) {
    t.head.Child? && t.head.place in t.nodes && t.nodes[t.head.place].count == 1 && |t.nodes[t.head.place].slots| > 0 ==>
      t.nodes[t.head.place].slots[0] == Null
  }

  /** Or index i is what it will be as high for. */
  ghost predicate TopFor(t: Tree, i: nat) {
    || (TopOk(t) && (t.head.Child? && t.head.place in t.nodes ==> t.nodes[t.head.place].count > 0))
    || (t.head.Child? && 0 < Shr(i, t.head.place.level) < 64)
  }

  /** No node is empty and the head could not be lower. */
  ghost predicate Canonical(t: Tree) {
    FullBut(t, Restart) && TopOk(t)
  }

  /** The one other form: entry 0 alone, in a node although it could be the head. */
  ghost predicate Tall(t: Tree) {
    && FullBut(t, Restart) && t.head == Child(Place(0, 0)) && Place(0, 0) in t.nodes
    && var nd := t.nodes[Place(0, 0)]; nd.count == 1 && |nd.slots| == 64 && nd.slots[0] != Null
  }

  lemma NotBoth(t: Tree)
    ensures !(Canonical(t) && Tall(t))
  {}

  /** Storing e at i leaves a tall tree: entry 0 is reserved in an empty array, or the
      tree is tall and still has nothing but entry 0. */
  ghost predicate MakesTall(t: Tree, i: nat, e: Entry)
    requires Shape(t)
  {
    if e == Null then Tall(t) && EntryAt(t, i) == Null else i == 0 && (Tall(t) || (t.head == Null && e == Zero))
  }

  /** What becomes of the form of the tree. */
  ghost predicate Formed(t: Tree, t': Tree, i: nat, e: Entry)
    requires Shape(t)
  {
    Canonical(t) || Tall(t) ==> if MakesTall(t, i, e) then Tall(t') else Canonical(t')
  }

  /** Entry 0 after e is stored at i. In a zero-busy array it is reserved when the tree
      grows from nothing, and gone when it is all that is left and reserved. */
  ghost function ZerothAfter(t: Tree, t': Tree, cfg: Config, i: nat, e: Entry): Entry
    requires Shape(t)
  {
    if i == 0 then e
    else if e != Null then Opened(t, cfg, i)
    else if EntryAt(t, i) == Null then EntryAt(t, 0)
    else Lowered(cfg, EntryAt(t, 0), t'.head)
  }

  /** Entry 0 once there is a slot for index i. */
  ghost function Opened(t: Tree, cfg: Config, i: nat): Entry
    requires Shape(t)
  {
    if cfg.zeroBusy && t.head == Null && i > 0 then Zero else EntryAt(t, 0)
  }

  /** The form is settled once index i, with no entry there yet, gets a slot and one. */
  ghost predicate Ready(t: Tree, i: nat) {
    Canonical(t) || (Tall(t) && i > 0)
  }

  lemma ReadyTop(t: Tree, i: nat)
    requires Shape(t) && Ready(t, i) && (t.head.Child? ==> Shr(i, t.head.place.level) < 64)
    ensures FullBut(t, Restart) && TopFor(t, i)
  {}

  lemma GrowCanon(t: Tree, cfg: Config, e: Entry, i: nat)
    requires Shape(t) && GrowsFrom(t, cfg, e) && FullBut(t, Restart)
    requires (if e.Child? then Shr(i, e.place.level) >= 64 else i > 0)
    ensures FullBut(Grow(t, cfg, e), Restart)
    ensures Shr(i, Grow(t, cfg, e).head.place.level) > 0
  {}

  lemma AddChildCanon(t: Tree, cfg: Config, n: Place, o: Offset, i: nat)
    requires Shape(t) && n in t.nodes && Sized(t.nodes[n]) && n.level > 0 && t.nodes[n].slots[o] == Null
    requires FullBut(t, On(At(n, o))) && TopFor(t, i) && Counts(t)
    requires n == Over(i, n.level) && o == Off(i, n.level)
    ensures FullBut(AddChild(t, cfg, n, o), On(At(Down(n, o), Off(i, n.level - 1))))
    ensures TopFor(AddChild(t, cfg, n, o), i)
  {
    hide FullBut, TopFor, TopOk;
    AddChildFull(t, cfg, n, o, Off(i, n.level - 1));
    AddChildTop(t, cfg, n, o, i);
  }

  lemma AddChildFull(t: Tree, cfg: Config, n: Place, o: Offset, k: Offset)
    requires Shape(t) && n in t.nodes && Sized(t.nodes[n]) && n.level > 0 && t.nodes[n].slots[o] == Null
    requires FullBut(t, On(At(n, o)))
    ensures FullBut(AddChild(t, cfg, n, o), On(At(Down(n, o), k)))
  {
    hide Shape, AddChild, Fresh, Down;
    AddChildIs(t, cfg, n, o, Down(n, o));
  }

  lemma AddChildTop(t: Tree, cfg: Config, n: Place, o: Offset, i: nat)
    requires Shape(t) && n in t.nodes && Sized(t.nodes[n]) && n.level > 0 && t.nodes[n].slots[o] == Null && TopFor(t, i)
    requires n == Over(i, n.level) && o == Off(i, n.level)
    ensures TopFor(AddChild(t, cfg, n, o), i)
  {
    assert t.head.Child? ==> t.head.place in t.nodes;
    hide Shape, AddChild, Fresh, Down, Over;
    var t' := AddChild(t, cfg, n, o);
    AddChildIs(t, cfg, n, o, Down(n, o));
    if t.head == Child(n) {
      HeadOver(t, i);
      var s := Shr(i, n.level);
      assert s < 64;
      if s == 0 {
        assert o == 0 && t'.nodes[n].count > 1;
      }
    }
  }

  // ------------------------------------------------------- steps that change nothing

  /** t' stands for the same entries and marks as t. */
  ghost predicate Kept(t: Tree, t': Tree, cfg: Config) {
    TreeOk(t, cfg) && TreeOk(t', cfg) && Same(t, t', cfg)
  }

  lemma KeptSelf(t: Tree, cfg: Config)
    requires TreeOk(t, cfg)
    ensures Kept(t, t, cfg)
  {}

  lemma KeptJoin(t: Tree, t1: Tree, t2: Tree, cfg: Config)
    requires Kept(t, t1, cfg) && Kept(t1, t2, cfg)
    ensures Kept(t, t2, cfg)
  {
    hide Shape, Counts, Marked, Content, MarkAt;
    forall i: nat ensures Content(t2, cfg, i) == Content(t, cfg, i) {
      assert Content(t1, cfg, i) == Content(t, cfg, i);
    }
    forall m: Mark, i: nat ensures MarkAt(t2, cfg, m, i) == MarkAt(t, cfg, m, i) {
      assert MarkAt(t1, cfg, m, i) == MarkAt(t, cfg, m, i);
    }
  }

  lemma GrowKept(t: Tree, cfg: Config, e: Entry)
    requires TreeOk(t, cfg) && GrowsFrom(t, cfg, e)
    ensures Kept(t, Grow(t, cfg, e), cfg)
    ensures EntryAt(Grow(t, cfg, e), 0) == if e.Child? then EntryAt(t, 0) else e
  {
    assert |t.marks| == 3;
    hide Shape, Counts, Marked, Same, Grow;
    GrowShape(t, cfg, e);
    GrowMarked(t, cfg, e);
    GrowSame(t, cfg, e);
  }

  lemma AddChildKept(t: Tree, cfg: Config, n: Place, o: Offset)
    requires TreeOk(t, cfg) && n in t.nodes && Sized(t.nodes[n]) && n.level > 0 && t.nodes[n].slots[o] == Null
    ensures Kept(t, AddChild(t, cfg, n, o), cfg) && EntryAt(AddChild(t, cfg, n, o), 0) == EntryAt(t, 0)
  {
    hide Shape, Counts, Marked, Same, AddChild;
    AddChildShape(t, cfg, n, o);
    AddChildMarked(t, cfg, n, o);
    AddChildSame(t, cfg, n, o);
  }

  lemma AddTopKept(t: Tree, cfg: Config, l: nat)
    requires TreeOk(t, cfg) && t.head == Null
    ensures |t.marks| == 3
    ensures if RootDefault(t, cfg) then Kept(t, AddTop(t, cfg, l), cfg)
            else Shape(AddTop(t, cfg, l)) && Counts(AddTop(t, cfg, l)) && !Marked(AddTop(t, cfg, l), cfg)
    ensures !cfg.zeroBusy ==> RootDefault(t, cfg)
  {
    AddTopOk(t, cfg, l);
    if !cfg.zeroBusy { forall m: Mark ensures t.marks[m] == Default(cfg, m) { RootAt(t, cfg, m); } }
  }

  lemma DropKept(t: Tree, cfg: Config, n: Place)
    requires TreeOk(t, cfg) && n in t.nodes && t.nodes[n].count == 0
    ensures Droppable(t, n) && Kept(t, Drop(t, n), cfg) && EntryAt(Drop(t, n), 0) == EntryAt(t, 0)
  {
    EmptyIs(t, n);
    DropPre(t, n);
    hide Shape, Counts, Marked, Same, Drop;
    DropShape(t, n);
    DropMarked(t, cfg, n);
    DropSame(t, cfg, n);
  }

  lemma ShrinkKept(t: Tree, cfg: Config)
    requires TreeOk(t, cfg) && Shrinkable(t)
    ensures Kept(t, Shrink(t, cfg), cfg) && EntryAt(Shrink(t, cfg), 0) == Lowered(cfg, EntryAt(t, 0), Shrink(t, cfg).head)
  {
    hide Shape, Counts, Marked, Same, Shrink;
    ShrinkShape(t, cfg);
    ShrinkMarked(t, cfg);
    ShrinkSame(t, cfg);
  }

  // ---------------------------------------------------------- creating the way down

  /** xas_create is s levels above the entry of index i, at the slot the cursor
      is on, which holds e. */
  ghost predicate Descent(t: Tree, i: nat, s: nat, cur: Cursor, e: Entry) {
    && cur.On?
    && match cur.spot
       case AtRoot =>
         && e == t.head
         && (e.Child? ==> e.place in t.nodes && s == e.place.level + 1 && Shr(i, e.place.level) < 64)
         && (e == Null ==> if s == 0 then i == 0 else Shr(i, s - 1) < 64)
         && (!e.Child? && e != Null ==> i == 0)
       case At(n, o) =>
         n in t.nodes && Sized(t.nodes[n]) && n.level == s && n == Over(i, s) && o == Off(i, s) && e == t.nodes[n].slots[o]
  }

  lemma DescentNode(t: Tree, i: nat, s: nat, cur: Cursor, c: Place)
    requires Shape(t) && Descent(t, i, s, cur, Child(c))
    ensures s > 0 && c in t.nodes && Sized(t.nodes[c])
    ensures Descent(t, i, s - 1, On(At(c, Off(i, s - 1))), t.nodes[c].slots[Off(i, s - 1)])
  {
    hide Shape, Over, Off;
    OverLevel(i, s);
    if cur.spot.At? { WalkDown(t, i, cur.spot.n); } else { HeadOver(t, i); }
    SizedAt(t, c);
  }

  lemma DescentUnder(t: Tree, cfg: Config, i: nat, s: nat, n: Place, o: Offset)
    requires Shape(t) && Descent(t, i, s, On(At(n, o)), Null) && s > 0
    ensures var c := Down(n, o);
            Descent(AddChild(t, cfg, n, o), i, s - 1, On(At(c, Off(i, s - 1))), Null)
  {
    hide Shape, Down, Over, Off, Fresh;
    var c := Down(n, o);
    FreshIs(cfg, Some(n), o);
    var k := Off(i, s - 1);
    assert Fresh(cfg, Some(n), o).slots[k] == Null;
    OverDown(i, s);
  }

  lemma DescentTop(t: Tree, cfg: Config, i: nat, s: nat)
    requires Shape(t) && Descent(t, i, s, On(AtRoot), Null) && s > 0
    ensures Descent(AddTop(t, cfg, s - 1), i, s - 1, On(At(Place(s - 1, 0), Off(i, s - 1))), Null)
  {
    FreshIs(cfg, None, 0);
    var k := Off(i, s - 1);
    assert Fresh(cfg, None, 0).slots[k] == Null;
  }

  lemma DescentEnd(t: Tree, i: nat, s: nat, cur: Cursor, e: Entry)
    requires Shape(t) && Descent(t, i, s, cur, e) && (s == 0 || (!e.Child? && e != Null))
    ensures CursorOk(t, i, cur) && e == SlotAt(t, cur.spot) && (cur.spot.At? ==> cur.spot.n.level == 0)
  {
    if cur.spot.At? {
      var n := cur.spot.n;
      WalkDown(t, i, n);
      NodeAt(t, n);
      assert SlotOk(t, n, e, cur.spot.o);
    }
  }

  /** A node on the way down that has the next one as a child is not empty. */
  lemma FullMoves(t: Tree, i: nat, s: nat, cur: Cursor, c: Place, cur': Cursor)
    requires Counts(t) && Descent(t, i, s, cur, Child(c)) && FullBut(t, cur)
    ensures FullBut(t, cur')
  {
    if cur.spot.At? {
      assert CountOk(t.nodes[cur.spot.n]);
      TallyPositive(t.nodes[cur.spot.n].slots, cur.spot.o);
    }
  }

  lemma TopCanon(t: Tree, cfg: Config, i: nat, s: nat)
    requires Shape(t) && t.head == Null && s > 0 && 0 < Shr(i, s - 1) < 64
    ensures FullBut(AddTop(t, cfg, s - 1), On(At(Place(s - 1, 0), Off(i, s - 1)))) && TopFor(AddTop(t, cfg, s - 1), i)
  {}

  /** Reserving entry 0 of an empty zero-busy array: the root's free mark is clear,
      and the node that is put under it has nothing but free entries. */
  ghost predicate Hazard(t: Tree, cfg: Config, i: nat, allowRoot: bool)
    requires |t.marks| == 3
  {
    t.head == Null && i == 0 && !allowRoot && !RootDefault(t, cfg)
  }

  lemma {:induction false} ShrZero(l: nat)
    ensures Shr(0, l) == 0
  {
    if l > 0 { ShrZero(l - 1); }
  }

  /** What holds while xas_create goes down; hz: the hazard is ahead or has
      happened; canon: the tree was canonical. */
  ghost predicate Building(t0: Tree, t: Tree, cfg: Config, i: nat, s: nat, cur: Cursor, e: Entry, hz: bool, canon: bool) {
    && Shape(t) && Counts(t) && Descent(t, i, s, cur, e)
    && (if hz then HazardState(t0, t, cfg, i, s, cur, e)
        else Kept(t0, t, cfg) && (cur == On(AtRoot) && e == Null && s > 0 ==> RootDefault(t, cfg)))
    && (canon ==> FullBut(t, cur) && TopFor(t, i) && (cur == On(AtRoot) && e == Null && s > 0 ==> Shr(i, s - 1) > 0))
  }

  ghost predicate HazardState(t0: Tree, t: Tree, cfg: Config, i: nat, s: nat, cur: Cursor, e: Entry) {
    && TreeOk(t0, cfg) && t0.head == Null && i == 0
    && if s == 0 then t == AddTop(t0, cfg, 0) && cur == On(At(Place(0, 0), 0)) else s == 1 && t == t0 && cur == On(AtRoot)
  }

  lemma BuildNode(t0: Tree, t: Tree, cfg: Config, i: nat, s: nat, cur: Cursor, c: Place, hz: bool, canon: bool)
    requires Building(t0, t, cfg, i, s, cur, Child(c), hz, canon)
    ensures s > 0 && c in t.nodes && Sized(t.nodes[c])
    ensures Building(t0, t, cfg, i, s - 1, On(At(c, Off(i, s - 1))), t.nodes[c].slots[Off(i, s - 1)], hz, canon)
  {
    hide Shape, Counts, Kept, FullBut, TopFor, TreeOk;
    DescentNode(t, i, s, cur, c);
    if canon { FullMoves(t, i, s, cur, c, On(At(c, Off(i, s - 1)))); }
  }

  lemma BuildUnder(t0: Tree, t: Tree, cfg: Config, i: nat, s: nat, n: Place, o: Offset, hz: bool, canon: bool)
    requires Building(t0, t, cfg, i, s, On(At(n, o)), Null, hz, canon) && s > 0
    ensures n in t.nodes && Sized(t.nodes[n]) && n.level > 0
    ensures var c := Down(n, o);
            Building(t0, AddChild(t, cfg, n, o), cfg, i, s - 1, On(At(c, Off(i, s - 1))), Null, hz, canon)
  {
    hide Shape, Counts, Kept, FullBut, TopFor, AddChild;
    DescentUnder(t, cfg, i, s, n, o);
    KeptOk(t0, t, cfg);
    AddChildKept(t, cfg, n, o);
    KeptOk(t, AddChild(t, cfg, n, o), cfg);
    KeptJoin(t0, t, AddChild(t, cfg, n, o), cfg);
    if canon { AddChildCanon(t, cfg, n, o, i); }
  }

  lemma KeptOk(t0: Tree, t: Tree, cfg: Config)
    requires Kept(t0, t, cfg)
    ensures TreeOk(t, cfg)
  {}

  lemma BuildTop(t0: Tree, t: Tree, cfg: Config, i: nat, s: nat, hz: bool, canon: bool)
    requires Building(t0, t, cfg, i, s, On(AtRoot), Null, hz, canon) && s > 0
    requires hz ==> !RootDefault(t, cfg)
    ensures t.head == Null && t.nodes == map[]
    ensures Building(t0, AddTop(t, cfg, s - 1), cfg, i, s - 1, On(At(Place(s - 1, 0), Off(i, s - 1))), Null, hz, canon)
  {
    BareNodes(t);
    var t' := AddTop(t, cfg, s - 1);
    hide Shape, Counts, Kept, FullBut, TopFor, AddTop, RootDefault;
    DescentTop(t, cfg, i, s);
    if !hz { KeptOk(t0, t, cfg); }
    AddTopKept(t, cfg, s - 1);
    if !hz {
      KeptJoin(t0, t, t', cfg);
      KeptOk(t0, t', cfg);
    }
    if canon { TopCanon(t, cfg, i, s); }
  }

  lemma BuildEnd(t0: Tree, t: Tree, cfg: Config, i: nat, s: nat, cur: Cursor, e: Entry, hz: bool, canon: bool)
    requires Building(t0, t, cfg, i, s, cur, e, hz, canon) && (s == 0 || (!e.Child? && e != Null))
    ensures Shape(t) && Counts(t) && cur.On? && CursorOk(t, i, cur) && e == SlotAt(t, cur.spot) && (cur.spot.At? ==> cur.spot.n.level == 0)
    ensures if hz then t == AddTop(t0, cfg, 0) && cur == On(At(Place(0, 0), 0)) else Kept(t0, t, cfg)
    ensures canon ==> FullBut(t, cur) && TopFor(t, i)
  {
    DescentEnd(t, i, s, cur, e);
  }

  /** A creation that runs out of memory leaves the contents alone. */
  lemma BuildFails(t0: Tree, t: Tree, cfg: Config, i: nat, s: nat, cur: Cursor, e: Entry, hz: bool, canon: bool)
    requires Building(t0, t, cfg, i, s, cur, e, hz, canon) && s > 0
    ensures Kept(t0, t, cfg)
  {
    if hz { KeptSelf(t0, cfg); }
  }

  lemma BuildFromCursor(t: Tree, cfg: Config, i: nat, cur: Cursor, canon: bool)
    requires TreeOk(t, cfg) && CursorOk(t, i, cur) && cur.On? && cur.spot.At? && (canon ==> Ready(t, i))
    ensures t.head != Null && cur.spot.n in t.nodes && Sized(t.nodes[cur.spot.n])
    ensures Building(t, t, cfg, i, cur.spot.n.level, cur, t.nodes[cur.spot.n].slots[cur.spot.o], false, canon)
  {
    KeptSelf(t, cfg);
    LevelAt(t, cur.spot.n);
    InReach(t, i, cur.spot.n.level);
    if canon { ReadyTop(t, i); }
  }

  /** From the top, after xas_expand has made the tree t of t0. */
  lemma BuildFromTop(t0: Tree, t: Tree, cfg: Config, i: nat, r: nat, allowRoot: bool, canon: bool)
    requires TreeOk(t0, cfg) && Kept(t0, t, cfg) && (canon ==> allowRoot || i > 0 || t0.head != Null)
    requires t0.head == Null && !cfg.zeroBusy ==> t == t0 && (if i == 0 then r == 0 else r > 0 && 0 < Shr(i, r - 1) < 64)
    requires t0.head != Null || cfg.zeroBusy ==>
               if t.head.Child? then r == t.head.place.level + 1 && Shr(i, t.head.place.level) < 64 else t == t0 && i == 0 && r == 0
    requires i == 0 ==> t == t0
    requires canon ==> FullBut(t, Restart) && TopFor(t, i)
    ensures Building(t0, t, cfg, i, if r == 0 && !allowRoot then 1 else r, On(AtRoot), t.head, Hazard(t0, cfg, i, allowRoot), canon)
  {
    AddTopOrNot(t, cfg);
  }

  lemma AddTopOrNot(t: Tree, cfg: Config)
    requires TreeOk(t, cfg)
    ensures t.head == Null && !cfg.zeroBusy ==> RootDefault(t, cfg)
  {
    if t.head == Null { AddTopKept(t, cfg, 0); }
  }

  lemma BuildSlot(t0: Tree, t: Tree, cfg: Config, i: nat, s: nat, c: Place, hz: bool, canon: bool)
    requires Building(t0, t, cfg, i, s, On(At(c, Off(i, s))), Null, hz, canon)
    ensures c in t.nodes && |t.nodes[c].slots| == 64 && t.nodes[c].slots[Off(i, s)] == Null
  {}

  lemma BuildMeans(t0: Tree, t: Tree, cfg: Config, i: nat, s: nat, cur: Cursor, e: Entry, hz: bool, canon: bool)
    requires Building(t0, t, cfg, i, s, cur, e, hz, canon) && s > 0
    ensures |t.marks| == 3 && cur.On? && (hz ==> t == t0)
  {}

  /** Entry 0 and the tree while the way down is made. */
  ghost predicate Opening(t0: Tree, t: Tree, cfg: Config, i: nat, s: nat, cur: Cursor, allowRoot: bool) {
    && Shape(t0) && Shape(t) && EntryAt(t, 0) == Opened(t0, cfg, i)
    && (EntryAt(t0, i) != Null ==> t == t0)
    && (t0.head == Null && i == 0 ==>
          if cur == On(AtRoot) then t == t0 && s == (if allowRoot then 0 else 1)
          else s == 0 && t == AddTop(t0, cfg, 0) && cur == On(At(Place(0, 0), 0)))
  }

  lemma OpenFromCursor(t: Tree, cfg: Config, i: nat, cur: Cursor, allowRoot: bool)
    requires Shape(t) && CursorOk(t, i, cur) && cur.On? && cur.spot.At?
    ensures Opening(t, t, cfg, i, cur.spot.n.level, cur, allowRoot)
  {
    LevelAt(t, cur.spot.n);
  }

  lemma OpenFromTop(t0: Tree, t: Tree, cfg: Config, i: nat, r: nat, allowRoot: bool)
    requires Shape(t0) && Shape(t) && EntryAt(t, 0) == Opened(t0, cfg, i) && (EntryAt(t0, i) != Null ==> t == t0)
    requires i == 0 ==> t == t0 && (t0.head == Null ==> r == 0)
    ensures Opening(t0, t, cfg, i, if r == 0 && !allowRoot then 1 else r, On(AtRoot), allowRoot)
  {}

  lemma OpenNode(t0: Tree, t: Tree, cfg: Config, i: nat, s: nat, cur: Cursor, c: Place, allowRoot: bool)
    requires Opening(t0, t, cfg, i, s, cur, allowRoot) && Descent(t, i, s, cur, Child(c))
    ensures s > 0 && Opening(t0, t, cfg, i, s - 1, On(At(c, Off(i, s - 1))), allowRoot)
  {
    hide Shape, EntryAt, AddTop;
    DescentNode(t, i, s, cur, c);
  }

  lemma OpenUnder(t0: Tree, t: Tree, cfg: Config, i: nat, s: nat, n: Place, o: Offset, allowRoot: bool)
    requires Opening(t0, t, cfg, i, s, On(At(n, o)), allowRoot) && Descent(t, i, s, On(At(n, o)), Null) && s > 0
    requires TreeOk(t, cfg)
    ensures n in t.nodes && Sized(t.nodes[n]) && n.level > 0
    ensures Opening(t0, AddChild(t, cfg, n, o), cfg, i, s - 1, On(At(Down(n, o), Off(i, s - 1))), allowRoot)
  {
    hide Shape, EntryAt, AddTop, AddChild, TreeOk;
    AddChildKept(t, cfg, n, o);
    KeptShapes(t, AddChild(t, cfg, n, o), cfg);
    CursorEntry(t, i, On(At(n, o)));
  }

  lemma OpenTop(t0: Tree, t: Tree, cfg: Config, i: nat, s: nat, allowRoot: bool)
    requires Opening(t0, t, cfg, i, s, On(AtRoot), allowRoot) && Descent(t, i, s, On(AtRoot), Null) && s > 0
    ensures Opening(t0, AddTop(t, cfg, s - 1), cfg, i, s - 1, On(At(Place(s - 1, 0), Off(i, s - 1))), allowRoot)
  {
    hide Shape, AddTop;
    AddTopOk(t, cfg, s - 1);
    assert EntryAt(t, i) == Null;
  }

  lemma OpenEnd(t0: Tree, t: Tree, cfg: Config, i: nat, s: nat, cur: Cursor, e: Entry, allowRoot: bool)
    requires Opening(t0, t, cfg, i, s, cur, allowRoot) && Descent(t, i, s, cur, e) && (s == 0 || (!e.Child? && e != Null))
    requires Ready(t0, i) && !Guarded(t0, i, allowRoot) ==> FullBut(t, cur) && TopFor(t, i)
    ensures Slotted(t0, t, cfg, i, cur, allowRoot)
  {
    hide Shape, EntryAt, AddTop, Ready, FullBut, TopFor;
  }

  // ------------------------------------------------------------------------ pruning

  /** What holds while xas_delete_node climbs from node n. */
  ghost predicate Pruning(t0: Tree, t: Tree, cfg: Config, n: Place, full: bool, top: bool) {
    && Kept(t0, t, cfg) && n in t.nodes && EntryAt(t, 0) == EntryAt(t0, 0)
    && (full ==> FullBut(t, On(At(n, 0)))) && (top ==> TopOk(t) || t.head == Child(n))
  }

  lemma PruneUp(t0: Tree, t: Tree, cfg: Config, n: Place, full: bool, top: bool)
    requires Pruning(t0, t, cfg, n, full, top) && t.nodes[n].count == 0
    ensures Droppable(t, n) && Kept(t0, Drop(t, n), cfg)
    ensures t.nodes[n].parent == None ==>
              && Drop(t, n).head == Null && (full ==> FullBut(Drop(t, n), Restart)) && TopOk(Drop(t, n))
              && EntryAt(t0, 0) == Null
    ensures t.nodes[n].parent.Some? ==>
              && t.nodes[n].parent.value in Drop(t, n).nodes && Pruning(t0, Drop(t, n), cfg, t.nodes[n].parent.value, full, top)
              && |Drop(t, n).nodes| < |t.nodes|
              && t.nodes[t.nodes[n].parent.value].count > 0
  {
    hide Shape, Kept, Drop, Counts, Marked, FullBut, TopOk;
    KeptShapes(t0, t, cfg);
    KeptOk(t0, t, cfg);
    DropKept(t, cfg, n);
    KeptJoin(t0, t, Drop(t, n), cfg);
    DropPre(t, n);
    if t.head == Child(n) {
      DropHead(t, n);
      BareCanon(Drop(t, n));
      KeptShapes(t, Drop(t, n), cfg);
      assert EntryAt(Drop(t, n), 0) == Null;
    } else {
      PruneParent(t, n, full, top);
    }
  }

  lemma BareCanon(t: Tree)
    requires t.nodes == map[] && t.head == Null
    ensures FullBut(t, Restart) && TopOk(t)
  {}

  lemma PruneParent(t: Tree, n: Place, full: bool, top: bool)
    requires Droppable(t, n) && Counts(t) && t.head != Child(n)
    requires (full ==> FullBut(t, On(At(n, 0)))) && (top ==> TopOk(t))
    ensures var u := Up(n);
            && t.nodes[n].parent == Some(u) && u in t.nodes && u in Drop(t, n).nodes && t.nodes[u].count > 0
            && (full ==> FullBut(Drop(t, n), On(At(u, 0)))) && (top ==> TopOk(Drop(t, n)) || Drop(t, n).head == Child(u))
            && |Drop(t, n).nodes| < |t.nodes|
  {
    hide Drop, Up, SlotNo;
    NodeAt(t, n);
    DropIs(t, n);
    hide Empty;
    var t' := Drop(t, n);
    var u := Up(n);
    CountAt(t, u);
    assert t.head.Child? ==> t.head.place in t.nodes;
    hide Shape, Droppable, Counts;
    TallyPositive(t.nodes[u].slots, SlotNo(n));
    assert |t'.nodes.Keys| == |t.nodes.Keys| - 1;
  }

  lemma CountAt(t: Tree, n: Place)
    requires Counts(t) && n in t.nodes
    ensures CountOk(t.nodes[n])
  {}

  /** The climb stops at a node that is in use. */
  lemma PruneStop(t0: Tree, t: Tree, cfg: Config, n: Place, full: bool, top: bool)
    requires Pruning(t0, t, cfg, n, full, top) && t.nodes[n].count > 0
    ensures Kept(t0, t, cfg) && (full ==> FullBut(t, Restart)) && t.head.Child? && EntryAt(t, 0) == EntryAt(t0, 0)
    ensures t.nodes[n].parent == None <==> t.head == Child(n)
    ensures t.nodes[n].parent.Some? && top ==> TopOk(t)
  {
    DropPre(t, n);
    LevelAt(t, n);
  }

  lemma KeptShapes(t0: Tree, t: Tree, cfg: Config)
    requires Kept(t0, t, cfg)
    ensures Shape(t0) && Shape(t)
  {}

  /** A head that could be lower is taken off. */
  lemma ShrinkStep(t0: Tree, t: Tree, cfg: Config)
    requires Kept(t0, t, cfg) && t.head.Child? && EntryAt(t, 0) == EntryAt(t0, 0)
    ensures t.head.place in t.nodes && Sized(t.nodes[t.head.place])
    ensures var nd := t.nodes[t.head.place];
            if nd.count != 1 || nd.slots[0] == Null then TopOk(t)
            else
              && Shrinkable(t) && (nd.slots[0].Child? || t.head.place.level == 0)
              && Kept(t0, Shrink(t, cfg), cfg) && |Shrink(t, cfg).nodes| < |t.nodes|
              && (FullBut(t, Restart) ==> FullBut(Shrink(t, cfg), Restart))
              && EntryAt(Shrink(t, cfg), 0) == Lowered(cfg, EntryAt(t0, 0), Shrink(t, cfg).head)
  {
    hide Shape, Kept, Counts, Marked, Shrinkable, Shrink, NodeOk;
    KeptShapes(t0, t, cfg);
    KeptOk(t0, t, cfg);
    HeadIn(t);
    var h := t.head.place;
    if t.nodes[h].count == 1 && t.nodes[h].slots[0] != Null {
      HeadShrinkable(t);
      ShrinkKept(t, cfg);
      var t' := Shrink(t, cfg);
      KeptJoin(t0, t, t', cfg);
      ShrinkIs(t, cfg);
      assert t'.nodes.Keys == t.nodes.Keys - {h};
      assert |t'.nodes.Keys| == |t.nodes.Keys| - 1;
    }
  }

  lemma HeadIn(t: Tree)
    requires Shape(t) && t.head.Child?
    ensures t.head.place in t.nodes && Sized(t.nodes[t.head.place])
  {
    SizedAt(t, t.head.place);
  }

  lemma HeadShrinkable(t: Tree)
    requires Shape(t) && t.head.Child? && t.head.place in t.nodes && Sized(t.nodes[t.head.place])
    requires var nd := t.nodes[t.head.place]; nd.count == 1 && nd.slots[0] != Null
    ensures Shrinkable(t) && (t.nodes[t.head.place].slots[0].Child? || t.head.place.level == 0)
  {
    var h := t.head.place;
    NodeAt(t, h);
    var nd := t.nodes[h];
    assert SlotOk(t, h, nd.slots[0], 0);
    assert nd.slots[0] != Child(h);
  }

  // ------------------------------------------------------------------------ storing

  /** t' is t with e at index i; `reset` if the marks there become the default. */
  ghost predicate Written(t: Tree, t': Tree, cfg: Config, i: nat, e: Entry, reset: bool)
    requires Shape(t) && Shape(t')
  {
    && (forall j: nat :: Content(t', cfg, j) == if j == i then Norm(cfg, i, e) else Content(t, cfg, j))
    && (forall m: Mark, j: nat :: MarkAt(t', cfg, m, j) == if j == i && reset then Default(cfg, m) else MarkAt(t, cfg, m, j))
  }

  lemma WrittenJoin(t0: Tree, t1: Tree, t2: Tree, t3: Tree, cfg: Config, i: nat, e: Entry, reset: bool)
    requires Shape(t0) && Shape(t1) && Shape(t2) && Shape(t3) && Same(t0, t1, cfg) && Written(t1, t2, cfg, i, e, reset) && Same(t2, t3, cfg)
    ensures Written(t0, t3, cfg, i, e, reset)
  {
    hide Shape, Content, MarkAt, Norm;
    forall j: nat ensures Content(t3, cfg, j) == if j == i then Norm(cfg, i, e) else Content(t0, cfg, j) {
      assert Content(t3, cfg, j) == Content(t2, cfg, j) && Content(t1, cfg, j) == Content(t0, cfg, j);
    }
    forall m: Mark, j: nat ensures MarkAt(t3, cfg, m, j) == if j == i && reset then Default(cfg, m) else MarkAt(t0, cfg, m, j) {
      assert MarkAt(t3, cfg, m, j) == MarkAt(t2, cfg, m, j) && MarkAt(t1, cfg, m, j) == MarkAt(t0, cfg, m, j);
    }
  }

  /** The entry at the spot the cursor is on. */
  function Put(t: Tree, spot: Spot, e: Entry): Tree
    requires SpotIn(t, spot)
  {
    match spot
    case AtRoot => t.(head := e)
    case At(n, o) => PutLeaf(t, n, o, e)
  }

  ghost predicate LeafCursor(t: Tree, i: nat, cur: Cursor) {
    && cur.On? && CursorOk(t, i, cur) && (cur.spot.At? ==> cur.spot.n.level == 0)
  }

  lemma PutOk(t: Tree, cfg: Config, i: nat, cur: Cursor, e: Entry)
    requires Shape(t) && Counts(t) && LeafCursor(t, i, cur) && !e.Child?
    ensures Shape(Put(t, cur.spot, e)) && Counts(Put(t, cur.spot, e))
    ensures Written(t, Put(t, cur.spot, e), cfg, i, e, false)
    ensures CursorOk(Put(t, cur.spot, e), i, cur) && EntryAt(Put(t, cur.spot, e), i) == e
  {
    if cur.spot == AtRoot {
      BareNodes(t);
    } else {
      hide Shape, Counts, EntryAt, MarkAt, PutLeaf, Written, CursorOk;
      var n, o := cur.spot.n, cur.spot.o;
      CursorLeaf(t, i, cur);
      PutShape(t, n, o, e);
      PutSame(t, cfg, n, o, e, i);
      PutWritten(t, PutLeaf(t, n, o, e), cfg, i, e);
      PutCursor(t, i, n, o, e);
    }
  }

  lemma CursorLeaf(t: Tree, i: nat, cur: Cursor)
    requires LeafCursor(t, i, cur) && cur.spot.At?
    ensures cur.spot.n in t.nodes && Sized(t.nodes[cur.spot.n]) && cur.spot.n == Over(i, 0) && cur.spot.o == Off(i, 0)
  {}

  lemma PutCursor(t: Tree, i: nat, n: Place, o: Offset, e: Entry)
    requires n in t.nodes && Sized(t.nodes[n]) && n == Over(i, 0) && o == Off(i, 0) && !e.Child?
    ensures CursorOk(PutLeaf(t, n, o, e), i, On(At(n, o)))
  {}

  lemma PutWritten(t: Tree, t': Tree, cfg: Config, i: nat, e: Entry)
    requires Shape(t) && Shape(t') && (forall j: nat :: EntryAt(t', j) == if j == i then e else EntryAt(t, j))
    requires forall m: Mark, j: nat :: MarkAt(t', cfg, m, j) == MarkAt(t, cfg, m, j)
    ensures Written(t, t', cfg, i, e, false)
  {
    hide Shape, EntryAt, MarkAt;
  }

  lemma PutKeepsMarks(t: Tree, cfg: Config, i: nat, cur: Cursor, e: Entry)
    requires TreeOk(t, cfg) && LeafCursor(t, i, cur) && !e.Child? && Shape(Put(t, cur.spot, e))
    requires e == Null ==> forall m: Mark :: MarkAt(t, cfg, m, i) == Default(cfg, m)
    ensures Marked(Put(t, cur.spot, e), cfg)
  {
    match cur.spot
    case AtRoot =>
      BareNodes(t);
      forall m: Mark ensures MarkedFor(t.(head := e), cfg, m) {
        assert MarkAt(t, cfg, m, i) == t.marks[m];
      }
    case At(n, o) =>
      LevelAt(t, n);
      forall m: Mark ensures MarkAt(t, cfg, m, i) == t.nodes[n].marks[m][o] {}
      hide Shape, Counts, Marked;
      PutMarked(t, cfg, n, o, e);
  }

  lemma PutCanon(t: Tree, cfg: Config, i: nat, cur: Cursor, e: Entry)
    requires Shape(t) && Counts(t) && LeafCursor(t, i, cur) && e != Null && !e.Child?
    requires FullBut(t, cur) && TopFor(t, i)
    ensures FullBut(Put(t, cur.spot, e), Restart) && TopOk(Put(t, cur.spot, e))
  {
    if cur.spot.At? {
      hide Shape, Counts, TopOk, TopFor, Tally, CursorOk, WithEntry, FullBut;
      CursorLeaf(t, i, cur);
      WithEntryIs(t.nodes[cur.spot.n], cur.spot.o, e);
      var n, o := cur.spot.n, cur.spot.o;
      var t' := PutLeaf(t, n, o, e);
      PutShape(t, n, o, e);
      CountAt(t', n);
      TallyPositive(t'.nodes[n].slots, o);
      TopReached(t, t', i, n, o, e);
      PutFull(t, cur, e);
    } else {
      BareNodes(t);
    }
  }

  lemma PutFull(t: Tree, cur: Cursor, e: Entry)
    requires cur.On? && cur.spot.At? && cur.spot.n in t.nodes && Sized(t.nodes[cur.spot.n]) && FullBut(t, cur)
    requires WithEntry(t.nodes[cur.spot.n], cur.spot.o, e).count > 0
    ensures FullBut(PutLeaf(t, cur.spot.n, cur.spot.o, e), Restart)
  {
    hide WithEntry;
  }

  lemma TopReached(t: Tree, t': Tree, i: nat, n: Place, o: Offset, e: Entry)
    requires Shape(t) && Counts(t) && Shape(t') && Counts(t') && n in t.nodes && Sized(t.nodes[n]) && n == Over(i, 0) && o == Off(i, 0)
    requires e != Null && !e.Child? && t' == PutLeaf(t, n, o, e) && TopFor(t, i)
    ensures TopOk(t')
  {
    LevelAt(t, n);
    var h := t.head.place;
    var s := Shr(i, h.level);
    CountAt(t', h);
    SizedAt(t', h);
    if 0 < s < 64 {
      InReach(t', i, 0);
      Ancestor(t', i, 0, h.level);
      assert t'.nodes[h].slots[s] != Null;
      if t'.nodes[h].slots[0] != Null { TallyTwo(t'.nodes[h].slots, 0, s); }
    } else {
      CountAt(t, h);
      SizedAt(t, h);
      hide Shape, Counts;
      if h == n { TallyUpdate(t.nodes[n].slots, o, e, false); }
    }
  }

  lemma EraseCanon(t: Tree, cfg: Config, n: Place, o: Offset)
    requires Shape(t) && n in t.nodes && Sized(t.nodes[n]) && FullBut(t, Restart) && (TopOk(t) || t.head == Child(n))
    ensures FullBut(PutLeaf(t, n, o, Null), On(At(n, 0)))
    ensures TopOk(PutLeaf(t, n, o, Null)) || PutLeaf(t, n, o, Null).head == Child(n)
  {}

  lemma LinksCanon(t: Tree, t': Tree)
    requires SameLinks(t, t') && (t.head.Child? ==> t.head.place in t.nodes)
    ensures FullBut(t, Restart) ==> FullBut(t', Restart)
    ensures TopOk(t) ==> TopOk(t')
    ensures Canonical(t) ==> Canonical(t')
    ensures Tall(t) ==> Tall(t')
  {
    forall n | n in t'.nodes ensures t'.nodes[n].count == t.nodes[n].count && t'.nodes[n].slots == t.nodes[n].slots {
      assert SameNode(t.nodes[n], t'.nodes[n]);
    }
  }

  /** What storing e at i does, given the marks were right: see Hazard. */
  ghost predicate StoreOk(t: Tree, t': Tree, cfg: Config, i: nat, e: Entry, hz: bool) {
    && Shape(t) && Shape(t') && Counts(t')
    && (forall j: nat :: Content(t', cfg, j) == if j == i then Norm(cfg, i, e) else Content(t, cfg, j))
    && (Marked(t', cfg) <==> !hz)
    && (!hz ==> Written(t, t', cfg, i, e, e == Null && EntryAt(t, i) != Null))
    && Formed(t, t', i, e) && EntryAt(t', 0) == ZerothAfter(t, t', cfg, i, e)
  }

  /** A canonical tree stays one unless entry 0 of an empty array is reserved. */
  lemma StaysCanonicalIff(t: Tree, t': Tree, cfg: Config, i: nat, e: Entry, hz: bool)
    requires StoreOk(t, t', cfg, i, e, hz) && Canonical(t)
    ensures Canonical(t') <==> !(i == 0 && e == Zero && t.head == Null)
  {
    hide Shape, Counts, Marked, Canonical, Tall, EntryAt;
    NotBoth(t);
    NotBoth(t');
  }

  /** xas_store with an entry: a slot was made, with t1, and then written. */
  lemma StoredEntry(t0: Tree, t1: Tree, cfg: Config, i: nat, cur: Cursor, e: Entry, hz: bool)
    requires TreeOk(t0, cfg) && Shape(t1) && Counts(t1) && LeafCursor(t1, i, cur) && e != Null && !e.Child?
    requires if hz then t0.head == Null && !RootDefault(t0, cfg) && t1 == AddTop(t0, cfg, 0) && e == Zero else Kept(t0, t1, cfg)
    requires Slotted(t0, t1, cfg, i, cur, e != Zero)
    ensures StoreOk(t0, Put(t1, cur.spot, e), cfg, i, e, hz)
  {
    var t2 := Put(t1, cur.spot, e);
    hide Shape, Counts, Put, MarkAt, EntryAt, RootDefault, AddTop, FullBut, TopOk, TopFor, CursorOk, Formed, Slotted, ZerothAfter;
    PutOk(t1, cfg, i, cur, e);
    SameSelf(t2, cfg);
    StoredForm(t0, t1, cfg, i, cur, e);
    StoredZeroth(t0, t1, cfg, i, cur, e);
    if hz {
      HazardPut(t0, t1, cfg, i, cur, e);
      HazardContent(t0, t1, t2, cfg, i, e);
    } else {
      PutKeepsMarks(t1, cfg, i, cur, e);
      WrittenJoin(t0, t1, t2, t2, cfg, i, e, false);
    }
  }

  /** What making a slot for index i leaves behind: t1 of t0. */
  ghost predicate Slotted(t0: Tree, t1: Tree, cfg: Config, i: nat, cur: Cursor, allowRoot: bool)
    requires Shape(t0) && Shape(t1)
  {
    && EntryAt(t1, 0) == Opened(t0, cfg, i)
    && (EntryAt(t0, i) != Null ==> t1 == t0)
    && (Guarded(t0, i, allowRoot) ==> t1 == AddTop(t0, cfg, 0) && cur == On(At(Place(0, 0), 0)))
    && (Ready(t0, i) && !Guarded(t0, i, allowRoot) ==> FullBut(t1, cur) && TopFor(t1, i))
  }

  /** The branch for a reserved entry 0 and an empty array. */
  ghost predicate Guarded(t: Tree, i: nat, allowRoot: bool) {
    t.head == Null && i == 0 && !allowRoot
  }

  lemma StoredForm(t0: Tree, t1: Tree, cfg: Config, i: nat, cur: Cursor, e: Entry)
    requires Shape(t0) && Counts(t0) && Shape(t1) && Counts(t1) && LeafCursor(t1, i, cur) && e != Null && !e.Child?
    requires Slotted(t0, t1, cfg, i, cur, e != Zero)
    ensures Formed(t0, Put(t1, cur.spot, e), i, e)
  {
    if Guarded(t0, i, e != Zero) {
      ReservedTall(t0, cfg, e);
    } else if Tall(t0) && i == 0 {
      TallStays(t0, cur, e);
    } else if Ready(t0, i) {
      PutCanon(t1, cfg, i, cur, e);
    }
  }

  lemma ReservedTall(t: Tree, cfg: Config, e: Entry)
    requires Shape(t) && t.head == Null && e != Null
    ensures var t1 := AddTop(t, cfg, 0);
            SpotIn(t1, At(Place(0, 0), 0)) && Tall(Put(t1, At(Place(0, 0), 0), e))
  {
    BareNodes(t);
    FreshIs(cfg, None, 0);
    var a: Offset := 0;
    assert Fresh(cfg, None, 0).slots[a] == Null;
  }

  lemma TallStays(t: Tree, cur: Cursor, e: Entry)
    requires Shape(t) && Tall(t) && LeafCursor(t, 0, cur) && e != Null
    ensures Tall(Put(t, cur.spot, e))
  {
    CursorLeafHead(t, cur);
    var nd := t.nodes[Place(0, 0)];
    assert WithEntry(nd, 0, e).count == 1;
  }

  lemma CursorLeafHead(t: Tree, cur: Cursor)
    requires Shape(t) && t.head == Child(Place(0, 0)) && LeafCursor(t, 0, cur)
    ensures cur == On(At(Place(0, 0), 0))
  {}

  lemma StoredZeroth(t0: Tree, t1: Tree, cfg: Config, i: nat, cur: Cursor, e: Entry)
    requires Shape(t0) && Shape(t1) && Counts(t1) && LeafCursor(t1, i, cur) && e != Null && !e.Child?
    requires Slotted(t0, t1, cfg, i, cur, e != Zero) && Shape(Put(t1, cur.spot, e))
    ensures EntryAt(Put(t1, cur.spot, e), 0) == ZerothAfter(t0, Put(t1, cur.spot, e), cfg, i, e)
  {
    hide Shape, Counts, EntryAt, Put, CursorOk;
    PutOk(t1, cfg, i, cur, e);
    if i > 0 { PutElsewhere(t1, cfg, i, cur, e); }
  }

  lemma PutElsewhere(t: Tree, cfg: Config, i: nat, cur: Cursor, e: Entry)
    requires Shape(t) && LeafCursor(t, i, cur) && !e.Child? && i > 0 && Shape(Put(t, cur.spot, e))
    ensures EntryAt(Put(t, cur.spot, e), 0) == EntryAt(t, 0)
  {
    if cur.spot.At? {
      LevelAt(t, cur.spot.n);
      WithEntryIs(t.nodes[cur.spot.n], cur.spot.o, e);
    }
  }

  lemma SameSelf(t: Tree, cfg: Config)
    requires Shape(t)
    ensures Same(t, t, cfg)
  {}

  lemma HazardContent(t0: Tree, t1: Tree, t2: Tree, cfg: Config, i: nat, e: Entry)
    requires Shape(t0) && Shape(t1) && Shape(t2) && t0.head == Null && t1 == AddTop(t0, cfg, 0)
    requires forall j: nat :: Content(t2, cfg, j) == if j == i then Norm(cfg, i, e) else Content(t1, cfg, j)
    ensures forall j: nat :: Content(t2, cfg, j) == if j == i then Norm(cfg, i, e) else Content(t0, cfg, j)
  {
    AddTopOk(t0, cfg, 0);
    hide Shape, EntryAt;
    forall j: nat ensures Content(t1, cfg, j) == Content(t0, cfg, j) {}
  }

  /** The root's marks stay wrong. */
  lemma HazardPut(t0: Tree, t1: Tree, cfg: Config, i: nat, cur: Cursor, e: Entry)
    requires Shape(t0) && Shape(t1) && t0.head == Null && !RootDefault(t0, cfg) && t1 == AddTop(t0, cfg, 0)
    requires LeafCursor(t1, i, cur) && Shape(Put(t1, cur.spot, e))
    ensures !Marked(Put(t1, cur.spot, e), cfg)
  {
    var m: Mark :| t0.marks[m] != Default(cfg, m);
    FreshIs(cfg, None, 0);
    var t2 := Put(t1, cur.spot, e);
    assert t2.nodes[Place(0, 0)].marks == t1.nodes[Place(0, 0)].marks;
    assert !RootOk(t2, cfg, m);
    assert !MarkedFor(t2, cfg, m);
  }

  /** Erasing, up to the node that is left: marks first, t1, and then the slot. */
  lemma ErasedEntry(t0: Tree, t1: Tree, cfg: Config, i: nat, cur: Cursor)
    requires TreeOk(t0, cfg) && TreeOk(t1, cfg) && SameLinks(t0, t1) && LeafCursor(t1, i, cur)
    requires forall m: Mark, j: nat :: MarkAt(t1, cfg, m, j) == if j == i then Default(cfg, m) else MarkAt(t0, cfg, m, j)
    ensures TreeOk(Put(t1, cur.spot, Null), cfg)
    ensures Written(t0, Put(t1, cur.spot, Null), cfg, i, Null, true)
    ensures Shape(Put(t1, cur.spot, Null)) && EntryAt(Put(t1, cur.spot, Null), 0) == if i == 0 then Null else EntryAt(t0, 0)
    ensures Canonical(t0) || Tall(t0) ==>
              if cur.spot == AtRoot then FullBut(Put(t1, cur.spot, Null), Restart) && TopOk(Put(t1, cur.spot, Null))
              else var n := cur.spot.n;
                && FullBut(Put(t1, cur.spot, Null), On(At(n, 0)))
                && (TopOk(Put(t1, cur.spot, Null)) || Put(t1, cur.spot, Null).head == Child(n))
  {
    var t2 := Put(t1, cur.spot, Null);
    hide Shape, Counts, MarkAt, EntryAt, FullBut, TopOk, CursorOk, SameLinks, Marked, Tall, Canonical;
    LinksKeep(t0, t1);
    PutOk(t1, cfg, i, cur, Null);
    PutKeepsMarks(t1, cfg, i, cur, Null);
    ErasedWritten(t0, t1, t2, cfg, i);
    if i > 0 { PutElsewhere(t1, cfg, i, cur, Null); }
    if Canonical(t0) || Tall(t0) {
      RootThere(t0);
      LinksCanon(t0, t1);
      if cur.spot == AtRoot {
        CursorBare(t1, i, cur);
        BareNodes(t1);
        BareCanon(t2);
      } else {
        CursorLeaf(t1, i, cur);
        ErasesFrom(t1, cur.spot.n);
        EraseCanon(t1, cfg, cur.spot.n, cur.spot.o);
      }
    }
  }

  lemma ErasesFrom(t: Tree, n: Place)
    requires Shape(t) && n in t.nodes && n.level == 0 && (Canonical(t) || Tall(t))
    ensures FullBut(t, Restart) && (TopOk(t) || t.head == Child(n))
  {
    LevelAt(t, n);
  }

  lemma CursorBare(t: Tree, i: nat, cur: Cursor)
    requires CursorOk(t, i, cur) && cur == On(AtRoot)
    ensures !t.head.Child?
  {}

  lemma ErasedWritten(t0: Tree, t1: Tree, t2: Tree, cfg: Config, i: nat)
    requires Shape(t0) && Shape(t1) && Shape(t2) && Written(t1, t2, cfg, i, Null, false)
    requires forall j: nat :: EntryAt(t1, j) == EntryAt(t0, j)
    requires forall m: Mark, j: nat :: MarkAt(t1, cfg, m, j) == if j == i then Default(cfg, m) else MarkAt(t0, cfg, m, j)
    ensures Written(t0, t2, cfg, i, Null, true)
  {
    hide Shape, MarkAt, EntryAt;
    forall j: nat ensures Content(t2, cfg, j) == if j == i then Norm(cfg, i, Null) else Content(t0, cfg, j) {
      assert Content(t1, cfg, j) == Content(t0, cfg, j);
    }
  }

  lemma ErasedOk(t0: Tree, t2: Tree, t3: Tree, cfg: Config, i: nat)
    requires TreeOk(t0, cfg) && TreeOk(t2, cfg) && Written(t0, t2, cfg, i, Null, true) && Kept(t2, t3, cfg) && EntryAt(t0, i) != Null
    requires Canonical(t0) || Tall(t0) ==> Canonical(t3)
    requires EntryAt(t2, 0) == (if i == 0 then Null else EntryAt(t0, 0)) && EntryAt(t3, 0) == Lowered(cfg, EntryAt(t2, 0), t3.head)
    ensures StoreOk(t0, t3, cfg, i, Null, false)
  {
    hide Shape, Counts, MarkAt, EntryAt, Canonical, Tall;
    SameSelf(t0, cfg);
    WrittenJoin(t0, t0, t2, t3, cfg, i, Null, true);
  }

  /** What is not there need not be erased. */
  lemma NothingToErase(t: Tree, cfg: Config, i: nat)
    requires TreeOk(t, cfg) && EntryAt(t, i) == Null
    ensures StoreOk(t, t, cfg, i, Null, false)
  {
    hide Shape, Counts, MarkAt, EntryAt, Canonical, Tall;
    assert Content(t, cfg, i) == Norm(cfg, i, Null);
  }

  lemma PutSelf(t: Tree, spot: Spot, e: Entry)
    requires SpotIn(t, spot) && SlotAt(t, spot) == e
    ensures Put(t, spot, e) == t
  {
    if spot.At? {
      var nd := t.nodes[spot.n];
      assert nd.slots[spot.o := e] == nd.slots;
      assert WithEntry(nd, spot.o, e) == nd;
    }
  }
}
