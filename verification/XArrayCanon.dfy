/** The shape of the tree tells nothing but its contents: two canonical trees
    with the same entries and marks are the same tree. */
module XArrayCanon {
  import opened XArrayTree
  import opened XArraySteps
  import opened XArrayMarks
  import opened XArrayGrow
  import opened XArrayWalk
  import opened XArrayFind

  lemma SlotInUse(s: seq<Entry>) returns (o: nat)
    requires Tally(s, false) > 0
    ensures o < |s| && s[o] != Null
  {
    if forall o :: 0 <= o < |s| ==> s[o] == Null { TallyZero(s); }
    o :| o < |s| && s[o] != Null;
  }

  lemma {:induction false} FirstOnly(s: seq<Entry>)
    requires s != [] && forall o :: 0 < o < |s| ==> s[o] == Null
    ensures Tally(s, false) == Weigh(s[0], false)
  {
    if |s| > 1 { FirstOnly(s[..|s| - 1]); } else { assert s[..0] == []; }
  }

  /** A head that cannot be lower has something beyond its first slot. */
  lemma SecondSlot(s: seq<Entry>) returns (o: nat)
    requires s != [] && Tally(s, false) > 0 && !(Tally(s, false) == 1 && s[0] != Null)
    ensures 0 < o < |s| && s[o] != Null
  {
    if forall o :: 0 < o < |s| ==> s[o] == Null { FirstOnly(s); }
    o :| 0 < o < |s| && s[o] != Null;
  }

  /** Below every slot in use there is an entry. */
  lemma {:induction false} Inhabited(t: Tree, n: Place, o: Offset) returns (j: nat)
    requires Shape(t) && Counts(t) && FullBut(t, Restart) && n in t.nodes && Sized(t.nodes[n]) && t.nodes[n].slots[o] != Null
    ensures Under(j, n, o) && EntryAt(t, j) != Null
    decreases n.level
  {
    hide Shape, Counts, EntryAt;
    SlotAtPlace(t, n, o);
    if n.level == 0 {
      j := n.prefix * 64 + o;
      SplitPrefix(n.prefix, o);
      EntryHere(t, n, o, j);
    } else {
      var c := t.nodes[n].slots[o].place;
      SizedAt(t, c);
      CountAt(t, c);
      var k := SlotInUse(t.nodes[c].slots);
      j := Inhabited(t, c, k);
      UnderUp(j, n, o, k);
    }
  }

  lemma EntryHere(t: Tree, n: Place, o: Offset, j: nat)
    requires Shape(t) && n in t.nodes && Sized(t.nodes[n]) && n.level == 0 && Under(j, n, o)
    ensures EntryAt(t, j) == t.nodes[n].slots[o]
  {
    LevelAt(t, n);
  }

  /** No node is empty in either, and both hold the same entries and marks. */
  ghost predicate Like(t1: Tree, t2: Tree, cfg: Config) {
    && TreeOk(t1, cfg) && TreeOk(t2, cfg) && FullBut(t1, Restart) && FullBut(t2, Restart)
    && (forall i: nat :: EntryAt(t1, i) == EntryAt(t2, i))
    && (forall m: Mark, i: nat :: MarkAt(t1, cfg, m, i) == MarkAt(t2, cfg, m, i))
  }

  /** An entry past the first slot of the head. */
  lemma HighEntry(t: Tree) returns (j: nat)
    requires Shape(t) && Counts(t) && Canonical(t) && t.head.Child?
    ensures Shr(j, t.head.place.level) > 0 && EntryAt(t, j) != Null
  {
    HeadIn(t);
    var h := t.head.place;
    CountAt(t, h);
    var o := SecondSlot(t.nodes[h].slots);
    hide Shape, Counts, EntryAt;
    j := Inhabited(t, h, o);
  }

  lemma {:induction false} ShrPositive(j: nat, l: nat, k: nat)
    requires l <= k && Shr(j, k) > 0
    ensures Shr(j, l) > 0 && (l < k ==> Shr(j, l) >= 64)
    decreases k
  {
    if l < k { ShrPositive(j, l, k - 1); }
  }

  /** A bare root, and with it the height, is a matter of the contents. */
  lemma BareIff(t: Tree, cfg: Config)
    requires TreeOk(t, cfg) && Canonical(t)
    ensures !t.head.Child? <==> forall i: nat :: i > 0 ==> EntryAt(t, i) == Null
  {
    if t.head.Child? {
      var j := HighEntry(t);
      ShrPositive(j, 0, t.head.place.level);
    }
  }

  lemma NotHigher(t1: Tree, t2: Tree, cfg: Config)
    requires Like(t1, t2, cfg) && Canonical(t2) && t2.head.Child?
    ensures t1.head.Child? && t2.head.place.level <= t1.head.place.level
  {
    var j := HighEntry(t2);
    assert EntryAt(t1, j) != Null;
    ShrPositive(j, 0, t2.head.place.level);
    if t1.head.Child? && t1.head.place.level < t2.head.place.level {
      ShrPositive(j, t1.head.place.level, t2.head.place.level);
      OutOfReach(t1, j);
    }
  }

  lemma LikeSym(t1: Tree, t2: Tree, cfg: Config)
    requires Like(t1, t2, cfg)
    ensures Like(t2, t1, cfg)
  {
    hide TreeOk, FullBut, EntryAt, MarkAt;
  }

  lemma SameHead(t1: Tree, t2: Tree, cfg: Config)
    requires Like(t1, t2, cfg) && Canonical(t1) && Canonical(t2)
    ensures t1.head == t2.head
  {
    LikeSym(t1, t2, cfg);
    if t1.head.Child? || t2.head.Child? {
      assert TreeOk(t1, cfg) && TreeOk(t2, cfg);
      hide Like, TreeOk;
      if t1.head.Child? { NotHigher(t2, t1, cfg); }
      NotHigher(t1, t2, cfg);
      NotHigher(t2, t1, cfg);
      HeadZero(t1, cfg);
      HeadZero(t2, cfg);
    } else {
      assert EntryAt(t1, 0) == EntryAt(t2, 0);
    }
  }

  lemma HeadZero(t: Tree, cfg: Config)
    requires TreeOk(t, cfg) && t.head.Child?
    ensures t.head.place.prefix == 0
  {
    NodeAt(t, t.head.place);
  }

  lemma NodesThere(t1: Tree, t2: Tree, cfg: Config, n: Place)
    requires Like(t1, t2, cfg) && t1.head == t2.head && n in t1.nodes
    ensures n in t2.nodes
  {
    SizedAt(t1, n);
    CountAt(t1, n);
    LevelAt(t1, n);
    var o := SlotInUse(t1.nodes[n].slots);
    hide Counts, Marked, NodeOk;
    var j := Inhabited(t1, n, o);
    assert EntryAt(t2, j) != Null;
    InReach(t2, j, 0);
    Ancestor(t2, j, 0, n.level);
  }

  ghost predicate SameKeys(t1: Tree, t2: Tree, cfg: Config) {
    Like(t1, t2, cfg) && t1.head == t2.head && t1.nodes.Keys == t2.nodes.Keys
  }

  lemma SameSlot(t1: Tree, t2: Tree, cfg: Config, n: Place, o: Offset)
    requires SameKeys(t1, t2, cfg) && n in t1.nodes && n in t2.nodes
    ensures Sized(t1.nodes[n]) && Sized(t2.nodes[n]) && t1.nodes[n].slots[o] == t2.nodes[n].slots[o]
  {
    SizedAt(t1, n);
    SizedAt(t2, n);
    SlotAtPlace(t1, n, o);
    SlotAtPlace(t2, n, o);
    hide Shape, Counts, Marked, EntryAt, MarkAt, Canonical;
    if n.level == 0 {
      var j := n.prefix * 64 + o;
      SplitPrefix(n.prefix, o);
      EntryHere(t1, n, o, j);
      EntryHere(t2, n, o, j);
      assert EntryAt(t1, j) == EntryAt(t2, j);
    } else {
      if t1.nodes[n].slots[o] == Null { ChildIsNew(t1, n, o); }
      if t2.nodes[n].slots[o] == Null { ChildIsNew(t2, n, o); }
    }
  }

  lemma SameBit(t1: Tree, t2: Tree, cfg: Config, n: Place, m: Mark, o: Offset)
    requires SameKeys(t1, t2, cfg) && n in t1.nodes && n in t2.nodes
    ensures Sized(t1.nodes[n]) && Sized(t2.nodes[n]) && t1.nodes[n].marks[m][o] == t2.nodes[n].marks[m][o]
  {
    SizedAt(t1, n);
    SizedAt(t2, n);
    hide Shape, Counts, Marked, EntryAt, MarkAt, Canonical;
    if t1.nodes[n].marks[m][o] {
      var j := SetBelow(t1, cfg, m, n, o);
      if !t2.nodes[n].marks[m][o] { ClearBelow(t2, cfg, m, n, o, j); }
    } else if t2.nodes[n].marks[m][o] {
      var j := SetBelow(t2, cfg, m, n, o);
      ClearBelow(t1, cfg, m, n, o, j);
    }
  }

  lemma SameNodes(t1: Tree, t2: Tree, cfg: Config, n: Place)
    requires SameKeys(t1, t2, cfg) && n in t1.nodes && n in t2.nodes
    ensures t1.nodes[n] == t2.nodes[n]
  {
    hide Shape, Marked, EntryAt, MarkAt, Canonical, Tally;
    SameSlots(t1, t2, cfg, n);
    SameMarks(t1, t2, cfg, n);
    SameParent(t1, t2, n);
    CountAt(t1, n);
    CountAt(t2, n);
  }

  lemma SameParent(t1: Tree, t2: Tree, n: Place)
    requires Shape(t1) && Shape(t2) && t1.head == t2.head && n in t1.nodes && n in t2.nodes
    ensures t1.nodes[n].parent == t2.nodes[n].parent && t1.nodes[n].offset == t2.nodes[n].offset
  {
    NodeAt(t1, n);
    NodeAt(t2, n);
    hide Shape;
  }

  lemma SameSlots(t1: Tree, t2: Tree, cfg: Config, n: Place)
    requires SameKeys(t1, t2, cfg) && n in t1.nodes && n in t2.nodes
    ensures t1.nodes[n].slots == t2.nodes[n].slots
  {
    hide SameKeys;
    var a, b := t1.nodes[n], t2.nodes[n];
    SameSlot(t1, t2, cfg, n, 0);
    forall o: nat | o < 64 ensures a.slots[o] == b.slots[o] { SameSlot(t1, t2, cfg, n, o); }
  }

  lemma SameMarks(t1: Tree, t2: Tree, cfg: Config, n: Place)
    requires SameKeys(t1, t2, cfg) && n in t1.nodes && n in t2.nodes
    ensures t1.nodes[n].marks == t2.nodes[n].marks
  {
    hide SameKeys;
    var a, b := t1.nodes[n], t2.nodes[n];
    SameSlot(t1, t2, cfg, n, 0);
    forall m: nat | m < 3 ensures a.marks[m] == b.marks[m] {
      forall o: nat | o < 64 ensures a.marks[m][o] == b.marks[m][o] { SameBit(t1, t2, cfg, n, m, o); }
    }
  }

  lemma SameRoot(t1: Tree, t2: Tree, cfg: Config, m: Mark)
    requires Like(t1, t2, cfg) && t1.head == t2.head && t1.nodes == t2.nodes
    ensures |t1.marks| == 3 && |t2.marks| == 3 && t1.marks[m] == t2.marks[m]
  {
    RootAt(t1, cfg, m);
    RootAt(t2, cfg, m);
    assert MarkAt(t1, cfg, m, 0) == MarkAt(t2, cfg, m, 0);
  }

  /** Two canonical trees with the same entries and marks are the same tree. */
  lemma CanonicalUnique(t1: Tree, t2: Tree, cfg: Config)
    requires Like(t1, t2, cfg) && Canonical(t1) && Canonical(t2)
    ensures t1 == t2
  {
    hide Like, Canonical;
    SameHead(t1, t2, cfg);
    AlikeUnique(t1, t2, cfg);
  }

  /** With the same head, that is so whatever the head. */
  lemma AlikeUnique(t1: Tree, t2: Tree, cfg: Config)
    requires Like(t1, t2, cfg) && t1.head == t2.head
    ensures t1 == t2
  {
    hide Like;
    LikeSym(t1, t2, cfg);
    LikeRoots(t1, t2, cfg);
    forall n ensures n in t1.nodes <==> n in t2.nodes {
      if n in t1.nodes { NodesThere(t1, t2, cfg, n); }
      if n in t2.nodes { NodesThere(t2, t1, cfg, n); }
    }
    assert t1.nodes.Keys == t2.nodes.Keys;
    forall n | n in t1.nodes ensures t1.nodes[n] == t2.nodes[n] { SameNodes(t1, t2, cfg, n); }
    assert t1.nodes == t2.nodes;
    forall m: nat | m < 3 ensures t1.marks[m] == t2.marks[m] { SameRoot(t1, t2, cfg, m); }
    assert t1.marks == t2.marks;
  }

  lemma LikeRoots(t1: Tree, t2: Tree, cfg: Config)
    requires Like(t1, t2, cfg)
    ensures |t1.marks| == 3 && |t2.marks| == 3
  {}

  /** An empty root is an empty array, in either form. */
  lemma EmptyIff(t: Tree, cfg: Config)
    requires TreeOk(t, cfg) && (Canonical(t) || Tall(t))
    ensures t.head == Null <==> forall i: nat :: EntryAt(t, i) == Null
  {
    if t.head.Child? {
      if Tall(t) {
        assert Over(0, 0) == Place(0, 0);
        assert EntryAt(t, 0) != Null;
      } else {
        var j := HighEntry(t);
      }
    } else {
      assert EntryAt(t, 0) == t.head;
    }
  }
}
