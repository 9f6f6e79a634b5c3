/** Setting and clearing a mark, one bit at a time up the tree (xas_set_mark and
    xas_clear_mark). */
module XArrayMarks {
  import opened XArrayTree
  import opened XArraySteps

  /** Where an operation state points: nowhere yet, past the end, an error, or a
      spot. */
  datatype Cursor = Restart | Bounds | Failed | On(spot: Spot)

  ghost function SlotAt(t: Tree, spot: Spot): Entry
    requires SpotIn(t, spot)
  {
    match spot
    case AtRoot => t.head
    case At(n, o) => t.nodes[n].slots[o]
  }

  /** The cursor has been walked to index i, as far down as the tree goes. */
  ghost predicate CursorOk(t: Tree, i: nat, cur: Cursor) {
    cur.On? ==>
      && SpotIn(t, cur.spot) && !SlotAt(t, cur.spot).Child?
      && (cur.spot == AtRoot ==> i == 0)
      && (cur.spot.At? ==> cur.spot.n == Over(i, cur.spot.n.level) && cur.spot.o == Off(i, cur.spot.n.level))
  }

  /** The slot the cursor is on holds the entry of its index. */
  lemma CursorEntry(t: Tree, i: nat, cur: Cursor)
    requires Shape(t) && CursorOk(t, i, cur) && cur.On?
    ensures EntryAt(t, i) == SlotAt(t, cur.spot)
    ensures cur.spot.At? && EntryAt(t, i) != Null ==> cur.spot.n.level == 0
  {
    if cur.spot.At? {
      var n := cur.spot.n;
      NodeAt(t, n);
      assert SlotOk(t, n, t.nodes[n].slots[cur.spot.o], cur.spot.o);
      if n.level > 0 { NothingBelow(t, i, n.level, 0); }
    }
  }

  /** Only mark m of index i changes, to b. */
  ghost predicate MarkBecomes(t: Tree, t': Tree, cfg: Config, m: Mark, i: nat, b: bool)
    requires Shape(t) && Shape(t')
  {
    forall k: Mark, j: nat :: MarkAt(t', cfg, k, j) == if k == m && j == i then b else MarkAt(t, cfg, k, j)
  }

  /** The climb: t has come from t0 and the bit at the spot is the next to become b. */
  ghost predicate Climb(t0: Tree, t: Tree, cfg: Config, m: Mark, i: nat, b: bool, start: Spot, spot: Spot) {
    && Shape(t0) && Counts(t0) && Shape(t) && Counts(t) && SameLinks(t0, t) && SpotIn(t, spot)
    && (if spot == start then t == t0 else MarkBecomes(t0, t, cfg, m, i, b))
    && (Marked(t0, cfg) ==>
          && MarkedBut(t, cfg, m, spot) && Wanted(t, cfg, m, spot, b)
          && forall k: Mark :: k != m ==> MarkedFor(t, cfg, k))
  }

  lemma LinksSelf(t: Tree)
    requires Shape(t)
    ensures SameLinks(t, t)
  {
    forall n | n in t.nodes ensures SameNode(t.nodes[n], t.nodes[n]) { SizedAt(t, n); }
  }

  lemma ClimbStart(t: Tree, cfg: Config, m: Mark, i: nat, b: bool, cur: Cursor)
    requires Shape(t) && Counts(t) && cur.On? && CursorOk(t, i, cur) && EntryAt(t, i) != Null
    ensures Climb(t, t, cfg, m, i, b, cur.spot, cur.spot)
  {
    LinksSelf(t);
    CursorEntry(t, i, cur);
    if Marked(t, cfg) {
      assert MarkedFor(t, cfg, m);
      forall n: Place, o: Offset | n in t.nodes ensures BitOk(t, cfg, m, t.nodes[n].slots[o], t.nodes[n].marks[m][o]) {
        BitsAt(t, cfg, m, n, o);
      }
    }
  }

  /** Where the leaf's bit is. */
  ghost predicate LeafSpot(t: Tree, i: nat, start: Spot) {
    if start == AtRoot then i == 0 && !t.head.Child? else start.n == Over(i, 0) && start.n in t.nodes && start.o == Off(i, 0)
  }

  lemma LeafBit(t: Tree, n: Place, o: Offset, m: Mark, b: bool, cfg: Config, i: nat)
    requires Shape(t) && n in t.nodes && Sized(t.nodes[n]) && Shape(SetBit(t, n, o, m, b)) && n == Over(i, 0) && o == Off(i, 0)
    ensures MarkBecomes(t, SetBit(t, n, o, m, b), cfg, m, i, b)
  {
    NodeAt(t, n);
    var t' := SetBit(t, n, o, m, b);
    hide NodeOk, SetBit;
    forall k: Mark, j: nat ensures MarkAt(t', cfg, k, j) == if k == m && j == i then b else MarkAt(t, cfg, k, j) {
      LeafBitAt(t, n, o, m, b, cfg, i, k, j);
    }
  }

  lemma LeafBitAt(t: Tree, n: Place, o: Offset, m: Mark, b: bool, cfg: Config, i: nat, k: Mark, j: nat)
    requires Shape(t) && n in t.nodes && Sized(t.nodes[n]) && Shape(SetBit(t, n, o, m, b)) && n == Over(i, 0) && o == Off(i, 0)
    ensures MarkAt(SetBit(t, n, o, m, b), cfg, k, j) == if k == m && j == i then b else MarkAt(t, cfg, k, j)
  {
    NodeAt(t, n);
    hide NodeOk;
    assert j == i <==> j / 64 == i / 64 && j % 64 == i % 64;
  }

  lemma InnerBit(t: Tree, n: Place, o: Offset, m: Mark, b: bool, cfg: Config)
    requires Shape(t) && n in t.nodes && Sized(t.nodes[n]) && Shape(SetBit(t, n, o, m, b)) && n.level > 0
    ensures forall k: Mark, j: nat :: MarkAt(SetBit(t, n, o, m, b), cfg, k, j) == MarkAt(t, cfg, k, j)
  {}

  /** The bit is b already, or the node's other bits hide the change: done. */
  lemma ClimbDone(t0: Tree, t: Tree, cfg: Config, m: Mark, i: nat, b: bool, start: Spot, spot: Spot)
    requires Climb(t0, t, cfg, m, i, b, start, spot) && LeafSpot(t0, i, start) && BitAt(t, m, spot) == b
    ensures MarkBecomes(t0, t, cfg, m, i, b) && (Marked(t0, cfg) ==> Marked(t, cfg))
  {
    if Marked(t0, cfg) {
      FilledIn(t, cfg, m, spot);
      assert forall k: Mark :: MarkedFor(t, cfg, k);
    }
    if spot == start {
      assert MarkAt(t0, cfg, m, i) == b by { if start.At? { LevelAt(t0, start.n); } }
    }
  }

  /** A bit is written; what is open next is the bit of its node. */
  lemma ClimbStep(t0: Tree, t: Tree, cfg: Config, m: Mark, i: nat, b: bool, start: Spot, n: Place, o: Offset)
    requires Climb(t0, t, cfg, m, i, b, start, At(n, o)) && LeafSpot(t0, i, start) && (n.level == 0 ==> At(n, o) == start)
    ensures var t' := SetBit(t, n, o, m, b);
            var up := UpSpot(t.nodes[n]);
            && Shape(t') && Counts(t') && SameLinks(t0, t') && SpotIn(t', up) && (up.At? ==> up.n.level > n.level)
            && MarkBecomes(t0, t', cfg, m, i, b)
            && (Marked(t0, cfg) ==>
                  && MarkedBut(t', cfg, m, up) && Wanted(t', cfg, m, up, Any(t'.nodes[n].marks[m]))
                  && forall k: Mark :: k != m ==> MarkedFor(t', cfg, k))
  {
    var t' := SetBit(t, n, o, m, b);
    var up := UpSpot(t.nodes[n]);
    SetBitLinks(t, n, o, m, b);
    LinksKeep(t, t');
    LinksJoin(t0, t, t');
    UpSpotIs(t, n);
    UpSpotIs(t', n);
    StepMark(t0, t, cfg, m, i, b, start, n, o);
    if Marked(t0, cfg) {
      BitStep(t, cfg, n, o, m, b);
      forall k: Mark | k != m ensures MarkedFor(t', cfg, k) {
        MarkedOther(t, t', cfg, k);
      }
    }
  }

  lemma StepMark(t0: Tree, t: Tree, cfg: Config, m: Mark, i: nat, b: bool, start: Spot, n: Place, o: Offset)
    requires Climb(t0, t, cfg, m, i, b, start, At(n, o)) && LeafSpot(t0, i, start) && (n.level == 0 ==> At(n, o) == start)
    requires Shape(SetBit(t, n, o, m, b))
    ensures MarkBecomes(t0, SetBit(t, n, o, m, b), cfg, m, i, b)
  {
    hide SetBit, Shape, Marked;
    if At(n, o) == start {
      LeafBit(t, n, o, m, b, cfg, i);
    } else {
      InnerBit(t, n, o, m, b, cfg);
    }
  }

  /** The climb reaches the root. */
  lemma ClimbRoot(t0: Tree, t: Tree, cfg: Config, m: Mark, i: nat, b: bool, start: Spot)
    requires Climb(t0, t, cfg, m, i, b, start, AtRoot) && LeafSpot(t0, i, start) && (start == AtRoot || t0.head.Child?)
    ensures var t' := SetRoot(t, m, b);
            && Shape(t') && Counts(t') && SameLinks(t0, t') && MarkBecomes(t0, t', cfg, m, i, b)
            && (Marked(t0, cfg) ==> Marked(t', cfg))
  {
    var t' := SetRoot(t, m, b);
    LinksSelf(t);
    assert SameLinks(t, t');
    LinksKeep(t, t');
    LinksJoin(t0, t, t');
    hide Shape, Counts, MarkBecomes, MarkedFor;
    RootMark(t0, t, cfg, m, i, b, start);
    if Marked(t0, cfg) {
      forall k: Mark ensures MarkedFor(t', cfg, k) {
        if k != m { MarkedOther(t, t', cfg, k); } else { RootMarked(t, cfg, m, b); }
      }
    }
  }

  lemma RootMarked(t: Tree, cfg: Config, m: Mark, b: bool)
    requires Shape(t) && Shape(SetRoot(t, m, b)) && MarkedBut(t, cfg, m, AtRoot) && Wanted(t, cfg, m, AtRoot, b)
    ensures MarkedFor(SetRoot(t, m, b), cfg, m)
  {
    var t' := SetRoot(t, m, b);
    assert MarkedBut(t', cfg, m, AtRoot) by {
      forall n: Place, o: Offset | n in t'.nodes ensures BitOk(t', cfg, m, t'.nodes[n].slots[o], t'.nodes[n].marks[m][o]) {
        assert BitOk(t, cfg, m, t.nodes[n].slots[o], t.nodes[n].marks[m][o]);
      }
    }
    assert t'.marks[m] == b && SetRoot(t', m, b) == t';
    FilledIn(t', cfg, m, AtRoot);
  }

  lemma RootMark(t0: Tree, t: Tree, cfg: Config, m: Mark, i: nat, b: bool, start: Spot)
    requires Climb(t0, t, cfg, m, i, b, start, AtRoot) && LeafSpot(t0, i, start) && (start == AtRoot || t0.head.Child?)
    requires Shape(SetRoot(t, m, b))
    ensures MarkBecomes(t0, SetRoot(t, m, b), cfg, m, i, b)
  {
    hide Marked;
    var t' := SetRoot(t, m, b);
    forall k: Mark, j: nat ensures MarkAt(t', cfg, k, j) == if k == m && j == i then b else MarkAt(t0, cfg, k, j) {
      if start != AtRoot {
        assert MarkAt(t', cfg, k, j) == MarkAt(t, cfg, k, j);
      }
    }
  }

  /** How far the spot is from the root. */
  function Rest(head: Entry, spot: Spot): nat {
    if spot.At? && head.Child? && spot.n.level <= head.place.level then head.place.level + 1 - spot.n.level else 0
  }

  ghost predicate Climbing(t0: Tree, t: Tree, cfg: Config, m: Mark, i: nat, b: bool, start: Spot, spot: Spot) {
    && Climb(t0, t, cfg, m, i, b, start, spot) && LeafSpot(t0, i, start) && SpotIn(t, spot) && |t.marks| == 3
    && (if spot.At? then spot.n.level == 0 ==> spot == start else start == AtRoot || t0.head.Child?)
    && (start == AtRoot ==> spot == start)
  }

  lemma ClimbBegins(t: Tree, cfg: Config, m: Mark, i: nat, b: bool, cur: Cursor)
    requires Shape(t) && Counts(t) && cur.On? && CursorOk(t, i, cur) && EntryAt(t, i) != Null
    ensures Climbing(t, t, cfg, m, i, b, cur.spot, cur.spot)
  {
    ClimbStart(t, cfg, m, i, b, cur);
    CursorEntry(t, i, cur);
  }

  /** The node's bits together now are b: on to the bit of the node itself. */
  lemma ClimbOn(t0: Tree, t: Tree, cfg: Config, m: Mark, i: nat, b: bool, start: Spot, n: Place, o: Offset)
    requires Climbing(t0, t, cfg, m, i, b, start, At(n, o))
    requires Any(SetBit(t, n, o, m, b).nodes[n].marks[m]) == b
    ensures t.nodes[n].parent.Some? ==> t.nodes[n].offset < 64
    ensures Climbing(t0, SetBit(t, n, o, m, b), cfg, m, i, b, start, UpSpot(t.nodes[n]))
    ensures Rest(t.head, UpSpot(t.nodes[n])) < Rest(t.head, At(n, o))
  {
    ClimbStep(t0, t, cfg, m, i, b, start, n, o);
    var up := UpSpot(t.nodes[n]);
    NodeAt(t, n);
    LevelAt(t, n);
    UpSpotIs(t, n);
    if up.At? { LevelAt(t, up.n); }
    hide Shape, Counts, Marked, NodeOk, MarkBecomes, SameLinks, MarkedBut, Wanted;
    assert up != start;
  }

  /** Another bit of the node is still set: its own bit stays. */
  lemma ClimbStays(t0: Tree, t: Tree, cfg: Config, m: Mark, i: nat, start: Spot, n: Place, o: Offset)
    requires Climbing(t0, t, cfg, m, i, false, start, At(n, o)) && Any(SetBit(t, n, o, m, false).nodes[n].marks[m])
    ensures var t' := SetBit(t, n, o, m, false);
            && Shape(t') && Counts(t') && SameLinks(t0, t') && MarkBecomes(t0, t', cfg, m, i, false)
            && (Marked(t0, cfg) ==> Marked(t', cfg))
  {
    hide Shape, Counts, SameLinks, MarkBecomes, BitAt;
    var t' := SetBit(t, n, o, m, false);
    ClimbStep(t0, t, cfg, m, i, false, start, n, o);
    if Marked(t0, cfg) {
      var up := UpSpot(t.nodes[n]);
      var k :| 0 <= k < |t'.nodes[n].marks[m]| && t'.nodes[n].marks[m][k];
      assert t.nodes[n].marks[m][k];
      assert Any(t.nodes[n].marks[m]);
      UpBit(t, cfg, m, n, o);
      SetBitAside(t, m, n, o, false, up);
      hide SetBit, MarkedBut, Wanted, BitAt;
      FilledIn(t', cfg, m, up);
      hide MarkedFor;
      assert forall k: Mark :: MarkedFor(t', cfg, k);
    }
  }

  /** The bit that stands for n tells of its bits, while it is one of these that is open. */
  lemma UpBit(t: Tree, cfg: Config, m: Mark, n: Place, o: Offset)
    requires Shape(t) && n in t.nodes && MarkedBut(t, cfg, m, At(n, o))
    ensures SpotIn(t, UpSpot(t.nodes[n])) && UpSpot(t.nodes[n]) != At(n, o)
    ensures BitAt(t, m, UpSpot(t.nodes[n])) == Any(t.nodes[n].marks[m])
  {
    UpSpotIs(t, n);
    var up := UpSpot(t.nodes[n]);
    if up.At? {
      assert BitOk(t, cfg, m, t.nodes[up.n].slots[up.o], t.nodes[up.n].marks[m][up.o]);
    }
  }

  lemma SetBitAside(t: Tree, m: Mark, n: Place, o: Offset, b: bool, spot: Spot)
    requires Shape(t) && n in t.nodes && Sized(t.nodes[n]) && SpotIn(t, spot) && spot != At(n, o)
    requires Shape(SetBit(t, n, o, m, b)) && SpotIn(SetBit(t, n, o, m, b), spot)
    ensures BitAt(SetBit(t, n, o, m, b), m, spot) == BitAt(t, m, spot)
  {}

  /** The climb ends where the bit is b already. */
  lemma ClimbEnds(t0: Tree, t: Tree, cfg: Config, m: Mark, i: nat, b: bool, start: Spot, spot: Spot)
    requires Climbing(t0, t, cfg, m, i, b, start, spot)
    requires Shape(t) && BitAt(t, m, spot) == b
    ensures Shape(t) && Counts(t) && SameLinks(t0, t) && MarkBecomes(t0, t, cfg, m, i, b)
    ensures Marked(t0, cfg) ==> Marked(t, cfg)
  {
    ClimbDone(t0, t, cfg, m, i, b, start, spot);
  }

  lemma ClimbLinked(t0: Tree, t: Tree, cfg: Config, m: Mark, i: nat, b: bool, start: Spot, spot: Spot)
    requires Climbing(t0, t, cfg, m, i, b, start, spot)
    ensures Shape(t) && Counts(t) && SpotIn(t, spot) && |t.marks| == 3
  {}

  lemma ClimbTop(t0: Tree, t: Tree, cfg: Config, m: Mark, i: nat, b: bool, start: Spot)
    requires Climbing(t0, t, cfg, m, i, b, start, AtRoot)
    ensures |t.marks| == 3
    ensures var t' := SetRoot(t, m, b);
            && Shape(t') && Counts(t') && SameLinks(t0, t') && MarkBecomes(t0, t', cfg, m, i, b)
            && (Marked(t0, cfg) ==> Marked(t', cfg))
  {
    ClimbRoot(t0, t, cfg, m, i, b, start);
  }

  lemma LinksCursor(t: Tree, t': Tree, i: nat, cur: Cursor)
    requires Shape(t) && SameLinks(t, t') && CursorOk(t, i, cur)
    ensures CursorOk(t', i, cur)
  {
    if cur.On? && cur.spot.At? { assert SameNode(t.nodes[cur.spot.n], t'.nodes[cur.spot.n]); }
  }
}
