/** Finding the next marked index: what the mark bits of a node tell about the
    indices below it. */
module XArrayFind {
  import opened Common
  import opened XArrayTree
  import opened XArraySteps
  import opened XArrayMarks
  import opened XArrayWalk

  // ------------------------------------------------------------- marks are exact

  ghost predicate Under(j: nat, n: Place, o: Offset) {
    Over(j, n.level) == n && Off(j, n.level) == o
  }

  /** A clear bit: nothing below is marked. */
  lemma {:induction false} ClearBelow(t: Tree, cfg: Config, m: Mark, n: Place, o: Offset, j: nat)
    requires TreeOk(t, cfg) && n in t.nodes && Sized(t.nodes[n]) && !t.nodes[n].marks[m][o] && Under(j, n, o)
    ensures !MarkAt(t, cfg, m, j)
    decreases n.level
  {
    hide Shape, Counts, Marked, MarkAt, Any;
    BitsAt(t, cfg, m, n, o);
    SlotAtPlace(t, n, o);
    var e := t.nodes[n].slots[o];
    if n.level == 0 {
      MarkHere(t, cfg, m, n, o, j);
    } else if e == Null {
      MarkNowhere(t, cfg, m, n, o, j);
    } else {
      WalkDown(t, j, n);
      SizedAt(t, e.place);
      NoneSet(t.nodes[e.place].marks[m], Off(j, n.level - 1));
      ClearBelow(t, cfg, m, e.place, Off(j, n.level - 1), j);
    }
  }

  lemma NoneSet(bits: seq<bool>, o: Offset)
    requires !Any(bits) && |bits| == 64
    ensures !bits[o]
  {}

  lemma MarkHere(t: Tree, cfg: Config, m: Mark, n: Place, o: Offset, j: nat)
    requires Shape(t) && n in t.nodes && Sized(t.nodes[n]) && n.level == 0 && Under(j, n, o)
    ensures MarkAt(t, cfg, m, j) == t.nodes[n].marks[m][o]
  {
    LevelAt(t, n);
  }

  lemma MarkNowhere(t: Tree, cfg: Config, m: Mark, n: Place, o: Offset, j: nat)
    requires Shape(t) && n in t.nodes && Sized(t.nodes[n]) && n.level > 0 && Under(j, n, o) && t.nodes[n].slots[o] == Null
    ensures MarkAt(t, cfg, m, j) == Default(cfg, m)
  {
    LevelAt(t, n);
    NothingBelow(t, j, n.level, 0);
  }

  /** A set bit: some index below is marked. */
  lemma {:induction false} SetBelow(t: Tree, cfg: Config, m: Mark, n: Place, o: Offset) returns (j: nat)
    requires TreeOk(t, cfg) && n in t.nodes && Sized(t.nodes[n]) && t.nodes[n].marks[m][o]
    ensures Under(j, n, o) && MarkAt(t, cfg, m, j)
    decreases n.level
  {
    hide Shape, Counts, Marked, MarkAt, Any;
    BitsAt(t, cfg, m, n, o);
    SlotAtPlace(t, n, o);
    FirstUnder(n, o);
    j := Base(n.prefix * 64 + o, n.level);
    var e := t.nodes[n].slots[o];
    if n.level == 0 {
      MarkHere(t, cfg, m, n, o, j);
    } else if e == Null {
      MarkNowhere(t, cfg, m, n, o, j);
    } else {
      var c := e.place;
      SizedAt(t, c);
      var k := SomeSet(t.nodes[c].marks[m]);
      j := SetBelow(t, cfg, m, c, k);
      UnderUp(j, n, o, k);
    }
  }

  lemma SomeSet(bits: seq<bool>) returns (o: Offset)
    requires Any(bits) && |bits| == 64
    ensures bits[o]
  {
    o :| bits[o];
  }

  lemma FirstUnder(n: Place, o: Offset)
    ensures Under(Base(n.prefix * 64 + o, n.level), n, o)
  {
    SplitPrefix(n.prefix, o);
    ShrBase(n.prefix * 64 + o, n.level);
  }

  lemma UnderUp(j: nat, n: Place, o: Offset, k: Offset)
    requires n.level > 0 && Under(j, Down(n, o), k)
    ensures Under(j, n, o)
  {
    UpDown(n, o);
    OverUp(j, n.level - 1);
  }

  /** A mark bit is set if and only if an index below it is marked. */
  lemma MarksExact(t: Tree, cfg: Config, m: Mark, n: Place, o: Offset)
    requires TreeOk(t, cfg) && n in t.nodes && Sized(t.nodes[n])
    ensures t.nodes[n].marks[m][o] <==> exists j: nat :: Under(j, n, o) && MarkAt(t, cfg, m, j)
  {
    if t.nodes[n].marks[m][o] {
      var j := SetBelow(t, cfg, m, n, o);
    } else {
      forall j: nat | Under(j, n, o) ensures !MarkAt(t, cfg, m, j) {
        ClearBelow(t, cfg, m, n, o, j);
      }
    }
  }

  // ------------------------------------------------------------------ the search

  lemma {:induction false} ShrMono(x: nat, y: nat, l: nat)
    requires x <= y
    ensures Shr(x, l) <= Shr(y, l)
  {
    if l > 0 { ShrMono(x, y, l - 1); }
  }

  /** The search is at slot o of node n with index x; o is 64 past the last one. */
  ghost predicate Pos(t: Tree, x: nat, n: Place, o: nat) {
    && n in t.nodes && Sized(t.nodes[n]) && o <= 64
    && (if o < 64 then Over(x, n.level) == n && Off(x, n.level) == o else x == Base((n.prefix + 1) * 64, n.level))
  }

  /** No index from a up to b is marked. */
  ghost predicate NoneIn(t: Tree, cfg: Config, m: Mark, a: nat, b: nat)
    requires Shape(t)
  {
    forall j: nat :: a <= j < b ==> !MarkAt(t, cfg, m, j)
  }

  /** xas_move_index. */
  function MoveIndex(x: nat, l: nat, o: nat): nat { Base(Shr(x, l + 1) * 64 + o, l) }

  /** Slots from o up to off have their bits clear: the index may move to off. */
  lemma MoveOn(t: Tree, cfg: Config, m: Mark, x: nat, n: Place, o: Offset, off: nat, a: nat, skip: bool)
    requires TreeOk(t, cfg) && Pos(t, x, n, o) && o < off <= 64 && NoneIn(t, cfg, m, a, x)
    requires forall k: nat :: o <= k < off && !(skip && k == o) ==> !t.nodes[n].marks[m][k]
    requires skip ==> a == MoveIndex(x, n.level, o + 1)
    ensures var x' := MoveIndex(x, n.level, off);
            && x < x' && Pos(t, x', n, off) && NoneIn(t, cfg, m, a, x') && (skip ==> a <= x')
            && x' <= Base((n.prefix + 1) * 64, n.level)
  {
    hide Shape, Counts, Marked, MarkAt;
    var l := n.level;
    var y := n.prefix * 64 + off;
    var x' := MoveIndex(x, l, off);
    assert Shr(x, l + 1) == n.prefix && x' == Base(y, l);
    ShrBase(y, l);
    ShrBelow(x, y, l);
    SplitMove(n.prefix, off);
    BaseMono(y, (n.prefix + 1) * 64, l);
    BaseMono(n.prefix * 64 + o + 1, y, l);
    hide TreeOk, Base;
    forall j: nat | a <= j < x' && TreeOk(t, cfg) ensures !MarkAt(t, cfg, m, j) {
      if j >= x { MoveNone(t, cfg, m, x, n, o, off, j, skip, x'); }
    }
  }

  lemma SplitMove(p: nat, off: nat)
    requires off <= 64
    ensures off < 64 ==> (p * 64 + off) / 64 == p && (p * 64 + off) % 64 == off
    ensures off == 64 ==> p * 64 + off == (p + 1) * 64
  {}

  lemma {:induction false} BaseMono(x: nat, y: nat, l: nat)
    requires x <= y
    ensures Base(x, l) <= Base(y, l)
    decreases l
  {
    if l > 0 { BaseMono(x * 64, y * 64, l - 1); }
  }

  lemma MoveNone(t: Tree, cfg: Config, m: Mark, x: nat, n: Place, o: Offset, off: nat, j: nat, skip: bool, x': nat)
    requires TreeOk(t, cfg) && Pos(t, x, n, o) && o < off <= 64 && x <= j < x' == Base(n.prefix * 64 + off, n.level)
    requires forall k: nat :: o <= k < off && !(skip && k == o) ==> !t.nodes[n].marks[m][k]
    requires skip ==> Base(n.prefix * 64 + o + 1, n.level) <= j
    ensures !MarkAt(t, cfg, m, j)
  {
    hide Shape, Counts, Marked, MarkAt, Base;
    var l := n.level;
    ShrBelow(j, n.prefix * 64 + off, l);
    ShrMono(x, j, l);
    ShrBelow(j, n.prefix * 64 + o + 1, l);
    var s := Shr(j, l);
    SlotOf(s, n.prefix, Shr(x, l), o);
    var k: Offset := s - n.prefix * 64;
    SplitPrefix(n.prefix, k);
    assert skip ==> k != o;
    ClearBelow(t, cfg, m, n, k, j);
  }

  lemma SlotOf(s: nat, p: nat, sx: nat, o: Offset)
    requires sx / 64 == p && sx % 64 == o && sx <= s
    ensures p * 64 + o <= s
  {}

  /** Past the last slot of a node, the search goes on in its parent. */
  lemma MoveUp(t: Tree, x: nat, n: Place)
    requires Shape(t) && Pos(t, x, n, 64)
    ensures t.nodes[n].offset < 64
    ensures t.nodes[n].parent == None <==> t.head == Child(n)
    ensures t.nodes[n].parent.Some? ==>
              t.nodes[n].parent.value.level == n.level + 1 && Pos(t, x, t.nodes[n].parent.value, t.nodes[n].offset + 1)
    ensures t.head == Child(n) ==> x == Base(64, n.level)
  {
    NodeAt(t, n);
    hide Shape, DownOk, LevelOk;
    if t.head != Child(n) {
      ParentHas(t, n);
      assert n.prefix / 64 == Up(n).prefix && t.nodes[n].offset == n.prefix % 64;
      ParentPos(t, x, n, Up(n));
    }
  }

  lemma ParentPos(t: Tree, x: nat, n: Place, u: Place)
    requires u in t.nodes && Sized(t.nodes[u]) && u == Place(n.level + 1, n.prefix / 64) && x == Base((n.prefix + 1) * 64, n.level)
    ensures Pos(t, x, u, n.prefix % 64 + 1)
  {
    Carry(n.prefix);
    ShrBase((n.prefix + 1) * 64, n.level);
    assert x == Base(n.prefix + 1, u.level);
  }

  lemma Carry(p: nat)
    ensures if p % 64 + 1 == 64 then (p / 64 + 1) * 64 == p + 1 else (p + 1) / 64 == p / 64 && (p + 1) % 64 == p % 64 + 1
    ensures (p + 1) * 64 / 64 == p + 1
  {}

  /** Past the whole tree there are no entries, and only the default marks. */
  lemma Beyond(t: Tree, cfg: Config, m: Mark, j: nat)
    requires Shape(t) && (if t.head.Child? then Shr(j, t.head.place.level) >= 64 else j > 0)
    ensures EntryAt(t, j) == Null && MarkAt(t, cfg, m, j) == Default(cfg, m)
  {
    if t.head.Child? && Over(j, 0) in t.nodes { InReach(t, j, 0); }
  }

  /** A slot with its bit set and no child under it: the index is marked. */
  lemma Hit(t: Tree, cfg: Config, m: Mark, x: nat, n: Place, o: Offset)
    requires TreeOk(t, cfg) && Pos(t, x, n, o) && t.nodes[n].marks[m][o] && !t.nodes[n].slots[o].Child?
    ensures MarkAt(t, cfg, m, x) && CursorOk(t, x, On(At(n, o))) && EntryAt(t, x) == t.nodes[n].slots[o]
    ensures t.nodes[n].slots[o] == Null ==> Default(cfg, m)
  {
    BitsAt(t, cfg, m, n, o);
    LevelAt(t, n);
    SlotAtPlace(t, n, o);
    CursorEntry(t, x, On(At(n, o)));
    if n.level > 0 { NothingBelow(t, x, n.level, 0); }
  }

  /** xas_find_chunk: the next set bit from `from` on, or 64. */
  method NextBit(bits: seq<bool>, from: nat) returns (o: nat)
    requires |bits| == 64 && from <= 64
    ensures from <= o <= 64 && (o < 64 ==> bits[o])
    ensures forall k :: from <= k < o ==> !bits[k]
  {
    o := from;
    while o < 64 && !bits[o]
      invariant from <= o <= 64 && forall k :: from <= k < o ==> !bits[k]
    {
      o := o + 1;
    }
  }

  /** How much of the search is left, index apart. */
  function Turns(top: nat, level: nat, o: nat): nat {
    if o == 64 && level <= top then top + 1 + (top - level) + 1 else level
  }

  /** From x on there is nothing. */
  ghost predicate PastEnd(t: Tree, cfg: Config, x: nat)
    requires Shape(t)
  {
    && (forall j: nat :: j >= x ==> EntryAt(t, j) == Null)
    && (forall j: nat, k: Mark :: j >= x ==> MarkAt(t, cfg, k, j) == Default(cfg, k))
  }

  /** The outcome of a search from `from` to max that ends at x with cur. */
  ghost predicate Found(t: Tree, cfg: Config, m: Mark, from: nat, max: nat, x: nat, cur: Cursor, e: Entry)
    requires Shape(t)
  {
    match cur
    case Failed => false
    case Restart => NoneIn(t, cfg, m, from, max + 1)
    case Bounds => from <= x <= max && NoneIn(t, cfg, m, from, x) && PastEnd(t, cfg, x)
    case On(spot) =>
      from <= x <= max && NoneIn(t, cfg, m, from, x) && MarkAt(t, cfg, m, x) && CursorOk(t, x, cur) && e == EntryAt(t, x)
  }

  /** What holds at the top of the search loop. */
  ghost predicate Searching(t: Tree, cfg: Config, m: Mark, from: nat, x: nat, n: Place, o: nat, advance: bool) {
    && TreeOk(t, cfg) && t.head.Child? && Pos(t, x, n, o) && NoneIn(t, cfg, m, from, x)
    && n.level <= t.head.place.level && x <= Base(64, t.head.place.level)
    && (if advance then o < 64 && from == MoveIndex(x, n.level, o + 1) else from <= x)
  }

  /** Where a search with this cursor starts: a walked cursor is taken as done with,
      and so is all of the slot that it is on. */
  function After(x: nat, cur: Cursor): nat {
    if !cur.On? then x
    else if cur.spot == AtRoot then x + 1
    else MoveIndex(x, cur.spot.n.level, cur.spot.o + 1)
  }

  /** At a leaf that is the next index. Above, where a walk stops at an empty slot,
      the rest of the slot is passed over; no marked index is among it, unless all of
      it is marked free. */
  lemma PassedOver(t: Tree, cfg: Config, m: Mark, x: nat, cur: Cursor)
    requires TreeOk(t, cfg) && CursorOk(t, x, cur) && cur.On?
    ensures x < After(x, cur) && (cur.spot.At? && cur.spot.n.level == 0 ==> After(x, cur) == x + 1)
    ensures NoneIn(t, cfg, m, x + 1, After(x, cur)) <==> !Default(cfg, m) || After(x, cur) == x + 1
  {
    hide Shape, Counts, Marked, MarkAt, Base, Shr;
    AfterIs(t, x, cur);
    if cur.spot.At? && cur.spot.n.level > 0 {
      forall j: nat | x < j < After(x, cur) ensures MarkAt(t, cfg, m, j) == Default(cfg, m) {
        PassedMark(t, cfg, m, x, cur, j);
      }
      if x + 1 < After(x, cur) && Default(cfg, m) { assert MarkAt(t, cfg, m, x + 1); }
    }
  }

  lemma AfterIs(t: Tree, x: nat, cur: Cursor)
    requires CursorOk(t, x, cur) && cur.On?
    ensures x < After(x, cur) && (cur.spot.At? && cur.spot.n.level == 0 ==> After(x, cur) == x + 1)
    ensures cur.spot.At? ==> After(x, cur) == Base(Shr(x, cur.spot.n.level) + 1, cur.spot.n.level)
  {
    if cur.spot.At? {
      var l := cur.spot.n.level;
      SlotIs(Shr(x, l), cur.spot.n.prefix, cur.spot.o);
      ShrBelow(x, Shr(x, l) + 1, l);
    }
  }

  lemma PassedMark(t: Tree, cfg: Config, m: Mark, x: nat, cur: Cursor, j: nat)
    requires TreeOk(t, cfg) && CursorOk(t, x, cur) && cur.On? && cur.spot.At? && cur.spot.n.level > 0 && x < j < After(x, cur)
    ensures MarkAt(t, cfg, m, j) == Default(cfg, m)
  {
    hide Shape, Counts, Marked, MarkAt, Base, Shr, After;
    var n, o := cur.spot.n, cur.spot.o;
    AfterIs(t, x, cur);
    ShrBelow(j, Shr(x, n.level) + 1, n.level);
    ShrMono(x, j, n.level);
    SizedAt(t, n);
    SlotAtPlace(t, n, o);
    MarkNowhere(t, cfg, m, n, o, j);
  }

  lemma SlotIs(s: nat, p: nat, o: Offset)
    requires s / 64 == p && s % 64 == o
    ensures s == p * 64 + o
  {}

  lemma {:induction false} BelowTop(t: Tree, n: Place, k: nat)
    requires Shape(t) && n in t.nodes && t.head.Child? && k == t.head.place.level - n.level
    ensures Base((n.prefix + 1) * 64, n.level) <= Base(64, t.head.place.level)
    decreases k
  {
    LevelAt(t, n);
    if t.head == Child(n) {
      NodeAt(t, n);
    } else {
      hide Shape, Base, Up;
      ParentHas(t, n);
      LevelAt(t, Up(n));
      BelowTop(t, Up(n), k - 1);
      EndsInside(n);
    }
  }

  /** What a node covers ends no later than what the node above it covers. */
  lemma EndsInside(n: Place)
    ensures Base((n.prefix + 1) * 64, n.level) <= Base((Up(n).prefix + 1) * 64, n.level + 1)
  {
    BaseMono(n.prefix + 1, (Up(n).prefix + 1) * 64, n.level + 1);
  }

  lemma SearchUp(t: Tree, cfg: Config, m: Mark, from: nat, x: nat, n: Place)
    requires Searching(t, cfg, m, from, x, n, 64, false)
    ensures n in t.nodes && t.nodes[n].offset < 64
    ensures t.nodes[n].parent.Some? ==>
              var u := t.nodes[n].parent.value;
              Searching(t, cfg, m, from, x, u, t.nodes[n].offset + 1, false) && u.level == n.level + 1
    ensures t.nodes[n].parent == None ==> x == Base(64, t.head.place.level) && t.head == Child(n)
  {
    hide Shape, Counts, Marked, NoneIn;
    MoveUp(t, x, n);
    if t.nodes[n].parent.Some? { LevelAt(t, t.nodes[n].parent.value); }
  }

  lemma SearchOn(t: Tree, cfg: Config, m: Mark, from: nat, x: nat, n: Place, o: nat, advance: bool, off: nat)
    requires Searching(t, cfg, m, from, x, n, o, advance) && o < off <= 64
    requires forall k: nat :: o <= k < off && !(advance && k == o) ==> !t.nodes[n].marks[m][k]
    ensures var x' := MoveIndex(x, n.level, off);
            x < x' && Searching(t, cfg, m, from, x', n, off, false)
  {
    hide Shape, Counts, Marked, MoveIndex, MarkAt, Base;
    MoveOn(t, cfg, m, x, n, o, off, from, advance);
    BelowTop(t, n, t.head.place.level - n.level);
  }

  lemma SearchDown(t: Tree, cfg: Config, m: Mark, from: nat, x: nat, n: Place, o: nat, c: Place)
    requires Searching(t, cfg, m, from, x, n, o, false) && o < 64 && t.nodes[n].slots[o] == Child(c)
    ensures n.level > 0 && c.level == n.level - 1 && Searching(t, cfg, m, from, x, c, Off(x, c.level), false)
  {
    hide Shape, Counts, Marked, MarkAt, NoneIn;
    WalkDown(t, x, n);
    SizedAt(t, c);
  }

  /** The search has left the tree at its end. */
  lemma SearchEnds(t: Tree, cfg: Config, m: Mark, from: nat, x: nat, max: nat, cur: Cursor, e: Entry)
    requires Shape(t) && NoneIn(t, cfg, m, from, x) && from <= x
    requires if t.head.Child? then x == Base(64, t.head.place.level) || Shr(x, t.head.place.level) >= 64 else x > 0
    requires cur == if x > max then Restart else Bounds
    ensures Found(t, cfg, m, from, max, x, cur, e)
  {
    hide Shape, NoneIn, PastEnd;
    if x > max {
      NoneShorter(t, cfg, m, from, x, max + 1);
    } else {
      EndsThere(t, cfg, x);
    }
  }

  lemma EndsThere(t: Tree, cfg: Config, x: nat)
    requires Shape(t)
    requires if t.head.Child? then x == Base(64, t.head.place.level) || Shr(x, t.head.place.level) >= 64 else x > 0
    ensures PastEnd(t, cfg, x)
  {
    forall j: nat | j >= x ensures EntryAt(t, j) == Null { NoneThere(t, cfg, x, j, FREE); }
    forall j: nat, k: Mark | j >= x ensures MarkAt(t, cfg, k, j) == Default(cfg, k) { NoneThere(t, cfg, x, j, k); }
  }

  lemma NoneThere(t: Tree, cfg: Config, x: nat, j: nat, k: Mark)
    requires Shape(t) && j >= x
    requires if t.head.Child? then x == Base(64, t.head.place.level) || Shr(x, t.head.place.level) >= 64 else x > 0
    ensures EntryAt(t, j) == Null && MarkAt(t, cfg, k, j) == Default(cfg, k)
  {
    hide Shape, EntryAt, MarkAt, Base, Shr;
    if t.head.Child? {
      ShrBase(64, t.head.place.level);
      ShrMono(x, j, t.head.place.level);
    }
    Beyond(t, cfg, k, j);
  }

  lemma NoneShorter(t: Tree, cfg: Config, m: Mark, a: nat, b: nat, c: nat)
    requires Shape(t) && NoneIn(t, cfg, m, a, b) && c <= b
    ensures NoneIn(t, cfg, m, a, c)
  {
    hide Shape, MarkAt;
  }

  lemma SearchHits(t: Tree, cfg: Config, m: Mark, from: nat, x: nat, n: Place, o: Offset, max: nat)
    requires Searching(t, cfg, m, from, x, n, o, false) && t.nodes[n].marks[m][o] && !t.nodes[n].slots[o].Child? && x <= max
    ensures Found(t, cfg, m, from, max, x, On(At(n, o)), t.nodes[n].slots[o])
    ensures t.nodes[n].slots[o] == Null ==> Default(cfg, m)
  {
    hide Shape, Counts, Marked, MarkAt, EntryAt, CursorOk, NoneIn;
    Hit(t, cfg, m, x, n, o);
  }

  lemma SearchGivesUp(t: Tree, cfg: Config, m: Mark, from: nat, x: nat, n: Place, o: nat, advance: bool, max: nat, e: Entry)
    requires Searching(t, cfg, m, from, x, n, o, advance) && x > max
    ensures Found(t, cfg, m, from, max, x, Restart, e)
  {}

  lemma SearchFromTop(t: Tree, cfg: Config, m: Mark, x: nat)
    requires TreeOk(t, cfg) && t.head.Child? && Shr(x, t.head.place.level) < 64
    ensures Searching(t, cfg, m, x, x, t.head.place, Shr(x, t.head.place.level), false)
  {
    HeadOver(t, x);
    SizedAt(t, t.head.place);
    ShrBelow(x, 64, t.head.place.level);
  }

  lemma SearchFromCursor(t: Tree, cfg: Config, m: Mark, x: nat, cur: Cursor)
    requires TreeOk(t, cfg) && cur.On? && cur.spot.At? && CursorOk(t, x, cur)
    ensures Searching(t, cfg, m, After(x, cur), x, cur.spot.n, cur.spot.o, true)
  {
    PassedOver(t, cfg, m, x, cur);
    LevelAt(t, cur.spot.n);
    InReach(t, x, cur.spot.n.level);
    ShrBelow(x, 64, t.head.place.level);
  }

  lemma SearchMeans(t: Tree, cfg: Config, m: Mark, from: nat, x: nat, n: Place, o: nat, advance: bool)
    requires Searching(t, cfg, m, from, x, n, o, advance)
    ensures n in t.nodes && Sized(t.nodes[n]) && o <= 64 && t.head.Child? && n.level <= t.head.place.level &&
            x <= Base(64, t.head.place.level)
    ensures advance ==> o < 64
  {}
}
