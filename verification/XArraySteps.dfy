/** The single changes the XArray's operations are made of, and what each keeps. */
module XArraySteps {
  import opened XArrayTree

  /** Where a bit or an entry is: the head, or a slot of a node. */
  datatype Spot = AtRoot | At(n: Place, o: Offset)

  // ------------------------------------------------------------- changing a mark

  function SetBit(t: Tree, n: Place, o: Offset, m: Mark, b: bool): Tree
    requires n in t.nodes && Sized(t.nodes[n])
  {
    var nd := t.nodes[n];
    t.(nodes := t.nodes[n := nd.(marks := nd.marks[m := nd.marks[m][o := b]])])
  }

  function SetRoot(t: Tree, m: Mark, b: bool): Tree
    requires |t.marks| == 3
  {
    t.(marks := t.marks[m := b])
  }

  /** Everything but marks is the same. */
  ghost predicate SameLinks(t: Tree, t': Tree) {
    && |t'.marks| == 3 && t'.head == t.head && t'.nodes.Keys == t.nodes.Keys
    && forall n :: n in t.nodes ==> SameNode(t.nodes[n], t'.nodes[n])
  }

  ghost predicate SameNode(nd: Node, nd': Node) {
    Sized(nd') && nd' == nd.(marks := nd'.marks)
  }

  lemma LinksKeep(t: Tree, t': Tree)
    requires Shape(t) && Counts(t) && SameLinks(t, t')
    ensures Shape(t') && Counts(t') && forall i: nat :: EntryAt(t', i) == EntryAt(t, i)
  {
    hide Up, Down, SlotNo;
    forall n | n in t'.nodes ensures NodeOk(t', n, t'.nodes[n]) && CountOk(t'.nodes[n]) {
      assert n in t.nodes && SameNode(t.nodes[n], t'.nodes[n]);
      NodeAt(t, n);
      var u := Up(n);
      if t.head != Child(n) { assert SameNode(t.nodes[u], t'.nodes[u]); }
      NodeLinks(t, t', n, t.nodes[n], t'.nodes[n]);
    }
    hide NodeOk;
    forall i: nat ensures EntryAt(t', i) == EntryAt(t, i) {
      if Over(i, 0) in t.nodes { assert SameNode(t.nodes[Over(i, 0)], t'.nodes[Over(i, 0)]); }
    }
  }

  lemma NodeLinks(t: Tree, t': Tree, n: Place, nd: Node, nd': Node)
    requires t'.head == t.head && t'.nodes.Keys == t.nodes.Keys && NodeOk(t, n, nd) && SameNode(nd, nd')
    requires var u := Up(n);
             t.head != Child(n) ==> u in t.nodes && SameNode(t.nodes[u], t'.nodes[u])
    ensures NodeOk(t', n, nd')
  {
    hide Up, Down, SlotNo;
    assert DownOk(t', n, nd') by {
      forall o | 0 <= o < |nd'.slots| ensures SlotOk(t', n, nd'.slots[o], o) {
        assert SlotOk(t, n, nd.slots[o], o);
      }
    }
  }

  lemma SetBitLinks(t: Tree, n: Place, o: Offset, m: Mark, b: bool)
    requires Shape(t) && n in t.nodes && Sized(t.nodes[n])
    ensures SameLinks(t, SetBit(t, n, o, m, b))
  {
    var t' := SetBit(t, n, o, m, b);
    forall q | q in t.nodes ensures SameNode(t.nodes[q], t'.nodes[q]) { SizedAt(t, q); }
  }

  lemma {:induction false} LinksJoin(t: Tree, t1: Tree, t2: Tree)
    requires SameLinks(t, t1) && SameLinks(t1, t2)
    ensures SameLinks(t, t2)
  {
    forall n | n in t.nodes ensures SameNode(t.nodes[n], t2.nodes[n]) {
      assert SameNode(t.nodes[n], t1.nodes[n]) && SameNode(t1.nodes[n], t2.nodes[n]);
    }
  }

  /** The marks m are right everywhere but at the spot. */
  ghost predicate MarkedBut(t: Tree, cfg: Config, m: Mark, spot: Spot)
    requires Shape(t)
  {
    && (spot != AtRoot ==> RootOk(t, cfg, m))
    && forall n: Place, o: Offset :: n in t.nodes && spot != At(n, o) ==>
         BitOk(t, cfg, m, t.nodes[n].slots[o], t.nodes[n].marks[m][o])
  }

  ghost predicate SpotIn(t: Tree, spot: Spot) {
    spot.At? ==> spot.n in t.nodes && Sized(t.nodes[spot.n])
  }

  /** b is a right value for the bit at the spot. */
  ghost predicate Wanted(t: Tree, cfg: Config, m: Mark, spot: Spot, b: bool)
    requires Shape(t) && SpotIn(t, spot)
  {
    match spot
    case AtRoot => RootOk(SetRoot(t, m, b), cfg, m)
    case At(n, o) => BitOk(t, cfg, m, t.nodes[n].slots[o], b)
  }

  ghost predicate BitAt(t: Tree, m: Mark, spot: Spot)
    requires Shape(t) && SpotIn(t, spot)
  {
    match spot
    case AtRoot => t.marks[m]
    case At(n, o) => t.nodes[n].marks[m][o]
  }

  /** The spot that stands for the whole of node n. */
  function UpSpot(nd: Node): Spot {
    match nd.parent
    case None => AtRoot
    case Some(u) => At(u, nd.offset % 64)
  }

  lemma UpSpotIs(t: Tree, n: Place)
    requires Shape(t) && n in t.nodes
    ensures var up := UpSpot(t.nodes[n]);
            && SpotIn(t, up)
            && (up == AtRoot <==> t.head == Child(n))
            && (up.At? ==> up.n == Up(n) && up.o == SlotNo(n) && t.nodes[up.n].slots[up.o] == Child(n))
  {
    hide Up, SlotNo, Shape, DownOk, LevelOk;
    NodeAt(t, n);
    if t.head != Child(n) { ParentHas(t, n); }
  }

  lemma FilledIn(t: Tree, cfg: Config, m: Mark, spot: Spot)
    requires Shape(t) && SpotIn(t, spot) && MarkedBut(t, cfg, m, spot) && Wanted(t, cfg, m, spot, BitAt(t, m, spot))
    ensures MarkedFor(t, cfg, m)
  {
    assert t.(marks := t.marks[m := t.marks[m]]) == t;
    forall n | n in t.nodes ensures BitsOk(t, cfg, m, n) {
      SizedAt(t, n);
      forall o: Offset ensures BitOk(t, cfg, m, t.nodes[n].slots[o], t.nodes[n].marks[m][o]) {}
      hide BitOk;
      assert forall o: nat :: o < 64 ==> (var o': Offset := o; BitOk(t, cfg, m, t.nodes[n].slots[o'], t.nodes[n].marks[m][o']));
    }
  }

  /** A bit of n that now is right leaves only n's own bit, one level up, open. */
  lemma BitStep(t: Tree, cfg: Config, n: Place, o: Offset, m: Mark, b: bool)
    requires Shape(t) && n in t.nodes && Sized(t.nodes[n]) && MarkedBut(t, cfg, m, At(n, o)) && Wanted(t, cfg, m, At(n, o), b)
    requires Shape(SetBit(t, n, o, m, b))
    ensures var t' := SetBit(t, n, o, m, b);
            var up := UpSpot(t.nodes[n]);
            SpotIn(t', up) && MarkedBut(t', cfg, m, up) && Wanted(t', cfg, m, up, Any(t'.nodes[n].marks[m]))
  {
    hide Up, Down, SlotNo;
    var t' := SetBit(t, n, o, m, b);
    var up := UpSpot(t.nodes[n]);
    UpSpotIs(t, n);
    UpSpotIs(t', n);
    forall q: Place, k: Offset | q in t'.nodes && up != At(q, k)
      ensures BitOk(t', cfg, m, t'.nodes[q].slots[k], t'.nodes[q].marks[m][k])
    {
      SizedAt(t, q);
      var e := t.nodes[q].slots[k];
      assert SlotOk(t, q, e, k) by { NodeAt(t, q); }
      if e == Child(n) { ChildSpot(t, q, k, n); }
      if q == n && k == o {
        NotOwnChild(t, n, k);
        assert BitOk(t, cfg, m, e, b);
      } else {
        assert BitOk(t, cfg, m, e, t.nodes[q].marks[m][k]);
      }
    }
    if up != AtRoot {
      assert RootOk(t', cfg, m);
    }
  }

  lemma ChildSpot(t: Tree, q: Place, k: Offset, n: Place)
    requires Shape(t) && q in t.nodes && n in t.nodes && Sized(t.nodes[q]) && t.nodes[q].slots[k] == Child(n)
    ensures UpSpot(t.nodes[n]) == At(q, k)
  {
    hide Shape, NodeOk, Up, Down, SlotNo;
    SlotAtPlace(t, q, k);
    LevelAt(t, q);
    LevelAt(t, n);
    assert t.head != Child(n);
    UpSpotIs(t, n);
    UpDown(q, k);
  }

  lemma SlotAtPlace(t: Tree, q: Place, k: Offset)
    requires Shape(t) && q in t.nodes && Sized(t.nodes[q])
    ensures SlotOk(t, q, t.nodes[q].slots[k], k)
  {
    NodeAt(t, q);
  }

  lemma SplitPrefix(p: nat, o: Offset)
    ensures (p * 64 + o) / 64 == p && (p * 64 + o) % 64 == o
  {}

  lemma NotOwnChild(t: Tree, n: Place, k: Offset)
    requires Shape(t) && n in t.nodes && Sized(t.nodes[n])
    ensures t.nodes[n].slots[k] != Child(n)
  {
    NodeAt(t, n);
    assert SlotOk(t, n, t.nodes[n].slots[k], k);
  }

  lemma MarkedOther(t: Tree, t': Tree, cfg: Config, m: Mark)
    requires Shape(t) && Shape(t') && SameLinks(t, t') && MarkedFor(t, cfg, m)
    requires t'.marks[m] == t.marks[m] && forall n :: n in t.nodes ==> t'.nodes[n].marks[m] == t.nodes[n].marks[m]
    ensures MarkedFor(t', cfg, m)
  {
    forall n | n in t'.nodes ensures BitsOk(t', cfg, m, n) {
      assert BitsOk(t, cfg, m, n) && SameNode(t.nodes[n], t'.nodes[n]);
      forall o: nat | o < 64 ensures BitOk(t', cfg, m, t'.nodes[n].slots[o], t'.nodes[n].marks[m][o]) {
        assert BitOk(t, cfg, m, t.nodes[n].slots[o], t.nodes[n].marks[m][o]);
        if t.nodes[n].slots[o].Child? { var c := t.nodes[n].slots[o].place; assert SameNode(t.nodes[c], t'.nodes[c]); }
      }
    }
    if t.head.Child? { assert SameNode(t.nodes[t.head.place], t'.nodes[t.head.place]); }
  }
}
