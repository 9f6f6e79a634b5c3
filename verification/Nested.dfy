/** Nested bucket tables (rhashtable.c): when one large array cannot be had, the
    buckets are spread over pages of pages. */
module Nested {
  import opened Common

  /** A page's slot: nothing yet, a page below, or a bucket with its nulls marker. */
  datatype Slot = Empty | Sub(page: nat) | Bucket(marker: nat)

  datatype Leaf = Leaf(page: nat, index: nat)

  // ------------------------------------------------------------------- arithmetic

  /** h >> k and h & (2^k - 1), for a = 2^k. */
  function Quot(h: nat, a: nat): nat
    requires a > 0
  {
    QuotNat(h, a);
    h / a
  }

  function Rem(h: nat, a: nat): (r: nat)
    requires a > 0
    ensures r < a
  {
    h % a
  }

  lemma QuotNat(h: nat, a: nat)
    requires a > 0
    ensures h / a >= 0
  {
    var q := h / a;
    assert h == q * a + h % a;
    if q <= -1 { AtLeast(-q, a); }
  }

  lemma QuotPositive(x: nat, a: nat)
    requires 0 < a <= x
    ensures x / a >= 1
  {
    var y: nat := x - a;
    QuotNat(y, a);
    assert y == (y / a) * a + y % a;
    assert x == (y / a + 1) * a + y % a;
    DivIs(x, a, y / a + 1, y % a);
  }

  lemma NotAbove(d: int, n: int)
    requires d >= 0 && n >= 0
    ensures (-d) * n <= 0
  {
    assert d * n >= 0;
  }

  /** Taking the low part off in two steps is taking it off at once. */
  lemma SplitTwice(h: nat, a: nat, b: nat)
    requires a > 0 && b > 0
    ensures a * b > 0 && Quot(Quot(h, a), b) == Quot(h, a * b) && Rem(h, a * b) == Rem(h, a) + a * Rem(Quot(h, a), b)
  {
    var q, r := Quot(Quot(h, a), b), Rem(Quot(h, a), b);
    assert h / a == q * b + r;
    var k := h / a;
    assert h == k * a + h % a;
    Regroup(q, b, r, a, h % a);
    assert h == q * (a * b) + (a * r + h % a);
    Below(a, b, r, h % a);
    DivIs(h, a * b, q, a * r + h % a);
  }

  lemma Regroup(q: nat, b: nat, r: nat, a: nat, l: nat)
    ensures (q * b + r) * a + l == q * (a * b) + (a * r + l)
  {
    assert (q * b + r) * a == q * b * a + r * a;
    assert q * b * a == q * (a * b);
  }

  lemma Below(a: nat, b: nat, r: nat, l: nat)
    requires l < a && r < b
    ensures a * r + l < a * b
  {
    var c := b - r - 1;
    assert a * b == a * (r + 1 + c) == a * r + a + a * c;
  }

  // ---------------------------------------------------------------------- digits

  /** The geometry: 2^shift slots a page, 2^bits buckets. */
  datatype Shape = Shape(shift: nat, bits: nat)

  ghost predicate ShapeOk(g: Shape) { g.shift >= 1 && g.bits >= g.shift + 1 }

  /** (ilog2(nbuckets) - 1) % shift + 1. */
  function Nest(g: Shape): nat
    requires ShapeOk(g)
  {
    (g.bits - 1) % g.shift + 1
  }

  /** How many pages there are on the way to a bucket, below the root. */
  function Depth(g: Shape): nat
    requires ShapeOk(g)
  {
    (g.bits - 1) / g.shift
  }

  lemma NestIs(g: Shape)
    requires ShapeOk(g)
    ensures Depth(g) >= 1 && 1 <= Nest(g) <= g.shift && g.bits == Nest(g) + Depth(g) * g.shift
  {
    var x := g.bits - 1;
    assert x == (x / g.shift) * g.shift + x % g.shift;
    QuotPositive(x, g.shift);
  }

  /** The bits of the hash used up after j indices. */
  function Used(g: Shape, j: nat): nat
    requires ShapeOk(g)
  {
    if j == 0 then 0 else Nest(g) + (j - 1) * g.shift
  }

  function Width(g: Shape, j: nat): nat
    requires ShapeOk(g)
  {
    if j == 0 then Nest(g) else g.shift
  }

  lemma UsedStep(g: Shape, j: nat)
    requires ShapeOk(g)
    ensures Used(g, j + 1) == Used(g, j) + Width(g, j) && Width(g, j) <= g.shift
  {
    NestIs(g);
    if j > 0 { assert j * g.shift == (j - 1) * g.shift + g.shift; }
  }

  /** The index at step j. */
  function Digit(g: Shape, h: nat, j: nat): nat
    requires ShapeOk(g)
  {
    Rem(Quot(h, Pow2(Used(g, j))), Pow2(Width(g, j)))
  }

  /** The first j indices. */
  function Way(g: Shape, h: nat, j: nat): (w: seq<nat>)
    requires ShapeOk(g)
    ensures |w| == j
  {
    if j == 0 then [] else Way(g, h, j - 1) + [Digit(g, h, j - 1)]
  }

  /** The bucket bits a way down stands for. */
  function Number(g: Shape, w: seq<nat>): nat
    requires ShapeOk(g)
    decreases |w|
  {
    if w == [] then 0
    else Number(g, w[..|w| - 1]) + w[|w| - 1] * Pow2(Used(g, |w| - 1))
  }

  /** The way down reads off the low bits of the hash. */
  lemma NoDigits(g: Shape, h: nat)
    requires ShapeOk(g)
    ensures Used(g, 0) == 0 && Pow2(Used(g, 0)) == 1 && Rem(h, 1) == 0
  {
    assert h % 1 == 0;
  }

  lemma {:induction false} WayNumber(g: Shape, h: nat, j: nat)
    requires ShapeOk(g)
    ensures Number(g, Way(g, h, j)) == Rem(h, Pow2(Used(g, j)))
  {
    hide Pow2, Quot, Rem, Used, Width;
    if j == 0 {
      NoDigits(g, h);
    } else {
      WayNumber(g, h, j - 1);
      UsedStep(g, j - 1);
      var a, b := Pow2(Used(g, j - 1)), Pow2(Width(g, j - 1));
      Pow2Adds(Used(g, j - 1), Width(g, j - 1));
      SplitTwice(h, a, b);
      assert Way(g, h, j)[..j - 1] == Way(g, h, j - 1);
      Commute(a, Rem(Quot(h, a), b));
    }
  }

  lemma Commute(a: nat, b: nat)
    ensures a * b == b * a
  {}

  /** The slot in the last page. */
  function Last(g: Shape, h: nat): nat
    requires ShapeOk(g)
  {
    Quot(h, Pow2(Used(g, Depth(g))))
  }

  /** The way down and the slot together are the hash: distinct hashes below the
      size have distinct slots, and no slot is outside its page. */
  lemma RoundTrip(g: Shape, h: nat)
    requires ShapeOk(g) && h < Pow2(g.bits)
    ensures Number(g, Way(g, h, Depth(g))) + Last(g, h) * Pow2(Used(g, Depth(g))) == h
    ensures Last(g, h) < Pow2(g.shift)
  {
    hide Pow2, Way, Number, Used, Width, Nest, Depth, Quot, Rem;
    var k := Depth(g);
    WayNumber(g, h, k);
    UsedAll(g);
    Pow2Adds(Used(g, k), g.shift);
    Fits(h, Pow2(Used(g, k)), Pow2(g.shift));
  }

  lemma UsedAll(g: Shape)
    requires ShapeOk(g)
    ensures Used(g, Depth(g)) + g.shift == g.bits
  {
    NestIs(g);
    UsedStep(g, Depth(g));
  }

  lemma Fits(h: nat, a: nat, b: nat)
    requires a > 0 && h < a * b
    ensures Rem(h, a) + Quot(h, a) * a == h && Quot(h, a) < b
  {
    if Quot(h, a) >= b { Over(Quot(h, a), a, b, Rem(h, a)); }
  }

  lemma Over(q: nat, a: nat, b: nat, r: nat)
    requires q >= b
    ensures q * a + r >= a * b
  {
    assert q * a == b * a + (q - b) * a;
  }

  lemma DistinctSlots(g: Shape, h1: nat, h2: nat)
    requires ShapeOk(g) && h1 < Pow2(g.bits) && h2 < Pow2(g.bits) && h1 != h2
    ensures Way(g, h1, Depth(g)) != Way(g, h2, Depth(g)) || Last(g, h1) != Last(g, h2)
  {
    RoundTrip(g, h1);
    RoundTrip(g, h2);
  }

  // ---------------------------------------------------------------------- the table

  /** ways[p] are the indices that lead to page p; page 0 is the root. */
  ghost predicate WaysOk(ways: seq<seq<nat>>) {
    && |ways| > 0 && ways[0] == []
    && (forall p, q :: 0 <= p < q < |ways| ==> ways[p] != ways[q])
    && (forall q :: 0 <= q < |ways| && ways[q] != [] ==> exists p :: 0 <= p < |ways| && ways[p] == ways[q][..|ways[q]| - 1])
  }

  /** (i << shifted) | nhash on the last level. */
  function Marker(g: Shape, w: seq<nat>, i: nat): nat
    requires ShapeOk(g)
  {
    Number(g, w) + i * Pow2(Used(g, Depth(g)))
  }

  /** A page just allocated. */
  ghost predicate FreshPage(g: Shape, w: seq<nat>, page: seq<Slot>)
    requires ShapeOk(g)
  {
    && |page| == Pow2(g.shift)
    && forall k :: 0 <= k < |page| ==> page[k] == if |w| == Depth(g) then Bucket(Marker(g, w, k)) else Empty
  }

  /** Above the last level a slot is empty or leads to the page with that index
      added to the way; on it every bucket has the marker of its own number. */
  ghost predicate SlotOk(g: Shape, ways: seq<seq<nat>>, w: seq<nat>, i: nat, s: Slot)
    requires ShapeOk(g)
  {
    if |w| == Depth(g) then s == Bucket(Marker(g, w, i))
    else if s == Empty then w + [i] !in ways
    else s.Sub? && s.page < |ways| && ways[s.page] == w + [i]
  }

  ghost predicate PageOk(g: Shape, ways: seq<seq<nat>>, w: seq<nat>, page: seq<Slot>)
    requires ShapeOk(g)
  {
    && |page| == Pow2(g.shift) && |w| <= Depth(g)
    && forall i :: 0 <= i < |page| ==> SlotOk(g, ways, w, i, page[i])
  }

  ghost predicate PagesOk(g: Shape, pages: seq<seq<Slot>>, ways: seq<seq<nat>>)
    requires ShapeOk(g)
  {
    && |pages| == |ways| && WaysOk(ways)
    && forall p :: 0 <= p < |pages| ==> PageOk(g, ways, ways[p], pages[p])
  }

  /** The pages on the way to a page are there. */
  lemma {:induction false} Prefix(ways: seq<seq<nat>>, w: seq<nat>, j: nat)
    requires WaysOk(ways) && w in ways && j <= |w|
    ensures w[..j] in ways
    decreases |w| - j
  {
    if j < |w| {
      Prefix(ways, w, j + 1);
      assert w[..j + 1][..j] == w[..j];
    } else {
      assert w[..j] == w;
    }
  }

  lemma {:induction false} WayPrefix(g: Shape, h: nat, j: nat, k: nat)
    requires ShapeOk(g) && j <= k
    ensures Way(g, h, k)[..j] == Way(g, h, j)
  {
    if j < k { WayPrefix(g, h, j, k - 1); }
  }

  /** A page more under an empty slot. */
  lemma AddPage(g: Shape, pages: seq<seq<Slot>>, ways: seq<seq<nat>>, p: nat, i: nat, page: seq<Slot>)
    requires ShapeOk(g) && PagesOk(g, pages, ways) && p < |pages| && i < |pages[p]| && |ways[p]| < Depth(g) && pages[p][i] == Empty
    requires FreshPage(g, ways[p] + [i], page)
    ensures PagesOk(g, pages[p := pages[p][i := Sub(|pages|)]] + [page], ways + [ways[p] + [i]])
  {
    hide Marker, Pow2, Depth;
    var w := ways[p] + [i];
    var ways' := ways + [w];
    assert PageOk(g, ways, ways[p], pages[p]);
    assert SlotOk(g, ways, ways[p], i, pages[p][i]);
    NewWay(ways, p, i);
    var pages' := pages[p := pages[p][i := Sub(|pages|)]] + [page];
    forall q | 0 <= q < |pages'| ensures PageOk(g, ways', ways'[q], pages'[q]) {
      if q < |pages| {
        assert PageOk(g, ways, ways[q], pages[q]);
        OldPage(g, ways, p, i, q, pages[q]);
      } else {
        NewPage(g, ways, w, page);
      }
    }
  }

  lemma OldPage(g: Shape, ways: seq<seq<nat>>, p: nat, i: nat, q: nat, page: seq<Slot>)
    requires ShapeOk(g) && WaysOk(ways) && p < |ways| && q < |ways| && PageOk(g, ways, ways[q], page) && |ways[p]| < Depth(g)
    ensures PageOk(g, ways + [ways[p] + [i]], ways[q], if p == q && i < |page| then page[i := Sub(|ways|)] else page)
  {
    hide Marker, Pow2, Depth;
    var w := ways[p] + [i];
    var ways' := ways + [w];
    var page' := if p == q && i < |page| then page[i := Sub(|ways|)] else page;
    forall k | 0 <= k < |page'| ensures SlotOk(g, ways', ways[q], k, page'[k]) {
      assert SlotOk(g, ways, ways[q], k, page[k]);
      if ways[q] + [k] == w { SameWay(ways, q, p, k, i); }
    }
  }

  lemma NewPage(g: Shape, ways: seq<seq<nat>>, w: seq<nat>, page: seq<Slot>)
    requires ShapeOk(g) && WaysOk(ways) && w !in ways && |w| <= Depth(g) && FreshPage(g, w, page)
    ensures PageOk(g, ways + [w], w, page)
  {
    hide Marker, Pow2, Depth;
    forall k | 0 <= k < |page| ensures SlotOk(g, ways + [w], w, k, page[k]) {
      NotBelow(ways, w, k);
    }
  }

  lemma SameWay(ways: seq<seq<nat>>, q: nat, p: nat, k: nat, i: nat)
    requires WaysOk(ways) && p < |ways| && q < |ways| && ways[q] + [k] == ways[p] + [i]
    ensures q == p && k == i
  {
    assert ways[q] == (ways[q] + [k])[..|ways[q]|] == (ways[p] + [i])[..|ways[p]|] == ways[p];
    assert (ways[q] + [k])[|ways[q]|] == k;
  }

  lemma NotBelow(ways: seq<seq<nat>>, w: seq<nat>, k: nat)
    requires WaysOk(ways) && w !in ways
    ensures w + [k] !in ways + [w]
  {
    assert |w + [k]| != |w| && (w + [k])[..|w|] == w;
    if w + [k] in ways { Prefix(ways, w + [k], |w|); }
  }

  lemma NewWay(ways: seq<seq<nat>>, p: nat, i: nat)
    requires WaysOk(ways) && p < |ways| && ways[p] + [i] !in ways
    ensures WaysOk(ways + [ways[p] + [i]])
  {
    var w := ways[p] + [i];
    var ways' := ways + [w];
    forall q | 0 <= q < |ways'| && ways'[q] != [] ensures exists r :: 0 <= r < |ways'| && ways'[r] == ways'[q][..|ways'[q]| - 1] {
      if q < |ways| {
        var r :| 0 <= r < |ways| && ways[r] == ways[q][..|ways[q]| - 1];
        assert ways'[r] == ways[r];
      } else {
        assert ways'[p] == w[..|w| - 1];
      }
    }
  }

  class Table {
    const g: Shape
    var pages: seq<seq<Slot>>
    ghost var ways: seq<seq<nat>>

    ghost predicate Valid()
      reads this
    {
      ShapeOk(g) && PagesOk(g, pages, ways)
    }

    /** bp_nested_bucket_table_alloc, for at least twice the slots of a page. */
    constructor (g: Shape)
      requires ShapeOk(g)
      ensures Valid() && this.g == g && |pages| == 1
    {
      this.g := g;
      pages := [seq(Pow2(g.shift), _ => Empty)];
      ways := [[]];
      new;
      NestIs(g);
    }

    lemma RootIs()
      requires Valid()
      ensures |pages| == |ways| && |pages| > 0 && ways[0] == []
    {}

    lemma PageIs(p: nat)
      requires Valid() && p < |pages|
      ensures |ways| == |pages| && PageOk(g, ways, ways[p], pages[p])
    {}

    /** bp_rht_bucket_nested: the slot of a bucket below the table's size, if its
        page is there. */
    method Lookup(hash: nat) returns (r: Option<Leaf>)
      requires Valid() && hash < Pow2(g.bits)
      ensures r.Some? <==> Way(g, hash, Depth(g)) in ways
      ensures r.Some? ==>
                r.value.page < |pages| == |ways| && ways[r.value.page] == Way(g, hash, Depth(g)) && r.value.index == Last(g, hash)
      ensures r.Some? ==> r.value.index < |pages[r.value.page]| && pages[r.value.page][r.value.index] == Bucket(hash)
    {
      hide Pow2, Number, Way, Nest, Depth, Used, Digit, PagesOk, Quot, Rem, SizeLeft, PageOk;
      var nest := Nest(g);
      RootIs();
      var index := Rem(hash, Pow2(nest));
      var size := g.bits - nest;
      var subhash := Quot(hash, Pow2(nest));
      ghost var j := 1;
      NestIs(g);
      FirstIndex(g, hash);
      FirstStep(g, hash, size);
      var ntbl: Option<nat> := Child(0, index, hash, 0);
      while ntbl.Some? && size > g.shift
        invariant 1 <= j <= Depth(g) && size == SizeLeft(g, j)
        invariant subhash == Quot(hash, Pow2(Used(g, j)))
        invariant ntbl.Some? ==> ntbl.value < |pages| == |ways| && ways[ntbl.value] == Way(g, hash, j)
        invariant ntbl == None ==> Way(g, hash, Depth(g)) !in ways
        decreases size
      {
        NextIndex(g, hash, j, size);
        index := Rem(subhash, Pow2(g.shift));
        ntbl := Child(ntbl.value, index, hash, j);
        size := size - g.shift;
        subhash := Quot(subhash, Pow2(g.shift));
        j := j + 1;
      }
      if ntbl == None {
        return None;
      }
      LastPage(g, j, size);
      r := Some(Leaf(ntbl.value, subhash));
      LeafIs(ntbl.value, hash);
    }

    /** The page a slot leads to. */
    method Child(p: nat, index: nat, ghost hash: nat, ghost j: nat) returns (c: Option<nat>)
      requires Valid() && p < |pages| == |ways| && j < Depth(g) && ways[p] == Way(g, hash, j) && index == Digit(g, hash, j)
      requires index < Pow2(g.shift)
      ensures c.Some? ==> c.value < |pages| && ways[c.value] == Way(g, hash, j + 1)
      ensures c == None ==> Way(g, hash, Depth(g)) !in ways
    {
      PageIs(p);
      var s := pages[p][index];
      assert SlotOk(g, ways, ways[p], index, s);
      assert Way(g, hash, j + 1) == ways[p] + [index];
      if s == Empty {
        WayPrefix(g, hash, j + 1, Depth(g));
        if Way(g, hash, Depth(g)) in ways { Prefix(ways, Way(g, hash, Depth(g)), j + 1); }
        return None;
      }
      c := Some(s.page);
    }

    /** bp_nested_table_alloc: the page below a slot, a new one if there is none;
        the buckets of a page on the last level get their markers. */
    method Alloc(p: nat, index: nat, shifted: nat, nhash: nat) returns (c: Option<nat>)
      requires Valid() && p < |pages| == |ways| && |ways[p]| < Depth(g) && index < |pages[p]|
      requires shifted == (if |ways[p]| + 1 == Depth(g) then Used(g, Depth(g)) else 0) && nhash == Number(g, ways[p] + [index])
      modifies this
      ensures Valid() && Grown(old(pages), old(ways))
      ensures c.Some? ==> c.value < |pages| == |ways| && ways[c.value] == old(ways[p]) + [index]
    {
      hide Pow2, Number, Used, Depth, PagesOk, WaysOk, FreshPage;
      PageIs(p);
      assert SlotOk(g, ways, ways[p], index, pages[p][index]);
      if pages[p][index].Sub? {
        return Some(pages[p][index].page);
      }
      var ok: bool := *;
      if !ok {
        return None;
      }
      var page := MakePage(shifted, nhash, ways[p] + [index]);
      AddPage(g, pages, ways, p, index, page);
      c := Some(|pages|);
      pages := pages[p := pages[p][index := Sub(|pages|)]] + [page];
      ways := ways + [ways[p] + [index]];
    }

    /** kzalloc, and the markers if shifted says that this is the last level. */
    method MakePage(shifted: nat, nhash: nat, ghost w: seq<nat>) returns (page: seq<Slot>)
      requires ShapeOk(g) && |w| <= Depth(g) && shifted == (if |w| == Depth(g) then Used(g, Depth(g)) else 0) && nhash == Number(g, w)
      ensures FreshPage(g, w, page)
    {
      UsedSome(g);
      hide Pow2, Number, Used, Depth;
      page := [];
      while |page| < Pow2(g.shift)
        invariant |page| <= Pow2(g.shift)
        invariant forall k :: 0 <= k < |page| ==> page[k] == if |w| == Depth(g) then Bucket(Marker(g, w, k)) else Empty
        decreases Pow2(g.shift) - |page|
      {
        page := page + [if shifted != 0 then Bucket(|page| * Pow2(shifted) + nhash) else Empty];
      }
    }

    /** Pages only come, and keep their places. */
    ghost predicate Grown(pages0: seq<seq<Slot>>, ways0: seq<seq<nat>>)
      reads this
    {
      |pages0| == |ways0| <= |ways| && ways[..|ways0|] == ways0
    }

    /** bp_rht_bucket_nested_insert: the slot of a bucket, with whatever pages it
        takes; none if memory runs out. */
    method Insert(hash0: nat) returns (r: Option<Leaf>)
      requires Valid() && hash0 < Pow2(g.bits)
      modifies this
      ensures Valid() && Grown(old(pages), old(ways))
      ensures r.Some? ==>
                r.value.page < |pages| == |ways| && ways[r.value.page] == Way(g, hash0, Depth(g)) && r.value.index == Last(g, hash0)
      ensures r.Some? ==> r.value.index < |pages[r.value.page]| && pages[r.value.page][r.value.index] == Bucket(hash0)
    {
      hide Pow2, Number, Way, Nest, Depth, Used, Digit, PagesOk, Quot, Rem, SizeLeft, PageOk;
      ghost var pages0, ways0 := pages, ways;
      var nest := Nest(g);
      var index := Rem(hash0, Pow2(nest));
      var size := g.bits - nest;
      var hash := Quot(hash0, Pow2(nest));
      var nhash := index;
      var shifted := nest;
      ghost var j := 1;
      NestIs(g);
      RootIs();
      FirstIndex(g, hash0);
      FirstStep(g, hash0, size);
      PageIs(0);
      var ntbl: Option<nat> := Alloc(0, index, if size <= g.shift then shifted else 0, nhash);
      while ntbl.Some? && size > g.shift
        invariant Valid() && Grown(pages0, ways0)
        invariant 1 <= j <= Depth(g) && size == SizeLeft(g, j)
        invariant hash == Quot(hash0, Pow2(Used(g, j))) && nhash == Number(g, Way(g, hash0, j)) && shifted == Used(g, j)
        invariant ntbl.Some? ==> ntbl.value < |pages| == |ways| && ways[ntbl.value] == Way(g, hash0, j)
        decreases size
      {
        NextIndex(g, hash0, j, size);
        NextStep(g, hash0, j, size);
        PageIs(ntbl.value);
        index := Rem(hash, Pow2(g.shift));
        size := size - g.shift;
        hash := Quot(hash, Pow2(g.shift));
        nhash := nhash + index * Pow2(shifted);
        shifted := shifted + g.shift;
        ntbl := Alloc(ntbl.value, index, if size <= g.shift then shifted else 0, nhash);
        j := j + 1;
      }
      if ntbl == None {
        return None;
      }
      LastPage(g, j, size);
      r := Some(Leaf(ntbl.value, hash));
      LeafIs(ntbl.value, hash0);
    }

    lemma LeafIs(p: nat, hash: nat)
      requires Valid() && p < |pages| && hash < Pow2(g.bits) && ways[p] == Way(g, hash, Depth(g))
      ensures Last(g, hash) < |pages[p]| && pages[p][Last(g, hash)] == Bucket(hash)
    {
      PageIs(p);
      RoundTrip(g, hash);
      assert SlotOk(g, ways, ways[p], Last(g, hash), pages[p][Last(g, hash)]);
    }
  }

  /** The first index is the low bits. */
  lemma FirstIndex(g: Shape, h: nat)
    requires ShapeOk(g)
    ensures Rem(h, Pow2(Nest(g))) == Digit(g, h, 0) < Pow2(g.shift)
    ensures Way(g, h, 0) == [] && Quot(h, Pow2(Nest(g))) == Quot(h, Pow2(Used(g, 1)))
  {
    NestIs(g);
    if Nest(g) < g.shift { Pow2Mono(Nest(g), g.shift); }
    assert h / Pow2(0) == h;
  }

  /** What is left of the size, in bits, after j indices. */
  function SizeLeft(g: Shape, j: nat): int
    requires ShapeOk(g)
  {
    (Depth(g) - j + 1) * g.shift
  }

  /** Each further index is the next ones. */
  lemma NextIndex(g: Shape, h: nat, j: nat, size: int)
    requires ShapeOk(g) && j >= 1 && size == SizeLeft(g, j) && size > g.shift
    ensures Rem(Quot(h, Pow2(Used(g, j))), Pow2(g.shift)) == Digit(g, h, j) < Pow2(g.shift)
    ensures Quot(Quot(h, Pow2(Used(g, j))), Pow2(g.shift)) == Quot(h, Pow2(Used(g, j + 1)))
    ensures j < Depth(g) && size - g.shift == SizeLeft(g, j + 1)
  {
    UsedStep(g, j);
    Pow2Adds(Used(g, j), g.shift);
    SplitTwice(h, Pow2(Used(g, j)), Pow2(g.shift));
    var d: int := Depth(g) - j + 1;
    Sum(d, g.shift);
    if d <= 1 { NotAbove(1 - d, g.shift); }
  }

  lemma LastPage(g: Shape, j: nat, size: int)
    requires ShapeOk(g) && j <= Depth(g) && size == SizeLeft(g, j) && size <= g.shift
    ensures j == Depth(g)
  {
    var d: int := Depth(g) - j + 1;
    Sum(d, g.shift);
    if d >= 2 { AtLeast(d - 1, g.shift); }
  }

  lemma Sum(d: int, n: nat)
    ensures d * n == n + (d - 1) * n
  {}

  lemma UsedSome(g: Shape)
    requires ShapeOk(g)
    ensures Used(g, Depth(g)) > 0
  {
    NestIs(g);
  }

  /** What the first and each further step hand to the allocation. */
  lemma FirstStep(g: Shape, h: nat, size: int)
    requires ShapeOk(g) && size == g.bits - Nest(g)
    ensures Nest(g) == Used(g, 1) && size == SizeLeft(g, 1) && (size <= g.shift <==> Depth(g) == 1) && Depth(g) > 0
    ensures Way(g, h, 1) == [Rem(h, Pow2(Nest(g)))] && Number(g, [] + [Rem(h, Pow2(Nest(g)))]) == Rem(h, Pow2(Nest(g)))
    ensures Number(g, Way(g, h, 1)) == Rem(h, Pow2(Nest(g)))
  {
    NestIs(g);
    if Depth(g) == 1 { LastPage(g, 1, size); } else { assert Depth(g) * g.shift == g.shift + (Depth(g) - 1) * g.shift; }
    FirstIndex(g, h);
    var i := Rem(h, Pow2(Nest(g)));
    assert Way(g, h, 1) == Way(g, h, 0) + [Digit(g, h, 0)];
    assert [i][..0] == [];
    assert Number(g, [i]) == Number(g, []) + i * Pow2(Used(g, 0));
    assert [] + [i] == [i];
  }

  lemma NextStep(g: Shape, h: nat, j: nat, size: int)
    requires ShapeOk(g) && 1 <= j < Depth(g) && size == SizeLeft(g, j)
    ensures var i := Digit(g, h, j);
            && Way(g, h, j + 1) == Way(g, h, j) + [i]
            && Number(g, Way(g, h, j) + [i]) == Number(g, Way(g, h, j)) + i * Pow2(Used(g, j))
    ensures Used(g, j + 1) == Used(g, j) + g.shift
    ensures size - g.shift <= g.shift <==> j + 1 == Depth(g)
  {
    UsedStep(g, j);
    var w, i := Way(g, h, j), Digit(g, h, j);
    assert (w + [i])[..j] == w;
    SizeStep(Depth(g) - j, g.shift);
    hide Depth, Pow2, Digit, Used;
  }

  lemma SizeStep(d: nat, shift: nat)
    requires d >= 1 && shift >= 1
    ensures (d + 1) * shift - shift <= shift <==> d == 1
  {
    assert (d + 1) * shift == d * shift + shift;
    if d >= 2 { assert d * shift == 2 * shift + (d - 2) * shift; }
  }
}
