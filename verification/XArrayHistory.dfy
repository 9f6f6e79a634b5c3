/** Histories of an XArray: what stores, erases and changes of marks leave behind,
    as a function of the history, and when two histories leave the same tree. */
module XArrayHistory {
  import opened Common
  import opened XArrayTree
  import opened XArraySteps
  import opened XArrayMarks
  import opened XArrayGrow
  import opened XArrayWalk
  import opened XArrayCanon
  import opened XArray

  datatype Op =
    | Store(i: nat, e: Entry)
    | Erase(i: nat)
    | SetMark(i: nat, m: Mark)
    | ClearMark(i: nat, m: Mark)

  /** What is in the slots, and whether entry 0 is alone in a node of its own. In a
      zero-busy array, slot 0 may hold a reserved entry or nothing for the same
      contents. */
  datatype Form = Form(slots: map<nat, Entry>, tall: bool)

  function Get(slots: map<nat, Entry>, i: nat): Entry { if i in slots then slots[i] else Null }

  ghost predicate FormOk(f: Form) {
    (forall i :: i in f.slots ==> f.slots[i] != Null && !f.slots[i].Child?) && (f.slots == map[] ==> !f.tall)
  }

  /** Storing e at i, or erasing. */
  function With(f: Form, cfg: Config, i: nat, e: Entry): Form {
    if e != Null then
      var grown := if cfg.zeroBusy && f.slots == map[] && i > 0 then map[0 := Zero] else f.slots;
      Form(grown[i := e], if f.slots == map[] then i == 0 && e == Zero else i == 0 && f.tall)
    else if i !in f.slots then f
    else
      var left := f.slots - {i};
      Form(if cfg.zeroBusy && i > 0 && left == map[0 := Zero] then map[] else left, false)
  }

  function FormAfter(ops: seq<Op>, cfg: Config): Form {
    if ops == [] then Form(map[], false) else FormStep(FormAfter(ops[..|ops| - 1], cfg), cfg, ops[|ops| - 1])
  }

  function FormStep(f: Form, cfg: Config, op: Op): Form {
    match op
    case Store(i, e) => With(f, cfg, i, Stored(cfg, e))
    case Erase(i) => With(f, cfg, i, Null)
    case _ => f
  }

  function MarkAfter(ops: seq<Op>, cfg: Config, m: Mark, i: nat): bool {
    if ops == [] then Default(cfg, m) && !(cfg.zeroBusy && i == 0)
    else
      var rest := ops[..|ops| - 1];
      var before, present := MarkAfter(rest, cfg, m, i), i in FormAfter(rest, cfg).slots;
      match ops[|ops| - 1]
      case Store(j, e) =>
        if j == i && cfg.trackFree && m == FREE then false
        else if j == i && Stored(cfg, e) == Null && present then Default(cfg, m)
        else before
      case Erase(j) => if j == i && present then Default(cfg, m) else before
      case SetMark(j, k) => if j == i && k == m && present then true else before
      case ClearMark(j, k) => if j == i && k == m && present then false else before
  }

  /** Entry 0 of an empty array is reserved. */
  predicate Reserves(f: Form, cfg: Config, op: Op) {
    op.Store? && op.i == 0 && Stored(cfg, op.e) == Zero && f.slots == map[]
  }

  /** That, and the root's marks are not the default ones: see Hazard. */
  ghost predicate Hits(ops: seq<Op>, cfg: Config, op: Op) {
    Reserves(FormAfter(ops, cfg), cfg, op) && exists m: Mark :: MarkAfter(ops, cfg, m, 0) != Default(cfg, m)
  }

  ghost predicate OpOk(ops: seq<Op>, cfg: Config, op: Op) {
    (op.Store? ==> !op.e.Child?) && !Hits(ops, cfg, op)
  }

  ghost predicate HistoryOk(ops: seq<Op>, cfg: Config) {
    forall k :: 0 <= k < |ops| ==> OpOk(ops[..k], cfg, ops[k])
  }

  /** The tree has this form. */
  ghost predicate Fits(t: Tree, cfg: Config, f: Form) {
    && TreeOk(t, cfg) && FormOk(f) && (if f.tall then Tall(t) else Canonical(t))
    && forall i: nat :: EntryAt(t, i) == Get(f.slots, i)
  }

  /** t is the tree of the history. */
  ghost predicate Holds(t: Tree, cfg: Config, ops: seq<Op>) {
    && Fits(t, cfg, FormAfter(ops, cfg))
    && Shape(t) && forall m: Mark, i: nat :: MarkAt(t, cfg, m, i) == MarkAfter(ops, cfg, m, i)
  }

  // ------------------------------------------------------------------ one operation

  lemma FitsEmpty(t: Tree, cfg: Config, f: Form)
    requires Fits(t, cfg, f)
    ensures t.head == Null <==> f.slots == map[]
  {
    EmptyIff(t, cfg);
    hide TreeOk, Canonical, Tall, EntryAt;
    if forall i: nat :: EntryAt(t, i) == Null {
      forall i: nat ensures i !in f.slots { assert EntryAt(t, i) == Get(f.slots, i); }
    }
  }

  /** Only an entry above 0 keeps the head from being bare. */
  lemma FitsBare(t: Tree, cfg: Config, left: map<nat, Entry>)
    requires TreeOk(t, cfg) && Canonical(t) && 0 in left && left[0] == Zero && (forall i :: i in left ==> left[i] != Null)
    requires forall i: nat :: i > 0 ==> EntryAt(t, i) == Get(left, i)
    ensures !t.head.Child? <==> left == map[0 := Zero]
  {
    BareIff(t, cfg);
    hide TreeOk, Canonical, EntryAt;
    if forall i: nat :: i > 0 ==> EntryAt(t, i) == Null {
      forall i | i in left ensures i == 0 { assert i > 0 ==> EntryAt(t, i) == Get(left, i); }
    }
  }

  /** What a store or an erase does to the slots. */
  ghost predicate Moved(t: Tree, t': Tree, cfg: Config, i: nat, e: Entry) {
    && Shape(t) && TreeOk(t', cfg) && Formed(t, t', i, e) && EntryAt(t', 0) == ZerothAfter(t, t', cfg, i, e)
    && forall j: nat :: j > 0 ==> EntryAt(t', j) == if j == i then e else EntryAt(t, j)
  }

  lemma MovedFits(t: Tree, t': Tree, cfg: Config, f: Form, i: nat, e: Entry)
    requires Fits(t, cfg, f) && Moved(t, t', cfg, i, e) && !e.Child?
    ensures Fits(t', cfg, With(f, cfg, i, e))
  {
    hide TreeOk, FormOk, Canonical, Tall, With, Moved, EntryAt;
    WithOk(f, cfg, i, e);
    MovedForm(t, t', cfg, f, i, e);
    MovedShapes(t, t', cfg, i, e);
    forall j: nat ensures EntryAt(t', j) == Get(With(f, cfg, i, e).slots, j) {
      if j > 0 { MovedAbove(t, t', cfg, f, i, e, j); } else { MovedZero(t, t', cfg, f, i, e); }
    }
  }

  lemma MovedShapes(t: Tree, t': Tree, cfg: Config, i: nat, e: Entry)
    requires Moved(t, t', cfg, i, e)
    ensures Shape(t) && Shape(t') && TreeOk(t', cfg)
  {}

  lemma WithOk(f: Form, cfg: Config, i: nat, e: Entry)
    requires FormOk(f) && !e.Child?
    ensures FormOk(With(f, cfg, i, e))
  {
    var f' := With(f, cfg, i, e);
    forall j | j in f'.slots ensures f'.slots[j] != Null && !f'.slots[j].Child? {
      assert j == i || j == 0 || j in f.slots;
    }
    if e != Null { assert i in f'.slots; }
  }

  lemma MovedForm(t: Tree, t': Tree, cfg: Config, f: Form, i: nat, e: Entry)
    requires Fits(t, cfg, f) && Moved(t, t', cfg, i, e)
    ensures if With(f, cfg, i, e).tall then Tall(t') else Canonical(t')
  {
    hide Shape, Counts, Marked, Canonical, Tall, EntryAt, With, FormOk;
    FitsEmpty(t, cfg, f);
    FitsForm(t, cfg, f);
    WithTall(f, cfg, i, e);
    assert EntryAt(t, i) == Get(f.slots, i);
    assert MakesTall(t, i, e) == With(f, cfg, i, e).tall;
  }

  lemma WithTall(f: Form, cfg: Config, i: nat, e: Entry)
    ensures With(f, cfg, i, e).tall ==
            if e == Null then i !in f.slots && f.tall
            else i == 0 && if f.slots == map[] then e == Zero else f.tall
  {}

  lemma FitsAt(t: Tree, cfg: Config, f: Form, i: nat)
    requires Fits(t, cfg, f)
    ensures Shape(t) && EntryAt(t, i) == Get(f.slots, i)
  {}

  lemma FitsForm(t: Tree, cfg: Config, f: Form)
    requires Fits(t, cfg, f)
    ensures (Canonical(t) || Tall(t)) && (Tall(t) <==> f.tall) && (f.slots == map[] ==> !f.tall)
    ensures forall i: nat :: Get(f.slots, i) == Null <==> i !in f.slots
  {
    NotBoth(t);
  }

  lemma WithAbove(f: Form, cfg: Config, i: nat, e: Entry, j: nat)
    requires FormOk(f) && j > 0
    ensures Get(With(f, cfg, i, e).slots, j) == if j == i then e else Get(f.slots, j)
  {
    if e == Null && f.slots - {i} == map[0 := Zero] {
      assert j !in f.slots - {i};
    }
  }

  lemma MovedAbove(t: Tree, t': Tree, cfg: Config, f: Form, i: nat, e: Entry, j: nat)
    requires Fits(t, cfg, f) && Moved(t, t', cfg, i, e) && j > 0
    ensures Shape(t') && EntryAt(t', j) == Get(With(f, cfg, i, e).slots, j)
  {
    hide Shape, Canonical, Tall, EntryAt, With, FormOk, Formed, ZerothAfter;
    WithAbove(f, cfg, i, e, j);
  }

  lemma WithZero(f: Form, cfg: Config, i: nat, e: Entry)
    requires FormOk(f)
    ensures var z, left := Get(f.slots, 0), f.slots - {i};
            Get(With(f, cfg, i, e).slots, 0) ==
            if i == 0 then e
            else if e != Null then (if cfg.zeroBusy && f.slots == map[] then Zero else z)
            else if i !in f.slots then z
            else if cfg.zeroBusy && z == Zero && left == map[0 := Zero] then Null
            else z
    ensures e == Null && i in f.slots ==> !With(f, cfg, i, e).tall
  {
    var left := f.slots - {i};
    if left == map[0 := Zero] { assert 0 in left && left[0] == Zero; }
  }

  lemma MovedZero(t: Tree, t': Tree, cfg: Config, f: Form, i: nat, e: Entry)
    requires Fits(t, cfg, f) && Moved(t, t', cfg, i, e)
    ensures Shape(t') && EntryAt(t', 0) == Get(With(f, cfg, i, e).slots, 0)
  {
    hide Counts, Marked, Shape, Canonical, Tall, EntryAt, Formed, With;
    WithZero(f, cfg, i, e);
    FitsEmpty(t, cfg, f);
    assert EntryAt(t, i) == Get(f.slots, i) && EntryAt(t, 0) == Get(f.slots, 0);
    if e == Null && i in f.slots && i > 0 && Get(f.slots, 0) == Zero {
      MovedForm(t, t', cfg, f, i, e);
      forall j: nat | j > 0 ensures EntryAt(t', j) == Get(f.slots - {i}, j) { assert EntryAt(t, j) == Get(f.slots, j); }
      FitsBare(t', cfg, f.slots - {i});
    }
  }

  lemma StoreMoves(t: Tree, t': Tree, cfg: Config, i: nat, e: Entry)
    requires TreeOk(t', cfg) && EntryIs(t, t', cfg, i, e) && Allotted(t, t', cfg, i, e)
    ensures Moved(t, t', cfg, i, e)
  {
    hide Shape, Counts, Marked, EntryAt, MarkAt, Formed, ZerothAfter;
    forall j: nat | j > 0 ensures EntryAt(t', j) == if j == i then e else EntryAt(t, j) {
      assert Content(t', cfg, j) == EntryAt(t', j) && Content(t, cfg, j) == EntryAt(t, j);
    }
  }

  lemma EraseMoves(t: Tree, t': Tree, cfg: Config, i: nat)
    requires TreeOk(t', cfg) && StoreOk(t, t', cfg, i, Null, false)
    ensures Moved(t, t', cfg, i, Null)
  {
    hide Shape, Counts, Marked, EntryAt, MarkAt, Formed, ZerothAfter;
    forall j: nat | j > 0 ensures EntryAt(t', j) == if j == i then Null else EntryAt(t, j) {
      assert Content(t', cfg, j) == EntryAt(t', j) && Content(t, cfg, j) == EntryAt(t, j);
    }
  }

  lemma HoldsFits(t: Tree, cfg: Config, ops: seq<Op>)
    requires Holds(t, cfg, ops)
    ensures Fits(t, cfg, FormAfter(ops, cfg)) && Shape(t) && forall i: nat :: EntryAt(t, i) != Null <==> i in FormAfter(ops, cfg).slots
  {}

  lemma StoreHolds(t: Tree, t': Tree, cfg: Config, ops: seq<Op>, i: nat, e: Entry)
    requires Holds(t, cfg, ops) && !e.Child? && TreeOk(t', cfg)
    requires EntryIs(t, t', cfg, i, Stored(cfg, e)) && Allotted(t, t', cfg, i, Stored(cfg, e))
    ensures Holds(t', cfg, ops + [Store(i, e)])
  {
    hide Fits, Shape, Counts, Marked, EntryAt, MarkAt, With, Formed, ZerothAfter, EntryIs, FreeExact;
    HoldsFits(t, cfg, ops);
    StoreMoves(t, t', cfg, i, Stored(cfg, e));
    MovedFits(t, t', cfg, FormAfter(ops, cfg), i, Stored(cfg, e));
    assert (ops + [Store(i, e)])[..|ops|] == ops;
  }

  lemma EraseHolds(t: Tree, t': Tree, cfg: Config, ops: seq<Op>, i: nat)
    requires Holds(t, cfg, ops) && TreeOk(t', cfg) && StoreOk(t, t', cfg, i, Null, false)
    ensures Holds(t', cfg, ops + [Erase(i)])
  {
    hide Fits, Shape, Counts, Marked, EntryAt, MarkAt, With, Formed, ZerothAfter;
    HoldsFits(t, cfg, ops);
    EraseMoves(t, t', cfg, i);
    MovedFits(t, t', cfg, FormAfter(ops, cfg), i, Null);
    assert (ops + [Erase(i)])[..|ops|] == ops;
  }

  lemma MarkFits(t: Tree, t': Tree, cfg: Config, f: Form)
    requires Fits(t, cfg, f) && TreeOk(t', cfg) && (Canonical(t) ==> Canonical(t')) && (Tall(t) ==> Tall(t'))
    requires forall j: nat :: EntryAt(t', j) == EntryAt(t, j)
    ensures Fits(t', cfg, f)
  {
    hide Shape, Counts, Marked, EntryAt, Canonical, Tall, FormOk;
  }

  lemma MarkHolds(t: Tree, t': Tree, cfg: Config, ops: seq<Op>, i: nat, m: Mark, b: bool)
    requires Holds(t, cfg, ops) && TreeOk(t', cfg) && (Canonical(t) ==> Canonical(t')) && (Tall(t) ==> Tall(t'))
    requires forall j: nat :: EntryAt(t', j) == EntryAt(t, j)
    requires if EntryAt(t, i) == Null then t' == t else MarkBecomes(t, t', cfg, m, i, b)
    ensures Holds(t', cfg, ops + [if b then SetMark(i, m) else ClearMark(i, m)])
  {
    hide Fits, Shape, Counts, Marked, EntryAt, MarkAt;
    HoldsFits(t, cfg, ops);
    MarkFits(t, t', cfg, FormAfter(ops, cfg));
    var op := if b then SetMark(i, m) else ClearMark(i, m);
    assert (ops + [op])[..|ops|] == ops;
  }

  /** The hazard is told by the history. */
  lemma HitsIff(t: Tree, cfg: Config, ops: seq<Op>, i: nat, e: Entry)
    requires Holds(t, cfg, ops) && !Hits(ops, cfg, Store(i, e))
    ensures |t.marks| == 3 && !(Stored(cfg, e) == Zero && Hazard(t, cfg, i, false))
  {
    HoldsFits(t, cfg, ops);
    FitsEmpty(t, cfg, FormAfter(ops, cfg));
    if t.head == Null {
      forall m: Mark ensures t.marks[m] == MarkAfter(ops, cfg, m, 0) { assert MarkAt(t, cfg, m, 0) == t.marks[m]; }
    }
  }

  /** One operation on an array with this history; false if memory ran out. */
  method Apply(x: XArr, op: Op, ghost ops: seq<Op>) returns (ok: bool)
    requires x.Valid() && Holds(x.View(), x.cfg, ops) && OpOk(ops, x.cfg, op)
    modifies x
    ensures ok ==> x.Valid() && Holds(x.View(), x.cfg, ops + [op])
    ensures !op.Store? ==> ok
  {
    hide TreeOk, Holds, EntryIs, Allotted, StoreOk, Kept, MarkBecomes, SameLinks, Canonical, Tall, Hits, Hazard;
    ghost var t := x.View();
    HoldsFits(t, x.cfg, ops);
    ok := true;
    match op
    case Store(i, e) =>
      HitsIff(t, x.cfg, ops, i, e);
      var _, out := x.XaStore(i, e);
      ok := out == Done;
      if ok {
        StoreHolds(t, x.View(), x.cfg, ops, i, e);
      }
    case Erase(i) =>
      var _ := x.XaErase(i);
      EraseHolds(t, x.View(), x.cfg, ops, i);
    case SetMark(i, m) =>
      x.XaSetMark(i, m);
      SameEntries(t, x.View(), x.cfg);
      MarkHolds(t, x.View(), x.cfg, ops, i, m, true);
    case ClearMark(i, m) =>
      x.XaClearMark(i, m);
      SameEntries(t, x.View(), x.cfg);
      MarkHolds(t, x.View(), x.cfg, ops, i, m, false);
  }

  lemma SameEntries(t: Tree, t': Tree, cfg: Config)
    requires TreeOk(t, cfg) && TreeOk(t', cfg) && SameLinks(t, t')
    ensures Shape(t') && forall j: nat :: EntryAt(t', j) == EntryAt(t, j)
  {
    LinksKeep(t, t');
  }

  lemma NewHolds(t: Tree, cfg: Config)
    requires TreeOk(t, cfg) && Canonical(t) && (forall i: nat :: EntryAt(t, i) == Null)
    requires forall m: Mark, i: nat :: MarkAt(t, cfg, m, i) == (Default(cfg, m) && !(cfg.zeroBusy && i == 0))
    ensures Holds(t, cfg, [])
  {
    hide Shape, Counts, Marked, EntryAt, MarkAt, Canonical, Tall;
  }

  /** A whole history, from the empty array on. */
  method ApplyAll(cfg: Config, ops: seq<Op>) returns (x: XArr, ok: bool)
    requires HistoryOk(ops, cfg)
    ensures fresh(x) && x.cfg == cfg
    ensures ok ==> Holds(x.View(), cfg, ops)
  {
    hide TreeOk, Canonical, OpOk, Holds;
    x := new XArr(cfg);
    NewHolds(x.View(), cfg);
    assert ops[..0] == [];
    ok := true;
    for k := 0 to |ops|
      invariant fresh(x) && x.cfg == cfg && ok && x.Valid() && Holds(x.View(), cfg, ops[..k])
    {
      ok := Apply(x, ops[k], ops[..k]);
      assert ops[..k] + [ops[k]] == ops[..k + 1];
      if !ok {
        return;
      }
    }
    assert ops[..|ops|] == ops;
  }

  /** Without zero-busy the hazard does not come up. */
  lemma {:induction false} AbsentIsDefault(ops: seq<Op>, cfg: Config, m: Mark, i: nat)
    requires !cfg.zeroBusy
    ensures i !in FormAfter(ops, cfg).slots ==> MarkAfter(ops, cfg, m, i) == Default(cfg, m)
  {
    if ops != [] { AbsentIsDefault(ops[..|ops| - 1], cfg, m, i); }
  }

  lemma PlainNeverHits(ops: seq<Op>, cfg: Config, op: Op)
    requires !cfg.zeroBusy
    ensures !Hits(ops, cfg, op)
  {
    forall m: Mark | FormAfter(ops, cfg).slots == map[] ensures MarkAfter(ops, cfg, m, 0) == Default(cfg, m) {
      AbsentIsDefault(ops, cfg, m, 0);
    }
  }

  // --------------------------------------------------------------------- two histories

  /** The same entries as a caller sees them, and the same marks. */
  ghost predicate SameContents(ops1: seq<Op>, ops2: seq<Op>, cfg: Config) {
    && (forall i: nat :: Norm(cfg, i, Get(FormAfter(ops1, cfg).slots, i)) == Norm(cfg, i, Get(FormAfter(ops2, cfg).slots, i)))
    && (forall m: Mark, i: nat :: MarkAfter(ops1, cfg, m, i) == MarkAfter(ops2, cfg, m, i))
  }

  predicate ZeroReserved(f: Form) { Get(f.slots, 0) == Zero }

  /** Two histories leave the same tree if and only if they leave the same contents
      and marks, agree on whether slot 0 holds a reserved entry, and on whether entry
      0 is alone in a node. */
  lemma SameTreeIff(t1: Tree, ops1: seq<Op>, t2: Tree, ops2: seq<Op>, cfg: Config)
    requires Holds(t1, cfg, ops1) && Holds(t2, cfg, ops2)
    ensures t1 == t2 <==>
              && SameContents(ops1, ops2, cfg)
              && ZeroReserved(FormAfter(ops1, cfg)) == ZeroReserved(FormAfter(ops2, cfg))
              && FormAfter(ops1, cfg).tall == FormAfter(ops2, cfg).tall
  {
    var f1, f2 := FormAfter(ops1, cfg), FormAfter(ops2, cfg);
    NotBoth(t1);
    hide Shape, Counts, Marked, EntryAt, MarkAt, FormAfter, MarkAfter;
    if t1 == t2 {
      forall i: nat ensures Get(f1.slots, i) == Get(f2.slots, i) { assert EntryAt(t1, i) == EntryAt(t2, i); }
      forall m: Mark, i: nat ensures MarkAfter(ops1, cfg, m, i) == MarkAfter(ops2, cfg, m, i) {
        assert MarkAt(t1, cfg, m, i) == MarkAt(t2, cfg, m, i);
      }
    } else if SameContents(ops1, ops2, cfg) && ZeroReserved(f1) == ZeroReserved(f2) && f1.tall == f2.tall {
      forall i: nat ensures EntryAt(t1, i) == EntryAt(t2, i) {
        assert Norm(cfg, i, Get(f1.slots, i)) == Norm(cfg, i, Get(f2.slots, i));
      }
      assert Like(t1, t2, cfg);
      if f1.tall { AlikeUnique(t1, t2, cfg); } else { CanonicalUnique(t1, t2, cfg); }
    }
  }

  /** The same contents and marks, in any case. */
  lemma SameContentsSame(t1: Tree, ops1: seq<Op>, t2: Tree, ops2: seq<Op>, cfg: Config)
    requires Holds(t1, cfg, ops1) && Holds(t2, cfg, ops2)
    ensures Same(t1, t2, cfg) <==> SameContents(ops1, ops2, cfg)
  {
    hide Shape, Counts, Marked, EntryAt, MarkAt, FormAfter, MarkAfter, Norm, Canonical, Tall;
    var f1, f2 := FormAfter(ops1, cfg), FormAfter(ops2, cfg);
    assert forall i: nat :: Content(t1, cfg, i) == Norm(cfg, i, Get(f1.slots, i)) && Content(t2, cfg, i) == Norm(cfg, i, Get(f2.slots, i));
  }

  /** Entry 0 is never reserved in an empty array. */
  ghost predicate NeverReserves(ops: seq<Op>, cfg: Config) {
    forall k :: 0 <= k < |ops| ==> !Reserves(FormAfter(ops[..k], cfg), cfg, ops[k])
  }

  lemma {:induction false} NeverTall(ops: seq<Op>, cfg: Config)
    requires NeverReserves(ops, cfg)
    ensures !FormAfter(ops, cfg).tall
  {
    if ops != [] {
      var n := |ops| - 1;
      forall k | 0 <= k < n ensures !Reserves(FormAfter(ops[..n][..k], cfg), cfg, ops[..n][k]) {
        assert ops[..n][..k] == ops[..k] && !Reserves(FormAfter(ops[..k], cfg), cfg, ops[k]);
      }
      NeverTall(ops[..n], cfg);
      assert !Reserves(FormAfter(ops[..n], cfg), cfg, ops[n]);
    }
  }

  /** History independence: histories that never reserve entry 0 of the empty array
      leave the same tree if and only if they leave the same contents and marks and, in
      a zero-busy array, agree on what slot 0 holds. */
  lemma HistoryFree(t1: Tree, ops1: seq<Op>, t2: Tree, ops2: seq<Op>, cfg: Config)
    requires Holds(t1, cfg, ops1) && Holds(t2, cfg, ops2)
    requires NeverReserves(ops1, cfg) && NeverReserves(ops2, cfg)
    ensures t1 == t2 <==>
              && SameContents(ops1, ops2, cfg)
              && (cfg.zeroBusy ==> ZeroReserved(FormAfter(ops1, cfg)) == ZeroReserved(FormAfter(ops2, cfg)))
  {
    hide Holds, FormAfter, MarkAfter;
    NeverTall(ops1, cfg);
    NeverTall(ops2, cfg);
    SameTreeIff(t1, ops1, t2, ops2, cfg);
    if SameContents(ops1, ops2, cfg) {
      assert Norm(cfg, 0, Get(FormAfter(ops1, cfg).slots, 0)) == Norm(cfg, 0, Get(FormAfter(ops2, cfg).slots, 0));
    }
  }

  // ------------------------------------------------------------------ where it fails

  /** One leaf as the whole tree. */
  ghost function Leaf(slots: seq<Entry>, marks: seq<seq<bool>>): Tree
    requires |marks| == 3
  {
    Tree(map[Place(0, 0) := Node(None, 0, Tally(slots, false), Tally(slots, true), slots, marks)],
         Child(Place(0, 0)), [Any(marks[0]), Any(marks[1]), Any(marks[2])])
  }

  lemma LeafOk(cfg: Config, slots: seq<Entry>, marks: seq<seq<bool>>)
    requires |slots| == 64 && |marks| == 3 && (forall m: Mark :: |marks[m]| == 64) && (forall o: Offset :: !slots[o].Child?)
    requires forall m: Mark, o: Offset :: slots[o] == Null ==> marks[m][o] == Default(cfg, m)
    ensures var t := Leaf(slots, marks);
            && TreeOk(t, cfg) && (forall i: nat :: EntryAt(t, i) == if i < 64 then slots[i] else Null)
            && (forall m: Mark, i: nat :: MarkAt(t, cfg, m, i) == if i < 64 then marks[m][i] else Default(cfg, m))
  {
    var t, n := Leaf(slots, marks), Place(0, 0);
    forall k: nat | k < 64 ensures SlotOk(t, n, slots[k], k) { var o: Offset := k; assert !slots[o].Child?; }
    assert NodeOk(t, n, t.nodes[n]);
    forall m: Mark ensures MarkedFor(t, cfg, m) {
      forall k: nat | k < 64 ensures BitOk(t, cfg, m, slots[k], marks[m][k]) { var o: Offset := k; assert !slots[o].Child?; }
    }
  }

  /** The leaf is tall or canonical by whether it has an entry besides its first. */
  lemma LeafForm(slots: seq<Entry>, marks: seq<seq<bool>>, o: Offset)
    requires |slots| == 64 && |marks| == 3 && slots[o] != Null
    ensures o > 0 ==> Canonical(Leaf(slots, marks))
    ensures o == 0 && (forall k :: 0 < k < 64 ==> slots[k] == Null) ==> Tall(Leaf(slots, marks))
  {
    TallyPositive(slots, o);
    if o > 0 {
      if slots[0] != Null { TallyTwo(slots, 0, o); }
    } else if forall k :: 0 < k < 64 ==> slots[k] == Null {
      FirstOnly(slots);
    }
  }

  lemma LeafHolds(cfg: Config, slots: seq<Entry>, marks: seq<seq<bool>>, ops: seq<Op>)
    requires |slots| == 64 && |marks| == 3 && (forall m: Mark :: |marks[m]| == 64) && (forall o: Offset :: !slots[o].Child?)
    requires forall m: Mark, o: Offset :: slots[o] == Null ==> marks[m][o] == Default(cfg, m)
    requires var f := FormAfter(ops, cfg);
             && FormOk(f) && (if f.tall then Tall(Leaf(slots, marks)) else Canonical(Leaf(slots, marks)))
             && forall i: nat :: Get(f.slots, i) == if i < 64 then slots[i] else Null
    requires forall m: Mark, i: nat :: MarkAfter(ops, cfg, m, i) == if i < 64 then marks[m][i] else Default(cfg, m)
    ensures Holds(Leaf(slots, marks), cfg, ops)
  {
    LeafOk(cfg, slots, marks);
    hide TreeOk, EntryAt, MarkAt, Leaf, Tall, Canonical, FormAfter, MarkAfter;
  }

  /** Form and marks after one operation more. */
  lemma Pushed(ops: seq<Op>, cfg: Config, op: Op)
    ensures FormAfter(ops + [op], cfg) == FormStep(FormAfter(ops, cfg), cfg, op)
    ensures op.Store? && Stored(cfg, op.e) != Null ==>
              forall m: Mark, i: nat :: MarkAfter(ops + [op], cfg, m, i) ==
                if op.i == i && cfg.trackFree && m == FREE then false else MarkAfter(ops, cfg, m, i)
    ensures op.Erase? ==>
              forall m: Mark, i: nat :: MarkAfter(ops + [op], cfg, m, i) ==
                if op.i == i && i in FormAfter(ops, cfg).slots then Default(cfg, m) else MarkAfter(ops, cfg, m, i)
  {
    assert (ops + [op])[..|ops|] == ops;
  }

  /** Reserve entry 0; against reserve entry 0, store at 1 and erase 1. */
  function ReserveOnly(): seq<Op> { [] + [Store(0, Zero)] }
  function ReserveAndBack(v: nat): seq<Op> { [] + [Store(0, Zero)] + [Store(1, Value(v))] + [Erase(1)] }

  lemma ReserveForms(v: nat, cfg: Config)
    requires cfg == Config(false, false)
    ensures FormAfter(ReserveOnly(), cfg) == Form(map[0 := Zero], true)
    ensures FormAfter(ReserveAndBack(v), cfg) == Form(map[0 := Zero], false)
    ensures forall m: Mark, i: nat :: !MarkAfter(ReserveOnly(), cfg, m, i) && !MarkAfter(ReserveAndBack(v), cfg, m, i)
    ensures HistoryOk(ReserveOnly(), cfg) && HistoryOk(ReserveAndBack(v), cfg)
  {
    hide FormAfter, MarkAfter, With;
    var a, b, c := Store(0, Zero), Store(1, Value(v)), Erase(1);
    Pushed([], cfg, a);
    Pushed([a], cfg, b);
    Pushed([a, b], cfg, c);
    assert [] + [a] == [a] && [a] + [b] == [a, b] && [a, b] + [c] == [a, b, c] && ReserveAndBack(v) == [a, b, c];
    NoMoreForms(v, cfg, FormAfter([], cfg));
    PlainHistoryOk(ReserveOnly(), cfg);
    PlainHistoryOk(ReserveAndBack(v), cfg);
  }

  lemma PlainHistoryOk(ops: seq<Op>, cfg: Config)
    requires !cfg.zeroBusy && forall k :: 0 <= k < |ops| && ops[k].Store? ==> !ops[k].e.Child?
    ensures HistoryOk(ops, cfg)
  {
    forall k | 0 <= k < |ops| ensures OpOk(ops[..k], cfg, ops[k]) { PlainNeverHits(ops[..k], cfg, ops[k]); }
  }

  lemma NoMoreForms(v: nat, cfg: Config, f: Form)
    requires f == FormAfter([], cfg) && cfg == Config(false, false)
    ensures var f1 := With(f, cfg, 0, Zero);
            f1 == Form(map[0 := Zero], true) && With(With(f1, cfg, 1, Value(v)), cfg, 1, Null) == Form(map[0 := Zero], false)
    ensures forall m: Mark, i: nat :: !MarkAfter([], cfg, m, i)
  {
    var f2 := With(With(f, cfg, 0, Zero), cfg, 1, Value(v));
    assert f2.slots - {1} == map[0 := Zero];
  }

  /** Reserved entries: the two histories leave the same contents and marks, and a
      node for entry 0 or none. */
  lemma ReservedTwoShapes(v: nat) returns (t1: Tree, t2: Tree)
    ensures var cfg := Config(false, false);
            && Holds(t1, cfg, ReserveOnly()) && Holds(t2, cfg, ReserveAndBack(v))
            && Same(t1, t2, cfg) && t1.head == Child(Place(0, 0)) && t2.head == Zero && t1 != t2
  {
    var cfg := Config(false, false);
    var slots: seq<Entry> := seq(64, k => if k == 0 then Zero else Null);
    var bits: seq<bool> := seq(64, _ => false);
    var marks := [bits, bits, bits];
    ReserveForms(v, cfg);
    LeafForm(slots, marks, 0);
    assert forall k :: 0 < k < 64 ==> slots[k] == Null;
    hide Tall, Canonical;
    assert forall i: nat :: Get(map[0 := Zero], i) == if i < 64 then slots[i] else Null;
    LeafHolds(cfg, slots, marks, ReserveOnly());
    RootHolds(cfg, ReserveAndBack(v));
    t1 := Leaf(slots, marks);
    t2 := Tree(map[], Zero, [false, false, false]);
    SameContentsSame(t1, ReserveOnly(), t2, ReserveAndBack(v), cfg);
  }

  lemma RootHolds(cfg: Config, ops: seq<Op>)
    requires !cfg.trackFree && FormAfter(ops, cfg) == Form(map[0 := Zero], false) && forall m: Mark, i: nat :: !MarkAfter(ops, cfg, m, i)
    ensures Holds(Tree(map[], Zero, [false, false, false]), cfg, ops)
  {
    var t := Tree(map[], Zero, [false, false, false]);
    assert forall m: Mark :: MarkedFor(t, cfg, m);
  }

  /** And so do the operations when they are carried out. */
  method ReserveTwice(v: nat) returns (x1: XArr, x2: XArr, ok: bool)
    ensures x1.cfg == x2.cfg == Config(false, false)
    ensures ok ==> x1.Valid() && x2.Valid() && Same(x1.View(), x2.View(), x1.cfg) && x1.View() != x2.View()
  {
    var cfg := Config(false, false);
    ReserveForms(v, cfg);
    var ok1, ok2;
    x1, ok1 := ApplyAll(cfg, ReserveOnly());
    x2, ok2 := ApplyAll(cfg, ReserveAndBack(v));
    ok := ok1 && ok2;
    if ok {
      SameContentsSame(x1.View(), ReserveOnly(), x2.View(), ReserveAndBack(v), cfg);
      SameTreeIff(x1.View(), ReserveOnly(), x2.View(), ReserveAndBack(v), cfg);
    }
  }

  /** A zero-busy array: entry 0 stored, erased, and then index 5 stored; against
      index 5 stored first. */
  function ZeroFirst(v: nat, w: nat): seq<Op> { [] + [Store(0, Value(v))] + [Erase(0)] + [Store(5, Value(w))] }
  function ZeroLast(v: nat, w: nat): seq<Op> { [] + [Store(5, Value(w))] + [Store(0, Value(v))] + [Erase(0)] }

  lemma ZeroForms(v: nat, w: nat, cfg: Config)
    requires cfg == Config(true, true)
    ensures FormAfter(ZeroFirst(v, w), cfg) == Form(map[0 := Zero, 5 := Value(w)], false)
    ensures FormAfter(ZeroLast(v, w), cfg) == Form(map[5 := Value(w)], false)
    ensures forall m: Mark, i: nat ::
              MarkAfter(ZeroFirst(v, w), cfg, m, i) == MarkAfter(ZeroLast(v, w), cfg, m, i) == (Default(cfg, m) && i != 5)
    ensures HistoryOk(ZeroFirst(v, w), cfg) && HistoryOk(ZeroLast(v, w), cfg)
  {
    hide FormAfter, MarkAfter;
    ZeroFirstForm(v, w, cfg);
    ZeroLastForm(v, w, cfg);
    NoReserveOk(ZeroFirst(v, w), cfg);
    NoReserveOk(ZeroLast(v, w), cfg);
  }

  lemma ZeroFirstForm(v: nat, w: nat, cfg: Config)
    requires cfg == Config(true, true)
    ensures FormAfter(ZeroFirst(v, w), cfg) == Form(map[0 := Zero, 5 := Value(w)], false)
    ensures forall m: Mark, i: nat :: MarkAfter(ZeroFirst(v, w), cfg, m, i) == (Default(cfg, m) && i != 5)
  {
    hide FormAfter, MarkAfter, With;
    var a, b, c := Store(0, Value(v)), Erase(0), Store(5, Value(w));
    Pushed([], cfg, a);
    Pushed([a], cfg, b);
    Pushed([a, b], cfg, c);
    assert [] + [a] == [a] && [a] + [b] == [a, b] && [a, b] + [c] == [a, b, c] && ZeroFirst(v, w) == [a, b, c];
    NoForms(cfg);
    ZeroSlots(v, w, cfg);
  }

  lemma ZeroLastForm(v: nat, w: nat, cfg: Config)
    requires cfg == Config(true, true)
    ensures FormAfter(ZeroLast(v, w), cfg) == Form(map[5 := Value(w)], false)
    ensures forall m: Mark, i: nat :: MarkAfter(ZeroLast(v, w), cfg, m, i) == (Default(cfg, m) && i != 5)
  {
    hide FormAfter, MarkAfter, With;
    var a, b, c := Store(0, Value(v)), Erase(0), Store(5, Value(w));
    Pushed([], cfg, c);
    Pushed([c], cfg, a);
    Pushed([c, a], cfg, b);
    assert [] + [c] == [c] && [c] + [a] == [c, a] && [c, a] + [b] == [c, a, b] && ZeroLast(v, w) == [c, a, b];
    NoForms(cfg);
    ZeroSlots(v, w, cfg);
  }

  lemma NoReserveOk(ops: seq<Op>, cfg: Config)
    requires forall k :: 0 <= k < |ops| && ops[k].Store? ==> ops[k].e.Value?
    ensures HistoryOk(ops, cfg)
  {}

  lemma NoForms(cfg: Config)
    ensures FormAfter([], cfg) == Form(map[], false)
    ensures forall m: Mark, i: nat :: MarkAfter([], cfg, m, i) == (Default(cfg, m) && !(cfg.zeroBusy && i == 0))
  {}

  lemma ZeroSlots(v: nat, w: nat, cfg: Config)
    requires cfg == Config(true, true)
    ensures var f := Form(map[], false);
            var fa, fc := With(f, cfg, 0, Value(v)), With(f, cfg, 5, Value(w));
            && 0 in fa.slots && With(fa, cfg, 0, Null) == f && fc == Form(map[0 := Zero, 5 := Value(w)], false)
            && 0 in With(fc, cfg, 0, Value(v)).slots
            && With(With(fc, cfg, 0, Value(v)), cfg, 0, Null) == Form(map[5 := Value(w)], false)
  {
    var f := Form(map[], false);
    var fa, fc := With(f, cfg, 0, Value(v)), With(f, cfg, 5, Value(w));
    assert fa.slots - {0} == map[];
    assert With(fc, cfg, 0, Value(v)).slots - {0} == map[5 := Value(w)];
  }

  /** Zero-busy arrays: the same contents and marks, and a reserved entry in slot 0 or
      nothing. */
  lemma ZeroBusyTwoShapes(v: nat, w: nat) returns (t1: Tree, t2: Tree)
    ensures var cfg := Config(true, true);
            && Holds(t1, cfg, ZeroFirst(v, w)) && Holds(t2, cfg, ZeroLast(v, w))
            && Same(t1, t2, cfg) && EntryAt(t1, 0) == Zero && EntryAt(t2, 0) == Null && t1 != t2
  {
    hide FormAfter, MarkAfter, Canonical, Tall, Fits, Leaf, Shape;
    var cfg := Config(true, true);
    var bits: seq<bool> := seq(64, _ => false);
    var marks := [seq(64, k => k != 5), bits, bits];
    var s1: seq<Entry> := seq(64, k => if k == 0 then Zero else if k == 5 then Value(w) else Null);
    var s2: seq<Entry> := seq(64, k => if k == 5 then Value(w) else Null);
    ZeroForms(v, w, cfg);
    LeafForm(s1, marks, 5);
    LeafForm(s2, marks, 5);
    assert forall i: nat :: Get(map[0 := Zero, 5 := Value(w)], i) == if i < 64 then s1[i] else Null;
    assert forall i: nat :: Get(map[5 := Value(w)], i) == if i < 64 then s2[i] else Null;
    LeafHolds(cfg, s1, marks, ZeroFirst(v, w));
    LeafHolds(cfg, s2, marks, ZeroLast(v, w));
    t1, t2 := Leaf(s1, marks), Leaf(s2, marks);
    HoldsFits(t1, cfg, ZeroFirst(v, w));
    HoldsFits(t2, cfg, ZeroLast(v, w));
    FitsAt(t1, cfg, FormAfter(ZeroFirst(v, w), cfg), 0);
    FitsAt(t2, cfg, FormAfter(ZeroLast(v, w), cfg), 0);
    SameContentsSame(t1, ZeroFirst(v, w), t2, ZeroLast(v, w), cfg);
  }

  method ZeroTwice(v: nat, w: nat) returns (x1: XArr, x2: XArr, ok: bool)
    ensures x1.cfg == x2.cfg == Config(true, true)
    ensures ok ==> x1.Valid() && x2.Valid() && Same(x1.View(), x2.View(), x1.cfg) && x1.View() != x2.View()
  {
    var cfg := Config(true, true);
    ZeroForms(v, w, cfg);
    var ok1, ok2;
    x1, ok1 := ApplyAll(cfg, ZeroFirst(v, w));
    x2, ok2 := ApplyAll(cfg, ZeroLast(v, w));
    ok := ok1 && ok2;
    if ok {
      SameContentsSame(x1.View(), ZeroFirst(v, w), x2.View(), ZeroLast(v, w), cfg);
      SameTreeIff(x1.View(), ZeroFirst(v, w), x2.View(), ZeroLast(v, w), cfg);
    }
  }
}
