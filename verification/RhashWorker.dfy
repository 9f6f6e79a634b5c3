/** The rehash worker and the attachment of tables keep the invariant. */
module RhashWorker {
  import opened Common
  import opened RhashModel
  import opened RhashInvariant
  import opened RhashSteps

  /** The worker changes only its own position. */
  lemma WorkerMove(env: Env, s: State, w: Worker)
    requires Inv(env, s) && !Moving(w) && !Moving(s.m.worker)
    requires WorkerOk(env, s.m.(worker := w))
    requires LocksOfWorker(env, s.m.tbl, w) == LocksOfWorker(env, s.m.tbl, s.m.worker) ||
             forall lock :: lock in LocksOfWorker(env, s.m.tbl, w) ==> LockFree(env, s, lock)
    ensures Inv(env, s.(m := s.m.(worker := w)))
  {
    hide Heap, Place, Reads, GraceOk;
    var m' := s.m.(worker := w);
    WorkerMoveHeap(s.m, w);
    assert Place(env, m') by { WorkerMovePlace(env, s.m, w); }
    assert Locks(env, m', s.threads);
    hide Locks, WorkerOk;
    forall j | j in s.threads
      ensures InsertOk(env, m', s.threads[j]) && RemoveOk(m', s.threads[j])
    {
      assert InsertOk(env, s.m, s.threads[j]) && RemoveOk(s.m, s.threads[j]);
    }
    ReadsFrame(s.m, m', s.grace, s.threads);
  }

  lemma ReadsFrame(m: Mem, m': Mem, grace: map<Obj, set<Tid>>, threads: map<Tid, Pc>)
    requires Reads(m, grace, threads) && m'.next == m.next && m'.loc == m.loc && |m'.tables| >= |m.tables|
    ensures Reads(m', grace, threads)
  {}

  lemma WorkerMovePlace(env: Env, m: Mem, w: Worker)
    requires m.tbl < |m.tables| && Place(env, m)
    ensures Place(env, m.(worker := w))
  {
    PlaceFrame(env, m, m.(worker := w));
  }

  lemma WorkerMoveHeap(m: Mem, w: Worker)
    requires Heap(m) && !Moving(w) && !Moving(m.worker)
    ensures Heap(m.(worker := w))
  {
    var m' := m.(worker := w);
    forall t: nat, h: nat ensures Linked(m'.next, Head(m', t, h), Phys(m', t, h), Loose(m', t, h)) {
      assert Linked(m.next, Head(m, t, h), Phys(m, t, h), Loose(m, t, h));
    }
  }

  /** The lists stay; only the tables or ht->tbl change. */
  lemma PlaceFrame(env: Env, m: Mem, m': Mem)
    requires m.tbl < |m.tables| && Place(env, m) && m'.tbl < |m'.tables|
    requires m'.lists == m.lists && m'.loc == m.loc
    requires forall o :: o in m.loc ==> m'.tbl <= m.loc[o] < |m'.tables|
    requires forall o :: o in m.loc && m.loc[o] == m'.tbl ==> m'.tables[m'.tbl].rehash <= ObjBucket(env, m'.tbl, o)
    ensures Place(env, m')
  {
    forall t: nat, h: nat ensures NoDup(List(m', t, h)) { assert NoDup(List(m, t, h)); }
    forall t: nat, h: nat, o | o in List(m', t, h) ensures o in m.loc && m.loc[o] == t && ObjBucket(env, t, o) == h {
      assert o in List(m, t, h);
    }
    forall o | o in m.loc ensures o in List(m', m.loc[o], ObjBucket(env, m.loc[o], o)) {
      assert o in List(m, m.loc[o], ObjBucket(env, m.loc[o], o));
    }
  }

  /** What is asked of a thread depends on the tables and places only. */
  lemma ThreadFrame(env: Env, m: Mem, m': Mem, grace: map<Obj, set<Tid>>, tid: Tid, pc: Pc)
    requires m.tbl < |m.tables| && InsertOk(env, m, pc) && RemoveOk(m, pc) && ReadOk(m, grace, tid, pc)
    requires m'.tbl == m.tbl && m'.loc == m.loc && |m'.tables| >= |m.tables|
    requires forall i :: 0 <= i < |m.tables| ==> m'.tables[i].rehash == m.tables[i].rehash
    requires m'.worker.Unlinking? ==> m.worker == m'.worker
    ensures InsertOk(env, m', pc) && RemoveOk(m', pc) && ReadOk(m', grace, tid, pc)
  {}

  lemma {:induction false} LastTableIs(env: Env, m: Mem, t: nat)
    requires Shape(env, m) && t < |m.tables|
    ensures LastTable(m.tables, t) == |m.tables| - 1
    decreases |m.tables| - t
  {
    if t + 1 < |m.tables| { LastTableIs(env, m, t + 1); }
  }

  lemma WorkerStartInv(env: Env, s: State)
    requires WfEnv(env) && Inv(env, s) && Can(env, s, WorkerStart)
    ensures Inv(env, Do(env, s, WorkerStart))
  {
    hide Heap, Place, Locks, Inserts, Removes, Reads;
    WorkerMove(env, s, AtBucket(0));
  }

  lemma WorkerLockInv(env: Env, s: State)
    requires WfEnv(env) && Inv(env, s) && Can(env, s, WorkerLock)
    ensures Inv(env, Do(env, s, WorkerLock))
  {
    hide Heap, Place, Locks, Inserts, Removes, Reads;
    WorkerMove(env, s, BucketHeld(s.m.worker.h));
  }

  lemma WorkerLastTableInv(env: Env, s: State)
    requires WfEnv(env) && Inv(env, s) && Can(env, s, WorkerLastTable)
    ensures Inv(env, Do(env, s, WorkerLastTable))
  {
    hide Heap, Place, Locks, Inserts, Removes, Reads;
    LastTableIs(env, s.m, s.m.tbl);
    WorkerMove(env, s, Target(s.m.worker.h, |s.m.tables| - 1));
  }

  // ------------------------------------------------------------------- attach

  lemma AttachInv(env: Env, s: State, ev: Event)
    requires WfEnv(env) && Inv(env, s) && ev.Attach? && Can(env, s, ev)
    ensures Inv(env, Do(env, s, ev))
  {
    hide Heap, Place, Locks;
    var m' := AttachTable(s.m, ev.t);
    assert ev.t == |s.m.tables| - 1;
    assert MemInv(env, m') by { AttachMem(env, s.m, ev.t); }
    assert Locks(env, m', s.threads) by { LocksFrame(env, s.m, m', s.threads); }
    hide WorkerOk;
    forall j | j in s.threads
      ensures InsertOk(env, m', s.threads[j]) && RemoveOk(m', s.threads[j]) && ReadOk(m', s.grace, j, s.threads[j])
    {
      assert InsertOk(env, s.m, s.threads[j]) && RemoveOk(s.m, s.threads[j]) && ReadOk(s.m, s.grace, j, s.threads[j]);
      ThreadFrame(env, s.m, m', s.grace, j, s.threads[j]);
    }
  }

  lemma LocksFrame(env: Env, m: Mem, m': Mem, threads: map<Tid, Pc>)
    requires Locks(env, m, threads)
    requires LocksOfWorker(env, m'.tbl, m'.worker) <= LocksOfWorker(env, m.tbl, m.worker)
    ensures Locks(env, m', threads)
  {}

  lemma AttachMem(env: Env, m: Mem, t: nat)
    requires MemInv(env, m) && t == |m.tables| - 1
    ensures MemInv(env, AttachTable(m, t))
  {
    hide Heap, Place, WorkerOk;
    var m' := AttachTable(m, t);
    AttachShape(env, m, t);
    PlaceBounds(env, m);
    PlaceFrame(env, m, m');
    HeapFrame(m, m');
    AttachWorker(env, m, t);
  }

  lemma AttachShape(env: Env, m: Mem, t: nat)
    requires Shape(env, m) && t == |m.tables| - 1
    ensures Shape(env, AttachTable(m, t))
  {}

  lemma AttachWorker(env: Env, m: Mem, t: nat)
    requires t == |m.tables| - 1 && m.tbl < |m.tables| && WorkerOk(env, m)
    ensures WorkerOk(env, AttachTable(m, t))
  {}

  lemma HeapFrame(m: Mem, m': Mem)
    requires Heap(m)
    requires m'.heads == m.heads && m'.next == m.next && m'.lists == m.lists
    requires m'.tbl == m.tbl && m'.worker == m.worker
    ensures Heap(m')
  {
    forall t: nat, h: nat ensures Linked(m'.next, Head(m', t, h), Phys(m', t, h), Loose(m', t, h)) {
      assert Linked(m.next, Head(m, t, h), Phys(m, t, h), Loose(m, t, h));
    }
  }

  // --------------------------------------------------- an empty chain, publish

  lemma WorkerEmptyInv(env: Env, s: State, ev: Event)
    requires WfEnv(env) && Inv(env, s) && ev.WorkerEmpty? && Can(env, s, ev)
    ensures Inv(env, Do(env, s, ev))
  {
    hide Heap, Place, GraceOk;
    var m' := Bump(s.m);
    assert MemInv(env, m') by {
      LockedChain(s.m, s.m.tbl, s.m.worker.h, ev.chain);
      BumpMem(env, s.m);
    }
    assert Locks(env, m', s.threads) by { LocksFrame(env, s.m, m', s.threads); }
    forall j | j in s.threads
      ensures InsertOk(env, m', s.threads[j]) && RemoveOk(m', s.threads[j]) && ReadOk(m', s.grace, j, s.threads[j])
    {
      if HoldsFirst(s.threads[j]) { WorkerConflict(env, s.m, s.threads[j]); }
      BumpThread(env, s.m, s.threads[j]);
    }
    assert GraceOk(m', s.grace, Readers(s.threads)) by { GraceFrame(s.m, m', s.grace, Readers(s.threads)); }
  }

  lemma GraceFrame(m: Mem, m': Mem, grace: map<Obj, set<Tid>>, readers: set<Tid>)
    requires GraceOk(m, grace, readers) && m'.loc.Keys == m.loc.Keys
    requires forall o :: o !in m.loc ==> Next(m'.next, o) == Next(m.next, o)
    ensures GraceOk(m', grace, readers)
  {
    forall r | Grace(grace, r) != {} && Next(m'.next, r).Node?
      ensures Next(m'.next, r).obj in m'.loc || Grace(grace, r) <= Grace(grace, Next(m'.next, r).obj)
    {
      assert Next(m'.next, r) == Next(m.next, r);
    }
  }

  lemma BumpMem(env: Env, m: Mem)
    requires WfEnv(env) && MemInv(env, m) && m.worker.Target? && List(m, m.tbl, m.worker.h) == []
    ensures MemInv(env, Bump(m))
  {
    var m' := Bump(m);
    assert Heap(m') by {
      hide Place;
      WorkerMoveHeap(m, m'.worker);
      HeapFrame(m.(worker := m'.worker), m');
    }
    hide Heap;
    forall o | o in m.loc && m.loc[o] == m.tbl ensures m.worker.h + 1 <= ObjBucket(env, m.tbl, o) {
      assert o in List(m, m.tbl, ObjBucket(env, m.tbl, o));
    }
    PlaceFrame(env, m, m');
  }

  lemma BumpThread(env: Env, m: Mem, pc: Pc)
    requires Shape(env, m) && WorkerOk(env, m) && m.worker.Target?
    requires InsertOk(env, m, pc) && RemoveOk(m, pc)
    requires HoldsFirst(pc) ==> ObjBucket(env, m.tbl, pc.obj) != m.worker.h
    ensures InsertOk(env, Bump(m), pc) && RemoveOk(Bump(m), pc)
  {}

  lemma WorkerPublishInv(env: Env, s: State)
    requires WfEnv(env) && Inv(env, s) && Can(env, s, WorkerPublish)
    ensures Inv(env, Do(env, s, WorkerPublish))
  {
    hide Heap, Place, GraceOk;
    var m' := Do(env, s, WorkerPublish).m;
    assert m' == s.m.(tbl := s.m.tbl + 1, worker := Resting);
    PublishMem(env, s.m);
    assert Locks(env, m', s.threads) by { LocksFrame(env, s.m, m', s.threads); }
    forall j | j in s.threads
      ensures InsertOk(env, m', s.threads[j]) && RemoveOk(m', s.threads[j]) && ReadOk(m', s.grace, j, s.threads[j])
    {
      PublishThread(env, s.m, s.threads[j]);
    }
    assert GraceOk(m', s.grace, Readers(s.threads)) by { GraceFrame(s.m, m', s.grace, Readers(s.threads)); }
  }

  lemma PublishMem(env: Env, m: Mem)
    requires WfEnv(env) && MemInv(env, m) && m.worker.AtBucket? && m.worker.h == env.size(m.tbl)
    ensures MemInv(env, m.(tbl := m.tbl + 1, worker := Resting))
  {
    var m' := m.(tbl := m.tbl + 1, worker := Resting);
    forall t: nat, h: nat ensures Linked(m'.next, Head(m', t, h), Phys(m', t, h), Loose(m', t, h)) {
      assert Linked(m.next, Head(m, t, h), Phys(m, t, h), Loose(m, t, h));
    }
    hide Heap;
    forall o | o in m.loc ensures m.loc[o] > m.tbl {
      assert ObjBucket(env, m.tbl, o) < env.size(m.tbl);
    }
    PlaceFrame(env, m, m');
  }

  lemma PublishThread(env: Env, m: Mem, pc: Pc)
    requires WfEnv(env) && Shape(env, m) && WorkerOk(env, m) && m.worker.AtBucket? && m.worker.h == env.size(m.tbl)
    requires InsertOk(env, m, pc) && RemoveOk(m, pc)
    ensures var m' := m.(tbl := m.tbl + 1, worker := Resting); InsertOk(env, m', pc) && RemoveOk(m', pc)
  {
    if HoldsFirst(pc) {
      assert Oldest(env, m, pc.obj, FirstOf(pc));
      assert ObjBucket(env, m.tbl, pc.obj) < env.size(m.tbl);
    }
  }

  // ----------------------------------------------------- moving the last entry

  /** An element is at one position of one list. */
  lemma OnePosition(env: Env, m: Mem, t: nat, h: nat, i: nat, u: nat, g: nat, j: nat)
    requires m.tbl < |m.tables| && Place(env, m)
    requires i < |List(m, t, h)| && j < |List(m, u, g)| && List(m, t, h)[i] == List(m, u, g)[j]
    ensures t == u && h == g && i == j
  {
    var a, b := List(m, t, h), List(m, u, g);
    var x := a[i];
    assert x in List(m, t, h) && x in List(m, u, g);
    assert m.loc[x] == t && m.loc[x] == u && ObjBucket(env, t, x) == h && ObjBucket(env, u, x) == g;
    assert NoDup(a);
  }

  lemma WorkerStoreNextInv(env: Env, s: State, ev: Event)
    requires WfEnv(env) && Inv(env, s) && ev.WorkerStoreNext? && Can(env, s, ev)
    ensures Inv(env, Do(env, s, ev))
  {
    hide Heap, Place, GraceOk;
    var w := s.m.worker;
    LockedChain(s.m, s.m.tbl, w.h, ev.chain);
    var e := ev.chain[|ev.chain| - 1];
    var m' := StoreNext(env, s.m, ev.chain);
    StoreNextMem(env, s.m);
    assert Locks(env, m', s.threads) by {
      assert LocksOfWorker(env, m'.tbl, m'.worker) ==
             LocksOfWorker(env, s.m.tbl, w) + {LockOf(env, w.n, ObjBucket(env, w.n, e))};
    }
    forall j | j in s.threads
      ensures InsertOk(env, m', s.threads[j]) && RemoveOk(m', s.threads[j]) && ReadOk(m', s.grace, j, s.threads[j])
    {
      ThreadFrame(env, s.m, m', s.grace, j, s.threads[j]);
    }
    assert GraceOk(m', s.grace, Readers(s.threads)) by { GraceFrame(s.m, m', s.grace, Readers(s.threads)); }
  }

  lemma StoreNextMem(env: Env, m: Mem)
    requires WfEnv(env) && MemInv(env, m) && m.worker.Target? && List(m, m.tbl, m.worker.h) != []
    ensures var l := List(m, m.tbl, m.worker.h);
            l[|l| - 1] in m.loc && MemInv(env, StoreNext(env, m, l))
  {
    hide Heap, Place, Linked;
    var l := List(m, m.tbl, m.worker.h);
    var m' := StoreNext(env, m, l);
    ListedInTable(env, m, m.tbl, m.worker.h, |l| - 1);
    StoreNextHeap(env, m);
    PlaceBounds(env, m);
    PlaceFrame(env, m, m');
    assert WorkerOk(env, m');
  }

  lemma StoreNextHeap(env: Env, m: Mem)
    requires MemInv(env, m) && m.worker.Target? && List(m, m.tbl, m.worker.h) != []
    ensures Heap(StoreNext(env, m, List(m, m.tbl, m.worker.h)))
  {
    hide WorkerOk, Place;
    var l := List(m, m.tbl, m.worker.h);
    var e := l[|l| - 1];
    var m' := StoreNext(env, m, l);
    forall t: nat, h: nat ensures Linked(m'.next, Head(m', t, h), Phys(m', t, h), Loose(m', t, h)) {
      var p := List(m, t, h);
      assert Phys(m, t, h) == p == Phys(m', t, h);
      assert Linked(m.next, Head(m, t, h), p, false);
      forall i | 0 <= i < |p| && (Loose(m', t, h) ==> i + 1 < |p|) ensures Next(m'.next, p[i]) == PtrAt(p, i + 1) {
        assert Next(m.next, p[i]) == PtrAt(p, i + 1);
        if p[i] == e { OnePosition(env, m, t, h, i, m.tbl, m.worker.h, |l| - 1); }
      }
    }
  }

  lemma WorkerStoreHeadInv(env: Env, s: State)
    requires WfEnv(env) && Inv(env, s) && Can(env, s, WorkerStoreHead)
    ensures Inv(env, Do(env, s, WorkerStoreHead))
  {
    hide Heap, Place, GraceOk, Can, Do;
    StoreHeadDoes(env, s);
    var m' := StoreHead(env, s.m);
    EntryPlace(env, s.m);
    StoreHeadMem(env, s.m);
    assert Locks(env, m', s.threads) by { LocksFrame(env, s.m, m', s.threads); }
    forall j | j in s.threads
      ensures InsertOk(env, m', s.threads[j]) && RemoveOk(m', s.threads[j]) && ReadOk(m', s.grace, j, s.threads[j])
    {
      if HoldsFirst(s.threads[j]) { WorkerConflict(env, s.m, s.threads[j]); }
      StoreHeadThread(env, s.m, s.threads[j]);
    }
    assert GraceOk(m', s.grace, Readers(s.threads)) by { GraceFrame(s.m, m', s.grace, Readers(s.threads)); }
  }

  lemma StoreHeadDoes(env: Env, s: State)
    requires Can(env, s, WorkerStoreHead)
    ensures s.m.worker.Linking? && Do(env, s, WorkerStoreHead) == s.(m := StoreHead(env, s.m))
  {}

  lemma EntryPlace(env: Env, m: Mem)
    requires MemInv(env, m) && m.worker.Linking?
    ensures m.worker.entry in m.loc && m.loc[m.worker.entry] == m.tbl && ObjBucket(env, m.tbl, m.worker.entry) == m.worker.h
  {
    var l := List(m, m.tbl, m.worker.h);
    assert l[|l| - 1] in l;
  }

  lemma StoreHeadThread(env: Env, m: Mem, pc: Pc)
    requires Shape(env, m) && WorkerOk(env, m) && m.worker.Linking?
    requires m.worker.entry in m.loc && m.loc[m.worker.entry] == m.tbl && ObjBucket(env, m.tbl, m.worker.entry) == m.worker.h
    requires InsertOk(env, m, pc) && RemoveOk(m, pc)
    requires HoldsFirst(pc) ==> ObjBucket(env, m.tbl, pc.obj) != m.worker.h
    ensures InsertOk(env, StoreHead(env, m), pc) && RemoveOk(StoreHead(env, m), pc)
  {
    assert HoldsFirst(pc) ==> env.key(pc.obj) != env.key(m.worker.entry);
  }

  lemma StoreHeadMem(env: Env, m: Mem)
    requires WfEnv(env) && MemInv(env, m) && m.worker.Linking?
    ensures MemInv(env, StoreHead(env, m))
  {
    hide Heap, Place;
    EntryPlace(env, m);
    StoreHeadHeap(env, m);
    StoreHeadPlace(env, m);
    var l := List(m, m.tbl, m.worker.h);
    assert List(StoreHead(env, m), m.tbl, m.worker.h) == l[..|l| - 1];
  }

  lemma StoreHeadHeap(env: Env, m: Mem)
    requires MemInv(env, m) && m.worker.Linking?
    ensures Heap(StoreHead(env, m))
  {
    hide Place;
    var w := m.worker;
    var g := ObjBucket(env, w.n, w.entry);
    var m' := StoreHead(env, m);
    var l := List(m, m.tbl, w.h);
    forall t: nat, h: nat ensures Linked(m'.next, Head(m', t, h), Phys(m', t, h), Loose(m', t, h)) {
      var p := Phys(m, t, h);
      assert Linked(m.next, Head(m, t, h), p, Loose(m, t, h));
      if t == w.n && h == g {
        var q := [w.entry] + p;
        assert Phys(m', t, h) == q;
        forall i | 0 <= i < |q| ensures Next(m'.next, q[i]) == PtrAt(q, i + 1) {
          if i > 0 { assert q[i] == p[i - 1]; assert Next(m.next, p[i - 1]) == PtrAt(p, i); }
        }
      } else {
        if t == m.tbl && h == w.h { assert l[..|l| - 1] + [w.entry] == l; }
        assert Phys(m', t, h) == p && Head(m', t, h) == Head(m, t, h);
      }
    }
  }

  lemma StoreHeadPlace(env: Env, m: Mem)
    requires Shape(env, m) && WorkerOk(env, m) && Place(env, m) && m.worker.Linking?
    ensures Place(env, StoreHead(env, m))
  {
    var w := m.worker;
    var m' := StoreHead(env, m);
    forall t: nat, h: nat
      ensures NoDup(List(m', t, h))
      ensures forall o :: o in List(m', t, h) ==> o in m'.loc && m'.loc[o] == t && ObjBucket(env, t, o) == h
      ensures forall o :: o in List(m, t, h) && o != w.entry ==> o in List(m', t, h)
    {
      StoreHeadList(env, m, t, h);
    }
    forall o | o in m'.loc ensures o in List(m', m'.loc[o], ObjBucket(env, m'.loc[o], o)) {
      if o == w.entry {
        StoreHeadList(env, m, w.n, ObjBucket(env, w.n, w.entry));
      } else {
        assert o in List(m, m.loc[o], ObjBucket(env, m.loc[o], o));
      }
    }
  }

  lemma StoreHeadList(env: Env, m: Mem, t: nat, h: nat)
    requires Shape(env, m) && WorkerOk(env, m) && Place(env, m) && m.worker.Linking?
    ensures var m' := StoreHead(env, m);
            && NoDup(List(m', t, h))
            && (forall o :: o in List(m', t, h) ==> o in m'.loc && m'.loc[o] == t && ObjBucket(env, t, o) == h)
            && (forall o :: o in List(m, t, h) && o != m.worker.entry ==> o in List(m', t, h))
            && (t == m.worker.n && h == ObjBucket(env, t, m.worker.entry) ==> m.worker.entry in List(m', t, h))
  {
    hide Shape, Bounds, PlacedListed;
    var w := m.worker;
    var m' := StoreHead(env, m);
    var l := List(m, m.tbl, w.h);
    var k := List(m, t, h);
    assert w.entry == l[|l| - 1] && w.entry in List(m, m.tbl, w.h) && NoDup(l) && NoDup(k);
    assert m.loc[w.entry] == m.tbl && ObjBucket(env, m.tbl, w.entry) == w.h;
    assert forall o :: o in List(m, t, h) ==> o in m.loc && m.loc[o] == t && ObjBucket(env, t, o) == h;
    if t == w.n && h == ObjBucket(env, w.n, w.entry) {
      assert forall o :: o in List(m, t, h) ==> m.loc[o] == w.n;
      assert w.entry !in k;
      assert List(m', t, h) == [w.entry] + k;
      assert NoDup([w.entry] + k);
    } else if t == m.tbl && h == w.h {
      DropAt(l, |l| - 1);
      assert List(m', t, h) == l[..|l| - 1] + l[|l|..];
    } else {
      assert w.entry !in k;
      assert List(m', t, h) == k;
    }
  }

  lemma WorkerUnlinkInv(env: Env, s: State)
    requires WfEnv(env) && Inv(env, s) && Can(env, s, WorkerUnlink)
    ensures Inv(env, Do(env, s, WorkerUnlink))
  {
    hide Heap, Place, GraceOk, Can, Do;
    UnlinkDoes(env, s);
    var m' := UnlinkOld(s.m);
    UnlinkOldMem(env, s.m);
    assert Locks(env, m', s.threads) by { LocksFrame(env, s.m, m', s.threads); }
    forall j | j in s.threads
      ensures InsertOk(env, m', s.threads[j]) && RemoveOk(m', s.threads[j]) && ReadOk(m', s.grace, j, s.threads[j])
    {
      ThreadFrame(env, s.m, m', s.grace, j, s.threads[j]);
    }
    assert GraceOk(m', s.grace, Readers(s.threads)) by { GraceFrame(s.m, m', s.grace, Readers(s.threads)); }
  }

  lemma UnlinkDoes(env: Env, s: State)
    requires Can(env, s, WorkerUnlink)
    ensures s.m.worker.Unlinking? && Do(env, s, WorkerUnlink) == s.(m := UnlinkOld(s.m))
  {}

  lemma PlaceBounds(env: Env, m: Mem)
    requires m.tbl < |m.tables| && Place(env, m)
    ensures forall o :: o in m.loc ==> m.tbl <= m.loc[o] < |m.tables|
    ensures forall o :: o in m.loc && m.loc[o] == m.tbl ==> m.tables[m.tbl].rehash <= ObjBucket(env, m.tbl, o)
  {}

  lemma UnlinkOldMem(env: Env, m: Mem)
    requires WfEnv(env) && MemInv(env, m) && m.worker.Unlinking?
    ensures MemInv(env, UnlinkOld(m))
    ensures m.worker.prev.Some? ==> m.worker.prev.value in m.loc
  {
    hide Heap, Place, Shape, WorkerOk;
    UnlinkOldHeap(env, m);
    UnlinkOldPrev(env, m);
    UnlinkOldShape(env, m);
    PlaceBounds(env, m);
    PlaceFrame(env, m, UnlinkOld(m));
  }

  lemma UnlinkOldPrev(env: Env, m: Mem)
    requires MemInv(env, m) && m.worker.Unlinking?
    ensures m.worker.prev.Some? ==> m.worker.prev.value in m.loc
  {
    hide Heap, Place, Shape;
    var l := List(m, m.tbl, m.worker.h);
    if m.worker.prev.Some? { ListedInTable(env, m, m.tbl, m.worker.h, |l| - 1); }
  }

  lemma UnlinkOldShape(env: Env, m: Mem)
    requires Shape(env, m) && WorkerOk(env, m) && m.worker.Unlinking?
    ensures var m' := UnlinkOld(m); Shape(env, m') && WorkerOk(env, m')
  {}

  lemma UnlinkOldHeap(env: Env, m: Mem)
    requires MemInv(env, m) && m.worker.Unlinking?
    ensures Heap(UnlinkOld(m))
  {
    hide Place, Shape, WorkerOk, Linked;
    var m' := UnlinkOld(m);
    forall t: nat, h: nat ensures Linked(m'.next, Head(m', t, h), Phys(m', t, h), Loose(m', t, h)) {
      assert Linked(m.next, Head(m, t, h), Phys(m, t, h), Loose(m, t, h));
      assert Phys(m', t, h) == List(m, t, h);
      if t == m.tbl && h == m.worker.h {
        UnlinkOldHere(env, m);
      } else {
        assert Phys(m, t, h) == List(m, t, h);
        UnlinkOldElsewhere(env, m, t, h);
      }
    }
  }

  lemma UnlinkOldHere(env: Env, m: Mem)
    requires Shape(env, m) && WorkerOk(env, m) && Place(env, m) && m.worker.Unlinking?
    requires Linked(m.next, Head(m, m.tbl, m.worker.h), Phys(m, m.tbl, m.worker.h), true)
    ensures var m' := UnlinkOld(m); Linked(m'.next, Head(m', m.tbl, m.worker.h), List(m, m.tbl, m.worker.h), false)
  {
    var m' := UnlinkOld(m);
    var l := List(m, m.tbl, m.worker.h);
    var p := l + [m.worker.entry];
    assert NoDup(l);
    hide Place, Shape;
    forall i | 0 <= i < |l| ensures Next(m'.next, l[i]) == PtrAt(l, i + 1) {
      if i + 1 < |l| { assert p[i] == l[i] && Next(m.next, p[i]) == PtrAt(p, i + 1); }
    }
  }

  lemma UnlinkOldElsewhere(env: Env, m: Mem, t: nat, h: nat)
    requires Shape(env, m) && WorkerOk(env, m) && Place(env, m) && m.worker.Unlinking?
    requires t != m.tbl || h != m.worker.h
    requires Linked(m.next, Head(m, t, h), List(m, t, h), false)
    ensures var m' := UnlinkOld(m); Linked(m'.next, Head(m', t, h), List(m, t, h), false)
  {
    hide Place, Shape;
    var m' := UnlinkOld(m);
    var l := List(m, m.tbl, m.worker.h);
    var q := List(m, t, h);
    forall i | 0 <= i < |q| ensures Next(m'.next, q[i]) == PtrAt(q, i + 1) {
      assert Next(m.next, q[i]) == PtrAt(q, i + 1);
      if l != [] { DifferentLists(env, m, t, h, i, m.tbl, m.worker.h, |l| - 1); }
    }
  }

  lemma DifferentLists(env: Env, m: Mem, t: nat, h: nat, i: nat, u: nat, g: nat, j: nat)
    requires m.tbl < |m.tables| && Place(env, m) && (t != u || h != g)
    requires i < |List(m, t, h)| && j < |List(m, u, g)|
    ensures List(m, t, h)[i] != List(m, u, g)[j]
  {
    var a, b := List(m, t, h)[i], List(m, u, g)[j];
    assert a in List(m, t, h) && b in List(m, u, g);
    assert m.loc[a] == t && m.loc[b] == u && ObjBucket(env, t, a) == h && ObjBucket(env, u, b) == g;
  }

  // -------------------------------------------------------------- every event

  /** Every step keeps the invariant. */
  lemma StepInv(env: Env, s: State, ev: Event)
    requires WfEnv(env) && Inv(env, s) && Can(env, s, ev)
    ensures Inv(env, Do(env, s, ev))
  {
    hide Inv;
    match ev
    case InsertStart(_, _, _) => InsertStartInv(env, s, ev);
    case FastLock(_) => FastLockInv(env, s, ev);
    case FastLookup(_, _) => FastLookupInv(env, s, ev);
    case SeekLock(_) => SeekLockInv(env, s, ev);
    case Lookup(_, _) => LookupInv(env, s, ev);
    case TestFuture(_) => TestFutureInv(env, s, ev);
    case FollowLock(_) => FollowLockInv(env, s, ev);
    case GiveUp(_, _) => GiveUpInv(env, s, ev);
    case Link(_) => LinkInv(env, s, ev);
    case RemoveStart(_, _) => RemoveStartInv(env, s, ev);
    case RemoveOne(_, _) => RemoveOneInv(env, s, ev);
    case RemoveFollow(_) => RemoveFollowInv(env, s, ev);
    case LookupStart(_, _) => LookupStartInv(env, s, ev);
    case ReadHead(_) => ReadHeadInv(env, s, ev);
    case ReadCursor(_) => ReadCursorInv(env, s, ev);
    case ReadFuture(_) => ReadFutureInv(env, s, ev);
    case Attach(_) => AttachInv(env, s, ev);
    case WorkerStart => WorkerStartInv(env, s);
    case WorkerLock => WorkerLockInv(env, s);
    case WorkerLastTable => WorkerLastTableInv(env, s);
    case WorkerEmpty(_) => WorkerEmptyInv(env, s, ev);
    case WorkerStoreNext(_) => WorkerStoreNextInv(env, s, ev);
    case WorkerStoreHead => WorkerStoreHeadInv(env, s);
    case WorkerUnlink => WorkerUnlinkInv(env, s);
    case WorkerPublish => WorkerPublishInv(env, s);
  }
}
