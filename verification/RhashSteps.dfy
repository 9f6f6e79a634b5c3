/** Each event keeps the invariant. */
module RhashSteps {
  import opened Common
  import opened RhashModel
  import opened RhashInvariant

  // -------------------------------------------------------- mutual exclusion

  /** A thread past SeekLock or FastLock, up to its release of the first lock. */
  predicate HoldsFirst(pc: Pc) {
    pc.FastHeld? || pc.Held? || pc.Scanned? || pc.Follow? || pc.Commit?
  }

  function FirstOf(pc: Pc): nat
    requires HoldsFirst(pc)
  {
    if pc.FastHeld? then pc.t else pc.first
  }

  /** Two inserters of one key cannot both hold the lock of the oldest bucket
      not yet rehashed. */
  lemma SameKeyConflict(env: Env, m: Mem, a: Pc, b: Pc)
    requires WfEnv(env) && Shape(env, m) && HoldsFirst(a) && HoldsFirst(b)
    requires InsertOk(env, m, a) && InsertOk(env, m, b)
    requires LocksOfPc(env, a) !! LocksOfPc(env, b)
    ensures env.key(a.obj) != env.key(b.obj)
  {
    var f, g := FirstOf(a), FirstOf(b);
    assert Oldest(env, m, a.obj, f) && Oldest(env, m, b.obj, g);
    assert LockOf(env, f, ObjBucket(env, f, a.obj)) in LocksOfPc(env, a);
    assert LockOf(env, g, ObjBucket(env, g, b.obj)) in LocksOfPc(env, b);
  }

  /** While an inserter of a key holds its first lock the worker is not working
      on the bucket of that key in the old table. */
  lemma WorkerConflict(env: Env, m: Mem, pc: Pc)
    requires WfEnv(env) && Shape(env, m) && WorkerOk(env, m) && HoldsFirst(pc) && InsertOk(env, m, pc)
    requires m.worker.BucketHeld? || m.worker.Target? || Moving(m.worker)
    requires LocksOfPc(env, pc) !! LocksOfWorker(env, m.tbl, m.worker)
    ensures ObjBucket(env, m.tbl, pc.obj) != m.worker.h
  {
    var f := FirstOf(pc);
    assert Oldest(env, m, pc.obj, f);
    assert LockOf(env, f, ObjBucket(env, f, pc.obj)) in LocksOfPc(env, pc);
    assert LockOf(env, m.tbl, m.worker.h) in LocksOfWorker(env, m.tbl, m.worker);
  }

  /** A bucket whose lock the worker does not hold is not being moved. */
  lemma NotMoving(env: Env, m: Mem, t: nat, h: nat)
    requires LockOf(env, t, h) !in LocksOfWorker(env, m.tbl, m.worker)
    ensures !Loose(m, t, h)
    ensures m.worker.Linking? ==> (t, h) != (m.worker.n, ObjBucket(env, m.worker.n, m.worker.entry))
  {}

  /** The chain of the key's bucket in table t has no such key: then no element
      of table t has it. */
  lemma ScannedKey(env: Env, m: Mem, t: nat, k: Key)
    requires m.tbl < |m.tables| && Place(env, m)
    requires forall j :: 0 <= j < |List(m, t, Bucket(env, t, k))| ==> env.key(List(m, t, Bucket(env, t, k))[j]) != k
    ensures forall x :: x in m.loc && env.key(x) == k ==> m.loc[x] != t
  {
    forall x | x in m.loc && env.key(x) == k ensures m.loc[x] != t {
      assert x in List(m, m.loc[x], ObjBucket(env, m.loc[x], x));
    }
  }

  /** Thread `tid` ends its call and memory becomes m': what is left to show is
      what is asked of each other thread. */
  lemma FinishStep(env: Env, s: State, m': Mem, grace': map<Obj, set<Tid>>, tid: Tid, pc: Pc)
    requires MemInv(env, m') && s.m.tbl < |s.m.tables| && Locks(env, s.m, s.threads) && Inserts(env, s.m, s.threads)
    requires m'.tbl < |m'.tables|
    requires Finished(pc) && m'.tbl == s.m.tbl && m'.worker == s.m.worker
    requires GraceOk(m', grace', Readers(s.threads[tid := pc]))
    requires forall j :: j in s.threads && j != tid ==>
               InsertOk(env, m', s.threads[j]) && RemoveOk(m', s.threads[j]) && ReadOk(m', grace', j, s.threads[j])
    ensures Inv(env, State(m', grace', s.threads[tid := pc]))
  {
    hide MemInv, GraceOk, InsertOk, RemoveOk, ReadOk;
    var threads' := s.threads[tid := pc];
    assert Locks(env, m', threads') by { FinishLocks(env, s, m', tid, pc); }
    hide Locks, LocksOfPc;
    assert Inserts(env, m', threads') by { FinishInserts(env, s, m', tid, pc); }
    hide Inserts, Apart;
    assert RemoveOk(m', pc) && ReadOk(m', grace', tid, pc) by { FinishedOk(env, m', grace', tid, pc); }
  }

  lemma FinishedOk(env: Env, m: Mem, grace: map<Obj, set<Tid>>, tid: Tid, pc: Pc)
    requires Finished(pc) && m.tbl < |m.tables|
    ensures InsertOk(env, m, pc) && RemoveOk(m, pc) && ReadOk(m, grace, tid, pc)
  {}

  lemma FinishLocks(env: Env, s: State, m': Mem, tid: Tid, pc: Pc)
    requires Locks(env, s.m, s.threads) && Finished(pc) && m'.tbl == s.m.tbl && m'.worker == s.m.worker
    ensures Locks(env, m', s.threads[tid := pc])
  {
    assert LocksOfPc(env, pc) == {};
  }

  lemma FinishInserts(env: Env, s: State, m': Mem, tid: Tid, pc: Pc)
    requires s.m.tbl < |s.m.tables| && Inserts(env, s.m, s.threads) && Finished(pc) && m'.tbl < |m'.tables|
    requires forall j :: j in s.threads && j != tid ==> InsertOk(env, m', s.threads[j])
    ensures Inserts(env, m', s.threads[tid := pc])
  {
    hide InsertOk;
    FinishedOk(env, m', map[], tid, pc);
  }

  // --------------------------------------------- inserter steps before linking

  lemma InsertStartInv(env: Env, s: State, ev: Event)
    requires WfEnv(env) && Inv(env, s) && ev.InsertStart? && Can(env, s, ev)
    ensures Inv(env, Do(env, s, ev))
  {
    PcStep(env, s, ev.tid, FastStart(ev.obj, ev.keyed, s.m.tbl));
  }

  lemma FastLockInv(env: Env, s: State, ev: Event)
    requires WfEnv(env) && Inv(env, s) && ev.FastLock? && Can(env, s, ev)
    ensures Inv(env, Do(env, s, ev))
  {
    var pc := PcOf(s, ev.tid);
    if s.m.tables[pc.t].future.Some? {
      PcStep(env, s, ev.tid, Seek(pc.obj, pc.keyed, s.m.tbl));
    } else {
      assert pc.t == s.m.tbl && s.m.worker.Resting?;
      PcStep(env, s, ev.tid, FastHeld(pc.obj, pc.keyed, pc.t));
    }
  }

  lemma FastLookupInv(env: Env, s: State, ev: Event)
    requires WfEnv(env) && Inv(env, s) && ev.FastLookup? && Can(env, s, ev)
    ensures Inv(env, Do(env, s, ev))
  {
    hide Heap, Place, GraceOk, Shape, WorkerOk;
    var pc := PcOf(s, ev.tid);
    var h := ObjBucket(env, pc.t, pc.obj);
    assert LockOf(env, pc.t, h) in LocksOfPc(env, pc);
    NotMoving(env, s.m, pc.t, h);
    LockedChain(s.m, pc.t, h, ev.chain);
    var i := FindDuplicate(env, ev.chain, pc.obj, pc.keyed);
    if i < |ev.chain| {
      PcStep(env, s, ev.tid, InsertDone(pc.obj, Exists(ev.chain[i])));
    } else {
      var pc' := Commit(pc.obj, pc.keyed, pc.t, pc.t);
      if pc.keyed { ScannedKey(env, s.m, pc.t, env.key(pc.obj)); }
      assert pc.keyed ==> KeyAbsent(env, s.m, env.key(pc.obj));
      assert LocksOfPc(env, pc') == LocksOfPc(env, pc);
      PcStep(env, s, ev.tid, pc');
    }
  }

  lemma SeekLockInv(env: Env, s: State, ev: Event)
    requires WfEnv(env) && Inv(env, s) && ev.SeekLock? && Can(env, s, ev)
    ensures Inv(env, Do(env, s, ev))
  {
    hide Heap, GraceOk, WorkerOk;
    var pc := PcOf(s, ev.tid);
    var h := ObjBucket(env, pc.t, pc.obj);
    if s.m.tables[pc.t].rehash <= h {
      var pc' := Held(pc.obj, pc.keyed, pc.t, pc.t);
      assert Oldest(env, s.m, pc.obj, pc.t);
      assert KeyFrom(env, s.m, env.key(pc.obj), pc.t);
      assert LocksOfPc(env, pc') == {LockOf(env, pc.t, h)};
      PcStep(env, s, ev.tid, pc');
    } else {
      PcStep(env, s, ev.tid, Seek(pc.obj, pc.keyed, s.m.tables[pc.t].future.value));
    }
  }

  lemma LookupInv(env: Env, s: State, ev: Event)
    requires WfEnv(env) && Inv(env, s) && ev.Lookup? && Can(env, s, ev)
    ensures Inv(env, Do(env, s, ev))
  {
    hide Heap, Place, GraceOk, WorkerOk;
    var pc := PcOf(s, ev.tid);
    var h := ObjBucket(env, pc.at, pc.obj);
    assert LockOf(env, pc.at, h) in LocksOfPc(env, pc);
    NotMoving(env, s.m, pc.at, h);
    LockedChain(s.m, pc.at, h, ev.chain);
    var i := FindDuplicate(env, ev.chain, pc.obj, pc.keyed);
    if i < |ev.chain| {
      PcStep(env, s, ev.tid, InsertDone(pc.obj, Exists(ev.chain[i])));
    } else {
      var pc' := Scanned(pc.obj, pc.keyed, pc.first, pc.at);
      if pc.keyed { ScannedKey(env, s.m, pc.at, env.key(pc.obj)); }
      assert pc.keyed ==> KeyFrom(env, s.m, env.key(pc.obj), pc.at + 1);
      assert LocksOfPc(env, pc') == LocksOfPc(env, pc);
      PcStep(env, s, ev.tid, pc');
    }
  }

  lemma NothingBeyond(env: Env, m: Mem, k: Key, at: nat)
    requires Shape(env, m) && Place(env, m) && at < |m.tables| && m.tables[at].future.None? && KeyFrom(env, m, k, at + 1)
    ensures KeyAbsent(env, m, k)
  {}

  /** A slow inserter that goes on with no new lock. */
  lemma KeepLocks(env: Env, s: State, tid: Tid, pc: Pc)
    requires Inv(env, s) && PcOf(s, tid).Scanned? && (pc.Commit? || pc.Follow?)
    requires pc.obj == PcOf(s, tid).obj && pc.keyed == PcOf(s, tid).keyed && LocksOfPc(env, pc) <= LocksOfPc(env, PcOf(s, tid))
    requires InsertOk(env, s.m, pc)
    ensures Inv(env, SetPc(s, tid, pc))
  {
    hide Heap, Place, GraceOk, WorkerOk, Linked, LocksOfPc, InsertOk;
    var q := PcOf(s, tid);
    assert tid in s.threads && s.threads[tid] == q;
    PcStep(env, s, tid, pc);
  }

  lemma InsertFacts(env: Env, s: State, tid: Tid)
    requires Inv(env, s) && Inserting(PcOf(s, tid))
    ensures s.m.tbl < |s.m.tables| && Shape(env, s.m) && Place(env, s.m) && InsertOk(env, s.m, PcOf(s, tid))
  {}

  lemma TestFutureDoes(env: Env, s: State, ev: Event)
    requires ev.TestFuture? && Can(env, s, ev)
    ensures var pc := PcOf(s, ev.tid);
            && pc.Scanned? && pc.at < |s.m.tables|
            && Do(env, s, ev) == SetPc(s, ev.tid, match s.m.tables[pc.at].future
                                                  case None => Commit(pc.obj, pc.keyed, pc.first, pc.at)
                                                  case Some(u) => Follow(pc.obj, pc.keyed, pc.first, u))
  {}

  lemma TestFutureInv(env: Env, s: State, ev: Event)
    requires WfEnv(env) && Inv(env, s) && ev.TestFuture? && Can(env, s, ev)
    ensures Inv(env, Do(env, s, ev))
  {
    hide Inv, Place, Can, Do;
    TestFutureDoes(env, s, ev);
    InsertFacts(env, s, ev.tid);
    var pc := PcOf(s, ev.tid);
    if s.m.tables[pc.at].future.None? {
      if pc.keyed { NothingBeyond(env, s.m, env.key(pc.obj), pc.at); }
      KeepLocks(env, s, ev.tid, Commit(pc.obj, pc.keyed, pc.first, pc.at));
    } else {
      KeepLocks(env, s, ev.tid, Follow(pc.obj, pc.keyed, pc.first, pc.at + 1));
    }
  }

  lemma FollowLockInv(env: Env, s: State, ev: Event)
    requires WfEnv(env) && Inv(env, s) && ev.FollowLock? && Can(env, s, ev)
    ensures Inv(env, Do(env, s, ev))
  {
    hide MemInv, GraceOk, Linked;
    var pc := PcOf(s, ev.tid);
    var pc' := Held(pc.obj, pc.keyed, pc.first, pc.at);
    assert LocksOfPc(env, pc') == LocksOfPc(env, pc) + {LockOf(env, pc.at, ObjBucket(env, pc.at, pc.obj))};
    PcStep(env, s, ev.tid, pc');
  }

  lemma GiveUpInv(env: Env, s: State, ev: Event)
    requires WfEnv(env) && Inv(env, s) && ev.GiveUp? && Can(env, s, ev)
    ensures Inv(env, Do(env, s, ev))
  {
    hide Heap, Place, GraceOk, WorkerOk, Linked;
    var pc := PcOf(s, ev.tid);
    PcStep(env, s, ev.tid, if ev.retry then Seek(pc.obj, pc.keyed, s.m.tbl) else InsertDone(pc.obj, Failed));
  }

  // ------------------------------------------------------------------ linking

  lemma LinkInMem(env: Env, m: Mem, t: nat, h: nat, o: Obj)
    requires WfEnv(env) && MemInv(env, m) && o !in m.loc && h == ObjBucket(env, t, o)
    requires m.tbl <= t < |m.tables| && (t == m.tbl ==> m.tables[t].rehash <= h)
    requires LockOf(env, t, h) !in LocksOfWorker(env, m.tbl, m.worker)
    ensures MemInv(env, LinkIn(m, t, h, o))
  {
    hide Heap, Place, WorkerOk;
    NotMoving(env, m, t, h);
    LinkInHeap(env, m, t, h, o);
    LinkInPlace(env, m, t, h, o);
    LinkInWorker(env, m, t, h, o);
  }

  lemma LinkInHeap(env: Env, m: Mem, t: nat, h: nat, o: Obj)
    requires MemInv(env, m) && o !in m.loc && !Loose(m, t, h)
    ensures Heap(LinkIn(m, t, h, o))
  {
    hide Heap, Place, WorkerOk, Shape, Linked, LinkIn, Phys, Head, Loose;
    var m' := LinkIn(m, t, h, o);
    forall u: nat, g: nat ensures Linked(m'.next, Head(m', u, g), Phys(m', u, g), Loose(m', u, g)) {
      LinkInChain(env, m, t, h, o, u, g);
    }
    HeapIs(m');
  }

  lemma HeapIs(m: Mem)
    requires forall t, h :: Linked(m.next, Head(m, t, h), Phys(m, t, h), Loose(m, t, h))
    ensures Heap(m)
  {
    hide Linked, Head, Phys, Loose;
  }

  lemma LinkInChain(env: Env, m: Mem, t: nat, h: nat, o: Obj, u: nat, g: nat)
    requires MemInv(env, m) && o !in m.loc && !Loose(m, t, h)
    ensures var m' := LinkIn(m, t, h, o); Linked(m'.next, Head(m', u, g), Phys(m', u, g), Loose(m', u, g))
  {
    hide Place, WorkerOk, Shape, Linked;
    var m' := LinkIn(m, t, h, o);
    var p := Phys(m, u, g);
    assert Linked(m.next, Head(m, u, g), p, Loose(m, u, g));
    if o in p { PhysInTable(env, m, u, g, o); }
    if (u, g) == (t, h) {
      assert p == List(m, t, h) && Phys(m', u, g) == [o] + p;
      LinkedFront(m.next, Head(m, t, h), p, o);
    } else {
      assert Phys(m', u, g) == p && Head(m', u, g) == Head(m, u, g);
      LinkedOther(m.next, Head(m, u, g), p, Loose(m, u, g), o, Head(m, t, h));
    }
  }

  lemma LinkedFront(next: map<Obj, Ptr>, head: Ptr, l: seq<Obj>, o: Obj)
    requires Linked(next, head, l, false) && o !in l
    ensures Linked(next[o := head], Node(o), [o] + l, false)
  {
    var q := [o] + l;
    forall i | 0 <= i < |q| ensures Next(next[o := head], q[i]) == PtrAt(q, i + 1) {
      if i > 0 { assert q[i] == l[i - 1] && q[i] in l; assert Next(next, l[i - 1]) == PtrAt(l, i); }
    }
  }

  lemma LinkedOther(next: map<Obj, Ptr>, head: Ptr, l: seq<Obj>, loose: bool, o: Obj, v: Ptr)
    requires Linked(next, head, l, loose) && o !in l
    ensures Linked(next[o := v], head, l, loose)
  {
    forall i | 0 <= i < |l| && (loose ==> i + 1 < |l|) ensures Next(next[o := v], l[i]) == PtrAt(l, i + 1) {
      assert l[i] in l && Next(next, l[i]) == PtrAt(l, i + 1);
    }
  }

  lemma LinkInWorker(env: Env, m: Mem, t: nat, h: nat, o: Obj)
    requires m.tbl < |m.tables| && WorkerOk(env, m) && Place(env, m) && o !in m.loc && h == ObjBucket(env, t, o)
    requires LockOf(env, t, h) !in LocksOfWorker(env, m.tbl, m.worker)
    ensures WorkerOk(env, LinkIn(m, t, h, o))
  {
    NotMoving(env, m, t, h);
    if m.worker.Linking? {
      var l := List(m, m.tbl, m.worker.h);
      assert l[|l| - 1] in l;
    }
  }

  lemma LinkInNoDup(env: Env, m: Mem, t: nat, h: nat, o: Obj)
    requires m.tbl < |m.tables| && Place(env, m) && o !in m.loc
    ensures NoTwins(LinkIn(m, t, h, o))
  {
    var m' := LinkIn(m, t, h, o);
    var l := List(m, t, h);
    assert o !in l;
    assert NoDup([o] + l);
    forall u: nat, g: nat ensures NoDup(List(m', u, g)) {
      if (u, g) == (t, h) { assert List(m', u, g) == [o] + l; } else { assert List(m', u, g) == List(m, u, g); }
    }
  }

  lemma LinkInPlace(env: Env, m: Mem, t: nat, h: nat, o: Obj)
    requires m.tbl < |m.tables| && Place(env, m) && o !in m.loc && h == ObjBucket(env, t, o)
    requires m.tbl <= t < |m.tables| && (t == m.tbl ==> m.tables[t].rehash <= h)
    ensures Place(env, LinkIn(m, t, h, o))
  {
    hide NoTwins, ListedPlaced, PlacedListed;
    LinkInNoDup(env, m, t, h, o);
    LinkInListed(env, m, t, h, o);
    LinkInPlaced(env, m, t, h, o);
  }

  lemma LinkInListed(env: Env, m: Mem, t: nat, h: nat, o: Obj)
    requires ListedPlaced(env, m) && o !in m.loc && h == ObjBucket(env, t, o)
    ensures ListedPlaced(env, LinkIn(m, t, h, o))
  {
    LinkInIs(m, t, h, o);
    var m' := LinkIn(m, t, h, o);
    forall u: nat, g: nat, x | x in List(m', u, g) ensures x in m'.loc && m'.loc[x] == u && ObjBucket(env, u, x) == g {
      if x != o { assert x in List(m, u, g); }
    }
  }

  lemma LinkInPlaced(env: Env, m: Mem, t: nat, h: nat, o: Obj)
    requires PlacedListed(env, m) && o !in m.loc && h == ObjBucket(env, t, o)
    ensures PlacedListed(env, LinkIn(m, t, h, o))
  {
    LinkInIs(m, t, h, o);
    var m' := LinkIn(m, t, h, o);
    forall x | x in m'.loc ensures x in List(m', m'.loc[x], ObjBucket(env, m'.loc[x], x)) {
      if x != o { assert x in List(m, m.loc[x], ObjBucket(env, m.loc[x], x)); }
    }
  }

  lemma LinkInIs(m: Mem, t: nat, h: nat, o: Obj)
    ensures var m' := LinkIn(m, t, h, o);
            && m'.tables == m.tables && m'.tbl == m.tbl && m'.loc == m.loc[o := t]
            && (forall u: nat, g: nat, x :: x in List(m', u, g) <==> x in List(m, u, g) || (x == o && u == t && g == h))
  {}

  lemma LinkDoes(env: Env, s: State, ev: Event)
    requires ev.Link? && Can(env, s, ev)
    ensures var pc := PcOf(s, ev.tid);
            && pc.Commit?
            && Do(env, s, ev) == State(LinkIn(s.m, pc.at, ObjBucket(env, pc.at, pc.obj), pc.obj), s.grace,
                s.threads[ev.tid := InsertDone(pc.obj, Inserted)])
  {}

  lemma LinkInv(env: Env, s: State, ev: Event)
    requires WfEnv(env) && Inv(env, s) && ev.Link? && Can(env, s, ev)
    ensures Inv(env, Do(env, s, ev))
  {
    hide Heap, Place, WorkerOk, GraceOk, Can, Do;
    LinkDoes(env, s, ev);
    var pc := PcOf(s, ev.tid);
    var h := ObjBucket(env, pc.at, pc.obj);
    assert LockOf(env, pc.at, h) in LocksOfPc(env, pc);
    LinkInMem(env, s.m, pc.at, h, pc.obj);
    var m' := LinkIn(s.m, pc.at, h, pc.obj);
    forall j | j in s.threads && j != ev.tid
      ensures InsertOk(env, m', s.threads[j]) && RemoveOk(m', s.threads[j]) && ReadOk(m', s.grace, j, s.threads[j])
    {
      var q := s.threads[j];
      assert Apart(pc, q);
      if HoldsFirst(q) { SameKeyConflict(env, s.m, pc, q); }
      LinkInThread(env, s.m, pc.at, h, pc.obj, q);
    }
    var pc' := InsertDone(pc.obj, Inserted);
    assert Readers(s.threads[ev.tid := pc']) == Readers(s.threads);
    LinkInGrace(s.m, s.grace, Readers(s.threads), pc.at, h, pc.obj);
    FinishStep(env, s, m', s.grace, ev.tid, pc');
  }

  lemma LinkInGrace(m: Mem, grace: map<Obj, set<Tid>>, readers: set<Tid>, t: nat, h: nat, o: Obj)
    requires GraceOk(m, grace, readers) && Grace(grace, o) == {}
    ensures GraceOk(LinkIn(m, t, h, o), grace, readers)
  {
    var m' := LinkIn(m, t, h, o);
    forall r | Grace(grace, r) != {} && Next(m'.next, r).Node?
      ensures Next(m'.next, r).obj in m'.loc || Grace(grace, r) <= Grace(grace, Next(m'.next, r).obj)
    {
      assert Next(m'.next, r) == Next(m.next, r);
    }
  }

  /** Linking in an object of another key leaves an inserter's knowledge alone. */
  lemma LinkInThread(env: Env, m: Mem, t: nat, h: nat, o: Obj, q: Pc)
    requires m.tbl < |m.tables| && InsertOk(env, m, q) && RemoveOk(m, q)
    requires (Inserting(q) || Removing(q)) ==> q.obj != o
    requires HoldsFirst(q) ==> env.key(q.obj) != env.key(o)
    ensures InsertOk(env, LinkIn(m, t, h, o), q) && RemoveOk(LinkIn(m, t, h, o), q)
  {}

  // ----------------------------------------------------------------- removing

  lemma RemoveStartInv(env: Env, s: State, ev: Event)
    requires WfEnv(env) && Inv(env, s) && ev.RemoveStart? && Can(env, s, ev)
    ensures Inv(env, Do(env, s, ev))
  {
    PcStep(env, s, ev.tid, RemoveAt(ev.obj, s.m.tbl));
  }

  lemma RemoveFollowInv(env: Env, s: State, ev: Event)
    requires WfEnv(env) && Inv(env, s) && ev.RemoveFollow? && Can(env, s, ev)
    ensures Inv(env, Do(env, s, ev))
  {
    hide Heap, GraceOk, WorkerOk, Linked;
    var q := PcOf(s, ev.tid);
    assert RemoveOk(s.m, q);
    PcStep(env, s, ev.tid, match s.m.tables[q.t].future case None => RemoveDone(q.obj, false) case Some(u) => RemoveAt(q.obj, u));
  }

  lemma UnlinkMem(env: Env, m: Mem, t: nat, h: nat, i: nat)
    requires WfEnv(env) && MemInv(env, m) && i < |List(m, t, h)|
    requires LockOf(env, t, h) !in LocksOfWorker(env, m.tbl, m.worker)
    requires m.worker.Unlinking? ==> m.worker.entry != List(m, t, h)[i]
    ensures MemInv(env, UnlinkAt(m, t, h, List(m, t, h), i))
  {
    hide Heap, Place, WorkerOk;
    NotMoving(env, m, t, h);
    UnlinkHeap(env, m, t, h, i);
    UnlinkPlace(env, m, t, h, i);
    UnlinkWorker(env, m, t, h, i);
  }

  lemma UnlinkHeap(env: Env, m: Mem, t: nat, h: nat, i: nat)
    requires Heap(m) && m.tbl < |m.tables| && Place(env, m) && i < |List(m, t, h)| && !Loose(m, t, h)
    ensures Heap(UnlinkAt(m, t, h, List(m, t, h), i))
  {
    hide Place;
    var m' := UnlinkAt(m, t, h, List(m, t, h), i);
    forall u: nat, g: nat ensures Linked(m'.next, Head(m', u, g), Phys(m', u, g), Loose(m', u, g)) {
      if u == t && g == h {
        UnlinkHere(env, m, t, h, i);
      } else {
        UnlinkElsewhere(env, m, t, h, i, u, g);
      }
    }
  }

  lemma UnlinkHere(env: Env, m: Mem, t: nat, h: nat, i: nat)
    requires Heap(m) && m.tbl < |m.tables| && Place(env, m) && i < |List(m, t, h)| && !Loose(m, t, h)
    ensures var m' := UnlinkAt(m, t, h, List(m, t, h), i);
            Linked(m'.next, Head(m', t, h), Phys(m', t, h), false)
  {
    var l := List(m, t, h);
    var m' := UnlinkAt(m, t, h, l, i);
    var l' := l[..i] + l[i + 1..];
    assert l == Phys(m, t, h) && NoDup(l);
    assert Linked(m.next, Head(m, t, h), l, false);
    assert Next(m.next, l[i]) == PtrAt(l, i + 1);
    assert Phys(m', t, h) == l';
    assert Head(m', t, h) == PtrAt(l', 0);
    forall j | 0 <= j < |l'| ensures Next(m'.next, l'[j]) == PtrAt(l', j + 1) {
      var k := if j < i then j else j + 1;
      assert l'[j] == l[k] && Next(m.next, l[k]) == PtrAt(l, k + 1);
    }
  }

  lemma UnlinkWorker(env: Env, m: Mem, t: nat, h: nat, i: nat)
    requires m.tbl < |m.tables| && WorkerOk(env, m) && Place(env, m) && i < |List(m, t, h)|
    requires LockOf(env, t, h) !in LocksOfWorker(env, m.tbl, m.worker)
    requires m.worker.Unlinking? ==> m.worker.entry != List(m, t, h)[i]
    ensures WorkerOk(env, UnlinkAt(m, t, h, List(m, t, h), i))
  {
    hide Place;
    NotMoving(env, m, t, h);
    var l := List(m, t, h);
    if m.worker.Linking? && i > 0 { NotEntry(env, m, t, h, i - 1); }
  }

  /** An element of a bucket the worker has not locked is not the one it moves. */
  lemma NotEntry(env: Env, m: Mem, t: nat, h: nat, i: nat)
    requires m.tbl < |m.tables| && WorkerOk(env, m) && Place(env, m) && i < |List(m, t, h)| && m.worker.Linking?
    requires LockOf(env, t, h) !in LocksOfWorker(env, m.tbl, m.worker)
    ensures List(m, t, h)[i] != m.worker.entry
  {
    var k, e, x := List(m, m.tbl, m.worker.h), m.worker.entry, List(m, t, h)[i];
    assert k[|k| - 1] in k && x in List(m, t, h);
    assert m.loc[e] == m.tbl && ObjBucket(env, m.tbl, e) == m.worker.h;
    assert m.loc[x] == t && ObjBucket(env, t, x) == h;
  }

  /** The store of a removal does not touch the chain of another bucket. */
  lemma UnlinkElsewhere(env: Env, m: Mem, t: nat, h: nat, i: nat, u: nat, g: nat)
    requires Heap(m) && m.tbl < |m.tables| && Place(env, m)
    requires i < |List(m, t, h)| && (u != t || g != h) && !Loose(m, t, h)
    ensures var m' := UnlinkAt(m, t, h, List(m, t, h), i);
            Linked(m'.next, Head(m', u, g), Phys(m', u, g), Loose(m', u, g))
  {
    var l := List(m, t, h);
    var m' := UnlinkAt(m, t, h, l, i);
    var k := List(m, u, g);
    var p := Phys(m, u, g);
    assert Phys(m', u, g) == p && Head(m', u, g) == Head(m, u, g);
    assert Linked(m.next, Head(m, u, g), p, Loose(m, u, g));
    forall j | 0 <= j < |p| && (Loose(m, u, g) ==> j + 1 < |p|) ensures Next(m'.next, p[j]) == PtrAt(p, j + 1) {
      assert j < |k| && p[j] == k[j];
      assert k[j] in k && m.loc[k[j]] == u && ObjBucket(env, u, k[j]) == g;
      if i > 0 { assert l[i - 1] in l && m.loc[l[i - 1]] == t && ObjBucket(env, t, l[i - 1]) == h; }
      assert Next(m.next, p[j]) == PtrAt(p, j + 1);
    }
  }

  lemma DropAt(l: seq<Obj>, i: nat)
    requires NoDup(l) && i < |l|
    ensures NoDup(l[..i] + l[i + 1..])
    ensures forall x :: x in l[..i] + l[i + 1..] <==> x in l && x != l[i]
  {
    var l' := l[..i] + l[i + 1..];
    forall x | x in l && x != l[i] ensures x in l' {
      var k :| 0 <= k < |l| && l[k] == x;
      if k < i { assert l'[k] == x; } else { assert l'[k - 1] == x; }
    }
    forall a, b | 0 <= a < b < |l'| ensures l'[a] != l'[b] {
      var a', b' := if a < i then a else a + 1, if b < i then b else b + 1;
      assert l'[a] == l[a'] && l'[b] == l[b'];
    }
  }

  lemma UnlinkPlace(env: Env, m: Mem, t: nat, h: nat, i: nat)
    requires m.tbl < |m.tables| && Place(env, m) && i < |List(m, t, h)|
    ensures Place(env, UnlinkAt(m, t, h, List(m, t, h), i))
  {
    var l := List(m, t, h);
    var m' := UnlinkAt(m, t, h, l, i);
    var l' := l[..i] + l[i + 1..];
    assert NoDup(l);
    DropAt(l, i);
    assert l[i] in l;
    forall u: nat, g: nat ensures NoDup(List(m', u, g)) {
      if (u, g) == (t, h) { assert List(m', u, g) == l'; } else { assert List(m', u, g) == List(m, u, g); }
    }
    forall u: nat, g: nat, x | x in List(m', u, g) ensures x in m'.loc && m'.loc[x] == u && ObjBucket(env, u, x) == g {
      if (u, g) == (t, h) { assert x in l && x != l[i]; } else { assert x in List(m, u, g); }
    }
    forall x | x in m'.loc ensures x in List(m', m'.loc[x], ObjBucket(env, m'.loc[x], x)) {
      assert x in List(m, m.loc[x], ObjBucket(env, m.loc[x], x));
    }
  }

  lemma RemoveOneDoes(env: Env, s: State, ev: Event)
    requires ev.RemoveOne? && Can(env, s, ev)
    ensures var pc := PcOf(s, ev.tid);
            var h := ObjBucket(env, pc.t, pc.obj);
            var i := FindObj(ev.chain, pc.obj);
            && pc.RemoveAt? && Linked(s.m.next, Head(s.m, pc.t, h), ev.chain, false)
            && LockOf(env, pc.t, h) !in LocksOfWorker(env, s.m.tbl, s.m.worker)
            && Do(env, s, ev) ==
               (if i < |ev.chain|
                then State(UnlinkAt(s.m, pc.t, h, ev.chain, i), s.grace[pc.obj := Readers(s.threads)],
                    s.threads[ev.tid := RemoveDone(pc.obj, true)])
                else SetPc(s, ev.tid, RemoveNext(pc.obj, pc.t)))
  {}

  lemma RemoveOneInv(env: Env, s: State, ev: Event)
    requires WfEnv(env) && Inv(env, s) && ev.RemoveOne? && Can(env, s, ev)
    ensures Inv(env, Do(env, s, ev))
  {
    hide Heap, Place, WorkerOk, GraceOk, Can, Do, LockFree, Linked;
    RemoveOneDoes(env, s, ev);
    var pc := PcOf(s, ev.tid);
    var h := ObjBucket(env, pc.t, pc.obj);
    assert RemoveOk(s.m, pc);
    NotMoving(env, s.m, pc.t, h);
    LockedChain(s.m, pc.t, h, ev.chain);
    FoundMeansThere(env, s.m, pc.t, pc.obj);
    var i := FindObj(ev.chain, pc.obj);
    if i == |ev.chain| {
      PcStep(env, s, ev.tid, RemoveNext(pc.obj, pc.t));
    } else {
      UnlinkMem(env, s.m, pc.t, h, i);
      UnlinkGrace(env, s, pc.t, h, i);
      UnlinkThreads(env, s, ev.tid, pc.t, h, i);
      var pc' := RemoveDone(pc.obj, true);
      assert Readers(s.threads[ev.tid := pc']) == Readers(s.threads);
      FinishStep(env, s, UnlinkAt(s.m, pc.t, h, ev.chain, i), s.grace[pc.obj := Readers(s.threads)], ev.tid, pc');
    }
  }

  lemma FoundMeansThere(env: Env, m: Mem, t: nat, o: Obj)
    requires MemInv(env, m)
    ensures o in List(m, t, ObjBucket(env, t, o)) <==> o in m.loc && m.loc[o] == t
    ensures m.worker.Unlinking? ==> m.worker.entry in m.loc && m.loc[m.worker.entry] > m.tbl
    ensures m.worker.Unlinking? && m.worker.entry == o && !Loose(m, t, ObjBucket(env, t, o)) ==> t != m.tbl
  {}

  lemma UnlinkThreads(env: Env, s: State, tid: Tid, t: nat, h: nat, i: nat)
    requires Inv(env, s) && i < |List(s.m, t, h)|
    ensures var o := List(s.m, t, h)[i];
            var m' := UnlinkAt(s.m, t, h, List(s.m, t, h), i);
            forall j :: j in s.threads && j != tid ==>
              InsertOk(env, m', s.threads[j]) && RemoveOk(m', s.threads[j]) &&
              ReadOk(m', s.grace[o := Readers(s.threads)], j, s.threads[j])
  {
    hide Heap, Place, WorkerOk, GraceOk, Locks;
    var o := List(s.m, t, h)[i];
    ListedInTable(env, s.m, t, h, i);
    var m' := UnlinkAt(s.m, t, h, List(s.m, t, h), i);
    forall j | j in s.threads && j != tid
      ensures InsertOk(env, m', s.threads[j]) && RemoveOk(m', s.threads[j])
      ensures ReadOk(m', s.grace[o := Readers(s.threads)], j, s.threads[j])
    {
      assert InsertOk(env, s.m, s.threads[j]) && RemoveOk(s.m, s.threads[j]) && ReadOk(s.m, s.grace, j, s.threads[j]);
    }
  }

  lemma ListedInTable(env: Env, m: Mem, t: nat, h: nat, i: nat)
    requires m.tbl < |m.tables| && Place(env, m) && i < |List(m, t, h)|
    ensures List(m, t, h)[i] in m.loc
  {
    assert List(m, t, h)[i] in List(m, t, h);
  }

  lemma UnlinkGrace(env: Env, s: State, t: nat, h: nat, i: nat)
    requires Inv(env, s) && i < |List(s.m, t, h)| && !Loose(s.m, t, h)
    ensures GraceOk(UnlinkAt(s.m, t, h, List(s.m, t, h), i), s.grace[List(s.m, t, h)[i] := Readers(s.threads)], Readers(s.threads))
  {
    hide Heap, Place, WorkerOk, Shape, Locks, Inserts, Removes;
    var l := List(s.m, t, h);
    var o := l[i];
    var m' := UnlinkAt(s.m, t, h, l, i);
    var grace' := s.grace[o := Readers(s.threads)];
    Neighbours(env, s.m, t, h, i);
    forall r ensures Grace(grace', r) <= Readers(s.threads) && (Grace(grace', r) != {} ==> r !in m'.loc) {
      if r != o { assert Grace(grace', r) == Grace(s.grace, r); }
    }
    forall r | Grace(grace', r) != {} && Next(m'.next, r).Node?
      ensures Next(m'.next, r).obj in m'.loc || Grace(grace', r) <= Grace(grace', Next(m'.next, r).obj)
    {
      if r != o {
        assert Grace(s.grace, r) != {} && r !in s.m.loc;
        assert Next(m'.next, r) == Next(s.m.next, r);
      }
    }
  }

  lemma Neighbours(env: Env, m: Mem, t: nat, h: nat, i: nat)
    requires MemInv(env, m) && i < |List(m, t, h)| && !Loose(m, t, h)
    ensures var l := List(m, t, h);
            && l[i] in m.loc && Next(m.next, l[i]) == PtrAt(l, i + 1)
            && (i > 0 ==> l[i - 1] in m.loc && l[i - 1] != l[i])
            && (i + 1 < |l| ==> l[i + 1] in m.loc && l[i + 1] != l[i])
  {
    hide WorkerOk, Shape;
    var l := List(m, t, h);
    assert l == Phys(m, t, h) && Linked(m.next, Head(m, t, h), l, false);
    assert l[i] in l && NoDup(l);
    if i > 0 { assert l[i - 1] in l; }
    if i + 1 < |l| { assert l[i + 1] in l; }
  }

  // ------------------------------------------------------------------ reading

  lemma LookupStartInv(env: Env, s: State, ev: Event)
    requires WfEnv(env) && Inv(env, s) && ev.LookupStart? && Can(env, s, ev)
    ensures Inv(env, Do(env, s, ev))
  {
    PcStep(env, s, ev.tid, LookupAt(ev.key, s.m.tbl));
  }

  lemma ReadHeadInv(env: Env, s: State, ev: Event)
    requires WfEnv(env) && Inv(env, s) && ev.ReadHead? && Can(env, s, ev)
    ensures Inv(env, Do(env, s, ev))
  {
    hide Heap, Place, WorkerOk, GraceOk, Linked;
    var pc := PcOf(s, ev.tid);
    var h := Bucket(env, pc.t, pc.key);
    if Head(s.m, pc.t, h).Node? { HeadInTable(env, s.m, pc.t, h); }
    assert ReadOk(s.m, s.grace, ev.tid, pc);
    PcStep(env, s, ev.tid, LookupCursor(pc.key, pc.t, Head(s.m, pc.t, h)));
  }

  lemma EndReadInv(env: Env, s: State, tid: Tid, hit: Option<Obj>)
    requires Inv(env, s) && Reading(PcOf(s, tid))
    ensures Inv(env, EndRead(s, tid, hit))
  {
    hide Heap, Place, WorkerOk, Locks;
    var s' := EndRead(s, tid, hit);
    EndReadGrace(s, tid, hit);
    forall j | j in s.threads && j != tid ensures ReadOk(s'.m, s'.grace, j, s.threads[j]) {
      assert ReadOk(s.m, s.grace, j, s.threads[j]);
    }
    FinishStep(env, s, s.m, s'.grace, tid, s'.threads[tid]);
  }

  lemma EndReadGrace(s: State, tid: Tid, hit: Option<Obj>)
    requires GraceOk(s.m, s.grace, Readers(s.threads)) && Reading(PcOf(s, tid))
    ensures var s' := EndRead(s, tid, hit);
            && GraceOk(s.m, s'.grace, Readers(s'.threads))
            && forall o :: Grace(s'.grace, o) == Grace(s.grace, o) - {tid}
  {
    var s' := EndRead(s, tid, hit);
    assert Readers(s'.threads) == Readers(s.threads) - {tid};
    forall o ensures Grace(s'.grace, o) == Grace(s.grace, o) - {tid} {}
    forall r | Grace(s'.grace, r) != {} && Next(s.m.next, r).Node?
      ensures Next(s.m.next, r).obj in s.m.loc || Grace(s'.grace, r) <= Grace(s'.grace, Next(s.m.next, r).obj)
    {
      assert Grace(s.grace, r) != {};
    }
  }

  lemma ReadCursorInv(env: Env, s: State, ev: Event)
    requires WfEnv(env) && Inv(env, s) && ev.ReadCursor? && Can(env, s, ev)
    ensures Inv(env, Do(env, s, ev))
  {
    hide Heap, Place, WorkerOk, Shape, Linked, LockFree;
    var pc := PcOf(s, ev.tid);
    assert ReadOk(s.m, s.grace, ev.tid, pc);
    match pc.cursor
    case Nulls => PcStep(env, s, ev.tid, LookupNext(pc.key, pc.t));
    case Node(c) =>
      if env.key(c) == pc.key {
        EndReadInv(env, s, ev.tid, Some(c));
      } else {
        if c in s.m.loc && Next(s.m.next, c).Node? { NextInTable(env, s.m, c); }
        PcStep(env, s, ev.tid, LookupCursor(pc.key, pc.t, Next(s.m.next, c)));
      }
  }

  lemma ReadFutureInv(env: Env, s: State, ev: Event)
    requires WfEnv(env) && Inv(env, s) && ev.ReadFuture? && Can(env, s, ev)
    ensures Inv(env, Do(env, s, ev))
  {
    var pc := PcOf(s, ev.tid);
    match s.m.tables[pc.t].future
    case None => EndReadInv(env, s, ev.tid, None);
    case Some(u) => PcStep(env, s, ev.tid, LookupAt(pc.key, u));
  }
}
