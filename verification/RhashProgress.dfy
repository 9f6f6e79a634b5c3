/** Every operation of the hash table that is left alone comes to its end, and what it
    has then done. */
module RhashProgress {
  import opened Common
  import opened RhashModel
  import opened RhashInvariant
  import opened RhashSteps
  import opened RhashWorker
  import opened RhashTheorems

  /** Where these events lead, if they can happen one after the other. */
  function Goes(env: Env, s: State, evs: seq<Event>): Option<State>
    decreases |evs|
  {
    if evs == [] then Some(s)
    else if Can(env, s, evs[0]) then Goes(env, Do(env, s, evs[0]), evs[1..])
    else None
  }

  lemma GoesFirst(env: Env, s: State, ev: Event, rest: seq<Event>)
    requires Can(env, s, ev)
    ensures Goes(env, s, [ev] + rest) == Goes(env, Do(env, s, ev), rest)
  {
    hide Can, Do;
    assert ([ev] + rest)[1..] == rest;
  }

  // ------------------------------------------------------------------------ rehashing

  predicate ByWorker(ev: Event) {
    || ev.WorkerStart? || ev.WorkerLock? || ev.WorkerLastTable? || ev.WorkerEmpty? || ev.WorkerStoreNext?
    || ev.WorkerStoreHead? || ev.WorkerUnlink? || ev.WorkerPublish?
  }

  ghost predicate NoThreadLocks(env: Env, s: State) {
    forall tid :: tid in s.threads ==> LocksOfPc(env, s.threads[tid]) == {}
  }

  /** What is left to do: tables, buckets, entries of a bucket that is locked, stores. */
  datatype Work = Work(tables: nat, buckets: nat, entries: nat, stores: nat)

  predicate Less(a: Work, b: Work) {
    || a.tables < b.tables
    || (a.tables == b.tables && (a.buckets < b.buckets || (a.buckets == b.buckets &&
       (a.entries < b.entries || (a.entries == b.entries && a.stores < b.stores)))))
  }

  function Minus(a: nat, b: nat): nat { if a < b then 0 else a - b }

  function WorkLeft(env: Env, m: Mem): Work {
    var tables := Minus(|m.tables|, m.tbl);
    var size := env.size(m.tbl);
    match m.worker
    case Resting => Work(tables, 2 * size + 2, 0, 0)
    case AtBucket(h) => Work(tables, 2 * Minus(size, h) + 1, 0, 0)
    case BucketHeld(h) => Work(tables, 2 * Minus(size, h), |List(m, m.tbl, h)|, 2)
    case Target(h, _) => Work(tables, 2 * Minus(size, h), |List(m, m.tbl, h)|, 1)
    case Linking(h, _, _, _) => Work(tables, 2 * Minus(size, h), |List(m, m.tbl, h)|, 0)
    case Unlinking(h, _, _, _) => Work(tables, 2 * Minus(size, h), |List(m, m.tbl, h)|, 3)
  }

  /** Every step of the worker brings it closer to the end of the rehash. */
  lemma WorkerAdvances(env: Env, s: State, ev: Event)
    requires MemInv(env, s.m) && Can(env, s, ev) && ByWorker(ev)
    ensures var s' := Do(env, s, ev);
            && Less(WorkLeft(env, s'.m), WorkLeft(env, s.m)) && s'.threads == s.threads
            && |s'.m.tables| == |s.m.tables| && s'.m.loc.Keys == s.m.loc.Keys
  {
    hide Heap, Place, Linked, LockFree;
    if ev.WorkerStoreHead? {
      EntryPlace(env, s.m);
      assert (s.m.tbl, s.m.worker.h) != (s.m.worker.n, ObjBucket(env, s.m.worker.n, s.m.worker.entry));
    }
  }

  /** Nothing but a new table gives it more to do. */
  lemma OthersDoNotHinder(env: Env, s: State, ev: Event)
    requires Inv(env, s) && Can(env, s, ev) && !ByWorker(ev) && !ev.Attach?
    ensures WorkLeft(env, Do(env, s, ev).m) == WorkLeft(env, s.m)
  {
    if ev.Link? { LinkElsewhere(env, s, ev); }
    else if ev.RemoveOne? { RemoveElsewhere(env, s, ev); }
    else { OtherMemory(env, s, ev); }
  }

  lemma OtherMemory(env: Env, s: State, ev: Event)
    requires Can(env, s, ev) && !ByWorker(ev) && !ev.Attach? && !ev.Link? && !ev.RemoveOne?
    ensures Do(env, s, ev).m == s.m
  {
    hide Linked, LockFree, NotBusy, NotInserting, LinkIn, UnlinkAt, StoreNext, StoreHead, UnlinkOld, AttachTable, Bump;
  }

  lemma LinkElsewhere(env: Env, s: State, ev: Event)
    requires Inv(env, s) && Can(env, s, ev) && ev.Link?
    ensures WorkLeft(env, Do(env, s, ev).m) == WorkLeft(env, s.m)
  {
    hide MemInv, Inserts, Removes, Reads;
    var pc := PcOf(s, ev.tid);
    assert LockOf(env, pc.at, ObjBucket(env, pc.at, pc.obj)) in LocksOfPc(env, pc);
  }

  lemma RemoveElsewhere(env: Env, s: State, ev: Event)
    requires Inv(env, s) && Can(env, s, ev) && ev.RemoveOne?
    ensures WorkLeft(env, Do(env, s, ev).m) == WorkLeft(env, s.m)
  {
    hide MemInv, Inserts, Removes, Reads, Linked;
  }

  /** A rehash waits for nothing but locks. */
  lemma WorkerNext(env: Env, s: State) returns (ev: Event)
    requires Inv(env, s) && NoThreadLocks(env, s) && (!s.m.worker.Resting? || s.m.tables[s.m.tbl].future.Some?)
    ensures ByWorker(ev) && Can(env, s, ev)
  {
    hide Heap, Inserts, Removes, Reads, Place, Locks, Linked;
    var m := s.m;
    match m.worker
    case Resting => ev := WorkerStart;
    case AtBucket(h) => ev := if h < env.size(m.tbl) then WorkerLock else WorkerPublish;
    case BucketHeld(_) => ev := WorkerLastTable;
    case Target(h, n) =>
      var l := List(m, m.tbl, h);
      ChainWhole(m, m.tbl, h);
      ev := if l == [] then WorkerEmpty([]) else WorkerStoreNext(l);
    case Linking(_, _, _, _) => ev := WorkerStoreHead;
    case Unlinking(_, _, _, _) => ev := WorkerUnlink;
  }

  lemma ChainWhole(m: Mem, t: nat, h: nat)
    requires Heap(m) && !Moving(m.worker)
    ensures Linked(m.next, Head(m, t, h), List(m, t, h), false)
  {
    assert Linked(m.next, Head(m, t, h), Phys(m, t, h), Loose(m, t, h));
    assert Phys(m, t, h) == List(m, t, h);
  }

  /** The last table is the one in use, the worker rests, and every element that was
      anywhere is in that table. */
  ghost predicate Rehashed(env: Env, s: State, s': State) {
    && Inv(env, s') && s'.threads == s.threads && s'.m.worker.Resting?
    && |s'.m.tables| == |s.m.tables| && s'.m.tbl == |s.m.tables| - 1
    && s'.m.loc.Keys == s.m.loc.Keys && forall x :: x in s'.m.loc ==> s'.m.loc[x] == s'.m.tbl
  }

  /** A rehash left alone comes to its end. */
  lemma RehashEnds(env: Env, s: State)
    requires WfEnv(env) && Inv(env, s) && NoThreadLocks(env, s)
    ensures exists evs :: (forall ev :: ev in evs ==> ByWorker(ev)) && Goes(env, s, evs).Some? && Rehashed(env, s, Goes(env, s, evs).value)
  {
    hide Inv, Goes, NoThreadLocks, Rehashed;
    var evs := RehashAlone(env, s);
  }

  lemma {:induction false} RehashAlone(env: Env, s: State) returns (evs: seq<Event>)
    requires WfEnv(env) && Inv(env, s) && NoThreadLocks(env, s)
    ensures forall ev :: ev in evs ==> ByWorker(ev)
    ensures Goes(env, s, evs).Some? && Rehashed(env, s, Goes(env, s, evs).value)
    decreases WorkLeft(env, s.m).tables, WorkLeft(env, s.m).buckets, WorkLeft(env, s.m).entries, WorkLeft(env, s.m).stores
  {
    if s.m.worker.Resting? && s.m.tables[s.m.tbl].future.None? {
      evs := [];
    } else {
      hide Can, Do, WorkLeft;
      var ev := WorkerNext(env, s);
      WorkerAdvances(env, s, ev);
      StepInv(env, s, ev);
      var rest := RehashAlone(env, Do(env, s, ev));
      GoesFirst(env, s, ev, rest);
      evs := [ev] + rest;
    }
  }

  // ------------------------------------------------------------------------ operations

  /** No lock is held by anybody but this thread. */
  ghost predicate Alone(env: Env, s: State, tid: Tid) {
    && LocksOfWorker(env, s.m.tbl, s.m.worker) == {}
    && forall j :: j in s.threads && j != tid ==> LocksOfPc(env, s.threads[j]) == {}
  }

  predicate Of(ev: Event, tid: Tid) { !ev.Attach? && !ByWorker(ev) && ev.tid == tid }

  /** A thread changes neither tables nor worker, and no other thread. */
  lemma OwnStep(env: Env, s: State, ev: Event, tid: Tid)
    requires Can(env, s, ev) && Of(ev, tid)
    ensures var s' := Do(env, s, ev);
            && s'.m.tbl == s.m.tbl && s'.m.tables == s.m.tables && s'.m.worker == s.m.worker
            && s'.threads == s.threads[tid := PcOf(s', tid)]
  {
    hide Linked, LockFree, NotBusy, NotInserting, StoreNext, StoreHead, UnlinkOld, AttachTable, Bump;
  }

  lemma StaysAlone(env: Env, s: State, ev: Event, tid: Tid)
    requires Can(env, s, ev) && Alone(env, s, tid) && Of(ev, tid)
    ensures Alone(env, Do(env, s, ev), tid)
  {
    OwnStep(env, s, ev, tid);
    hide Can, Do;
  }

  /** How far an insertion is from its end. */
  function InsertLeft(s: State, pc: Pc): nat {
    var n := |s.m.tables|;
    match pc
    case FastStart(_, _, _) => 4 * n + 4
    case FastHeld(_, _, _) => 2
    case Seek(_, _, t) => 4 * Minus(n, t) + 3
    case Held(_, _, _, at) => 4 * Minus(n, at) + 2
    case Scanned(_, _, _, at) => 4 * Minus(n, at) + 1
    case Follow(_, _, _, at) => 4 * Minus(n, at) + 3
    case Commit(_, _, _, _) => 1
    case _ => 0
  }

  lemma FreeLock(env: Env, s: State, tid: Tid, lock: (nat, nat))
    requires Alone(env, s, tid) && lock !in LocksOfPc(env, PcOf(s, tid))
    ensures LockFree(env, s, lock)
  {}

  /** Memory has the chain of a bucket. */
  lemma ChainThere(env: Env, s: State, tid: Tid, t: nat, h: nat)
    requires Alone(env, s, tid) && Heap(s.m)
    ensures Linked(s.m.next, Head(s.m, t, h), List(s.m, t, h), false)
  {
    assert !Moving(s.m.worker);
    ChainWhole(s.m, t, h);
  }

  /** An insertion waits for nothing but locks. */
  lemma InsertNext(env: Env, s: State, tid: Tid) returns (ev: Event)
    requires Inv(env, s) && Alone(env, s, tid) && Inserting(PcOf(s, tid))
    ensures Of(ev, tid) && !ev.GiveUp? && Can(env, s, ev)
  {
    InsertPlace(env, s, tid);
    hide Heap, Place, Shape, WorkerOk, Removes, Reads, Locks, Inserts, Alone, Can;
    var pc := PcOf(s, tid);
    if pc.Seek? || pc.Follow? { ev := SlowNext(env, s, tid); } else { ev := HeldNext(env, s, tid); }
  }

  lemma SlowNext(env: Env, s: State, tid: Tid) returns (ev: Event)
    requires MemInv(env, s.m) && InsertOk(env, s.m, PcOf(s, tid)) && Alone(env, s, tid)
    requires PcOf(s, tid).Seek? || PcOf(s, tid).Follow?
    ensures Of(ev, tid) && !ev.GiveUp? && Can(env, s, ev)
  {
    hide Heap, Place, WorkerOk, Alone, LockFree;
    match PcOf(s, tid)
    case Seek(o, _, t) =>
      FreeLock(env, s, tid, LockOf(env, t, ObjBucket(env, t, o)));
      SeekGoesOn(env, s.m, o, t);
      ev := SeekLock(tid);
    case Follow(o, _, first, at) =>
      FreeLock(env, s, tid, LockOf(env, at, ObjBucket(env, at, o)));
      ev := FollowLock(tid);
  }

  lemma HeldNext(env: Env, s: State, tid: Tid) returns (ev: Event)
    requires MemInv(env, s.m) && InsertOk(env, s.m, PcOf(s, tid)) && Alone(env, s, tid)
    requires Inserting(PcOf(s, tid)) && !PcOf(s, tid).Seek? && !PcOf(s, tid).Follow?
    ensures Of(ev, tid) && !ev.GiveUp? && Can(env, s, ev)
  {
    hide Heap, Place, WorkerOk, Alone, Linked, LockFree;
    match PcOf(s, tid)
    case FastStart(o, _, t) =>
      FreeLock(env, s, tid, LockOf(env, t, ObjBucket(env, t, o)));
      ev := FastLock(tid);
    case FastHeld(o, _, t) =>
      ChainThere(env, s, tid, t, ObjBucket(env, t, o));
      ev := FastLookup(tid, List(s.m, t, ObjBucket(env, t, o)));
    case Held(o, _, _, at) =>
      ChainThere(env, s, tid, at, ObjBucket(env, at, o));
      ev := Lookup(tid, List(s.m, at, ObjBucket(env, at, o)));
    case Scanned(_, _, _, _) => ev := TestFuture(tid);
    case Commit(_, _, _, _) => ev := Link(tid);
  }

  /** One step of an insertion that does not give up. */
  ghost predicate Closer(s: State, s': State, tid: Tid) {
    var pc, pc' := PcOf(s, tid), PcOf(s', tid);
    && InsertLeft(s', pc') < InsertLeft(s, pc)
    && (Inserting(pc) && Inserting(pc') ==> pc'.obj == pc.obj && pc'.keyed == pc.keyed && s'.m == s.m)
    && (!Inserting(pc') ==> pc'.InsertDone? && !pc'.result.Failed?)
  }

  /** Every step of an insertion that does not give up brings it closer to its end, and
      only that of linking changes memory. */
  lemma InsertAdvances(env: Env, s: State, ev: Event, tid: Tid)
    requires Inv(env, s) && Can(env, s, ev) && Of(ev, tid) && Inserting(PcOf(s, tid)) && !ev.GiveUp?
    ensures Closer(s, Do(env, s, ev), tid)
  {
    InsertEvents(env, s, ev, tid);
    InsertPlace(env, s, tid);
    InsertShape(env, s);
    hide Inv, Can, Do, InsertOk, Closer;
    if ev.FastLock? || ev.FastLookup? || ev.Link? { FastAdvances(env, s, ev, tid); } else { SlowAdvances(env, s, ev, tid); }
  }

  lemma InsertEvents(env: Env, s: State, ev: Event, tid: Tid)
    requires Can(env, s, ev) && Of(ev, tid) && Inserting(PcOf(s, tid)) && !ev.GiveUp?
    ensures ev.FastLock? || ev.FastLookup? || ev.Link? || ev.SeekLock? || ev.Lookup? || ev.TestFuture? || ev.FollowLock?
  {
    hide Linked, LockFree, NotBusy, NotInserting;
  }

  lemma FastAdvances(env: Env, s: State, ev: Event, tid: Tid)
    requires Can(env, s, ev) && Of(ev, tid) && (ev.FastLock? || ev.FastLookup? || ev.Link?) && s.m.tbl < |s.m.tables|
    ensures Closer(s, Do(env, s, ev), tid)
  {
    hide Linked, LockFree, NotBusy, NotInserting;
  }

  lemma SlowAdvances(env: Env, s: State, ev: Event, tid: Tid)
    requires Can(env, s, ev) && Of(ev, tid) && (ev.SeekLock? || ev.Lookup? || ev.TestFuture? || ev.FollowLock?)
    requires s.m.tbl < |s.m.tables| && InsertOk(env, s.m, PcOf(s, tid))
    requires forall i :: 0 <= i < |s.m.tables| ==> s.m.tables[i].future == if i + 1 < |s.m.tables| then Some(i + 1) else None
    ensures Closer(s, Do(env, s, ev), tid)
  {
    hide Linked, LockFree, NotBusy, NotInserting, KeyFrom, KeyAbsent, KeyOnlyIn;
  }

  lemma InsertShape(env: Env, s: State)
    requires Inv(env, s)
    ensures s.m.tbl < |s.m.tables|
    ensures forall i :: 0 <= i < |s.m.tables| ==> s.m.tables[i].future == if i + 1 < |s.m.tables| then Some(i + 1) else None
  {}

  lemma InsertPlace(env: Env, s: State, tid: Tid)
    requires Inv(env, s) && Inserting(PcOf(s, tid))
    ensures s.m.tbl < |s.m.tables| && InsertOk(env, s.m, PcOf(s, tid))
  {
    hide Heap, Place, WorkerOk, Reads, Removes, Locks;
  }

  /** The object was put in, unless the insertion is keyed and an element has the key;
      then such an element was named. */
  ghost predicate InsertedOrNamed(env: Env, s: State, s': State, tid: Tid, o: Obj, keyed: bool) {
    && Inv(env, s') && PcOf(s', tid).InsertDone? && PcOf(s', tid).obj == o
    && match PcOf(s', tid).result
       case Inserted => s'.m.loc.Keys == s.m.loc.Keys + {o} && o !in s.m.loc && (keyed ==> KeyAbsent(env, s.m, env.key(o)))
       case Exists(p) => s'.m == s.m && keyed && p in s.m.loc && env.key(p) == env.key(o)
       case Failed => false
  }

  /** An insertion left alone comes to its end. */
  lemma InsertEnds(env: Env, s: State, tid: Tid, o: Obj, keyed: bool)
    requires WfEnv(env) && Inv(env, s) && Alone(env, s, tid) && Can(env, s, InsertStart(tid, o, keyed))
    ensures exists evs :: (forall ev :: ev in evs ==> Of(ev, tid)) && Goes(env, s, [InsertStart(tid, o, keyed)] + evs).Some? &&
              InsertedOrNamed(env, s, Goes(env, s, [InsertStart(tid, o, keyed)] + evs).value, tid, o, keyed)
  {
    var ev := InsertStart(tid, o, keyed);
    InsertStarts(env, s, tid, o, keyed);
    OtherMemory(env, s, ev);
    hide Inv, Goes, Alone, InsertedOrNamed, Can, Do;
    StaysAlone(env, s, ev, tid);
    StepInv(env, s, ev);
    var evs := InsertAlone(env, Do(env, s, ev), tid);
    GoesFirst(env, s, ev, evs);
    SameBefore(env, s, Do(env, s, ev), Goes(env, Do(env, s, ev), evs).value, tid, o, keyed);
  }

  lemma SameBefore(env: Env, s: State, s1: State, s': State, tid: Tid, o: Obj, keyed: bool)
    requires s1.m == s.m && InsertedOrNamed(env, s1, s', tid, o, keyed)
    ensures InsertedOrNamed(env, s, s', tid, o, keyed)
  {}

  lemma {:induction false} InsertAlone(env: Env, s: State, tid: Tid) returns (evs: seq<Event>)
    requires WfEnv(env) && Inv(env, s) && Alone(env, s, tid) && Inserting(PcOf(s, tid))
    ensures forall ev :: ev in evs ==> Of(ev, tid)
    ensures Goes(env, s, evs).Some?
    ensures InsertedOrNamed(env, s, Goes(env, s, evs).value, tid, PcOf(s, tid).obj, PcOf(s, tid).keyed)
    decreases InsertLeft(s, PcOf(s, tid))
  {
    hide Inv, Can, Do, InsertLeft, Alone, Of, KeyAbsent;
    var ev := InsertNext(env, s, tid);
    var s1 := Do(env, s, ev);
    InsertAdvances(env, s, ev, tid);
    StaysAlone(env, s, ev, tid);
    StepInv(env, s, ev);
    if Inserting(PcOf(s1, tid)) {
      var rest := InsertAlone(env, s1, tid);
      GoesFirst(env, s, ev, rest);
      evs := [ev] + rest;
    } else {
      OutcomeOf(env, s, ev, tid);
      GoesFirst(env, s, ev, []);
      evs := [ev] + [];
    }
  }

  /** How far a removal is from its end. */
  function RemoveLeft(s: State, pc: Pc): nat {
    var n := |s.m.tables|;
    match pc
    case RemoveAt(_, t) => 2 * Minus(n, t) + 1
    case RemoveNext(_, t) => 2 * Minus(n, t)
    case _ => 0
  }

  lemma RemoveNow(env: Env, s: State, tid: Tid) returns (ev: Event)
    requires Inv(env, s) && Alone(env, s, tid) && Removing(PcOf(s, tid))
    ensures Of(ev, tid) && Can(env, s, ev)
  {
    hide Heap, Place, GraceOk, Inserts, Reads, Locks, WorkerOk, Alone, Linked, LockFree;
    var pc := PcOf(s, tid);
    assert RemoveOk(s.m, pc);
    match pc
    case RemoveAt(o, t) =>
      FreeLock(env, s, tid, LockOf(env, t, ObjBucket(env, t, o)));
      ChainThere(env, s, tid, t, ObjBucket(env, t, o));
      ev := RemoveOne(tid, List(s.m, t, ObjBucket(env, t, o)));
    case RemoveNext(_, _) => ev := RemoveFollow(tid);
  }

  lemma RemoveAdvances(env: Env, s: State, ev: Event, tid: Tid)
    requires Inv(env, s) && Can(env, s, ev) && Of(ev, tid) && Removing(PcOf(s, tid))
    ensures var s', pc, pc' := Do(env, s, ev), PcOf(s, tid), PcOf(Do(env, s, ev), tid);
            && RemoveLeft(s', pc') < RemoveLeft(s, pc)
            && (Removing(pc') ==> pc'.obj == pc.obj && s'.m == s.m)
            && (!Removing(pc') ==> pc'.RemoveDone?)
  {
    hide Heap, Place, Reads, Inserts, Locks, WorkerOk, Linked, LockFree, NotBusy, NotInserting, UnlinkAt;
    assert RemoveOk(s.m, PcOf(s, tid));
  }

  /** The object was taken out if and only if it was an element. */
  ghost predicate Removed(env: Env, s: State, s': State, tid: Tid, o: Obj) {
    Inv(env, s') && PcOf(s', tid) == RemoveDone(o, o in s.m.loc) && s'.m.loc.Keys == s.m.loc.Keys - {o}
  }

  /** A removal left alone comes to its end. */
  lemma RemovalEnds(env: Env, s: State, tid: Tid, o: Obj)
    requires WfEnv(env) && Inv(env, s) && Alone(env, s, tid) && Can(env, s, RemoveStart(tid, o))
    ensures exists evs :: (forall ev :: ev in evs ==> Of(ev, tid)) && Goes(env, s, [RemoveStart(tid, o)] + evs).Some? &&
              Removed(env, s, Goes(env, s, [RemoveStart(tid, o)] + evs).value, tid, o)
  {
    var ev := RemoveStart(tid, o);
    RemoveStarts(env, s, tid, o);
    OtherMemory(env, s, ev);
    hide Inv, Goes, Alone, Can, Do;
    StaysAlone(env, s, ev, tid);
    StepInv(env, s, ev);
    var evs := RemoveAlone(env, Do(env, s, ev), tid);
    GoesFirst(env, s, ev, evs);
  }

  lemma {:induction false} RemoveAlone(env: Env, s: State, tid: Tid) returns (evs: seq<Event>)
    requires WfEnv(env) && Inv(env, s) && Alone(env, s, tid) && Removing(PcOf(s, tid))
    ensures forall ev :: ev in evs ==> Of(ev, tid)
    ensures Goes(env, s, evs).Some?
    ensures Removed(env, s, Goes(env, s, evs).value, tid, PcOf(s, tid).obj)
    decreases RemoveLeft(s, PcOf(s, tid))
  {
    hide Inv, Can, Do, RemoveLeft, Alone, Of;
    var ev := RemoveNow(env, s, tid);
    var s1 := Do(env, s, ev);
    RemoveAdvances(env, s, ev, tid);
    StaysAlone(env, s, ev, tid);
    StepInv(env, s, ev);
    if Removing(PcOf(s1, tid)) {
      var rest := RemoveAlone(env, s1, tid);
      GoesFirst(env, s, ev, rest);
      evs := [ev] + rest;
    } else {
      RemoveEnds(env, s, ev, tid);
      GoesFirst(env, s, ev, []);
      evs := [ev] + [];
    }
  }

  lemma SeekGoesOn(env: Env, m: Mem, o: Obj, t: nat)
    requires Shape(env, m) && WorkerOk(env, m)
    requires t <= m.tbl || (t == m.tbl + 1 < |m.tables| && m.tables[m.tbl].rehash > ObjBucket(env, m.tbl, o))
    ensures t < |m.tables| && (m.tables[t].rehash <= ObjBucket(env, t, o) || m.tables[t].future.Some?)
  {}

  /** Where a reader stands in the bucket it reads. */
  ghost predicate OnChain(env: Env, s: State, pc: Pc, i: nat) {
    pc.LookupCursor? ==>
      i <= |List(s.m, pc.t, Bucket(env, pc.t, pc.key))| && pc.cursor == PtrAt(List(s.m, pc.t, Bucket(env, pc.t, pc.key)), i)
  }

  /** Elements with its key are still before it. */
  ghost predicate NonePassed(env: Env, m: Mem, pc: Pc, i: nat) {
    && (pc.LookupAt? ==> KeyFrom(env, m, pc.key, pc.t))
    && (pc.LookupNext? ==> KeyFrom(env, m, pc.key, pc.t + 1))
    && (pc.LookupCursor? ==>
          && KeyFrom(env, m, pc.key, pc.t)
          && var l := List(m, pc.t, Bucket(env, pc.t, pc.key)); forall j :: 0 <= j < i && j < |l| ==> env.key(l[j]) != pc.key)
  }

  /** What a lookup has found. */
  ghost predicate Finds(env: Env, m: Mem, k: Key, hit: Option<Obj>) {
    && (hit.None? ==> KeyAbsent(env, m, k))
    && (hit.Some? ==> hit.value in m.loc && env.key(hit.value) == k)
  }

  lemma NoneLeft(env: Env, m: Mem, k: Key, t: nat)
    requires MemInv(env, m) && KeyFrom(env, m, k, t)
    ensures t >= |m.tables| ==> KeyAbsent(env, m, k)
    ensures var l := List(m, t, Bucket(env, t, k));
            (forall j :: 0 <= j < |l| ==> env.key(l[j]) != k) ==> KeyFrom(env, m, k, t + 1)
  {
    hide Heap, WorkerOk, Shape;
    forall x | x in m.loc && env.key(x) == k && m.loc[x] == t ensures x in List(m, t, Bucket(env, t, k)) {}
  }

  function LookupStage(pc: Pc): nat { if pc.LookupAt? then 2 else if pc.LookupCursor? then 1 else 0 }

  function NodesLeft(env: Env, s: State, pc: Pc, i: nat): nat {
    if pc.LookupCursor? then Minus(|List(s.m, pc.t, Bucket(env, pc.t, pc.key))|, i) else 0
  }

  function ReadEvent(pc: Pc, tid: Tid): Event {
    if pc.LookupAt? then ReadHead(tid) else if pc.LookupCursor? then ReadCursor(tid) else ReadFuture(tid)
  }

  lemma LookupAdvances(env: Env, s: State, tid: Tid, i: nat) returns (i': nat)
    requires Inv(env, s) && Alone(env, s, tid) && Reading(PcOf(s, tid)) && OnChain(env, s, PcOf(s, tid), i)
    requires NonePassed(env, s.m, PcOf(s, tid), i)
    ensures Can(env, s, ReadEvent(PcOf(s, tid), tid))
    ensures var s', pc := Do(env, s, ReadEvent(PcOf(s, tid), tid)), PcOf(s, tid);
            var pc' := PcOf(s', tid);
            && s'.m == s.m && (Reading(pc') || pc'.LookupDone?) && pc'.key == pc.key && OnChain(env, s', pc', i')
            && NonePassed(env, s.m, pc', i') && (pc'.LookupDone? ==> Finds(env, s.m, pc.key, pc'.hit))
            && (Reading(pc') ==>
                  || Minus(|s.m.tables|, pc'.t) < Minus(|s.m.tables|, pc.t)
                  || (pc'.t == pc.t && (LookupStage(pc') < LookupStage(pc) ||
                     (LookupStage(pc') == LookupStage(pc) && NodesLeft(env, s', pc', i') < NodesLeft(env, s, pc, i)))))
  {
    hide Heap, Place, GraceOk, Inserts, Removes, Locks, WorkerOk, Alone, Linked, LockFree;
    var pc := PcOf(s, tid);
    assert ReadOk(s.m, s.grace, tid, pc);
    var h := Bucket(env, pc.t, pc.key);
    i' := 0;
    if !pc.LookupNext? {
      ChainThere(env, s, tid, pc.t, h);
      if pc.LookupAt? { ChainHead(s.m, pc.t, h); } else { ChainOn(s.m, pc.t, h, i); i' := i + 1; }
    }
    LookupMeets(env, s.m, pc, i);
  }

  lemma LookupMeets(env: Env, m: Mem, pc: Pc, i: nat)
    requires MemInv(env, m) && Reading(pc) && NonePassed(env, m, pc, i) && pc.t < |m.tables|
    ensures pc.LookupNext? ==> KeyFrom(env, m, pc.key, pc.t + 1) && (pc.t + 1 == |m.tables| ==> KeyAbsent(env, m, pc.key))
    ensures pc.LookupCursor? ==>
              var l := List(m, pc.t, Bucket(env, pc.t, pc.key));
              (i >= |l| ==> KeyFrom(env, m, pc.key, pc.t + 1)) && (i < |l| ==> l[i] in m.loc)
  {
    hide Heap, WorkerOk, Shape, Place;
    if pc.LookupNext? { NoneLeft(env, m, pc.key, pc.t + 1); }
    if pc.LookupCursor? {
      NoneLeft(env, m, pc.key, pc.t);
      ListedIn(env, m, pc.t, Bucket(env, pc.t, pc.key), i);
    }
  }

  lemma ListedIn(env: Env, m: Mem, t: nat, h: nat, i: nat)
    requires MemInv(env, m)
    ensures i < |List(m, t, h)| ==> List(m, t, h)[i] in m.loc
  {
    hide Heap, WorkerOk, Shape;
  }

  lemma ChainHead(m: Mem, t: nat, h: nat)
    requires Linked(m.next, Head(m, t, h), List(m, t, h), false)
    ensures Head(m, t, h) == PtrAt(List(m, t, h), 0)
  {}

  lemma ChainOn(m: Mem, t: nat, h: nat, i: nat)
    requires Linked(m.next, Head(m, t, h), List(m, t, h), false)
    ensures i < |List(m, t, h)| ==> Next(m.next, List(m, t, h)[i]) == PtrAt(List(m, t, h), i + 1)
  {}

  /** A lookup left alone comes to its end, and then it has found the key if and only if
      an element has it. */
  lemma LookupEnds(env: Env, s: State, tid: Tid, k: Key)
    requires WfEnv(env) && Inv(env, s) && Alone(env, s, tid) && Can(env, s, LookupStart(tid, k))
    ensures exists evs :: (forall ev :: ev in evs ==> Of(ev, tid)) && Goes(env, s, [LookupStart(tid, k)] + evs).Some? &&
              LookedUp(env, s, Goes(env, s, [LookupStart(tid, k)] + evs).value, tid, k)
  {
    var ev := LookupStart(tid, k);
    LookupStarts(env, s, tid, k);
    OtherMemory(env, s, ev);
    assert KeyFrom(env, s.m, k, s.m.tbl);
    hide Inv, Goes, Alone, Can, Do, KeyFrom;
    StaysAlone(env, s, ev, tid);
    StepInv(env, s, ev);
    var evs := LookupAlone(env, Do(env, s, ev), tid, 0);
    GoesFirst(env, s, ev, evs);
  }

  ghost predicate LookedUp(env: Env, s: State, s': State, tid: Tid, k: Key) {
    && Inv(env, s') && s'.m == s.m && PcOf(s', tid).LookupDone? && PcOf(s', tid).key == k
    && Finds(env, s.m, k, PcOf(s', tid).hit)
  }

  lemma {:induction false} LookupAlone(env: Env, s: State, tid: Tid, i: nat) returns (evs: seq<Event>)
    requires WfEnv(env) && Inv(env, s) && Alone(env, s, tid) && Reading(PcOf(s, tid)) && OnChain(env, s, PcOf(s, tid), i)
    requires NonePassed(env, s.m, PcOf(s, tid), i)
    ensures forall ev :: ev in evs ==> Of(ev, tid)
    ensures Goes(env, s, evs).Some? && LookedUp(env, s, Goes(env, s, evs).value, tid, PcOf(s, tid).key)
    decreases Minus(|s.m.tables|, PcOf(s, tid).t), LookupStage(PcOf(s, tid)), NodesLeft(env, s, PcOf(s, tid), i)
  {
    hide Inv, Can, Do, Alone, NodesLeft, OnChain, NonePassed, Finds;
    var ev := ReadEvent(PcOf(s, tid), tid);
    var i' := LookupAdvances(env, s, tid, i);
    var s1 := Do(env, s, ev);
    StaysAlone(env, s, ev, tid);
    StepInv(env, s, ev);
    var rest := [];
    if Reading(PcOf(s1, tid)) { rest := LookupAlone(env, s1, tid, i'); }
    GoesFirst(env, s, ev, rest);
    evs := [ev] + rest;
  }
}
