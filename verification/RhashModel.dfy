/** The resizable hash table of rhashtable.c as a step machine.

    Inserters, removers, one rehash worker and lock-free readers interleave. A
    reader step is one pointer read. `rhashtable_rehash_one` is split at its
    three pointer stores. A writer step is what one thread does between two
    points where another thread can interfere: taking a bucket lock, looking up
    a key in a locked bucket, testing `future_tbl`, linking a new element.

    All choices that do not depend on the protocol are universally quantified:
    which hash function and how many buckets and locks each table has (`Env`),
    when the load heuristics ask for a resize, and when allocation fails. */
module RhashModel {
  import opened Common

  type Obj = nat     // the address of a struct rhash_head
  type Key = nat
  type Tid = nat

  /** A chain pointer: a nulls marker ends the chain. */
  datatype Ptr = Nulls | Node(obj: Obj)

  /** What is fixed over a run: the key of each object and, for the i-th table
      ever allocated, its size, the bucket its seeded hash selects for a key
      (rht_key_hashfn, rht_bucket_index) and the lock that covers a bucket
      (rht_bucket_lock). Equal keys hash equally; nothing else is assumed. */
  datatype Env = Env(key: Obj -> Key, size: nat -> nat, bucket: (nat, Key) -> nat, lock: (nat, nat) -> nat)

  ghost predicate WfEnv(env: Env) {
    forall t, k :: env.bucket(t, k) < env.size(t)
  }

  function Bucket(env: Env, t: nat, k: Key): nat {
    env.bucket(t, k)
  }

  function ObjBucket(env: Env, t: nat, o: Obj): nat {
    Bucket(env, t, env.key(o))
  }

  /** A lock belongs to one table. */
  function LockOf(env: Env, t: nat, h: nat): (nat, nat) {
    (t, env.lock(t, h))
  }

  datatype Table = Table(rehash: nat, future: Option<nat>)

  datatype InsertResult = Inserted | Exists(present: Obj) | Failed

  /** Where a thread stands inside one call. */
  datatype Pc =
    | Idle
      // __rhashtable_insert_fast: ht->tbl read; bucket locked and future_tbl seen NULL
    | FastStart(obj: Obj, keyed: bool, t: nat)
    | FastHeld(obj: Obj, keyed: bool, t: nat)
      // rhashtable_try_insert: looking for the oldest bucket not yet rehashed
    | Seek(obj: Obj, keyed: bool, t: nat)
      // holds the locks of `first` and of `at`; the lookup in `at` is next
    | Held(obj: Obj, keyed: bool, first: nat, at: nat)
      // the lookup in `at` found no equal key; reading at->future_tbl is next
    | Scanned(obj: Obj, keyed: bool, first: nat, at: nat)
      // holds only the lock of `first`; locking the bucket of `at` is next
    | Follow(obj: Obj, keyed: bool, first: nat, at: nat)
      // future_tbl was NULL; linking the object into `at` is next
    | Commit(obj: Obj, keyed: bool, first: nat, at: nat)
    | InsertDone(obj: Obj, result: InsertResult)
      // __rhashtable_remove_fast
    | RemoveAt(obj: Obj, t: nat)
    | RemoveNext(obj: Obj, t: nat)
    | RemoveDone(obj: Obj, found: bool)
      // __rhashtable_lookup
    | LookupAt(key: Key, t: nat)
    | LookupCursor(key: Key, t: nat, cursor: Ptr)
    | LookupNext(key: Key, t: nat)
    | LookupDone(key: Key, hit: Option<Obj>)

  /** Where the worker stands inside rhashtable_rehash_table; ht->mutex allows one. */
  datatype Worker =
    | Resting
    | AtBucket(h: nat)                                          // the lock of bucket h is next
    | BucketHeld(h: nat)                                        // bucket h of the old table is locked
    | Target(h: nat, n: nat)                                    // n was the last table when read
    | Linking(h: nat, n: nat, entry: Obj, prev: Option<Obj>)    // entry->next stored; new bucket locked
    | Unlinking(h: nat, n: nat, entry: Obj, prev: Option<Obj>)  // new bucket points at entry

  /** The shared table. `heads` and `next` are the memory the readers see.
      `lists` and `loc` are auxiliary: the contents each bucket stands for and
      the table each element lives in. No step decides by them. */
  datatype Mem = Mem(
    tables: seq<Table>, tbl: nat,
    heads: map<(nat, nat), Ptr>, next: map<Obj, Ptr>,
    lists: map<(nat, nat), seq<Obj>>, loc: map<Obj, nat>,
    worker: Worker)

  /** `grace` names, for a removed object, the readers that were running when it
      was unlinked and still are: its grace period ends when none is left. */
  datatype State = State(m: Mem, grace: map<Obj, set<Tid>>, threads: map<Tid, Pc>)

  function Init(): State {
    State(Mem([Table(0, None)], 0, map[], map[], map[], map[], Resting), map[], map[])
  }

  function Head(m: Mem, t: nat, h: nat): Ptr {
    if (t, h) in m.heads then m.heads[(t, h)] else Nulls
  }

  function Next(next: map<Obj, Ptr>, o: Obj): Ptr {
    if o in next then next[o] else Nulls
  }

  function List(m: Mem, t: nat, h: nat): seq<Obj> {
    if (t, h) in m.lists then m.lists[(t, h)] else []
  }

  function Grace(grace: map<Obj, set<Tid>>, o: Obj): set<Tid> {
    if o in grace then grace[o] else {}
  }

  function PcOf(s: State, tid: Tid): Pc {
    if tid in s.threads then s.threads[tid] else Idle
  }

  function PtrAt(l: seq<Obj>, i: nat): Ptr {
    if i < |l| then Node(l[i]) else Nulls
  }

  /** Following `next` from `head` visits exactly l and, unless the link out of
      the last node is loose, then a nulls marker. */
  predicate Linked(next: map<Obj, Ptr>, head: Ptr, l: seq<Obj>, loose: bool) {
    && head == PtrAt(l, 0)
    && forall i {:trigger Next(next, l[i])} :: 0 <= i < |l| && (loose ==> i + 1 < |l|) ==> Next(next, l[i]) == PtrAt(l, i + 1)
  }

  predicate Inserting(pc: Pc) {
    pc.FastStart? || pc.FastHeld? || pc.Seek? || pc.Held? || pc.Scanned? || pc.Follow? || pc.Commit?
  }

  predicate Removing(pc: Pc) {
    pc.RemoveAt? || pc.RemoveNext?
  }

  predicate Reading(pc: Pc) {
    pc.LookupAt? || pc.LookupCursor? || pc.LookupNext?
  }

  predicate Finished(pc: Pc) {
    pc.Idle? || pc.InsertDone? || pc.RemoveDone? || pc.LookupDone?
  }

  function LocksOfPc(env: Env, pc: Pc): set<(nat, nat)> {
    match pc
    case FastHeld(obj, _, t) => {LockOf(env, t, ObjBucket(env, t, obj))}
    case Held(obj, _, first, at) => {LockOf(env, first, ObjBucket(env, first, obj)), LockOf(env, at, ObjBucket(env, at, obj))}
    case Scanned(obj, _, first, at) => {LockOf(env, first, ObjBucket(env, first, obj)), LockOf(env, at, ObjBucket(env, at, obj))}
    case Commit(obj, _, first, at) => {LockOf(env, first, ObjBucket(env, first, obj)), LockOf(env, at, ObjBucket(env, at, obj))}
    case Follow(obj, _, first, _) => {LockOf(env, first, ObjBucket(env, first, obj))}
    case _ => {}
  }

  function LocksOfWorker(env: Env, tbl: nat, w: Worker): set<(nat, nat)> {
    match w
    case Resting => {}
    case AtBucket(_) => {}
    case BucketHeld(h) => {LockOf(env, tbl, h)}
    case Target(h, _) => {LockOf(env, tbl, h)}
    case Linking(h, n, e, _) => {LockOf(env, tbl, h), LockOf(env, n, ObjBucket(env, n, e))}
    case Unlinking(h, _, _, _) => {LockOf(env, tbl, h)}
  }

  predicate LockFree(env: Env, s: State, lock: (nat, nat)) {
    && lock !in LocksOfWorker(env, s.m.tbl, s.m.worker)
    && forall tid :: tid in s.threads ==> lock !in LocksOfPc(env, s.threads[tid])
  }

  /** The callers' duty: while an object is being inserted nobody else inserts
      or removes it. */
  predicate NotBusy(s: State, o: Obj) {
    forall tid :: tid in s.threads ==>
      (Inserting(s.threads[tid]) || Removing(s.threads[tid])) ==> s.threads[tid].obj != o
  }

  predicate NotInserting(s: State, o: Obj) {
    forall tid :: tid in s.threads ==> Inserting(s.threads[tid]) ==> s.threads[tid].obj != o
  }

  datatype Event =
    | InsertStart(tid: Tid, obj: Obj, keyed: bool)
    | FastLock(tid: Tid)
    | FastLookup(tid: Tid, chain: seq<Obj>)
    | SeekLock(tid: Tid)
    | Lookup(tid: Tid, chain: seq<Obj>)
    | TestFuture(tid: Tid)
    | FollowLock(tid: Tid)
    | GiveUp(tid: Tid, retry: bool)
    | Link(tid: Tid)
    | RemoveStart(tid: Tid, obj: Obj)
    | RemoveOne(tid: Tid, chain: seq<Obj>)
    | RemoveFollow(tid: Tid)
    | LookupStart(tid: Tid, key: Key)
    | ReadHead(tid: Tid)
    | ReadCursor(tid: Tid)
    | ReadFuture(tid: Tid)
    | Attach(t: nat)
    | WorkerStart
    | WorkerLock
    | WorkerLastTable
    | WorkerEmpty(chain: seq<Obj>)
    | WorkerStoreNext(chain: seq<Obj>)
    | WorkerStoreHead
    | WorkerUnlink
    | WorkerPublish

  function SetPc(s: State, tid: Tid, pc: Pc): State {
    s.(threads := s.threads[tid := pc])
  }

  /** Readers that an object unlinked now has to wait for. */
  function Readers(threads: map<Tid, Pc>): set<Tid> {
    set tid | tid in threads && Reading(threads[tid])
  }

  /** A reader that leaves its read-side section no longer holds up any grace period. */
  function EndRead(s: State, tid: Tid, hit: Option<Obj>): State
    requires Reading(PcOf(s, tid))
  {
    SetPc(s, tid, LookupDone(PcOf(s, tid).key, hit)).(grace := map o | o in s.grace :: s.grace[o] - {tid})
  }

  /** rhashtable_insert_one's two stores. */
  function LinkIn(m: Mem, t: nat, h: nat, o: Obj): Mem {
    m.(next := m.next[o := Head(m, t, h)],
       heads := m.heads[(t, h) := Node(o)],
       lists := m.lists[(t, h) := [o] + List(m, t, h)],
       loc := m.loc[o := t])
  }

  /** The single store of __rhashtable_remove_fast_one at position i of the chain. */
  function UnlinkAt(m: Mem, t: nat, h: nat, chain: seq<Obj>, i: nat): Mem
    requires i < |chain|
  {
    var succ := Next(m.next, chain[i]);
    var l := List(m, t, h);
    m.(next := if i == 0 then m.next else m.next[chain[i - 1] := succ],
       heads := if i == 0 then m.heads[(t, h) := succ] else m.heads,
       lists := m.lists[(t, h) := if i < |l| then l[..i] + l[i + 1..] else l],
       loc := map o | o in m.loc && o != chain[i] :: m.loc[o])
  }

  /** Position of the first element of the chain with key k, or the length. */
  function FindKey(env: Env, chain: seq<Obj>, k: Key): (i: nat)
    ensures i <= |chain|
    ensures i < |chain| ==> env.key(chain[i]) == k
    ensures forall j :: 0 <= j < i ==> env.key(chain[j]) != k
  {
    if chain == [] then 0 else if env.key(chain[0]) == k then 0 else 1 + FindKey(env, chain[1..], k)
  }

  function FindObj(chain: seq<Obj>, o: Obj): (i: nat)
    ensures i <= |chain|
    ensures i < |chain| ==> chain[i] == o
    ensures i == |chain| <==> o !in chain
  {
    if chain == [] then 0 else if chain[0] == o then 0 else 1 + FindObj(chain[1..], o)
  }

  /** The outcome of a duplicate check: a NULL key matches nothing. */
  function FindDuplicate(env: Env, chain: seq<Obj>, o: Obj, keyed: bool): (i: nat)
    ensures i <= |chain|
    ensures i < |chain| ==> keyed && env.key(chain[i]) == env.key(o)
    ensures keyed && i == |chain| ==> forall j :: 0 <= j < |chain| ==> env.key(chain[j]) != env.key(o)
  {
    if keyed then FindKey(env, chain, env.key(o)) else |chain|
  }

  /** When an event can happen. */
  predicate Can(env: Env, s: State, ev: Event) {
    match ev
    case InsertStart(tid, o, _) => Finished(PcOf(s, tid)) && o !in s.m.loc && Grace(s.grace, o) == {} && NotBusy(s, o)
    case FastLock(tid) =>
      var pc := PcOf(s, tid);
      pc.FastStart? && pc.t < |s.m.tables| && LockFree(env, s, LockOf(env, pc.t, ObjBucket(env, pc.t, pc.obj)))
    case FastLookup(tid, chain) =>
      var pc := PcOf(s, tid);
      pc.FastHeld? && Linked(s.m.next, Head(s.m, pc.t, ObjBucket(env, pc.t, pc.obj)), chain, false)
    case SeekLock(tid) =>
      var pc := PcOf(s, tid);
      && pc.Seek? && pc.t < |s.m.tables|
      && LockFree(env, s, LockOf(env, pc.t, ObjBucket(env, pc.t, pc.obj)))
      && (s.m.tables[pc.t].rehash <= ObjBucket(env, pc.t, pc.obj) || s.m.tables[pc.t].future.Some?)
    case Lookup(tid, chain) =>
      var pc := PcOf(s, tid);
      pc.Held? && Linked(s.m.next, Head(s.m, pc.at, ObjBucket(env, pc.at, pc.obj)), chain, false)
    case TestFuture(tid) => PcOf(s, tid).Scanned? && PcOf(s, tid).at < |s.m.tables|
    case FollowLock(tid) =>
      var pc := PcOf(s, tid);
      pc.Follow? && LockFree(env, s, LockOf(env, pc.at, ObjBucket(env, pc.at, pc.obj)))
    case GiveUp(tid, _) => PcOf(s, tid).Commit?
    case Link(tid) => PcOf(s, tid).Commit?
    case RemoveStart(tid, o) => Finished(PcOf(s, tid)) && NotInserting(s, o)
    case RemoveOne(tid, chain) =>
      var pc := PcOf(s, tid);
      && pc.RemoveAt?
      && LockFree(env, s, LockOf(env, pc.t, ObjBucket(env, pc.t, pc.obj)))
      && Linked(s.m.next, Head(s.m, pc.t, ObjBucket(env, pc.t, pc.obj)), chain, false)
    case RemoveFollow(tid) => PcOf(s, tid).RemoveNext? && PcOf(s, tid).t < |s.m.tables|
    case LookupStart(tid, _) => Finished(PcOf(s, tid))
    case ReadHead(tid) => PcOf(s, tid).LookupAt?
    case ReadCursor(tid) => PcOf(s, tid).LookupCursor?
    case ReadFuture(tid) => PcOf(s, tid).LookupNext? && PcOf(s, tid).t < |s.m.tables|
    case Attach(t) => t < |s.m.tables| && s.m.tables[t].future.None?
    case WorkerStart => s.m.worker.Resting? && s.m.tbl < |s.m.tables| && s.m.tables[s.m.tbl].future.Some?
    case WorkerLock => s.m.worker.AtBucket? && s.m.worker.h < env.size(s.m.tbl) && LockFree(env, s, LockOf(env, s.m.tbl, s.m.worker.h))
    case WorkerLastTable => s.m.worker.BucketHeld? && s.m.tbl < |s.m.tables|
    case WorkerEmpty(chain) =>
      s.m.worker.Target? && Linked(s.m.next, Head(s.m, s.m.tbl, s.m.worker.h), chain, false) && chain == [] && s.m.tbl < |s.m.tables|
    case WorkerStoreNext(chain) =>
      && s.m.worker.Target? && Linked(s.m.next, Head(s.m, s.m.tbl, s.m.worker.h), chain, false) && chain != []
      && var e := chain[|chain| - 1];
         LockFree(env, s, LockOf(env, s.m.worker.n, ObjBucket(env, s.m.worker.n, e)))
    case WorkerStoreHead => s.m.worker.Linking?
    case WorkerUnlink => s.m.worker.Unlinking?
    case WorkerPublish =>
      && s.m.worker.AtBucket? && s.m.worker.h == env.size(s.m.tbl)
      && s.m.tbl < |s.m.tables| && s.m.tables[s.m.tbl].future.Some?
  }

  function LastTable(tables: seq<Table>, t: nat): (n: nat)
    requires t < |tables|
    decreases |tables| - t
  {
    match tables[t].future
    case None => t
    case Some(u) => if t < u < |tables| then LastTable(tables, u) else t
  }

  /** The last entry of the old chain is pointed at the head of its new bucket. */
  function StoreNext(env: Env, m: Mem, chain: seq<Obj>): Mem
    requires m.worker.Target? && chain != []
  {
    var w := m.worker;
    var e := chain[|chain| - 1];
    m.(next := m.next[e := Head(m, w.n, ObjBucket(env, w.n, e))],
       worker := Linking(w.h, w.n, e, if |chain| == 1 then None else Some(chain[|chain| - 2])))
  }

  /** The new bucket is pointed at the entry. */
  function StoreHead(env: Env, m: Mem): Mem
    requires m.worker.Linking?
  {
    var w := m.worker;
    var g := ObjBucket(env, w.n, w.entry);
    var l := List(m, m.tbl, w.h);
    var lists' := m.lists[(m.tbl, w.h) := if l == [] then l else l[..|l| - 1]];
    m.(heads := m.heads[(w.n, g) := Node(w.entry)],
       lists := lists'[(w.n, g) := [w.entry] + List(m, w.n, g)],
       loc := m.loc[w.entry := w.n],
       worker := Unlinking(w.h, w.n, w.entry, w.prev))
  }

  /** The entry, which is the last one, is cut off the old chain. */
  function UnlinkOld(m: Mem): Mem
    requires m.worker.Unlinking?
  {
    var w := m.worker;
    match w.prev
    case None => m.(heads := m.heads[(m.tbl, w.h) := Nulls], worker := BucketHeld(w.h))
    case Some(p) => m.(next := m.next[p := Nulls], worker := BucketHeld(w.h))
  }

  /** rhashtable_rehash_attach. */
  function AttachTable(m: Mem, t: nat): Mem
    requires t < |m.tables|
  {
    m.(tables := m.tables[t := m.tables[t].(future := Some(|m.tables|))] + [Table(0, None)])
  }

  /** A bucket found empty counts as rehashed. */
  function Bump(m: Mem): Mem
    requires m.worker.Target? && m.tbl < |m.tables|
  {
    m.(tables := m.tables[m.tbl := m.tables[m.tbl].(rehash := m.tables[m.tbl].rehash + 1)],
       worker := AtBucket(m.worker.h + 1))
  }

  /** What an event does. */
  function Do(env: Env, s: State, ev: Event): State
    requires Can(env, s, ev)
  {
    match ev
    case InsertStart(tid, o, keyed) => SetPc(s, tid, FastStart(o, keyed, s.m.tbl))
    case FastLock(tid) =>
      var pc := PcOf(s, tid);
      // future_tbl set: unlock and take the slow path, which reads ht->tbl again
      if s.m.tables[pc.t].future.Some? then SetPc(s, tid, Seek(pc.obj, pc.keyed, s.m.tbl))
      else SetPc(s, tid, FastHeld(pc.obj, pc.keyed, pc.t))
    case FastLookup(tid, chain) =>
      var pc := PcOf(s, tid);
      var i := FindDuplicate(env, chain, pc.obj, pc.keyed);
      SetPc(s, tid, if i < |chain| then InsertDone(pc.obj, Exists(chain[i])) else Commit(pc.obj, pc.keyed, pc.t, pc.t))
    case SeekLock(tid) =>
      var pc := PcOf(s, tid);
      if s.m.tables[pc.t].rehash <= ObjBucket(env, pc.t, pc.obj)
      then SetPc(s, tid, Held(pc.obj, pc.keyed, pc.t, pc.t))
      else SetPc(s, tid, Seek(pc.obj, pc.keyed, s.m.tables[pc.t].future.value))
    case Lookup(tid, chain) =>
      var pc := PcOf(s, tid);
      var i := FindDuplicate(env, chain, pc.obj, pc.keyed);
      SetPc(s, tid, if i < |chain| then InsertDone(pc.obj, Exists(chain[i])) else Scanned(pc.obj, pc.keyed, pc.first, pc.at))
    case TestFuture(tid) =>
      var pc := PcOf(s, tid);
      SetPc(s, tid, match s.m.tables[pc.at].future
                    case None => Commit(pc.obj, pc.keyed, pc.first, pc.at)
                    case Some(u) => Follow(pc.obj, pc.keyed, pc.first, u))
    case FollowLock(tid) =>
      var pc := PcOf(s, tid);
      SetPc(s, tid, Held(pc.obj, pc.keyed, pc.first, pc.at))
    case GiveUp(tid, retry) =>
      // -EAGAIN starts over, any other error is returned; all locks are released
      var pc := PcOf(s, tid);
      SetPc(s, tid, if retry then Seek(pc.obj, pc.keyed, s.m.tbl) else InsertDone(pc.obj, Failed))
    case Link(tid) =>
      var pc := PcOf(s, tid);
      SetPc(s.(m := LinkIn(s.m, pc.at, ObjBucket(env, pc.at, pc.obj), pc.obj)), tid, InsertDone(pc.obj, Inserted))
    case RemoveStart(tid, o) => SetPc(s, tid, RemoveAt(o, s.m.tbl))
    case RemoveOne(tid, chain) =>
      var pc := PcOf(s, tid);
      var i := FindObj(chain, pc.obj);
      if i < |chain|
      then SetPc(s.(m := UnlinkAt(s.m, pc.t, ObjBucket(env, pc.t, pc.obj), chain, i),
                    grace := s.grace[pc.obj := Readers(s.threads)]), tid, RemoveDone(pc.obj, true))
      else SetPc(s, tid, RemoveNext(pc.obj, pc.t))
    case RemoveFollow(tid) =>
      var pc := PcOf(s, tid);
      SetPc(s, tid, match s.m.tables[pc.t].future
                    case None => RemoveDone(pc.obj, false)
                    case Some(u) => RemoveAt(pc.obj, u))
    case LookupStart(tid, k) => SetPc(s, tid, LookupAt(k, s.m.tbl))
    case ReadHead(tid) =>
      var pc := PcOf(s, tid);
      SetPc(s, tid, LookupCursor(pc.key, pc.t, Head(s.m, pc.t, Bucket(env, pc.t, pc.key))))
    case ReadCursor(tid) =>
      var pc := PcOf(s, tid);
      (match pc.cursor
       case Nulls => SetPc(s, tid, LookupNext(pc.key, pc.t))
       case Node(c) =>
         if env.key(c) == pc.key then EndRead(s, tid, Some(c))
         else SetPc(s, tid, LookupCursor(pc.key, pc.t, Next(s.m.next, c))))
    case ReadFuture(tid) =>
      var pc := PcOf(s, tid);
      (match s.m.tables[pc.t].future
       case None => EndRead(s, tid, None)
       case Some(u) => SetPc(s, tid, LookupAt(pc.key, u)))
    case Attach(t) => s.(m := AttachTable(s.m, t))
    case WorkerStart => s.(m := s.m.(worker := AtBucket(0)))
    case WorkerLock => s.(m := s.m.(worker := BucketHeld(s.m.worker.h)))
    case WorkerLastTable => s.(m := s.m.(worker := Target(s.m.worker.h, LastTable(s.m.tables, s.m.tbl))))
    case WorkerEmpty(_) => s.(m := Bump(s.m))
    case WorkerStoreNext(chain) => s.(m := StoreNext(env, s.m, chain))
    case WorkerStoreHead => s.(m := StoreHead(env, s.m))
    case WorkerUnlink => s.(m := UnlinkOld(s.m))
    case WorkerPublish => s.(m := s.m.(tbl := s.m.tables[s.m.tbl].future.value, worker := Resting))
  }
}
