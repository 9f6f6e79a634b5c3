/** What every step of the hash table machine keeps. */
module RhashInvariant {
  import opened Common
  import opened RhashModel

  predicate Moving(w: Worker) {
    w.Linking? || w.Unlinking?
  }

  /** The chain as memory has it: between linking an entry into the new table and
      unlinking it from the old one, the old chain still ends in that entry. */
  function Phys(m: Mem, t: nat, h: nat): seq<Obj> {
    List(m, t, h) + if m.worker.Unlinking? && t == m.tbl && h == m.worker.h then [m.worker.entry] else []
  }

  /** The chain whose last node already points into the new table. */
  predicate Loose(m: Mem, t: nat, h: nat) {
    Moving(m.worker) && t == m.tbl && h == m.worker.h
  }

  /** The tables form one chain by future_tbl in allocation order; those before
      ht->tbl are fully rehashed, those after it untouched. */
  ghost predicate Shape(env: Env, m: Mem) {
    && m.tbl < |m.tables|
    && (forall i :: 0 <= i < |m.tables| ==> m.tables[i].future == if i + 1 < |m.tables| then Some(i + 1) else None)
    && (forall i :: m.tbl < i < |m.tables| ==> m.tables[i].rehash == 0)
    && (forall i :: 0 <= i < m.tbl ==> m.tables[i].rehash == env.size(i))
    && m.tables[m.tbl].rehash <= env.size(m.tbl)
  }

  ghost predicate WorkerOk(env: Env, m: Mem)
    requires m.tbl < |m.tables|
  {
    match m.worker
    case Resting => m.tables[m.tbl].rehash == 0
    case AtBucket(h) => m.tables[m.tbl].rehash == h && m.tbl + 1 < |m.tables|
    case BucketHeld(h) => m.tables[m.tbl].rehash == h < env.size(m.tbl) && m.tbl + 1 < |m.tables|
    case Target(h, n) => m.tables[m.tbl].rehash == h < env.size(m.tbl) && m.tbl < n < |m.tables|
    case Linking(h, n, e, prev) =>
      var l := List(m, m.tbl, h);
      && m.tables[m.tbl].rehash == h < env.size(m.tbl) && m.tbl < n < |m.tables|
      && l != [] && l[|l| - 1] == e
      && prev == (if |l| == 1 then None else Some(l[|l| - 2]))
      && Next(m.next, e) == Head(m, n, ObjBucket(env, n, e))
    case Unlinking(h, n, e, prev) =>
      var l := List(m, m.tbl, h);
      && m.tables[m.tbl].rehash == h < env.size(m.tbl) && m.tbl < n < |m.tables|
      && e in m.loc && m.loc[e] == n && ObjBucket(env, m.tbl, e) == h
      && prev == (if l == [] then None else Some(l[|l| - 1]))
  }

  /** Memory agrees with the lists. */
  ghost predicate Heap(m: Mem) {
    forall t, h :: Linked(m.next, Head(m, t, h), Phys(m, t, h), Loose(m, t, h))
  }

  /** Each element is in exactly one list: the bucket its hash selects in the
      table `loc` names, which is ht->tbl or a later one, and never a bucket
      that has been rehashed. */
  ghost predicate Place(env: Env, m: Mem)
    requires m.tbl < |m.tables|
  {
    NoTwins(m) && ListedPlaced(env, m) && PlacedListed(env, m) && Bounds(env, m)
  }

  ghost predicate NoTwins(m: Mem) {
    forall t, h :: NoDup(List(m, t, h))
  }

  ghost predicate ListedPlaced(env: Env, m: Mem) {
    forall t, h, o :: o in List(m, t, h) ==> o in m.loc && m.loc[o] == t && ObjBucket(env, t, o) == h
  }

  ghost predicate PlacedListed(env: Env, m: Mem) {
    forall o :: o in m.loc ==> o in List(m, m.loc[o], ObjBucket(env, m.loc[o], o))
  }

  ghost predicate Bounds(env: Env, m: Mem)
    requires m.tbl < |m.tables|
  {
    && (forall o :: o in m.loc ==> m.tbl <= m.loc[o] < |m.tables|)
    && (forall o :: o in m.loc && m.loc[o] == m.tbl ==> m.tables[m.tbl].rehash <= ObjBucket(env, m.tbl, o))
  }

  ghost predicate MemInv(env: Env, m: Mem) {
    Shape(env, m) && WorkerOk(env, m) && Heap(m) && Place(env, m)
  }

  ghost predicate Locks(env: Env, m: Mem, threads: map<Tid, Pc>) {
    && (forall i, j :: i in threads && j in threads && i != j ==> LocksOfPc(env, threads[i]) !! LocksOfPc(env, threads[j]))
    && (forall i :: i in threads ==> LocksOfPc(env, threads[i]) !! LocksOfWorker(env, m.tbl, m.worker))
  }

  /** The bucket of `o` in table `first` is the oldest one not yet rehashed. */
  ghost predicate Oldest(env: Env, m: Mem, o: Obj, first: nat)
    requires m.tbl < |m.tables|
  {
    && first < |m.tables| && m.tables[first].rehash <= ObjBucket(env, first, o)
    && (first == m.tbl || (first == m.tbl + 1 && m.tables[m.tbl].rehash > ObjBucket(env, m.tbl, o)))
  }

  /** Every element with key k is in table `at` or a later one. */
  ghost predicate KeyFrom(env: Env, m: Mem, k: Key, at: nat) {
    forall x :: x in m.loc && env.key(x) == k ==> m.loc[x] >= at
  }

  ghost predicate KeyOnlyIn(env: Env, m: Mem, k: Key, t: nat) {
    forall x :: x in m.loc && env.key(x) == k ==> m.loc[x] == t
  }

  ghost predicate KeyAbsent(env: Env, m: Mem, k: Key) {
    forall x :: x in m.loc ==> env.key(x) != k
  }

  ghost predicate InsertOk(env: Env, m: Mem, pc: Pc)
    requires m.tbl < |m.tables|
  {
    && (Inserting(pc) ==> pc.obj !in m.loc)
    && match pc
       case FastStart(o, keyed, t) => t <= m.tbl
       case Seek(o, keyed, t) =>
         t <= m.tbl || (t == m.tbl + 1 < |m.tables| && m.tables[m.tbl].rehash > ObjBucket(env, m.tbl, o))
       case FastHeld(o, keyed, t) => Oldest(env, m, o, t) && KeyOnlyIn(env, m, env.key(o), t)
       case Held(o, keyed, first, at) =>
         Oldest(env, m, o, first) && first <= at < |m.tables| && (keyed ==> KeyFrom(env, m, env.key(o), at))
       case Follow(o, keyed, first, at) =>
         Oldest(env, m, o, first) && first < at < |m.tables| && (keyed ==> KeyFrom(env, m, env.key(o), at))
       case Scanned(o, keyed, first, at) =>
         Oldest(env, m, o, first) && first <= at < |m.tables| && (keyed ==> KeyFrom(env, m, env.key(o), at + 1))
       case Commit(o, keyed, first, at) =>
         Oldest(env, m, o, first) && first <= at < |m.tables| && (keyed ==> KeyAbsent(env, m, env.key(o)))
       case _ => true
  }

  /** An object being inserted is not inserted or removed by another thread. */
  predicate Apart(a: Pc, b: Pc) {
    Inserting(a) && (Inserting(b) || Removing(b)) ==> a.obj != b.obj
  }

  ghost predicate Inserts(env: Env, m: Mem, threads: map<Tid, Pc>)
    requires m.tbl < |m.tables|
  {
    && (forall i :: i in threads ==> InsertOk(env, m, threads[i]))
    && (forall i, j :: i in threads && j in threads && i != j ==> Apart(threads[i], threads[j]))
  }

  /** A remover is never past the table its object is in. */
  ghost predicate RemoveOk(m: Mem, pc: Pc) {
    match pc
    case RemoveAt(o, t) =>
      && t < |m.tables|
      && (o in m.loc ==> t <= m.loc[o])
      && (m.worker.Unlinking? && m.worker.entry == o ==> t <= m.tbl)
    case RemoveNext(o, t) =>
      && t < |m.tables|
      && (o in m.loc ==> t < m.loc[o])
      && (m.worker.Unlinking? && m.worker.entry == o ==> t < m.tbl)
    case _ => true
  }

  ghost predicate Removes(m: Mem, threads: map<Tid, Pc>) {
    forall i :: i in threads ==> RemoveOk(m, threads[i])
  }

  /** A reader's cursor is in the table or was removed while the reader ran; an
      object being inserted has had its grace period. */
  ghost predicate ReadOk(m: Mem, grace: map<Obj, set<Tid>>, tid: Tid, pc: Pc) {
    && (Reading(pc) ==> pc.t < |m.tables|)
    && (pc.LookupCursor? && pc.cursor.Node? ==> pc.cursor.obj in m.loc || tid in Grace(grace, pc.cursor.obj))
    && (Inserting(pc) ==> Grace(grace, pc.obj) == {})
  }

  /** Only readers hold up grace periods, only of objects that are out of the
      table, and what such an object points at is in the table or waits for at
      least the same readers. */
  ghost predicate GraceOk(m: Mem, grace: map<Obj, set<Tid>>, readers: set<Tid>) {
    && (forall o :: Grace(grace, o) <= readers)
    && (forall o :: Grace(grace, o) != {} ==> o !in m.loc)
    && (forall o :: Grace(grace, o) != {} && Next(m.next, o).Node? ==>
          Next(m.next, o).obj in m.loc || Grace(grace, o) <= Grace(grace, Next(m.next, o).obj))
  }

  ghost predicate Reads(m: Mem, grace: map<Obj, set<Tid>>, threads: map<Tid, Pc>) {
    && GraceOk(m, grace, Readers(threads))
    && (forall i :: i in threads ==> ReadOk(m, grace, i, threads[i]))
  }

  ghost predicate Inv(env: Env, s: State) {
    && MemInv(env, s.m) && Locks(env, s.m, s.threads) && Inserts(env, s.m, s.threads)
    && Removes(s.m, s.threads) && Reads(s.m, s.grace, s.threads)
  }

  lemma InitInv(env: Env)
    requires WfEnv(env)
    ensures Inv(env, Init())
  {}

  // ---------------------------------------------------------------- chains

  /** A chain that ends in a nulls marker is determined by memory. */
  lemma {:induction false} ChainUnique(next: map<Obj, Ptr>, head: Ptr, a: seq<Obj>, b: seq<Obj>)
    requires Linked(next, head, a, false) && Linked(next, head, b, false)
    ensures a == b
    decreases |a|
  {
    if a == [] || b == [] {
    } else {
      assert Next(next, a[0]) == PtrAt(a, 1) && Next(next, b[0]) == PtrAt(b, 1);
      LinkedTail(next, head, a);
      LinkedTail(next, head, b);
      ChainUnique(next, PtrAt(a, 1), a[1..], b[1..]);
      assert a == [a[0]] + a[1..] && b == [b[0]] + b[1..];
    }
  }

  lemma LinkedTail(next: map<Obj, Ptr>, head: Ptr, a: seq<Obj>)
    requires Linked(next, head, a, false) && a != []
    ensures Linked(next, PtrAt(a, 1), a[1..], false)
  {
    forall i | 0 <= i < |a[1..]| ensures Next(next, a[1..][i]) == PtrAt(a[1..], i + 1) {
      assert a[1..][i] == a[i + 1];
    }
  }

  /** A thread that can lock a bucket reads exactly its list. */
  lemma LockedChain(m: Mem, t: nat, h: nat, chain: seq<Obj>)
    requires Heap(m) && !Loose(m, t, h)
    requires Linked(m.next, Head(m, t, h), chain, false)
    ensures chain == List(m, t, h)
  {
    assert Linked(m.next, Head(m, t, h), Phys(m, t, h), Loose(m, t, h));
    ChainUnique(m.next, Head(m, t, h), chain, Phys(m, t, h));
  }

  lemma PhysInTable(env: Env, m: Mem, t: nat, h: nat, o: Obj)
    requires MemInv(env, m) && o in Phys(m, t, h)
    ensures o in m.loc
  {
    if o !in List(m, t, h) {
      assert o == m.worker.entry;
    }
  }

  lemma HeadInTable(env: Env, m: Mem, t: nat, h: nat)
    requires MemInv(env, m) && Head(m, t, h).Node?
    ensures Head(m, t, h).obj in m.loc
  {
    assert Linked(m.next, Head(m, t, h), Phys(m, t, h), Loose(m, t, h));
    assert Phys(m, t, h)[0] in Phys(m, t, h);
    PhysInTable(env, m, t, h, Phys(m, t, h)[0]);
  }

  /** Memory reached from an element is an element. */
  lemma NextInTable(env: Env, m: Mem, c: Obj)
    requires MemInv(env, m) && c in m.loc && Next(m.next, c).Node?
    ensures Next(m.next, c).obj in m.loc
  {
    var t := m.loc[c];
    var h := ObjBucket(env, t, c);
    var l := List(m, t, h);
    assert c in l;
    var i :| 0 <= i < |l| && l[i] == c;
    var p := Phys(m, t, h);
    assert p[i] == c;
    assert Linked(m.next, Head(m, t, h), p, Loose(m, t, h));
    if i + 1 < |p| {
      assert Next(m.next, p[i]) == Node(p[i + 1]);
      PhysInTable(env, m, t, h, p[i + 1]);
    } else if Loose(m, t, h) {
      HeadInTable(env, m, m.worker.n, ObjBucket(env, m.worker.n, c));
    }
  }

  // ------------------------------------------------ steps of one thread only

  /** A step that only moves thread `tid` to `pc` keeps the invariant if the new
      position meets what is asked of one thread. */
  lemma PcStep(env: Env, s: State, tid: Tid, pc: Pc)
    requires Inv(env, s)
    requires InsertOk(env, s.m, pc) && RemoveOk(s.m, pc) && ReadOk(s.m, s.grace, tid, pc)
    requires Reading(PcOf(s, tid)) ==> Reading(pc)
    requires LocksOfPc(env, pc) !! LocksOfWorker(env, s.m.tbl, s.m.worker)
    requires forall j :: j in s.threads && j != tid ==>
               LocksOfPc(env, pc) !! LocksOfPc(env, s.threads[j]) && Apart(pc, s.threads[j]) && Apart(s.threads[j], pc)
    ensures Inv(env, SetPc(s, tid, pc))
  {
    var threads' := s.threads[tid := pc];
    assert Locks(env, s.m, threads');
    assert Inserts(env, s.m, threads');
    assert Removes(s.m, threads');
    assert Readers(s.threads) <= Readers(threads');
    assert Reads(s.m, s.grace, threads');
  }
}
