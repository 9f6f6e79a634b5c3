/** What the hash table promises over whole runs. */
module RhashTheorems {
  import opened Common
  import opened RhashModel
  import opened RhashInvariant
  import opened RhashSteps
  import opened RhashWorker

  /** A run from the empty table. */
  ghost predicate Run(env: Env, states: seq<State>, events: seq<Event>) {
    && |states| == |events| + 1
    && states[0] == Init()
    && forall i :: 0 <= i < |events| ==> Can(env, states[i], events[i]) && states[i + 1] == Do(env, states[i], events[i])
  }

  lemma {:induction false} RunInv(env: Env, states: seq<State>, events: seq<Event>, i: nat)
    requires WfEnv(env) && Run(env, states, events) && i < |states|
    ensures Inv(env, states[i])
  {
    hide Inv;
    if i == 0 {
      InitInv(env);
    } else {
      RunInv(env, states, events, i - 1);
      StepInv(env, states[i - 1], events[i - 1]);
    }
  }

  // ----------------------------------------------------- places of the elements

  /** x is reached from bucket h of table t by following pointers. */
  ghost predicate Reached(m: Mem, t: nat, h: nat, x: Obj) {
    exists chain :: Linked(m.next, Head(m, t, h), chain, false) && x in chain
  }

  /** In every reachable state in which no entry is between its two stores, an
      object is reached by pointers from a bucket iff it is an element placed in
      that table and that bucket is the one its hash selects; in particular it
      is reached from exactly one bucket of exactly one table, no table before
      ht->tbl and no rehashed bucket reaches anything. */
  lemma PointersGivePlace(env: Env, states: seq<State>, events: seq<Event>, i: nat, t: nat, h: nat, x: Obj)
    requires WfEnv(env) && Run(env, states, events) && i < |states| && !Moving(states[i].m.worker)
    ensures var m := states[i].m;
            && (Reached(m, t, h, x) <==> x in m.loc && m.loc[x] == t && h == ObjBucket(env, t, x))
            && (Reached(m, t, h, x) ==>
                  m.tbl <= t < |m.tables| && (t == m.tbl ==> m.tables[t].rehash <= h))
  {
    RunInv(env, states, events, i);
    var m := states[i].m;
    hide Inserts, Removes, Reads, Locks, WorkerOk;
    assert Linked(m.next, Head(m, t, h), Phys(m, t, h), Loose(m, t, h));
    assert Phys(m, t, h) == List(m, t, h);
    if Reached(m, t, h, x) {
      var chain :| Linked(m.next, Head(m, t, h), chain, false) && x in chain;
      LockedChain(m, t, h, chain);
      assert x in List(m, t, h);
    }
    if x in m.loc && m.loc[x] == t && h == ObjBucket(env, t, x) {
      assert x in List(m, m.loc[x], ObjBucket(env, m.loc[x], x));
    }
  }

  /** The tables in use form one chain by future_tbl, from ht->tbl to the last. */
  lemma TablesFormChain(env: Env, states: seq<State>, events: seq<Event>, i: nat, t: nat)
    requires WfEnv(env) && Run(env, states, events) && i < |states| && t < |states[i].m.tables|
    ensures states[i].m.tables[t].future == (if t + 1 < |states[i].m.tables| then Some(t + 1) else None)
    ensures states[i].m.tables[t].rehash > 0 ==> t <= states[i].m.tbl && t + 1 < |states[i].m.tables|
  {
    RunInv(env, states, events, i);
  }

  // ------------------------------------------------------------------ removing

  /** rhashtable_remove_fast reports -ENOENT only if the object is not in the
      table at that moment. */
  lemma RemoveFindsPresent(env: Env, states: seq<State>, events: seq<Event>, i: nat, tid: Tid)
    requires WfEnv(env) && Run(env, states, events) && i < |events|
    requires events[i] == RemoveFollow(tid)
    requires PcOf(states[i + 1], tid).RemoveDone?
    ensures !PcOf(states[i + 1], tid).found && PcOf(states[i], tid).obj !in states[i].m.loc
  {
    RunInv(env, states, events, i);
    assert RemoveOk(states[i].m, PcOf(states[i], tid));
  }

  /** One call of rhashtable_remove_fast: from its start to the first state in which the
      thread has its answer. */
  ghost predicate RemoveCall(states: seq<State>, events: seq<Event>, tid: Tid, o: Obj, a: nat, b: nat) {
    && a < b < |states| && |states| == |events| + 1
    && events[a] == RemoveStart(tid, o)
    && (forall j :: a < j < b ==> !PcOf(states[j], tid).RemoveDone?)
    && PcOf(states[b], tid).RemoveDone?
  }

  /** What a removal does, whatever happens beside it: the step that ends the call takes
      exactly the object out if it reports success, and otherwise changes nothing and
      the object is not in the table. */
  lemma RemoveOutcome(env: Env, states: seq<State>, events: seq<Event>, tid: Tid, o: Obj, a: nat, b: nat)
    requires WfEnv(env) && Run(env, states, events) && RemoveCall(states, events, tid, o, a, b)
    ensures var m, m' := states[b - 1].m, states[b].m;
            && a + 1 < b && PcOf(states[b], tid).obj == o
            && if PcOf(states[b], tid).found then o in m.loc && m'.loc.Keys == m.loc.Keys - {o}
               else o !in m.loc && m' == m
  {
    hide Inv, Can, Do;
    assert states[a + 1] == Do(env, states[a], events[a]);
    RemoveStarts(env, states[a], tid, o);
    RemovingOn(env, states, events, tid, o, a, b, b - 1);
    RunInv(env, states, events, b - 1);
    assert states[b - 1 + 1] == Do(env, states[b - 1], events[b - 1]);
    RemoveEnds(env, states[b - 1], events[b - 1], tid);
  }

  lemma RemoveStarts(env: Env, s: State, tid: Tid, o: Obj)
    requires Can(env, s, RemoveStart(tid, o))
    ensures var pc := PcOf(Do(env, s, RemoveStart(tid, o)), tid); Removing(pc) && pc.obj == o
  {}

  lemma {:induction false} RemovingOn(env: Env, states: seq<State>, events: seq<Event>, tid: Tid, o: Obj, a: nat, b: nat, j: nat)
    requires Run(env, states, events) && RemoveCall(states, events, tid, o, a, b) && a < j < b
    ensures Removing(PcOf(states[j], tid)) && PcOf(states[j], tid).obj == o
  {
    hide Can, Do;
    assert states[j - 1 + 1] == Do(env, states[j - 1], events[j - 1]);
    if j == a + 1 {
      RemoveStarts(env, states[a], tid, o);
    } else {
      RemovingOn(env, states, events, tid, o, a, b, j - 1);
      RemoveGoesOn(env, states[j - 1], events[j - 1], tid);
    }
  }

  lemma RemoveGoesOn(env: Env, s: State, ev: Event, tid: Tid)
    requires Can(env, s, ev) && Removing(PcOf(s, tid))
    ensures var pc := PcOf(Do(env, s, ev), tid); (Removing(pc) || pc.RemoveDone?) && pc.obj == PcOf(s, tid).obj
  {
    hide Linked, LockFree, NotBusy, NotInserting, LinkIn, UnlinkAt, StoreNext, StoreHead, UnlinkOld, AttachTable, Bump;
  }

  lemma RemoveEnds(env: Env, s: State, ev: Event, tid: Tid)
    requires Inv(env, s) && Can(env, s, ev) && Removing(PcOf(s, tid)) && PcOf(Do(env, s, ev), tid).RemoveDone?
    ensures var o, m, m', done := PcOf(s, tid).obj, s.m, Do(env, s, ev).m, PcOf(Do(env, s, ev), tid);
            && done.obj == o
            && if done.found then o in m.loc && m'.loc.Keys == m.loc.Keys - {o} else o !in m.loc && m' == m
  {
    hide Inv, Can, Do;
    RemoveEndsBy(env, s, ev, tid);
    if ev.RemoveOne? {
      RemoveTakes(env, s, ev);
    } else {
      RemoveMisses(env, s, ev);
    }
  }

  lemma RemoveEndsBy(env: Env, s: State, ev: Event, tid: Tid)
    requires Can(env, s, ev) && Removing(PcOf(s, tid)) && PcOf(Do(env, s, ev), tid).RemoveDone?
    ensures (ev.RemoveOne? || ev.RemoveFollow?) && ev.tid == tid
  {
    hide Linked, LockFree, NotBusy, NotInserting, LinkIn, UnlinkAt, StoreNext, StoreHead, UnlinkOld, AttachTable, Bump;
  }

  lemma RemoveTakes(env: Env, s: State, ev: Event)
    requires Inv(env, s) && Can(env, s, ev) && ev.RemoveOne? && PcOf(Do(env, s, ev), ev.tid).RemoveDone?
    ensures var o := PcOf(s, ev.tid).obj;
            PcOf(Do(env, s, ev), ev.tid) == RemoveDone(o, true) && o in s.m.loc && Do(env, s, ev).m.loc.Keys == s.m.loc.Keys - {o}
  {
    hide Heap, Place, Shape, WorkerOk, Locks, Inserts, Reads, Can, Do, LockFree, Linked;
    RemoveOneDoes(env, s, ev);
    var pc := PcOf(s, ev.tid);
    var h := ObjBucket(env, pc.t, pc.obj);
    NotMoving(env, s.m, pc.t, h);
    LockedChain(s.m, pc.t, h, ev.chain);
    FoundMeansThere(env, s.m, pc.t, pc.obj);
  }

  lemma RemoveMisses(env: Env, s: State, ev: Event)
    requires Inv(env, s) && Can(env, s, ev) && ev.RemoveFollow? && PcOf(Do(env, s, ev), ev.tid).RemoveDone?
    ensures var o := PcOf(s, ev.tid).obj;
            PcOf(Do(env, s, ev), ev.tid) == RemoveDone(o, false) && o !in s.m.loc && Do(env, s, ev).m == s.m
  {
    hide Heap, WorkerOk, Locks, Inserts, Reads;
    assert RemoveOk(s.m, PcOf(s, ev.tid));
  }

  /** And an element leaves the table only at the last step of such a call. */
  lemma OnlyRemovedLeaves(env: Env, states: seq<State>, events: seq<Event>, i: nat, o: Obj)
    requires WfEnv(env) && Run(env, states, events) && i < |events| && o in states[i].m.loc && o !in states[i + 1].m.loc
    ensures exists tid :: Removing(PcOf(states[i], tid)) && PcOf(states[i + 1], tid) == RemoveDone(o, true)
  {
    RunInv(env, states, events, i);
    hide Inv, Can, Do;
    LeavesByRemove(env, states[i], events[i], o);
  }

  lemma LeavesByRemove(env: Env, s: State, ev: Event, o: Obj)
    requires Inv(env, s) && Can(env, s, ev) && o in s.m.loc && o !in Do(env, s, ev).m.loc
    ensures exists tid :: Removing(PcOf(s, tid)) && PcOf(Do(env, s, ev), tid) == RemoveDone(o, true)
  {
    hide Inv, Can, Do;
    if ev.RemoveOne? {
      assert o in s.m.loc.Keys && o !in Do(env, s, ev).m.loc.Keys;
      RemoveTakenIs(env, s, ev);
      var tid := ev.tid;
      assert Removing(PcOf(s, tid)) && PcOf(Do(env, s, ev), tid) == RemoveDone(o, true);
    } else {
      LocGrows(env, s, ev);
    }
  }

  lemma LocGrows(env: Env, s: State, ev: Event)
    requires Can(env, s, ev) && !ev.RemoveOne?
    ensures s.m.loc.Keys <= Do(env, s, ev).m.loc.Keys
  {
    hide Linked, LockFree, NotBusy, NotInserting, Head, List, LastTable;
  }

  lemma RemoveTakenIs(env: Env, s: State, ev: Event)
    requires Inv(env, s) && Can(env, s, ev) && ev.RemoveOne? && !(s.m.loc.Keys <= Do(env, s, ev).m.loc.Keys)
    ensures var o := PcOf(s, ev.tid).obj;
            && Removing(PcOf(s, ev.tid)) && PcOf(Do(env, s, ev), ev.tid) == RemoveDone(o, true)
            && Do(env, s, ev).m.loc.Keys == s.m.loc.Keys - {o}
  {
    hide Inv, Can, Do;
    RemoveOneDoes(env, s, ev);
    RemoveTakes(env, s, ev);
  }

  // ----------------------------------------------------------------- inserting

  /** The search for the oldest bucket not yet rehashed does not run off the end of
      the tables: at every one it comes to, that bucket is there or a next table is. */
  lemma SeekFindsTable(env: Env, states: seq<State>, events: seq<Event>, i: nat, tid: Tid)
    requires WfEnv(env) && Run(env, states, events) && i < |states| && PcOf(states[i], tid).Seek?
    ensures var m, pc := states[i].m, PcOf(states[i], tid);
            pc.t < |m.tables| && (m.tables[pc.t].rehash <= ObjBucket(env, pc.t, pc.obj) || m.tables[pc.t].future.Some?)
  {
    RunInv(env, states, events, i);
    hide Heap, Place, Locks, Removes, Reads;
    assert InsertOk(env, states[i].m, PcOf(states[i], tid));
  }

  /** What the outcome of an insertion means at the step that decides it: Inserted
      puts the object in, and no element had its key if the insertion was keyed;
      Exists names an element with that key; nothing changes unless it is Inserted. */
  lemma InsertOutcome(env: Env, states: seq<State>, events: seq<Event>, i: nat, tid: Tid)
    requires WfEnv(env) && Run(env, states, events) && i < |events|
    requires Inserting(PcOf(states[i], tid)) && PcOf(states[i + 1], tid).InsertDone?
    ensures var m, m', pc := states[i].m, states[i + 1].m, PcOf(states[i], tid);
            && PcOf(states[i + 1], tid).obj == pc.obj && pc.obj !in m.loc
            && match PcOf(states[i + 1], tid).result
               case Inserted => m'.loc.Keys == m.loc.Keys + {pc.obj} && (pc.keyed ==> KeyAbsent(env, m, env.key(pc.obj)))
               case Exists(p) => m' == m && pc.keyed && p in m.loc && env.key(p) == env.key(pc.obj)
               case Failed => m' == m
  {
    RunInv(env, states, events, i);
    OutcomeOf(env, states[i], events[i], tid);
  }

  /** One call of an insertion. */
  ghost predicate InsertCall(states: seq<State>, events: seq<Event>, tid: Tid, o: Obj, keyed: bool, a: nat, b: nat) {
    && a < b < |states| && |states| == |events| + 1
    && events[a] == InsertStart(tid, o, keyed)
    && (forall j :: a < j < b ==> !PcOf(states[j], tid).InsertDone?)
    && PcOf(states[b], tid).InsertDone?
  }

  /** The same over whole calls: the answer is decided at the last step, for the object
      the call was made with. */
  lemma InsertCallOutcome(env: Env, states: seq<State>, events: seq<Event>, tid: Tid, o: Obj, keyed: bool, a: nat, b: nat)
    requires WfEnv(env) && Run(env, states, events) && InsertCall(states, events, tid, o, keyed, a, b)
    ensures var m, m', done := states[b - 1].m, states[b].m, PcOf(states[b], tid);
            && a + 1 < b && done.obj == o && o !in m.loc
            && (done.result == Inserted ==> m'.loc.Keys == m.loc.Keys + {o} && (keyed ==> KeyAbsent(env, m, env.key(o))))
            && (done.result.Exists? ==>
                  m' == m && keyed && done.result.present in m.loc && env.key(done.result.present) == env.key(o))
            && (done.result == Failed ==> m' == m)
  {
    hide Inv, Can, Do;
    assert states[a + 1] == Do(env, states[a], events[a]);
    InsertStarts(env, states[a], tid, o, keyed);
    InsertingOn(env, states, events, tid, o, keyed, a, b, b - 1);
    InsertOutcome(env, states, events, b - 1, tid);
  }

  lemma InsertStarts(env: Env, s: State, tid: Tid, o: Obj, keyed: bool)
    requires Can(env, s, InsertStart(tid, o, keyed))
    ensures var pc := PcOf(Do(env, s, InsertStart(tid, o, keyed)), tid); Inserting(pc) && pc.obj == o && pc.keyed == keyed
  {}

  lemma {:induction false} InsertingOn(env: Env, states: seq<State>, events: seq<Event>, tid: Tid, o: Obj, keyed: bool,
                                       a: nat, b: nat, j: nat)
    requires Run(env, states, events) && InsertCall(states, events, tid, o, keyed, a, b) && a < j < b
    ensures Inserting(PcOf(states[j], tid)) && PcOf(states[j], tid).obj == o && PcOf(states[j], tid).keyed == keyed
  {
    hide Can, Do;
    assert states[j - 1 + 1] == Do(env, states[j - 1], events[j - 1]);
    if j == a + 1 {
      InsertStarts(env, states[a], tid, o, keyed);
    } else {
      InsertingOn(env, states, events, tid, o, keyed, a, b, j - 1);
      InsertGoesOn(env, states[j - 1], events[j - 1], tid);
    }
  }

  lemma InsertGoesOn(env: Env, s: State, ev: Event, tid: Tid)
    requires Can(env, s, ev) && Inserting(PcOf(s, tid))
    ensures var pc, pc' := PcOf(s, tid), PcOf(Do(env, s, ev), tid);
            pc'.InsertDone? || (Inserting(pc') && pc'.obj == pc.obj && pc'.keyed == pc.keyed)
  {
    hide Linked, LockFree, NotBusy, NotInserting, LinkIn, UnlinkAt, StoreNext, StoreHead, UnlinkOld, AttachTable, Bump;
  }

  lemma OutcomeOf(env: Env, s: State, ev: Event, tid: Tid)
    requires Inv(env, s) && Can(env, s, ev) && Inserting(PcOf(s, tid)) && PcOf(Do(env, s, ev), tid).InsertDone?
    ensures var m, m', pc := s.m, Do(env, s, ev).m, PcOf(s, tid);
            && PcOf(Do(env, s, ev), tid).obj == pc.obj && pc.obj !in m.loc
            && match PcOf(Do(env, s, ev), tid).result
               case Inserted => m'.loc.Keys == m.loc.Keys + {pc.obj} && (pc.keyed ==> KeyAbsent(env, m, env.key(pc.obj)))
               case Exists(p) => m' == m && pc.keyed && p in m.loc && env.key(p) == env.key(pc.obj)
               case Failed => m' == m
  {
    OutcomeBy(env, s, ev, tid);
    hide Heap, Place, Shape, WorkerOk, Removes, Reads, Linked;
    var pc := PcOf(s, tid);
    assert InsertOk(env, s.m, pc);
    if ev.FastLookup? {
      DuplicateThere(env, s, tid, pc.t, ev.chain);
    } else if ev.Lookup? {
      DuplicateThere(env, s, tid, pc.at, ev.chain);
    }
  }

  lemma OutcomeBy(env: Env, s: State, ev: Event, tid: Tid)
    requires Can(env, s, ev) && Inserting(PcOf(s, tid)) && PcOf(Do(env, s, ev), tid).InsertDone?
    ensures (ev.FastLookup? || ev.Lookup? || ev.GiveUp? || ev.Link?) && ev.tid == tid
  {
    hide Linked, LockFree, NotBusy, NotInserting, LinkIn, UnlinkAt, StoreNext, StoreHead, UnlinkOld, AttachTable, Bump;
  }

  /** What the scan of a locked bucket comes across is in the table. */
  lemma DuplicateThere(env: Env, s: State, tid: Tid, t: nat, chain: seq<Obj>)
    requires Inv(env, s) && Inserting(PcOf(s, tid))
    requires var h := ObjBucket(env, t, PcOf(s, tid).obj);
             LockOf(env, t, h) in LocksOfPc(env, PcOf(s, tid)) && Linked(s.m.next, Head(s.m, t, h), chain, false)
    ensures forall j :: 0 <= j < |chain| ==> chain[j] in s.m.loc
  {
    hide Heap, Shape, WorkerOk, Inserts, Removes, Reads;
    var h := ObjBucket(env, t, PcOf(s, tid).obj);
    NotMoving(env, s.m, t, h);
    LockedChain(s.m, t, h, chain);
    assert forall j :: 0 <= j < |chain| ==> chain[j] in List(s.m, t, h);
  }

  /** And nothing else puts an object in. */
  lemma OnlyInsertedEnters(env: Env, states: seq<State>, events: seq<Event>, i: nat, o: Obj)
    requires WfEnv(env) && Run(env, states, events) && i < |events|
    requires o !in states[i].m.loc && o in states[i + 1].m.loc
    ensures events[i].Link? && PcOf(states[i + 1], events[i].tid) == InsertDone(o, Inserted)
  {
    RunInv(env, states, events, i);
    hide Inv, Can, Do;
    EnterByLink(env, states[i], events[i], o);
  }

  lemma EnterByLink(env: Env, s: State, ev: Event, o: Obj)
    requires Inv(env, s) && Can(env, s, ev) && o !in s.m.loc && o in Do(env, s, ev).m.loc
    ensures ev.Link? && PcOf(Do(env, s, ev), ev.tid) == InsertDone(o, Inserted)
  {
    if ev.WorkerStoreHead? {
      EntryPlace(env, s.m);
    } else if !ev.Link? {
      hide Can, Do;
      LocShrinks(env, s, ev);
    }
  }

  // ----------------------------------------------------------- no two equal keys

  ghost predicate DistinctKeys(env: Env, m: Mem) {
    forall x, y :: x in m.loc && y in m.loc && x != y ==> env.key(x) != env.key(y)
  }

  ghost predicate OnlyKeyed(threads: map<Tid, Pc>) {
    forall j :: j in threads && Inserting(threads[j]) ==> threads[j].keyed
  }

  lemma KeyedStep(env: Env, s: State, ev: Event)
    requires Inv(env, s) && Can(env, s, ev) && (ev.InsertStart? ==> ev.keyed)
    requires OnlyKeyed(s.threads) && DistinctKeys(env, s.m)
    ensures OnlyKeyed(Do(env, s, ev).threads) && DistinctKeys(env, Do(env, s, ev).m)
  {
    hide Heap, Place, Locks, Removes, Reads, Shape, WorkerOk, OnlyKeyed, Can, Do;
    KeyedThreads(env, s, ev);
    if ev.Link? {
      LinkDoes(env, s, ev);
      assert InsertOk(env, s.m, PcOf(s, ev.tid));
      LinkedIsKeyed(env, s, ev);
    } else if ev.WorkerStoreHead? {
      StoreHeadDoes(env, s);
      EntryPlace(env, s.m);
      assert Do(env, s, ev).m.loc.Keys == s.m.loc.Keys;
    } else {
      LocShrinks(env, s, ev);
    }
  }

  lemma LinkedIsKeyed(env: Env, s: State, ev: Event)
    requires s.m.tbl < |s.m.tables| && Inserts(env, s.m, s.threads) && ev.Link? && Can(env, s, ev) && OnlyKeyed(s.threads)
    ensures KeyAbsent(env, s.m, env.key(PcOf(s, ev.tid).obj))
  {
    assert InsertOk(env, s.m, PcOf(s, ev.tid));
  }

  lemma LocShrinks(env: Env, s: State, ev: Event)
    requires Can(env, s, ev) && !ev.Link? && !ev.WorkerStoreHead?
    ensures Do(env, s, ev).m.loc.Keys <= s.m.loc.Keys
  {
    hide Linked, LockFree, NotBusy, NotInserting, Head, List, LastTable;
  }

  lemma KeyedThreads(env: Env, s: State, ev: Event)
    requires Can(env, s, ev) && (ev.InsertStart? ==> ev.keyed) && OnlyKeyed(s.threads)
    ensures OnlyKeyed(Do(env, s, ev).threads)
  {
    hide Linked, LockFree, NotBusy, NotInserting, LinkIn, UnlinkAt, StoreNext, StoreHead, UnlinkOld, AttachTable, Bump;
  }

  /** With keyed inserts only, no reachable state has two elements with equal
      keys, whatever inserters, removers and a rehash over several tables do. */
  lemma {:induction false} NoEqualKeys(env: Env, states: seq<State>, events: seq<Event>, i: nat)
    requires WfEnv(env) && Run(env, states, events) && i < |states|
    requires forall j :: 0 <= j < |events| ==> (events[j].InsertStart? ==> events[j].keyed)
    ensures OnlyKeyed(states[i].threads) && DistinctKeys(env, states[i].m)
  {
    hide Inv, OnlyKeyed, DistinctKeys;
    if i == 0 {
      EmptyIsDistinct(env);
    } else {
      NoEqualKeys(env, states, events, i - 1);
      RunInv(env, states, events, i - 1);
      KeyedStep(env, states[i - 1], events[i - 1]);
    }
  }

  lemma EmptyIsDistinct(env: Env)
    ensures OnlyKeyed(Init().threads) && DistinctKeys(env, Init().m)
  {}

  // ------------------------------------------------------------ lock-free lookup

  /** From `cur`, following pointers leads through removed nodes, each still held
      back by reader `tid`, into the list l at position i, at or before x. */
  ghost predicate Ahead(s: State, tid: Tid, cur: Ptr, removed: seq<Obj>, l: seq<Obj>, i: nat, x: Obj) {
    && i < |l| && x in l[i..]
    && cur == (if removed == [] then Node(l[i]) else Node(removed[0]))
    && forall j {:trigger removed[j]} :: 0 <= j < |removed| ==>
         && tid in Grace(s.grace, removed[j])
         && Next(s.m.next, removed[j]) == (if j + 1 < |removed| then Node(removed[j + 1]) else Node(l[i]))
  }

  /** The reader will still meet x: x is in a table it has not searched yet, or
      further down the chain it is in. */
  ghost predicate WillMeet(env: Env, s: State, tid: Tid, x: Obj, removed: seq<Obj>, i: nat) {
    match PcOf(s, tid)
    case LookupAt(k, t) => k == env.key(x) && x in s.m.loc && t <= s.m.loc[x]
    case LookupCursor(k, t, cur) =>
      && k == env.key(x) && x in s.m.loc
      && (t < s.m.loc[x] ||
          (t == s.m.loc[x] && Ahead(s, tid, cur, removed, List(s.m, t, Bucket(env, t, k)), i, x)))
    case LookupNext(k, t) => k == env.key(x) && x in s.m.loc && t < s.m.loc[x]
    case LookupDone(k, hit) => k == env.key(x) && hit.Some? && env.key(hit.value) == k
    case _ => false
  }

  /** Removed nodes are out of the table, so no step of a writer changes where
      they point. */
  lemma RemovedStay(s: State, tid: Tid, removed: seq<Obj>, j: nat)
    requires GraceOk(s.m, s.grace, Readers(s.threads)) && j < |removed| && tid in Grace(s.grace, removed[j])
    ensures removed[j] !in s.m.loc
  {}

  /** The reader's own step. */
  lemma MeetRead(env: Env, s: State, ev: Event, tid: Tid, x: Obj, removed: seq<Obj>, i: nat)
    returns (removed': seq<Obj>, i': nat)
    requires Inv(env, s) && Can(env, s, ev) && WillMeet(env, s, tid, x, removed, i)
    requires (ev.ReadHead? || ev.ReadCursor? || ev.ReadFuture?) && ev.tid == tid
    ensures WillMeet(env, Do(env, s, ev), tid, x, removed', i')
  {
    hide Locks, Inserts, Removes, Reads, WorkerOk, Heap, Place;
    removed', i' := removed, i;
    var pc := PcOf(s, tid);
    if ev.ReadHead? {
      removed', i' := [], 0;
      MeetHead(env, s, pc.t, pc.key, tid, x);
    } else if ev.ReadCursor? && pc.t == s.m.loc[x] {
      removed', i' := MeetCursor(env, s, ev, tid, x, removed, i);
    } else if ev.ReadFuture? {
      PlaceBounds(env, s.m);
    }
  }

  lemma MeetHead(env: Env, s: State, t: nat, k: Key, tid: Tid, x: Obj)
    requires MemInv(env, s.m) && k == env.key(x)
    ensures x in s.m.loc && s.m.loc[x] == t ==>
              Ahead(s, tid, Head(s.m, t, Bucket(env, t, k)), [], List(s.m, t, Bucket(env, t, k)), 0, x)
  {
    hide WorkerOk, Shape;
    var h := Bucket(env, t, k);
    if x in s.m.loc && s.m.loc[x] == t {
      assert x in List(s.m, s.m.loc[x], ObjBucket(env, s.m.loc[x], x));
      var l := List(s.m, t, h);
      assert Linked(s.m.next, Head(s.m, t, h), Phys(s.m, t, h), Loose(s.m, t, h));
      assert l[0..] == l;
    }
  }

  lemma MeetCursor(env: Env, s: State, ev: Event, tid: Tid, x: Obj, removed: seq<Obj>, i: nat)
    returns (removed': seq<Obj>, i': nat)
    requires Inv(env, s) && ev.ReadCursor? && ev.tid == tid && Can(env, s, ev)
    requires PcOf(s, tid).LookupCursor? && x in s.m.loc && PcOf(s, tid).t == s.m.loc[x]
    requires WillMeet(env, s, tid, x, removed, i)
    ensures WillMeet(env, Do(env, s, ev), tid, x, removed', i')
  {
    hide Locks, Inserts, Removes, Reads, WorkerOk, Place;
    removed', i' := removed, i;
    var pc := PcOf(s, tid);
    var h := Bucket(env, pc.t, pc.key);
    var l := List(s.m, pc.t, h);
    var p := Phys(s.m, pc.t, h);
    if removed != [] {
      assert Next(s.m.next, removed[0]) == (if 1 < |removed| then Node(removed[1]) else Node(l[i]));
      removed' := removed[1..];
      assert forall j :: 0 <= j < |removed'| ==> removed'[j] == removed[j + 1];
    } else if env.key(l[i]) != pc.key {
      assert Linked(s.m.next, Head(s.m, pc.t, h), p, Loose(s.m, pc.t, h));
      assert l[i] != x && l[i..] == [l[i]] + l[i + 1..];
      assert x in l[i + 1..];
      assert p[i] == l[i] && Next(s.m.next, p[i]) == PtrAt(p, i + 1) && p[i + 1] == l[i + 1];
      i' := i + 1;
    }
  }

  /** A step of another thread that changes neither memory nor the reader. */
  lemma MeetElsewhere(env: Env, s: State, s': State, tid: Tid, x: Obj, removed: seq<Obj>, i: nat)
    requires WillMeet(env, s, tid, x, removed, i) && PcOf(s', tid) == PcOf(s, tid)
    requires s'.m.loc == s.m.loc && s'.m.lists == s.m.lists
    requires forall o :: tid in Grace(s.grace, o) ==> tid in Grace(s'.grace, o) && Next(s'.m.next, o) == Next(s.m.next, o)
    ensures WillMeet(env, s', tid, x, removed, i)
  {}

  lemma MeetLink(env: Env, s: State, ev: Event, tid: Tid, x: Obj, removed: seq<Obj>, i: nat)
    returns (removed': seq<Obj>, i': nat)
    requires Inv(env, s) && Can(env, s, ev) && WillMeet(env, s, tid, x, removed, i)
    requires ev.Link? && ev.tid != tid
    ensures WillMeet(env, Do(env, s, ev), tid, x, removed', i')
  {
    hide Locks, Inserts, Removes, GraceOk, Heap, Place, WorkerOk;
    removed', i' := removed, i;
    var s' := Do(env, s, ev);
    var pc, q := PcOf(s, tid), PcOf(s, ev.tid);
    assert ReadOk(s.m, s.grace, ev.tid, q);
    assert q.obj !in s.m.loc by { InsertedIsNew(env, s, ev.tid); }
    if pc.LookupCursor? && pc.t == s.m.loc[x] {
      var h := Bucket(env, pc.t, pc.key);
      var l := List(s.m, pc.t, h);
      var l' := List(s'.m, pc.t, h);
      assert forall j :: 0 <= j < |removed| ==> removed[j] != q.obj;
      if q.at == pc.t && ObjBucket(env, q.at, q.obj) == h {
        i' := i + 1;
        assert l' == [q.obj] + l;
        assert ([q.obj] + l)[i + 1..] == l[i..];
      } else {
        assert l' == l;
      }
      AheadMoves(s, s', tid, pc.cursor, removed, l, i, l', i', x);
    }
  }

  /** Nodes the reader waits for stay as they are; the list may have got longer in front. */
  lemma AheadMoves(s: State, s': State, tid: Tid, cur: Ptr, removed: seq<Obj>, l: seq<Obj>, i: nat, l': seq<Obj>, i': nat, x: Obj)
    requires Ahead(s, tid, cur, removed, l, i, x) && s'.grace == s.grace
    requires i' < |l'| && l'[i'..] == l[i..] && l'[i'] == l[i]
    requires forall j :: 0 <= j < |removed| ==> Next(s'.m.next, removed[j]) == Next(s.m.next, removed[j])
    ensures Ahead(s', tid, cur, removed, l', i', x)
  {}

  lemma InsertedIsNew(env: Env, s: State, tid: Tid)
    requires s.m.tbl < |s.m.tables| && Inserts(env, s.m, s.threads) && Inserting(PcOf(s, tid))
    ensures PcOf(s, tid).obj !in s.m.loc
  {
    assert InsertOk(env, s.m, PcOf(s, tid));
  }

  lemma MeetRemove(env: Env, s: State, ev: Event, tid: Tid, x: Obj, removed: seq<Obj>, i: nat)
    returns (removed': seq<Obj>, i': nat)
    requires Inv(env, s) && Can(env, s, ev) && WillMeet(env, s, tid, x, removed, i)
    requires ev.RemoveOne? && ev.tid != tid && x in Do(env, s, ev).m.loc
    requires Reading(PcOf(s, tid))
    ensures WillMeet(env, Do(env, s, ev), tid, x, removed', i')
  {
    hide Locks, Inserts, Removes, Reads, Heap, Place, WorkerOk, WillMeet;
    removed', i' := removed, i;
    var q := PcOf(s, ev.tid);
    var g := ObjBucket(env, q.t, q.obj);
    NotMoving(env, s.m, q.t, g);
    LockedChain(s.m, q.t, g, ev.chain);
    var j := FindObj(ev.chain, q.obj);
    if j == |ev.chain| {
      MeetElsewhere(env, s, Do(env, s, ev), tid, x, removed, i);
    } else {
      removed', i' := MeetUnlink(env, s, Do(env, s, ev), tid, x, removed, i, q.t, g, j);
    }
  }

  lemma MeetUnlink(env: Env, s: State, s': State, tid: Tid, x: Obj, removed: seq<Obj>, i: nat, t: nat, g: nat, j: nat)
    returns (removed': seq<Obj>, i': nat)
    requires Inv(env, s) && WillMeet(env, s, tid, x, removed, i) && Reading(PcOf(s, tid)) && PcOf(s', tid) == PcOf(s, tid)
    requires j < |List(s.m, t, g)| && !Loose(s.m, t, g)
    requires s'.m == UnlinkAt(s.m, t, g, List(s.m, t, g), j) && x in s'.m.loc
    requires s'.grace == s.grace[List(s.m, t, g)[j] := Readers(s.threads)]
    ensures WillMeet(env, s', tid, x, removed', i')
  {
    hide Locks, Inserts, Removes, GraceOk, Heap, Place, WorkerOk, Shape;
    removed', i' := removed, i;
    var pc := PcOf(s, tid);
    var o := List(s.m, t, g)[j];
    Neighbours(env, s.m, t, g, j);
    if pc.LookupCursor? && pc.t == s.m.loc[x] {
      var h := Bucket(env, pc.t, pc.key);
      var l := List(s.m, pc.t, h);
      forall k | 0 <= k < |removed| ensures removed[k] !in s.m.loc { RemovedStay(s, tid, removed, k); }
      if t == pc.t && g == h {
        removed', i' := MeetRemoveHere(s, s', tid, pc.cursor, removed, l, i, j, x);
      } else {
        assert List(s'.m, pc.t, h) == l;
      }
    }
  }

  /** Position j of the list the reader is in is unlinked. */
  lemma MeetRemoveHere(s: State, s': State, tid: Tid, cur: Ptr, removed: seq<Obj>, l: seq<Obj>, i: nat, j: nat, x: Obj)
    returns (removed': seq<Obj>, i': nat)
    requires Ahead(s, tid, cur, removed, l, i, x) && j < |l| && l[j] != x && tid in Readers(s.threads)
    requires s'.grace == s.grace[l[j] := Readers(s.threads)]
    requires Next(s'.m.next, l[j]) == PtrAt(l, j + 1)
    requires forall k {:trigger removed[k]} :: 0 <= k < |removed| ==>
               removed[k] != l[j] && Next(s'.m.next, removed[k]) == Next(s.m.next, removed[k])
    ensures Ahead(s', tid, cur, removed', l[..j] + l[j + 1..], i', x)
  {
    var l' := l[..j] + l[j + 1..];
    removed', i' := removed, if j < i then i - 1 else i;
    StillAfter(l, i, j, x);
    if j == i {
      removed' := removed + [l[i]];
      forall k | 0 <= k < |removed'|
        ensures tid in Grace(s'.grace, removed'[k])
        ensures Next(s'.m.next, removed'[k]) == (if k + 1 < |removed'| then Node(removed'[k + 1]) else Node(l'[i]))
      {
        if k < |removed| { assert removed'[k] == removed[k]; }
      }
    }
  }

  lemma StillAfter(l: seq<Obj>, i: nat, j: nat, x: Obj)
    requires i < |l| && x in l[i..] && j < |l| && l[j] != x
    ensures var l' := l[..j] + l[j + 1..];
            var i' := if j < i then i - 1 else i;
            i' < |l'| && x in l'[i'..] && (j == i ==> i + 1 < |l| && l'[i'] == l[i + 1]) && (j != i ==> l'[i'] == l[i])
  {
    var l' := l[..j] + l[j + 1..];
    var i' := if j < i then i - 1 else i;
    var p :| i <= p < |l| && l[p] == x;
    var p' := if p < j then p else p - 1;
    assert l'[p'] == x && i' <= p';
    assert l'[i'..][p' - i'] == x;
  }

  lemma MeetStoreHead(env: Env, s: State, tid: Tid, x: Obj, removed: seq<Obj>, i: nat)
    returns (removed': seq<Obj>, i': nat)
    requires MemInv(env, s.m) && s.m.worker.Linking? && WillMeet(env, s, tid, x, removed, i)
    ensures WillMeet(env, s.(m := StoreHead(env, s.m)), tid, x, removed', i')
  {
    hide Heap, Place, Shape;
    removed', i' := removed, i;
    var w := s.m.worker;
    EntryPlace(env, s.m);
    var pc := PcOf(s, tid);
    if pc.LookupCursor? && pc.t == s.m.loc[x] && x != w.entry {
      var h := Bucket(env, pc.t, pc.key);
      i' := MeetStoreHeadList(env, s.m, pc.t, h, i, x);
    }
  }

  lemma MeetStoreHeadList(env: Env, m: Mem, t: nat, h: nat, i: nat, x: Obj) returns (i': nat)
    requires m.worker.Linking? && m.tbl < |m.tables| && WorkerOk(env, m)
    requires x != m.worker.entry && i < |List(m, t, h)| && x in List(m, t, h)[i..]
    ensures var l' := List(StoreHead(env, m), t, h);
            i' < |l'| && x in l'[i'..] && l'[i'] == List(m, t, h)[i]
  {
    i' := i;
    var w := m.worker;
    var l := List(m, t, h);
    var l' := List(StoreHead(env, m), t, h);
    if t == w.n && h == ObjBucket(env, w.n, w.entry) {
      i' := i + 1;
      assert l' == [w.entry] + l;
      assert l'[i + 1..] == l[i..];
    } else if t == m.tbl && h == w.h {
      var p :| i <= p < |l| && l[p] == x;
      assert l' == l[..|l| - 1];
      assert l'[p] == x && l'[i..][p - i] == x;
    } else {
      assert l' == l;
    }
  }

  /** The worker's stores to `next` touch elements only. */
  lemma WorkerKeepsRemoved(env: Env, s: State, ev: Event, tid: Tid)
    requires WfEnv(env) && Inv(env, s) && Can(env, s, ev) && (ev.WorkerStoreNext? || ev.WorkerUnlink?)
    ensures forall o :: tid in Grace(s.grace, o) ==> Next(Do(env, s, ev).m.next, o) == Next(s.m.next, o)
  {
    hide Locks, Inserts, Removes, Heap, Place;
    if ev.WorkerStoreNext? {
      LockedChain(s.m, s.m.tbl, s.m.worker.h, ev.chain);
      Neighbours(env, s.m, s.m.tbl, s.m.worker.h, |ev.chain| - 1);
    } else if s.m.worker.prev.Some? {
      UnlinkOldMem(env, s.m);
    }
  }

  lemma MeetStep(env: Env, s: State, ev: Event, tid: Tid, x: Obj, removed: seq<Obj>, i: nat)
    returns (removed': seq<Obj>, i': nat)
    requires WfEnv(env) && Inv(env, s) && Can(env, s, ev) && Reading(PcOf(s, tid))
    requires WillMeet(env, s, tid, x, removed, i) && x in Do(env, s, ev).m.loc
    ensures WillMeet(env, Do(env, s, ev), tid, x, removed', i')
  {
    hide Inv, WillMeet;
    removed', i' := removed, i;
    var s' := Do(env, s, ev);
    if (ev.ReadHead? || ev.ReadCursor? || ev.ReadFuture?) && ev.tid == tid {
      removed', i' := MeetRead(env, s, ev, tid, x, removed, i);
    } else if ev.Link? {
      removed', i' := MeetLink(env, s, ev, tid, x, removed, i);
    } else if ev.RemoveOne? {
      removed', i' := MeetRemove(env, s, ev, tid, x, removed, i);
    } else if ev.WorkerStoreHead? {
      StoreHeadReady(env, s);
      removed', i' := MeetStoreHead(env, s, tid, x, removed, i);
    } else {
      if ev.WorkerStoreNext? || ev.WorkerUnlink? { WorkerKeepsRemoved(env, s, ev, tid); }
      OtherKeeps(env, s, ev, tid);
      MeetElsewhere(env, s, s', tid, x, removed, i);
    }
  }

  lemma StoreHeadReady(env: Env, s: State)
    requires Inv(env, s) && Can(env, s, WorkerStoreHead)
    ensures MemInv(env, s.m) && s.m.worker.Linking?
    ensures Do(env, s, WorkerStoreHead) == s.(m := StoreHead(env, s.m))
  {
    hide MemInv, Locks, Inserts, Removes, Reads;
  }

  lemma OtherKeeps(env: Env, s: State, ev: Event, tid: Tid)
    requires Can(env, s, ev) && Reading(PcOf(s, tid)) && !ev.Link? && !ev.RemoveOne? && !ev.WorkerStoreHead?
    requires !((ev.ReadHead? || ev.ReadCursor? || ev.ReadFuture?) && ev.tid == tid)
    ensures var s' := Do(env, s, ev);
            && PcOf(s', tid) == PcOf(s, tid) && s'.m.loc == s.m.loc && s'.m.lists == s.m.lists
            && (ev.WorkerStoreNext? || ev.WorkerUnlink? || s'.m.next == s.m.next)
            && (forall o :: tid in Grace(s.grace, o) ==> tid in Grace(s'.grace, o))
  {
    hide Do, Can;
    OtherKeepsMemory(env, s, ev);
    OtherKeepsReader(env, s, ev, tid);
  }

  lemma OtherKeepsMemory(env: Env, s: State, ev: Event)
    requires Can(env, s, ev) && !ev.Link? && !ev.RemoveOne? && !ev.WorkerStoreHead?
    ensures var s' := Do(env, s, ev);
            && s'.m.loc == s.m.loc && s'.m.lists == s.m.lists
            && (ev.WorkerStoreNext? || ev.WorkerUnlink? || s'.m.next == s.m.next)
  {
    hide Linked, LockFree, NotBusy, NotInserting, LinkIn, UnlinkAt, StoreHead;
  }

  lemma OtherKeepsReader(env: Env, s: State, ev: Event, tid: Tid)
    requires Can(env, s, ev) && Reading(PcOf(s, tid)) && !ev.RemoveOne?
    requires !((ev.ReadHead? || ev.ReadCursor? || ev.ReadFuture?) && ev.tid == tid)
    ensures PcOf(Do(env, s, ev), tid) == PcOf(s, tid)
    ensures forall o :: tid in Grace(s.grace, o) ==> tid in Grace(Do(env, s, ev).grace, o)
  {
    hide Linked, LockFree, NotBusy, NotInserting, LinkIn, UnlinkAt, StoreNext, StoreHead, UnlinkOld, AttachTable, Bump;
  }

  /** One call of rhashtable_lookup by `tid`: it starts at event a, is still
      running before state b and has returned in state b. */
  ghost predicate LookupCall(states: seq<State>, events: seq<Event>, tid: Tid, k: Key, a: nat, b: nat) {
    && a < b < |states| && |states| == |events| + 1
    && events[a] == LookupStart(tid, k)
    && (forall j :: a < j < b ==> Reading(PcOf(states[j], tid)))
    && PcOf(states[b], tid).LookupDone?
  }

  lemma {:induction false} MeetRun(env: Env, states: seq<State>, events: seq<Event>, tid: Tid, x: Obj, a: nat, b: nat, j: nat)
    returns (removed: seq<Obj>, i: nat)
    requires WfEnv(env) && Run(env, states, events) && LookupCall(states, events, tid, env.key(x), a, b)
    requires forall q :: a < q <= b ==> x in states[q].m.loc
    requires a < j <= b
    ensures WillMeet(env, states[j], tid, x, removed, i)
  {
    hide Inv, WillMeet, Do, Can;
    if j == a + 1 {
      RunInv(env, states, events, a);
      assert states[a + 1] == Do(env, states[a], events[a]);
      MeetStart(env, states[a], tid, x);
      removed, i := [], 0;
    } else {
      removed, i := MeetRun(env, states, events, tid, x, a, b, j - 1);
      RunInv(env, states, events, j - 1);
      assert states[j - 1 + 1] == Do(env, states[j - 1], events[j - 1]);
      removed, i := MeetStep(env, states[j - 1], events[j - 1], tid, x, removed, i);
    }
  }

  lemma MeetStart(env: Env, s: State, tid: Tid, x: Obj)
    requires Inv(env, s) && Can(env, s, LookupStart(tid, env.key(x)))
    requires x in Do(env, s, LookupStart(tid, env.key(x))).m.loc
    ensures WillMeet(env, Do(env, s, LookupStart(tid, env.key(x))), tid, x, [], 0)
  {}

  /** A lock-free lookup never misses: if an element with the key sought stays in
      the table from the start of the call to its end, the call returns an
      element with that key, under every interleaving with the pointer stores of
      inserts, removals and rehashing into any number of tables. */
  lemma LookupNeverMisses(env: Env, states: seq<State>, events: seq<Event>, tid: Tid, x: Obj, a: nat, b: nat)
    requires WfEnv(env) && Run(env, states, events) && LookupCall(states, events, tid, env.key(x), a, b)
    requires forall q :: a < q <= b ==> x in states[q].m.loc
    ensures PcOf(states[b], tid).hit.Some? && env.key(PcOf(states[b], tid).hit.value) == env.key(x)
  {
    var removed, i := MeetRun(env, states, events, tid, x, a, b, b);
  }

  // ----------------------------------------------------------- nothing stale

  /** o was in the table in some state of the call so far. */
  ghost predicate Seen(states: seq<State>, a: nat, j: nat, o: Obj) {
    exists q :: a < q <= j < |states| && o in states[q].m.loc
  }

  lemma GraceStep(env: Env, s: State, ev: Event, tid: Tid, o: Obj)
    requires Inv(env, s) && Can(env, s, ev) && tid in Grace(Do(env, s, ev).grace, o)
    ensures tid in Grace(s.grace, o) || o in s.m.loc
  {
    hide Locks, Inserts, Removes, Reads, Heap, Place, WorkerOk;
    if ev.RemoveOne? {
      var q := PcOf(s, ev.tid);
      var g := ObjBucket(env, q.t, q.obj);
      NotMoving(env, s.m, q.t, g);
      LockedChain(s.m, q.t, g, ev.chain);
      FoundMeansThere(env, s.m, q.t, q.obj);
    }
  }

  lemma {:induction false} GraceSeen(env: Env, states: seq<State>, events: seq<Event>, tid: Tid, k: Key, a: nat, b: nat, j: nat, o: Obj)
    requires WfEnv(env) && Run(env, states, events) && LookupCall(states, events, tid, k, a, b)
    requires a < j < b && tid in Grace(states[j].grace, o)
    ensures Seen(states, a, j, o)
  {
    hide Inv, Do, Can;
    if j == a + 1 {
      RunInv(env, states, events, a);
      NoGraceAtStart(env, states[a], tid, k, o);
    } else {
      RunInv(env, states, events, j - 1);
      GraceStep(env, states[j - 1], events[j - 1], tid, o);
      if tid in Grace(states[j - 1].grace, o) {
        GraceSeen(env, states, events, tid, k, a, b, j - 1, o);
      }
    }
  }

  lemma NoGraceAtStart(env: Env, s: State, tid: Tid, k: Key, o: Obj)
    requires Inv(env, s) && Can(env, s, LookupStart(tid, k))
    ensures tid !in Grace(Do(env, s, LookupStart(tid, k)).grace, o)
  {
    assert Grace(s.grace, o) <= Readers(s.threads);
  }

  /** A lookup returns nothing stale: every node a reader dereferences during a
      call, and the element it returns, was in the table at some moment of that
      same call, and so cannot have been freed before the call ends. */
  lemma LookupReturnsLive(env: Env, states: seq<State>, events: seq<Event>, tid: Tid, k: Key, a: nat, b: nat, j: nat)
    requires WfEnv(env) && Run(env, states, events) && LookupCall(states, events, tid, k, a, b)
    requires a < j < b
    ensures var pc := PcOf(states[j], tid);
            pc.LookupCursor? && pc.cursor.Node? ==> Seen(states, a, j, pc.cursor.obj)
    ensures PcOf(states[b], tid).hit.Some? ==>
              env.key(PcOf(states[b], tid).hit.value) == PcOf(states[b], tid).key &&
              Seen(states, a, b, PcOf(states[b], tid).hit.value)
  {
    hide Inv, Do, Can;
    CursorSeen(env, states, events, tid, k, a, b, j);
    CursorSeen(env, states, events, tid, k, a, b, b - 1);
    HitWasCursor(env, states[b - 1], events[b - 1], tid);
  }

  lemma HitWasCursor(env: Env, s: State, ev: Event, tid: Tid)
    requires Can(env, s, ev) && Reading(PcOf(s, tid)) && PcOf(Do(env, s, ev), tid).LookupDone?
    ensures var hit := PcOf(Do(env, s, ev), tid).hit;
            hit.Some? ==> PcOf(s, tid).LookupCursor? && PcOf(s, tid).cursor == Node(hit.value) &&
                          env.key(hit.value) == PcOf(Do(env, s, ev), tid).key
  {
    hide Linked, LockFree, NotBusy, NotInserting, LinkIn, UnlinkAt, StoreNext, StoreHead, UnlinkOld, AttachTable, Bump;
  }

  lemma CursorSeen(env: Env, states: seq<State>, events: seq<Event>, tid: Tid, k: Key, a: nat, b: nat, j: nat)
    requires WfEnv(env) && Run(env, states, events) && LookupCall(states, events, tid, k, a, b)
    requires a < j < b
    ensures var pc := PcOf(states[j], tid);
            pc.LookupCursor? && pc.cursor.Node? ==> Seen(states, a, j, pc.cursor.obj)
  {
    hide Inv, Do, Can;
    var pc := PcOf(states[j], tid);
    if pc.LookupCursor? && pc.cursor.Node? {
      RunInv(env, states, events, j);
      CursorLive(env, states[j], tid);
      if tid in Grace(states[j].grace, pc.cursor.obj) {
        GraceSeen(env, states, events, tid, k, a, b, j, pc.cursor.obj);
      }
    }
  }

  lemma CursorLive(env: Env, s: State, tid: Tid)
    requires Inv(env, s) && PcOf(s, tid).LookupCursor? && PcOf(s, tid).cursor.Node?
    ensures PcOf(s, tid).cursor.obj in s.m.loc || tid in Grace(s.grace, PcOf(s, tid).cursor.obj)
  {
    assert ReadOk(s.m, s.grace, tid, PcOf(s, tid));
  }

  // ------------------------------------------------------- lookup against the set

  lemma KeyStep(env: Env, s: State, ev: Event, tid: Tid)
    requires Can(env, s, ev) && Reading(PcOf(s, tid))
    ensures var pc := PcOf(Do(env, s, ev), tid); (Reading(pc) || pc.LookupDone?) && pc.key == PcOf(s, tid).key
  {
    hide Linked, LockFree, NotBusy, NotInserting, LinkIn, UnlinkAt, StoreNext, StoreHead, UnlinkOld, AttachTable, Bump;
  }

  lemma LookupStarts(env: Env, s: State, tid: Tid, k: Key)
    requires Can(env, s, LookupStart(tid, k))
    ensures PcOf(Do(env, s, LookupStart(tid, k)), tid) == LookupAt(k, s.m.tbl)
  {}

  lemma {:induction false} KeyStays(env: Env, states: seq<State>, events: seq<Event>, tid: Tid, k: Key, a: nat, b: nat, j: nat)
    requires Run(env, states, events) && LookupCall(states, events, tid, k, a, b) && a < j <= b
    ensures (Reading(PcOf(states[j], tid)) || PcOf(states[j], tid).LookupDone?) && PcOf(states[j], tid).key == k
  {
    hide Can, Do;
    if j == a + 1 {
      assert states[a + 1] == Do(env, states[a], events[a]);
      LookupStarts(env, states[a], tid, k);
    } else {
      KeyStays(env, states, events, tid, k, a, b, j - 1);
      assert states[j - 1 + 1] == Do(env, states[j - 1], events[j - 1]);
      KeyStep(env, states[j - 1], events[j - 1], tid);
    }
  }

  /** While the set of elements stays as it is, whatever the worker does in the
      meantime, a lookup agrees with the set: it returns an element with the key
      if there is one, and otherwise nothing. */
  lemma QuiescentLookup(env: Env, states: seq<State>, events: seq<Event>, tid: Tid, k: Key, a: nat, b: nat)
    requires WfEnv(env) && Run(env, states, events) && LookupCall(states, events, tid, k, a, b)
    requires forall q :: a < q <= b ==> states[q].m.loc.Keys == states[a].m.loc.Keys
    ensures var hit := PcOf(states[b], tid).hit;
            && (hit.Some? <==> exists x :: x in states[a].m.loc && env.key(x) == k)
            && (hit.Some? ==> hit.value in states[a].m.loc && env.key(hit.value) == k)
  {
    hide Run, Inv, Can, Do;
    KeyStays(env, states, events, tid, k, a, b, b);
    if x :| x in states[a].m.loc && env.key(x) == k {
      forall q | a < q <= b ensures x in states[q].m.loc {
        assert x in states[q].m.loc.Keys;
      }
      LookupNeverMisses(env, states, events, tid, x, a, b);
    }
    if PcOf(states[b], tid).hit.Some? {
      LookupTwoSteps(env, states, events, tid, k, a, b);
      LookupReturnsLive(env, states, events, tid, k, a, b, a + 1);
      var q :| a < q <= b < |states| && PcOf(states[b], tid).hit.value in states[q].m.loc;
      assert PcOf(states[b], tid).hit.value in states[q].m.loc.Keys;
    }
  }

  lemma LookupTwoSteps(env: Env, states: seq<State>, events: seq<Event>, tid: Tid, k: Key, a: nat, b: nat)
    requires Run(env, states, events) && LookupCall(states, events, tid, k, a, b)
    ensures a + 1 < b
  {
    hide Can, Do;
    assert states[a + 1] == Do(env, states[a], events[a]);
    LookupStarts(env, states[a], tid, k);
  }
}
