/** The life of an offloaded flow (nf_flow_table_core.c, nf_flow_table_offload.c):
    asynchronous work items, the garbage collector and flag bits decide when it
    may be freed. Each work handler, gc step and lookup with refresh is one step. */
module Offload {

  datatype Cmd = Replace | Destroy | Stats

  datatype Phase = Outside | InTable | Freed

  datatype Dir = Original | Reply

  /** A flow: where it is, its flag bits, the work items queued or running for it,
      and the directions for which hardware may hold a rule. */
  datatype Flow = Flow(
    phase: Phase, hw: bool, teardown: bool, dying: bool, dead: bool, refresh: bool, pending: bool,
    works: seq<Cmd>, rules: set<Dir>)

  const NEW := Flow(Outside, false, false, false, false, false, false, [], {})

  /** What happens to the flow, with what the step finds: whether memory could be
      had, whether the flow has expired or its connection is dying, what the
      drivers answered. */
  datatype Event =
    | Add(inserted: bool, alloc: bool)
    | Refresh(ctDying: bool, alloc: bool)
    | Teardown
    | Gc(expired: bool, recent: bool, alloc: bool)
    | Work(k: nat, ruleAlloc: bool, installed: set<Dir>)

  // ------------------------------------------------------------------- the steps

  /** nf_flow_offload_work_alloc and the queueing. */
  function Queue(f: Flow, cmd: Cmd, alloc: bool): Flow {
    if f.pending || !alloc then f else f.(pending := true, works := f.works + [cmd])
  }

  /** nf_flow_offload_del. */
  function QueueDestroy(f: Flow, alloc: bool): Flow {
    if f.pending || !alloc then f else Queue(f, Destroy, alloc).(dying := true)
  }

  function DoAdd(f: Flow, hwTable: bool, inserted: bool, alloc: bool): Flow {
    if !inserted then f
    else if hwTable then Queue(f.(phase := InTable, hw := true), Replace, alloc)
    else f.(phase := InTable)
  }

  /** flow_offload_lookup and then flow_offload_refresh. */
  function DoRefresh(f: Flow, hwTable: bool, ctDying: bool, alloc: bool): Flow {
    if f.teardown || ctDying || !hwTable || !f.refresh then f
    else Queue(f.(refresh := false), Replace, alloc)
  }

  /** nf_flow_offload_gc_step. */
  function DoGc(f0: Flow, expired: bool, recent: bool, alloc: bool): Flow {
    var f := if expired then f0.(teardown := true) else f0;
    if f.teardown then
      if f.hw then
        if !f.dying then QueueDestroy(f, alloc)
        else if f.dead then f.(phase := Freed)
        else f
      else f.(phase := Freed)
    else if f.hw && !recent then Queue(f, Stats, alloc)
    else f
  }

  /** flow_offload_work_handler. */
  function DoWork(f: Flow, k: nat, ruleAlloc: bool, installed: set<Dir>): Flow
    requires k < |f.works|
  {
    var f' := match f.works[k]
              case Replace =>
                if !ruleAlloc then f
                else if installed == {} then f.(refresh := true)
                else f.(rules := f.rules + installed)
              case Destroy => f.(rules := f.rules - {Original} - {Reply}, dead := true)
              case Stats => f;
    f'.(pending := false, works := f.works[..k] + f.works[k + 1..])
  }

  /** When an event may happen: the table is searched for flows that are in it,
      work is handled that has been queued. */
  predicate Can(f: Flow, ev: Event) {
    match ev
    case Add(_, _) => f.phase == Outside
    case Refresh(_, _) => f.phase == InTable
    case Teardown => f.phase == InTable
    case Gc(_, _, _) => f.phase == InTable
    case Work(k, _, _) => k < |f.works|
  }

  function Do(f: Flow, hwTable: bool, ev: Event): Flow
    requires Can(f, ev)
  {
    match ev
    case Add(inserted, alloc) => DoAdd(f, hwTable, inserted, alloc)
    case Refresh(ctDying, alloc) => DoRefresh(f, hwTable, ctDying, alloc)
    case Teardown => f.(teardown := true)
    case Gc(expired, recent, alloc) => DoGc(f, expired, recent, alloc)
    case Work(k, ruleAlloc, installed) => DoWork(f, k, ruleAlloc, installed)
  }

  // ------------------------------------------------------------------- invariant

  /** HW_PENDING says that exactly one work item is outstanding; a dying flow's is
      the DESTROY, until it is dead and has none and no rule in hardware. */
  ghost predicate Inv(f: Flow, hwTable: bool) {
    && |f.works| <= 1 && (f.pending <==> |f.works| == 1)
    && (f.hw ==> hwTable && f.phase != Outside) && (!f.hw ==> f.works == [] && f.rules == {} && !f.dying)
    && (hwTable && f.phase != Outside ==> f.hw)
    && (f.refresh ==> f.hw) && (f.phase == Outside ==> !f.teardown)
    && (f.dying ==> f.teardown) && (f.dead ==> f.dying)
    && (f.dead ==> f.works == [] && f.rules == {})
    && (f.dying && !f.dead ==> f.works == [Destroy])
    && (!f.dying ==> f.works != [Destroy])
    && (f.phase == Freed ==> f.works == [] && (f.hw ==> f.dead))
  }

  lemma NoneLeft(rules: set<Dir>)
    ensures rules - {Original} - {Reply} == {}
  {
    forall d | d in rules - {Original} - {Reply} ensures false {
      match d
      case Original =>
      case Reply =>
    }
  }

  lemma StepInv(f: Flow, hwTable: bool, ev: Event)
    requires Inv(f, hwTable) && Can(f, ev)
    ensures Inv(Do(f, hwTable, ev), hwTable)
  {
    if f.works == [] {
      forall cmd ensures f.works + [cmd] == [cmd] && (cmd != Destroy ==> [cmd] != [Destroy]) {
        assert [cmd][0] == cmd && [Destroy][0] == Destroy;
      }
    }
    if ev.Work? {
      assert ev.k == 0 && f.works[..0] + f.works[1..] == [];
      NoneLeft(f.rules);
    }
  }

  // ------------------------------------------------------------------------ runs

  ghost predicate Run(fs: seq<Flow>, evs: seq<Event>, hwTable: bool) {
    && |fs| == |evs| + 1 && fs[0] == NEW
    && forall i :: 0 <= i < |evs| ==> Can(fs[i], evs[i]) && fs[i + 1] == Do(fs[i], hwTable, evs[i])
  }

  lemma NewInv(hwTable: bool)
    ensures Inv(NEW, hwTable)
  {}

  lemma {:induction false} RunInv(fs: seq<Flow>, evs: seq<Event>, hwTable: bool, i: nat)
    requires Run(fs, evs, hwTable) && i < |fs|
    ensures Inv(fs[i], hwTable)
  {
    hide Do, Can, Inv;
    if i == 0 {
      NewInv(hwTable);
    } else {
      RunInv(fs, evs, hwTable, i - 1);
      assert fs[i - 1 + 1] == Do(fs[i - 1], hwTable, evs[i - 1]);
      StepInv(fs[i - 1], hwTable, evs[i - 1]);
    }
  }

  /** HW_PENDING holds if and only if exactly one work item is outstanding. */
  lemma PendingExact(fs: seq<Flow>, evs: seq<Event>, hwTable: bool, i: nat)
    requires Run(fs, evs, hwTable) && i < |fs|
    ensures fs[i].pending <==> |fs[i].works| == 1
    ensures !fs[i].pending <==> fs[i].works == []
  {
    RunInv(fs, evs, hwTable, i);
  }

  lemma FlagsStay(f: Flow, hwTable: bool, ev: Event)
    requires Can(f, ev)
    ensures f.dying ==> Do(f, hwTable, ev).dying
    ensures f.dead ==> Do(f, hwTable, ev).dead
  {}

  lemma {:induction false} DyingStays(fs: seq<Flow>, evs: seq<Event>, hwTable: bool, i: nat, j: nat)
    requires Run(fs, evs, hwTable) && i <= j < |fs| && fs[i].dying
    ensures fs[j].dying
  {
    hide Do, Can;
    if i < j {
      DyingStays(fs, evs, hwTable, i, j - 1);
      assert fs[j - 1 + 1] == Do(fs[j - 1], hwTable, evs[j - 1]);
      FlagsStay(fs[j - 1], hwTable, evs[j - 1]);
    }
  }

  /** No work is queued for a flow once HW_DYING is set. */
  lemma NothingQueuedAfterDying(fs: seq<Flow>, evs: seq<Event>, hwTable: bool, i: nat, j: nat)
    requires Run(fs, evs, hwTable) && i <= j < |evs| && fs[i].dying
    ensures |fs[j + 1].works| <= |fs[j].works| && (evs[j].Work? || fs[j + 1].works == fs[j].works)
  {
    hide Do, Can, Inv;
    DyingStays(fs, evs, hwTable, i, j);
    RunInv(fs, evs, hwTable, j);
    assert fs[j + 1] == Do(fs[j], hwTable, evs[j]);
    DyingStep(fs[j], hwTable, evs[j]);
  }

  lemma DyingStep(f: Flow, hwTable: bool, ev: Event)
    requires Inv(f, hwTable) && Can(f, ev) && f.dying
    ensures var f' := Do(f, hwTable, ev); |f'.works| <= |f.works| && (ev.Work? || f'.works == f.works)
  {}

  /** Nothing happens to a flow after it is freed, so it is freed at most once. */
  lemma {:induction false} FreedIsFinal(fs: seq<Flow>, evs: seq<Event>, hwTable: bool, i: nat)
    requires Run(fs, evs, hwTable) && i < |fs| && fs[i].phase == Freed
    ensures i == |evs|
  {
    assert i < |evs| ==> Can(fs[i], evs[i]);
    RunInv(fs, evs, hwTable, i);
  }

  ghost predicate Frees(fs: seq<Flow>, j: nat)
    requires j + 1 < |fs|
  {
    fs[j].phase != Freed && fs[j + 1].phase == Freed
  }

  /** Event i carried out the DESTROY of both directions. */
  ghost predicate Destroys(fs: seq<Flow>, evs: seq<Event>, i: nat)
    requires i < |evs| < |fs|
  {
    evs[i].Work? && evs[i].k < |fs[i].works| && fs[i].works[evs[i].k] == Destroy
  }

  lemma {:induction false} DeadWasDestroyed(fs: seq<Flow>, evs: seq<Event>, hwTable: bool, j: nat)
    requires Run(fs, evs, hwTable) && j < |fs| && fs[j].dead
    ensures exists i :: 0 <= i < j && Destroys(fs, evs, i)
  {
    if j > 0 {
      assert fs[j - 1 + 1] == Do(fs[j - 1], hwTable, evs[j - 1]);
      if fs[j - 1].dead {
        DeadWasDestroyed(fs, evs, hwTable, j - 1);
      } else {
        assert Destroys(fs, evs, j - 1);
      }
    }
  }

  /** A flow is freed only with no work outstanding and no rule of it left in
      hardware, and a hardware flow only after both directions were destroyed. */
  lemma FreedSafely(fs: seq<Flow>, evs: seq<Event>, hwTable: bool, j: nat)
    requires Run(fs, evs, hwTable) && j < |evs| && Frees(fs, j)
    ensures fs[j].works == [] && fs[j].rules == {}
    ensures fs[j].hw ==> exists i :: 0 <= i < j && Destroys(fs, evs, i)
    ensures j + 1 == |evs|
  {
    RunInv(fs, evs, hwTable, j);
    assert fs[j + 1] == Do(fs[j], hwTable, evs[j]);
    FreedIsFinal(fs, evs, hwTable, j + 1);
    if fs[j].hw {
      assert fs[j].dead;
      DeadWasDestroyed(fs, evs, hwTable, j);
    }
  }

  /** Both directions are destroyed at most once. */
  lemma DestroyedOnce(fs: seq<Flow>, evs: seq<Event>, hwTable: bool, i: nat, j: nat)
    requires Run(fs, evs, hwTable) && i < j < |evs| && Destroys(fs, evs, i)
    ensures !Destroys(fs, evs, j)
  {
    assert fs[i + 1] == Do(fs[i], hwTable, evs[i]);
    DeadStays(fs, evs, hwTable, i + 1, j);
    RunInv(fs, evs, hwTable, j);
  }

  lemma {:induction false} DeadStays(fs: seq<Flow>, evs: seq<Event>, hwTable: bool, i: nat, j: nat)
    requires Run(fs, evs, hwTable) && i <= j < |fs| && fs[i].dead
    ensures fs[j].dead
  {
    hide Do, Can;
    if i < j {
      DeadStays(fs, evs, hwTable, i, j - 1);
      assert fs[j - 1 + 1] == Do(fs[j - 1], hwTable, evs[j - 1]);
      FlagsStay(fs[j - 1], hwTable, evs[j - 1]);
    }
  }

  /** From wherever a flow is in the table, the work at hand, two gc steps and the
      DESTROY get it freed, if memory can be had: the protocol cannot get stuck. */
  lemma CanBeFreed(f: Flow, hwTable: bool) returns (evs: seq<Event>, fs: seq<Flow>)
    requires Inv(f, hwTable) && f.phase == InTable
    ensures |evs| <= 4 && |fs| == |evs| + 1 && fs[0] == f && fs[|evs|].phase == Freed
    ensures forall i :: 0 <= i < |evs| ==> Can(fs[i], evs[i]) && fs[i + 1] == Do(fs[i], hwTable, evs[i])
  {
    evs, fs := [], [f];
    var gc, work := Gc(true, false, true), Work(0, true, {});
    if f.pending {
      StepInv(f, hwTable, work);
      evs, fs := [work], [f, Do(f, hwTable, work)];
    }
    var g := fs[|evs|];
    assert g.works == [] && g.phase == InTable && Inv(g, hwTable);
    if g.hw && !g.dying {
      var g1 := Do(g, hwTable, gc);
      var g2 := Do(g1, hwTable, work);
      var g3 := Do(g2, hwTable, gc);
      evs, fs := evs + [gc, work, gc], fs + [g1, g2, g3];
    } else {
      evs, fs := evs + [gc], fs + [Do(g, hwTable, gc)];
    }
  }

  // ------------------------------------------------------------ what gets requested

  /** After an insertion into a hardware table, with memory, the rule is requested. */
  lemma AddRequests(fs: seq<Flow>, evs: seq<Event>, hwTable: bool, i: nat)
    requires Run(fs, evs, hwTable) && i < |evs| && evs[i].Add? && evs[i].inserted
    ensures fs[i + 1].phase == InTable && fs[i + 1].hw == hwTable
    ensures hwTable && evs[i].alloc ==> fs[i + 1].works == [Replace] && fs[i + 1].pending
    ensures !(hwTable && evs[i].alloc) ==> fs[i + 1].works == [] && !fs[i + 1].pending
  {
    RunInv(fs, evs, hwTable, i);
    assert fs[i + 1] == Do(fs[i], hwTable, evs[i]);
  }

  /** A lookup that finds the refresh flag on a live flow takes it and, with nothing
      outstanding and with memory, requests the rule again. */
  lemma RefreshRequests(fs: seq<Flow>, evs: seq<Event>, hwTable: bool, i: nat)
    requires Run(fs, evs, hwTable) && i < |evs| && evs[i].Refresh?
    ensures var f, f' := fs[i], fs[i + 1];
            if f.refresh && !f.teardown && !evs[i].ctDying
            then !f'.refresh && f'.works == if f.works == [] && evs[i].alloc then [Replace] else f.works
            else f' == f
  {
    RunInv(fs, evs, hwTable, i);
    assert fs[i + 1] == Do(fs[i], hwTable, evs[i]);
  }

  lemma TeardownStep(f: Flow, hwTable: bool, ev: Event)
    requires Can(f, ev)
    ensures f.teardown || ev == Teardown || (ev.Gc? && ev.expired) ==> Do(f, hwTable, ev).teardown
    ensures !f.teardown && ev != Teardown && !(ev.Gc? && ev.expired) ==> !Do(f, hwTable, ev).teardown
  {}

  /** A teardown is for good, and comes only by request or because the flow expired. */
  lemma {:induction false} TeardownIff(fs: seq<Flow>, evs: seq<Event>, hwTable: bool, j: nat)
    requires Run(fs, evs, hwTable) && j < |fs|
    ensures fs[j].teardown <==> exists i :: 0 <= i < j && (evs[i] == Teardown || (evs[i].Gc? && evs[i].expired))
  {
    hide Do, Can;
    if j > 0 {
      TeardownIff(fs, evs, hwTable, j - 1);
      assert fs[j - 1 + 1] == Do(fs[j - 1], hwTable, evs[j - 1]);
      TeardownStep(fs[j - 1], hwTable, evs[j - 1]);
    }
  }

  /** The garbage collector asks for statistics of a live hardware flow if and only if it
      was not refreshed of late, with nothing outstanding and with memory; it asks for a
      flow in teardown to be destroyed, and frees it once that is done. */
  lemma GcRequests(fs: seq<Flow>, evs: seq<Event>, hwTable: bool, i: nat)
    requires Run(fs, evs, hwTable) && i < |evs| && evs[i].Gc?
    ensures var f, f' := fs[i], fs[i + 1];
            var free := f.works == [] && evs[i].alloc;
            && (!f.teardown && !evs[i].expired ==>
                  f'.phase == InTable && f'.works == if f.hw && !evs[i].recent && free then [Stats] else f.works)
            && (f.teardown || evs[i].expired ==>
                  if !f.hw || f.dead then f'.phase == Freed && f'.works == []
                  else if !f.dying && free then f'.phase == InTable && f'.works == [Destroy] && f'.dying
                  else f'.phase == InTable && f'.works == f.works && f'.dying == f.dying)
  {
    RunInv(fs, evs, hwTable, i);
    assert fs[i + 1] == Do(fs[i], hwTable, evs[i]);
  }

  /** Work that is done is not outstanding; a rule is in hardware where the driver took
      it, and if no driver did, the refresh flag asks for it again. */
  lemma WorkDoes(fs: seq<Flow>, evs: seq<Event>, hwTable: bool, i: nat)
    requires Run(fs, evs, hwTable) && i < |evs| && evs[i].Work?
    ensures var f, f' := fs[i], fs[i + 1];
            && evs[i].k == 0 && |f.works| == 1 && f'.works == [] && f'.phase == f.phase
            && match f.works[0]
               case Replace =>
                 if evs[i].ruleAlloc then f'.rules == f.rules + evs[i].installed && f'.refresh == (f.refresh || evs[i].installed == {})
                 else f'.rules == f.rules && f'.refresh == f.refresh
               case Destroy => f'.rules == {} && f'.dead
               case Stats => f'.rules == f.rules && f'.refresh == f.refresh
  {
    RunInv(fs, evs, hwTable, i);
    assert fs[i + 1] == Do(fs[i], hwTable, evs[i]);
    NoneLeft(fs[i].rules);
  }

  /** Event i had to ask for the rule, or to install it, and could not: there was no
      memory, or other work was outstanding. */
  ghost predicate Misses(fs: seq<Flow>, evs: seq<Event>, i: nat)
    requires i < |evs| < |fs|
  {
    match evs[i]
    case Add(_, alloc) => !alloc
    case Refresh(_, alloc) => fs[i].refresh && (!alloc || fs[i].pending)
    case Work(_, ruleAlloc, _) => !ruleAlloc
    case _ => false
  }

  /** A hardware flow in the table that is not dying has a rule, or one is requested, or
      the refresh flag will request it, or some event missed it. */
  lemma {:induction false} RuleOnItsWay(fs: seq<Flow>, evs: seq<Event>, hwTable: bool, j: nat)
    requires Run(fs, evs, hwTable) && j < |fs| && fs[j].hw && fs[j].phase == InTable && !fs[j].dying
    ensures fs[j].rules != {} || fs[j].works == [Replace] || fs[j].refresh || exists i :: 0 <= i < j && Misses(fs, evs, i)
  {
    if j > 0 {
      RunInv(fs, evs, hwTable, j - 1);
      assert fs[j - 1 + 1] == Do(fs[j - 1], hwTable, evs[j - 1]);
      if fs[j - 1].phase == InTable {
        FlagsStay(fs[j - 1], hwTable, evs[j - 1]);
        RuleOnItsWay(fs, evs, hwTable, j - 1);
      }
      if !(exists i :: 0 <= i < j && Misses(fs, evs, i)) {
        assert !Misses(fs, evs, j - 1);
        RuleStep(fs[j - 1], hwTable, evs[j - 1]);
      }
    }
  }

  lemma RuleStep(f: Flow, hwTable: bool, ev: Event)
    requires Inv(f, hwTable) && Can(f, ev) && Do(f, hwTable, ev).hw && !Do(f, hwTable, ev).dying && Do(f, hwTable, ev).phase == InTable
    requires f.phase == InTable ==> f.rules != {} || f.works == [Replace] || f.refresh
    requires ev.Add? ==> ev.alloc
    requires ev.Refresh? && f.refresh ==> ev.alloc && !f.pending
    requires ev.Work? ==> ev.ruleAlloc
    ensures var f' := Do(f, hwTable, ev); f'.rules != {} || f'.works == [Replace] || f'.refresh
  {}

  // ---------------------------------------------------------------- the flow object

  /** The flow as the source keeps it: flag bits changed in place. */
  class FlowOffload {
    const hwTable: bool
    var phase: Phase
    var hw: bool
    var teardown: bool
    var dying: bool
    var dead: bool
    var refresh: bool
    var pending: bool
    var works: seq<Cmd>
    var rules: set<Dir>

    ghost function View(): Flow
      reads this
    {
      Flow(phase, hw, teardown, dying, dead, refresh, pending, works, rules)
    }

    ghost predicate Valid()
      reads this
    {
      Inv(View(), hwTable)
    }

    constructor (hwTable: bool)
      ensures View() == NEW && Valid() && this.hwTable == hwTable
    {
      this.hwTable := hwTable;
      phase := Outside;
      hw, teardown, dying, dead, refresh, pending := false, false, false, false, false, false;
      works, rules := [], {};
    }

    /** test_and_set_bit(NF_FLOW_HW_PENDING), and back if there is no memory. */
    method WorkAlloc(cmd: Cmd, alloc: bool) returns (ok: bool)
      modifies this`pending
      ensures ok == (!old(pending) && alloc) && pending == (old(pending) || ok)
    {
      if pending {
        return false;
      }
      pending := true;
      if !alloc {
        pending := false;
        return false;
      }
      ok := true;
    }

    /** nf_flow_offload_add and the end of nf_flow_offload_stats. */
    method QueueWork(cmd: Cmd, alloc: bool)
      modifies this`pending, this`works
      ensures View() == Queue(old(View()), cmd, alloc)
    {
      var ok := WorkAlloc(cmd, alloc);
      if !ok {
        return;
      }
      works := works + [cmd];
    }

    /** flow_offload_add. */
    method FlowAdd(inserted: bool, alloc: bool)
      requires Valid() && Can(View(), Add(inserted, alloc))
      modifies this
      ensures Valid() && View() == Do(old(View()), hwTable, Add(inserted, alloc))
      ensures phase == (if inserted then InTable else Outside)
      ensures hw == (inserted && hwTable) && works == (if inserted && hwTable && alloc then [Replace] else [])
    {
      StepInv(View(), hwTable, Add(inserted, alloc));
      if !inserted {
        return;
      }
      phase := InTable;
      if hwTable {
        hw := true;
        QueueWork(Replace, alloc);
      }
    }

    /** flow_offload_lookup and flow_offload_refresh. */
    method LookupRefresh(ctDying: bool, alloc: bool) returns (found: bool)
      requires Valid() && Can(View(), Refresh(ctDying, alloc))
      modifies this
      ensures Valid() && View() == Do(old(View()), hwTable, Refresh(ctDying, alloc))
      ensures found == (!old(teardown) && !ctDying)
      ensures found && old(refresh) ==> !refresh && works == if old(works) == [] && alloc then [Replace] else old(works)
      ensures !(found && old(refresh)) ==> View() == old(View())
    {
      StepInv(View(), hwTable, Refresh(ctDying, alloc));
      if teardown {
        return false;
      }
      if ctDying {
        return false;
      }
      found := true;
      if !hwTable {
        return;
      }
      var was := refresh;
      refresh := false;
      if was {
        QueueWork(Replace, alloc);
      }
    }

    /** flow_offload_teardown. */
    method FlowTeardown()
      requires Valid() && Can(View(), Teardown)
      modifies this`teardown
      ensures Valid() && View() == Do(old(View()), hwTable, Teardown)
      ensures teardown && View() == old(View()).(teardown := true)
    {
      teardown := true;
    }

    /** nf_flow_offload_gc_step. */
    method GcStep(expired: bool, recent: bool, alloc: bool)
      requires Valid() && Can(View(), Gc(expired, recent, alloc))
      modifies this
      ensures Valid() && View() == Do(old(View()), hwTable, Gc(expired, recent, alloc))
    {
      StepInv(View(), hwTable, Gc(expired, recent, alloc));
      if expired {
        teardown := true;
      }
      if teardown {
        if hw {
          if !dying {
            var ok := WorkAlloc(Destroy, alloc);
            if ok {
              dying := true;
              works := works + [Destroy];
            }
          } else if dead {
            phase := Freed;
          }
        } else {
          phase := Freed;
        }
      } else if hw {
        if recent {
          return;
        }
        QueueWork(Stats, alloc);
      }
    }

    /** flow_offload_work_handler for the k-th work item. */
    method HandleWork(k: nat, ruleAlloc: bool, installed: set<Dir>)
      requires Valid() && Can(View(), Work(k, ruleAlloc, installed))
      modifies this
      ensures Valid() && View() == Do(old(View()), hwTable, Work(k, ruleAlloc, installed))
    {
      StepInv(View(), hwTable, Work(k, ruleAlloc, installed));
      match works[k] {
        case Replace =>
          if ruleAlloc {
            rules := rules + installed;
            if installed == {} {
              refresh := true;
            }
          }
        case Destroy =>
          rules := rules - {Original};
          rules := rules - {Reply};
          dead := true;
        case Stats =>
      }
      pending := false;
      works := works[..k] + works[k + 1..];
    }
  }
}
