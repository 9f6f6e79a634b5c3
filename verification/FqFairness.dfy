/** Deficit round robin is fair: section 4.2 of RFC 8290, over every run of
    arrivals, drops and dequeue rounds. */
module FqFairness {
  import opened Common
  import opened FqCodel

  /** What can happen to the scheduler: a packet arrives, and if the limit is
      reached one packet of flow `victim` is dropped; or the dequeue loop makes
      a round. */
  datatype Act = Arrive(f: nat, p: Packet, victim: Option<nat>) | Turn(r: Round)

  ghost predicate Step(s: Sched, act: Act, quantum: nat, maxLen: nat, s': Sched) {
    && SchedOk(s)
    && match act
       case Arrive(f, p, victim) =>
         && f < |s.queues| && 1 <= p.len <= maxLen
         && var s1 := Add(s, f, p, quantum);
            (match victim
             case None => s' == s1
             case Some(v) => v < |s1.queues| && s1.queues[v] != [] && s' == TakeFrom(s1, v, 1))
       case Turn(r) => RoundFrom(s, r, quantum, s')
  }

  /** The lengths of the packets queued. */
  ghost predicate Sizes(s: Sched, maxLen: nat) {
    forall f, i :: 0 <= f < |s.queues| && 0 <= i < |s.queues[f]| ==> 1 <= s.queues[f][i].len <= maxLen
  }

  ghost predicate Deficits(s: Sched, quantum: nat, maxLen: nat) {
    forall f :: 0 <= f < |s.deficits| ==> 1 - maxLen <= s.deficits[f] <= quantum
  }

  /** Every deficit stays between 1 - L and the quantum. */
  lemma StepKeepsDeficits(s: Sched, act: Act, quantum: nat, maxLen: nat, s': Sched)
    requires Step(s, act, quantum, maxLen, s') && quantum > 0 && maxLen >= 1
    requires Sizes(s, maxLen) && Deficits(s, quantum, maxLen)
    ensures SchedOk(s') && Sizes(s', maxLen) && Deficits(s', quantum, maxLen)
  {
    match act
    case Arrive(f, p, victim) =>
      AddOk(s, f, p, quantum);
      var s1 := Add(s, f, p, quantum);
      if victim.Some? { TakeFromOk(s1, victim.value, 1); }
      hide Listed, Counted;
      assert Sizes(s1, maxLen);
    case Turn(r) =>
      RoundOk(s, quantum, if r.Served? then r.k else 0);
      hide Listed, Counted;
      TurnKeeps(s, r, quantum, maxLen, s');
  }

  lemma TurnKeeps(s: Sched, r: Round, quantum: nat, maxLen: nat, s': Sched)
    requires Shape(s) && RoundFrom(s, r, quantum, s') && Sizes(s, maxLen) && Deficits(s, quantum, maxLen)
    ensures Sizes(s', maxLen) && Deficits(s', quantum, maxLen)
  {
    hide Listed, Counted;
    match r
    case Refilled(f) => assert s'.queues == s.queues;
    case Retired(f) => assert s'.deficits == s.deficits;
    case Served(f, k, p) => assert 1 <= p.len <= maxLen;
  }

  ghost predicate Run(states: seq<Sched>, acts: seq<Act>, quantum: nat, maxLen: nat) {
    && |states| == |acts| + 1
    && forall i :: 0 <= i < |acts| ==> Step(states[i], acts[i], quantum, maxLen, states[i + 1])
  }

  lemma {:induction false} RunKeepsDeficits(states: seq<Sched>, acts: seq<Act>, quantum: nat, maxLen: nat, i: nat)
    requires Run(states, acts, quantum, maxLen) && quantum > 0 && maxLen >= 1 && i < |states|
    requires SchedOk(states[0]) && Sizes(states[0], maxLen) && Deficits(states[0], quantum, maxLen)
    ensures SchedOk(states[i]) && Sizes(states[i], maxLen) && Deficits(states[i], quantum, maxLen)
  {
    hide Sizes, Deficits, SchedOk, Step;
    if i > 0 {
      RunKeepsDeficits(states, acts, quantum, maxLen, i - 1);
      StepKeepsDeficits(states[i - 1], acts[i - 1], quantum, maxLen, states[i - 1 + 1]);
    }
  }

  // ------------------------------------------------------------- two old flows

  /** How often flow f was refilled, and how many bytes of it were sent. */
  function Refilled(acts: seq<Act>, f: nat): nat {
    if acts == [] then 0
    else
      var a := acts[|acts| - 1];
      Refilled(acts[..|acts| - 1], f) + (if a.Turn? && a.r.Refilled? && a.r.f == f then 1 else 0)
  }

  function Sent(acts: seq<Act>, f: nat): nat {
    if acts == [] then 0
    else
      var a := acts[|acts| - 1];
      Sent(acts[..|acts| - 1], f) + (if a.Turn? && a.r.Served? && a.r.f == f then a.r.p.len else 0)
  }

  /** Flow f is backlogged and on the old list. */
  ghost predicate Waits(s: Sched, f: nat) {
    Shape(s) && f < |s.queues| && s.queues[f] != [] && f in s.oldL
  }

  ghost predicate Before(l: seq<nat>, a: nat, b: nat) {
    exists i, j :: 0 <= i < j < |l| && l[i] == a && l[j] == b
  }

  lemma BeforeOnce(l: seq<nat>, a: nat, b: nat)
    requires NoDup(l)
    ensures !(Before(l, a, b) && Before(l, b, a))
  {}

  lemma OldNoDup(s: Sched)
    requires SchedOk(s)
    ensures NoDup(s.oldL)
  {
    var l := s.newL + s.oldL;
    forall i, j | 0 <= i < j < |s.oldL| ensures s.oldL[i] != s.oldL[j] {
      assert s.oldL[i] == l[|s.newL| + i] && s.oldL[j] == l[|s.newL| + j];
    }
  }

  /** Adding at the tail or taking off another head keeps the order of two. */
  lemma BeforeTail(l: seq<nat>, f: nat, a: nat, b: nat)
    requires a in l && b in l && f !in l && NoDup(l) && a != b
    ensures Before(l + [f], a, b) <==> Before(l, a, b)
  {
    var l' := l + [f];
    if Before(l, a, b) {
      var i, j :| 0 <= i < j < |l| && l[i] == a && l[j] == b;
      assert l'[i] == a && l'[j] == b;
    }
    if Before(l', a, b) {
      var i, j :| 0 <= i < j < |l'| && l'[i] == a && l'[j] == b;
      assert l[i] == a && l[j] == b;
    }
  }

  lemma BeforeDrop(l: seq<nat>, a: nat, b: nat)
    requires l != [] && l[0] != a && l[0] != b
    ensures Before(l[1..], a, b) <==> Before(l, a, b)
  {
    if Before(l, a, b) {
      var i, j :| 0 <= i < j < |l| && l[i] == a && l[j] == b;
      assert l[1..][i - 1] == a && l[1..][j - 1] == b;
    }
    if Before(l[1..], a, b) {
      var i, j :| 0 <= i < j < |l[1..]| && l[1..][i] == a && l[1..][j] == b;
      assert l[i + 1] == a && l[j + 1] == b;
    }
  }

  /** The one refilled goes from before the other to behind it; nothing else
      changes their order. */
  lemma OrderStep(s: Sched, act: Act, quantum: nat, maxLen: nat, s': Sched, a: nat, b: nat)
    requires Step(s, act, quantum, maxLen, s') && SchedOk(s') && a != b
    requires Waits(s, a) && Waits(s, b) && Waits(s', a) && Waits(s', b)
    ensures var ra := act.Turn? && act.r.Refilled? && act.r.f == a;
            var rb := act.Turn? && act.r.Refilled? && act.r.f == b;
            && (ra ==> Before(s.oldL, a, b) && Before(s'.oldL, b, a))
            && (rb ==> Before(s.oldL, b, a) && Before(s'.oldL, a, b))
            && (!ra && !rb ==> (Before(s'.oldL, a, b) <==> Before(s.oldL, a, b)))
  {
    OldNoDup(s);
    if act.Turn? {
      TurnOrder(s, act.r, quantum, s', a, b);
    }
  }

  lemma TurnOrder(s: Sched, r: Round, quantum: nat, s': Sched, a: nat, b: nat)
    requires RoundFrom(s, r, quantum, s') && NoDup(s.oldL) && a != b
    requires Waits(s, a) && Waits(s, b) && Waits(s', a) && Waits(s', b)
    ensures r == FqCodel.Refilled(a) ==> Before(s.oldL, a, b) && Before(s'.oldL, b, a)
    ensures r == FqCodel.Refilled(b) ==> Before(s.oldL, b, a) && Before(s'.oldL, a, b)
    ensures r != FqCodel.Refilled(a) && r != FqCodel.Refilled(b) ==> (Before(s'.oldL, a, b) <==> Before(s.oldL, a, b))
  {
    NewNotOld(s);
    if r.Served? {
      assert s'.oldL == s.oldL;
    } else if s.newL != [] {
      var f := s.newL[0];
      assert f !in s.oldL;
      if s'.oldL != s.oldL {
        assert s'.oldL == s.oldL + [f];
        BeforeTail(s.oldL, f, a, b);
      }
    } else {
      var f := s.oldL[0];
      var rest := s.oldL[1..];
      assert NoDup(rest) && f !in rest;
      if r.Refilled? {
        assert s'.oldL == rest + [f];
        if f == a {
          HeadToTail(s.oldL, a, b);
        } else if f == b {
          HeadToTail(s.oldL, b, a);
        } else {
          BeforeDrop(s.oldL, a, b);
          BeforeTail(rest, f, a, b);
        }
      } else {
        assert s'.oldL == rest;
        BeforeDrop(s.oldL, a, b);
      }
    }
  }

  lemma JoinAt(a: seq<nat>, b: seq<nat>, i: nat, j: nat)
    requires i < |a| && j < |b|
    ensures (a + b)[i] == a[i] && (a + b)[|a| + j] == b[j]
  {}

  lemma NewNotOld(s: Sched)
    requires SchedOk(s)
    ensures forall f :: f in s.newL ==> f !in s.oldL
  {
    forall i: nat, j: nat | i < |s.newL| && j < |s.oldL| ensures s.newL[i] != s.oldL[j] {
      JoinAt(s.newL, s.oldL, i, j);
    }
  }

  lemma HeadToTail(l: seq<nat>, a: nat, b: nat)
    requires l != [] && l[0] == a && b in l && a != b
    ensures Before(l, a, b) && Before(l[1..] + [a], b, a)
  {
    var j :| 0 <= j < |l| && l[j] == b;
    assert l[0] == a && l[j] == b;
    var l' := l[1..] + [a];
    assert l'[j - 1] == b && l'[|l| - 1] == a;
  }

  /** A listed flow's deficit is refills in, bytes out. */
  lemma LedgerStep(s: Sched, act: Act, quantum: nat, maxLen: nat, s': Sched, f: nat)
    requires Step(s, act, quantum, maxLen, s') && Waits(s, f) && Shape(s')
    ensures f < |s'.deficits|
    ensures s'.deficits[f] == s.deficits[f] +
              (if act.Turn? && act.r.Refilled? && act.r.f == f then quantum else 0) -
              (if act.Turn? && act.r.Served? && act.r.f == f then act.r.p.len else 0)
  {
    hide Counted;
  }

  /** Flow f stays backlogged on the old list. */
  ghost predicate Stays(states: seq<Sched>, f: nat) {
    forall i :: 0 <= i < |states| ==> Waits(states[i], f)
  }

  lemma Shorter(states: seq<Sched>, acts: seq<Act>, quantum: nat, maxLen: nat)
    requires Run(states, acts, quantum, maxLen) && acts != []
    ensures Run(states[..|acts|], acts[..|acts| - 1], quantum, maxLen)
  {
    hide Step;
    var ss, aa := states[..|acts|], acts[..|acts| - 1];
    forall i | 0 <= i < |aa| ensures Step(ss[i], aa[i], quantum, maxLen, ss[i + 1]) {
      assert Step(states[i], acts[i], quantum, maxLen, states[i + 1]);
    }
  }

  lemma LastStep(states: seq<Sched>, acts: seq<Act>, quantum: nat, maxLen: nat)
    requires Run(states, acts, quantum, maxLen) && acts != []
    ensures Step(states[|acts| - 1], acts[|acts| - 1], quantum, maxLen, states[|acts|])
  {
    hide Step;
    var i := |acts| - 1;
    assert Step(states[i], acts[i], quantum, maxLen, states[i + 1]);
  }

  /** The deficit of a flow that stays listed is its ledger: quanta in, bytes out. */
  lemma {:induction false} Ledger(states: seq<Sched>, acts: seq<Act>, quantum: nat, maxLen: nat, f: nat)
    requires Run(states, acts, quantum, maxLen) && Stays(states, f)
    ensures Waits(states[0], f) && Waits(states[|acts|], f)
    ensures states[|acts|].deficits[f] == states[0].deficits[f] + quantum * Refilled(acts, f) - Sent(acts, f)
    decreases |acts|
  {
    var n := |acts|;
    hide Step, Waits;
    assert Waits(states[0], f) && Waits(states[n], f);
    if n > 0 {
      Shorter(states, acts, quantum, maxLen);
      LastStep(states, acts, quantum, maxLen);
      Ledger(states[..n], acts[..n - 1], quantum, maxLen, f);
      assert Waits(states[n - 1], f);
      WaitsShape(states[n - 1], f);
      WaitsShape(states[n], f);
      LedgerStep(states[n - 1], acts[n - 1], quantum, maxLen, states[n], f);
      hide Run, Stays;
      var r := Refilled(acts[..n - 1], f);
      assert quantum * (r + 1) == quantum * r + quantum;
    }
  }

  lemma WaitsShape(s: Sched, f: nat)
    requires Waits(s, f)
    ensures Shape(s) && f < |s.deficits| && f in s.oldL
  {}

  /** The order of two such flows tells how their refills differ. */
  lemma {:induction false} OrderTells(states: seq<Sched>, acts: seq<Act>, quantum: nat, maxLen: nat, a: nat, b: nat)
    requires Run(states, acts, quantum, maxLen) && quantum > 0 && maxLen >= 1 && a != b
    requires SchedOk(states[0]) && Sizes(states[0], maxLen) && Deficits(states[0], quantum, maxLen)
    requires Stays(states, a) && Stays(states, b)
    ensures Refilled(acts, a) - Refilled(acts, b) ==
            (if Before(states[0].oldL, a, b) then 1 else 0) - (if Before(states[|acts|].oldL, a, b) then 1 else 0)
    decreases |acts|
  {
    hide Step, Waits, SchedOk, Sizes, Deficits, Before;
    var n := |acts|;
    if n > 0 {
      Shorter(states, acts, quantum, maxLen);
      LastStep(states, acts, quantum, maxLen);
      OrderTells(states[..n], acts[..n - 1], quantum, maxLen, a, b);
      RunKeepsDeficits(states, acts, quantum, maxLen, n - 1);
      RunKeepsDeficits(states, acts, quantum, maxLen, n);
      assert Waits(states[n - 1], a) && Waits(states[n - 1], b) && Waits(states[n], a) && Waits(states[n], b);
      hide Run, Stays;
      OrderOf(states[n - 1], acts[n - 1], quantum, maxLen, states[n], a, b);
    }
  }

  lemma OrderOf(s: Sched, act: Act, quantum: nat, maxLen: nat, s': Sched, a: nat, b: nat)
    requires Step(s, act, quantum, maxLen, s') && SchedOk(s) && SchedOk(s') && a != b
    requires Waits(s, a) && Waits(s, b) && Waits(s', a) && Waits(s', b)
    ensures var ra := if act.Turn? && act.r.Refilled? && act.r.f == a then 1 else 0;
            var rb := if act.Turn? && act.r.Refilled? && act.r.f == b then 1 else 0;
            ra - rb == (if Before(s.oldL, a, b) then 1 else 0) - (if Before(s'.oldL, a, b) then 1 else 0)
  {
    OrderStep(s, act, quantum, maxLen, s', a, b);
    OldNoDup(s);
    OldNoDup(s');
    BeforeOnce(s.oldL, a, b);
    BeforeOnce(s'.oldL, a, b);
    hide *;
  }

  lemma DeficitIn(s: Sched, quantum: nat, maxLen: nat, f: nat)
    requires Deficits(s, quantum, maxLen) && f < |s.deficits|
    ensures 1 - maxLen <= s.deficits[f] <= quantum
  {}

  /** Fairness: the refills of two flows that stay backlogged on the old list
      differ by at most 1, and the bytes sent by at most 3 quanta and 2 packets. */
  lemma Fair(states: seq<Sched>, acts: seq<Act>, quantum: nat, maxLen: nat, a: nat, b: nat)
    requires Run(states, acts, quantum, maxLen) && quantum > 0 && maxLen >= 1 && a != b
    requires SchedOk(states[0]) && Sizes(states[0], maxLen) && Deficits(states[0], quantum, maxLen)
    requires Stays(states, a) && Stays(states, b)
    ensures -1 <= Refilled(acts, a) - Refilled(acts, b) <= 1
    ensures -(3 * quantum + 2 * maxLen) <= Sent(acts, a) - Sent(acts, b) <= 3 * quantum + 2 * maxLen
  {
    hide Step, Waits, SchedOk, Sizes, Deficits, Before, Stays;
    OrderTells(states, acts, quantum, maxLen, a, b);
    Ledger(states, acts, quantum, maxLen, a);
    Ledger(states, acts, quantum, maxLen, b);
    RunKeepsDeficits(states, acts, quantum, maxLen, |acts|);
    assert |states| == |acts| + 1;
    var s, s' := states[0], states[|acts|];
    hide Run;
    WaitsShape(s, a); WaitsShape(s, b); WaitsShape(s', a); WaitsShape(s', b);
    DeficitIn(s, quantum, maxLen, a);
    DeficitIn(s, quantum, maxLen, b);
    DeficitIn(s', quantum, maxLen, a);
    DeficitIn(s', quantum, maxLen, b);
    LedgersClose(quantum, maxLen, Refilled(acts, a), Refilled(acts, b), Sent(acts, a), Sent(acts, b),
                 s.deficits[a], s.deficits[b], s'.deficits[a], s'.deficits[b]);
  }

  lemma LedgersClose(quantum: nat, maxLen: nat, ra: nat, rb: nat, sa: nat, sb: nat, a: int, b: int, a': int, b': int)
    requires -1 <= ra - rb <= 1
    requires 1 - maxLen <= a <= quantum && 1 - maxLen <= b <= quantum && 1 - maxLen <= a' <= quantum && 1 - maxLen <= b' <= quantum
    requires a' == a + quantum * ra - sa && b' == b + quantum * rb - sb
    ensures -(3 * quantum + 2 * maxLen) <= sa - sb <= 3 * quantum + 2 * maxLen
  {
    var d := ra - rb;
    assert quantum * ra - quantum * rb == quantum * d;
    assert d == -1 || d == 0 || d == 1;
  }

  // ------------------------------------------------------ from creation on

  lemma StartOk(flows: nat, quantum: nat, maxLen: nat)
    requires maxLen >= 1
    ensures SchedOk(Start(flows)) && Sizes(Start(flows), maxLen) && Deficits(Start(flows), quantum, maxLen)
  {
    PacketsZero(Start(flows).queues);
  }

  /** Every state of every run of a qdisc keeps the lists, the accounts and the
      bounds on the deficits. */
  lemma AlwaysBounded(flows: nat, states: seq<Sched>, acts: seq<Act>, quantum: nat, maxLen: nat, i: nat)
    requires Run(states, acts, quantum, maxLen) && quantum > 0 && maxLen >= 1 && states[0] == Start(flows) && i < |states|
    ensures SchedOk(states[i]) && Sizes(states[i], maxLen) && Deficits(states[i], quantum, maxLen)
  {
    hide SchedOk, Sizes, Deficits, Step, Start;
    StartOk(flows, quantum, maxLen);
    RunKeepsDeficits(states, acts, quantum, maxLen, i);
  }

  /** Between any two moments of such a run: two flows that stay backlogged on the old
      list get the same service, up to 1 refill and to 3 quanta and 2 packets. */
  lemma AlwaysFair(flows: nat, states: seq<Sched>, acts: seq<Act>, quantum: nat, maxLen: nat, i: nat, j: nat, a: nat, b: nat)
    requires Run(states, acts, quantum, maxLen) && quantum > 0 && maxLen >= 1 && states[0] == Start(flows)
    requires i <= j < |states| && a != b && Stays(states[i..j + 1], a) && Stays(states[i..j + 1], b)
    ensures -1 <= Refilled(acts[i..j], a) - Refilled(acts[i..j], b) <= 1
    ensures -(3 * quantum + 2 * maxLen) <= Sent(acts[i..j], a) - Sent(acts[i..j], b) <= 3 * quantum + 2 * maxLen
  {
    hide SchedOk, Sizes, Deficits, Step, Stays, Start, Refilled, Sent;
    AlwaysBounded(flows, states, acts, quantum, maxLen, i);
    var ss, aa := states[i..j + 1], acts[i..j];
    forall k | 0 <= k < |aa| ensures Step(ss[k], aa[k], quantum, maxLen, ss[k + 1]) {
      assert Step(states[i + k], acts[i + k], quantum, maxLen, states[i + k + 1]);
    }
    Fair(ss, aa, quantum, maxLen, a, b);
  }

  /** The dequeue loop is a part of a run. */
  lemma {:induction false} RoundsRun(states: seq<Sched>, acts: seq<Act>, trace: seq<Round>, quantum: nat, maxLen: nat, s': Sched)
      returns (states': seq<Sched>, acts': seq<Act>)
    requires Run(states, acts, quantum, maxLen) && Rounds(states[|acts|], trace, quantum, s')
    ensures Run(states', acts', quantum, maxLen) && states <= states' && acts <= acts'
    ensures states'[|acts'|] == s' && states'[0] == states[0]
    decreases |trace|
  {
    hide RoundFrom, Step;
    if trace == [] {
      states', acts' := states, acts;
    } else {
      var before, last := trace[..|trace| - 1], trace[|trace| - 1];
      var m :| Rounds(states[|acts|], before, quantum, m) && RoundFrom(m, last, quantum, s');
      states', acts' := RoundsRun(states, acts, before, quantum, maxLen, m);
      TurnIsStep(m, last, quantum, maxLen, s');
      states', acts' := RunMore(states', acts', quantum, maxLen, Turn(last), s');
    }
  }

  lemma TurnIsStep(s: Sched, r: Round, quantum: nat, maxLen: nat, s': Sched)
    requires RoundFrom(s, r, quantum, s')
    ensures Step(s, Turn(r), quantum, maxLen, s')
  {}

  lemma RunMore(states: seq<Sched>, acts: seq<Act>, quantum: nat, maxLen: nat, act: Act, s': Sched)
      returns (states': seq<Sched>, acts': seq<Act>)
    requires Run(states, acts, quantum, maxLen) && Step(states[|acts|], act, quantum, maxLen, s')
    ensures states' == states + [s'] && acts' == acts + [act] && Run(states', acts', quantum, maxLen)
  {
    hide Step;
    states', acts' := states + [s'], acts + [act];
    forall k | 0 <= k < |acts'| ensures Step(states'[k], acts'[k], quantum, maxLen, states'[k + 1]) {
      if k < |acts| { assert Step(states[k], acts[k], quantum, maxLen, states[k + 1]); }
    }
  }

  datatype Call = Enqueue(p: Packet, idx: nat) | Dequeue

  /** Any calls on a new qdisc: what happens to it is a run. */
  method Drive(flows: nat, quantum: nat, limit: nat, maxLen: nat, calls: seq<Call>)
      returns (q: Qdisc, ghost states: seq<Sched>, ghost acts: seq<Act>)
    requires flows > 0 && quantum > 0 && maxLen >= 1
    requires forall i :: 0 <= i < |calls| && calls[i].Enqueue? ==> calls[i].idx < flows && 1 <= calls[i].p.len <= maxLen
    ensures Run(states, acts, quantum, maxLen) && states[0] == Start(flows) && states[|acts|] == q.View()
    ensures q.Valid() && Deficits(q.View(), quantum, maxLen)
  {
    hide Step, Deficits, Sizes, Listed, Counted, Rounds, NoneEmpty;
    q := new Qdisc(flows, quantum, limit);
    states, acts := [Start(flows)], [];
    for i := 0 to |calls|
      invariant fresh(q) && fresh(q.queues) && fresh(q.deficits) && fresh(q.backlogs)
      invariant q.Valid() && q.quantum == quantum && q.queues.Length == flows
      invariant Run(states, acts, quantum, maxLen) && states[0] == Start(flows) && states[|acts|] == q.View()
    {
      ghost var s := q.View();
      match calls[i] {
        case Enqueue(p, idx) =>
          var _, victim := q.Enqueue(p, idx);
          ArriveIsStep(s, idx, p, victim, quantum, maxLen, q.View());
          states, acts := RunMore(states, acts, quantum, maxLen, Arrive(idx, p, victim), q.View());
        case Dequeue =>
          var _, trace := q.Dequeue();
          states, acts := RoundsRun(states, acts, trace, quantum, maxLen, q.View());
      }
    }
    AlwaysBounded(flows, states, acts, quantum, maxLen, |acts|);
  }

  lemma ArriveIsStep(s: Sched, f: nat, p: Packet, victim: Option<nat>, quantum: nat, maxLen: nat, s': Sched)
    requires SchedOk(s) && f < |s.queues| && 1 <= p.len <= maxLen
    requires var s1 := Add(s, f, p, quantum);
             && Shape(s1)
             && if victim == None then s' == s1
                else victim.value < |s1.queues| && s1.queues[victim.value] != [] && s' == TakeFrom(s1, victim.value, 1)
    ensures Step(s, Arrive(f, p, victim), quantum, maxLen, s')
  {}

  // --------------------------------------------------------- first in, first out

  /** The packets that arrived for flow f, in order. */
  function Arrived(acts: seq<Act>, f: nat): seq<Packet> {
    if acts == [] then []
    else
      var a := acts[|acts| - 1];
      Arrived(acts[..|acts| - 1], f) + if a.Arrive? && a.f == f then [a.p] else []
  }

  /** How many of them have left again: q is what is queued of the packets `arrived`. */
  ghost predicate Tail(q: seq<Packet>, arrived: seq<Packet>) {
    |q| <= |arrived| && q == arrived[|arrived| - |q|..]
  }

  function Gone(q: seq<Packet>, arrived: seq<Packet>): int { |arrived| - |q| }

  /** One step: arrivals go to the end, and what leaves leaves from the front. */
  lemma TailStep(s: Sched, act: Act, quantum: nat, maxLen: nat, s': Sched, f: nat, arrived: seq<Packet>)
    requires Step(s, act, quantum, maxLen, s') && f < |s.queues| && Tail(s.queues[f], arrived)
    ensures f < |s'.queues| && |s'.queues| == |s.queues|
    ensures var arrived' := arrived + if act.Arrive? && act.f == f then [act.p] else [];
            && Tail(s'.queues[f], arrived')
            && Gone(s'.queues[f], arrived') - Gone(s.queues[f], arrived) ==
               (if act.Arrive? && act.victim == Some(f) then 1
                else if act.Turn? && act.r.f == f && act.r.Served? then act.r.k + 1
                else if act.Turn? && act.r.f == f && act.r.Retired? then |s.queues[f]|
                else 0)
            && (act.Turn? && act.r.f == f && act.r.Served? ==> act.r.p == arrived'[Gone(s'.queues[f], arrived') - 1])
  {
    hide Listed, Counted;
    var q := s.queues[f];
    match act
    case Arrive(g, p, victim) =>
      var q1 := Add(s, g, p, quantum).queues[f];
      if g == f { TailMore(q, arrived, p); }
      if victim == Some(f) { TailLess(q1, arrived + (if g == f then [p] else []), 1); }
      assert arrived + [] == arrived;
    case Turn(r) =>
      assert arrived + [] == arrived;
      if r.f == f && r.Served? { TailLess(q, arrived, r.k + 1); }
      if r.f == f && r.Retired? { TailLess(q, arrived, |q|); }
  }

  lemma TailMore(q: seq<Packet>, arrived: seq<Packet>, p: Packet)
    requires Tail(q, arrived)
    ensures Tail(q + [p], arrived + [p])
  {}

  lemma TailLess(q: seq<Packet>, arrived: seq<Packet>, k: nat)
    requires Tail(q, arrived) && k <= |q|
    ensures Tail(q[k..], arrived) && (k > 0 ==> q[k - 1] == arrived[Gone(q[k..], arrived) - 1])
  {}

  /** In every run from fq_codel_init on, what is queued for a flow is what arrived for
      it last, in order: packets leave in the order in which they came, whether they
      are served, dropped by CoDel or dropped at the limit. */
  lemma {:induction false} FirstInFirstOut(flows: nat, states: seq<Sched>, acts: seq<Act>, quantum: nat, maxLen: nat, i: nat, f: nat)
    requires Run(states, acts, quantum, maxLen) && states[0] == Start(flows) && i < |states| && f < flows
    ensures |states[i].queues| == flows && Tail(states[i].queues[f], Arrived(acts[..i], f))
  {
    hide Step;
    if i > 0 {
      FirstInFirstOut(flows, states, acts, quantum, maxLen, i - 1, f);
      assert acts[..i][..i - 1] == acts[..i - 1];
      assert Step(states[i - 1], acts[i - 1], quantum, maxLen, states[i - 1 + 1]);
      TailStep(states[i - 1], acts[i - 1], quantum, maxLen, states[i], f, Arrived(acts[..i - 1], f));
    }
  }

  /** The packet served is the next one: of the packets that arrived for the flow, those
      before it have left, and it is the last to leave by this step. At the limit one
      packet, the oldest, leaves the flow that loses one. */
  lemma ServedInOrder(flows: nat, states: seq<Sched>, acts: seq<Act>, quantum: nat, maxLen: nat, i: nat, f: nat)
    requires Run(states, acts, quantum, maxLen) && states[0] == Start(flows) && i < |acts| && f < flows
    ensures |states[i].queues| == |states[i + 1].queues| == flows
    ensures var n, n' := Gone(states[i].queues[f], Arrived(acts[..i], f)), Gone(states[i + 1].queues[f], Arrived(acts[..i + 1], f));
            && 0 <= n <= n' <= |Arrived(acts[..i + 1], f)|
            && (acts[i].Turn? && acts[i].r.f == f && acts[i].r.Served? ==>
                  n' == n + acts[i].r.k + 1 && acts[i].r.p == Arrived(acts[..i + 1], f)[n' - 1])
            && (acts[i].Arrive? ==> n' == n + if acts[i].victim == Some(f) then 1 else 0)
  {
    hide Step;
    FirstInFirstOut(flows, states, acts, quantum, maxLen, i, f);
    FirstInFirstOut(flows, states, acts, quantum, maxLen, i + 1, f);
    assert acts[..i + 1][..i] == acts[..i];
    assert Step(states[i], acts[i], quantum, maxLen, states[i + 1]);
    TailStep(states[i], acts[i], quantum, maxLen, states[i + 1], f, Arrived(acts[..i], f));
  }

  /** A flow that a packet brings onto the lists gets a full quantum and a place behind
      the new flows; and no old flow has its turn while there is a new one. */
  lemma NewFlowFirst(s: Sched, act: Act, quantum: nat, maxLen: nat, s': Sched)
    requires Step(s, act, quantum, maxLen, s')
    ensures act.Arrive? && act.f !in s.newL + s.oldL ==>
              act.f < |s'.deficits| && s'.deficits[act.f] == quantum && s'.newL == s.newL + [act.f] && s'.oldL == s.oldL
    ensures act.Arrive? && act.f in s.newL + s.oldL ==> s'.deficits == s.deficits && s'.newL == s.newL && s'.oldL == s.oldL
    ensures act.Turn? && act.r.f in s.oldL ==> s.newL == []
  {
    if act.Turn? { NewNotOld(s); }
  }
}
