/** The FQ-CoDel scheduler (sch_fq_codel.c): deficit round robin over the lists
    of new and old flows. What one round of each loop does is a function of the
    scheduler's state; the class performs it in place. */
module FqCodel {
  import opened Common

  datatype Packet = Packet(id: nat, len: nat)

  /** newL and oldL are the flow lists; backlogs and qlen as the source keeps them. */
  datatype Sched = Sched(
    queues: seq<seq<Packet>>, deficits: seq<int>, backlogs: seq<nat>,
    newL: seq<nat>, oldL: seq<nat>, qlen: nat)

  function Bytes(q: seq<Packet>): nat {
    if q == [] then 0 else q[0].len + Bytes(q[1..])
  }

  function Packets(qs: seq<seq<Packet>>): nat {
    if qs == [] then 0 else |qs[0]| + Packets(qs[1..])
  }

  ghost predicate NoneEmpty(qs: seq<seq<Packet>>) {
    forall f, i :: 0 <= f < |qs| && 0 <= i < |qs[f]| ==> qs[f][i].len > 0
  }

  ghost predicate Shape(s: Sched) {
    |s.deficits| == |s.queues| == |s.backlogs|
  }

  /** Every backlogged flow is on exactly one list. */
  ghost predicate Listed(s: Sched)
    requires Shape(s)
  {
    && NoDup(s.newL + s.oldL)
    && (forall f :: f in s.newL + s.oldL ==> f < |s.queues|)
    && (forall f :: 0 <= f < |s.queues| && s.queues[f] != [] ==> f in s.newL + s.oldL)
  }

  /** backlogs[i] is the byte sum of flow i and qlen the number of packets. */
  ghost predicate Counted(s: Sched)
    requires Shape(s)
  {
    && (forall f :: 0 <= f < |s.queues| ==> s.backlogs[f] == Bytes(s.queues[f]))
    && s.qlen == Packets(s.queues)
  }

  ghost predicate SchedOk(s: Sched) {
    Shape(s) && Listed(s) && Counted(s)
  }

  /** fq_codel_init: nothing is queued or listed, and no deficit is set. */
  function Start(flows: nat): Sched {
    Sched(seq(flows, _ => []), seq(flows, _ => 0), seq(flows, _ => 0), [], [], 0)
  }

  // ------------------------------------------------------------------ sequences

  lemma {:induction false} BytesDrop(q: seq<Packet>, k: nat)
    requires k <= |q|
    ensures Bytes(q) == Bytes(q[..k]) + Bytes(q[k..])
  {
    if k == 0 {
      assert q[0..] == q && q[..0] == [];
    } else {
      BytesDrop(q[1..], k - 1);
      assert q[1..][..k - 1] == q[..k][1..] && q[1..][k - 1..] == q[k..];
    }
  }

  lemma BytesAppend(q: seq<Packet>, p: Packet)
    ensures Bytes(q + [p]) == Bytes(q) + p.len
  {
    BytesDrop(q + [p], |q|);
    assert (q + [p])[..|q|] == q && (q + [p])[|q|..] == [p];
    assert Bytes([p]) == p.len + Bytes([]) by { assert [p][1..] == []; }
  }

  lemma {:induction false} PacketsUpdate(qs: seq<seq<Packet>>, f: nat, q: seq<Packet>)
    requires f < |qs|
    ensures Packets(qs[f := q]) + |qs[f]| == Packets(qs) + |q|
  {
    if f == 0 {
      assert qs[0 := q][1..] == qs[1..];
    } else {
      PacketsUpdate(qs[1..], f - 1, q);
      assert qs[f := q][1..] == qs[1..][f - 1 := q];
    }
  }

  lemma {:induction false} PacketsZero(qs: seq<seq<Packet>>)
    ensures Packets(qs) == 0 <==> forall f :: 0 <= f < |qs| ==> qs[f] == []
  {
    if qs != [] {
      PacketsZero(qs[1..]);
      assert forall f :: 1 <= f < |qs| ==> qs[f] == qs[1..][f - 1];
      assert (forall f :: 0 <= f < |qs[1..]| ==> qs[1..][f] == []) <==> (forall f :: 1 <= f < |qs| ==> qs[f] == []) by {
        forall f | 0 <= f < |qs[1..]| ensures qs[1..][f] == qs[f + 1] {}
      }
    }
  }

  // ---------------------------------------------------------------- operations

  /** A flow's first k packets leave it. */
  function TakeFrom(s: Sched, f: nat, k: nat): Sched
    requires Shape(s) && f < |s.queues| && k <= |s.queues[f]|
  {
    var q := s.queues[f];
    var n := Bytes(q[..k]);
    s.(queues := s.queues[f := q[k..]],
       backlogs := s.backlogs[f := if n <= s.backlogs[f] then s.backlogs[f] - n else 0],
       qlen := if k <= s.qlen then s.qlen - k else 0)
  }

  lemma TakeFromOk(s: Sched, f: nat, k: nat)
    requires SchedOk(s) && f < |s.queues| && k <= |s.queues[f]|
    ensures SchedOk(TakeFrom(s, f, k))
    ensures Bytes(s.queues[f][..k]) <= s.backlogs[f] && k <= s.qlen
  {
    BytesDrop(s.queues[f], k);
    PacketsUpdate(s.queues, f, s.queues[f][k..]);
  }

  /** flow_queue_add and the first part of fq_codel_enqueue. */
  function Add(s: Sched, f: nat, p: Packet, quantum: nat): Sched
    requires Shape(s) && f < |s.queues|
  {
    var listed := f in s.newL + s.oldL;
    s.(queues := s.queues[f := s.queues[f] + [p]],
       backlogs := s.backlogs[f := s.backlogs[f] + p.len],
       newL := if listed then s.newL else s.newL + [f],
       deficits := if listed then s.deficits else s.deficits[f := quantum],
       qlen := s.qlen + 1)
  }

  lemma AddOk(s: Sched, f: nat, p: Packet, quantum: nat)
    requires SchedOk(s) && f < |s.queues|
    ensures SchedOk(Add(s, f, p, quantum))
  {
    var s' := Add(s, f, p, quantum);
    BytesAppend(s.queues[f], p);
    PacketsUpdate(s.queues, f, s.queues[f] + [p]);
    if f !in s.newL + s.oldL {
      var l, l' := s.newL + s.oldL, s'.newL + s'.oldL;
      InsertKeeps(s.newL, s.oldL, f);
    }
  }

  lemma InsertKeeps(a: seq<nat>, b: seq<nat>, f: nat)
    requires NoDup(a + b) && f !in a + b
    ensures NoDup(a + [f] + b) && forall x :: x in a + [f] + b <==> x == f || x in a + b
  {
    var l := a + [f] + b;
    forall i, j | 0 <= i < j < |l| ensures l[i] != l[j] {
      var l0 := a + b;
      var i', j' := if i > |a| then i - 1 else i, if j > |a| then j - 1 else j;
      if i != |a| { assert l[i] == l0[i']; assert l[i] in l0; }
      if j != |a| { assert l[j] == l0[j']; assert l[j] in l0; }
    }
    forall x | x in a + b ensures x in l {
      if x in a { var i :| 0 <= i < |a| && a[i] == x; assert l[i] == x; }
      else { var i :| 0 <= i < |b| && b[i] == x; assert l[|a| + 1 + i] == x; }
    }
    assert l[|a|] == f;
  }

  // The loop of fq_codel_dequeue looks at the first new flow, or else the first old one.

  predicate Busy(s: Sched) { s.newL != [] || s.oldL != [] }

  function First(s: Sched): nat
    requires Busy(s)
  {
    if s.newL != [] then s.newL[0] else s.oldL[0]
  }

  /** The first flow goes to the end of the old ones. */
  function MoveToTail(s: Sched): Sched
    requires Busy(s)
  {
    if s.newL != [] then s.(newL := s.newL[1..], oldL := s.oldL + [s.newL[0]])
    else s.(oldL := s.oldL[1..] + [s.oldL[0]])
  }

  /** The first flow leaves its list. */
  function Unlist(s: Sched): Sched
    requires Busy(s)
  {
    if s.newL != [] then s.(newL := s.newL[1..]) else s.(oldL := s.oldL[1..])
  }

  /** A used-up deficit: one quantum more, and to the tail of the old flows. */
  function Refill(s: Sched, quantum: nat): Sched
    requires Busy(s) && First(s) < |s.deficits|
  {
    MoveToTail(s.(deficits := s.deficits[First(s) := s.deficits[First(s)] + quantum]))
  }

  /** CoDel drops k packets of the first flow and hands out the next one. */
  function Serve(s: Sched, k: nat): Sched
    requires Shape(s) && Busy(s) && First(s) < |s.queues| && k < |s.queues[First(s)]|
  {
    var f := First(s);
    var p := s.queues[f][k];
    TakeFrom(s, f, k + 1).(deficits := s.deficits[f := s.deficits[f] - p.len])
  }

  /** CoDel empties the first flow and returns NULL: a new flow makes one pass
      through the old ones if there are any, an old one leaves the lists. */
  function Retire(s: Sched): Sched
    requires Shape(s) && Busy(s) && First(s) < |s.queues|
  {
    var s' := TakeFrom(s, First(s), |s.queues[First(s)]|);
    if s.newL != [] && s.oldL != [] then MoveToTail(s') else Unlist(s')
  }

  lemma MoveToTailOk(s: Sched)
    requires SchedOk(s) && Busy(s)
    ensures SchedOk(MoveToTail(s)) && forall x :: x in s.newL + s.oldL <==> x in MoveToTail(s).newL + MoveToTail(s).oldL
  {
    var l := s.newL + s.oldL;
    var l' := MoveToTail(s).newL + MoveToTail(s).oldL;
    if s.newL != [] {
      assert l == [s.newL[0]] + (s.newL[1..] + s.oldL) && l' == (s.newL[1..] + s.oldL) + [s.newL[0]];
      RotateKeeps(s.newL[1..] + s.oldL, s.newL[0]);
    } else {
      assert l == [s.oldL[0]] + s.oldL[1..] && l' == s.oldL[1..] + [s.oldL[0]];
      RotateKeeps(s.oldL[1..], s.oldL[0]);
    }
  }

  lemma RotateKeeps(rest: seq<nat>, f: nat)
    requires NoDup([f] + rest)
    ensures NoDup(rest + [f]) && forall x :: x in [f] + rest <==> x in rest + [f]
  {
    var l, l' := [f] + rest, rest + [f];
    forall i, j | 0 <= i < j < |l'| ensures l'[i] != l'[j] {
      assert l'[i] == l[i + 1] && (j < |rest| ==> l'[j] == l[j + 1]) && (j == |rest| ==> l'[j] == l[0]);
    }
  }

  lemma UnlistOk(s: Sched)
    requires SchedOk(s) && Busy(s) && First(s) < |s.queues| && s.queues[First(s)] == []
    ensures SchedOk(Unlist(s))
  {
    var l := s.newL + s.oldL;
    var l' := Unlist(s).newL + Unlist(s).oldL;
    assert l' == l[1..] && l[0] == First(s);
    forall x | x in l && x != First(s) ensures x in l' {
      var i :| 0 <= i < |l| && l[i] == x;
      assert l'[i - 1] == x;
    }
    forall x | x in l' ensures x in l {}
    assert NoDup(l') by {
      forall i, j | 0 <= i < j < |l'| ensures l'[i] != l'[j] { assert l'[i] == l[i + 1] && l'[j] == l[j + 1]; }
    }
  }

  lemma FirstListed(s: Sched)
    requires SchedOk(s) && Busy(s)
    ensures First(s) < |s.queues|
  {
    assert First(s) in s.newL + s.oldL by { assert (s.newL + s.oldL)[0] == First(s); }
  }

  /** Every round of the dequeue loop keeps the lists and the accounts. */
  lemma RoundOk(s: Sched, quantum: nat, k: nat)
    requires SchedOk(s) && Busy(s)
    ensures First(s) < |s.queues|
    ensures SchedOk(Refill(s, quantum)) && SchedOk(Retire(s))
    ensures k < |s.queues[First(s)]| ==> SchedOk(Serve(s, k))
  {
    FirstListed(s);
    var f := First(s);
    MoveToTailOk(s.(deficits := s.deficits[f := s.deficits[f] + quantum]));
    TakeFromOk(s, f, |s.queues[f]|);
    var s1 := TakeFrom(s, f, |s.queues[f]|);
    MoveToTailOk(s1);
    UnlistOk(s1);
    if k < |s.queues[f]| { TakeFromOk(s, f, k + 1); }
  }

  // ---------------------------------------------------------------- termination

  /** Refills a flow needs until it may send. */
  function Refills(d: int, quantum: nat): nat
    requires quantum > 0
  {
    if d > 0 then 0 else (-d) / quantum + 1
  }

  lemma RefillsStep(d: int, quantum: nat)
    requires quantum > 0 && d <= 0
    ensures Refills(d, quantum) == Refills(d + quantum, quantum) + 1
  {
    if d + quantum <= 0 {
      DivStep(-d, quantum);
    } else {
      assert (-d) / quantum == 0 by { DivSmall(-d, quantum); }
    }
  }

  lemma DivStep(n: nat, q: nat)
    requires 0 < q <= n
    ensures n / q == (n - q) / q + 1
  {
    var r := (n - q) / q;
    assert n - q == r * q + (n - q) % q;
    assert n == (r + 1) * q + (n - q) % q;
    DivIs(n, q, r + 1, (n - q) % q);
  }

  lemma DivSmall(n: nat, q: nat)
    requires n < q
    ensures n / q == 0
  {}

  /** `weight` and the refills needed, summed over the flows of a list. */
  function Load(l: seq<nat>, deficits: seq<int>, quantum: nat, weight: nat): nat
    requires quantum > 0
  {
    if l == [] then 0
    else weight + (if l[0] < |deficits| then Refills(deficits[l[0]], quantum) else 0) + Load(l[1..], deficits, quantum, weight)
  }

  /** What is left to do: a new flow counts 2, an old one 1, and each its refills. */
  function Measure(s: Sched, quantum: nat): nat
    requires quantum > 0
  {
    Load(s.newL, s.deficits, quantum, 2) + Load(s.oldL, s.deficits, quantum, 1)
  }

  lemma {:induction false} LoadAppend(l: seq<nat>, f: nat, deficits: seq<int>, quantum: nat, weight: nat)
    requires quantum > 0 && f < |deficits|
    ensures Load(l + [f], deficits, quantum, weight) == Load(l, deficits, quantum, weight) + weight + Refills(deficits[f], quantum)
  {
    if l == [] {
      assert [f][1..] == [] && [] + [f] == [f];
    } else {
      LoadAppend(l[1..], f, deficits, quantum, weight);
      assert (l + [f])[1..] == l[1..] + [f];
    }
  }

  lemma {:induction false} LoadOther(l: seq<nat>, f: nat, d: int, deficits: seq<int>, quantum: nat, weight: nat)
    requires quantum > 0 && f < |deficits| && f !in l
    ensures Load(l, deficits[f := d], quantum, weight) == Load(l, deficits, quantum, weight)
  {
    if l != [] { LoadOther(l[1..], f, d, deficits, quantum, weight); }
  }

  /** Moving the first flow to the tail costs 1 if it was new. */
  lemma MoveMeasure(s: Sched, quantum: nat)
    requires quantum > 0 && Busy(s) && First(s) < |s.deficits|
    ensures Measure(s, quantum) == Measure(MoveToTail(s), quantum) + (if s.newL != [] then 1 else 0)
  {
    if s.newL != [] {
      LoadAppend(s.oldL, s.newL[0], s.deficits, quantum, 1);
    } else {
      LoadAppend(s.oldL[1..], s.oldL[0], s.deficits, quantum, 1);
    }
  }

  lemma RefillMeasure(s: Sched, quantum: nat)
    requires quantum > 0 && SchedOk(s) && Busy(s) && First(s) < |s.deficits| && s.deficits[First(s)] <= 0
    ensures Measure(Refill(s, quantum), quantum) < Measure(s, quantum)
  {
    var f := First(s);
    var d := s.deficits[f] + quantum;
    var s1 := s.(deficits := s.deficits[f := d]);
    RefillsStep(s.deficits[f], quantum);
    var l := s.newL + s.oldL;
    assert l[0] == f && forall i :: 0 < i < |l| ==> l[i] != f;
    var rest := if s.newL != [] then s.newL[1..] else s.oldL[1..];
    if s.newL != [] {
      assert f !in s.newL[1..] by { assert forall i :: 0 < i < |s.newL| ==> s.newL[i] == l[i]; }
      assert f !in s.oldL by { assert forall i :: 0 <= i < |s.oldL| ==> s.oldL[i] == l[|s.newL| + i]; }
      LoadOther(s.newL[1..], f, d, s.deficits, quantum, 2);
      LoadOther(s.oldL, f, d, s.deficits, quantum, 1);
    } else {
      assert l == s.oldL;
      assert f !in s.oldL[1..];
      LoadOther(s.oldL[1..], f, d, s.deficits, quantum, 1);
    }
    MoveMeasure(s1, quantum);
  }

  lemma RetireMeasure(s: Sched, quantum: nat)
    requires quantum > 0 && SchedOk(s) && Busy(s) && First(s) < |s.deficits|
    ensures Measure(Retire(s), quantum) < Measure(s, quantum)
  {
    var s1 := TakeFrom(s, First(s), |s.queues[First(s)]|);
    MoveMeasure(s1, quantum);
    assert Measure(s1, quantum) == Measure(s, quantum);
  }

  // ------------------------------------------------------------------ the qdisc

  /** fq_codel_drop's victim: a flow with the largest backlog, the first of them. */
  ghost predicate Fattest(backlogs: seq<nat>, f: nat) {
    && f < |backlogs|
    && (forall i :: 0 <= i < |backlogs| ==> backlogs[i] <= backlogs[f])
    && (forall i :: 0 <= i < f ==> backlogs[i] < backlogs[f])
  }

  class Qdisc {
    const queues: array<seq<Packet>>
    const deficits: array<int>
    const backlogs: array<nat>
    var newFlows: seq<nat>
    var oldFlows: seq<nat>
    var qlen: nat
    const quantum: nat
    const limit: nat

    ghost function View(): Sched
      reads this, queues, deficits, backlogs
    {
      Sched(queues[..], deficits[..], backlogs[..], newFlows, oldFlows, qlen)
    }

    /** No packet is empty. */
    ghost predicate Valid()
      reads this, queues, deficits, backlogs
    {
      SchedOk(View()) && quantum > 0 && 0 < queues.Length && NoneEmpty(queues[..])
    }

    constructor (flows: nat, quantum: nat, limit: nat)
      requires flows > 0 && quantum > 0
      ensures Valid() && fresh(queues) && fresh(deficits) && fresh(backlogs)
      ensures View() == Start(flows) && this.quantum == quantum && this.limit == limit
    {
      queues := new seq<Packet>[flows](_ => []);
      deficits := new int[flows](_ => 0);
      backlogs := new nat[flows](_ => 0);
      newFlows, oldFlows, qlen := [], [], 0;
      this.quantum := quantum;
      this.limit := limit;
      new;
      PacketsZero(queues[..]);
      assert View() == Start(flows);
    }

    /** dequeue: the callback CoDel takes packets with. */
    method TakeHead(f: nat) returns (p: Option<Packet>)
      requires SchedOk(View()) && f < queues.Length
      modifies this`qlen, queues, backlogs
      ensures SchedOk(View())
      ensures if old(queues[f]) == [] then p == None && View() == old(View())
              else p == Some(old(queues[f])[0]) && View() == TakeFrom(old(View()), f, 1)
    {
      if queues[f] == [] {
        return None;
      }
      ghost var s := View();
      TakeFromOk(s, f, 1);
      assert s.queues[f][..1] == [s.queues[f][0]];
      assert [s.queues[f][0]][1..] == [];
      p := Some(queues[f][0]);
      backlogs[f] := backlogs[f] - queues[f][0].len;
      queues[f] := queues[f][1..];
      qlen := qlen - 1;
      assert View() == TakeFrom(s, f, 1);
    }

    /** fq_codel_drop: one packet off the head of a fattest flow. */
    method Drop() returns (idx: nat)
      requires Valid() && qlen > 0
      modifies this`qlen, queues, backlogs
      ensures Valid() && Fattest(old(backlogs[..]), idx) && old(queues[idx]) != []
      ensures View() == TakeFrom(old(View()), idx, 1)
    {
      var maxBacklog := 0;
      idx := 0;
      for i := 0 to backlogs.Length
        invariant idx < backlogs.Length && maxBacklog <= backlogs[idx] && (idx > 0 ==> maxBacklog == backlogs[idx])
        invariant forall j :: 0 <= j < i ==> backlogs[j] <= maxBacklog
        invariant forall j :: 0 <= j < idx ==> backlogs[j] < maxBacklog
        invariant i > 0 && idx == 0 ==> maxBacklog == backlogs[0]
      {
        if backlogs[i] > maxBacklog {
          maxBacklog := backlogs[i];
          idx := i;
        }
      }
      HeavyHasPacket(View(), idx);
      var _ := TakeHead(idx);
    }

    lemma HeavyHasPacket(s: Sched, f: nat)
      requires SchedOk(s) && s.qlen > 0 && Fattest(s.backlogs, f)
      requires NoneEmpty(s.queues)
      ensures s.queues[f] != []
    {
      PacketsZero(s.queues);
      var g :| 0 <= g < |s.queues| && s.queues[g] != [];
      assert s.queues[g][0].len > 0;
      assert s.backlogs[g] == Bytes(s.queues[g]) > 0;
    }

    /** fq_codel_enqueue for a packet classified to flow idx (idx 0 of the
        classifier, an unclassified packet, never gets here). Tells whether a
        packet of this same flow was dropped, and the flow that lost one. */
    method Enqueue(p: Packet, idx: nat) returns (congested: bool, victim: Option<nat>)
      requires Valid() && idx < queues.Length && p.len > 0
      modifies this, queues, deficits, backlogs
      ensures Valid()
      ensures var s := Add(old(View()), idx, p, quantum);
              if s.qlen < limit then victim == None && !congested && View() == s
              else victim.Some? && var f := victim.value;
                   Fattest(s.backlogs, f) && s.queues[f] != [] && View() == TakeFrom(s, f, 1) && congested == (f == idx)
    {
      ghost var s := View();
      AddOk(s, idx, p, quantum);
      AddKeepsFull(s, idx, p, quantum);
      hide SchedOk, NoneEmpty, TakeFrom;
      queues[idx] := queues[idx] + [p];
      backlogs[idx] := backlogs[idx] + p.len;
      if idx !in newFlows + oldFlows {
        newFlows := newFlows + [idx];
        deficits[idx] := quantum;
      }
      qlen := qlen + 1;
      assert View() == Add(s, idx, p, quantum);
      if qlen < limit {
        return false, None;
      }
      var f := Drop();
      congested, victim := f == idx, Some(f);
    }

    /** CoDel drops any number of packets from the head of the flow and returns
        the next one, or nothing only once the flow is empty. */
    method CodelDequeue(f: nat) returns (p: Option<Packet>, ghost k: nat)
      requires SchedOk(View()) && f < queues.Length
      modifies this`qlen, queues, backlogs
      ensures SchedOk(View()) && k <= |old(queues[f])|
      ensures p == None ==> k == |old(queues[f])| && View() == TakeFrom(old(View()), f, k)
      ensures p.Some? ==> k < |old(queues[f])| && p.value == old(queues[f])[k] && View() == TakeFrom(old(View()), f, k + 1)
    {
      hide Listed, Counted;
      ghost var s := View();
      k := 0;
      TakeNothing(s, f);
      while true
        invariant SchedOk(View()) && k <= |s.queues[f]| && View() == TakeFrom(s, f, k)
        invariant queues[f] == s.queues[f][k..]
        decreases |s.queues[f]| - k
      {
        p := TakeHead(f);
        if p == None {
          return;
        }
        TakeTwice(s, f, k, 1);
        hide TakeFrom;
        var drop: bool := *;
        if !drop {
          return;
        }
        k := k + 1;
        TakeMeans(s, f, k);
      }
    }

    lemma TakeMeans(s: Sched, f: nat, k: nat)
      requires Shape(s) && f < |s.queues| && k <= |s.queues[f]|
      ensures TakeFrom(s, f, k).queues[f] == s.queues[f][k..]
    {}

    lemma ShapeOf(s: Sched)
      requires SchedOk(s)
      ensures Shape(s)
    {}

    lemma TakeKeepsFull(s: Sched, f: nat, k: nat)
      requires Shape(s) && f < |s.queues| && k <= |s.queues[f]| && NoneEmpty(s.queues)
      ensures NoneEmpty(TakeFrom(s, f, k).queues)
    {}

    lemma TakeKeepsLists(s: Sched, f: nat, k: nat)
      requires Shape(s) && f < |s.queues| && k <= |s.queues[f]|
      ensures TakeFrom(s, f, k).newL == s.newL && TakeFrom(s, f, k).oldL == s.oldL && TakeFrom(s, f, k).deficits == s.deficits
    {}

    lemma AddKeepsFull(s: Sched, f: nat, p: Packet, quantum: nat)
      requires Shape(s) && f < |s.queues| && NoneEmpty(s.queues) && p.len > 0
      ensures NoneEmpty(Add(s, f, p, quantum).queues)
    {}

    lemma TakeNothing(s: Sched, f: nat)
      requires SchedOk(s) && f < |s.queues|
      ensures TakeFrom(s, f, 0) == s
    {
      assert s.queues[f][..0] == [] && s.queues[f][0..] == s.queues[f];
    }

    lemma TakeTwice(s: Sched, f: nat, a: nat, b: nat)
      requires SchedOk(s) && f < |s.queues| && a + b <= |s.queues[f]|
      ensures TakeFrom(TakeFrom(s, f, a), f, b) == TakeFrom(s, f, a + b)
    {
      TakeFromOk(s, f, a);
      TakeFromOk(s, f, a + b);
      var q := s.queues[f];
      assert q[a..][..b] == q[a..a + b] && q[a..][b..] == q[a + b..];
      BytesDrop(q[..a + b], a);
      assert q[..a + b][..a] == q[..a] && q[..a + b][a..] == q[a..a + b];
    }

    /** The first flow has used its deficit up. */
    method RefillFirst(f: nat)
      requires Valid() && Busy(View()) && f == First(View()) && f < deficits.Length && deficits[f] <= 0
      modifies this`newFlows, this`oldFlows, deficits
      ensures Valid() && View() == Refill(old(View()), quantum)
      ensures Measure(View(), quantum) < old(Measure(View(), quantum))
    {
      ghost var s := View();
      RoundOk(s, quantum, 0);
      RefillMeasure(s, quantum);
      hide SchedOk, NoneEmpty, Measure;
      deficits[f] := deficits[f] + quantum;
      MoveFirst();
      assert View() == Refill(s, quantum);
    }

    /** codel_dequeue returned NULL and the lists are adjusted, or a packet is
        charged to the flow. */
    method ServeFirst(f: nat) returns (p: Option<Packet>, ghost k: nat)
      requires Valid() && Busy(View()) && f == First(View()) && f < deficits.Length && deficits[f] > 0
      modifies this, queues, deficits, backlogs
      ensures Valid()
      ensures p == None ==> View() == Retire(old(View())) && Measure(View(), quantum) < old(Measure(View(), quantum))
      ensures p.Some? ==> k < |old(queues[f])| && p.value == old(queues[f])[k] && View() == Serve(old(View()), k)
    {
      ghost var s := View();
      assert Shape(s);
      hide SchedOk, NoneEmpty, Measure, TakeFrom, MoveToTail, Unlist;
      p, k := CodelDequeue(f);
      assert s.queues[f] == old(queues[f]);
      RoundOk(s, quantum, k);
      RetireMeasure(s, quantum);
      TakeKeepsFull(s, f, if p == None then k else k + 1);
      ShapeOf(View());
      assert queues[..] == View().queues;
      if p == None {
        TakeKeepsLists(s, f, k);
        LeaveHead();
        assert View() == Retire(s);
      } else {
        deficits[f] := deficits[f] - p.value.len;
        assert View() == Serve(s, k);
      }
    }

    /** fq_codel_dequeue: terminates for every positive quantum and returns NULL
        only if no packet is left. The state it leaves is reached by the rounds
        `trace` lists, which end in serving the packet returned. */
    method Dequeue() returns (p: Option<Packet>, ghost trace: seq<Round>)
      requires Valid()
      modifies this, queues, deficits, backlogs
      ensures Valid() && Rounds(old(View()), trace, quantum, View())
      ensures p == None ==> forall f :: 0 <= f < queues.Length ==> queues[f] == []
      ensures p.Some? ==> trace != [] && trace[|trace| - 1].Served? && trace[|trace| - 1].p == p.value
      ensures forall i :: 0 <= i < |trace| - 1 ==> !trace[i].Served?
    {
      hide NoneEmpty, Measure, Rounds, Refill, Retire, Serve;
      trace := [];
      RoundsNone(View(), quantum);
      while true
        invariant Valid() && Rounds(old(View()), trace, quantum, View())
        invariant forall i :: 0 <= i < |trace| ==> !trace[i].Served?
        decreases Measure(View(), quantum)
      {
        ghost var s := View();
        if newFlows == [] && oldFlows == [] {
          NobodyListed(s);
          return None, trace;
        }
        FirstListed(s);
        var f := if newFlows != [] then newFlows[0] else oldFlows[0];
        if deficits[f] <= 0 {
          RefillFirst(f);
          RoundsMore(old(View()), trace, quantum, s, Refilled(f), View());
          trace := trace + [Refilled(f)];
          continue;
        }
        ghost var k;
        p, k := ServeFirst(f);
        ghost var r := if p == None then Retired(f) else Served(f, k, p.value);
        RoundsMore(old(View()), trace, quantum, s, r, View());
        trace := trace + [r];
        if p.Some? {
          return;
        }
      }
    }

    lemma NobodyListed(s: Sched)
      requires SchedOk(s) && !Busy(s)
      ensures forall f :: 0 <= f < |s.queues| ==> s.queues[f] == []
    {
      assert forall f :: f !in s.newL + s.oldL;
    }

    /** An empty new flow goes behind the old ones if there are any; other empty flows
        leave the lists. */
    method LeaveHead()
      requires Busy(View())
      modifies this`newFlows, this`oldFlows
      ensures var s := old(View()); View() == if s.newL != [] && s.oldL != [] then MoveToTail(s) else Unlist(s)
    {
      if newFlows != [] && oldFlows != [] {
        MoveFirst();
      } else if newFlows != [] {
        newFlows := newFlows[1..];
      } else {
        oldFlows := oldFlows[1..];
      }
    }

    method MoveFirst()
      requires Busy(View())
      modifies this`newFlows, this`oldFlows
      ensures View() == MoveToTail(old(View()))
    {
      if newFlows != [] {
        newFlows, oldFlows := newFlows[1..], oldFlows + [newFlows[0]];
      } else {
        oldFlows := oldFlows[1..] + [oldFlows[0]];
      }
    }
  }

  /** What a round of the dequeue loop did. */
  datatype Round = Refilled(f: nat) | Retired(f: nat) | Served(f: nat, k: nat, p: Packet)

  /** r is the round the loop takes from s. */
  ghost predicate RoundFrom(s: Sched, r: Round, quantum: nat, s': Sched) {
    && SchedOk(s) && Busy(s) && First(s) == r.f < |s.queues|
    && match r
       case Refilled(f) => s.deficits[f] <= 0 && s' == Refill(s, quantum)
       case Retired(f) => s.deficits[f] > 0 && s' == Retire(s)
       case Served(f, k, p) => s.deficits[f] > 0 && k < |s.queues[f]| && p == s.queues[f][k] && s' == Serve(s, k)
  }

  ghost predicate Rounds(s: Sched, trace: seq<Round>, quantum: nat, s': Sched) {
    if trace == [] then s' == s
    else
      var before, last := trace[..|trace| - 1], trace[|trace| - 1];
      exists m :: Rounds(s, before, quantum, m) && RoundFrom(m, last, quantum, s')
  }

  lemma RoundsNone(s: Sched, quantum: nat)
    ensures Rounds(s, [], quantum, s)
  {}

  lemma RoundsMore(s: Sched, trace: seq<Round>, quantum: nat, m: Sched, r: Round, s': Sched)
    requires Rounds(s, trace, quantum, m) && RoundFrom(m, r, quantum, s')
    ensures Rounds(s, trace + [r], quantum, s')
  {
    hide RoundFrom;
    assert (trace + [r])[..|trace|] == trace;
  }
}
