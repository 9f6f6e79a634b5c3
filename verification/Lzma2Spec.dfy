/** What an LZMA2 stream stands for: a function of its bytes, with every chunk
    decoded in one piece once all of it is there (the filter of section 5.3.1 of
    the .xz file format). */
module Lzma2Spec {
  import opened Common
  import opened LzmaRange
  import opened LzmaSymbol
  import opened LzmaMachine
  import opened LzmaWhole
  import LzmaLocal

  const RC_INIT_BYTES := 5

  // ------------------------------------------------------------------ chunk headers

  /** rc_read_init: the code register after the given bytes. */
  function InitCode(bytes: seq<Byte>): (r: nat)
    ensures r < TWO32
  {
    if bytes == [] then 0
    else ((InitCode(bytes[..|bytes| - 1]) * 256) % TWO32 + bytes[|bytes| - 1]) % TWO32
  }

  /** The initial bytes of DirectDropsLast. */
  lemma LastOfRange()
    ensures InitCode([0x00, 0xFF, 0xFF, 0xFF, 0xFE]) == TWO32 - 2
  {
    var b: seq<Byte> := [0x00, 0xFF, 0xFF, 0xFF, 0xFE];
    assert b[..4][..3] == b[..3] && b[..3][..2] == b[..2] && b[..2][..1] == b[..1] && b[..1][..0] == [];
    assert InitCode(b[..1]) == 0 && InitCode(b[..2]) == 0xFF;
    assert InitCode(b[..3]) == 0xFFFF && InitCode(b[..4]) == 0xFF_FFFF;
  }

  /** The props byte holds lc, lp and pb as (pb * 5 + lp) * 9 + lc. */
  function PropsLc(props: nat): nat { props % 9 }
  function PropsLp(props: nat): nat { props / 9 % 5 }
  function PropsPb(props: nat): nat { props / 45 }

  predicate PropsGood(props: nat) {
    props <= (4 * 5 + 4) * 9 + 8 && PropsLc(props) + PropsLp(props) <= 4
  }

  /** A chunk's bytes p so far: control byte, sizes, perhaps properties, and data. */
  predicate IsLzma(p: seq<Byte>)
    requires p != []
  {
    p[0] >= 0x80
  }

  predicate HasProps(p: seq<Byte>)
    requires p != []
  {
    p[0] >= 0xC0
  }

  /** Control byte, four size bytes and a properties byte, or three bytes. */
  function HeaderLen(p: seq<Byte>): nat
    requires p != []
  {
    if !IsLzma(p) then 3 else if HasProps(p) then 6 else 5
  }

  function Num(high: Byte, low: Byte): nat {
    var h: nat, l: nat := high, low;
    h * 256 + l + 1
  }

  /** The declared sizes of data and output. */
  function InSize(p: seq<Byte>): nat
    requires p != [] && |p| >= (if IsLzma(p) then 5 else 3)
  {
    if IsLzma(p) then Num(p[3], p[4]) else Num(p[1], p[2])
  }

  function OutSize(p: seq<Byte>): nat
    requires p != [] && |p| >= 3
  {
    var c: nat := p[0];
    if IsLzma(p) then (c % 32) * 65536 + Num(p[1], p[2]) else Num(p[1], p[2])
  }

  /** The initial bytes of the range decoder are there; they, and what follows. */
  predicate Started(p: seq<Byte>) { p != [] && IsLzma(p) && |p| >= HeaderLen(p) + RC_INIT_BYTES }

  function Init(p: seq<Byte>): seq<Byte>
    requires Started(p)
  {
    p[HeaderLen(p)..HeaderLen(p) + RC_INIT_BYTES]
  }

  function Data(p: seq<Byte>): seq<Byte>
    requires Started(p)
  {
    p[HeaderLen(p) + RC_INIT_BYTES..]
  }

  /** Control bytes 3 to 0x7F end the matter at once. */
  predicate BadControl(p: seq<Byte>)
    requires p != []
  {
    2 < p[0] < 0x80
  }

  /** There is more of the chunk to come; all of it is there. */
  predicate Short(p: seq<Byte>)
    requires p != []
  {
    !BadControl(p) && (|p| < (if IsLzma(p) then 5 else 3) || |p| < HeaderLen(p) + InSize(p))
  }

  predicate Complete(p: seq<Byte>)
    requires p != []
  {
    BadControl(p) || (|p| >= (if IsLzma(p) then 5 else 3) && |p| == HeaderLen(p) + InSize(p))
  }

  // ------------------------------------------------------------- what chunks depend on

  /** What one chunk hands on to the next: the history since the last dictionary
      reset, distances and probabilities, and what has to be set first. */
  datatype Ctx = Ctx(needDict: bool, needProps: bool, lz: Lz, probs: seq<nat>, hist: seq<Byte>)

  function FreshProbs(): seq<nat> { seq(PROBS_TOTAL, _ => TOTAL / 2) }

  function ResetLz(lz: Lz): Lz { Lz(0, 0, 0, 0, 0, lz.lc, lz.lpMask, lz.pbMask) }

  predicate CtxReady(c: Ctx) {
    LzOk(c.lz) && ProbsOk(c.probs) && (!IsLiteralState(c.lz.state) ==> c.lz.rep0 < |c.hist|)
  }

  predicate CtxOk(c: Ctx) { (c.needDict ==> c.needProps) && (!c.needProps ==> CtxReady(c)) }

  const CTX0 := Ctx(true, true, Lz(0, 0, 0, 0, 0, 0, 0, 0), FreshProbs(), [])

  /** A dictionary reset, which has to come first. */
  function Reset(c: Ctx, control: Byte): Option<Ctx> {
    if control >= 0xE0 || control == 1 then Some(c.(needDict := false, needProps := true, hist := []))
    else if c.needDict then None
    else Some(c)
  }

  /** What the control byte does; None if it is not allowed here. */
  function Begin(c: Ctx, control: Byte): Option<Ctx> {
    match Reset(c, control)
    case None => None
    case Some(c1) =>
      if control >= 0xC0 then Some(c1.(needProps := false))
      else if control >= 0x80 then
        if c1.needProps then None
        else if control >= 0xA0 then Some(c1.(lz := ResetLz(c1.lz), probs := FreshProbs()))
        else Some(c1)
      else if control > 2 then None
      else Some(c1)
  }

  function WithProps(c: Ctx, props: Byte): Ctx {
    c.(lz := Lz(0, 0, 0, 0, 0, PropsLc(props), Pow2(PropsLp(props)) - 1, Pow2(PropsPb(props)) - 1), probs := FreshProbs())
  }

  lemma FreshOk()
    ensures ProbsOk(FreshProbs())
  {}

  lemma BeginOk(c: Ctx, control: Byte)
    requires CtxOk(c) && Begin(c, control).Some?
    ensures var c' := Begin(c, control).value;
            && !c'.needDict && (control < 0xC0 ==> CtxOk(c')) && (control >= 0xC0 ==> !c'.needProps)
            && (0x80 <= control < 0xC0 ==> CtxReady(c') && !c'.needProps)
  {
    FreshOk();
  }

  lemma PropsMasks(lc: nat, lp: nat, pb: nat)
    requires lc + lp <= 4 && pb <= 4
    ensures PropsOk(lc, Pow2(lp) - 1, Pow2(pb) - 1)
  {
    Pow2Small();
    assert lp == 0 || lp == 1 || lp == 2 || lp == 3 || lp == 4;
    assert lc == 0 || lc == 1 || lc == 2 || lc == 3 || lc == 4;
    assert pb == 0 || pb == 1 || pb == 2 || pb == 3 || pb == 4;
  }

  lemma WithPropsOk(c: Ctx, props: Byte)
    requires PropsGood(props)
    ensures CtxReady(WithProps(c, props))
  {
    FreshOk();
    PropsMasks(PropsLc(props), PropsLp(props), PropsPb(props));
    hide ProbsOk;
  }

  /** The decoder when the data of an LZMA chunk begin. */
  function Start(c: Ctx, init: seq<Byte>): (m: Machine)
    requires CtxReady(c)
    ensures MachineOk(m)
  {
    Machine(Core(Rc(TWO32 - 1, InitCode(init), 0), c.probs), c.lz, c.hist)
  }

  /** The context an LZMA chunk is decoded in, once its header is there. */
  function Setup(c: Ctx, p: seq<Byte>): (r: Option<Ctx>)
    requires CtxOk(c) && p != [] && IsLzma(p) && |p| >= HeaderLen(p)
    ensures r.Some? ==> CtxReady(r.value) && !r.value.needDict && !r.value.needProps
  {
    match Begin(c, p[0])
    case None => None
    case Some(c1) =>
      BeginOk(c, p[0]);
      if !HasProps(p) then Some(c1)
      else if PropsGood(p[5]) then WithPropsOk(c1, p[5]); Some(WithProps(c1, p[5]))
      else None
  }

  // ----------------------------------------------------------------- chunks, streams

  /** The decoder when the data of this chunk begin, and when they end. */
  function ChunkStart(c: Ctx, p: seq<Byte>): (m: Machine)
    requires CtxOk(c) && Started(p) && Setup(c, p).Some?
    ensures MachineOk(m) && m.hist == Setup(c, p).value.hist
  {
    Start(Setup(c, p).value, Init(p))
  }

  function Target(c: Ctx, p: seq<Byte>): nat
    requires CtxOk(c) && Started(p) && Setup(c, p).Some?
  {
    |Setup(c, p).value.hist| + OutSize(p)
  }

  function ChunkEnd(c: Ctx, p: seq<Byte>, size: nat): (r: Option<Machine>)
    requires CtxOk(c) && Started(p) && Setup(c, p).Some?
    ensures r.Some? ==> MachineOk(r.value) && ChunkStart(c, p).hist <= r.value.hist && |r.value.hist| == Target(c, p)
  {
    Whole(ChunkStart(c, p), Data(p), size, Target(c, p))
  }

  /** A whole LZMA chunk: the context after it and what it writes. */
  function LzmaChunk(c: Ctx, p: seq<Byte>, size: nat): (r: Option<(Ctx, seq<Byte>)>)
    requires CtxOk(c) && p != [] && IsLzma(p) && Complete(p)
    ensures r.Some? ==> CtxOk(r.value.0) && |r.value.1| == OutSize(p) && InSize(p) >= RC_INIT_BYTES
  {
    if !Started(p) || Setup(c, p).None? then None
    else
      match ChunkEnd(c, p, size)
      case None => None
      case Some(m) => Some((Ctx(false, false, m.lz, m.core.probs, m.hist), m.hist[|ChunkStart(c, p).hist|..]))
  }

  /** A whole chunk; None if it is not correct. */
  function Chunk(c: Ctx, p: seq<Byte>, size: nat): (r: Option<(Ctx, seq<Byte>)>)
    requires CtxOk(c) && p != [] && Complete(p)
    ensures r.Some? ==> !BadControl(p) && CtxOk(r.value.0) && |r.value.1| == OutSize(p)
  {
    if BadControl(p) then None
    else if IsLzma(p) then LzmaChunk(c, p, size)
    else
      match Begin(c, p[0])
      case None => None
      case Some(c1) => BeginOk(c, p[0]); CopyOk(c1, p[3..]); Some((c1.(hist := c1.hist + p[3..]), p[3..]))
  }

  lemma CopyOk(c: Ctx, more: seq<Byte>)
    requires CtxOk(c)
    ensures CtxOk(c.(hist := c.hist + more))
  {}

  datatype Phase = Going | Ended | Bad

  /** A stream so far: what its whole chunks wrote and hand on, and the bytes of
      the chunk that is not complete. */
  datatype Sofar = Sofar(ctx: Ctx, out: seq<Byte>, pending: seq<Byte>, phase: Phase)

  function Push(s: Sofar, b: Byte, size: nat): (r: Sofar)
    requires CtxOk(s.ctx)
    ensures CtxOk(r.ctx)
  {
    var p := s.pending + [b];
    if s.phase == Bad then s
    else if p == [0] then s.(pending := [], phase := Ended)
    else if Complete(p) then
      match Chunk(s.ctx, p, size)
      case None => s.(pending := p, phase := Bad)
      case Some((c, o)) => Sofar(c, s.out + o, [], Going)
    else s.(pending := p, phase := Going)
  }

  function PushAll(s: Sofar, bytes: seq<Byte>, size: nat): (r: Sofar)
    requires CtxOk(s.ctx)
    ensures CtxOk(r.ctx)
  {
    if bytes == [] then s else Push(PushAll(s, bytes[..|bytes| - 1], size), bytes[|bytes| - 1], size)
  }

  lemma Ctx0Ok()
    ensures CtxOk(CTX0)
  {}

  /** The stream after these bytes. */
  function StreamOf(bytes: seq<Byte>, size: nat): (r: Sofar)
    ensures CtxOk(r.ctx)
  {
    Ctx0Ok();
    PushAll(Sofar(CTX0, [], [], Going), bytes, size)
  }

  lemma {:induction false} PushJoins(s: Sofar, a: seq<Byte>, b: seq<Byte>, size: nat)
    requires CtxOk(s.ctx)
    ensures PushAll(s, a + b, size) == PushAll(PushAll(s, a, size), b, size)
    decreases |b|
  {
    hide Push, CtxOk;
    if b == [] {
      assert a + b == a;
    } else {
      var n := |b| - 1;
      PushJoins(s, a, b[..n], size);
      assert (a + b)[..|a + b| - 1] == a + b[..n];
    }
  }

  // ----------------------------------------------------------------- parts of a chunk

  /** A chunk that is not complete at its end is not complete before. */
  lemma ShortBefore(p: seq<Byte>, n: nat)
    requires 0 < n <= |p| && (Short(p) || (Complete(p) && !BadControl(p) && n < |p|))
    ensures Short(p[..n]) && !Complete(p[..n])
  {}

  lemma {:induction false} PushShort(s: Sofar, p: seq<Byte>, size: nat)
    requires CtxOk(s.ctx) && s.pending == [] && s.phase != Bad && p != [] && p[0] != 0 && Short(p)
    ensures PushAll(s, p, size) == s.(pending := p, phase := Going)
    decreases |p|
  {
    hide Chunk, Complete, Short;
    var n := |p| - 1;
    ShortNow(p);
    if n > 0 {
      ShortBefore(p, n);
      PushShort(s, p[..n], size);
      assert p[..n] + [p[n]] == p;
    } else {
      assert p[..0] == [] && s.pending + [p[0]] == p;
      assert PushAll(s, p[..0], size) == s;
    }
  }

  lemma ShortNow(p: seq<Byte>)
    requires p != [] && Short(p)
    ensures !Complete(p)
  {}

  /** The last byte of a chunk gives the verdict on it. */
  lemma PushComplete(s: Sofar, p: seq<Byte>, size: nat)
    requires CtxOk(s.ctx) && s.pending == [] && s.phase != Bad && p != [] && p[0] != 0 && Complete(p) && (BadControl(p) ==> |p| == 1)
    ensures PushAll(s, p, size) ==
            match Chunk(s.ctx, p, size)
            case None => s.(pending := p, phase := Bad)
            case Some((c, o)) => Sofar(c, s.out + o, [], Going)
  {
    hide Chunk, Complete, Short;
    var n := |p| - 1;
    if n > 0 {
      ShortBefore(p, n);
      PushShort(s, p[..n], size);
      assert p[..n] + [p[n]] == p;
    } else {
      assert p[..0] == [] && s.pending + [p[0]] == p;
      assert PushAll(s, p[..0], size) == s;
    }
  }

  // ------------------------------------------------------------------------- verdicts

  /** No bytes that follow can make a correct stream of these. */
  ghost predicate Doomed(bytes: seq<Byte>, size: nat) {
    forall tail: seq<Byte> :: StreamOf(bytes + tail, size).phase != Ended
  }

  /** Every way to complete the chunk p is wrong. */
  ghost predicate NoWay(c: Ctx, p: seq<Byte>, size: nat) {
    && CtxOk(c) && p != [] && p[0] != 0
    && forall q: seq<Byte> :: |q| > 0 && (p <= q || q <= p) && Complete(q) && (BadControl(q) ==> |q| == 1) ==> Chunk(c, q, size) == None
  }

  lemma {:induction false} BadStays(s: Sofar, bytes: seq<Byte>, size: nat)
    requires CtxOk(s.ctx) && s.phase == Bad
    ensures PushAll(s, bytes, size) == s
  {
    if bytes != [] { BadStays(s, bytes[..|bytes| - 1], size); }
  }

  /** A condemned chunk goes bad or stays incomplete. */
  lemma {:induction false} NoWayOn(s: Sofar, p: seq<Byte>, q: seq<Byte>, size: nat)
    requires CtxOk(s.ctx) && s.pending == [] && s.phase != Bad && NoWay(s.ctx, p, size) && q != [] && (p <= q || q <= p)
    ensures PushAll(s, q, size).phase == Bad || (Short(q) && PushAll(s, q, size).phase == Going)
    decreases |q|
  {
    hide Chunk, Complete, Short;
    var n := |q| - 1;
    assert q[0] == p[0];
    if n > 0 {
      var q' := q[..n];
      assert p <= q' || q' <= p by { Comparable(p, q, n); }
      NoWayOn(s, p, q', size);
      if PushAll(s, q', size).phase != Bad {
        Grows(q, n);
        NoWayLast(s, p, q, size);
      }
    } else {
      First(q);
      NoWayLast(s, p, q, size);
    }
  }

  lemma Comparable(p: seq<Byte>, q: seq<Byte>, n: nat)
    requires (p <= q || q <= p) && n <= |q|
    ensures p <= q[..n] || q[..n] <= p
  {}

  lemma Grows(q: seq<Byte>, n: nat)
    requires n == |q| - 1 && n > 0 && Short(q[..n])
    ensures Short(q) || (Complete(q) && !BadControl(q))
  {}

  lemma First(q: seq<Byte>)
    requires |q| == 1
    ensures Short(q) || Complete(q)
  {}

  lemma NoWayLast(s: Sofar, p: seq<Byte>, q: seq<Byte>, size: nat)
    requires CtxOk(s.ctx) && s.pending == [] && s.phase != Bad && NoWay(s.ctx, p, size) && q != [] && (p <= q || q <= p) && q[0] == p[0]
    requires Short(q) || (Complete(q) && (BadControl(q) ==> |q| == 1))
    ensures PushAll(s, q, size).phase == Bad || (Short(q) && PushAll(s, q, size).phase == Going)
  {
    hide Chunk, Complete, Short;
    if Short(q) { PushShort(s, q, size); } else { PushComplete(s, q, size); }
  }

  /** A condemned chunk dooms the stream. */
  lemma NoWayDooms(before: seq<Byte>, p: seq<Byte>, size: nat)
    requires var s := StreamOf(before, size); s.pending == [] && s.phase != Bad && NoWay(s.ctx, p, size)
    ensures Doomed(before + p, size)
  {
    Ctx0Ok();
    hide Chunk, Complete, Short, NoWay, PushAll;
    var s0, s := Sofar(CTX0, [], [], Going), StreamOf(before, size);
    forall tail: seq<Byte> ensures StreamOf(before + p + tail, size).phase != Ended {
      assert before + p + tail == before + (p + tail);
      PushJoins(s0, before, p + tail, size);
      NotNone(s.ctx, p, size);
      NoWayOn(s, p, p + tail, size);
    }
  }

  lemma NotNone(c: Ctx, p: seq<Byte>, size: nat)
    requires NoWay(c, p, size)
    ensures p != []
  {}

  lemma DoomedLonger(bytes: seq<Byte>, more: seq<Byte>, size: nat)
    requires Doomed(bytes, size)
    ensures Doomed(bytes + more, size)
  {
    hide StreamOf;
    forall tail: seq<Byte> ensures StreamOf(bytes + more + tail, size).phase != Ended {
      assert bytes + more + tail == bytes + (more + tail);
    }
  }

  /** Control bytes that are not allowed. */
  lemma NoWayBegin(c: Ctx, p: seq<Byte>, size: nat)
    requires CtxOk(c) && p != [] && p[0] != 0 && Begin(c, p[0]).None?
    ensures NoWay(c, p, size)
  {
    forall q: seq<Byte> | |q| > 0 && (p <= q || q <= p) && Complete(q) ensures Chunk(c, q, size) == None {
      assert q[0] == p[0];
    }
  }

  lemma SameHeader(p: seq<Byte>, q: seq<Byte>)
    requires |p| >= 5 && |q| >= 5 && IsLzma(p) && (p <= q || q <= p)
    ensures IsLzma(q) && HasProps(q) == HasProps(p) && HeaderLen(q) == HeaderLen(p) && InSize(q) == InSize(p) && OutSize(q) == OutSize(p)
    ensures q[0] == p[0] && (|p| >= 6 && |q| >= 6 ==> q[5] == p[5])
  {}

  /** Properties that are not allowed, or no room for the initial bytes. */
  lemma NoWayHeader(c: Ctx, p: seq<Byte>, size: nat)
    requires CtxOk(c) && |p| >= 5 && IsLzma(p)
    requires InSize(p) < RC_INIT_BYTES || (HasProps(p) && |p| >= 6 && !PropsGood(p[5]))
    ensures NoWay(c, p, size)
  {
    forall q: seq<Byte> | |q| > 0 && (p <= q || q <= p) && Complete(q) ensures Chunk(c, q, size) == None {
      assert q[0] == p[0];
      SameHeader(p, q);
    }
  }

  /** Data that cannot be right. */
  lemma NoWayData(c: Ctx, p: seq<Byte>, size: nat)
    requires CtxOk(c) && Started(p) && InSize(p) >= RC_INIT_BYTES && Setup(c, p).Some?
    requires Fails(ChunkStart(c, p), Data(p), InSize(p) - RC_INIT_BYTES, size, Target(c, p))
    ensures NoWay(c, p, size)
  {
    hide Fails, Whole, Setup, ChunkStart, Data, Target;
    forall q: seq<Byte> | |q| > 0 && (p <= q || q <= p) && Complete(q) ensures Chunk(c, q, size) == None {
      assert q[0] == p[0];
      SameHeader(p, q);
      SameData(p, q);
      SameSetup(c, p, q);
      FailsAt(ChunkStart(c, p), Data(p), InSize(p) - RC_INIT_BYTES, size, Target(c, p), Data(q));
    }
  }

  lemma FailsAt(m0: Machine, known: seq<Byte>, n: nat, size: nat, target: nat, d: seq<Byte>)
    requires Fails(m0, known, n, size, target) && |d| == n && (known <= d || d <= known)
    ensures Whole(m0, d, size, target) == None
  {}

  lemma SameSetup(c: Ctx, p: seq<Byte>, q: seq<Byte>)
    requires CtxOk(c) && Started(p) && Started(q) && q[0] == p[0] && q[5] == p[5] && Init(q) == Init(p) && OutSize(q) == OutSize(p)
    ensures Setup(c, q) == Setup(c, p) && (Setup(c, p).Some? ==> ChunkStart(c, q) == ChunkStart(c, p) && Target(c, q) == Target(c, p))
  {}

  lemma SameData(p: seq<Byte>, q: seq<Byte>)
    requires Started(p) && Started(q) && (p <= q || q <= p) && HeaderLen(q) == HeaderLen(p) && Complete(q)
    ensures Init(q) == Init(p) && (Data(p) <= Data(q) || Data(q) <= Data(p)) && |Data(q)| == InSize(q) - RC_INIT_BYTES
  {}

  // ------------------------------------------------------------------- what was written

  /** cur is a part of what the chunk that begins with the bytes p writes. */
  ghost predicate Partly(c: Ctx, p: seq<Byte>, cur: seq<Byte>, size: nat)
    requires CtxOk(c) && p != []
  {
    if !IsLzma(p) then cur == if |p| <= 3 then [] else p[3..]
    else
      cur == [] ||
      (Started(p) && Setup(c, p).Some? && |cur| <= OutSize(p) && exists k: nat :: Made(c, p, cur, size, k))
  }

  /** k symbols of the data so far make cur, or more. */
  ghost predicate Made(c: Ctx, p: seq<Byte>, cur: seq<Byte>, size: nat, k: nat)
    requires CtxOk(c) && Started(p) && Setup(c, p).Some?
  {
    var r := Steps(ChunkStart(c, p), Data(p), size, k);
    r.Some? && ChunkStart(c, p).hist + cur <= r.value.hist
  }

  /** total is what a decoder may have written that has taken the bytes `before`,
      all of them whole chunks, and then the bytes p of one more. */
  ghost predicate Shows(before: seq<Byte>, p: seq<Byte>, total: seq<Byte>, size: nat) {
    var s := StreamOf(before, size);
    && s.pending == [] && s.phase != Bad
    && (if p == [] then total == s.out
        else
          && p[0] != 0 && (Short(p) || (Complete(p) && !BadControl(p))) && s.out <= total && Partly(s.ctx, p, total[|s.out|..], size))
  }

  ghost predicate Ordered(a: seq<Byte>, b: seq<Byte>) { a <= b || b <= a }

  lemma MadeOrdered(c: Ctx, p: seq<Byte>, a: seq<Byte>, i: nat, b: seq<Byte>, j: nat, size: nat)
    requires CtxOk(c) && Started(p) && Setup(c, p).Some?
    requires Made(c, p, a, size, i) && Made(c, p, b, size, j) && i <= j
    ensures Ordered(a, b)
  {
    hide Setup, ChunkStart, Data;
    var m0, d := ChunkStart(c, p), Data(p);
    StepsPrefix(m0, d, size, i, j);
    hide Steps;
    var all := Steps(m0, d, size, j).value.hist;
    PrefixesOrdered(m0.hist, a, b, all);
  }

  lemma PrefixesOrdered(h: seq<Byte>, a: seq<Byte>, b: seq<Byte>, all: seq<Byte>)
    requires h + a <= all && h + b <= all
    ensures Ordered(a, b)
  {
    assert a == all[|h|..][..|a|] && b == all[|h|..][..|b|];
  }

  lemma PartlyOrdered(c: Ctx, p: seq<Byte>, a: seq<Byte>, b: seq<Byte>, size: nat)
    requires CtxOk(c) && p != [] && Partly(c, p, a, size) && Partly(c, p, b, size)
    ensures Ordered(a, b)
  {
    hide Made, Setup;
    if IsLzma(p) && a != [] && b != [] {
      var i: nat :| Made(c, p, a, size, i);
      var j: nat :| Made(c, p, b, size, j);
      if i <= j { MadeOrdered(c, p, a, i, b, j, size); } else { MadeOrdered(c, p, b, j, a, i, size); }
    }
  }

  /** The state a whole chunk decodes to is one of its symbols' states. */
  lemma {:induction false} WholeIsSteps(m: Machine, inp: seq<Byte>, size: nat, target: nat) returns (k: nat)
    requires MachineOk(m) && DecodeTo(m, inp, size, target).Some?
    ensures Steps(m, inp, size, k) == DecodeTo(m, inp, size, target)
    decreases if |m.hist| < target then target - |m.hist| else 0
  {
    hide Step, MachineOk, DecodeTo;
    DecodeToUnfold(m, inp, size, target);
    if target <= |m.hist| {
      k := 0;
    } else {
      var n := Step(m, inp, size).value;
      var j := WholeIsSteps(n, inp, size, target);
      assert Steps(m, inp, size, 1 - 1) == Some(m);
      LzmaLocal.StepsCompose(m, inp, size, 1, j);
      k := 1 + j;
    }
  }

  lemma DecodeToUnfold(m: Machine, inp: seq<Byte>, size: nat, target: nat)
    requires MachineOk(m)
    ensures target <= |m.hist| ==> DecodeTo(m, inp, size, target) == Some(m)
    ensures |m.hist| < target ==>
              && (Step(m, inp, size).None? ==> DecodeTo(m, inp, size, target) == None)
              && (Step(m, inp, size).Some? ==>
                    && MachineOk(Step(m, inp, size).value) && |m.hist| < |Step(m, inp, size).value.hist|
                    && DecodeTo(m, inp, size, target) == DecodeTo(Step(m, inp, size).value, inp, size, target))
  {}

  /** A whole chunk has written all of what its bytes say. */
  lemma WholePartly(c: Ctx, p: seq<Byte>, size: nat)
    requires CtxOk(c) && p != [] && Complete(p) && Chunk(c, p, size).Some?
    ensures Partly(c, p, Chunk(c, p, size).value.1, size)
  {
    hide Partly, Made, Setup, ChunkStart, ChunkEnd, Target, Data;
    if IsLzma(p) {
      WholeMade(c, p, size);
      PartlyMade(c, p, Chunk(c, p, size).value.1, size);
    } else {
      PartlyCopied(c, p, size);
    }
  }

  lemma PartlyMade(c: Ctx, p: seq<Byte>, cur: seq<Byte>, size: nat)
    requires CtxOk(c) && Started(p) && Setup(c, p).Some? && |cur| <= OutSize(p) && exists k: nat :: Made(c, p, cur, size, k)
    ensures Partly(c, p, cur, size)
  {}

  lemma PartlyCopied(c: Ctx, p: seq<Byte>, size: nat)
    requires CtxOk(c) && p != [] && !IsLzma(p) && |p| >= 3
    ensures Partly(c, p, p[3..], size)
  {}

  lemma WholeMade(c: Ctx, p: seq<Byte>, size: nat)
    requires CtxOk(c) && Started(p) && Setup(c, p).Some? && ChunkEnd(c, p, size).Some?
    ensures exists k: nat :: Made(c, p, ChunkEnd(c, p, size).value.hist[|ChunkStart(c, p).hist|..], size, k)
  {
    hide Setup, ChunkStart, Target, Data, Steps, DecodeTo, Fits;
    var m0, d, r := ChunkStart(c, p), Data(p), ChunkEnd(c, p, size).value;
    var k := WholeIsSteps(m0, d, size, Target(c, p));
    assert m0.hist + r.hist[|m0.hist|..] == r.hist;
    assert Made(c, p, r.hist[|m0.hist|..], size, k);
  }

  /** However the same bytes were split over calls, and whatever room there was for
      output, one decoder has written what the other has, or the beginning of it;
      between chunks, and so at the end of the stream, both have written the same. */
  lemma SameBytesSameOutput(b1: seq<Byte>, p1: seq<Byte>, t1: seq<Byte>, b2: seq<Byte>, p2: seq<Byte>, t2: seq<Byte>, size: nat)
    requires Shows(b1, p1, t1, size) && Shows(b2, p2, t2, size) && b1 + p1 == b2 + p2
    ensures Ordered(t1, t2)
    ensures p1 == [] && p2 == [] ==> t1 == t2 == StreamOf(b1 + p1, size).out
  {
    if p1 == [] && p2 == [] {
      assert b1 == b1 + p1 == b2 + p2 == b2;
    }
    if |b1| <= |b2| { SplitOrdered(b1, p1, t1, b2, p2, t2, size); } else { SplitOrdered(b2, p2, t2, b1, p1, t1, size); }
  }

  lemma SplitOrdered(b1: seq<Byte>, p1: seq<Byte>, t1: seq<Byte>, b2: seq<Byte>, p2: seq<Byte>, t2: seq<Byte>, size: nat)
    requires Shows(b1, p1, t1, size) && Shows(b2, p2, t2, size) && b1 + p1 == b2 + p2 && |b1| <= |b2|
    ensures Ordered(t1, t2)
  {
    hide Partly, StreamOf, Short, Complete, Chunk;
    var x := b2[|b1|..];
    assert b2 == b1 + x && p1 == x + p2 by {
      assert b1 == (b1 + p1)[..|b1|] && b2 == (b2 + p2)[..|b2|];
      assert p1 == (b1 + p1)[|b1|..];
    }
    var s := StreamOf(b1, size);
    if x == [] {
      assert b1 == b2 && p1 == p2;
      if p1 != [] {
        PartlyOrdered(s.ctx, p1, t1[|s.out|..], t2[|s.out|..], size);
        OnBase(s.out, t1, t2);
      }
    } else {
      StreamOn(b1, x, size);
      if p2 != [] || Short(p1) {
        if Short(p1) || |x| < |p1| { ShortBefore(p1, |x|); }
        assert p1[..|x|] == x;
        PushShort(s, x, size);
        assert false;
      }
      assert x == p1 && p2 == [];
      NotBoth(p1);
      PushComplete(s, p1, size);
      WholePartly(s.ctx, p1, size);
      var o := Chunk(s.ctx, p1, size).value.1;
      assert t2[|s.out|..] == o;
      PartlyOrdered(s.ctx, p1, t1[|s.out|..], o, size);
      OnBase(s.out, t1, t2);
    }
  }

  lemma NotBoth(p: seq<Byte>)
    requires p != [] && Complete(p) && !BadControl(p)
    ensures BadControl(p) ==> |p| == 1
  {}

  lemma OnBase(base: seq<Byte>, t1: seq<Byte>, t2: seq<Byte>)
    requires base <= t1 && base <= t2 && Ordered(t1[|base|..], t2[|base|..])
    ensures Ordered(t1, t2)
  {
    assert t1 == base + t1[|base|..] && t2 == base + t2[|base|..];
  }

  lemma StreamOn(before: seq<Byte>, more: seq<Byte>, size: nat)
    ensures StreamOf(before + more, size) == PushAll(StreamOf(before, size), more, size)
  {
    Ctx0Ok();
    PushJoins(Sofar(CTX0, [], [], Going), before, more, size);
  }

  // --------------------------------------------------------------------- decoder's view

  /** The end marker. */
  lemma EndMarker(before: seq<Byte>, size: nat)
    requires var s := StreamOf(before, size); s.pending == [] && s.phase != Bad
    ensures StreamOf(before + [0], size) == StreamOf(before, size).(phase := Ended)
  {
    var s := StreamOf(before, size);
    StreamOn(before, [0], size);
    hide StreamOf, Chunk;
    assert [0][..0] == [] && s.pending + [0] == [0];
    assert PushAll(s, [0][..0], size) == s;
  }

  /** Control bytes 3 to 0x7F are none. */
  lemma UnknownControl(before: seq<Byte>, b: Byte, size: nat)
    requires var s := StreamOf(before, size); s.pending == [] && s.phase != Bad
    requires 3 <= b <= 0x7F
    ensures StreamOf(before + [b], size).phase == Bad
  {
    hide StreamOf;
    StreamOn(before, [b], size);
    PushComplete(StreamOf(before, size), [b], size);
  }

  /** A chunk that is over. */
  lemma ChunkOver(before: seq<Byte>, p: seq<Byte>, size: nat)
    requires var s := StreamOf(before, size);
             s.pending == [] && s.phase != Bad && p != [] && p[0] != 0 && !BadControl(p) && Complete(p) && Chunk(s.ctx, p, size).Some?
    ensures var s := StreamOf(before, size);
            StreamOf(before + p, size) == Sofar(Chunk(s.ctx, p, size).value.0, s.out + Chunk(s.ctx, p, size).value.1, [], Going)
  {
    hide StreamOf, Chunk, Complete;
    StreamOn(before, p, size);
    PushComplete(StreamOf(before, size), p, size);
  }

  /** A chunk that is not over. */
  lemma ChunkShort(before: seq<Byte>, p: seq<Byte>, size: nat)
    requires var s := StreamOf(before, size); s.pending == [] && s.phase != Bad && p != [] && p[0] != 0 && Short(p)
    ensures StreamOf(before + p, size).phase == Going
  {
    hide StreamOf, Chunk, Short;
    StreamOn(before, p, size);
    PushShort(StreamOf(before, size), p, size);
  }

  /** Whatever the verdict, a chunk does not end the stream. */
  lemma ChunkGoesOn(before: seq<Byte>, p: seq<Byte>, size: nat)
    requires var s := StreamOf(before, size);
             s.pending == [] && s.phase != Bad && p != [] && p[0] != 0 && !BadControl(p) && (Short(p) || Complete(p))
    ensures StreamOf(before + p, size).phase != Ended
  {
    hide StreamOf, Chunk, Short, Complete;
    StreamOn(before, p, size);
    var s := StreamOf(before, size);
    if Short(p) { PushShort(s, p, size); } else { PushComplete(s, p, size); }
  }

  /** What follows the header does not change the context. */
  lemma SetupGrows(c: Ctx, p: seq<Byte>, more: seq<Byte>)
    requires CtxOk(c) && p != [] && IsLzma(p) && |p| >= HeaderLen(p)
    ensures var q := p + more;
            && q[0] == p[0] && IsLzma(q) && HeaderLen(q) == HeaderLen(p) && Setup(c, q) == Setup(c, p)
            && InSize(q) == InSize(p) && OutSize(q) == OutSize(p)
  {
    SameHeader(p, p + more);
  }

  /** More data do not change what the chunk starts from. */
  lemma PartGrows(c: Ctx, p: seq<Byte>, more: seq<Byte>)
    requires CtxOk(c) && Started(p) && Setup(c, p).Some?
    ensures var q := p + more;
            && Started(q) && Setup(c, q) == Setup(c, p) && ChunkStart(c, q) == ChunkStart(c, p) && Target(c, q) == Target(c, p)
            && InSize(q) == InSize(p) && OutSize(q) == OutSize(p) && HeaderLen(q) == HeaderLen(p) && Data(q) == Data(p) + more
            && q[0] == p[0]
  {
    var q := p + more;
    SameHeader(p, q);
    assert Init(q) == Init(p);
    SameSetup(c, p, q);
    hide Setup, ChunkStart, Target;
    assert Data(q) == Data(p) + more;
  }

  // -------------------------------------------------------- what a control byte resets

  /** When an LZMA chunk may come, and where its decoding starts. Control bytes from
      0xE0 on start with an empty history; those from 0xC0 on with the properties given;
      those from 0xA0 on with state 0, distances 0 and even probabilities; the others
      with all that as the chunk before left it. */
  lemma ChunkStartIs(c: Ctx, p: seq<Byte>)
    requires CtxOk(c) && Started(p)
    ensures Setup(c, p).Some? <==>
              (p[0] < 0xE0 ==> !c.needDict) && (p[0] < 0xC0 ==> !c.needProps) && (p[0] >= 0xC0 ==> PropsGood(p[5]))
    ensures Setup(c, p).Some? ==>
              var m := ChunkStart(c, p);
              && m.hist == (if p[0] >= 0xE0 then [] else c.hist)
              && m.core.rc == Rc(TWO32 - 1, InitCode(Init(p)), 0)
              && m.core.probs == (if p[0] >= 0xA0 then seq(PROBS_TOTAL, _ => 1024) else c.probs)
              && (p[0] < 0xA0 ==> m.lz == c.lz)
              && (p[0] >= 0xA0 ==> m.lz.state == m.lz.rep0 == m.lz.rep1 == m.lz.rep2 == m.lz.rep3 == 0)
              && (p[0] < 0xC0 ==> m.lz.lc == c.lz.lc && m.lz.lpMask == c.lz.lpMask && m.lz.pbMask == c.lz.pbMask)
              && (p[0] >= 0xC0 ==> m.lz.lc == p[5] % 9 && m.lz.lpMask + 1 == Pow2(p[5] / 9 % 5) && m.lz.pbMask + 1 == Pow2(p[5] / 45))
  {
    hide Pow2, CtxReady, InitCode;
    assert FreshProbs() == seq(PROBS_TOTAL, _ => 1024);
  }

  /** What a whole LZMA chunk does follows from that start, its data and its declared
      size, and the next chunk gets the state in which the data end. */
  lemma ChunkFromStart(c: Ctx, p: seq<Byte>, size: nat)
    requires CtxOk(c) && p != [] && IsLzma(p) && Complete(p)
    ensures Chunk(c, p, size).Some? <==>
              Started(p) && Setup(c, p).Some? && Whole(ChunkStart(c, p), Data(p), size, |ChunkStart(c, p).hist| + OutSize(p)).Some?
    ensures Chunk(c, p, size).Some? ==>
              var m0 := ChunkStart(c, p);
              var m := Whole(m0, Data(p), size, |m0.hist| + OutSize(p)).value;
              Chunk(c, p, size).value == (Ctx(false, false, m.lz, m.core.probs, m.hist), m.hist[|m0.hist|..])
  {
    hide Setup, Whole, ChunkStart;
  }

  /** The same start, the same result. */
  lemma SameStart(c1: Ctx, c2: Ctx, p: seq<Byte>, size: nat)
    requires CtxOk(c1) && CtxOk(c2) && p != [] && IsLzma(p) && Complete(p)
    requires Started(p) ==> Setup(c1, p).Some? == Setup(c2, p).Some?
    requires Started(p) && Setup(c1, p).Some? && Setup(c2, p).Some? ==> ChunkStart(c1, p) == ChunkStart(c2, p)
    ensures Chunk(c1, p, size) == Chunk(c2, p, size)
  {
    hide Setup, Whole, ChunkStart, Chunk, Data, OutSize, Complete;
    ChunkFromStart(c1, p, size);
    ChunkFromStart(c2, p, size);
  }

  lemma SameParts(a: Machine, b: Machine)
    requires a.core == b.core && a.hist == b.hist
    requires a.lz.state == b.lz.state && a.lz.rep0 == b.lz.rep0 && a.lz.rep1 == b.lz.rep1 && a.lz.rep2 == b.lz.rep2
    requires a.lz.rep3 == b.lz.rep3 && a.lz.lc == b.lz.lc && a.lz.lpMask == b.lz.lpMask && a.lz.pbMask == b.lz.pbMask
    ensures a == b
  {}

  /** A state reset, 0xA0 to 0xBF: state, distances and probabilities from before do not
      matter. */
  lemma StateResetForgets(c1: Ctx, c2: Ctx, p: seq<Byte>, size: nat)
    requires CtxOk(c1) && CtxOk(c2) && p != [] && 0xA0 <= p[0] < 0xC0 && Complete(p)
    requires c1.needDict == c2.needDict && c1.needProps == c2.needProps && c1.hist == c2.hist
    requires c1.lz.lc == c2.lz.lc && c1.lz.lpMask == c2.lz.lpMask && c1.lz.pbMask == c2.lz.pbMask
    ensures Chunk(c1, p, size) == Chunk(c2, p, size)
  {
    hide Setup, ChunkStart, Chunk, Complete;
    if Started(p) {
      ChunkStartIs(c1, p);
      ChunkStartIs(c2, p);
      if Setup(c1, p).Some? { SameParts(ChunkStart(c1, p), ChunkStart(c2, p)); }
    }
    SameStart(c1, c2, p, size);
  }

  /** New properties, from 0xC0 on: the old ones do not matter either. */
  lemma PropsForget(c1: Ctx, c2: Ctx, p: seq<Byte>, size: nat)
    requires CtxOk(c1) && CtxOk(c2) && p != [] && p[0] >= 0xC0 && Complete(p)
    requires p[0] < 0xE0 ==> c1.needDict == c2.needDict && c1.hist == c2.hist
    ensures Chunk(c1, p, size) == Chunk(c2, p, size)
  {
    hide Setup, ChunkStart, Chunk, Complete, Pow2;
    if Started(p) {
      ChunkStartIs(c1, p);
      ChunkStartIs(c2, p);
      if Setup(c1, p).Some? { SameParts(ChunkStart(c1, p), ChunkStart(c2, p)); }
    }
    SameStart(c1, c2, p, size);
  }

  /** A dictionary reset, from 0xE0 on: nothing from before matters. */
  lemma DictResetForgets(c1: Ctx, c2: Ctx, p: seq<Byte>, size: nat)
    requires CtxOk(c1) && CtxOk(c2) && p != [] && p[0] >= 0xE0 && Complete(p)
    ensures Chunk(c1, p, size) == Chunk(c2, p, size)
  {
    hide Chunk, Complete;
    PropsForget(c1, c2, p, size);
  }

  /** Uncompressed chunks: 1 comes with a dictionary reset, after which properties are
      needed; 2 adds to the history and leaves the rest alone. */
  lemma CopyChunk(c: Ctx, p: seq<Byte>, size: nat)
    requires CtxOk(c) && p != [] && (p[0] == 1 || p[0] == 2) && Complete(p)
    ensures Chunk(c, p, size).Some? <==> p[0] == 1 || !c.needDict
    ensures Chunk(c, p, size).Some? ==>
              var (c', o) := Chunk(c, p, size).value;
              && o == p[3..] && !c'.needDict && c'.lz == c.lz && c'.probs == c.probs
              && (p[0] == 1 ==> c'.hist == p[3..] && c'.needProps)
              && (p[0] == 2 ==> c'.hist == c.hist + p[3..] && c'.needProps == c.needProps)
  {
    assert [] + p[3..] == p[3..];
  }
}
