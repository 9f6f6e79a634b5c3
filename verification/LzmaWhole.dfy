/** A whole LZMA chunk decoded in one piece, and what condemns a chunk before all
    of it is there. */
module LzmaWhole {
  import opened Common
  import opened LzmaRange
  import opened LzmaSymbol
  import opened LzmaBound
  import opened LzmaDict
  import opened LzmaMachine
  import opened LzmaLocal
  import opened LzmaChunk

  /** Symbols until the history has `target` bytes. */
  function DecodeTo(m: Machine, inp: seq<Byte>, size: nat, target: nat): (r: Option<Machine>)
    requires MachineOk(m)
    ensures r.Some? ==> MachineOk(r.value) && m.hist <= r.value.hist && target <= |r.value.hist|
    decreases if |m.hist| < target then target - |m.hist| else 0
  {
    if target <= |m.hist| then Some(m)
    else
      match Step(m, inp, size)
      case None => None
      case Some(n) => DecodeTo(n, inp, size, target)
  }

  /** Exactly the declared bytes were made, all data taken, and the code is 0. */
  predicate Fits(m: Machine, data: seq<Byte>, target: nat) {
    var e := LzmaMachine.Ahead(m, data);
    |m.hist| == target && e.core.rc.pos == |data| && e.core.rc.code == 0
  }

  /** What the data of a chunk decode to, if they are correct. */
  function Whole(m0: Machine, data: seq<Byte>, size: nat, target: nat): (r: Option<Machine>)
    requires MachineOk(m0)
    ensures r.Some? ==> MachineOk(r.value) && m0.hist <= r.value.hist && |r.value.hist| == target
  {
    var r := DecodeTo(m0, data, size, target);
    if r.Some? && Fits(r.value, data, target) then r else None
  }

  /** Whatever the chunk data of length n are that begin like `known`, or that
      `known` begins with, they are not correct. */
  ghost predicate Fails(m0: Machine, known: seq<Byte>, n: nat, size: nat, target: nat) {
    MachineOk(m0) && forall d: seq<Byte> :: |d| == n && (known <= d || d <= known) ==> Whole(m0, d, size, target) == None
  }

  // ------------------------------------------------------------- symbols and wholes

  /** The target was not reached before the last of the steps. */
  ghost predicate Below(m: Machine, inp: seq<Byte>, size: nat, steps: nat, target: nat)
    requires MachineOk(m)
  {
    steps > 0 ==> Steps(m, inp, size, steps - 1).Some? && |Steps(m, inp, size, steps - 1).value.hist| < target
  }

  lemma {:induction false} StepsPrefix(m: Machine, inp: seq<Byte>, size: nat, a: nat, b: nat)
    requires MachineOk(m) && a <= b && Steps(m, inp, size, b).Some?
    ensures Steps(m, inp, size, a).Some? && Steps(m, inp, size, a).value.hist <= Steps(m, inp, size, b).value.hist
    decreases b
  {
    hide Step, MachineOk;
    if a < b { StepsPrefix(m, inp, size, a, b - 1); }
  }

  lemma {:induction false} BelowEarlier(m: Machine, inp: seq<Byte>, size: nat, a: nat, b: nat, target: nat)
    requires MachineOk(m) && a <= b && Below(m, inp, size, b, target)
    ensures Below(m, inp, size, a, target)
  {
    hide Step, MachineOk;
    if 0 < a { StepsPrefix(m, inp, size, a - 1, b - 1); }
  }

  /** Decoding to the target goes through every state before it. */
  lemma {:induction false} ThroughSteps(m: Machine, inp: seq<Byte>, size: nat, target: nat, k: nat)
    requires MachineOk(m) && Below(m, inp, size, k, target)
    ensures Steps(m, inp, size, k).Some? ==> DecodeTo(m, inp, size, target) == DecodeTo(Steps(m, inp, size, k).value, inp, size, target)
    ensures Steps(m, inp, size, k).None? ==> DecodeTo(m, inp, size, target) == None
  {
    hide Step, MachineOk;
    if k > 0 {
      BelowEarlier(m, inp, size, k - 1, k, target);
      ThroughSteps(m, inp, size, target, k - 1);
    }
  }

  /** Input is never given back, also counting the byte of a pending normalisation. */
  lemma AheadMono(m: Machine, inp: seq<Byte>, size: nat)
    requires MachineOk(m) && Step(m, inp, size).Some?
    ensures LzmaMachine.Ahead(m, inp).core.rc.pos <= LzmaMachine.Ahead(Step(m, inp, size).value, inp).core.rc.pos
  {
    hide Step, MachineOk;
    StepNormalized(m, inp, size);
    StepAdvances(LzmaMachine.Ahead(m, inp), inp, size);
    AheadPos(Step(m, inp, size).value, inp);
  }

  lemma {:induction false} DecodeToMono(m: Machine, inp: seq<Byte>, size: nat, target: nat)
    requires MachineOk(m) && DecodeTo(m, inp, size, target).Some?
    ensures LzmaMachine.Ahead(m, inp).core.rc.pos <= LzmaMachine.Ahead(DecodeTo(m, inp, size, target).value, inp).core.rc.pos
    decreases if |m.hist| < target then target - |m.hist| else 0
  {
    hide MachineOk, Ahead;
    if |m.hist| < target {
      AheadMono(m, inp, size);
      DecodeToMono(Step(m, inp, size).value, inp, size, target);
    }
  }

  /** A state that has taken more than all the data: not correct. */
  lemma Overrun(m0: Machine, d: seq<Byte>, size: nat, target: nat, k: nat)
    requires MachineOk(m0) && Below(m0, d, size, k, target)
    requires Steps(m0, d, size, k).Some? ==> LzmaMachine.Ahead(Steps(m0, d, size, k).value, d).core.rc.pos > |d|
    ensures Whole(m0, d, size, target) == None
  {
    hide Step, MachineOk, Ahead, Below;
    ThroughSteps(m0, d, size, target, k);
    if Steps(m0, d, size, k).Some? && DecodeTo(m0, d, size, target).Some? {
      DecodeToMono(Steps(m0, d, size, k).value, d, size, target);
    }
  }

  // ------------------------------------------------------------------ two buffers

  lemma SymbolMax(m: Machine, inp: seq<Byte>, size: nat)
    requires MachineOk(m) && Step(m, inp, size).Some?
    ensures Step(m, inp, size).value.core.rc.pos <= m.core.rc.pos + MAX_SYMBOL_BYTES
  {
    hide Symbol;
    SymbolTakesAtMost20(m.core, m.lz, inp, m.hist);
  }

  /** Two buffers read alike for a bytes. A symbol either takes no more than those
      and is the same from both, or takes more from d, if it is one at all. */
  lemma StepEither(n: Machine, d: seq<Byte>, size: nat, buf: seq<Byte>, p: nat, a: nat)
    requires MachineOk(n) && Same(d, n.core.rc.pos, buf, p, a)
    ensures MachineOk(ShiftM(n, p))
    ensures var r, b := Step(n, d, size), Step(ShiftM(n, p), buf, size);
            || (r.Some? && n.core.rc.pos <= r.value.core.rc.pos <= n.core.rc.pos + a &&
                b == Some(ShiftM(r.value, p + (r.value.core.rc.pos - n.core.rc.pos))))
            || r.None?
            || r.value.core.rc.pos > n.core.rc.pos + a
  {
    hide Symbol, Same, CopyFrom;
    ShiftOk(n, p);
    var r := Step(n, d, size);
    if r.Some? {
      StepAdvances(n, d, size);
      var c := r.value.core.rc.pos - n.core.rc.pos;
      if c <= a {
        SamePart(d, n.core.rc.pos, buf, p, a, 0, c);
        StepLocal(n, d, size, buf, p);
      }
    }
  }

  /** d is stuck after i symbols: no further symbol, or one that goes past `end`. */
  ghost predicate Stuck(n: Machine, d: seq<Byte>, size: nat, end: nat, i: nat)
    requires MachineOk(n)
  {
    && i > 0 && Steps(n, d, size, i - 1).Some?
    && (Steps(n, d, size, i).Some? ==> Steps(n, d, size, i).value.core.rc.pos > end)
  }

  /** k symbols are the same from both buffers, within the a bytes. */
  ghost predicate Alike(n: Machine, d: seq<Byte>, size: nat, buf: seq<Byte>, p: nat, a: nat, k: nat)
    requires MachineOk(n)
  {
    && MachineOk(ShiftM(n, p)) && Steps(n, d, size, k).Some?
    && var r := Steps(n, d, size, k).value;
       && n.core.rc.pos <= r.core.rc.pos <= n.core.rc.pos + a
       && Steps(ShiftM(n, p), buf, size, k) == Some(ShiftM(r, p + (r.core.rc.pos - n.core.rc.pos)))
  }

  /** Of k symbols, all are alike, or all up to one where d is stuck. */
  lemma {:induction false} StepsEither(n: Machine, d: seq<Byte>, size: nat, buf: seq<Byte>, p: nat, a: nat, k: nat) returns (i: nat)
    requires MachineOk(n) && Same(d, n.core.rc.pos, buf, p, a)
    ensures i <= k && Alike(n, d, size, buf, p, a, i)
    ensures i < k ==> Stuck(n, d, size, n.core.rc.pos + a, i + 1)
  {
    hide Step, Same, MachineOk;
    ShiftOk(n, p);
    if k == 0 {
      i := 0;
    } else {
      i := StepsEither(n, d, size, buf, p, a, k - 1);
      if i == k - 1 {
        var r := Steps(n, d, size, i).value;
        var c := r.core.rc.pos - n.core.rc.pos;
        SamePart(d, n.core.rc.pos, buf, p, a, c, a - c);
        StepEither(r, d, size, buf, p + c, a - c);
        assert ShiftM(ShiftM(n, p), p + c) == ShiftM(n, p + c);
        if AlikeNext(r, d, size, a - c) {
          i := k;
        }
      }
    }
  }

  predicate AlikeNext(r: Machine, d: seq<Byte>, size: nat, a: nat)
    requires MachineOk(r)
  {
    Step(r, d, size).Some? && Step(r, d, size).value.core.rc.pos <= r.core.rc.pos + a
  }

  // ---------------------------------------------------------------------- verdicts

  /** More data does not change the symbols that needed none of them. */
  lemma StepsLonger(m0: Machine, data: seq<Byte>, size: nat, j: nat, more: seq<Byte>)
    requires MachineOk(m0) && m0.core.rc.pos == 0 && Steps(m0, data, size, j).Some?
    requires Steps(m0, data, size, j).value.core.rc.pos <= |data|
    ensures Steps(m0, data + more, size, j) == Steps(m0, data, size, j)
  {
    hide Step, MachineOk;
    var v := Steps(m0, data, size, j).value;
    StepsAdvance(m0, data, size, j);
    assert Same(data, 0, data + more, 0, v.core.rc.pos);
    StepsLocal(m0, data, size, j, data + more, 0);
    ShiftSame(m0);
    ShiftSame(v);
  }

  lemma {:induction false} StepsPos(m: Machine, inp: seq<Byte>, size: nat, a: nat, b: nat)
    requires MachineOk(m) && a <= b && Steps(m, inp, size, b).Some?
    ensures Steps(m, inp, size, a).Some? && Steps(m, inp, size, a).value.core.rc.pos <= Steps(m, inp, size, b).value.core.rc.pos
    decreases b
  {
    hide Step, MachineOk;
    if a < b {
      StepsPos(m, inp, size, a, b - 1);
      StepAdvances(Steps(m, inp, size, b - 1).value, inp, size);
    }
  }

  /** Longer data d have decoded alike so far. */
  lemma DecodedIn(m0: Machine, data: seq<Byte>, size: nat, steps: nat, m: Machine, d: seq<Byte>, target: nat)
    requires Decoded(m0, data, size, steps, m) && Below(m0, data, size, steps, target) && data <= d
    ensures Steps(m0, d, size, steps).Some? && LzmaMachine.Ahead(Steps(m0, d, size, steps).value, d) == m
    ensures Below(m0, d, size, steps, target)
  {
    hide Step, MachineOk;
    var more := d[|data|..];
    assert d == data + more;
    DecodedLonger(m0, data, size, steps, m, more);
    if steps > 0 {
      AheadPos(Steps(m0, data, size, steps).value, data);
      StepsPos(m0, data, size, steps - 1, steps);
      StepsLonger(m0, data, size, steps - 1, more);
    }
  }

  /** When the declared bytes are made, the chunk is over: it is correct if and only
      if there are no bytes too many, no data left, and the code is 0. */
  lemma EndOfChunk(m0: Machine, data: seq<Byte>, size: nat, steps: nat, m: Machine, d: seq<Byte>, target: nat)
    requires Decoded(m0, data, size, steps, m) && Below(m0, data, size, steps, target) && data <= d && target <= |m.hist|
    ensures if |m.hist| == target && data == d && m.core.rc.code == 0
            then Whole(m0, d, size, target) == Steps(m0, d, size, steps)
            else Whole(m0, d, size, target) == None
    ensures Steps(m0, d, size, steps).Some? && LzmaMachine.Ahead(Steps(m0, d, size, steps).value, d) == m
  {
    hide Step, MachineOk, Below;
    DecodedIn(m0, data, size, steps, m, d, target);
    ThroughSteps(m0, d, size, target, steps);
  }

  /** Steps from the normalised state m are steps of the chunk. */
  lemma StepsOn(m0: Machine, d: seq<Byte>, size: nat, steps: nat, m: Machine, j: nat)
    requires MachineOk(m0) && MachineOk(m) && Steps(m0, d, size, steps).Some? && LzmaMachine.Ahead(Steps(m0, d, size, steps).value, d) == m
    ensures j > 0 ==> Steps(m0, d, size, steps + j) == Steps(m, d, size, j)
    ensures Steps(m0, d, size, steps).value.hist == m.hist
  {
    hide Step, MachineOk;
    var v := Steps(m0, d, size, steps).value;
    if j > 0 {
      StepsCompose(m0, d, size, steps, j);
      StepsNormalized(v, d, size, j);
    }
  }

  /** The bound on the target carries over from the buffer to the chunk. */
  lemma BelowOn(m0: Machine, d: seq<Byte>, size: nat, steps: nat, m: Machine, buf: seq<Byte>, p: nat, a: nat, i: nat, k: nat, target: nat)
    requires MachineOk(m0) && MachineOk(m) && Steps(m0, d, size, steps).Some? && LzmaMachine.Ahead(Steps(m0, d, size, steps).value, d) == m
    requires MachineOk(ShiftM(m, p)) && Below(ShiftM(m, p), buf, size, k, target) && i < k
    requires Alike(m, d, size, buf, p, a, i)
    ensures Below(m0, d, size, steps + i + 1, target)
  {
    hide Step, MachineOk;
    StepsOn(m0, d, size, steps, m, i);
    StepsPrefix(ShiftM(m, p), buf, size, i, k - 1);
  }

  /** lzma_main on buf, which holds the next a bytes of the chunk at p, fails, or
      takes more than those when they are the rest of the chunk. */
  ghost predicate Overtaxed(m: Machine, buf: seq<Byte>, size: nat, p: nat, a: nat, rest: nat, k: nat)
    requires MachineOk(ShiftM(m, p))
  {
    var r := Steps(ShiftM(m, p), buf, size, k);
    && k > 0 && Steps(ShiftM(m, p), buf, size, k - 1).Some? && a <= rest
    && (r.Some? ==> LzmaMachine.Ahead(r.value, buf).core.rc.pos > p + a)
    && (a < rest ==> r.None? && Steps(ShiftM(m, p), buf, size, k - 1).value.core.rc.pos + MAX_SYMBOL_BYTES <= p + a)
  }

  /** Then no chunk that begins with the bytes known is correct. */
  lemma Condemned(m0: Machine, data: seq<Byte>, size: nat, steps: nat, m: Machine,
                  buf: seq<Byte>, p: nat, a: nat, k: nat, d: seq<Byte>, target: nat)
    requires Decoded(m0, data, size, steps, m) && Below(m0, data, size, steps, target) && MachineOk(m)
    requires p + a <= |buf| && |data| + a <= |d| && data + buf[p..p + a] <= d
    requires MachineOk(ShiftM(m, p)) && Below(ShiftM(m, p), buf, size, k, target)
    requires Overtaxed(m, buf, size, p, a, |d| - |data|, k)
    ensures Whole(m0, d, size, target) == None
  {
    hide Step, MachineOk, Below, Decoded;
    var known := data + buf[p..p + a];
    DecodedPos(m0, data, size, steps, m);
    assert data <= d by { assert known[..|data|] == data && d[..|known|] == known; }
    DecodedIn(m0, data, size, steps, m, d, target);
    SameBytes(data, buf, p, a, d);
    var i := StepsEither(m, d, size, buf, p, a, k);
    if i < k {
      BelowOn(m0, d, size, steps, m, buf, p, a, i, k, target);
      StuckFails(m0, data, d, size, steps, m, buf, p, a, i, k, target);
    } else {
      BelowAll(m0, d, size, steps, m, buf, p, a, k, target);
      AlikeFails(m0, data, d, size, steps, m, buf, p, a, k, target);
    }
  }

  lemma DecodedPos(m0: Machine, data: seq<Byte>, size: nat, steps: nat, m: Machine)
    requires Decoded(m0, data, size, steps, m)
    ensures m.core.rc.pos == |data| && MachineOk(m0)
  {}

  lemma SameBytes(data: seq<Byte>, buf: seq<Byte>, p: nat, a: nat, d: seq<Byte>)
    requires p + a <= |buf| && data + buf[p..p + a] <= d
    ensures Same(d, |data|, buf, p, a)
  {
    var known := data + buf[p..p + a];
    forall j | |data| <= j < |data| + a ensures ByteAt(d, j) == ByteAt(buf, p + (j - |data|)) {
      assert d[..|known|][j] == known[j];
    }
  }

  lemma BelowAll(m0: Machine, d: seq<Byte>, size: nat, steps: nat, m: Machine, buf: seq<Byte>, p: nat, a: nat, k: nat, target: nat)
    requires MachineOk(m0) && MachineOk(m) && Steps(m0, d, size, steps).Some? && LzmaMachine.Ahead(Steps(m0, d, size, steps).value, d) == m
    requires MachineOk(ShiftM(m, p)) && Below(ShiftM(m, p), buf, size, k, target) && k > 0
    requires Same(d, m.core.rc.pos, buf, p, a) && Alike(m, d, size, buf, p, a, k)
    ensures Below(m0, d, size, steps + k, target)
  {
    hide Step, MachineOk, Same;
    var i := StepsEither(m, d, size, buf, p, a, k - 1);
    if i < k - 1 {
      StepsPos(m, d, size, i + 1, k);
    }
    BelowOn(m0, d, size, steps, m, buf, p, a, k - 1, k, target);
  }

  lemma StuckFails(m0: Machine, data: seq<Byte>, d: seq<Byte>, size: nat, steps: nat, m: Machine,
                   buf: seq<Byte>, p: nat, a: nat, i: nat, k: nat, target: nat)
    requires MachineOk(m0) && MachineOk(m) && Steps(m0, d, size, steps).Some? && LzmaMachine.Ahead(Steps(m0, d, size, steps).value, d) == m
    requires m.core.rc.pos == |data| && |data| + a <= |d| && i < k && Alike(m, d, size, buf, p, a, i) &&
             Stuck(m, d, size, |data| + a, i + 1)
    requires MachineOk(ShiftM(m, p)) && Overtaxed(m, buf, size, p, a, |d| - |data|, k)
    requires Below(m0, d, size, steps + i + 1, target)
    ensures Whole(m0, d, size, target) == None
  {
    hide Step, MachineOk, Below;
    StepsOn(m0, d, size, steps, m, i + 1);
    var r := Steps(m, d, size, i + 1);
    if r.Some? {
      AheadPos(r.value, d);
      if a < |d| - |data| {
        StepsPos(ShiftM(m, p), buf, size, i, k - 1);
        SymbolMax(Steps(m, d, size, i).value, d, size);
        assert false;
      }
    }
    Overrun(m0, d, size, target, steps + (i + 1));
  }

  lemma AlikeFails(m0: Machine, data: seq<Byte>, d: seq<Byte>, size: nat, steps: nat, m: Machine,
                   buf: seq<Byte>, p: nat, a: nat, k: nat, target: nat)
    requires MachineOk(m0) && MachineOk(m) && Steps(m0, d, size, steps).Some? && LzmaMachine.Ahead(Steps(m0, d, size, steps).value, d) == m
    requires m.core.rc.pos == |data| && |data| + a <= |d| && k > 0 && Alike(m, d, size, buf, p, a, k)
    requires MachineOk(ShiftM(m, p)) && Overtaxed(m, buf, size, p, a, |d| - |data|, k)
    requires Below(m0, d, size, steps + k, target)
    ensures Whole(m0, d, size, target) == None
  {
    hide Step, MachineOk, Below;
    StepsOn(m0, d, size, steps, m, k);
    var r := Steps(m, d, size, k).value;
    var b := Steps(ShiftM(m, p), buf, size, k).value;
    AheadPos(b, buf);
    AheadPos(r, d);
    Overrun(m0, d, size, target, steps + k);
  }

  /** No chunk data of length n that begin with the bytes known are correct. */
  ghost predicate FailsFor(m0: Machine, known: seq<Byte>, n: nat, size: nat, target: nat) {
    MachineOk(m0) && forall d: seq<Byte> :: |d| == n && known <= d ==> Whole(m0, d, size, target) == None
  }

  lemma FailsMore(m0: Machine, known: seq<Byte>, n: nat, size: nat, target: nat, more: seq<Byte>)
    requires FailsFor(m0, known, n, size, target) && known <= more && |known| <= n
    ensures Fails(m0, more, n, size, target)
  {
    hide Whole, MachineOk;
    forall d: seq<Byte> | |d| == n && (more <= d || d <= more) ensures Whole(m0, d, size, target) == None {
      assert known <= d by {
        if more <= d { assert d[..|known|] == more[..|known|]; } else { assert d[..|known|] == more[..|d|][..|known|]; }
      }
    }
  }

  /** A failed call condemns the chunk. */
  lemma CallFails(m0: Machine, data: seq<Byte>, size: nat, steps: nat, m: Machine,
                  buf: seq<Byte>, p: nat, a: nat, k: nat, n: nat, target: nat)
    requires Decoded(m0, data, size, steps, m) && Below(m0, data, size, steps, target) && MachineOk(m)
    requires p + a <= |buf| && |data| + a <= n
    requires MachineOk(ShiftM(m, p)) && Below(ShiftM(m, p), buf, size, k, target)
    requires Overtaxed(m, buf, size, p, a, n - |data|, k)
    ensures FailsFor(m0, data + buf[p..p + a], n, size, target)
  {
    hide Whole, MachineOk, Decoded, Below, Overtaxed;
    DecodedPos(m0, data, size, steps, m);
    forall d: seq<Byte> | |d| == n && data + buf[p..p + a] <= d ensures Whole(m0, d, size, target) == None {
      Condemned(m0, data, size, steps, m, buf, p, a, k, d, target);
    }
  }

  /** A call that succeeds still has not gone past the target before its last symbol. */
  lemma BelowKept(m0: Machine, data: seq<Byte>, size: nat, steps: nat, m: Machine,
                  buf: seq<Byte>, p: nat, used: nat, k: nat, m': Machine, target: nat)
    requires Decoded(m0, data, size, steps, m) && Below(m0, data, size, steps, target) && MachineOk(m)
    requires p + used <= |buf| && MachineOk(ShiftM(m, p)) && Below(ShiftM(m, p), buf, size, k, target)
    requires Decoded(m0, data + buf[p..p + used], size, steps + k, m')
    requires k == 0 ==> used == 0
    ensures Below(m0, data + buf[p..p + used], size, steps + k, target)
  {
    hide Step, MachineOk, Below, Decoded;
    var d := data + buf[p..p + used];
    if k == 0 {
      assert d == data;
    } else {
      DecodedPos(m0, data, size, steps, m);
      DecodedIn(m0, data, size, steps, m, d, target);
      SameBytes(data, buf, p, used, d);
      var i := StepsEither(m, d, size, buf, p, used, k);
      if i < k {
        StepsOn(m0, d, size, steps, m, i + 1);
        EndPos(m0, d, size, steps + k, m');
        StepsPos(m0, d, size, steps + (i + 1), steps + k);
        assert false;
      }
      BelowAll(m0, d, size, steps, m, buf, p, used, k, target);
    }
  }

  lemma EndPos(m0: Machine, d: seq<Byte>, size: nat, steps: nat, m: Machine)
    requires Decoded(m0, d, size, steps, m)
    ensures MachineOk(m0) && Steps(m0, d, size, steps).Some? && Steps(m0, d, size, steps).value.core.rc.pos <= |d|
  {
    AheadPos(Steps(m0, d, size, steps).value, d);
  }
}
