/** One LZMA chunk: lzma2_lzma feeds the decoder from the caller's buffer or,
    around the ends of that buffer, from a 63-byte temporary one. */
module LzmaChunk {
  import opened Common
  import opened LzmaRange
  import opened LzmaMachine
  import opened LzmaLocal

  const IN_REQUIRED := 21

  /** From m0, decoding `steps` symbols of `data` and normalising leads to m and
      takes all of data. */
  ghost predicate Decoded(m0: Machine, data: seq<Byte>, size: nat, steps: nat, m: Machine) {
    && MachineOk(m0) && m0.core.rc.pos == 0 && m0.core.rc.range >= TOP
    && var r := Steps(m0, data, size, steps);
       r.Some? && m == LzmaMachine.Ahead(r.value, data) && m.core.rc.pos == |data|
  }

  lemma DecodedStart(m0: Machine, size: nat)
    requires MachineOk(m0) && m0.core.rc.pos == 0 && m0.core.rc.range >= TOP
    ensures Decoded(m0, [], size, 0, m0)
  {}

  lemma AheadPos(m: Machine, inp: seq<Byte>)
    ensures m.core.rc.pos <= LzmaMachine.Ahead(m, inp).core.rc.pos <= m.core.rc.pos + 1
    ensures m.core.rc.range < TOP ==> LzmaMachine.Ahead(m, inp).core.rc.pos == m.core.rc.pos + 1
  {}

  lemma AheadLocal(m: Machine, inp: seq<Byte>, inq: seq<Byte>, q: nat)
    requires Same(inp, m.core.rc.pos, inq, q, LzmaMachine.Ahead(m, inp).core.rc.pos - m.core.rc.pos)
    ensures var m' := LzmaMachine.Ahead(m, inp);
            LzmaMachine.Ahead(ShiftM(m, q), inq) == ShiftM(m', q + (m'.core.rc.pos - m.core.rc.pos))
  {
    if m.core.rc.range < TOP {
      assert ByteAt(inp, m.core.rc.pos) == ByteAt(inq, q);
    }
  }

  lemma ShiftSame(m: Machine)
    ensures ShiftM(m, m.core.rc.pos) == m
  {}

  /** More input does not change what was decoded. */
  lemma DecodedLonger(m0: Machine, data: seq<Byte>, size: nat, steps: nat, m: Machine, more: seq<Byte>)
    requires Decoded(m0, data, size, steps, m)
    ensures Steps(m0, data + more, size, steps) == Steps(m0, data, size, steps)
    ensures LzmaMachine.Ahead(Steps(m0, data, size, steps).value, data + more) == m
  {
    hide Step, MachineOk, Normalize;
    var v := Steps(m0, data, size, steps).value;
    StepsAdvance(m0, data, size, steps);
    AheadPos(v, data);
    assert Same(data, 0, data + more, 0, v.core.rc.pos);
    StepsLocal(m0, data, size, steps, data + more, 0);
    ShiftSame(m0);
    ShiftSame(v);
    assert Same(data, v.core.rc.pos, data + more, v.core.rc.pos, |data| - v.core.rc.pos);
    AheadLocal(v, data, data + more, v.core.rc.pos);
    ShiftSame(m);
  }

  /** A call of lzma_main on any buffer that holds the next bytes of the chunk
      continues the decoding of the chunk. */
  lemma DecodedOn(m0: Machine, data: seq<Byte>, size: nat, steps: nat, m: Machine,
                  inp: seq<Byte>, p: nat, k: nat, m': Machine)
    requires Decoded(m0, data, size, steps, m) && MachineOk(m) && m.core.rc.range >= TOP
    requires MachineOk(ShiftM(m, p)) && Steps(ShiftM(m, p), inp, size, k).Some?
    requires m' == LzmaMachine.Ahead(Steps(ShiftM(m, p), inp, size, k).value, inp)
    requires p <= m'.core.rc.pos <= |inp|
    ensures Decoded(m0, data + inp[p..m'.core.rc.pos], size, steps + k, ShiftM(m', |data| + (m'.core.rc.pos - p)))
  {
    hide Step, MachineOk, Normalize;
    var more := inp[p..m'.core.rc.pos];
    var all := data + more;
    DecodedLonger(m0, data, size, steps, m, more);
    var v := Steps(m0, data, size, steps).value;
    var r := Steps(ShiftM(m, p), inp, size, k).value;
    StepsAdvance(ShiftM(m, p), inp, size, k);
    AheadPos(r, inp);
    if k == 0 {
      DecodedIdle(m, inp, p);
      assert all == data;
      ShiftSame(m);
    } else {
      assert Same(inp, p, all, |data|, r.core.rc.pos - p);
      StepsLocal(ShiftM(m, p), inp, size, k, all, |data|);
      ShiftSame(m);
      assert ShiftM(ShiftM(m, p), |data|) == m;
      StepsNormalized(v, all, size, k);
      StepsCompose(m0, all, size, steps, k);
      var q := |data| + (r.core.rc.pos - p);
      assert Same(inp, r.core.rc.pos, all, q, m'.core.rc.pos - r.core.rc.pos);
      AheadLocal(r, inp, all, q);
    }
  }

  lemma DecodedIdle(m: Machine, inp: seq<Byte>, p: nat)
    requires m.core.rc.range >= TOP
    ensures LzmaMachine.Ahead(ShiftM(m, p), inp) == ShiftM(m, p)
  {}
}
