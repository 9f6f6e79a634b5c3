/** The LZMA decoder without buffers: symbol by symbol on an unbounded history. */
module LzmaMachine {
  import opened Common
  import opened LzmaRange
  import opened LzmaSymbol
  import opened LzmaDict

  datatype Machine = Machine(core: Core, lz: Lz, hist: seq<Byte>)

  /** A symbol other than a literal came last only after a valid copy. */
  predicate MachineOk(m: Machine) {
    CoreOk(m.core) && LzOk(m.lz) && (!IsLiteralState(m.lz.state) ==> m.lz.rep0 < |m.hist|)
  }

  /** Decodes one symbol; None if it refers behind the dictionary. */
  function Step(m: Machine, inp: seq<Byte>, size: nat): (r: Option<Machine>)
    requires MachineOk(m)
    ensures r.Some? ==> MachineOk(r.value) && m.hist < r.value.hist
  {
    var (c, lz, sym) := Symbol(m.core, m.lz, inp, m.hist);
    match sym
    case Lit(b) => Some(Machine(c, lz, m.hist + [b]))
    case Copy(n) =>
      if lz.rep0 < Min(|m.hist|, size) then
        CopyMeans(m.hist, lz.rep0, n);
        Some(Machine(c, lz, CopyFrom(m.hist, lz.rep0, n)))
      else None
  }

  function Steps(m: Machine, inp: seq<Byte>, size: nat, k: nat): (r: Option<Machine>)
    requires MachineOk(m)
    ensures r.Some? ==> MachineOk(r.value) && m.hist <= r.value.hist
  {
    if k == 0 then Some(m)
    else
      match Steps(m, inp, size, k - 1)
      case None => None
      case Some(n) => Step(n, inp, size)
  }

  /** Every bit starts by normalising, so normalising ahead of time changes nothing. */
  lemma StepNormalized(m: Machine, inp: seq<Byte>, size: nat)
    requires MachineOk(m)
    ensures MachineOk(Ahead(m, inp)) && Step(Ahead(m, inp), inp, size) == Step(m, inp, size)
  {
    NormalizeRestores(m.core.rc, inp);
    var posState := PosState(m.lz, |m.hist|);
    var i := IS_MATCH + 16 * m.lz.state + posState;
    assert Bit(Ahead(m, inp).core, inp, i) == Bit(m.core, inp, i) by { BitNormalized(m.core, inp, i); }
    hide Bit, Normalize;
  }

  lemma BitNormalized(c: Core, inp: seq<Byte>, i: nat)
    requires CoreOk(c) && i < PROBS_TOTAL
    ensures CoreOk(c.(rc := Normalize(c.rc, inp))) && Bit(c.(rc := Normalize(c.rc, inp)), inp, i) == Bit(c, inp, i)
  {
    NormalizeRestores(c.rc, inp);
  }

  /** The closing rc_normalize of lzma_main. */
  function Ahead(m: Machine, inp: seq<Byte>): Machine {
    m.(core := m.core.(rc := Normalize(m.core.rc, inp)))
  }
}
