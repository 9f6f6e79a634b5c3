/** xz_dec_lzma2_run: the LZMA2 control layer over calls with buffers of any size. */
module Lzma2Stream {
  import opened Common
  import opened LzmaRange
  import opened LzmaSymbol
  import opened LzmaDict
  import opened LzmaMachine
  import opened LzmaLocal
  import opened LzmaDecoder
  import opened LzmaChunk
  import opened LzmaWhole
  import opened Lzma2
  import opened Lzma2Spec

  datatype Sequence =
    | Control | Uncompressed1 | Uncompressed2 | Compressed0 | Compressed1
    | Properties | LzmaPrepare | LzmaRun | CopyRun

  datatype Ret = XzOk | XzStreamEnd | XzDataError

  /** 4 KiB to 3 GiB, as the dictionary size byte says. */
  function DictSize(props: nat): nat {
    (2 + props % 2) * Pow2(props / 2 + 11)
  }

  lemma DictSizeOk(props: nat)
    ensures DictSize(props) >= 4096 && DictSize(props) % 16 == 0
  {
    hide Pow2;
    Pow2At11(props / 2);
    var k := Pow2(props / 2);
    if props % 2 == 0 {
      assert DictSize(props) == 2 * (2048 * k) == 16 * (256 * k);
    } else {
      assert DictSize(props) == 3 * (2048 * k) == 16 * (384 * k);
    }
  }

  lemma {:induction false} Pow2At11(n: nat)
    ensures Pow2(n + 11) == 2048 * Pow2(n)
  {
    if n > 0 {
      Pow2At11(n - 1);
    } else {
      assert Pow2(8) == 256;
      assert Pow2(10) == 4 * Pow2(8);
    }
  }

  lemma StreamNone(size: nat)
    ensures StreamOf([], size) == Sofar(CTX0, [], [], Going)
  {}

  // -------------------------------------------------------- where in a chunk we are

  /** What the control byte leads to. */
  function NextOf(control: Byte): Sequence {
    if control >= 0xC0 then Properties else if control >= 0x80 then LzmaPrepare else CopyRun
  }

  predicate InHeader(sequence: Sequence) {
    sequence in {Uncompressed1, Uncompressed2, Compressed0, Compressed1}
  }

  function High(b: Byte): nat {
    var n: nat := b;
    n * 256
  }

  function Large(control: Byte): nat {
    var n: nat := control;
    (n % 32) * 65536
  }

  /** The sequence state and the sizes are those of the bytes p of the chunk. */
  ghost predicate HeaderOk(sequence: Sequence, next: Sequence, p: seq<Byte>, uncompressed: nat, compressed: nat, initLeft: nat) {
    && (sequence == Control <==> p == [])
    && (p != [] ==> p[0] != 0 && !BadControl(p))
    && (InHeader(sequence) ==> next == NextOf(p[0]))
    && match sequence
       case Control => true
       case Uncompressed1 => |p| == 1 && IsLzma(p) && uncompressed == Large(p[0])
       case Uncompressed2 => |p| == 2 && IsLzma(p) && uncompressed == Large(p[0]) + High(p[1])
       case Compressed0 => if IsLzma(p) then |p| == 3 && uncompressed == OutSize(p) else |p| == 1
       case Compressed1 =>
         if IsLzma(p) then |p| == 4 && uncompressed == OutSize(p) && compressed == High(p[3]) else |p| == 2 && compressed == High(p[1])
       case Properties => |p| == 5 && HasProps(p) && uncompressed == OutSize(p) && compressed == InSize(p)
       case LzmaPrepare =>
         && IsLzma(p) && initLeft <= RC_INIT_BYTES && |p| == HeaderLen(p) + RC_INIT_BYTES - initLeft
         && uncompressed == OutSize(p) && compressed == InSize(p) && (initLeft < RC_INIT_BYTES ==> RC_INIT_BYTES <= compressed)
       case LzmaRun => Started(p) && RC_INIT_BYTES <= InSize(p)
       case CopyRun => !IsLzma(p) && |p| >= 3
  }

  /** The state, the distances and the probabilities are not in use: properties come
      first, and with them a state reset. */
  predicate Stale(sequence: Sequence, next: Sequence, needProps: bool) {
    needProps || sequence == Properties || (InHeader(sequence) && next == Properties)
  }

  /** Everything added to the caller's buffer was added to the total. */
  ghost predicate Emitted(b: XzBuf, outPos: nat, out: seq<Byte>, total0: seq<Byte>, total: seq<Byte>)
    reads b, b.out
  {
    && outPos <= b.outPos <= b.out.Length
    && |total0| <= |total| && total[..|total0|] == total0
    && b.out[..b.outPos] == out + total[|total0|..]
  }

  ghost predicate SizeStep(s: Sequence, next: Sequence, u: nat, c: nat, byte: Byte, s': Sequence, u': nat, c': nat) {
    match s
    case Uncompressed1 => s' == Uncompressed2 && u' == u + High(byte) && c' == c
    case Uncompressed2 => s' == Compressed0 && u' == u + byte as nat + 1 && c' == c
    case Compressed0 => s' == Compressed1 && u' == u && c' == High(byte)
    case Compressed1 => s' == next && u' == u && c' == c + byte as nat + 1
    case _ => false
  }

  /** One more byte of the sizes. */
  lemma HeaderGrows(s: Sequence, next: Sequence, p: seq<Byte>, u: nat, c: nat, initLeft: nat, byte: Byte, s': Sequence, u': nat, c': nat)
    requires InHeader(s) && HeaderOk(s, next, p, u, c, initLeft) && (next == LzmaPrepare ==> initLeft == RC_INIT_BYTES)
    requires SizeStep(s, next, u, c, byte, s', u', c')
    ensures HeaderOk(s', next, p + [byte], u', c', initLeft) && (p + [byte])[0] == p[0]
    ensures s' == CopyRun ==> |p| == 2 && (p + [byte])[3..] == [] && InSize(p + [byte]) == c'
    ensures s' == LzmaPrepare ==> |p| == 4 && IsLzma(p + [byte]) && !HasProps(p + [byte]) && (p + [byte])[HeaderLen(p + [byte])..] == []
  {}

  class Stream {
    const chunk: Chunk
    var sequence: Sequence
    var nextSequence: Sequence
    var uncompressed: nat
    var needDictReset: bool
    var needProps: bool
    var initLeft: nat
    ghost var before: seq<Byte>       // all bytes of the chunks that are over
    ghost var sofar: Sofar            // what they stand for
    ghost var part: seq<Byte>         // the bytes of the current chunk
    ghost var total: seq<Byte>        // everything written to the callers' buffers

    /** All bytes taken from the callers' buffers. */
    ghost function Fed(): seq<Byte>
      reads this
    {
      before + part
    }

    ghost function Size(): nat {
      chunk.dec.dict.buf.Length
    }

    ghost predicate Base()
      reads chunk.dec, chunk.temp, chunk.dec.probs, chunk.dec.dict, chunk.dec.dict.buf
    {
      var dec := chunk.dec;
      && chunk.temp.Length == TEMP_SIZE && chunk.temp != dec.dict.buf
      && dec.Valid() && dec.len <= 273
      && dec.dict.start == dec.dict.pos < dec.dict.buf.Length
    }

    /** The chunks that are over are what the stream says, and the current one may
        follow them. */
    ghost predicate Tied()
      reads this, chunk, chunk.dec, chunk.dec.dict
    {
      && sofar == StreamOf(before, Size()) && sofar.pending == [] && sofar.phase != Bad
      && HeaderOk(sequence, nextSequence, part, uncompressed, chunk.compressed, initLeft)
      && (part != [] ==> Begin(sofar.ctx, part[0]).Some?)
      && (sequence in {LzmaPrepare, LzmaRun} ==> CtxOk(sofar.ctx) && Setup(sofar.ctx, part).Some?)
    }

    /** The context now. */
    ghost function Now(): Ctx
      reads this, chunk, chunk.dec, chunk.dec.dict
      requires Tied()
    {
      if part == [] then sofar.ctx
      else if sequence in {LzmaPrepare, LzmaRun} then Setup(sofar.ctx, part).value
      else Begin(sofar.ctx, part[0]).value
    }

    /** Outside the data of an LZMA chunk, the decoder is as the context says. */
    ghost predicate Settled()
      reads this, chunk, chunk.dec, chunk.temp, chunk.dec.probs, chunk.dec.dict, chunk.dec.dict.buf
      requires Tied()
    {
      var dec, c := chunk.dec, Now();
      && chunk.tempSize == 0 && dec.len == 0
      && needDictReset == c.needDict && needProps == c.needProps
      && dec.dict.hist == c.hist + (if sequence == CopyRun then part[3..] else [])
      && (!Stale(sequence, nextSequence, needProps) ==>
            dec.lz == c.lz && dec.probs[..] == c.probs && dec.Ready() && dec.rc.range == TWO32 - 1
            && (sequence != LzmaPrepare ==> dec.rc.code == 0 && initLeft == RC_INIT_BYTES))
      && (sequence == LzmaPrepare ==> dec.rc.code == InitCode(part[HeaderLen(part)..]))
      && (sequence == CopyRun ==> |part| - 3 + chunk.compressed == InSize(part))
      && total == sofar.out + (if sequence == CopyRun then part[3..] else [])
    }

    /** In the data of an LZMA chunk. */
    ghost predicate Running()
      reads this, chunk, chunk.dec, chunk.temp, chunk.dec.probs, chunk.dec.dict, chunk.dec.dict.buf
    {
      && sequence == LzmaRun && Base() && Tied() && !needDictReset && !needProps
      && chunk.Valid() && chunk.m0 == ChunkStart(sofar.ctx, part) && chunk.target == Target(sofar.ctx, part)
      && Data(part) == chunk.taken && |chunk.data| + chunk.compressed == InSize(part) - RC_INIT_BYTES
      && chunk.m0.hist <= chunk.dec.dict.hist && |chunk.dec.dict.hist| + uncompressed == chunk.target
      && total == sofar.out + chunk.dec.dict.hist[|chunk.m0.hist|..]
    }

    ghost predicate Valid()
      reads this, chunk, chunk.dec, chunk.temp, chunk.dec.probs, chunk.dec.dict, chunk.dec.dict.buf
    {
      if sequence == LzmaRun then Running() && uncompressed > 0
      else
        && Base() && Tied() && Settled()
        && (sequence == LzmaPrepare ==> initLeft > 0) && (sequence == CopyRun ==> chunk.compressed > 0)
    }

    /** xz_dec_lzma2_create and xz_dec_lzma2_reset for a dictionary size byte. */
    constructor (props: nat)
      requires props <= 39
      ensures Valid() && Fed() == [] && total == [] && Size() == DictSize(props)
      ensures fresh(chunk) && fresh(chunk.Repr())
    {
      DictSizeOk(props);
      chunk := new Chunk(DictSize(props));
      sequence, nextSequence := Control, Control;
      uncompressed, needDictReset, needProps, initLeft := 0, true, true, 0;
      before, part, total := [], [], [];
      sofar := StreamOf([], DictSize(props));
      new;
      StreamNone(DictSize(props));
      hide StreamOf, Agrees, Chunk.Valid, Valid;
      chunk.Means();
      MatchesControl();
    }

    // ------------------------------------------------------------- the control byte

    /** Between chunks, with context c. */
    ghost predicate Matches(c: Ctx)
      reads this`needDictReset, this`needProps, this`initLeft, chunk, chunk.dec, chunk.temp, chunk.dec.probs,
          chunk.dec.dict, chunk.dec.dict.buf
    {
      var dec := chunk.dec;
      && Base() && chunk.tempSize == 0 && dec.len == 0
      && needDictReset == c.needDict && needProps == c.needProps && dec.dict.hist == c.hist
      && (!needProps ==>
            dec.lz == c.lz && dec.probs[..] == c.probs && dec.Ready() && dec.rc.range == TWO32 - 1 && dec.rc.code == 0 &&
                initLeft == RC_INIT_BYTES)
    }

    /** SEQ_CONTROL: the first byte of a chunk, or the end of the stream. */
    method OnControl(b: XzBuf) returns (ret: Option<Ret>)
      requires Valid() && b.Valid() && sequence == Control && b.inPos < |b.input|
      modifies this, chunk.dec, chunk.dec.probs, chunk.dec.dict, b`inPos
      ensures b.Valid() && b.inPos == old(b.inPos) + 1 && total == old(total)
      ensures ret == Some(XzStreamEnd) <==> b.input[old(b.inPos)] == 0
      ensures ret == Some(XzDataError) <==> b.input[old(b.inPos)] != 0 && Begin(old(sofar).ctx, b.input[old(b.inPos)]).None?
      ensures ret == Some(XzDataError) ==> Doomed(old(Fed()) + [b.input[old(b.inPos)]], Size())
      ensures ret != Some(XzDataError) ==> Valid() && Fed() == old(Fed()) + [b.input[old(b.inPos)]]
      ensures ret == Some(XzStreamEnd) ==> part == [] && sofar.phase == Ended
      ensures ret.None? ==> InHeader(sequence) && part == [b.input[old(b.inPos)]]
      ensures ret != Some(XzOk)
    {
      hide Base, Agrees, LzOk, ProbsOk, RcOk, StreamOf, Begin, Reset, Doomed, Chunk.Valid, CtxOk, HeaderOk, Matches, Valid;
      ghost var c, size := sofar.ctx, Size();
      ControlMatches();
      assert Fed() == before;
      var tmp := b.input[b.inPos];
      b.inPos := b.inPos + 1;
      if tmp == 0 {
        EndMarker(before, size);
        before := before + [0];
        sofar := sofar.(phase := Ended);
        MatchesControl();
        return Some(XzStreamEnd);
      }
      var ok := ResetFirst(tmp, c);
      if ok {
        ok := StartChunk(tmp, c);
      }
      if !ok {
        BeginFails(c, tmp);
        NoWayBegin(c, [tmp], size);
        NoWayDooms(before, [tmp], size);
        return Some(XzDataError);
      }
      assert Fed() == old(Fed()) + [tmp];
      return None;
    }

    lemma ControlMatches()
      requires Valid() && sequence == Control
      ensures Matches(sofar.ctx) && part == [] && total == sofar.out && CtxOk(sofar.ctx)
      ensures sofar == StreamOf(before, Size()) && sofar.pending == [] && sofar.phase != Bad
    {
      assert dec().dict.hist == sofar.ctx.hist;
    }

    ghost function dec(): Decoder
      reads chunk
    {
      chunk.dec
    }

    lemma MatchesControl()
      requires Matches(sofar.ctx) && part == [] && sequence == Control && total == sofar.out
      requires sofar == StreamOf(before, Size()) && sofar.pending == [] && sofar.phase != Bad
      ensures Valid()
    {
      assert chunk.dec.dict.hist == sofar.ctx.hist + [];
      assert total == sofar.out + [];
    }

    /** A dictionary reset, which a stream has to begin with. */
    method ResetFirst(tmp: Byte, ghost c: Ctx) returns (ok: bool)
      requires Matches(c)
      modifies this`needProps, this`needDictReset, chunk.dec.dict
      ensures ok <==> Reset(c, tmp).Some?
      ensures ok ==> Matches(Reset(c, tmp).value)
    {
      hide Agrees, LzOk, ProbsOk, RcOk, IsLiteralState, PropsOk;
      if tmp >= 0xE0 || tmp == 1 {
        needProps := true;
        needDictReset := false;
        chunk.dec.dict.Reset();
      } else if needDictReset {
        return false;
      }
      ok := true;
    }

    /** Behind the control byte, with context c. */
    ghost predicate Follows(c: Ctx, control: Byte)
      reads this`needDictReset, this`needProps, this`initLeft, chunk, chunk.dec, chunk.temp, chunk.dec.probs,
          chunk.dec.dict, chunk.dec.dict.buf
    {
      var dec := chunk.dec;
      && Base() && chunk.tempSize == 0 && dec.len == 0
      && needDictReset == c.needDict && needProps == c.needProps && dec.dict.hist == c.hist
      && (!needProps && control < 0xC0 ==>
            dec.lz == c.lz && dec.probs[..] == c.probs && dec.Ready() && dec.rc.range == TWO32 - 1 && dec.rc.code == 0 &&
                initLeft == RC_INIT_BYTES)
    }

    /** An LZMA chunk, with new properties if those are needed, or an uncompressed one. */
    method BeginChunk(tmp: Byte, ghost c: Ctx) returns (ok: bool)
      requires Reset(c, tmp).Some? && Matches(Reset(c, tmp).value) && tmp != 0
      modifies this`sequence, this`nextSequence, this`uncompressed, this`needProps, this`initLeft, chunk.dec, chunk.dec.probs
      ensures ok <==> Begin(c, tmp).Some?
      ensures ok ==> Follows(Begin(c, tmp).value, tmp) && nextSequence == NextOf(tmp)
      ensures ok && tmp >= 0x80 ==> sequence == Uncompressed1 && uncompressed == Large(tmp)
      ensures ok && tmp < 0x80 ==> sequence == Compressed0
    {
      hide Agrees, LzOk, ProbsOk, RcOk, IsLiteralState, PropsOk, Reset;
      if tmp >= 0x80 {
        uncompressed := Large(tmp);
        sequence := Uncompressed1;
        if tmp >= 0xC0 {
          needProps := false;
          nextSequence := Properties;
        } else if needProps {
          return false;
        } else {
          nextSequence := LzmaPrepare;
          if tmp >= 0xA0 {
            ResetState();
          }
        }
      } else {
        if tmp > 2 {
          return false;
        }
        sequence := Compressed0;
        nextSequence := CopyRun;
      }
      ok := true;
    }

    /** The first byte of a chunk. */
    method StartChunk(tmp: Byte, ghost c: Ctx) returns (ok: bool)
      requires Reset(c, tmp).Some? && Matches(Reset(c, tmp).value) && tmp != 0
      requires part == [] && total == sofar.out && sofar.ctx == c && CtxOk(c)
      requires sofar == StreamOf(before, Size()) && sofar.pending == [] && sofar.phase != Bad
      modifies this`sequence, this`nextSequence, this`uncompressed, this`needProps, this`initLeft, this`part, chunk.dec, chunk.dec.probs
      ensures ok <==> Begin(c, tmp).Some?
      ensures ok ==> Valid() && InHeader(sequence) && part == [tmp]
    {
      hide Base, StreamOf, Reset, Begin, Decoder.Ready, Matches, Valid, Follows;
      ok := BeginChunk(tmp, c);
      if ok {
        part := [tmp];
        BeginGood(c, tmp);
        SizeValid();
      }
    }

    lemma BeginGood(c: Ctx, tmp: Byte)
      requires Begin(c, tmp).Some?
      ensures !BadControl([tmp])
    {}

    lemma BeginFails(c: Ctx, tmp: Byte)
      requires tmp != 0 && (Reset(c, tmp).None? || Begin(c, tmp).None?)
      ensures Begin(c, tmp).None?
    {}

    /** lzma_reset outside a chunk: decoding can start. */
    method ResetState()
      requires Base() && chunk.dec.len == 0
      modifies this`initLeft, chunk.dec`rc, chunk.dec`lz, chunk.dec.probs
      ensures Base() && chunk.dec.Ready() && chunk.dec.len == 0 && initLeft == RC_INIT_BYTES
      ensures chunk.dec.rc.range == TWO32 - 1 && chunk.dec.rc.code == 0
      ensures chunk.dec.lz == ResetLz(old(chunk.dec.lz)) && chunk.dec.probs[..] == FreshProbs()
    {
      hide Agrees;
      chunk.dec.LzmaReset();
      initLeft := RC_INIT_BYTES;
    }

    // ------------------------------------------------------------ the rest of the header

    method ReadSize(byte: Byte)
      requires InHeader(sequence)
      modifies this`sequence, this`uncompressed, chunk`compressed
      ensures SizeStep(old(sequence), nextSequence, old(uncompressed), old(chunk.compressed), byte, sequence,
              uncompressed, chunk.compressed)
    {
      match sequence {
        case Uncompressed1 =>
          uncompressed := uncompressed + High(byte);
          sequence := Uncompressed2;
        case Uncompressed2 =>
          uncompressed := uncompressed + byte as nat + 1;
          sequence := Compressed0;
        case Compressed0 =>
          chunk.compressed := High(byte);
          sequence := Compressed1;
        case Compressed1 =>
          chunk.compressed := chunk.compressed + byte as nat + 1;
          sequence := nextSequence;
        case _ => assert false;
      }
    }

    /** SEQ_UNCOMPRESSED_1 to SEQ_COMPRESSED_1: the sizes. */
    method OnSize(b: XzBuf)
      requires Valid() && b.Valid() && InHeader(sequence) && b.inPos < |b.input|
      modifies this`sequence, this`uncompressed, this`part, chunk`compressed, b`inPos
      ensures Valid() && b.Valid() && b.inPos == old(b.inPos) + 1 && part == old(part) + [b.input[old(b.inPos)]]
      ensures Fed() == old(Fed()) + [b.input[old(b.inPos)]] && sequence != LzmaRun && sequence != Control
    {
      hide Base, Decoder.Ready, StreamOf, Begin, CtxReady, HeaderOk, SizeStep, Valid;
      SizeFollows();
      ghost var c := Begin(sofar.ctx, part[0]).value;
      BeginOk(sofar.ctx, part[0]);
      var byte := b.input[b.inPos];
      b.inPos := b.inPos + 1;
      ReadSize(byte);
      part := part + [byte];
      HeaderGrows(old(sequence), nextSequence, old(part), old(uncompressed), old(chunk.compressed), initLeft, byte,
          sequence, uncompressed, chunk.compressed);
      assert Follows(c, part[0]);
      SizeValid();
      assert Fed() == old(Fed()) + [byte];
    }

    lemma SizeFollows()
      requires Valid() && InHeader(sequence)
      ensures HeaderOk(sequence, nextSequence, part, uncompressed, chunk.compressed, initLeft) && total == sofar.out
      ensures part != [] && part[0] != 0 && !BadControl(part) && nextSequence == NextOf(part[0])
      ensures Begin(sofar.ctx, part[0]).Some? && Follows(Begin(sofar.ctx, part[0]).value, part[0])
      ensures sofar == StreamOf(before, Size()) && sofar.pending == [] && sofar.phase != Bad && CtxOk(sofar.ctx)
    {
      hide Base, StreamOf, Begin, Decoder.Ready, CtxReady;
    }

    lemma SizeValid()
      requires HeaderOk(sequence, nextSequence, part, uncompressed, chunk.compressed, initLeft) && total == sofar.out
      requires part != [] && sequence != LzmaRun && (sequence == LzmaPrepare ==> |part| == 5) &&
               (sequence == CopyRun ==> |part| == 3 && InSize(part) == chunk.compressed)
      requires Begin(sofar.ctx, part[0]).Some? && Follows(Begin(sofar.ctx, part[0]).value, part[0])
      requires sofar == StreamOf(before, Size()) && sofar.pending == [] && sofar.phase != Bad && CtxOk(sofar.ctx)
      ensures Valid()
    {
      hide Base, StreamOf, Begin, Decoder.Ready, CtxReady;
      BeginOk(sofar.ctx, part[0]);
      assert sequence == CopyRun ==> part[3..] == [];
      assert sequence == LzmaPrepare ==> part[HeaderLen(part)..] == [];
      assert Tied();
      assert chunk.dec.dict.hist == chunk.dec.dict.hist + [] && total == total + [];
    }

    /** lzma_props: false unless pb <= 4, lp <= 4, lc <= 8 and lc + lp <= 4. */
    method LzmaProps(props: Byte) returns (ok: bool)
      requires Base() && chunk.dec.len == 0
      modifies this`initLeft, chunk.dec`rc, chunk.dec`lz, chunk.dec.probs
      ensures ok <==> PropsGood(props)
      ensures ok ==>
                && Base() && chunk.dec.Ready() && initLeft == RC_INIT_BYTES
                && chunk.dec.rc.range == TWO32 - 1 && chunk.dec.rc.code == 0
                && chunk.dec.lz == Lz(0, 0, 0, 0, 0, PropsLc(props), Pow2(PropsLp(props)) - 1, Pow2(PropsPb(props)) - 1)
                && chunk.dec.probs[..] == FreshProbs()
    {
      hide Agrees;
      if props > (4 * 5 + 4) * 9 + 8 {
        return false;
      }
      var rest: nat := props;
      var pb := 0;
      while rest >= 45
        invariant rest + 45 * pb == props
      {
        rest := rest - 45;
        pb := pb + 1;
      }
      var lp := 0;
      while rest >= 9
        invariant rest + 9 * lp + 45 * pb == props && rest + 9 * lp < 45
      {
        rest := rest - 9;
        lp := lp + 1;
      }
      PropsDigits(props, pb, lp, rest);
      if rest + lp > 4 {
        return false;
      }
      Pow2Small();
      PropsMasks(rest, lp, pb);
      chunk.dec.lz := chunk.dec.lz.(lc := rest, lpMask := Pow2(lp) - 1, pbMask := Pow2(pb) - 1);
      ResetState();
      ok := true;
    }

    /** SEQ_PROPERTIES: whatever the LZMA state was, decoding starts afresh. */
    method OnProperties(b: XzBuf) returns (ok: bool)
      requires Valid() && b.Valid() && sequence == Properties && b.inPos < |b.input|
      modifies this`sequence, this`part, this`initLeft, chunk.dec`rc, chunk.dec`lz, chunk.dec.probs, b`inPos
      ensures b.Valid() && b.inPos == old(b.inPos) + 1
      ensures ok <==> PropsGood(b.input[old(b.inPos)])
      ensures !ok ==> Doomed(old(Fed()) + [b.input[old(b.inPos)]], Size())
      ensures ok ==> Valid() && sequence == LzmaPrepare && part == old(part) + [b.input[old(b.inPos)]]
    {
      hide Agrees, LzOk, ProbsOk, IsLiteralState, PropsOk, StreamOf, Begin, CtxReady, PropsGood, Doomed;
      var props := b.input[b.inPos];
      b.inPos := b.inPos + 1;
      ok := LzmaProps(props);
      if ok {
        sequence := LzmaPrepare;
        part := part + [props];
      } else {
        HeaderDooms(before, part + [props], Size());
        assert before + (part + [props]) == Fed() + [props];
      }
    }

    /** rc_read_init. */
    method ReadInit(b: XzBuf) returns (done: bool)
      requires b.Valid() && RcOk(chunk.dec.rc) && part != [] && IsLzma(part)
      requires initLeft <= RC_INIT_BYTES && |part| == HeaderLen(part) + RC_INIT_BYTES - initLeft
      requires chunk.dec.rc.code == InitCode(part[HeaderLen(part)..])
      modifies this`initLeft, this`part, chunk.dec`rc, b`inPos
      ensures b.Valid() && old(b.inPos) <= b.inPos && part == old(part) + b.input[old(b.inPos)..b.inPos]
      ensures initLeft <= RC_INIT_BYTES && |part| == HeaderLen(part) + RC_INIT_BYTES - initLeft
      ensures chunk.dec.rc.code == InitCode(part[HeaderLen(part)..]) && chunk.dec.rc.range == old(chunk.dec.rc).range && RcOk(chunk.dec.rc)
      ensures done <==> initLeft == 0
      ensures !done ==> b.inPos == |b.input|
      ensures old(initLeft) > 0 && old(b.inPos) < |b.input| ==> old(b.inPos) < b.inPos
    {
      hide InitCode;
      ghost var h := HeaderLen(part);
      assert part == part + b.input[b.inPos..b.inPos];
      while initLeft > 0
        invariant b.Valid() && RcOk(chunk.dec.rc) && part != [] && IsLzma(part) && HeaderLen(part) == h
        invariant initLeft <= RC_INIT_BYTES && |part| == h + RC_INIT_BYTES - initLeft
        invariant chunk.dec.rc.code == InitCode(part[h..]) && chunk.dec.rc.range == old(chunk.dec.rc).range
        invariant old(b.inPos) <= b.inPos && part == old(part) + b.input[old(b.inPos)..b.inPos]
        invariant old(initLeft) > 0 && old(b.inPos) < |b.input| ==> old(b.inPos) < b.inPos || initLeft == old(initLeft)
      {
        if b.inPos == |b.input| {
          return false;
        }
        var byte := b.input[b.inPos];
        InitGrows(part, h, byte, old(part), b.input, old(b.inPos), b.inPos);
        chunk.dec.rc := chunk.dec.rc.(code := ((chunk.dec.rc.code * 256) % TWO32 + byte) % TWO32);
        part := part + [byte];
        b.inPos := b.inPos + 1;
        initLeft := initLeft - 1;
      }
      return true;
    }

    /** SEQ_LZMA_PREPARE; None once the initial bytes are complete. */
    method Prepare(b: XzBuf) returns (ret: Option<Ret>)
      requires Valid() && b.Valid() && sequence == LzmaPrepare
      modifies this`initLeft, this`part, this`sequence, chunk, chunk.dec`rc, b`inPos
      ensures b.Valid() && old(b.inPos) <= b.inPos
      ensures ret == Some(XzDataError) ==> Doomed(old(Fed()), Size())
      ensures ret != Some(XzDataError) ==>
                Valid() && part == old(part) + b.input[old(b.inPos)..b.inPos] && (old(b.inPos) < |b.input| ==> old(b.inPos) < b.inPos)
      ensures ret.None? ==> sequence == LzmaRun
      ensures ret.Some? ==> ret in {Some(XzOk), Some(XzDataError)}
      ensures ret == Some(XzOk) ==> b.inPos == |b.input| && sequence == LzmaPrepare
    {
      hide Agrees, LzOk, ProbsOk, IsLiteralState, PropsOk, StreamOf, CtxReady, InitCode, Setup, Doomed;
      if chunk.compressed < RC_INIT_BYTES {
        HeaderDooms(before, part, Size());
        return Some(XzDataError);
      }
      SetupGrows(sofar.ctx, part, b.input[b.inPos..]);
      var done := ReadInit(b);
      SetupGrows(sofar.ctx, old(part), b.input[old(b.inPos)..b.inPos]);
      if !done {
        return Some(XzOk);
      }
      StartRun();
      return None;
    }

    /** The initial bytes are complete: the data of the chunk begins. */
    method StartRun()
      requires Base() && Tied() && Settled() && sequence == LzmaPrepare && initLeft == 0 && chunk.compressed >= RC_INIT_BYTES
      modifies this`sequence, chunk
      ensures Valid() && sequence == LzmaRun
    {
      hide Base, StreamOf, Setup, InitCode, Decoder.Ready, ChunkStart, Target, Chunk.Valid, Data;
      ghost var m := chunk.dec.MachineOf();
      PreparedFacts();
      chunk.compressed := chunk.compressed - RC_INIT_BYTES;
      sequence := LzmaRun;
      chunk.m0 := ShiftM(chunk.dec.MachineOf(), 0);
      chunk.data, chunk.steps, chunk.taken, chunk.target := [], 0, [], Target(sofar.ctx, part);
      chunk.Begun();
      assert chunk.m0.hist == chunk.dec.dict.hist && chunk.dec.dict.hist[|chunk.dec.dict.hist|..] == [];
    }

    /** The decoder is where the data of the chunk begin. */
    lemma PreparedFacts()
      requires Base() && Tied() && Settled() && sequence == LzmaPrepare && initLeft == 0 && chunk.compressed >= RC_INIT_BYTES
      ensures Started(part) && Data(part) == [] && ShiftM(chunk.dec.MachineOf(), 0) == ChunkStart(sofar.ctx, part)
      ensures chunk.dec.dict.hist == ChunkStart(sofar.ctx, part).hist && Target(sofar.ctx, part) == |chunk.dec.dict.hist| + uncompressed
      ensures chunk.temp.Length == TEMP_SIZE && chunk.temp != chunk.dec.dict.buf && chunk.dec.Ready() &&
              chunk.dec.rc.range >= TOP && uncompressed > 0
    {
      hide Agrees, LzOk, ProbsOk, IsLiteralState, RcOk, StreamOf, Setup, InitCode;
      assert Init(part) == part[HeaderLen(part)..];
    }

    // --------------------------------------------------------------- the data of a chunk

    /** What was decoded since the history was h0 is written out. */
    method FlushOut(b: XzBuf, ghost h0: seq<Byte>)
      requires sequence == LzmaRun && Tied() && !needDictReset && !needProps
      requires chunk.Valid() && b.Valid() && b.out != chunk.dec.dict.buf && b.out != chunk.temp
      requires chunk.m0 == ChunkStart(sofar.ctx, part) && chunk.target == Target(sofar.ctx, part)
      requires Data(part) == chunk.taken && |chunk.data| + chunk.compressed == InSize(part) - RC_INIT_BYTES
      requires chunk.m0.hist <= h0 <= chunk.dec.dict.hist && |h0| + uncompressed == chunk.target
      requires chunk.dec.dict.pos - chunk.dec.dict.start == |chunk.dec.dict.hist| - |h0| <= Min(b.out.Length - b.outPos, uncompressed)
      requires total == sofar.out + h0[|chunk.m0.hist|..]
      modifies this`uncompressed, this`total, chunk.dec.dict`pos, chunk.dec.dict`start, b`outPos, b.out
      ensures Running() && b.Valid() && b.inPos == old(b.inPos)
      ensures Emitted(b, old(b.outPos), old(b.out[..b.outPos]), old(total), total)
      ensures uncompressed == old(uncompressed) - (|chunk.dec.dict.hist| - |h0|) && chunk.dec.dict.hist == old(chunk.dec.dict.hist)
    {
      hide StreamOf, Setup, ChunkStart, Target, Data, Chunk.Valid, Decoder.Ready, Decoder.Valid, Dict.Valid, Begin, Running, Emitted;
      var dict := chunk.dec.dict;
      ghost var outPos0, out0, total0 := b.outPos, b.out[..b.outPos], total;
      var n := chunk.FlushTo(b);
      chunk.Means();
      uncompressed := uncompressed - n;
      ghost var tail := dict.hist[|dict.hist| - n..];
      AppendFacts(h0, dict.hist, |chunk.m0.hist|, n, sofar.out, total);
      total := total + tail;
      EmittedTail(b, outPos0, out0, total0, total, tail);
      StillRunning();
    }

    lemma StillRunning()
      requires sequence == LzmaRun && Base() && Tied() && !needDictReset && !needProps
      requires chunk.Valid() && chunk.m0 == ChunkStart(sofar.ctx, part) && chunk.target == Target(sofar.ctx, part)
      requires Data(part) == chunk.taken && |chunk.data| + chunk.compressed == InSize(part) - RC_INIT_BYTES
      requires chunk.m0.hist <= chunk.dec.dict.hist && |chunk.dec.dict.hist| + uncompressed == chunk.target
      requires total == sofar.out + chunk.dec.dict.hist[|chunk.m0.hist|..]
      ensures Running()
    {
      hide Base, Tied, ChunkStart, Target, Data, Chunk.Valid;
    }

    /** The first half of SEQ_LZMA_RUN: decode what fits, and flush it. */
    method DecodeAndFlush(b: XzBuf) returns (ok: bool)
      requires Valid() && b.Valid() && sequence == LzmaRun && b.out != chunk.dec.dict.buf && b.out != chunk.temp
      modifies this`uncompressed, this`total, this`part, chunk, chunk.temp, chunk.dec, chunk.dec.probs, chunk.dec.dict,
          chunk.dec.dict.buf, b, b.out
      ensures !ok ==> Doomed(old(Fed()) + b.input[old(b.inPos)..], Size())
      ensures ok ==> Running() && b.Valid() && old(b.inPos) <= b.inPos && part == old(part) + b.input[old(b.inPos)..b.inPos]
      ensures ok ==> Emitted(b, old(b.outPos), old(b.out[..b.outPos]), old(total), total)
      ensures ok && old(b.outPos) < b.out.Length ==>
                uncompressed < old(uncompressed) || old(b.inPos) < b.inPos ||
                (b.inPos == |b.input| && chunk.tempSize < chunk.compressed)
      ensures ok ==> uncompressed <= old(uncompressed)
    {
      hide Agrees, StreamOf, Setup, ChunkStart, Target, Data, Chunk.Valid, Decoder.Ready, Decoder.Valid, Dict.Valid, Fails, Doomed;
      var dict := chunk.dec.dict;
      ghost var p, in0, h0 := part, b.inPos, dict.hist;
      chunk.LimitTo(Min(b.out.Length - b.outPos, uncompressed));
      ok := chunk.Feed(b);
      if ok {
        PartGrows(sofar.ctx, p, b.input[in0..b.inPos]);
        part := p + b.input[in0..b.inPos];
        FlushOut(b, h0);
      } else {
        DataDooms(before, p, b.input[in0..], Size());
      }
    }

    /** The chunk is over, and is correct if and only if this is. */
    ghost predicate Finished()
      reads chunk, chunk.dec
    {
      chunk.compressed == 0 && chunk.dec.len == 0 && chunk.dec.rc.code == 0
    }

    lemma DoneWrong()
      requires Running() && uncompressed == 0 && !Finished()
      ensures Doomed(Fed(), Size())
    {
      hide Agrees, StreamOf, Setup, ChunkStart, Target, Data, Doomed, Fails, Decoded, Below, MachineOk;
      var m := ShiftM(chunk.dec.MachineOf(), |chunk.data|);
      DoneFails(chunk.m0, chunk.data, Size(), chunk.steps, m, chunk.taken, |chunk.data| + chunk.compressed, chunk.target);
      assert chunk.taken == chunk.taken + [];
      DataDooms(before, part, [], Size());
      assert before + part + [] == Fed();
    }

    /** The chunk is complete and correct: rc_reset for the next one. */
    method FinishChunk()
      requires Running() && uncompressed == 0 && Finished()
      modifies this`sequence, this`initLeft, this`before, this`sofar, this`part, chunk.dec`rc
      ensures Valid() && sequence == Control && before == old(before + part) && part == [] && sofar.phase == Going
    {
      hide Agrees, StreamOf, Running, Finished, ProbsOk, LzOk, IsLiteralState, Valid;
      DoneRight();
      DoneFacts();
      before := before + part;
      sofar := StreamOf(before, Size());
      part := [];
      chunk.dec.rc := Rc(TWO32 - 1, 0, chunk.dec.rc.pos);
      initLeft := RC_INIT_BYTES;
      sequence := Control;
      MatchesControl();
    }

    lemma DoneFacts()
      requires Running() && uncompressed == 0 && Finished()
      ensures Base() && chunk.dec.Ready() && chunk.tempSize == 0 && chunk.dec.len == 0 && !needDictReset && !needProps
    {}

    lemma DoneRight()
      requires Running() && uncompressed == 0 && Finished()
      ensures StreamOf(before + part, Size()) ==
              Sofar(Ctx(false, false, chunk.dec.lz, chunk.dec.probs[..], chunk.dec.dict.hist), total, [], Going)
    {
      hide Agrees, StreamOf, Setup, ChunkStart, Target, Data, Decoded, Below, MachineOk;
      var m := ShiftM(chunk.dec.MachineOf(), |chunk.data|);
      assert chunk.data == chunk.taken;
      WholeOver(before, part, Size(), chunk.steps, m);
    }

    /** The second half: is the chunk finished, and correctly? */
    method CheckDone(b: XzBuf) returns (ret: Option<Ret>)
      requires Running() && b.Valid()
      modifies this`sequence, this`initLeft, this`before, this`sofar, this`part, chunk.dec`rc
      ensures ret == Some(XzDataError) <==> uncompressed == 0 && !old(Finished())
      ensures ret == Some(XzDataError) ==> Doomed(Fed(), Size())
      ensures Fed() == old(Fed())
      ensures ret != Some(XzDataError) ==> Valid() && (part != [] || sofar.phase == Going)
      ensures ret == Some(XzOk) ==>
                sequence == LzmaRun && (b.outPos == b.out.Length || (b.inPos == |b.input| && chunk.tempSize < chunk.compressed))
      ensures ret != Some(XzStreamEnd)
      ensures ret.None? ==> (if uncompressed == 0 then sequence == Control
                             else sequence == LzmaRun && b.outPos < b.out.Length &&
                                  !(b.inPos == |b.input| && chunk.tempSize < chunk.compressed))
    {
      hide Base, Tied, Chunk.Valid, Settled, Doomed, ChunkStart, Target, Data, InSize, Setup;
      RunningFacts();
      if uncompressed == 0 {
        if chunk.compressed > 0 || chunk.dec.len > 0 || chunk.dec.rc.code != 0 {
          DoneWrong();
          return Some(XzDataError);
        }
        FinishChunk();
        assert before == before + part;
      } else if b.outPos == b.out.Length || (b.inPos == |b.input| && chunk.tempSize < chunk.compressed) {
        return Some(XzOk);
      }
      return None;
    }

    lemma RunningFacts()
      requires Running()
      ensures sequence == LzmaRun && part != []
    {}

    /** SEQ_LZMA_RUN. */
    method OnRun(b: XzBuf) returns (ret: Option<Ret>)
      requires Valid() && b.Valid() && sequence == LzmaRun && b.out != chunk.dec.dict.buf && b.out != chunk.temp
      modifies this, chunk, chunk.temp, chunk.dec, chunk.dec.probs, chunk.dec.dict, chunk.dec.dict.buf, b, b.out
      ensures ret == Some(XzDataError) ==> Doomed(old(Fed()) + b.input[old(b.inPos)..], Size())
      ensures ret != Some(XzDataError) ==> Went(b, old(b.inPos), old(Fed())) && (part != [] || sofar.phase == Going)
      ensures ret != Some(XzDataError) ==> Emitted(b, old(b.outPos), old(b.out[..b.outPos]), old(total), total)
      ensures ret != Some(XzStreamEnd)
      ensures ret == Some(XzOk) ==>
                sequence == LzmaRun && (b.outPos == b.out.Length || (b.inPos == |b.input| && chunk.tempSize < chunk.compressed))
      ensures ret.None? ==> old(b.inPos) < b.inPos || sequence == Control || (sequence == LzmaRun && uncompressed < old(uncompressed))
    {
      hide Valid, Running, Doomed;
      ghost var fed := Fed();
      var ok := DecodeAndFlush(b);
      if !ok {
        return Some(XzDataError);
      }
      assert Fed() == fed + b.input[old(b.inPos)..b.inPos];
      ret := CheckDone(b);
      if ret == Some(XzDataError) {
        DoomedAll(fed, b.input, old(b.inPos), b.inPos, Size());
      }
    }

    /** The caller's bytes were taken in order. */
    ghost predicate Went(b: XzBuf, inPos: nat, fed: seq<Byte>)
      reads this, chunk, chunk.dec, chunk.temp, chunk.dec.probs, chunk.dec.dict, chunk.dec.dict.buf, b
    {
      Valid() && b.Valid() && inPos <= b.inPos && Fed() == fed + b.input[inPos..b.inPos]
    }

    lemma WentOn(b: XzBuf, inPos: nat, fed: seq<Byte>, mid: nat, fedMid: seq<Byte>)
      requires inPos <= mid && Went(b, mid, fedMid) && mid <= |b.input| && fedMid == fed + b.input[inPos..mid]
      ensures Went(b, inPos, fed)
    {
      hide Valid;
      assert b.input[inPos..mid] + b.input[mid..b.inPos] == b.input[inPos..b.inPos];
    }

    /** SEQ_PROPERTIES and SEQ_LZMA_PREPARE, which falls through to the decoding
        when the initial bytes are complete. */
    method OnPrepare(b: XzBuf) returns (ret: Option<Ret>)
      requires Valid() && b.Valid() && sequence in {Properties, LzmaPrepare} && b.inPos < |b.input|
      modifies this, chunk, chunk.dec, chunk.dec.probs, b`inPos
      ensures ret == Some(XzDataError) ==> Doomed(old(Fed()) + b.input[old(b.inPos)..], Size())
      ensures ret != Some(XzDataError) ==> Went(b, old(b.inPos), old(Fed())) && old(b.inPos) < b.inPos
      ensures total == old(total) && before == old(before) && sofar == old(sofar)
      ensures ret.None? ==> sequence == LzmaRun
      ensures ret.Some? ==> ret in {Some(XzOk), Some(XzDataError)}
      ensures ret == Some(XzOk) ==> b.inPos == |b.input| && sequence == LzmaPrepare
    {
      hide Valid, Doomed;
      ghost var fed, p := Fed(), part;
      if sequence == Properties {
        var ok := OnProperties(b);
        assert [b.input[old(b.inPos)]] == b.input[old(b.inPos)..b.inPos];
        if !ok {
          DoomedAll(fed, b.input, old(b.inPos), b.inPos, Size());
          return Some(XzDataError);
        }
      }
      assert Fed() == fed + b.input[old(b.inPos)..b.inPos];
      ghost var mid, fedMid := b.inPos, Fed();
      ret := Prepare(b);
      if ret == Some(XzDataError) {
        DoomedAll(fed, b.input, old(b.inPos), mid, Size());
      } else {
        assert Fed() == fedMid + b.input[mid..b.inPos];
        WentOn(b, old(b.inPos), fed, mid, fedMid);
      }
    }

    // ---------------------------------------------------------------- uncompressed chunks

    /** SEQ_COPY. */
    method OnCopy(b: XzBuf) returns (ret: Option<Ret>)
      requires Valid() && b.Valid() && sequence == CopyRun && b.out != chunk.dec.dict.buf && b.inPos < |b.input|
      modifies this, chunk, chunk.dec.dict, chunk.dec.dict.buf, b, b.out
      ensures Went(b, old(b.inPos), old(Fed())) && (part != [] || sofar.phase == Going)
      ensures Emitted(b, old(b.outPos), old(b.out[..b.outPos]), old(total), total)
      ensures ret in {None, Some(XzOk)}
      ensures ret.None? ==> old(b.inPos) < b.inPos && sequence == Control
      ensures ret == Some(XzOk) ==> sequence == CopyRun && (b.inPos == |b.input| || b.outPos == b.out.Length)
    {
      hide Valid, Tied, Settled, Base, HeaderOk;
      ghost var from, fed := b.inPos, Fed();
      Copy(b);
      ghost var moved := b.input[from..b.inPos];
      assert Fed() == fed + moved;
      if chunk.compressed > 0 {
        CopyFacts();
        return Some(XzOk);
      }
      FinishCopy();
      assert Fed() == before == fed + moved;
      return None;
    }

    /** dict_uncompressed, in the midst of a chunk. */
    method Copy(b: XzBuf)
      requires Valid() && b.Valid() && sequence == CopyRun && b.out != chunk.dec.dict.buf && b.inPos < |b.input|
      modifies this`part, this`total, chunk`compressed, chunk.dec.dict, chunk.dec.dict.buf, b, b.out
      ensures Base() && Tied() && Settled() && b.Valid() && old(b.inPos) <= b.inPos && part == old(part) + b.input[old(b.inPos)..b.inPos]
      ensures Emitted(b, old(b.outPos), old(b.out[..b.outPos]), old(total), total)
      ensures chunk.compressed == 0 ==> old(b.inPos) < b.inPos
      ensures chunk.compressed > 0 ==> b.inPos == |b.input| || b.outPos == b.out.Length
    {
      hide Agrees, LzOk, ProbsOk, IsLiteralState, RcOk, StreamOf, Begin, InitCode;
      ghost var from, p := b.inPos, part;
      chunk.compressed := chunk.dec.dict.Uncompressed(b, chunk.compressed);
      ghost var moved := b.input[from..b.inPos];
      part := p + moved;
      total := total + moved;
      assert part[3..] == p[3..] + moved;
    }

    lemma CopyFacts()
      requires Base() && Tied() && Settled() && sequence == CopyRun && chunk.compressed > 0
      ensures Valid() && part != []
    {}

    method FinishCopy()
      requires Base() && Tied() && Settled() && sequence == CopyRun && chunk.compressed == 0
      modifies this`sequence, this`before, this`sofar, this`part
      ensures Valid() && sequence == Control && before == old(before + part) && part == [] && sofar.phase == Going
    {
      hide Agrees, LzOk, ProbsOk, IsLiteralState, RcOk, StreamOf, Begin, InitCode, Valid;
      ChunkOver(before, part, Size());
      before := before + part;
      sofar := StreamOf(before, Size());
      part := [];
      sequence := Control;
      MatchesControl();
    }

    // ---------------------------------------------------------------------- the whole

    /** With all of the input used up, nothing wrong has been seen. */
    lemma NotBad()
      requires Valid() && (sequence == LzmaRun ==> chunk.tempSize < chunk.compressed)
      ensures StreamOf(Fed(), Size()).phase != Bad
    {
      hide Base, Settled, Running, StreamOf, Setup, Begin, Short, Complete;
      TiedNow();
      if part == [] {
        assert Fed() == before;
      } else {
        PartShort();
        ChunkShort(before, part, Size());
      }
    }

    lemma TiedNow()
      requires Valid()
      ensures Tied() && (part != [] ==> part[0] != 0 && !BadControl(part))
    {}

    /** The bytes of the current chunk are not more than it has. */
    lemma PartShort()
      requires Valid() && part != []
      ensures Short(part) || (sequence == LzmaRun && Complete(part) && chunk.tempSize == chunk.compressed)
    {
      hide Base, StreamOf, Setup, Begin, ChunkStart, Target, Decoded, Below, Decoder.Ready;
      if sequence == LzmaRun {
        assert |chunk.taken| == |chunk.data| + chunk.tempSize;
        assert |part| == HeaderLen(part) + RC_INIT_BYTES + |chunk.taken|;
      }
    }

    lemma NotEnded()
      requires Valid() && (part != [] || sofar.phase == Going)
      ensures StreamOf(Fed(), Size()).phase != Ended
    {
      hide Base, Settled, Running, StreamOf, Setup, Begin, Short, Complete;
      TiedNow();
      if part == [] {
        assert Fed() == before;
      } else {
        PartShort();
        ChunkGoesOn(before, part, Size());
      }
    }

    /** xz_dec_lzma2_run. The bytes taken and the bytes written follow those of the
        calls before. The stream ends exactly when its end marker is taken. An error
        is returned only if no correct stream begins with the bytes given; and it is
        not put off: with room left in the output buffer, the bytes taken are the
        beginning of a stream in which nothing is wrong so far. */
    method Run(b: XzBuf) returns (ret: Ret)
      requires Valid() && b.Valid() && b.out != chunk.dec.dict.buf && b.out != chunk.temp
      modifies this, chunk, chunk.temp, chunk.dec, chunk.dec.probs, chunk.dec.dict, chunk.dec.dict.buf, b, b.out
      ensures ret == XzDataError ==> Doomed(old(Fed()) + b.input[old(b.inPos)..], Size())
      ensures ret != XzDataError ==> Went(b, old(b.inPos), old(Fed()))
      ensures ret != XzDataError ==> Emitted(b, old(b.outPos), old(b.out[..b.outPos]), old(total), total)
      ensures ret == XzStreamEnd ==> old(b.inPos) < b.inPos && StreamOf(Fed(), Size()).phase == Ended
      ensures ret == XzStreamEnd ==> total == StreamOf(Fed(), Size()).out
      ensures ret == XzOk && old(b.inPos) < b.inPos ==> StreamOf(Fed(), Size()).phase != Ended
      ensures ret == XzOk ==> b.inPos == |b.input| || b.outPos == b.out.Length
      ensures ret == XzOk && b.outPos < b.out.Length ==> StreamOf(Fed(), Size()).phase != Bad
    {
      hide Valid, Doomed, StreamOf;
      ghost var fed, in0, out0, total0 := Fed(), b.inPos, b.out[..b.outPos], total;
      ghost var outPos0 := b.outPos;
      assert Went(b, in0, fed) && Emitted(b, outPos0, out0, total0, total);
      while b.inPos < |b.input| || sequence == LzmaRun
        invariant Went(b, in0, fed) && Emitted(b, outPos0, out0, total0, total)
        invariant in0 < b.inPos ==> part != [] || sofar.phase == Going
        decreases |b.input| - b.inPos, if sequence == LzmaRun then uncompressed + 1 else 0
      {
        ghost var mid, fedMid, outMid, totalMid := b.inPos, Fed(), b.out[..b.outPos], total;
        ghost var outPosMid := b.outPos;
        var r := OneStep(b);
        if r == Some(XzDataError) {
          DoomedFrom(fed, b.input, in0, mid, Size());
          return XzDataError;
        }
        WentOn(b, in0, fed, mid, fedMid);
        EmittedTrans(b, outPos0, out0, total0, outPosMid, outMid, totalMid, total);
        if r.Some? {
          if r.value == XzStreamEnd {
            EndedNow();
          } else {
            if in0 < b.inPos { NotEnded(); }
            if b.outPos < b.out.Length { NotBad(); }
          }
          return r.value;
        }
      }
      if in0 < b.inPos { NotEnded(); }
      if b.outPos < b.out.Length { NotBad(); }
      return XzOk;
    }

    lemma EndedNow()
      requires Valid() && part == []
      ensures StreamOf(Fed(), Size()) == sofar && total == sofar.out
    {
      assert Fed() == before;
      assert sofar.out + [] == sofar.out;
    }

    /** The body of the loop. */
    method OneStep(b: XzBuf) returns (r: Option<Ret>)
      requires Valid() && b.Valid() && b.out != chunk.dec.dict.buf && b.out != chunk.temp
      requires b.inPos < |b.input| || sequence == LzmaRun
      modifies this, chunk, chunk.temp, chunk.dec, chunk.dec.probs, chunk.dec.dict, chunk.dec.dict.buf, b, b.out
      ensures r == Some(XzDataError) ==> Doomed(old(Fed()) + b.input[old(b.inPos)..], Size())
      ensures r != Some(XzDataError) ==>
                Went(b, old(b.inPos), old(Fed())) && Emitted(b, old(b.outPos), old(b.out[..b.outPos]), old(total), total)
      ensures r.None? || r == Some(XzOk) ==> part != [] || sofar.phase == Going
      ensures r == Some(XzStreamEnd) ==> part == [] && sofar.phase == Ended && old(b.inPos) < b.inPos
      ensures r == Some(XzOk) ==> b.inPos == |b.input| || b.outPos == b.out.Length
      ensures r == Some(XzOk) && b.outPos < b.out.Length && sequence == LzmaRun ==> chunk.tempSize < chunk.compressed
      ensures r.None? ==>
                old(b.inPos) < b.inPos ||
                (old(sequence) == LzmaRun && b.inPos == old(b.inPos) && (sequence == LzmaRun ==> uncompressed < old(uncompressed)))
    {
      hide Valid, Doomed, StreamOf;
      if sequence == LzmaRun {
        r := OnRun(b);
      } else if sequence == CopyRun {
        r := OnCopy(b);
      } else if sequence == Properties || sequence == LzmaPrepare {
        r := OnPrepareRun(b);
      } else {
        ghost var mid, fed := b.inPos, Fed();
        if sequence == Control {
          r := OnControl(b);
        } else {
          OnSize(b);
          PartThere();
          r := None;
        }
        assert [b.input[mid]] == b.input[mid..b.inPos];
        if r == Some(XzDataError) {
          DoomedAll(fed, b.input, mid, b.inPos, Size());
        }
        assert total == old(total) + [];
      }
    }

    /** What was written is what the bytes taken say, or the beginning of it. */
    lemma ShowsNow()
      requires Valid()
      ensures Shows(before, part, total, Size())
    {
      hide Base, StreamOf, Begin, Short, Complete, Partly;
      TiedNow();
      if part != [] {
        PartShort();
        WrittenNow();
      } else {
        assert sofar.out + [] == sofar.out;
      }
    }

    lemma WrittenNow()
      requires Valid() && part != []
      ensures sofar.out <= total && CtxOk(sofar.ctx) && Partly(sofar.ctx, part, total[|sofar.out|..], Size())
    {
      hide Base, StreamOf, Setup, Begin, ChunkStart, Target, Decoded, Below, Steps, MachineOk;
      if sequence == LzmaRun {
        var m := ShiftM(chunk.dec.MachineOf(), |chunk.data|);
        chunk.dec.HistFacts();
        if chunk.dec.len > 0 {
          CopyMeans(chunk.dec.dict.hist, chunk.dec.lz.rep0, chunk.dec.len);
        }
        RunMade(sofar.ctx, part, Size(), chunk.data, chunk.steps, m, chunk.dec.dict.hist);
        assert total[|sofar.out|..] == chunk.dec.dict.hist[|chunk.m0.hist|..];
      } else {
        assert sequence != CopyRun ==> total[|sofar.out|..] == [];
        assert sequence == CopyRun ==> total[|sofar.out|..] == part[3..];
      }
    }

    lemma PartThere()
      requires Valid() && sequence != Control
      ensures part != []
    {}

    /** From the properties or the initial bytes on to the data. */
    method OnPrepareRun(b: XzBuf) returns (r: Option<Ret>)
      requires Valid() && b.Valid() && b.out != chunk.dec.dict.buf && b.out != chunk.temp
      requires b.inPos < |b.input| && sequence in {Properties, LzmaPrepare}
      modifies this, chunk, chunk.temp, chunk.dec, chunk.dec.probs, chunk.dec.dict, chunk.dec.dict.buf, b, b.out
      ensures r == Some(XzDataError) ==> Doomed(old(Fed()) + b.input[old(b.inPos)..], Size())
      ensures r != Some(XzDataError) ==>
                Went(b, old(b.inPos), old(Fed())) && Emitted(b, old(b.outPos), old(b.out[..b.outPos]), old(total), total)
      ensures r.None? || r == Some(XzOk) ==> part != [] || sofar.phase == Going
      ensures r != Some(XzStreamEnd)
      ensures r == Some(XzOk) ==> b.inPos == |b.input| || b.outPos == b.out.Length
      ensures r == Some(XzOk) && b.outPos < b.out.Length && sequence == LzmaRun ==> chunk.tempSize < chunk.compressed
      ensures r.None? ==> old(b.inPos) < b.inPos
    {
      hide Valid, Doomed;
      r := OnPrepare(b);
      assert total == old(total) + [];
      if r == None {
        ghost var mid, fedMid := b.inPos, Fed();
        r := OnRun(b);
        if r == Some(XzDataError) {
          DoomedFrom(old(Fed()), b.input, old(b.inPos), mid, Size());
        } else {
          WentOn(b, old(b.inPos), old(Fed()), mid, fedMid);
        }
      } else if r == Some(XzOk) {
        PartThere();
      }
    }
  }

  lemma RunMade(c: Ctx, p: seq<Byte>, size: nat, data: seq<Byte>, steps: nat, m: Machine, hist: seq<Byte>)
    requires CtxOk(c) && Started(p) && Setup(c, p).Some? && data <= Data(p)
    requires Decoded(ChunkStart(c, p), data, size, steps, m) && ChunkStart(c, p).hist <= hist <= m.hist && |hist| <= Target(c, p)
    ensures Partly(c, p, hist[|ChunkStart(c, p).hist|..], size)
  {
    hide Setup, ChunkStart, Steps, MachineOk, Partly;
    var m0, more := ChunkStart(c, p), Data(p)[|data|..];
    assert data + more == Data(p);
    DecodedLonger(m0, data, size, steps, m, more);
    assert m0.hist + hist[|m0.hist|..] == hist;
    assert Made(c, p, hist[|m0.hist|..], size, steps);
    PartlyMade(c, p, hist[|m0.hist|..], size);
  }

  /** Two decoders that have taken the same bytes, however these were split over
      calls and whatever room the calls had for output: one has written what the
      other has, or the beginning of it; between chunks both have written the same. */
  lemma SplitsAgree(s1: Stream, s2: Stream)
    requires s1.Valid() && s2.Valid() && s1.Size() == s2.Size() && s1.Fed() == s2.Fed()
    ensures Ordered(s1.total, s2.total)
    ensures s1.part == [] && s2.part == [] ==> s1.total == s2.total == StreamOf(s1.Fed(), s1.Size()).out
  {
    hide StreamOf, Shows, Ordered;
    s1.ShowsNow();
    s2.ShowsNow();
    SameBytesSameOutput(s1.before, s1.part, s1.total, s2.before, s2.part, s2.total, s1.Size());
  }

  lemma DoomedFrom(fed: seq<Byte>, input: seq<Byte>, a: nat, k: nat, size: nat)
    requires a <= k <= |input| && Doomed(fed + input[a..k] + input[k..], size)
    ensures Doomed(fed + input[a..], size)
  {
    assert fed + input[a..k] + input[k..] == fed + input[a..];
  }

  lemma EmittedTrans(b: XzBuf, p0: nat, out0: seq<Byte>, t0: seq<Byte>, p1: nat, out1: seq<Byte>, t1: seq<Byte>, t2: seq<Byte>)
    requires p0 <= p1 && |t0| <= |t1| && t1[..|t0|] == t0 && out1 == out0 + t1[|t0|..]
    requires Emitted(b, p1, out1, t1, t2)
    ensures Emitted(b, p0, out0, t0, t2)
  {
    assert t2[|t0|..] == t1[|t0|..] + t2[|t1|..];
  }

  lemma EmittedTail(b: XzBuf, p0: nat, out0: seq<Byte>, t0: seq<Byte>, t: seq<Byte>, tail: seq<Byte>)
    requires p0 <= b.outPos <= b.out.Length && t == t0 + tail && b.out[..b.outPos] == out0 + tail
    ensures Emitted(b, p0, out0, t0, t)
  {}

  lemma AppendFacts(h: seq<Byte>, h': seq<Byte>, k: nat, n: nat, w: seq<Byte>, total: seq<Byte>)
    requires h <= h' && |h'| == |h| + n && k <= |h| && total == w + h[k..]
    ensures var t' := total + h'[|h'| - n..];
            t' == w + h'[k..] && t'[..|total|] == total && t'[|total|..] == h'[|h'| - n..]
  {
    assert h'[k..] == h[k..] + h'[|h'| - n..];
  }

  /** The declared bytes are made, but the data are not what they should be. */
  lemma DoneFails(m0: Machine, data: seq<Byte>, size: nat, steps: nat, m: Machine, taken: seq<Byte>, n: nat, target: nat)
    requires Decoded(m0, data, size, steps, m) && Below(m0, data, size, steps, target) && data <= taken && |taken| <= n &&
             target <= |m.hist|
    requires |m.hist| != target || |data| != n || m.core.rc.code != 0
    ensures Fails(m0, taken, n, size, target)
  {
    hide Steps, Below, Whole, MachineOk;
    forall d: seq<Byte> | |d| == n && (taken <= d || d <= taken) ensures Whole(m0, d, size, target) == None {
      assert taken <= d;
      assert data == taken[..|data|] == d[..|data|];
      EndOfChunk(m0, data, size, steps, m, d, target);
    }
  }

  /** An LZMA chunk whose data are all decoded, correctly. */
  lemma WholeOver(before: seq<Byte>, p: seq<Byte>, size: nat, steps: nat, m: Machine)
    requires var s := StreamOf(before, size);
             && s.pending == [] && s.phase != Bad && Started(p) && !BadControl(p) &&
                 |Data(p)| == InSize(p) - RC_INIT_BYTES && Setup(s.ctx, p).Some?
             && Decoded(ChunkStart(s.ctx, p), Data(p), size, steps, m) &&
                 Below(ChunkStart(s.ctx, p), Data(p), size, steps, Target(s.ctx, p))
             && |m.hist| == Target(s.ctx, p) && m.core.rc.code == 0
    ensures var s := StreamOf(before, size);
            StreamOf(before + p, size) ==
            Sofar(Ctx(false, false, m.lz, m.core.probs, m.hist), s.out + m.hist[|ChunkStart(s.ctx, p).hist|..], [], Going)
  {
    hide StreamOf, Setup, ChunkStart, Target, Decoded, Below, MachineOk, Steps, Whole;
    var c := StreamOf(before, size).ctx;
    EndOfChunk(ChunkStart(c, p), Data(p), size, steps, m, Data(p), Target(c, p));
    ChunkOver(before, p, size);
  }

  lemma DataDooms(before: seq<Byte>, p: seq<Byte>, more: seq<Byte>, size: nat)
    requires var s := StreamOf(before, size);
             && s.pending == [] && s.phase != Bad && Started(p) && InSize(p) >= RC_INIT_BYTES && Setup(s.ctx, p).Some?
             && Fails(ChunkStart(s.ctx, p), Data(p) + more, InSize(p) - RC_INIT_BYTES, size, Target(s.ctx, p))
    ensures Doomed(before + p + more, size)
  {
    hide StreamOf, Doomed, NoWay, Fails, Setup, ChunkStart, Target, Data, Started;
    var c := StreamOf(before, size).ctx;
    PartGrows(c, p, more);
    NoWayData(c, p + more, size);
    NoWayDooms(before, p + more, size);
    assert before + p + more == before + (p + more);
  }

  lemma DoomedAll(fed: seq<Byte>, input: seq<Byte>, a: nat, k: nat, size: nat)
    requires a <= k <= |input| && Doomed(fed + input[a..k], size)
    ensures Doomed(fed + input[a..], size)
  {
    hide Doomed;
    DoomedLonger(fed + input[a..k], input[k..], size);
    assert fed + input[a..k] + input[k..] == fed + input[a..];
  }

  lemma PropsDigits(props: nat, pb: nat, lp: nat, lc: nat)
    requires props == 45 * pb + 9 * lp + lc && lc < 9 && lp < 5
    ensures pb == PropsPb(props) && lp == PropsLp(props) && lc == PropsLc(props)
  {
    assert props / 9 == 5 * pb + lp;
  }

  lemma InitGrows(p: seq<Byte>, h: nat, byte: Byte, p0: seq<Byte>, input: seq<Byte>, a: nat, k: nat)
    requires h <= |p| && a <= k < |input| && p == p0 + input[a..k] && byte == input[k]
    ensures InitCode((p + [byte])[h..]) == ((InitCode(p[h..]) * 256) % TWO32 + byte) % TWO32
    ensures p + [byte] == p0 + input[a..k + 1]
  {
    assert (p + [byte])[h..] == p[h..] + [byte];
    assert (p[h..] + [byte])[..|p[h..]|] == p[h..];
  }

  lemma HeaderDooms(before: seq<Byte>, p: seq<Byte>, size: nat)
    requires var s := StreamOf(before, size); s.pending == [] && s.phase != Bad
    requires |p| >= 5 && IsLzma(p) && (InSize(p) < RC_INIT_BYTES || (HasProps(p) && |p| >= 6 && !PropsGood(p[5])))
    ensures Doomed(before + p, size)
  {
    hide StreamOf, Doomed, NoWay;
    NoWayHeader(StreamOf(before, size).ctx, p, size);
    NoWayDooms(before, p, size);
  }
}
