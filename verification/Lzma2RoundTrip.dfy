/** What an LZMA2 stream stands for to the decoder is what its writer put into it. */
module Lzma2RoundTrip {
  import opened Common
  import opened LzmaRange
  import opened LzmaSymbol
  import opened LzmaMachine
  import opened LzmaWhole
  import opened Lzma2Spec
  import opened LzmaTrack
  import opened LzmaRoundTrip
  import Format = LzmaFormat
  import opened Lzma2Format

  /** Writer and decoder between two blocks. */
  ghost predicate Matches(c: Ctx, w: Writer) {
    && CtxOk(c) && WriterOk(w) && c.needDict == !w.started && c.needProps == !w.ready && c.hist == w.memory.text
    && (w.ready ==> c.lz == LzOf(w.props, w.memory) && Agree(w.model, c.probs))
  }

  /** The initial bytes make the first value of the code. */
  lemma {:induction false} InitValue(s: seq<Byte>)
    requires Value(s) < TWO32
    ensures InitCode(s) == Value(s)
    decreases |s|
  {
    if s != [] {
      var n := |s| - 1;
      assert Value(s) == 256 * Value(s[..n]) + s[n];
      assert InitCode(s) == ((InitCode(s[..n]) * 256) % TWO32 + s[n]) % TWO32;
      hide Value, InitCode;
      InitValue(s[..n]);
      NoCarry(Value(s[..n]), s[n]);
    }
  }

  lemma NoCarry(v: nat, b: Byte)
    requires 256 * v + b < TWO32
    ensures ((v * 256) % TWO32 + b) % TWO32 == 256 * v + b
  {}

  lemma PropsRead(p: Format.Props)
    requires Format.PropsFit(p)
    ensures var x := PropsByte(p);
            PropsGood(x) && x % 9 == p.lc && x / 9 % 5 == p.lp && x / 45 == p.pb
  {
    var x: nat := PropsByte(p);
    DivIs(x, 9, p.pb * 5 + p.lp, p.lc);
    DivIs(p.pb * 5 + p.lp, 5, p.pb, p.lp);
    DivIs(x, 45, p.pb, p.lp * 9 + p.lc);
  }

  /** The sizes are in their fields. */
  lemma SizesRead(reset: Reset, props: Format.Props, out: nat, s: seq<Byte>)
    requires Format.PropsFit(props) && 1 <= out <= 0x20_0000 && 5 <= |s| <= 0x1_0000
    ensures var p := Header(reset, props, out, |s|) + s;
            && |p| > 5 && IsLzma(p) && HeaderLen(p) == |Header(reset, props, out, |s|)| && InSize(p) == |s| && OutSize(p) == out
            && Control(reset) <= p[0] < Control(reset) + 32 && (p[0] >= 0xC0 ==> p[5] == PropsByte(props))
  {
    var p := Header(reset, props, out, |s|) + s;
    var top, o, n := (out - 1) / 0x1_0000, out - 1, |s| - 1;
    assert p[0] == Control(reset) + top && p[1] == o / 256 % 256 && p[2] == o % 256;
    assert p[3] == n / 256 % 256 && p[4] == n % 256;
    hide Header, PropsByte;
    SizeParts(o);
    SizeParts(n);
    assert Control(reset) % 32 == 0 && top < 32;
  }

  lemma SizeParts(n: nat)
    ensures n == n / 0x1_0000 * 0x1_0000 + n / 256 % 256 * 256 + n % 256
  {
    assert n / 256 / 256 == n / 0x1_0000;
  }

  /** A header says what it was made of. */
  lemma HeaderRead(reset: Reset, props: Format.Props, out: nat, s: seq<Byte>)
    requires Format.PropsFit(props) && 1 <= out <= 0x20_0000 && 5 <= |s| <= 0x1_0000
    ensures var p := Header(reset, props, out, |s|) + s;
            && |p| > 5 && IsLzma(p) && !BadControl(p) && Complete(p) && Started(p) && Init(p) == s[..5] && Data(p) == s[5..]
            && OutSize(p) == out && Control(reset) <= p[0] < Control(reset) + 32
            && (p[0] >= 0xC0 ==> p[5] == PropsByte(props))
  {
    SizesRead(reset, props, out, s);
    var h := Header(reset, props, out, |s|);
    var p := h + s;
    hide Header, PropsByte, HeaderLen, InSize, OutSize, Control;
    assert Init(p) == s[..5];
    assert Data(p) == s[5..];
  }

  /** The probabilities a block of symbols starts with. */
  function StartProbs(c: Ctx, reset: Reset): seq<nat> {
    if reset.NoReset? then c.probs else seq(PROBS_TOTAL, _ => 1024)
  }

  lemma StartAgrees(c: Ctx, w: Writer, reset: Reset, props: Format.Props)
    requires Matches(c, w) && Allowed(w, Packed(reset, props, []))
    ensures ProbsOk(StartProbs(c, reset)) && Agree(Opened(w, reset, props).model, StartProbs(c, reset))
  {
    hide Agree;
    FreshAgree();
  }

  /** The decoder starts a block where the writer does. */
  lemma SameOpening(c: Ctx, w: Writer, reset: Reset, props: Format.Props, p: seq<Byte>, s: seq<Byte>)
    requires Matches(c, w) && Allowed(w, Packed(reset, props, []))
    requires Started(p) && Init(p) == s && Value(s) < TWO32 && Control(reset) <= p[0] < Control(reset) + 32
    requires p[0] >= 0xC0 ==> |p| > 5 && p[5] == PropsByte(props)
    requires CoreOk(Core(Rc(TWO32 - 1, Value(s), 0), StartProbs(c, reset)))
    ensures Setup(c, p).Some?
    ensures var o := Opened(w, reset, props);
            ChunkStart(c, p) == At(Core(Rc(TWO32 - 1, Value(s), 0), StartProbs(c, reset)), o.props, o.memory)
  {
    hide Setup, ChunkStart, CtxReady, InitCode, Value, Agree, CoreOk, Init, PropsGood;
    ChunkStartIs(c, p);
    InitValue(s);
    PropsRead(props);
    var o := Opened(w, reset, props);
    SameParts(ChunkStart(c, p), At(Core(Rc(TWO32 - 1, Value(s), 0), StartProbs(c, reset)), o.props, o.memory));
  }

  /** A block of symbols. */
  lemma PackedRead(c: Ctx, w: Writer, b: Block, size: nat)
    requires Matches(c, w) && BlockFits(w, b, size) && b.Packed?
    ensures var p := BlockBytes(w, b, size);
            && p != [] && p[0] != 0 && !BadControl(p) && Complete(p)
            && var r := Chunk(c, p, size);
               r.Some? && r.value.1 == BlockText(w, b, size) && Matches(r.value.0, After(w, b, size))
  {
    hide Setup, ChunkStart, Value, Agree, Whole, Chunk, CoreOk, CtxReady;
    hide Format.Written, Format.AllChoices, Format.Closed, Format.Meanings, Format.TokensFit;
    hide Header, Complete, BadControl, ProbsOk, Started, Init, Data, OutSize, LzOk, LzOf, Format.MemoryOk;
    var o := Opened(w, b.reset, b.props);
    var s, out := Payload(o, b.tokens, size), |BlockText(w, b, size)|;
    var p := BlockBytes(w, b, size);
    HeaderRead(b.reset, b.props, out, s);
    StartAgrees(c, w, b.reset, b.props);
    DataRoundTrip(o.props, o.memory, b.tokens, size, o.model, StartProbs(c, b.reset));
    SameOpening(c, w, b.reset, b.props, p, s[..5]);
    ChunkFromStart(c, p, size);
    assert |ChunkStart(c, p).hist| + OutSize(p) == |Format.Meanings(o.memory, b.tokens, size).text|;
  }

  lemma PlainRead(c: Ctx, w: Writer, b: Block, size: nat)
    requires Matches(c, w) && BlockFits(w, b, size) && b.Plain?
    ensures var p := BlockBytes(w, b, size);
            && p != [] && p[0] != 0 && !BadControl(p) && Complete(p)
            && var r := Chunk(c, p, size);
               r.Some? && r.value.1 == BlockText(w, b, size) && Matches(r.value.0, After(w, b, size))
  {
    hide Agree, Chunk, CtxReady, ProbsOk, LzOk;
    var p := BlockBytes(w, b, size);
    assert p[1] == (|b.bytes| - 1) / 256 % 256 && p[2] == (|b.bytes| - 1) % 256;
    assert p[3..] == b.bytes;
    CopyChunk(c, p, size);
  }

  lemma NewMatches()
    ensures Matches(CTX0, NEW_WRITER)
  {
    Ctx0Ok();
  }

  /** The blocks of a stream. */
  lemma {:induction false} BlocksRead(bs: seq<Block>, size: nat)
    requires BlocksFit(bs, size)
    ensures var r := StreamOf(AllBytes(bs, size), size);
            && r.pending == [] && r.phase == Going && r.out == AllText(bs, size) && Matches(r.ctx, AfterAll(bs, size))
    decreases |bs|
  {
    hide Chunk, Complete, BadControl, Matches, BlockBytes, BlockText, After, BlockFits;
    if bs == [] {
      NewMatches();
    } else {
      hide StreamOf;
      var n := |bs| - 1;
      BlocksRead(bs[..n], size);
      var before, w := AllBytes(bs[..n], size), AfterAll(bs[..n], size);
      var c := StreamOf(before, size).ctx;
      if bs[n].Packed? { PackedRead(c, w, bs[n], size); } else { PlainRead(c, w, bs[n], size); }
      ChunkOver(before, BlockBytes(w, bs[n], size), size);
    }
  }

  /** The stream of any blocks, with its end marker, is correct and stands for their text. */
  lemma StreamRoundTrip(bs: seq<Block>, size: nat)
    requires BlocksFit(bs, size)
    ensures var r := StreamOf(AllBytes(bs, size) + [0], size);
            r.phase == Ended && r.out == AllText(bs, size)
  {
    hide StreamOf, Matches;
    BlocksRead(bs, size);
    EndMarker(AllBytes(bs, size), size);
  }
}
