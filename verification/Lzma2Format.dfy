/** LZMA2 streams from the writer's side: blocks of symbols or of plain bytes, each
    with what it resets, and the bytes that stand for them. */
module Lzma2Format {
  import opened Common
  import opened LzmaFormat

  /** What a block of symbols starts anew: nothing, the state, the properties as well,
      or all of it and the dictionary. */
  datatype Reset = NoReset | StateReset | NewProps | DictReset

  datatype Block = Packed(reset: Reset, props: Props, tokens: seq<Token>) | Plain(dictReset: bool, bytes: seq<Byte>)

  /** The writer between two blocks; `started` after a dictionary reset, `ready` when
      properties were given since the last one. */
  datatype Writer = Writer(props: Props, memory: Memory, model: Model, started: bool, ready: bool)

  predicate WriterOk(w: Writer) {
    (w.ready ==> w.started) && (w.ready ==> PropsFit(w.props) && MemoryOk(w.memory))
  }

  const NOTHING := Memory(0, [0, 0, 0, 0], [])

  const NEW_WRITER := Writer(Props(0, 0, 0), NOTHING, map[], false, false)

  /** A block may come here. */
  predicate Allowed(w: Writer, b: Block) {
    match b
    case Packed(reset, props, _) => PropsFit(props) && (reset.DictReset? || (w.started && (reset.NewProps? || w.ready)))
    case Plain(dictReset, _) => dictReset || w.started
  }

  /** The writer when the symbols of a block begin. */
  function Opened(w: Writer, reset: Reset, props: Props): (r: Writer)
    requires WriterOk(w) && Allowed(w, Packed(reset, props, []))
    ensures WriterOk(r) && r.ready
  {
    Writer(
      if reset.DictReset? || reset.NewProps? then props else w.props,
      if reset.NoReset? then w.memory else NOTHING.(text := if reset.DictReset? then [] else w.memory.text),
      if reset.NoReset? then w.model else map[],
      true, true)
  }

  function Payload(w: Writer, ts: seq<Token>, size: nat): (s: seq<Byte>)
    requires WriterOk(w) && w.ready && TokensFit(w.memory, ts, size)
    ensures |s| >= 5
  {
    Written(w.model, AllChoices(w.props, w.memory, ts, size))
  }

  /** The text of a block. */
  function TokenText(w: Writer, ts: seq<Token>, size: nat): seq<Byte>
    requires WriterOk(w) && w.ready && TokensFit(w.memory, ts, size)
  {
    Meanings(w.memory, ts, size).text[|w.memory.text|..]
  }

  /** The symbols make sense, and the sizes fit their fields. */
  predicate BlockFits(w: Writer, b: Block, size: nat)
    requires WriterOk(w)
  {
    && Allowed(w, b)
    && match b
       case Packed(reset, props, ts) =>
         var o := Opened(w, reset, props);
         && TokensFit(o.memory, ts, size)
         && 1 <= |TokenText(o, ts, size)| <= 0x20_0000 && |Payload(o, ts, size)| <= 0x1_0000
       case Plain(_, bytes) => 1 <= |bytes| <= 0x1_0000
  }

  function BlockText(w: Writer, b: Block, size: nat): seq<Byte>
    requires WriterOk(w) && BlockFits(w, b, size)
  {
    match b
    case Packed(reset, props, ts) => TokenText(Opened(w, reset, props), ts, size)
    case Plain(_, bytes) => bytes
  }

  function After(w: Writer, b: Block, size: nat): (r: Writer)
    requires WriterOk(w) && BlockFits(w, b, size)
    ensures WriterOk(r)
  {
    match b
    case Packed(reset, props, ts) =>
      var o := Opened(w, reset, props);
      o.(memory := Meanings(o.memory, ts, size), model := Closed(o.model, AllChoices(o.props, o.memory, ts, size)).model)
    case Plain(dictReset, bytes) =>
      w.(memory := w.memory.(text := if dictReset then bytes else w.memory.text + bytes),
         started := true, ready := w.ready && !dictReset)
  }

  /** 0x80, 0xA0, 0xC0 and 0xE0. */
  function Control(reset: Reset): nat {
    match reset
    case NoReset => 0x80
    case StateReset => 0xA0
    case NewProps => 0xC0
    case DictReset => 0xE0
  }

  /** The low two bytes of a size less one. */
  function TwoBytes(n: nat): seq<Byte>
    requires n > 0
  {
    [(n - 1) / 256 % 256, (n - 1) % 256]
  }

  function PropsByte(p: Props): Byte
    requires PropsFit(p)
  {
    (p.pb * 5 + p.lp) * 9 + p.lc
  }

  /** Control byte and sizes, and properties where there are new ones. */
  function Header(reset: Reset, props: Props, out: nat, inp: nat): seq<Byte>
    requires PropsFit(props) && 1 <= out <= 0x20_0000 && 1 <= inp <= 0x1_0000
  {
    [Control(reset) + (out - 1) / 0x1_0000] + TwoBytes(out) + TwoBytes(inp) +
      if reset.DictReset? || reset.NewProps? then [PropsByte(props)] else []
  }

  function BlockBytes(w: Writer, b: Block, size: nat): seq<Byte>
    requires WriterOk(w) && BlockFits(w, b, size)
  {
    match b
    case Packed(reset, props, ts) =>
      var s := Payload(Opened(w, reset, props), ts, size);
      Header(reset, props, |BlockText(w, b, size)|, |s|) + s
    case Plain(dictReset, bytes) => [if dictReset then 1 else 2] + TwoBytes(|bytes|) + bytes
  }

  // ------------------------------------------------------------------- whole streams

  predicate BlocksFit(bs: seq<Block>, size: nat)
    decreases |bs|, 0
  {
    bs == [] || (var n := |bs| - 1; BlocksFit(bs[..n], size) && BlockFits(AfterAll(bs[..n], size), bs[n], size))
  }

  function AfterAll(bs: seq<Block>, size: nat): (r: Writer)
    requires BlocksFit(bs, size)
    ensures WriterOk(r)
    decreases |bs|, 1
  {
    if bs == [] then NEW_WRITER else After(AfterAll(bs[..|bs| - 1], size), bs[|bs| - 1], size)
  }

  function AllText(bs: seq<Block>, size: nat): seq<Byte>
    requires BlocksFit(bs, size)
  {
    if bs == [] then []
    else
      var n := |bs| - 1;
      AllText(bs[..n], size) + BlockText(AfterAll(bs[..n], size), bs[n], size)
  }

  function AllBytes(bs: seq<Block>, size: nat): seq<Byte>
    requires BlocksFit(bs, size)
  {
    if bs == [] then []
    else
      var n := |bs| - 1;
      AllBytes(bs[..n], size) + BlockBytes(AfterAll(bs[..n], size), bs[n], size)
  }
}
