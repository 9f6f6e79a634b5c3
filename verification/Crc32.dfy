/** The table-driven CRC-32 of xz_crc32.c against the bit-at-a-time definition:
    the reflected CRC of clause 3.2.9 of IEEE 802.3-2018. */
module Crc32 {

  const POLY: bv32 := 0xEDB88320

  // ------------------------------------------------------------- the definition

  function PolyIf(c: bool): bv32 { if c then POLY else 0 }

  /** One message bit goes into the register. */
  function BitFeed(r: bv32, b: bool): bv32 {
    (r >> 1) ^ PolyIf((r & 1 == 1) != b)
  }

  function Feed(r: bv32, bits: seq<bool>): bv32
    decreases |bits|
  {
    if bits == [] then r else Feed(BitFeed(r, bits[0]), bits[1..])
  }

  /** The bits of a byte, least significant first. */
  function ByteBits(b: bv8): seq<bool> {
    [b & 1 == 1, b & 2 == 2, b & 4 == 4, b & 8 == 8, b & 16 == 16, b & 32 == 32, b & 64 == 64, b & 128 == 128]
  }

  function MessageBits(m: seq<bv8>): seq<bool> {
    if m == [] then [] else ByteBits(m[0]) + MessageBits(m[1..])
  }

  function Not(r: bv32): bv32 { !r }

  /** The CRC of m, continued from crc. */
  function Crc(m: seq<bv8>, crc: bv32): bv32 {
    Not(Feed(Not(crc), MessageBits(m)))
  }

  // --------------------------------------------------------------- the register

  function BitStep(r: bv32): bv32 {
    (r >> 1) ^ PolyIf(r & 1 == 1)
  }

  function Steps(r: bv32, n: nat): bv32
    decreases n
  {
    if n == 0 then r else Steps(BitStep(r), n - 1)
  }

  /** n bits of zero shifted out. */
  function Drop(v: bv32, n: nat): bv32
    decreases n
  {
    if n == 0 then v else Drop(v >> 1, n - 1)
  }

  /** The low n bits of v go in. */
  function FeedLow(r: bv32, v: bv32, n: nat): bv32
    decreases n
  {
    if n == 0 then r else FeedLow(BitFeed(r, v & 1 == 1), v >> 1, n - 1)
  }

  lemma XorShift(a: bv32, b: bv32)
    ensures (a ^ b) >> 1 == (a >> 1) ^ (b >> 1)
  {}

  lemma XorLow(a: bv32, b: bv32)
    ensures ((a ^ b) & 1 == 1) <==> ((a & 1 == 1) != (b & 1 == 1))
  {}

  lemma XorIf(x: bv32, y: bv32, i: bool, j: bool)
    ensures (x ^ PolyIf(i)) ^ (y ^ PolyIf(j)) == (x ^ y) ^ PolyIf(i != j)
  {
    XorMove(x, y, PolyIf(i), PolyIf(j));
  }

  lemma XorMove(x: bv32, y: bv32, p: bv32, q: bv32)
    ensures (x ^ p) ^ (y ^ q) == (x ^ y) ^ (p ^ q) && p ^ p == 0 && p ^ 0 == p && 0 ^ p == p
  {}

  lemma StepLinear(a: bv32, b: bv32)
    ensures BitStep(a ^ b) == BitStep(a) ^ BitStep(b)
  {
    XorShift(a, b);
    XorLow(a, b);
    var x, y, i, j := a >> 1, b >> 1, a & 1 == 1, b & 1 == 1;
    StepIs(a);
    StepIs(b);
    StepIs(a ^ b);
    hide BitStep, PolyIf;
    XorIf(x, y, i, j);
  }

  lemma StepIs(r: bv32)
    ensures BitStep(r) == (r >> 1) ^ PolyIf(r & 1 == 1)
  {}

  /** Exclusive or, as a function of its own where the bits do not matter. */
  function Xor(a: bv32, b: bv32): bv32 { a ^ b }

  lemma {:induction false} StepsLinear(a: bv32, b: bv32, n: nat)
    ensures Steps(Xor(a, b), n) == Xor(Steps(a, n), Steps(b, n))
    decreases n
  {
    hide Xor, BitStep;
    if n > 0 {
      XorStep(a, b);
      StepsLinear(BitStep(a), BitStep(b), n - 1);
    }
  }

  lemma XorStep(a: bv32, b: bv32)
    ensures BitStep(Xor(a, b)) == Xor(BitStep(a), BitStep(b))
  {
    hide BitStep;
    StepLinear(a, b);
  }

  /** Different registers stay different: the polynomial's top bit tells the one
      shifted out. */
  lemma StepInjective(a: bv32, b: bv32)
    requires BitStep(a) == BitStep(b)
    ensures a == b
  {}

  lemma {:induction false} StepsInjective(a: bv32, b: bv32, n: nat)
    requires Steps(a, n) == Steps(b, n)
    ensures a == b
    decreases n
  {
    if n > 0 {
      StepsInjective(BitStep(a), BitStep(b), n - 1);
      StepInjective(a, b);
    }
  }

  lemma ShiftIn(r: bv32, v: bv32)
    ensures BitStep(r ^ v) == BitFeed(r, v & 1 == 1) ^ (v >> 1)
  {
    XorShift(r, v);
    XorLow(r, v);
    StepIs(r ^ v);
    FeedIs(r, v & 1 == 1);
    var x, y, c := r >> 1, v >> 1, (r & 1 == 1) != (v & 1 == 1);
    hide BitStep, BitFeed, PolyIf;
    XorSwap(x, y, PolyIf(c));
  }

  lemma FeedIs(r: bv32, b: bool)
    ensures BitFeed(r, b) == (r >> 1) ^ PolyIf((r & 1 == 1) != b)
  {}

  lemma XorSwap(x: bv32, y: bv32, p: bv32)
    ensures (x ^ y) ^ p == (x ^ p) ^ y
  {}

  lemma XorShiftIn(r: bv32, v: bv32)
    ensures BitStep(Xor(r, v)) == Xor(BitFeed(r, v & 1 == 1), v >> 1)
  {
    hide BitStep, BitFeed;
    ShiftIn(r, v);
  }

  /** Bits may go in one by one or all at once. */
  lemma {:induction false} AllAtOnce(r: bv32, v: bv32, n: nat)
    ensures Steps(Xor(r, v), n) == Xor(FeedLow(r, v, n), Drop(v, n))
    decreases n
  {
    hide BitStep, BitFeed, Xor;
    if n > 0 {
      XorShiftIn(r, v);
      AllAtOnce(BitFeed(r, v & 1 == 1), v >> 1, n - 1);
    }
  }

  lemma Drop8(v: bv32)
    ensures Drop(v, 8) == v >> 8
  {
    Drop4(v);
    Drop4(v >> 4);
    DropSplit(v, 4, 4);
  }

  lemma Drop4(v: bv32)
    ensures Drop(v, 4) == v >> 4
  {
    assert Drop(v, 4) == Drop(v >> 1, 3) == Drop(v >> 1 >> 1, 2) == Drop(v >> 1 >> 1 >> 1, 1) == Drop(v >> 1 >> 1 >> 1 >> 1, 0);
  }

  lemma {:induction false} DropSplit(v: bv32, a: nat, b: nat)
    ensures Drop(Drop(v, a), b) == Drop(v, a + b)
    decreases a
  {
    if a > 0 { DropSplit(v >> 1, a - 1, b); }
  }

  /** Bits above the low n only move down: the register gets them later. */
  lemma HighMovesDown(r: bv32, v: bv32, n: nat)
    requires FeedLow(0, v, n) == 0
    ensures Steps(Xor(r, v), n) == Xor(Steps(r, n), Drop(v, n))
  {
    StepsLinear(r, v, n);
    AllAtOnce(0, v, n);
    XorZero(v);
    XorZero(Drop(v, n));
    hide Xor, Steps, Drop, FeedLow;
  }

  lemma XorZero(v: bv32)
    ensures Xor(0, v) == v && Xor(v, 0) == v
  {}

  function Shl(w: bv32): bv32 { w << 8 }

  function Trim(w: bv32): bv32 { w & 0x00FF_FFFF }

  lemma HighIsDropped(w: bv32)
    ensures FeedLow(0, Shl(w), 8) == 0 && Drop(Shl(w), 8) == Trim(w)
  {
    Drop8(w << 8);
    LowZero(w);
    ZeroBits(w << 8, 8);
  }

  /** The low n bits of v are zero. */
  predicate LowClear(v: bv32, n: nat) {
    n == 0 || (v & 1 == 0 && LowClear(v >> 1, n - 1))
  }

  lemma {:induction false} ZeroBits(v: bv32, n: nat)
    requires LowClear(v, n)
    ensures FeedLow(0, v, n) == 0
    decreases n
  {
    if n > 0 { ZeroBits(v >> 1, n - 1); }
  }

  lemma LowZero(w: bv32)
    ensures LowClear(w << 8, 8)
  {
    var v := w << 8;
    Clear4(v);
    Clear4(v >> 4);
    ClearJoin(v);
  }

  lemma Clear4(v: bv32)
    requires v & 15 == 0
    ensures LowClear(v, 4)
  {
    assert v & 1 == 0 && (v >> 1) & 1 == 0 && (v >> 1 >> 1) & 1 == 0 && (v >> 1 >> 1 >> 1) & 1 == 0;
    assert LowClear(v >> 1 >> 1 >> 1 >> 1, 0);
    assert LowClear(v >> 1 >> 1 >> 1, 1);
    assert LowClear(v >> 1 >> 1, 2);
    assert LowClear(v >> 1, 3);
  }

  lemma ClearJoin(v: bv32)
    requires LowClear(v, 4) && LowClear(v >> 4, 4)
    ensures LowClear(v, 8)
  {
    Drop4(v);
    LowSplit(v, 4, 4);
  }

  lemma {:induction false} LowSplit(v: bv32, a: nat, b: nat)
    requires LowClear(v, a) && LowClear(Drop(v, a), b)
    ensures LowClear(v, a + b)
    decreases a
  {
    if a > 0 { LowSplit(v >> 1, a - 1, b); }
  }

  // ------------------------------------------------------------- a byte at a time

  function Wide(b: bv8): bv32 { b as bv32 }

  lemma FeedByte(r: bv32, b: bv8)
    ensures Feed(r, ByteBits(b)) == Steps(Xor(r, Wide(b)), 8)
  {
    AllAtOnce(r, Wide(b), 8);
    Drop8(Wide(b));
    XorZero(FeedLow(r, Wide(b), 8));
    assert Wide(b) >> 8 == 0;
    LowBits(r, Wide(b), b);
    hide Steps, FeedLow, Feed, Drop, Xor;
  }

  function Bit(v: bv32): bool { v & 1 == 1 }

  lemma LowBits(r: bv32, v: bv32, b: bv8)
    requires v == Wide(b)
    ensures FeedLow(r, v, 8) == Feed(r, ByteBits(b))
  {
    hide Feed, FeedLow, Drop, BitFeed;
    var bits := ByteBits(b);
    var r4 := FeedLow(r, v, 4);
    BitsOf(v, b);
    hide ByteBits, Wide, Bit;
    Feed4(r, v, bits[..4]);
    Feed4(r4, v >> 4, bits[4..]);
    assert bits == bits[..4] + bits[4..];
    FeedJoin(r, bits[..4], bits[4..]);
    FeedLowJoin(r, v, 4, 4);
    Drop4(v);
  }

  lemma BitsOf(v: bv32, b: bv8)
    requires v == Wide(b)
    ensures var bits := ByteBits(b);
            && bits[0] == Bit(v) && bits[1] == Bit(v >> 1) && bits[2] == Bit(v >> 1 >> 1) && bits[3] == Bit(v >> 1 >> 1 >> 1)
            && bits[4] == Bit(v >> 4) && bits[5] == Bit(v >> 4 >> 1) && bits[6] == Bit(v >> 4 >> 1 >> 1) &&
                bits[7] == Bit(v >> 4 >> 1 >> 1 >> 1)
  {
    BitsOfWide(b);
  }

  lemma BitsOfWide(b: bv8)
    ensures var v: bv32 := b as bv32;
            && (b & 1 == 1) == (v & 1 == 1) && (b & 2 == 2) == ((v >> 1) & 1 == 1)
            && (b & 4 == 4) == ((v >> 1 >> 1) & 1 == 1) && (b & 8 == 8) == ((v >> 1 >> 1 >> 1) & 1 == 1)
            && (b & 16 == 16) == ((v >> 4) & 1 == 1) && (b & 32 == 32) == ((v >> 4 >> 1) & 1 == 1)
            && (b & 64 == 64) == ((v >> 4 >> 1 >> 1) & 1 == 1) && (b & 128 == 128) == ((v >> 4 >> 1 >> 1 >> 1) & 1 == 1)
  {}

  lemma Feed4(r: bv32, v: bv32, bits: seq<bool>)
    requires |bits| == 4 && bits[0] == Bit(v) && bits[1] == Bit(v >> 1) && bits[2] == Bit(v >> 1 >> 1) && bits[3] == Bit(v >> 1 >> 1 >> 1)
    ensures Feed(r, bits) == FeedLow(r, v, 4)
    ensures Feed(r, bits) == BitFeed(BitFeed(BitFeed(BitFeed(r, bits[0]), bits[1]), bits[2]), bits[3])
  {
    hide BitFeed;
    var r1 := BitFeed(r, bits[0]); var r2 := BitFeed(r1, bits[1]); var r3 := BitFeed(r2, bits[2]); var r4 := BitFeed(r3, bits[3]);
    assert Feed(r, bits) == Feed(r1, bits[1..]);
    assert Feed(r1, bits[1..]) == Feed(r2, bits[2..]) by { assert bits[1..][1..] == bits[2..]; }
    assert Feed(r2, bits[2..]) == Feed(r3, bits[3..]) by { assert bits[2..][1..] == bits[3..]; }
    assert Feed(r3, bits[3..]) == r4 by { assert bits[3..][1..] == []; }
    assert FeedLow(r, v, 4) == FeedLow(r1, v >> 1, 3) == FeedLow(r2, v >> 1 >> 1, 2) == FeedLow(r3, v >> 1 >> 1 >> 1, 1) == r4;
  }

  lemma {:induction false} FeedJoin(r: bv32, x: seq<bool>, y: seq<bool>)
    ensures Feed(r, x + y) == Feed(Feed(r, x), y)
    decreases |x|
  {
    hide BitFeed;
    if x == [] {
      assert x + y == y;
    } else {
      FeedJoin(BitFeed(r, x[0]), x[1..], y);
      assert (x + y)[1..] == x[1..] + y;
    }
  }

  lemma {:induction false} FeedLowJoin(r: bv32, v: bv32, a: nat, b: nat)
    ensures FeedLow(r, v, a + b) == FeedLow(FeedLow(r, v, a), Drop(v, a), b)
    decreases a
  {
    hide BitFeed;
    if a > 0 { FeedLowJoin(BitFeed(r, v & 1 == 1), v >> 1, a - 1, b); }
  }

  /** The table lookup makes eight steps at once. */
  lemma TableStep(r: bv32, b: bv8)
    ensures Steps(Xor(r, Wide(b)), 8) == Xor(Steps(Xor(Wide(b), Low(r)), 8), High(r))
  {
    hide Steps, FeedLow, Drop, Xor, Wide, Low, High;
    var low := Xor(Wide(b), Low(r));
    var v := Shl(High(r));
    SplitWord(r, Wide(b));
    HighStays(r);
    hide Shl;
    HighMovesDown(low, v, 8);
  }

  function Low(r: bv32): bv32 { r & 0xFF }

  function High(r: bv32): bv32 { r >> 8 }

  lemma TrimHigh(r: bv32)
    ensures Trim(High(r)) == High(r)
  {}

  lemma HighStays(r: bv32)
    ensures FeedLow(0, Shl(High(r)), 8) == 0 && Drop(Shl(High(r)), 8) == High(r)
  {
    hide FeedLow, Drop, Shl, Trim, High;
    HighIsDropped(High(r));
    TrimHigh(r);
  }

  lemma SplitWord(r: bv32, b: bv32)
    ensures Xor(Xor(b, Low(r)), Shl(High(r))) == Xor(r, b)
  {
    hide Xor, Low, High, Shl;
    Parts(r);
    XorAssoc(b, Low(r), Shl(High(r)));
  }

  lemma Parts(r: bv32)
    ensures Xor(Low(r), Shl(High(r))) == r
  {}

  lemma XorAssoc(a: bv32, b: bv32, c: bv32)
    ensures Xor(Xor(a, b), c) == Xor(Xor(b, c), a)
  {}

  // ----------------------------------------------------------------- the source

  ghost predicate TableOk(table: seq<bv32>) {
    |table| == 256 && forall i :: 0 <= i < 256 ==> table[i] == Steps(Wide(i as bv8), 8)
  }

  lemma MaskTrick(r: bv32)
    ensures (r >> 1) ^ (POLY & !((r & 1) - 1)) == BitStep(r)
  {
    if r & 1 == 1 { assert POLY & !((r & 1) - 1) == POLY; } else { assert r & 1 == 0; assert POLY & !((r & 1) - 1) == 0; }
  }

  /** xz_crc32_init. */
  method Init(table: array<bv32>)
    requires table.Length == 256
    modifies table
    ensures TableOk(table[..])
  {
    hide Steps;
    for i := 0 to 256
      invariant forall k :: 0 <= k < i ==> table[k] == Steps(Wide(k as bv8), 8)
    {
      table[i] := EightSteps(Wide(i as bv8));
    }
  }

  lemma SameByte(b: bv8)
    ensures 0 <= b as int < 256 && (b as int) as bv8 == b
  {}

  method EightSteps(r0: bv32) returns (r: bv32)
    ensures r == Steps(r0, 8)
  {
    hide BitStep;
    r := r0;
    for j := 0 to 8
      invariant Steps(r, 8 - j) == Steps(r0, 8)
    {
      MaskTrick(r);
      r := (r >> 1) ^ (POLY & !((r & 1) - 1));
    }
  }

  /** xz_crc32: on every buffer the bit-at-a-time CRC. */
  method XzCrc32(table: array<bv32>, buf: seq<bv8>, crc: bv32) returns (r: bv32)
    requires TableOk(table[..])
    ensures r == Crc(buf, crc)
  {
    hide Steps, Feed, MessageBits, Xor, Wide, TableOk, Not;
    r := Not(crc);
    var k := 0;
    ghost var r0 := r;
    RestStart(r0, buf);
    while k < |buf|
      invariant k <= |buf| && Feed(r0, MessageBits(buf)) == Feed(r, MessageBits(buf[k..]))
    {
      FeedNext(r, buf[k..]);
      r := LookUp(table, r, buf[k]);
      assert buf[k..][1..] == buf[k + 1..];
      k := k + 1;
    }
    RestEnd(r, buf[k..]);
    r := Not(r);
  }

  /** table[*buf ^ (crc & 0xFF)] ^ (crc >> 8). */
  method LookUp(table: array<bv32>, crc: bv32, b: bv8) returns (r: bv32)
    requires TableOk(table[..])
    ensures r == Steps(Xor(crc, Wide(b)), 8)
  {
    hide Steps;
    TableStep(crc, b);
    LowByte(b, crc);
    var idx := b ^ ((crc & 0xFF) as bv8);
    SameByte(idx);
    assert table[..][idx as int] == Steps(Wide(idx), 8);
    r := table[idx as int] ^ (crc >> 8);
  }

  lemma LowByte(b: bv8, r: bv32)
    ensures Wide(b ^ ((r & 0xFF) as bv8)) == Xor(Wide(b), Low(r))
  {}

  lemma RestStart(r: bv32, buf: seq<bv8>)
    ensures Feed(r, MessageBits(buf)) == Feed(r, MessageBits(buf[0..]))
  {
    assert buf[0..] == buf;
  }

  lemma RestEnd(r: bv32, buf: seq<bv8>)
    requires buf == []
    ensures Feed(r, MessageBits(buf)) == r
  {}

  lemma FeedNext(r: bv32, m: seq<bv8>)
    requires m != []
    ensures Feed(r, MessageBits(m)) == Feed(Steps(Xor(r, Wide(m[0])), 8), MessageBits(m[1..]))
  {
    hide Steps, Feed, Xor, Wide, ByteBits;
    FeedByte(r, m[0]);
    FeedJoin(r, ByteBits(m[0]), MessageBits(m[1..]));
  }

  // ------------------------------------------------------------------ properties

  /** A concatenation may be fed in two calls. */
  lemma CrcJoins(a: seq<bv8>, b: seq<bv8>, crc: bv32)
    ensures Crc(a + b, crc) == Crc(b, Crc(a, crc))
  {
    BitsJoin(a, b);
    FeedJoin(Not(crc), MessageBits(a), MessageBits(b));
    NotNot(Feed(Not(crc), MessageBits(a)));
    hide Feed, MessageBits, Not;
  }

  lemma NotNot(r: bv32)
    ensures Not(Not(r)) == r
  {}

  lemma {:induction false} BitsJoin(a: seq<bv8>, b: seq<bv8>)
    ensures MessageBits(a + b) == MessageBits(a) + MessageBits(b)
  {
    hide ByteBits;
    if a == [] {
      assert a + b == b;
    } else {
      BitsJoin(a[1..], b);
      assert (a + b)[1..] == a[1..] + b;
      assert ByteBits(a[0]) + (MessageBits(a[1..]) + MessageBits(b)) == ByteBits(a[0]) + MessageBits(a[1..]) + MessageBits(b);
    }
  }

  lemma {:induction false} FeedInjective(a: bv32, b: bv32, m: seq<bv8>)
    requires Feed(a, MessageBits(m)) == Feed(b, MessageBits(m))
    ensures a == b
    decreases |m|
  {
    if m == [] {
      RestEnd(a, m);
      RestEnd(b, m);
    } else {
      hide Steps, Feed, MessageBits;
      FeedNext(a, m);
      FeedNext(b, m);
      FeedInjective(Steps(Xor(a, Wide(m[0])), 8), Steps(Xor(b, Wide(m[0])), 8), m[1..]);
      StepsInjective(Xor(a, Wide(m[0])), Xor(b, Wide(m[0])), 8);
      XorInjective(a, b, Wide(m[0]));
    }
  }

  lemma XorInjective(a: bv32, b: bv32, c: bv32)
    requires Xor(a, c) == Xor(b, c)
    ensures a == b
  {
    assert (a ^ c) ^ c == a && (b ^ c) ^ c == b;
  }

  /** At most four bytes as a word, the first one lowest. */
  function Word(m: seq<bv8>): bv32 {
    if m == [] then 0 else Xor(Wide(m[0]), Shl(Word(m[1..])))
  }

  function Trim8(w: bv32): bv32 { w & 0xFF }

  function Trim16(w: bv32): bv32 { w & 0xFFFF }

  lemma OneFits(m: seq<bv8>)
    requires |m| <= 1
    ensures Trim8(Word(m)) == Word(m)
  {
    if m != [] { assert m[1..] == []; FitsIn(m[0], 0); }
  }

  lemma TwoFit(m: seq<bv8>)
    requires |m| <= 2
    ensures Trim16(Word(m)) == Word(m)
  {
    if m != [] { OneFits(m[1..]); FitsIn(m[0], Word(m[1..])); }
  }

  lemma WordFits(m: seq<bv8>)
    requires |m| <= 3
    ensures Trim(Word(m)) == Word(m)
  {
    if m != [] { TwoFit(m[1..]); FitsIn(m[0], Word(m[1..])); }
  }

  lemma FitsIn(b: bv8, x: bv32)
    ensures x == 0 ==> Trim8(Xor(Wide(b), Shl(x))) == Xor(Wide(b), Shl(x))
    ensures Trim8(x) == x ==> Trim16(Xor(Wide(b), Shl(x))) == Xor(Wide(b), Shl(x))
    ensures Trim16(x) == x ==> Trim(Xor(Wide(b), Shl(x))) == Xor(Wide(b), Shl(x))
  {}

  lemma WordParts(b: bv8, c: bv8, x: bv32, y: bv32)
    requires Xor(Wide(b), Shl(x)) == Xor(Wide(c), Shl(y)) && Trim(x) == x && Trim(y) == y
    ensures b == c && x == y
  {
    assert ((b as bv32) ^ (x << 8)) & 0xFF == b as bv32 && ((c as bv32) ^ (y << 8)) & 0xFF == c as bv32;
    assert ((b as bv32) ^ (x << 8)) >> 8 == x && ((c as bv32) ^ (y << 8)) >> 8 == y;
  }

  lemma {:induction false} WordInjective(u: seq<bv8>, w: seq<bv8>)
    requires |u| == |w| <= 4 && Word(u) == Word(w)
    ensures u == w
  {
    if u != [] {
      hide Xor, Wide, Shl, Trim;
      WordFits(u[1..]);
      WordFits(w[1..]);
      WordParts(u[0], w[0], Word(u[1..]), Word(w[1..]));
      WordInjective(u[1..], w[1..]);
      assert u == [u[0]] + u[1..] && w == [w[0]] + w[1..];
    }
  }

  lemma {:induction false} StepsJoin(r: bv32, a: nat, b: nat)
    ensures Steps(Steps(r, a), b) == Steps(r, a + b)
    decreases a
  {
    hide BitStep;
    if a > 0 { StepsJoin(BitStep(r), a - 1, b); }
  }

  lemma XorThree(a: bv32, b: bv32, c: bv32)
    ensures Xor(a, Xor(b, c)) == Xor(Xor(a, b), c)
  {}

  /** Up to four bytes go in all at once. */
  lemma {:induction false} WordFeed(r: bv32, m: seq<bv8>)
    requires |m| <= 4
    ensures Feed(r, MessageBits(m)) == Steps(Xor(r, Word(m)), 8 * |m|)
    decreases |m|
  {
    if m == [] {
      RestEnd(r, m);
      XorZero(r);
    } else {
      var b, rest := Wide(m[0]), m[1..];
      hide Feed, MessageBits, Xor, Wide, Shl, Trim;
      FeedNext(r, m);
      var r1 := Steps(Xor(r, b), 8);
      WordFeed(r1, rest);
      WordFits(rest);
      HighIsDropped(Word(rest));
      HighMovesDown(Xor(r, b), Shl(Word(rest)), 8);
      XorThree(r, b, Shl(Word(rest)));
      StepsJoin(Xor(r, Word(m)), 8, 8 * |rest|);
      hide Steps, FeedLow, Drop;
    }
  }

  /** Any change within four consecutive bytes changes the CRC. */
  lemma BurstDetected(a: seq<bv8>, u: seq<bv8>, w: seq<bv8>, c: seq<bv8>, crc: bv32)
    requires |u| == |w| <= 4 && u != w
    ensures Crc(a + u + c, crc) != Crc(a + w + c, crc)
  {
    var r := Not(crc);
    var s := Feed(r, MessageBits(a));
    hide Feed, MessageBits, Steps, Word, Xor;
    FeedParts(r, a, u, c);
    FeedParts(r, a, w, c);
    if Crc(a + u + c, crc) == Crc(a + w + c, crc) {
      NotNot(Feed(r, MessageBits(a + u + c)));
      NotNot(Feed(r, MessageBits(a + w + c)));
      hide Not;
      FeedInjective(Feed(s, MessageBits(u)), Feed(s, MessageBits(w)), c);
      WordFeed(s, u);
      WordFeed(s, w);
      StepsInjective(Xor(s, Word(u)), Xor(s, Word(w)), 8 * |u|);
      XorSame(s, Word(u), Word(w));
      WordInjective(u, w);
    }
  }

  lemma XorSame(s: bv32, a: bv32, b: bv32)
    requires Xor(s, a) == Xor(s, b)
    ensures a == b
  {
    assert s ^ (s ^ a) == a && s ^ (s ^ b) == b;
  }

  lemma FeedParts(r: bv32, a: seq<bv8>, u: seq<bv8>, c: seq<bv8>)
    ensures Feed(r, MessageBits(a + u + c)) == Feed(Feed(Feed(r, MessageBits(a)), MessageBits(u)), MessageBits(c))
  {
    hide Feed, MessageBits;
    BitsJoin(a + u, c);
    BitsJoin(a, u);
    FeedJoin(r, MessageBits(a + u), MessageBits(c));
    FeedJoin(r, MessageBits(a), MessageBits(u));
  }

  // ------------------------------------------------------------------ the check value

  function Steps8(r: bv32): bv32 {
    BitStep(BitStep(BitStep(BitStep(BitStep(BitStep(BitStep(BitStep(r))))))))
  }

  lemma EightMore(r: bv32, m: seq<bv8>, x: bv32)
    requires m != [] && x == Steps8(Xor(r, Wide(m[0])))
    ensures Feed(r, MessageBits(m)) == Feed(x, MessageBits(m[1..]))
  {
    hide BitStep, Feed, MessageBits, Xor, Wide;
    FeedNext(r, m);
    var y := Xor(r, Wide(m[0]));
    assert Steps(y, 8) == Steps(BitStep(BitStep(BitStep(BitStep(y)))), 4);
  }

  lemma CheckBytes()
    ensures Steps8(Xor(0xFFFF_FFFF, Wide(0x31))) == 0x7C23_1048
    ensures Steps8(Xor(0x7C23_1048, Wide(0x32))) == 0xB0AC_BB32
    ensures Steps8(Xor(0xB0AC_BB32, Wide(0x33))) == 0x77B7_9C2D
    ensures Steps8(Xor(0x77B7_9C2D, Wide(0x34))) == 0x641C_1F5C
    ensures Steps8(Xor(0x641C_1F5C, Wide(0x35))) == 0x340A_C5E3
    ensures Steps8(Xor(0x340A_C5E3, Wide(0x36))) == 0xF68D_2C9E
    ensures Steps8(Xor(0xF68D_2C9E, Wide(0x37))) == 0xAFFC_9660
    ensures Steps8(Xor(0xAFFC_9660, Wide(0x38))) == 0x651F_2550
    ensures Steps8(Xor(0x651F_2550, Wide(0x39))) == 0x340B_C6D9
  {}

  /** The CRC of the nine digits "123456789", by which polynomial, bit order, start value
      and final inversion are known. */
  lemma CheckValue()
    ensures Crc([0x31, 0x32, 0x33, 0x34, 0x35, 0x36, 0x37, 0x38, 0x39], 0) == 0xCBF4_3926
  {
    var m: seq<bv8> := [0x31, 0x32, 0x33, 0x34, 0x35, 0x36, 0x37, 0x38, 0x39];
    assert Not(0) == 0xFFFF_FFFF && Not(0x340B_C6D9) == 0xCBF4_3926;
    hide Steps, Feed, MessageBits, Xor, Wide, ByteBits, Not, Steps8;
    CheckBytes();
    RestStart(0xFFFF_FFFF, m);
    EightMore(0xFFFF_FFFF, m[0..], 0x7C23_1048);
    EightMore(0x7C23_1048, m[1..], 0xB0AC_BB32);
    EightMore(0xB0AC_BB32, m[2..], 0x77B7_9C2D);
    EightMore(0x77B7_9C2D, m[3..], 0x641C_1F5C);
    EightMore(0x641C_1F5C, m[4..], 0x340A_C5E3);
    EightMore(0x340A_C5E3, m[5..], 0xF68D_2C9E);
    EightMore(0xF68D_2C9E, m[6..], 0xAFFC_9660);
    EightMore(0xAFFC_9660, m[7..], 0x651F_2550);
    EightMore(0x651F_2550, m[8..], 0x340B_C6D9);
    RestEnd(0x340B_C6D9, m[9..]);
  }
}
