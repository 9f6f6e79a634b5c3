/** The other way round: whatever the decoder accepts is a list of symbols of the
    format, and it is what the writer writes for them unless the code got out of the
    range on the way. */
module LzmaAccepted {
  import opened Common
  import opened LzmaRange
  import opened LzmaSymbol
  import opened LzmaMachine
  import opened LzmaWhole
  import opened LzmaFormat
  import opened LzmaTrack
  import opened LzmaRoundTrip

  // ------------------------------------------------- every way of the decoder is a symbol's

  /** The decoder makes one choice or the other. */
  lemma PicksOne(c: Core, inp: seq<Byte>, x: Context) returns (bit: nat, c': Core)
    requires CoreOk(c) && Good(x)
    ensures bit <= 1 && CoreOk(c') && Pick(c, inp, Coded(x, bit)) == Some(c')
  {
    hide Bit, CoreOk, Good, Index;
    OwnProbability(x);
    bit, c' := Bit(c, inp, Index(x)).1, Bit(c, inp, Index(x)).0;
  }

  lemma PutFirst(c: Core, inp: seq<Byte>, ch: Choice, rest: seq<Choice>)
    requires CoreOk(c) && Pick(c, inp, ch).Some?
    ensures Decide(c, inp, [ch] + rest) == Decide(Pick(c, inp, ch).value, inp, rest)
  {
    hide Pick, CoreOk;
    assert ([ch] + rest)[1..] == rest;
  }

  /** The number whose first digit is b and whose other digits are v. */
  lemma WithTop(b: nat, n: nat, v: nat) returns (r: nat)
    requires b <= 1 && n > 0 && v < Pow2(n - 1)
    ensures r < Pow2(n) && TopDigit(r, n) == b && LowDigits(r, n) == v
  {
    r := if b == 1 then Pow2(n - 1) + v else v;
  }

  lemma {:induction false} TreeFinds(c: Core, inp: seq<Byte>, t: Tree, levels: nat, n: nat, node: nat) returns (v: nat)
    requires CoreOk(c) && TreeGood(t) && levels == Levels(t) && n <= levels && AtLevel(node, levels - n)
    ensures v < Pow2(n) && Decide(c, inp, DownTree(t, n, v, node)).Some?
    decreases n
  {
    hide CoreOk, TreeGood, Levels, AtLevel, Pick, Pow2, Decide, DownTree, TopDigit, LowDigits;
    AboveLeaves(node, levels - n, levels);
    if n == 0 {
      v := 0;
      NothingLeft(c, inp, t, node);
    } else {
      var b, c' := PicksOne(c, inp, Node(t, node));
      NextLevel(node, levels - n, b);
      var low := TreeFinds(c', inp, t, levels, n - 1, 2 * node + b);
      v := WithTop(b, n, low);
      DownTreeIs(t, n, v, node);
      PutFirst(c, inp, Coded(Node(t, node), b), DownTree(t, n - 1, low, 2 * node + b));
    }
  }

  lemma NothingLeft(c: Core, inp: seq<Byte>, t: Tree, node: nat)
    requires CoreOk(c)
    ensures 0 < Pow2(0) && Decide(c, inp, DownTree(t, 0, 0, node)) == Some(c) && Decide(c, inp, DownReversed(t, 0, 0, node)) == Some(c)
    ensures Decide(c, inp, FlatDigits(0, 0)) == Some(c)
  {}

  lemma {:induction false} ReverseFinds(c: Core, inp: seq<Byte>, t: Tree, levels: nat, n: nat, node: nat) returns (v: nat)
    requires CoreOk(c) && TreeGood(t) && levels == Levels(t) && n <= levels && AtLevel(node, levels - n)
    ensures v < Pow2(n) && Decide(c, inp, DownReversed(t, n, v, node)).Some?
    decreases n
  {
    hide CoreOk, TreeGood, Levels, AtLevel, Pick, Pow2, Decide, DownReversed;
    AboveLeaves(node, levels - n, levels);
    if n == 0 {
      v := 0;
      NothingLeft(c, inp, t, node);
    } else {
      var b, c' := PicksOne(c, inp, Node(t, node));
      NextLevel(node, levels - n, b);
      var high := ReverseFinds(c', inp, t, levels, n - 1, 2 * node + b);
      v := 2 * high + b;
      DoubleFits(high, b, n);
      DownReversedIs(t, n, v, node);
      PutFirst(c, inp, Coded(Node(t, node), b), DownReversed(t, n - 1, high, 2 * node + b));
    }
  }

  lemma DoubleFits(high: nat, b: nat, n: nat)
    requires n > 0 && b <= 1 && high < Pow2(n - 1)
    ensures 2 * high + b < Pow2(n) && (2 * high + b) % 2 == b && (2 * high + b) / 2 == high
  {}

  lemma {:induction false} FlatFinds(c: Core, inp: seq<Byte>, n: nat) returns (v: nat)
    requires CoreOk(c)
    ensures v < Pow2(n) && Decide(c, inp, FlatDigits(n, v)).Some?
    decreases n
  {
    hide CoreOk, Pick, Pow2, Decide, FlatDigits, TopDigit, LowDigits;
    if n == 0 {
      v := 0;
      NothingLeft(c, inp, AlignTree, 1);
    } else {
      var b, c' := PicksFlat(c, inp);
      var low := FlatFinds(c', inp, n - 1);
      v := WithTop(b, n, low);
      FlatDigitsIs(n, v);
      PutFirst(c, inp, Flat(b), FlatDigits(n - 1, low));
    }
  }

  lemma PicksFlat(c: Core, inp: seq<Byte>) returns (bit: nat, c': Core)
    requires CoreOk(c)
    ensures bit <= 1 && CoreOk(c') && Pick(c, inp, Flat(bit)) == Some(c')
  {
    NormalizeRestores(c.rc, inp);
    bit, c' := DirectRc(c.rc, inp).1, Core(DirectRc(c.rc, inp).0, c.probs);
  }

  lemma {:induction false} MatchedFinds(c: Core, inp: seq<Byte>, place: nat, n: nat, like: nat, same: bool, node: nat) returns (v: nat)
    requires CoreOk(c) && place < 16 && n <= 8 && AtLevel(node, 8 - n)
    ensures v < Pow2(n) && Decide(c, inp, MatchedChoices(place, n, v, like, same, node)).Some?
    decreases n
  {
    hide CoreOk, AtLevel, Pick, Pow2, Decide, MatchedChoices, TopDigit, LowDigits;
    AboveLeaves(node, 8 - n, 8);
    if n == 0 {
      v := 0;
      MatchedNone(c, inp, place, like, same, node);
    } else {
      var l := TopDigit(like, n);
      var t := LiteralTree(place, if same then 1 + l else 0);
      var b, c' := PicksOne(c, inp, Node(t, node));
      NextLevel(node, 8 - n, b);
      var low := MatchedFinds(c', inp, place, n - 1, LowDigits(like, n), same && b == l, 2 * node + b);
      v := WithTop(b, n, low);
      MatchedIs(place, n, v, like, same, node);
      PutFirst(c, inp, Coded(Node(t, node), b), MatchedChoices(place, n - 1, low, LowDigits(like, n), same && b == l, 2 * node + b));
    }
  }

  lemma MatchedNone(c: Core, inp: seq<Byte>, place: nat, like: nat, same: bool, node: nat)
    requires CoreOk(c)
    ensures 0 < Pow2(0) && Decide(c, inp, MatchedChoices(place, 0, 0, like, same, node)) == Some(c)
  {}

  lemma LenFinds(c: Core, inp: seq<Byte>, rep: bool, pos: nat) returns (len: nat)
    requires CoreOk(c) && pos < 16
    ensures LenFits(len) && Decide(c, inp, LenChoices(rep, pos, len)).Some?
  {
    hide CoreOk, Pick, Pow2, Decide, DownTree, AtLevel;
    RootLevel(0, 0);
    LevelSizes();
    var b, c1 := PicksOne(c, inp, LenChoice(rep));
    if b == 0 {
      var v := TreeFinds(c1, inp, LowTree(rep, pos), 3, 3, 1);
      len := v + 2;
      PutFirst(c, inp, Coded(LenChoice(rep), 0), DownTree(LowTree(rep, pos), 3, v, 1));
    } else {
      var b2, c2 := PicksOne(c1, inp, LenChoice2(rep));
      var t := if b2 == 0 then MidTree(rep, pos) else HighTree(rep);
      var n := if b2 == 0 then 3 else 8;
      var v := TreeFinds(c2, inp, t, n, n, 1);
      len := v + if b2 == 0 then 10 else 18;
      var rest := [Coded(LenChoice2(rep), b2)] + DownTree(t, n, v, 1);
      PutFirst(c1, inp, Coded(LenChoice2(rep), b2), DownTree(t, n, v, 1));
      PutFirst(c, inp, Coded(LenChoice(rep), 1), rest);
      assert LenChoices(rep, pos, len) == [Coded(LenChoice(rep), 1)] + rest;
    }
  }

  lemma LogIs(v: nat, k: nat)
    requires v > 0 && Pow2(k) <= v < 2 * Pow2(k)
    ensures Log2(v) == k
  {
    var j := Log2(v);
    hide Log2;
    if j < k { Pow2Mono(j, k); } else if k < j { Pow2Mono(k, j); }
  }

  /** Every slot with its low digits is one distance. */
  lemma DistOf(slot: nat, low: nat) returns (dist: nat)
    requires 4 <= slot < 64 && low < Pow2(slot / 2 - 1)
    ensures 4 <= dist < TWO32 && DistSlot(dist) == slot && DistLow(dist) == low
  {
    var k, s := slot / 2, slot % 2;
    var p := Pow2(k - 1);
    assert Pow2(k) == 2 * p;
    dist := if s == 1 then 3 * p + low else 2 * p + low;
    Pow2Monotone(1, k - 1);
    assert Pow2(1) == 2;
    Pow2Monotone(k, 31);
    Pow2At32();
    assert Pow2(32) == 2 * Pow2(31);
    hide Pow2;
    LogIs(dist, k);
    assert slot == 2 * k + s;
  }

  lemma LowFinds(c: Core, inp: seq<Byte>, slot: nat) returns (low: nat)
    requires CoreOk(c) && 4 <= slot < 64
    ensures low < Pow2(slot / 2 - 1) && Decide(c, inp, LowChoices(slot, low)).Some?
  {
    hide CoreOk, Pow2, Decide, DownReversed, FlatDigits, AtLevel;
    RootLevel(0, 0);
    var n := slot / 2 - 1;
    if slot < 14 {
      low := ReverseFinds(c, inp, SpecialTree(slot), n, n, 1);
    } else {
      var high := FlatFinds(c, inp, n - 4);
      var c' := Decide(c, inp, FlatDigits(n - 4, high)).value;
      var v := ReverseFinds(c', inp, AlignTree, 4, 4, 1);
      low := 16 * high + v;
      SixteenMore(n, high, v);
      DecideJoins(c, inp, FlatDigits(n - 4, high), DownReversed(AlignTree, 4, v, 1));
    }
  }

  lemma SixteenMore(n: nat, high: nat, v: nat)
    requires n >= 4 && high < Pow2(n - 4) && v < Pow2(4)
    ensures 16 * high + v < Pow2(n) && (16 * high + v) / 16 == high && (16 * high + v) % 16 == v
  {
    Pow2Adds(4, n - 4);
    LevelSizes();
    hide Pow2;
  }

  lemma DistFinds(c: Core, inp: seq<Byte>, len: nat) returns (dist: nat)
    requires CoreOk(c) && LenFits(len)
    ensures dist < TWO32 && Decide(c, inp, DistChoices(len, dist)).Some?
  {
    hide CoreOk, Pow2, Decide, DownTree, AtLevel, LowChoices, DistSlot, DistLow;
    RootLevel(0, 0);
    LevelSizes();
    var t := SlotTree(DistState(len));
    var slot := TreeFinds(c, inp, t, 6, 6, 1);
    if slot < 4 {
      dist := slot;
    } else {
      var c' := Decide(c, inp, DownTree(t, 6, slot, 1)).value;
      var low := LowFinds(c', inp, slot);
      dist := DistOf(slot, low);
      DecideJoins(c, inp, DownTree(t, 6, slot, 1), LowChoices(slot, low));
    }
  }

  lemma LiteralFinds(c: Core, inp: seq<Byte>, p: Props, m: Memory) returns (byte: Byte)
    requires CoreOk(c) && PropsFit(p) && MemoryOk(m)
    ensures Decide(c, inp, LiteralChoices(p, m, byte)).Some?
  {
    hide CoreOk, Pow2, Decide, DownTree, AtLevel, MatchedChoices, LiteralPlace, LzOk;
    RootLevel(0, 0);
    LevelSizes();
    LzOfOk(p, m);
    PlaceIs(p, m);
    var place := LiteralPlace(p, m.text);
    var v: nat;
    if m.state < 7 { v := TreeFinds(c, inp, LiteralTree(place, 0), 8, 8, 1); }
    else { v := MatchedFinds(c, inp, place, 8, m.text[|m.text| - 1 - m.reps[0]], true, 1); }
    byte := v;
  }

  lemma RepFinds(c: Core, inp: seq<Byte>, m: Memory, pos: nat) returns (t: Token)
    requires CoreOk(c) && MemoryOk(m) && pos < 16
    ensures Formed(t) && (t.ShortRep? || t.Rep?) && Decide(c, inp, RestChoices(m, t, pos)).Some?
  {
    hide CoreOk, Pick, Decide, LenChoices;
    var s := m.state;
    var b1, c1 := PicksOne(c, inp, IsRep0(s));
    if b1 == 0 {
      var b2, c2 := PicksOne(c1, inp, IsRep0Long(s, pos));
      if b2 == 0 {
        t := ShortRep;
        DecideNone(c2, inp);
        PutFirst(c1, inp, Coded(IsRep0Long(s, pos), 0), []);
        PutFirst(c, inp, Coded(IsRep0(s), 0), [Coded(IsRep0Long(s, pos), 0)] + []);
        assert RestChoices(m, t, pos) == [Coded(IsRep0(s), 0)] + ([Coded(IsRep0Long(s, pos), 0)] + []);
      } else {
        var len := LenFinds(c2, inp, true, pos);
        t := Rep(0, len);
        TwoFirst(c, inp, Coded(IsRep0(s), 0), Coded(IsRep0Long(s, pos), 1), LenChoices(true, pos, len));
      }
    } else {
      var b2, c2 := PicksOne(c1, inp, IsRep1(s));
      if b2 == 0 {
        var len := LenFinds(c2, inp, true, pos);
        t := Rep(1, len);
        TwoFirst(c, inp, Coded(IsRep0(s), 1), Coded(IsRep1(s), 0), LenChoices(true, pos, len));
      } else {
        var b3, c3 := PicksOne(c2, inp, IsRep2(s));
        var len := LenFinds(c3, inp, true, pos);
        t := Rep(2 + b3, len);
        var rest := [Coded(IsRep2(s), b3)] + LenChoices(true, pos, len);
        PutFirst(c2, inp, Coded(IsRep2(s), b3), LenChoices(true, pos, len));
        TwoFirst(c, inp, Coded(IsRep0(s), 1), Coded(IsRep1(s), 1), rest);
        assert RestChoices(m, t, pos) == [Coded(IsRep0(s), 1), Coded(IsRep1(s), 1)] + rest;
      }
    }
  }

  lemma TwoFirst(c: Core, inp: seq<Byte>, a: Choice, b: Choice, rest: seq<Choice>)
    requires CoreOk(c) && Pick(c, inp, a).Some? && Pick(Pick(c, inp, a).value, inp, b).Some?
    ensures Decide(c, inp, [a, b] + rest) == Decide(Pick(Pick(c, inp, a).value, inp, b).value, inp, rest)
  {
    hide Pick, CoreOk, Decide;
    PutFirst(c, inp, a, [b] + rest);
    PutFirst(Pick(c, inp, a).value, inp, b, rest);
    assert [a, b] + rest == [a] + ([b] + rest);
  }

  lemma MatchFinds(c: Core, inp: seq<Byte>, m: Memory, pos: nat) returns (t: Token)
    requires CoreOk(c) && MemoryOk(m) && pos < 16
    ensures Formed(t) && t.Match? && Decide(c, inp, RestChoices(m, t, pos)).Some?
  {
    hide CoreOk, Decide, LenChoices, DistChoices;
    var len := LenFinds(c, inp, false, pos);
    var c' := Decide(c, inp, LenChoices(false, pos, len)).value;
    var dist := DistFinds(c', inp, len);
    t := Match(dist, len);
    DecideJoins(c, inp, LenChoices(false, pos, len), DistChoices(len, dist));
  }

  /** Whatever comes, the decoder makes the choices of one symbol of the format. */
  lemma TokenFinds(c: Core, inp: seq<Byte>, p: Props, m: Memory) returns (t: Token)
    requires CoreOk(c) && PropsFit(p) && MemoryOk(m)
    ensures Formed(t) && Decide(c, inp, TokenChoices(p, m, t)).Some?
  {
    hide CoreOk, Pick, Decide, LiteralChoices, LenChoices, DistChoices, RepChoices, Pow2;
    PosFits(p, m.text);
    var pos := |m.text| % Pow2(p.pb);
    var b, c1 := PicksOne(c, inp, IsMatch(m.state, pos));
    if b == 0 {
      var byte := LiteralFinds(c1, inp, p, m);
      t := Literal(byte);
      PutFirst(c, inp, Coded(IsMatch(m.state, pos), 0), LiteralChoices(p, m, byte));
    } else {
      var b2, c2 := PicksOne(c1, inp, IsRep(m.state));
      if b2 == 0 { t := MatchFinds(c2, inp, m, pos); } else { t := RepFinds(c2, inp, m, pos); }
      TwoFirst(c, inp, Coded(IsMatch(m.state, pos), 1), Coded(IsRep(m.state), b2), RestChoices(m, t, pos));
      assert TokenChoices(p, m, t) == [Coded(IsMatch(m.state, pos), 1), Coded(IsRep(m.state), b2)] + RestChoices(m, t, pos);
    }
  }

  // ----------------------------------------------------------------- what is accepted

  /** Decoding from here to the target goes on as a list of symbols. */
  lemma {:induction false} TokensOn(c0: Core, inp: seq<Byte>, p: Props, m0: Memory, size: nat, target: nat, ts: seq<Token>)
    returns (all: seq<Token>)
    requires CoreOk(c0) && PropsFit(p) && MemoryOk(m0) && TokensFit(m0, ts, size)
    requires Decide(c0, inp, AllChoices(p, m0, ts, size)).Some?
    requires DecodeTo(At(Decide(c0, inp, AllChoices(p, m0, ts, size)).value, p, Meanings(m0, ts, size)), inp, size, target).Some?
    ensures TokensFit(m0, all, size) && Decide(c0, inp, AllChoices(p, m0, all, size)).Some?
    ensures DecodeTo(At(Decide(c0, inp, AllChoices(p, m0, ts, size)).value, p, Meanings(m0, ts, size)), inp, size, target) ==
            Some(At(Decide(c0, inp, AllChoices(p, m0, all, size)).value, p, Meanings(m0, all, size)))
    decreases target - |Meanings(m0, ts, size).text|
  {
    hide CoreOk, Decide, TokenChoices, Meaning, Formed, InReach, MemoryOk, Step, MachineOk;
    var m := Meanings(m0, ts, size);
    var c := Decide(c0, inp, AllChoices(p, m0, ts, size)).value;
    all := ts;
    if |m.text| < target {
      var t := TokenFinds(c, inp, p, m);
      TokenStep(c, inp, p, m, t, size);
      var more := ts + [t];
      assert more[..|ts|] == ts;
      DecideJoins(c0, inp, AllChoices(p, m0, ts, size), TokenChoices(p, m, t));
      all := TokensOn(c0, inp, p, m0, size, target, more);
    }
  }

  /** Data that the decoder accepts are a list of symbols that make sense, and decode to
      what these mean. */
  lemma AcceptedTokens(c: Core, inp: seq<Byte>, p: Props, m: Memory, size: nat, target: nat) returns (ts: seq<Token>)
    requires CoreOk(c) && PropsFit(p) && MemoryOk(m) && Whole(At(c, p, m), inp, size, target).Some?
    ensures TokensFit(m, ts, size) && Decide(c, inp, AllChoices(p, m, ts, size)).Some?
    ensures Whole(At(c, p, m), inp, size, target) ==
            Some(At(Decide(c, inp, AllChoices(p, m, ts, size)).value, p, Meanings(m, ts, size)))
  {
    hide CoreOk, Decide, Step, MachineOk, DecodeTo, Fits;
    DecideNone(c, inp);
    ts := TokensOn(c, inp, p, m, size, target, []);
  }

  // ------------------------------------------------------------------- what was written

  /** The code is below the range before and after each of these choices. */
  ghost predicate StaysBelow(c: Core, inp: seq<Byte>, cs: seq<Choice>)
    requires CoreOk(c)
    decreases |cs|
  {
    && c.rc.code < c.rc.range
    && (cs != [] && Pick(c, inp, cs[0]).Some? ==> StaysBelow(Pick(c, inp, cs[0]).value, inp, cs[1..]))
  }

  lemma PickAdvances(c: Core, inp: seq<Byte>, ch: Choice)
    requires CoreOk(c) && Pick(c, inp, ch).Some?
    ensures Pick(c, inp, ch).value.rc.pos == Normalize(c.rc, inp).pos >= c.rc.pos && ChoiceOk(ch)
  {
    hide CoreOk, Index, Good, Bit;
    if ch.Coded? {
      OwnProbability(ch.context);
      BitPos(c, inp, Index(ch.context));
    }
  }

  lemma BitPos(c: Core, inp: seq<Byte>, i: nat)
    requires CoreOk(c) && i < PROBS_TOTAL
    ensures Bit(c, inp, i).0.rc.pos == Normalize(c.rc, inp).pos
  {
    BitKeeps(c.rc, inp, c.probs[i]);
    hide Normalize, BitRc;
  }

  lemma {:induction false} DecideAdvances(c: Core, inp: seq<Byte>, cs: seq<Choice>)
    requires CoreOk(c) && Decide(c, inp, cs).Some?
    ensures c.rc.pos <= Decide(c, inp, cs).value.rc.pos
    decreases |cs|
  {
    hide Pick, CoreOk;
    if cs != [] {
      PickAdvances(c, inp, cs[0]);
      DecideAdvances(Pick(c, inp, cs[0]).value, inp, cs[1..]);
    }
  }

  lemma WidenForth(rc: Rc, e: Coder, s: seq<Byte>)
    requires RcOk(rc) && Stands(rc, e, s) && 5 + Normalize(rc, s[5..]).pos <= |s|
    ensures Inside(Widen(e), s)
  {
    hide Value;
    if e.range < 0x100_0000 { ValueNext(s, 5 + e.shifts); }
  }

  lemma InsideNext(c: Core, e: Coder, ch: Choice, s: seq<Byte>)
    requires Tracks(c, e, s) && Pick(c, s[5..], ch).Some?
    requires var r := Pick(c, s[5..], ch).value.rc; r.code < r.range && 5 + r.pos <= |s|
    ensures Inside(Put(e, ch), s)
  {
    PickAdvances(c, s[5..], ch);
    WidenForth(c.rc, e, s);
    WidenAt(c.rc, e, s);
    match ch
    case Coded(x, bit) =>
      OwnProbability(x);
      hide Value, Normalize, ProbsOk, Good, Index, RcOk;
      BitPicksPart(c.rc, s[5..], ProbOf(e.model, x));
    case Flat(bit) =>
      hide Value, Normalize, ProbsOk, DirectRc, RcOk, Agree;
      DirectPicksHalf(c.rc, s[5..]);
  }

  lemma {:induction false} InsideOn(c: Core, e: Coder, cs: seq<Choice>, s: seq<Byte>)
    requires Tracks(c, e, s) && Decide(c, s[5..], cs).Some?
    requires StaysBelow(c, s[5..], cs) && 5 + Decide(c, s[5..], cs).value.rc.pos <= |s|
    ensures Inside(PutAll(e, cs), s) && ChoicesOk(cs)
    decreases |cs|
  {
    hide Put, Pick, Value, ChoiceOk, Agree, CoreOk;
    if cs != [] {
      var c' := Pick(c, s[5..], cs[0]).value;
      PickAdvances(c, s[5..], cs[0]);
      DecideAdvances(c', s[5..], cs[1..]);
      assert c'.rc.code < c'.rc.range;
      InsideNext(c, e, cs[0], s);
      PickFollows(c, e, cs[0], s);
      InsideOn(c', Put(e, cs[0]), cs[1..], s);
    }
  }

  lemma {:induction false} BelowAlong(c: Core, e: Coder, cs: seq<Choice>, s: seq<Byte>)
    requires Tracks(c, e, s) && ChoicesOk(cs) && Inside(PutAll(e, cs), s)
    ensures StaysBelow(c, s[5..], cs)
    decreases |cs|
  {
    hide Put, Pick, ChoiceOk, Value, Agree, CoreOk;
    if cs != [] {
      PutAllBack(Put(e, cs[0]), cs[1..], s);
      assert ChoiceOk(cs[0]);
      PickFollows(c, e, cs[0], s);
      BelowAlong(Pick(c, s[5..], cs[0]).value, Put(e, cs[0]), cs[1..], s);
    }
  }

  lemma {:induction false} DigitsOf(s: seq<Byte>)
    ensures BigEndian(Value(s), |s|) == s
    decreases |s|
  {
    if s != [] {
      var n := |s| - 1;
      DigitsOf(s[..n]);
      var v, b: nat := Value(s[..n]), s[n];
      assert (256 * v + b) / 256 == v && (256 * v + b) % 256 == b;
      assert s == s[..n] + [s[n]];
    }
  }

  lemma FiveDigits(s: seq<Byte>)
    requires |s| == 5
    ensures var a: nat, b: nat, c: nat, d: nat, e: nat := s[0], s[1], s[2], s[3], s[4];
            Value(s) == a * TWO32 + b * 0x100_0000 + c * 0x1_0000 + d * 256 + e
  {
    ValueNext(s, 0);
    ValueNext(s, 1);
    ValueNext(s, 2);
    ValueNext(s, 3);
    ValueNext(s, 4);
    assert s[..5] == s && s[..0] == [];
    assert Value(s[..0]) == 0;
    hide Value;
  }

  /** Five digits make a number of 32 bits if and only if the first one is zero. */
  lemma FirstIsZero(s: seq<Byte>)
    requires |s| == 5
    ensures Value(s) < TWO32 <==> s[0] == 0
  {
    FiveDigits(s);
  }

  /** The decoder does not look at the first one: with any other it goes the same way. */
  lemma FirstIgnored(s: seq<Byte>, x: Byte)
    requires |s| == 5
    ensures Value(s[0 := x]) % TWO32 == Value(s) % TWO32
  {
    FiveDigits(s);
    FiveDigits(s[0 := x]);
    hide Value;
    var b: nat, c: nat, d: nat, e: nat, y: nat, z: nat := s[1], s[2], s[3], s[4], s[0], x;
    var low := b * 0x100_0000 + c * 0x1_0000 + d * 256 + e;
    DivIs(y * TWO32 + low, TWO32, y, low);
    DivIs(z * TWO32 + low, TWO32, z, low);
  }

  /** The bytes after which a decoder ends with a code of zero are those written for the
      choices it made, if and only if the first one is zero and the code was always
      below the range. */
  lemma WrittenIff(model: Model, probs: seq<nat>, cs: seq<Choice>, s: seq<Byte>)
    requires ProbsOk(probs) && Agree(model, probs) && |s| >= 5
    requires var c := Core(Rc(TWO32 - 1, Value(s[..5]) % TWO32, 0), probs);
             && CoreOk(c) && Decide(c, s[5..], cs).Some?
             && var end := Normalize(Decide(c, s[5..], cs).value.rc, s[5..]);
                5 + end.pos == |s| && end.code == 0
    ensures s == Written(model, cs) <==>
              s[0] == 0 && StaysBelow(Core(Rc(TWO32 - 1, Value(s[..5]) % TWO32, 0), probs), s[5..], cs)
  {
    hide Value, Written, StaysBelow, Decide, Normalize, ProbsOk, Agree;
    var c := Core(Rc(TWO32 - 1, Value(s[..5]) % TWO32, 0), probs);
    FirstIsZero(s[..5]);
    if s == Written(model, cs) {
      WrittenBelow(model, c, cs);
    }
    if s[0] == 0 && StaysBelow(c, s[5..], cs) {
      BelowWritten(model, c, cs, s);
    }
  }

  lemma {:induction false} DecideGood(c: Core, inp: seq<Byte>, cs: seq<Choice>)
    requires CoreOk(c) && Decide(c, inp, cs).Some?
    ensures ChoicesOk(cs)
    decreases |cs|
  {
    hide Pick, CoreOk, ChoiceOk;
    if cs != [] {
      PickAdvances(c, inp, cs[0]);
      DecideGood(Pick(c, inp, cs[0]).value, inp, cs[1..]);
    }
  }

  lemma WrittenBelow(model: Model, c: Core, cs: seq<Choice>)
    requires var s := Written(model, cs);
             && CoreOk(c) && Agree(model, c.probs) && c.rc == Rc(TWO32 - 1, Value(s[..5]) % TWO32, 0)
             && Decide(c, s[5..], cs).Some?
    ensures Value(Written(model, cs)[..5]) < TWO32 && StaysBelow(c, Written(model, cs)[5..], cs)
  {
    hide Value, Written, Agree, PutAll, Decide, StaysBelow, CoreOk, ChoicesOk;
    var s := Written(model, cs);
    WrittenInside(model, cs);
    DecideGood(c, s[5..], cs);
    BelowAlong(c, Fresh(model), cs, s);
  }

  lemma BelowWritten(model: Model, c: Core, cs: seq<Choice>, s: seq<Byte>)
    requires |s| >= 5 && Value(s[..5]) < TWO32 && CoreOk(c) && Agree(model, c.probs) && c.rc == Rc(TWO32 - 1, Value(s[..5]), 0)
    requires Decide(c, s[5..], cs).Some? && StaysBelow(c, s[5..], cs)
    requires var end := Normalize(Decide(c, s[5..], cs).value.rc, s[5..]); 5 + end.pos == |s| && end.code == 0
    ensures s == Written(model, cs)
  {
    hide Value, Agree, PutAll, Decide, CoreOk, BigEndian;
    var e := PutAll(Fresh(model), cs);
    var r := Decide(c, s[5..], cs).value;
    InsideOn(c, Fresh(model), cs, s);
    Follows(c, Fresh(model), cs, s);
    RcOf(r);
    WidenForth(r.rc, e, s);
    WidenAt(r.rc, e, s);
    assert s[..|s|] == s;
    DigitsOf(s);
  }

  lemma RcOf(c: Core)
    requires CoreOk(c)
    ensures RcOk(c.rc)
  {}

  /** The symbols that the data s stand for: they mean `text`, and s is what the writer
      writes for them if and only if the first byte is zero and the code was always below
      the range. */
  ghost predicate StandsFor(s: seq<Byte>, p: Props, m: Memory, size: nat, model: Model, c: Core, text: seq<Byte>, ts: seq<Token>)
    requires |s| >= 5 && PropsFit(p) && MemoryOk(m) && CoreOk(c)
  {
    && TokensFit(m, ts, size) && text == Meanings(m, ts, size).text
    && (s == Written(model, AllChoices(p, m, ts, size)) <==> s[0] == 0 && StaysBelow(c, s[5..], AllChoices(p, m, ts, size)))
  }

  /** Whatever data the decoder accepts, after their initial bytes, they stand for symbols. */
  lemma OnlyWritten(s: seq<Byte>, p: Props, m: Memory, size: nat, target: nat, model: Model, probs: seq<nat>)
    requires |s| >= 5 && PropsFit(p) && MemoryOk(m) && ProbsOk(probs) && Agree(model, probs)
    requires var c := Core(Rc(TWO32 - 1, Value(s[..5]) % TWO32, 0), probs);
             CoreOk(c) && Whole(At(c, p, m), s[5..], size, target).Some?
    ensures var c := Core(Rc(TWO32 - 1, Value(s[..5]) % TWO32, 0), probs);
            exists ts :: StandsFor(s, p, m, size, model, c, Whole(At(c, p, m), s[5..], size, target).value.hist, ts)
  {
    hide Value, Written, Agree, Decide, StaysBelow, CoreOk, ProbsOk, AllChoices, TokensFit, Meanings, Normalize, DecodeTo;
    var c := Core(Rc(TWO32 - 1, Value(s[..5]) % TWO32, 0), probs);
    var ts := AcceptedTokens(c, s[5..], p, m, size, target);
    WrittenIff(model, probs, AllChoices(p, m, ts, size), s);
    assert StandsFor(s, p, m, size, model, c, Whole(At(c, p, m), s[5..], size, target).value.hist, ts);
  }
}
