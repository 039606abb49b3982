/** Modbus-RTU framing: the CRC-16 of MODBUS over Serial Line V1.02, section
    6.2.2, what it detects, and the retry loop that relies on it. */
module Modbus {
  import opened BitMath
  import opened Folding

  type Register = c: int | 0 <= c < 0x10000

  const INIT: Register := 0xFFFF
  const BYTE_WIDTH: nat := 8
  const WORD_WIDTH: nat := 16
  const GENERATOR: Register := 0xA001

  // ---- The register -------------------------------------------------------

  /** One shift, with the generator folded in when a one falls out. A fold sets
      the top digit, so no shift but that of zero gives zero. */
  function Shift(crc: Register): (s: Register)
    ensures crc % 2 == 1 ==> s >= 0x8000
  {
    assert Pow2(4) == 16 && Pow2(8) == 256 && Pow2(12) == 0x1000 && Pow2(15) == 0x8000;
    XorTop(crc / 2, 0x2001, 15);
    XorBound(crc / 2, 0x2001, 15);
    if crc % 2 == 1 then Xor(crc / 2, GENERATOR) else crc / 2
  }

  function ShiftTimes(crc: Register, n: nat): Register
    decreases n
  {
    if n == 0 then crc else ShiftTimes(Shift(crc), n - 1)
  }

  /** Exclusive or of two registers. */
  function Plus(a: Register, b: Register): Register {
    assert Pow2(4) == 16 && Pow2(8) == 256 && Pow2(12) == 0x1000 && Pow2(16) == 0x10000;
    XorBound(a, b, 16);
    Xor(a, b)
  }

  /** One byte folded into the register: xor into the low half, eight shifts. */
  function Feed(crc: Register, byte: Byte): Register {
    ShiftTimes(Plus(crc, byte), BYTE_WIDTH)
  }

  /** A byte on the wire, least significant bit first. */
  function Bits(b: Byte): (d: seq<bool>)
    ensures |d| == BYTE_WIDTH == 8
  {
    Digits(b, BYTE_WIDTH)
  }

  function AllBits(data: seq<Byte>): (bits: seq<bool>)
    ensures |bits| == 8 * |data|
  {
    Concat(Bits, data)
  }

  function Crc(data: seq<Byte>): Register { Fold(Feed, INIT, data) }

  function WithCrc(frame: seq<Byte>): seq<Byte> {
    frame + [Crc(frame) % 256, Crc(frame) / 256]
  }

  predicate Passes(frame: seq<Byte>) {
    && |frame| >= 4
    && frame[|frame| - 2] == Crc(frame[..|frame| - 2]) % 256
    && frame[|frame| - 1] == Crc(frame[..|frame| - 2]) / 256
  }

  // ---- The source's loops ------------------------------------------------

  /** The inner loop: so many shifts. */
  method ShiftOut(from: Register, width: nat) returns (crc: Register)
    ensures crc == ShiftTimes(from, width)
  {
    crc := from;
    for k := 0 to width
      invariant ShiftTimes(from, width) == ShiftTimes(crc, width - k)
    {
      if crc % 2 == 1 {
        crc := Plus(crc / 2, GENERATOR);
      } else {
        crc := crc / 2;
      }
    }
  }

  method Crc16(data: seq<Byte>) returns (crc: Register)
    ensures crc == Crc(data)
  {
    crc := INIT;
    for i := 0 to |data|
      invariant crc == Fold(Feed, INIT, data[..i])
    {
      FoldLast(Feed, INIT, data[..i], data[i]);
      crc := ShiftOut(Plus(crc, data[i]), BYTE_WIDTH);
      assert data[..i + 1] == data[..i] + [data[i]];
    }
    assert data[..|data|] == data;
  }

  method AppendCrc(frame: seq<Byte>) returns (out: seq<Byte>)
    ensures out == WithCrc(frame)
    ensures Passes(out) <==> |frame| >= 2
  {
    var crc := Crc16(frame);
    out := frame + [crc % 256, crc / 256];
    AppendedPasses(frame);
  }

  method CheckCrc(frame: seq<Byte>) returns (ok: bool)
    ensures ok == Passes(frame)
    ensures |frame| >= 4 ==> (ok <==> Crc(frame) == 0)
  {
    if |frame| < 4 {
      return false;
    }
    PassesIffZero(frame);
    var crc := Crc16(frame[..|frame| - 2]);
    ok := frame[|frame| - 2] == crc % 256 && frame[|frame| - 1] == crc / 256;
  }

  // ---- Laws of one shift --------------------------------------------------

  lemma ShiftLinear(a: Register, b: Register)
    ensures Shift(Plus(a, b)) == Plus(Shift(a), Shift(b))
  {
    var x, y, g := a / 2, b / 2, GENERATOR;
    XorStep(a, b);
    if a % 2 == 1 && b % 2 == 1 {
      XorComm(y, g);
      XorAssoc(x, g, Xor(g, y));
      XorAssoc(g, g, y);
      XorSame(g, g);
      XorZero(y);
    } else if a % 2 == 1 {
      XorAssoc(x, g, y);
      XorComm(g, y);
      XorAssoc(x, y, g);
    } else if b % 2 == 1 {
      XorAssoc(x, y, g);
    }
  }

  function Bit(b: bool): Register { if b then 1 else 0 }

  /** One wire bit into the register. */
  function FeedBit(c: Register, b: bool): Register { Shift(Plus(c, Bit(b))) }

  lemma FeedBitLinear(c: Register, d: Register, x: bool, y: bool)
    ensures FeedBit(Plus(c, d), x != y) == Plus(FeedBit(c, x), FeedBit(d, y))
  {
    var i, j, k := Bit(x), Bit(y), Bit(x != y);
    assert Xor(i, j) == k by {
      XorSame(1, 1);
      XorZero(i);
      XorZero(j);
    }
    XorAssoc(c, d, k);
    XorAssoc(d, i, j);
    XorComm(d, i);
    XorAssoc(i, d, j);
    XorAssoc(c, i, Xor(d, j));
    ShiftLinear(Plus(c, i), Plus(d, j));
  }

  lemma XorOne(c: nat)
    ensures Xor(c, 1) == if c % 2 == 0 then c + 1 else c - 1
  {
    XorZero(c / 2);
    assert Xor(c, 1) == (if c % 2 != 1 then 1 else 0) + 2 * Xor(c / 2, 0);
  }

  lemma FeedBitZero(c: Register)
    ensures FeedBit(c, false) == Shift(c)
    ensures FeedBit(c, false) == 0 <==> c == 0
  {
    XorZero(c);
  }

  /** The register has a one at binary place `n` or above. */
  predicate ReachesPlace(c: Register, n: int) { 0 <= n < 16 && c >= Pow2(n) }

  lemma FeedBitPlace(c: Register, n: int, b: bool)
    requires n > 0 && ReachesPlace(c, n)
    ensures ReachesPlace(FeedBit(c, b), n - 1)
  {
    XorZero(c);
    XorOne(c);
    assert Pow2(4) == 16 && Pow2(8) == 256 && Pow2(12) == 0x1000 && Pow2(15) == 0x8000;
    Pow2Below(n - 1, 15);
  }

  lemma {:induction false} Pow2Below(m: nat, n: nat)
    requires m <= n
    ensures Pow2(m) <= Pow2(n)
    decreases n
  {
    if m < n {
      Pow2Below(m, n - 1);
    }
  }

  predicate OddWeight(c: Register) { Weight(c) % 2 == 1 }

  lemma ShiftWeight(d: Register)
    ensures Weight(Shift(d)) % 2 == Weight(d) % 2
  {
    WeightStep(d);
    if d % 2 == 1 {
      XorWeight(d / 2, GENERATOR);
      GeneratorWeight();
    }
  }

  lemma FeedBitWeight(c: Register, b: bool)
    ensures OddWeight(FeedBit(c, b)) == (OddWeight(c) != b)
  {
    XorWeight(c, Bit(b));
    BitWeight(b);
    ShiftWeight(Plus(c, Bit(b)));
  }

  lemma BitWeight(b: bool)
    ensures Weight(Bit(b)) == if b then 1 else 0
  {
    WeightStep(Bit(b));
  }

  lemma WeightDouble(a: nat)
    ensures Weight(2 * a) == Weight(a)
  {
    if a > 0 { WeightStep(2 * a); }
  }

  lemma GeneratorWeight()
    ensures Weight(GENERATOR) == 3
  {
    assert Weight(5) == 1 + Weight(2) && Weight(2) == Weight(1) == 1 + Weight(0);
    WeightDouble(0x5);    WeightDouble(0xA);    WeightDouble(0x14);
    WeightDouble(0x28);   WeightDouble(0x50);   WeightDouble(0xA0);
    WeightDouble(0x140);  WeightDouble(0x280);  WeightDouble(0x500);
    WeightDouble(0xA00);  WeightDouble(0x1400); WeightDouble(0x2800);
    WeightStep(0xA001);
  }

  // ---- A byte is eight wire bits ------------------------------------------

  /** Folding a number in and shifting `n` times is feeding its `n` digits. */
  lemma {:induction false} PeelBits(crc: Register, w: Register, n: nat)
    requires w < Pow2(n)
    ensures ShiftTimes(Plus(crc, w), n) == Fold(FeedBit, crc, Digits(w, n))
    decreases n
  {
    if n == 0 {
      XorZero(crc);
    } else {
      PeelBit(crc, w);
      var d := Digits(w, n);
      assert d[1..] == Digits(w / 2, n - 1);
      PeelBits(FeedBit(crc, d[0]), w / 2, n - 1);
    }
  }

  /** Digits above the lowest pass through one shift unchanged. */
  lemma PeelBit(crc: Register, w: Register)
    ensures Shift(Plus(crc, w)) == Plus(FeedBit(crc, w % 2 == 1), w / 2)
  {
    var low, high := Bit(w % 2 == 1), w / 2 * 2;
    XorZero(w / 2);
    assert Xor(low, high) == w by {
      if w != 0 { assert Xor(low, high) == w % 2 + 2 * Xor(0, w / 2); }
    }
    XorAssoc(crc, low, high);
    ShiftLinear(Plus(crc, low), high);
  }

  lemma FeedIsBits(crc: Register, byte: Byte)
    ensures Feed(crc, byte) == Fold(FeedBit, crc, Bits(byte))
  {
    assert Pow2(4) == 16 && Pow2(8) == 256;
    PeelBits(crc, byte, BYTE_WIDTH);
  }

  lemma {:induction false} CrcIsBitwise(crc: Register, data: seq<Byte>)
    ensures Fold(Feed, crc, data) == Fold(FeedBit, crc, AllBits(data))
    decreases |data|
  {
    if data != [] {
      FeedIsBits(crc, data[0]);
      FoldAppend(FeedBit, crc, Bits(data[0]), AllBits(data[1..]));
      CrcIsBitwise(Feed(crc, data[0]), data[1..]);
    }
  }

  // ---- What the CRC detects ----------------------------------------------

  function Difference(f: seq<Byte>, g: seq<Byte>): seq<bool>
    requires |f| == |g|
  {
    XorBits(AllBits(f), AllBits(g))
  }

  /** The CRC is linear over GF(2): two frames of one length differ in their
      CRC exactly when their difference, fed into a zero register, leaves a
      trace. */
  lemma CrcDiffers(f: seq<Byte>, g: seq<Byte>)
    requires |f| == |g|
    ensures Crc(f) != Crc(g) <==> Fold(FeedBit, 0, Difference(f, g)) != 0
  {
    CrcIsBitwise(INIT, f);
    CrcIsBitwise(INIT, g);
    FoldBitsLinear(INIT, INIT, AllBits(f), AllBits(g));
    XorSame(INIT, INIT);
    XorSame(Crc(f), Crc(g));
  }

  /** An error pattern that is not empty and spans at most 16 bits. */
  ghost predicate Burst(e: seq<bool>) {
    exists p :: 0 <= p < |e| && BurstAt(e, p)
  }

  ghost predicate BurstAt(e: seq<bool>, p: nat)
    requires p < |e|
  {
    e[p] && forall k :: 0 <= k < |e| && e[k] ==> p <= k < p + 16
  }

  lemma FirstHit()
    ensures ReachesPlace(FeedBit(0, true), 15)
  {
    assert Pow2(4) == 16 && Pow2(8) == 256 && Pow2(12) == 0x1000 && Pow2(15) == 0x8000;
    XorOne(0);
  }

  /** A true bit and up to fifteen more leave a non-zero register. */
  lemma HitLeavesTrace(hit: seq<bool>)
    requires |hit| <= 15
    ensures Fold(FeedBit, 0, [true] + hit) != 0
  {
    FirstHit();
    FoldAppend(FeedBit, 0, [true], hit);
    FoldOne(FeedBit, 0, true);
    forall d, m: int, x | m > 0 && ReachesPlace(d, m) ensures ReachesPlace(FeedBit(d, x), m - 1) {
      FeedBitPlace(d, m, x);
    }
    FoldMargin(FeedBit, ReachesPlace, FeedBit(0, true), 15, hit);
  }

  lemma CutAt(e: seq<bool>, p: nat, stop: nat)
    requires p < stop <= |e| && e[p]
    ensures e == e[..p] + (([true] + e[p + 1..stop]) + e[stop..])
  {}

  lemma BurstLeavesTrace(e: seq<bool>, p: nat)
    requires p < |e| && BurstAt(e, p)
    ensures Fold(FeedBit, 0, e) != 0
  {
    var stop := if p + 16 < |e| then p + 16 else |e|;
    var quiet, hit, rest := e[..p], [true] + e[p + 1..stop], e[stop..];
    CutAt(e, p, stop);
    forall d ensures FeedBit(d, false) == 0 <==> d == 0 { FeedBitZero(d); }
    FoldAppend(FeedBit, 0, quiet, hit + rest);
    FoldQuiet(FeedBit, 0, 0, quiet);
    FoldAppend(FeedBit, 0, hit, rest);
    HitLeavesTrace(e[p + 1..stop]);
    FoldQuiet(FeedBit, 0, Fold(FeedBit, 0, hit), rest);
  }

  /** Any burst of at most 16 bits, wherever it falls, changes the CRC. */
  lemma BurstChangesCrc(f: seq<Byte>, g: seq<Byte>)
    requires |f| == |g| && Burst(Difference(f, g))
    ensures Crc(f) != Crc(g)
  {
    var e := Difference(f, g);
    var p :| 0 <= p < |e| && BurstAt(e, p);
    BurstLeavesTrace(e, p);
    CrcDiffers(f, g);
  }

  /** The generator has the factor x + 1: an odd number of flipped bits,
      anywhere in the frame, changes the CRC. */
  lemma OddFlipsChangeCrc(f: seq<Byte>, g: seq<Byte>)
    requires |f| == |g| && Ones(Difference(f, g)) % 2 == 1
    ensures Crc(f) != Crc(g)
  {
    forall d, x ensures OddWeight(FeedBit(d, x)) == (OddWeight(d) != x) { FeedBitWeight(d, x); }
    FoldParity(FeedBit, OddWeight, 0, Difference(f, g));
    assert !OddWeight(0);
    CrcDiffers(f, g);
  }

  // ---- The residue --------------------------------------------------------

  /** Feeding a register its own digits empties it. */
  lemma {:induction false} OwnDigitsEmpty(c: Register, n: nat)
    requires c < Pow2(n)
    ensures Fold(FeedBit, c, Digits(c, n)) == 0
    decreases n
  {
    if n > 0 {
      var b := c % 2 == 1;
      XorZero(c);
      XorOne(c);
      assert FeedBit(c, b) == c / 2;
      OwnDigitsEmpty(c / 2, n - 1);
    }
  }

  /** Sixteen wire bits empty a register exactly when they are its digits. */
  lemma EmptiedIff(c: Register, t: seq<bool>)
    requires |t| == 16
    ensures Fold(FeedBit, c, t) == 0 <==> t == Digits(c, WORD_WIDTH)
  {
    assert Pow2(4) == 16 && Pow2(8) == 256 && Pow2(12) == 0x1000 && Pow2(16) == 0x10000;
    OwnDigitsEmpty(c, WORD_WIDTH);
    if t != Digits(c, WORD_WIDTH) { OtherBitsLeaveTrace(c, Digits(c, WORD_WIDTH), t); }
  }

  lemma OtherBitsLeaveTrace(c: Register, own: seq<bool>, t: seq<bool>)
    requires |own| == |t| == 16 && Fold(FeedBit, c, own) == 0 && t != own
    ensures Fold(FeedBit, c, t) != 0
  {
    var e := XorBits(own, t);
    var k :| 0 <= k < 16 && own[k] != t[k];
    var p := FirstTrue(e, k);
    assert BurstAt(e, p);
    BurstLeavesTrace(e, p);
    XorZero(0);
    XorSame(c, c);
    FoldBitsLinear(c, c, own, t);
  }

  lemma FoldBitsLinear(a: Register, b: Register, s: seq<bool>, t: seq<bool>)
    requires |s| == |t|
    ensures Plus(Fold(FeedBit, a, s), Fold(FeedBit, b, t)) == Fold(FeedBit, Plus(a, b), XorBits(s, t))
  {
    forall c, d, x, y ensures FeedBit(Plus(c, d), x != y) == Plus(FeedBit(c, x), FeedBit(d, y)) {
      FeedBitLinear(c, d, x, y);
    }
    FoldLinear(FeedBit, Plus, a, b, s, t);
  }

  lemma WordDigits(lo: nat, hi: nat, m: nat)
    ensures Digits(lo % Pow2(m) + Pow2(m) * hi, m + m) == Digits(lo % Pow2(m), m) + Digits(hi, m)
  {
    var low := lo % Pow2(m);
    DigitsSplit(low + Pow2(m) * hi, m, m);
    DigitsLow(low, hi, m);
    AboveWord(low, hi, m);
  }

  lemma {:induction false} AboveWord(lo: nat, hi: nat, m: nat)
    requires lo < Pow2(m)
    ensures Above(lo + Pow2(m) * hi, m) == hi
    decreases m
  {
    if m > 0 {
      var p := Pow2(m - 1) * hi;
      assert Pow2(m) * hi == 2 * p;
      AboveWord(lo / 2, hi, m - 1);
    }
  }

  lemma TrailerDigits(c: Register, lo: Byte, hi: Byte, m: nat)
    requires Pow2(m) == 256
    ensures Digits(lo, m) + Digits(hi, m) == Digits(c, m + m) <==> lo == c % 256 && hi == c / 256
  {
    WordDigits(c, c / 256, m);
    var d := Digits(c % 256, m) + Digits(c / 256, m);
    if Digits(lo, m) + Digits(hi, m) == d {
      assert Digits(lo, m) == d[..m] && Digits(hi, m) == d[m..];
      DigitsInjective(lo, c % 256, m);
      DigitsInjective(hi, c / 256, m);
    }
  }

  /** A frame passes exactly when the CRC of the whole frame, trailer
      included, is zero. */
  lemma PassesIffZero(frame: seq<Byte>)
    requires |frame| >= 4
    ensures Passes(frame) <==> Crc(frame) == 0
  {
    var n := |frame| - 2;
    var body, lo, hi := frame[..n], frame[n], frame[n + 1];
    assert frame == body + [lo, hi];
    FoldAppend(Feed, INIT, body, [lo, hi]);
    CrcIsBitwise(Crc(body), [lo, hi]);
    assert [lo, hi][1..] == [hi];
    assert AllBits([lo, hi]) == Bits(lo) + Bits(hi) by {
      assert AllBits([hi]) == Bits(hi) + AllBits([hi][1..]);
    }
    EmptiedIff(Crc(body), Bits(lo) + Bits(hi));
    assert Pow2(BYTE_WIDTH) == 256 by { assert Pow2(4) == 16; }
    TrailerDigits(Crc(body), lo, hi, BYTE_WIDTH);
  }

  lemma AppendedPasses(frame: seq<Byte>)
    ensures Passes(WithCrc(frame)) <==> |frame| >= 2
  {
    var out := WithCrc(frame);
    assert out[..|out| - 2] == frame;
  }

  /** A frame that passes, altered by one burst of at most 16 bits or by an odd
      number of bit flips, does not pass, even when the trailer was hit. */
  lemma CorruptionRejected(f: seq<Byte>, g: seq<Byte>)
    requires |f| == |g| && Passes(f)
    requires Burst(Difference(f, g)) || Ones(Difference(f, g)) % 2 == 1
    ensures !Passes(g)
  {
    PassesIffZero(f);
    PassesIffZero(g);
    if Burst(Difference(f, g)) {
      BurstChangesCrc(f, g);
    } else {
      OddFlipsChangeCrc(f, g);
    }
  }

  lemma SomeBitDiffers(a: Byte, b: Byte)
    requires a != b
    ensures exists j :: 0 <= j < 8 && Bits(a)[j] != Bits(b)[j]
  {
    if forall j :: 0 <= j < 8 ==> Bits(a)[j] == Bits(b)[j] {
      assert Bits(a) == Bits(b);
      assert Pow2(4) == 16 && Pow2(8) == 256;
      DigitsInjective(a, b, 8);
    }
  }

  lemma DifferenceAt(f: seq<Byte>, g: seq<Byte>, k: nat, j: nat)
    requires |f| == |g| && k < |f| && j < 8
    ensures Difference(f, g)[8 * k + j] <==> Bits(f[k])[j] != Bits(g[k])[j]
  {
    ConcatAt(Bits, f, k, j);
    ConcatAt(Bits, g, k, j);
  }

  /** Bytes that agree contribute nothing to the difference. */
  lemma DifferenceWindow(f: seq<Byte>, g: seq<Byte>, i: nat, n: nat)
    requires |f| == |g| && n < 8 * |f| && Difference(f, g)[n]
    requires forall k :: 0 <= k < |f| && k != i && k != i + 1 ==> f[k] == g[k]
    ensures 8 * i <= n < 8 * i + 16
  {
    var k, j := n / 8, n % 8;
    assert n == 8 * k + j;
    DifferenceAt(f, g, k, j);
  }

  lemma DifferenceShows(f: seq<Byte>, g: seq<Byte>)
    requires |f| == |g| && f != g
    ensures exists n :: 0 <= n < 8 * |f| && Difference(f, g)[n]
  {
    var k :| 0 <= k < |f| && f[k] != g[k];
    SomeBitDiffers(f[k], g[k]);
    var j :| 0 <= j < 8 && Bits(f[k])[j] != Bits(g[k])[j];
    DifferenceAt(f, g, k, j);
    assert Difference(f, g)[8 * k + j];
  }

  /** Byte-level form: a frame that passes and is altered in one byte or in two
      adjacent bytes, in any way at all, never passes. */
  lemma AdjacentBytesRejected(f: seq<Byte>, g: seq<Byte>, i: nat)
    requires |f| == |g| && f != g && Passes(f)
    requires forall k :: 0 <= k < |f| && k != i && k != i + 1 ==> f[k] == g[k]
    ensures !Passes(g)
  {
    var e := Difference(f, g);
    DifferenceShows(f, g);
    var n0 :| 0 <= n0 < |e| && e[n0];
    var p := FirstTrue(e, n0);
    forall n | 0 <= n < |e| && e[n] ensures p <= n < p + 16 {
      DifferenceWindow(f, g, i, n);
      DifferenceWindow(f, g, i, p);
    }
    assert BurstAt(e, p);
    CorruptionRejected(f, g);
  }

  // ---- The register in numbers ------------------------------------------------

  /** Digit `n` falls out when both have it. */
  lemma XorBothTop(a: nat, b: nat, n: nat)
    requires a < Pow2(n) && b < Pow2(n)
    ensures Xor(Pow2(n) + a, Pow2(n) + b) == Xor(a, b)
  {
    var p := Pow2(n);
    TopApart(a, n);
    TopApart(b, n);
    XorComm(p, b);
    XorAssoc(a, p, Xor(p, b));
    XorAssoc(p, p, b);
    XorSame(p, p);
    XorZero(b);
  }

  lemma TopApart(a: nat, n: nat)
    requires a < Pow2(n)
    ensures Xor(a, Pow2(n)) == Pow2(n) + a
  {
    XorTop(a, 0, n);
    XorZero(a);
  }

  lemma XorTopLeft(a: nat, b: nat, n: nat)
    requires a < Pow2(n) && b < Pow2(n)
    ensures Xor(Pow2(n) + a, b) == Pow2(n) + Xor(a, b)
  {
    XorComm(Pow2(n) + a, b);
    XorComm(a, b);
    XorTop(b, a, n);
  }

  lemma HighPowers()
    ensures Pow2(13) == 0x2000 && Pow2(14) == 0x4000 && Pow2(15) == 0x8000
  {
    assert Pow2(4) == 16 && Pow2(8) == 256 && Pow2(12) == 0x1000;
  }

  lemma FoldedLow(f: nat, high: bool, p: nat, one: nat)
    requires f < p && p == Pow2(13) == 0x2000 && one == 1
    ensures Xor(if high then p + f else f, p + one) == f + (if high then 0 else p) + (if f % 2 == 1 then -1 else 1)
  {
    XorOne(f);
    if high { XorBothTop(f, one, 13); } else { XorTop(f, one, 13); }
  }

  lemma FoldedIn(h: nat, top: bool, high: bool, f: nat)
    requires h == (if top then 0x4000 else 0) + (if high then 0x2000 else 0) + f && f < 0x2000
    ensures Xor(h, 0xA001) ==
      0x8000 + (if top then 0x4000 else 0) + f + (if high then 0 else 0x2000) + (if f % 2 == 1 then -1 else 1)
  {
    HighPowers();
    XorTop(h, 0x2001, 15);
    if top { XorTopLeft((if high then 0x2000 else 0) + f, 0x2001, 14); }
    FoldedLow(f, high, 0x2000, 1);
  }

  /** One shift, in numbers: halved, and after an odd number the sixteenth digit
      set and the fourteenth and the first turned over. */
  function Halved(c: Register): int {
    if c % 2 == 0 then c / 2
    else c / 2 + 0x8000 + (if c / 0x4000 % 2 == 1 then -0x2000 else 0x2000) + (if c / 2 % 2 == 1 then -1 else 1)
  }

  lemma ShiftHalves(c: Register)
    ensures Shift(c) == Halved(c)
  {
    var h := c / 2;
    HalfParts(c);
    if c % 2 == 1 { FoldedIn(h, h >= 0x4000, c / 0x4000 % 2 == 1, h % 0x2000); }
  }

  lemma HalfParts(c: Register)
    ensures var h := c / 2;
      h == (if h >= 0x4000 then 0x4000 else 0) + (if c / 0x4000 % 2 == 1 then 0x2000 else 0) + h % 0x2000
    ensures c / 2 % 0x2000 % 2 == c / 2 % 2
  {}

  lemma {:induction false} ShiftsAlong(c: seq<Register>, n: nat)
    requires |c| == n + 1 && forall i :: 0 <= i < n ==> c[i + 1] == Halved(c[i])
    ensures ShiftTimes(c[0], n) == c[n]
    decreases n
  {
    if n > 0 {
      ShiftHalves(c[0]);
      ShiftsAlong(c[1..], n - 1);
    }
  }

  lemma FirstByteFed(c: Register, n: nat)
    requires c == 0xFFFD && n == 8
    ensures ShiftTimes(c, n) == 0x813E
  {
    ShiftsAlong([c, 0xDFFF, 0xCFFE, 0x67FF, 0x93FE, 0x49FF, 0x84FE, 0x427F, 0x813E], n);
  }

  lemma SecondByteFed(c: Register, n: nat)
    requires c == 0x8139 && n == 8
    ensures ShiftTimes(c, n) == 0x1241
  {
    ShiftsAlong([c, 0xE09D, 0xD04F, 0xC826, 0x6413, 0x9208, 0x4904, 0x2482, 0x1241], n);
  }

  lemma TwoIntoInit(a: nat, b: nat)
    requires a == 0xFFFF && b == 2
    ensures Xor(a, b) == 0xFFFD
  {
    XorOne(0x7FFF);
    Doubled(0x7FFF, 1, a, b);
  }

  lemma SevenInto(a: nat, b: nat)
    requires a == 0x813E && b == 7
    ensures Xor(a, b) == 0x8139
  {
    XorOne(0x204F);
    Doubled(0x204F, 1, 0x409F, 3);
    Doubled(0x409F, 3, a, b);
  }

  lemma Doubled(h: nat, k: nat, a: nat, b: nat)
    requires h == a / 2 && k == b / 2
    ensures Xor(a, b) == 2 * Xor(h, k) + (a + b) % 2
  {
    XorStep(a, b);
  }

  lemma TwoBytes(crc: Register, a: Byte, b: Byte)
    ensures Fold(Feed, crc, [a, b]) == Feed(Feed(crc, a), b)
  {
    FoldOne(Feed, crc, a);
    FoldLast(Feed, crc, [a], b);
    assert [a] + [b] == [a, b];
  }

  /** The standard's own example: address 2 and function 7 are followed by 0x41
      and 0x12. */
  lemma KnownCrc(address: Byte, function7: Byte)
    requires address == 2 && function7 == 7
    ensures Crc([address, function7]) == 0x1241
  {
    TwoBytes(INIT, address, function7);
    TwoIntoInit(INIT, address);
    FirstByteFed(Plus(INIT, address), BYTE_WIDTH);
    SevenInto(0x813E, function7);
    SecondByteFed(Plus(0x813E, function7), BYTE_WIDTH);
  }

  // ---- Exchanges on the bus -----------------------------------------------

  datatype ModbusError =
    | Timeout
    | CrcError
    | ExceptionResponse(functionCode: nat, exceptionCode: nat)
    | ByteCount(got: nat, wanted: nat)

  datatype Reply<+T> = Answer(value: T) | Failed(error: ModbusError)

  /** A complete, intact, ordinary answer of the expected length. */
  predicate Acceptable(response: seq<Byte>, responseLen: nat) {
    |response| >= responseLen && Passes(response) && (|response| >= 5 ==> response[1] < 128)
  }

  /** An intact exception frame: function code with the top bit set. */
  predicate Refusal(response: seq<Byte>) {
    |response| >= 5 && response[1] >= 128 && Passes(response[..5])
  }

  predicate Inconclusive(response: seq<Byte>, responseLen: nat) {
    !Acceptable(response, responseLen) && !Refusal(response)
  }

  /** The first of `n` attempts that settles the exchange; `n` if none does. */
  function Settled(responses: seq<seq<Byte>>, n: nat, responseLen: nat): (k: nat)
    requires n <= |responses|
    ensures k <= n && (k < n ==> !Inconclusive(responses[k], responseLen))
    ensures forall j :: 0 <= j < k ==> Inconclusive(responses[j], responseLen)
  {
    if n == 0 then 0
    else
      var k := Settled(responses, n - 1, responseLen);
      if k < n - 1 then k
      else if Inconclusive(responses[n - 1], responseLen) then n else n - 1
  }

  /** The error an inconclusive attempt leaves: a timeout exactly when the
      response was short, and not shaped like an exception. */
  function ErrorLeft(response: seq<Byte>, responseLen: nat): ModbusError {
    if |response| < responseLen && (|response| < 5 || response[1] < 128) then Timeout else CrcError
  }

  /** What `attempts` tries come to: the first response that settles the
      exchange, or else the last error. */
  function Exchanged(responses: seq<seq<Byte>>, attempts: nat, responseLen: nat): Reply<seq<Byte>>
    requires attempts <= |responses|
  {
    var k := Settled(responses, attempts, responseLen);
    if k == attempts then Failed(if attempts == 0 then Timeout else ErrorLeft(responses[attempts - 1], responseLen))
    else if Acceptable(responses[k], responseLen) then Answer(responses[k])
    else Failed(ExceptionResponse(responses[k][1] % 128, responses[k][2]))
  }

  lemma SettledIs(responses: seq<seq<Byte>>, n: nat, responseLen: nat, k: nat)
    requires n <= |responses| && k <= n && (k < n ==> !Inconclusive(responses[k], responseLen))
    requires forall j :: 0 <= j < k ==> Inconclusive(responses[j], responseLen)
    ensures Settled(responses, n, responseLen) == k
  {
    assert Settled(responses, n, responseLen) >= k;
  }

  /** `responses[k]` is what the port delivers on attempt `k`. */
  method Transact(responses: seq<seq<Byte>>, attempts: nat, responseLen: nat) returns (r: Reply<seq<Byte>>)
    requires attempts <= |responses|
    ensures r == Exchanged(responses, attempts, responseLen)
  {
    r := Failed(Timeout);
    for attempt := 0 to attempts
      invariant forall j :: 0 <= j < attempt ==> Inconclusive(responses[j], responseLen)
      invariant r == Failed(if attempt == 0 then Timeout else ErrorLeft(responses[attempt - 1], responseLen))
    {
      var response := responses[attempt];
      if |response| >= 5 && response[1] >= 128 {
        var ok := CheckCrc(response[..5]);
        if ok {
          SettledIs(responses, attempts, responseLen, attempt);
          return Failed(ExceptionResponse(response[1] % 128, response[2]));
        }
        r := Failed(CrcError);
      } else if |response| < responseLen {
        r := Failed(Timeout);
      } else {
        var ok := CheckCrc(response);
        if ok {
          SettledIs(responses, attempts, responseLen, attempt);
          return Answer(response);
        }
        r := Failed(CrcError);
      }
    }
    SettledIs(responses, attempts, responseLen, attempts);
  }

  /** A whole answer, and a whole exception frame: their own checksums divide
      out, and the function code's top bit tells them apart. */
  predicate Whole(r: seq<Byte>, responseLen: nat) {
    |r| >= responseLen && |r| >= 4 && (|r| == 4 || r[1] < 0x80) && Crc(r) == 0
  }

  predicate Declines(r: seq<Byte>) { |r| >= 5 && r[1] >= 0x80 && Crc(r[..5]) == 0 }

  lemma WholeMeans(r: seq<Byte>, responseLen: nat)
    ensures Acceptable(r, responseLen) <==> Whole(r, responseLen)
    ensures Refusal(r) <==> Declines(r)
  {
    if |r| >= 4 { PassesIffZero(r); }
    if |r| >= 5 { PassesIffZero(r[..5]); }
  }

  lemma FirstSettles(responses: seq<seq<Byte>>, attempts: nat, responseLen: nat, k: nat)
    requires k <= attempts <= |responses|
    requires forall j :: 0 <= j < k ==> !Whole(responses[j], responseLen) && !Declines(responses[j])
    requires k < attempts ==> Whole(responses[k], responseLen) || Declines(responses[k])
    ensures Settled(responses, attempts, responseLen) == k
  {
    forall j | 0 <= j < attempts ensures Inconclusive(responses[j], responseLen) <==>
      !Whole(responses[j], responseLen) && !Declines(responses[j])
    {
      WholeMeans(responses[j], responseLen);
    }
    SettledIs(responses, attempts, responseLen, k);
  }

  /** The first attempt that brings a whole frame settles the exchange: an answer
      is returned as it is, an exception frame with its function and exception
      codes. When none does, the last attempt tells the error: a timeout if it
      brought too little and nothing like an exception frame. */
  lemma ExchangeMeans(responses: seq<seq<Byte>>, attempts: nat, responseLen: nat, k: nat)
    requires k <= attempts <= |responses|
    requires forall j :: 0 <= j < k ==> !Whole(responses[j], responseLen) && !Declines(responses[j])
    requires k < attempts ==> Whole(responses[k], responseLen) || Declines(responses[k])
    ensures Exchanged(responses, attempts, responseLen) ==
      if k < attempts then
        if Declines(responses[k]) then Failed(ExceptionResponse(responses[k][1] - 0x80, responses[k][2]))
        else Answer(responses[k])
      else if attempts == 0 then Failed(Timeout)
      else
        var last := responses[attempts - 1];
        Failed(if |last| >= responseLen || (|last| >= 5 && last[1] >= 0x80) then CrcError else Timeout)
  {
    FirstSettles(responses, attempts, responseLen, k);
    if k < attempts { WholeMeans(responses[k], responseLen); }
  }

  /** `g` is `f` after one burst of at most 16 bits, or an odd number of flips. */
  ghost predicate Corrupted(f: seq<Byte>, g: seq<Byte>) {
    |f| == |g| && (Burst(Difference(f, g)) || Ones(Difference(f, g)) % 2 == 1)
  }

  /** Whatever mix of intact, short and corrupted copies of one device frame
      the port delivers, the only answer an exchange returns is the frame the
      device sent. */
  lemma OnlyTheFrameSent(sent: seq<Byte>, responses: seq<seq<Byte>>, attempts: nat, responseLen: nat)
    requires Passes(sent) && attempts <= |responses|
    requires forall j :: 0 <= j < attempts ==>
      responses[j] == sent || |responses[j]| < responseLen || Corrupted(sent, responses[j])
    ensures var r := Exchanged(responses, attempts, responseLen);
      r.Answer? ==> r.value == sent
  {
    var k := Settled(responses, attempts, responseLen);
    if k < attempts && Corrupted(sent, responses[k]) {
      CorruptionRejected(sent, responses[k]);
    }
  }

  function WordBytes(w: Register): seq<Byte> { [w / 256, w % 256] }

  function Words(regs: seq<Register>): (b: seq<Byte>)
    ensures |b| == 2 * |regs|
    decreases |regs|
  {
    if regs == [] then [] else WordBytes(regs[0]) + Words(regs[1..])
  }

  lemma {:induction false} WordsAt(regs: seq<Register>, i: nat)
    requires i < |regs|
    ensures Words(regs)[2 * i] == regs[i] / 256 && Words(regs)[2 * i + 1] == regs[i] % 256
    decreases |regs|
  {
    if i > 0 {
      WordsAt(regs[1..], i - 1);
    }
  }

  /** What a device sends back for a read of `regs`. */
  function DeviceReply(address: Byte, functionCode: Byte, regs: seq<Register>): seq<Byte>
    requires |regs| <= 127
  {
    WithCrc([address, functionCode, 2 * |regs|] + Words(regs))
  }

  function WordOf(hi: int, lo: int): int { hi * 256 + lo }

  /** The registers in a reply, high byte first. */
  function RegsOf(response: seq<Byte>, count: nat): (regs: seq<Register>)
    requires |response| >= 3 + 2 * count
    ensures |regs| == count
  {
    seq(count, i requires 0 <= i < count => WordOf(response[3 + 2 * i], response[4 + 2 * i]))
  }

  method ReadRegs(responses: seq<seq<Byte>>, attempts: nat, count: nat) returns (r: Reply<seq<Register>>)
    requires attempts <= |responses|
    ensures var x := Exchanged(responses, attempts, 5 + 2 * count);
      && (x.Failed? ==> r == Failed(x.error))
      && (x.Answer? ==> |x.value| >= 5 + 2 * count)
      && (x.Answer? && x.value[2] == 2 * count ==> r == Answer(RegsOf(x.value, count)))
      && (x.Answer? && x.value[2] != 2 * count ==> r == Failed(ByteCount(x.value[2], 2 * count)))
  {
    var reply := Transact(responses, attempts, 5 + 2 * count);
    if reply.Failed? {
      return Failed(reply.error);
    }
    var response := reply.value;
    if response[2] != 2 * count {
      return Failed(ByteCount(response[2], 2 * count));
    }
    var regs: seq<Register> := [];
    for i := 0 to count
      invariant |regs| == i
      invariant forall k :: 0 <= k < i ==> regs[k] == WordOf(response[3 + 2 * k], response[4 + 2 * k])
    {
      regs := regs + [WordOf(response[3 + 2 * i], response[4 + 2 * i])];
    }
    assert regs == RegsOf(response, count);
    r := Answer(regs);
  }

  /** What a device says is what a read returns. */
  lemma HonestReplyRead(address: Byte, functionCode: Byte, regs: seq<Register>)
    requires functionCode < 128 && |regs| <= 127
    ensures var reply := DeviceReply(address, functionCode, regs);
      Acceptable(reply, 5 + 2 * |regs|) && reply[2] == 2 * |regs| && RegsOf(reply, |regs|) == regs
  {
    var body := [address, functionCode, 2 * |regs|] + Words(regs);
    AppendedPasses(body);
    var reply := DeviceReply(address, functionCode, regs);
    assert reply[..|body|] == body;
    forall i | 0 <= i < |regs| ensures RegsOf(reply, |regs|)[i] == regs[i] {
      WordsAt(regs, i);
      WordInReply(reply, [address, functionCode, 2 * |regs|], Words(regs), regs[i], 2 * i);
    }
  }

  lemma WordInReply(reply: seq<Byte>, head: seq<Byte>, words: seq<Byte>, w: Register, k: nat)
    requires |head| == 3 && k + 1 < |words| && |reply| >= 3 + |words| && reply[..3 + |words|] == head + words
    requires words[k] == w / 256 && words[k + 1] == w % 256
    ensures WordOf(reply[3 + k], reply[4 + k]) == w
  {
    PairAt(reply, head, words, k);
    WordBack(w);
  }

  lemma PairAt(reply: seq<Byte>, head: seq<Byte>, words: seq<Byte>, k: nat)
    requires |head| == 3 && k + 1 < |words| && |reply| >= 3 + |words| && reply[..3 + |words|] == head + words
    ensures reply[3 + k] == words[k] && reply[4 + k] == words[k + 1]
  {
    assert reply[..3 + |words|][3 + k] == words[k] && reply[..3 + |words|][4 + k] == words[k + 1];
  }

  lemma WordBack(w: Register)
    ensures WordOf(w / 256, w % 256) == w
  {}
}
