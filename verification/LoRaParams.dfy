/** US915 regional parameters, the MAC parameters a network assigns, and their
    persisted form. */
module LoRaParams {
  import opened BitMath
  import opened LoRaCrypto

  // ---- The channel plan -----------------------------------------------------------

  type Mask = seq<bool>

  function SubBandMask(subBand: int): (m: Mask)
    ensures |m| == 72
  {
    var band := if subBand < 1 then 1 else if subBand > 8 then 8 else subBand;
    seq(72, i requires 0 <= i < 72 => 8 * (band - 1) <= i < 8 * band || i == 64 + band - 1)
  }

  /** A plan the device can transmit on: 72 entries, some 125 kHz one on. */
  predicate Usable(m: Mask) { |m| == 72 && Any125(m) }

  predicate Any125(m: Mask) { exists i :: 0 <= i < 64 && i < |m| && m[i] }

  lemma SubBandUsable(subBand: int)
    ensures Usable(SubBandMask(subBand))
  {
    var band := if subBand < 1 then 1 else if subBand > 8 then 8 else subBand;
    assert SubBandMask(subBand)[8 * (band - 1)];
  }

  /** The channels an uplink may be sent on. */
  function EnabledChannels(m: Mask, subBand: int): (channels: set<int>)
    requires |m| == 72
    ensures channels != {}
    ensures (exists i :: 0 <= i < 64 && m[i]) ==> forall i :: i in channels <==> 0 <= i < 64 && m[i]
    ensures !(exists i :: 0 <= i < 64 && m[i]) ==>
      var band := if subBand <= 1 then 0 else if subBand >= 8 then 7 else subBand - 1;
      channels == {8 * band, 8 * band + 1, 8 * band + 2, 8 * band + 3, 8 * band + 4, 8 * band + 5, 8 * band + 6, 8 * band + 7}
  {
    SubBandUsable(subBand);
    On125(if Any125(m) then m else SubBandMask(subBand))
  }

  function On125(m: Mask): (channels: set<int>)
    requires |m| == 72
    ensures Any125(m) ==> channels != {}
    ensures forall i :: i in channels <==> 0 <= i < 64 && m[i]
  {
    var all := set i | 0 <= i < 64 && m[i];
    assert forall i :: 0 <= i < 64 && m[i] ==> i in all;
    all
  }

  /** Digit `bit` of a 16-bit channel mask field. */
  predicate FieldBit(field: nat, bit: nat) { Above(field, bit) % 2 == 1 }

  // ---- Data rates ---------------------------------------------------------------------

  predicate KnownSf(sf: int) { 7 <= sf <= 10 }

  function UplinkDr(sf: int): int
    requires KnownSf(sf)
  {
    10 - sf
  }

  function Rx1DataRate(uplinkDr: int, offset: int): (dr: int)
    ensures 8 <= dr <= 13
  {
    var base := if 0 <= uplinkDr <= 4 then 10 + uplinkDr else 11;
    var o := if offset > 3 then 3 else if offset < 0 then 0 else offset;
    var dr := base - o;
    if dr < 8 then 8 else if dr > 13 then 13 else dr
  }

  function DownlinkSf(dr: int): (sf: int)
    ensures 7 <= sf <= 12
  {
    20 - (if dr < 8 then 8 else if dr > 13 then 13 else dr)
  }

  /** The data rates of RX1 by the rows of uplink DR0 to DR4 and the columns of
      RX1DROffset 0 to 3. */
  const RX1_RATES: seq<seq<int>> := [[10, 9, 8, 8], [11, 10, 9, 8], [12, 11, 10, 9], [13, 12, 11, 10], [13, 13, 12, 11]]

  /** RX1 follows the table, a larger offset counting as 3; its spreading
      factors fall from 12 at DR8 to 7 at DR13. */
  lemma Rx1FollowsTable(uplinkDr: int, offset: int)
    requires 0 <= uplinkDr <= 4 && 0 <= offset
    ensures Rx1DataRate(uplinkDr, offset) == RX1_RATES[uplinkDr][if offset <= 3 then offset else 3]
    ensures [DownlinkSf(8), DownlinkSf(9), DownlinkSf(10), DownlinkSf(11), DownlinkSf(12), DownlinkSf(13)]
         == [12, 11, 10, 9, 8, 7]
  {
    assert uplinkDr == 0 || uplinkDr == 1 || uplinkDr == 2 || uplinkDr == 3 || uplinkDr == 4;
  }

  /** The largest application payload at an uplink data rate. */
  function MaxPayload(dr: int): nat {
    if dr == 0 then 11 else if dr == 1 then 53 else if dr == 2 then 125 else 242
  }

  // ---- Assigned parameters -----------------------------------------------------------------

  datatype Params = Params(sf: int, mask: Mask, rx1Offset: int, rx2Dr: int, rx2Frequency: int, rx1Delay: int)

  const RX2_FREQUENCY := 923_300_000
  const RX2_DR := 8

  /** What every reachable set of parameters satisfies. The raw RX1 offset may
      exceed 3: a JoinAccept sets it unclamped. */
  predicate Sound(p: Params) {
    && KnownSf(p.sf) && Usable(p.mask)
    && 0 <= p.rx1Offset <= 7 && 8 <= p.rx2Dr <= 13 && p.rx2Frequency > 0 && 1 <= p.rx1Delay <= 15
  }

  /** Regional defaults; the spreading factor is kept. */
  function Defaults(sf: int, subBand: int): Params {
    Params(sf, SubBandMask(subBand), 0, RX2_DR, RX2_FREQUENCY, 1)
  }

  /** RECEIVE_DELAY1 in seconds: 0 stands for 1. */
  function Delay(field: Byte): (d: int)
    ensures 1 <= d <= 15
  {
    if field % 16 == 0 then 1 else field % 16
  }

  /** DLSettings and RxDelay of a JoinAccept, then its CFList. */
  function Joined(sf: int, subBand: int, dlSettings: Byte, rxDelay: Byte, cfList: Bytes): Params {
    var low := dlSettings % 16;
    Defaults(sf, subBand).(
      rx1Offset := dlSettings / 16 % 8,
      rx2Dr := if low == 0 then RX2_DR else if low < 8 then 8 else if low > 13 then 13 else low,
      rx1Delay := Delay(rxDelay),
      mask := if Any125(CfListMask(cfList)) then CfListMask(cfList) else SubBandMask(subBand))
  }

  /** The mask a type-1 CFList carries; empty when there is none. */
  function CfListMask(cfList: Bytes): (m: Mask)
    ensures m == [] || |m| == 72
  {
    if |cfList| == 16 && cfList[15] == 1 then
      seq(72, i requires 0 <= i < 72 => CfListEntry(cfList, i / 16, i % 16))
    else []
  }

  /** Bit `bit` of field `block` of a CFList. */
  predicate CfListEntry(cfList: Bytes, block: nat, bit: nat)
    requires |cfList| == 16 && block < 5
  {
    FieldBit(FromLe16(cfList[2 * block], cfList[2 * block + 1]), bit)
  }

  lemma CfListBit(cfList: Bytes, block: nat, bit: nat)
    requires |cfList| == 16 && cfList[15] == 1 && block < 5 && bit < 16 && 16 * block + bit < 72
    ensures CfListMask(cfList)[16 * block + bit] == CfListEntry(cfList, block, bit)
  {
    SplitIndex(block, bit);
  }

  lemma SplitIndex(block: nat, bit: nat)
    requires bit < 16
    ensures (16 * block + bit) / 16 == block && (16 * block + bit) % 16 == bit
  {}

  /** The bits of one channel mask field, as far as there are channels. */
  method ReadField(m: Mask, first: nat, field: nat) returns (n: Mask)
    requires |m| == 72
    ensures |n| == 72
    ensures forall i :: 0 <= i < 72 ==> n[i] == if first <= i < first + 16 then FieldBit(field, i - first) else m[i]
  {
    n := m;
    for bit := 0 to 16
      invariant |n| == 72
      invariant forall i :: 0 <= i < 72 ==> n[i] == if first <= i < first + bit then FieldBit(field, i - first) else m[i]
    {
      if first + bit < 72 {
        n := n[first + bit := FieldBit(field, bit)];
      }
    }
  }

  /** Sixteen entries of a mask are those of one field of the list. */
  ghost predicate Carries(m: Mask, cfList: Bytes, block: nat)
    requires |m| == 72 && |cfList| == 16 && block < 5
  {
    forall i :: 16 * block <= i < 16 * block + 16 && i < 72 ==>
      m[i] == CfListEntry(cfList, block, i - 16 * block)
  }

  method ReadFields(cfList: Bytes, ghost mask: Mask) returns (m: Mask)
    requires |cfList| == 16 && |mask| == 72 && forall b :: 0 <= b < 5 ==> Carries(mask, cfList, b)
    ensures m == mask
  {
    m := seq(72, _ => false);
    for block := 0 to 5
      invariant |m| == 72 && forall i :: 0 <= i < 72 && i < 16 * block ==> m[i] == mask[i]
    {
      assert Carries(mask, cfList, block);
      m := ReadField(m, 16 * block, FromLe16(cfList[2 * block], cfList[2 * block + 1]));
    }
  }

  /** The CFList of a JoinAccept, field by field and bit by bit. */
  method ReadCfList(cfList: Bytes) returns (m: Mask)
    requires |cfList| == 16 && cfList[15] == 1
    ensures m == CfListMask(cfList)
  {
    ghost var mask := CfListMask(cfList);
    forall b | 0 <= b < 5 ensures Carries(mask, cfList, b) {
      forall i | 16 * b <= i < 16 * b + 16 && i < 72
        ensures mask[i] == CfListEntry(cfList, b, i - 16 * b)
      {
        CfListBit(cfList, b, i - 16 * b);
      }
    }
    m := ReadFields(cfList, mask);
  }

  lemma JoinedSound(sf: int, subBand: int, dlSettings: Byte, rxDelay: Byte, cfList: Bytes)
    requires KnownSf(sf)
    ensures Sound(Joined(sf, subBand, dlSettings, rxDelay, cfList))
  {
    SubBandUsable(subBand);
  }

  /** The mask a LinkADRReq asks for, block by block or all at once; empty when
      ChMaskCntl is reserved. */
  function AdrMask(m: Mask, chMask: nat, cntl: int): (n: Mask)
    requires |m| == 72
    ensures n == [] || |n| == 72
  {
    if 0 <= cntl <= 3 then
      seq(72, i requires 0 <= i < 72 => if 16 * cntl <= i < 16 * cntl + 16 then FieldBit(chMask, i - 16 * cntl) else m[i])
    else if cntl == 6 || cntl == 7 then
      seq(72, i requires 0 <= i < 72 => if i < 64 then cntl == 6 else FieldBit(chMask, i - 64))
    else []
  }

  method NewMask(m: Mask, chMask: nat, cntl: int) returns (n: Mask)
    requires |m| == 72 && (0 <= cntl <= 3 || cntl == 6 || cntl == 7)
    ensures n == AdrMask(m, chMask, cntl)
  {
    n := m;
    if cntl <= 3 {
      n := ReadField(m, 16 * cntl, chMask);
    } else {
      for ch := 0 to 64
        invariant |n| == 72 && forall i :: 0 <= i < ch ==> n[i] == (cntl == 6)
      {
        n := n[ch := cntl == 6];
      }
      for bit := 0 to 8
        invariant |n| == 72 && forall i :: 0 <= i < 64 ==> n[i] == (cntl == 6)
        invariant forall i :: 64 <= i < 64 + bit ==> n[i] == FieldBit(chMask, i - 64)
      {
        n := n[64 + bit := FieldBit(chMask, bit)];
      }
    }
  }

  /** The parameters after a LinkADRReq, and its status byte. ChMaskCntl 4
      indexes past the mask: the command is dropped with no answer (-1). */
  function LinkAdr(p: Params, dr: int, power: int, chMask: nat, cntl: int): (r: (Params, int))
    requires Sound(p) && 0 <= cntl <= 7
    ensures Sound(r.0) && -1 <= r.1 <= 7
    ensures r.0 != p ==> r.1 == 7
  {
    if cntl == 4 then (p, -1)
    else
      var mask := AdrMask(p.mask, chMask, cntl);
      var maskOk := Any125(mask);
      var drOk := 1 <= dr <= 3 || dr == 15;
      var powerOk := power <= 10 || power == 15;
      var status := (if maskOk then 1 else 0) + (if drOk then 2 else 0) + (if powerOk then 4 else 0);
      if status == 7 then (p.(mask := mask, sf := if dr == 15 then p.sf else 10 - dr), status) else (p, status)
  }

  function RxParamSetup(p: Params, dlSettings: Byte, frequency: nat): (r: (Params, int))
    requires Sound(p)
    ensures Sound(r.0) && 0 <= r.1 <= 7
    ensures r.0 != p ==> r.1 == 7
  {
    var offset, dr := dlSettings / 16 % 8, dlSettings % 16;
    var status := (if offset <= 3 then 4 else 0) + (if 8 <= dr <= 13 then 2 else 0)
                + (if 923_300_000 <= frequency <= 927_500_000 then 1 else 0);
    if status == 7 then (p.(rx1Offset := offset, rx2Dr := dr, rx2Frequency := frequency), status) else (p, status)
  }

  // ---- Persistence ------------------------------------------------------------------------------

  /** The `mac_params` dictionary; the mask as hexadecimal digits, 18 for
      72 channels. */
  datatype Saved = Saved(sf: int, devNonce: int, appNonces: seq<int>, rx1Offset: int, rx2Dr: int, rx2Frequency: int,
                         rx1Delay: int, maskHex: string)

  /** The number whose binary digits, lowest first, are `m`. */
  function MaskBits(m: Mask): nat
    decreases |m|
  {
    if m == [] then 0 else (if m[0] then 1 else 0) + 2 * MaskBits(m[1..])
  }

  lemma NextPlace(place: nat, rest: nat)
    ensures place * (2 * rest) == (2 * place) * rest
    ensures place * (1 + 2 * rest) == place + (2 * place) * rest
  {}

  method MaskToBits(m: Mask) returns (bits: nat)
    ensures bits == MaskBits(m)
  {
    bits := 0;
    var place: nat := 1;
    ghost var total := MaskBits(m);
    for i := 0 to |m|
      invariant total == bits + place * MaskBits(m[i..])
    {
      ghost var rest := MaskBits(m[i + 1..]);
      assert m[i..][1..] == m[i + 1..];
      if m[i] {
        bits := bits + place;
      }
      NextPlace(place, rest);
      place := 2 * place;
    }
    assert m[|m|..] == [];
  }

  const HEX := "0123456789abcdef"

  /** `n` in `width` hexadecimal digits, most significant first. */
  function Hex(n: nat, width: nat): (s: string)
    ensures |s| == width
    decreases width
  {
    if width == 0 then "" else Hex(n / 16, width - 1) + [HEX[n % 16]]
  }

  function HexDigit(c: char): nat {
    if '0' <= c <= '9' then (c - '0') as int else if 'a' <= c <= 'f' then (c - 'a') as int + 10 else 0
  }

  function ParseHex(s: string): nat
    decreases |s|
  {
    if s == "" then 0 else 16 * ParseHex(s[..|s| - 1]) + HexDigit(s[|s| - 1])
  }

  function Pow16(n: nat): (p: nat)
    ensures p >= 1
    decreases n
  {
    if n == 0 then 1 else 16 * Pow16(n - 1)
  }

  lemma HexDigitOf(d: nat)
    requires d < 16
    ensures HexDigit(HEX[d]) == d
  {}

  lemma {:induction false} HexRoundTrip(n: nat, width: nat)
    requires n < Pow16(width)
    ensures ParseHex(Hex(n, width)) == n
    decreases width
  {
    if width > 0 {
      HexRoundTrip(n / 16, width - 1);
      HexDigitOf(n % 16);
      var s := Hex(n, width);
      assert s[..|s| - 1] == Hex(n / 16, width - 1);
    }
  }

  lemma {:induction false} MaskBitsBound(m: Mask)
    ensures MaskBits(m) < Pow2(|m|)
    decreases |m|
  {
    if m != [] { MaskBitsBound(m[1..]); }
  }

  lemma {:induction false} MaskDigits(m: Mask)
    ensures Digits(MaskBits(m), |m|) == m
    decreases |m|
  {
    if m != [] { MaskDigits(m[1..]); }
  }

  lemma {:induction false} Pow16Is(n: nat)
    ensures Pow2(4 * n) == Pow16(n)
    decreases n
  {
    if n > 0 {
      Pow16Is(n - 1);
      assert Pow2(4 * n) == 2 * Pow2(4 * n - 1) == 4 * Pow2(4 * n - 2) == 8 * Pow2(4 * n - 3) == 16 * Pow2(4 * n - 4);
    }
  }

  function Save(p: Params, devNonce: int, appNonces: seq<int>): Saved {
    Saved(p.sf, devNonce, appNonces, p.rx1Offset, p.rx2Dr, p.rx2Frequency, p.rx1Delay, Hex(MaskBits(p.mask), |p.mask| / 4))
  }

  function Clamped(v: int, low: int, high: int): int {
    if v < low then low else if v > high then high else v
  }

  /** `_apply_mac_params`, one mask entry for each channel there is, on a dictionary whose values have the right types. */
  function Restore(p: Params, s: Saved): Params {
    Params(if KnownSf(s.sf) then s.sf else p.sf, RestoredMask(p.mask, s.maskHex),
           Clamped(s.rx1Offset, 0, 3), Clamped(s.rx2Dr, 8, 13),
           if s.rx2Frequency == 0 then RX2_FREQUENCY else s.rx2Frequency,
           if 1 <= s.rx1Delay <= 15 then s.rx1Delay else 1)
  }

  function RestoredMask(m: Mask, hex: string): (r: Mask)
    ensures Usable(m) ==> Usable(r)
  {
    var mask := Digits(ParseHex(hex), |m|);
    if hex != "" && Any125(mask) then mask else m
  }

  function RestoredNonce(current: int, s: Saved): int {
    if 0 <= s.devNonce <= 0xFFFF then s.devNonce else current
  }

  /** The last `kept` of the saved AppNonces that are 24-bit values. */
  function RestoredAppNonces(s: Saved, kept: nat): seq<int> {
    var ok := InRange(s.appNonces);
    if |ok| <= kept then ok else ok[|ok| - kept..]
  }

  predicate AllNonces(ns: seq<int>) { forall i :: 0 <= i < |ns| ==> 0 <= ns[i] <= 0xFF_FFFF }

  function InRange(ns: seq<int>): (r: seq<int>)
    decreases |ns|
  {
    if ns == [] then [] else (if 0 <= ns[0] <= 0xFF_FFFF then [ns[0]] else []) + InRange(ns[1..])
  }

  lemma {:induction false} InRangeKeeps(ns: seq<int>)
    requires AllNonces(ns)
    ensures InRange(ns) == ns
    decreases |ns|
  {
    if ns != [] {
      assert ns == [ns[0]] + ns[1..];
      InRangeKeeps(ns[1..]);
    }
  }

  lemma MaskSurvives(m: Mask)
    requires |m| % 4 == 0
    ensures Digits(ParseHex(Hex(MaskBits(m), |m| / 4)), |m|) == m
  {
    MaskBitsBound(m);
    Pow16Is(|m| / 4);
    HexRoundTrip(MaskBits(m), |m| / 4);
    MaskDigits(m);
  }

  /** Persisting and restoring sound parameters, into whatever a fresh device
      starts with, changes nothing the radio does: the same channels, RX2
      window, delay and spreading factor, and the same RX1 data rate after
      every uplink, though the raw RX1 offset may come back clamped. */
  lemma SaveRestore(p: Params, blank: Params, devNonce: int, appNonces: seq<int>)
    requires Sound(p) && |blank.mask| == |p.mask|
    ensures var q := Restore(blank, Save(p, devNonce, appNonces));
      Sound(q) && SameRadio(p, q) && q == p.(rx1Offset := q.rx1Offset) && (q == p <==> p.rx1Offset <= 3)
  {
    MaskSurvives(p.mask);
  }

  /** Whatever was saved, the device comes up able to transmit and listen, and
      keeps each saved value that is in its range. */
  lemma RestoredSafe(p: Params, s: Saved)
    requires Sound(p)
    ensures var q := Restore(p, s);
      && Usable(q.mask) && q.sf == (if 7 <= s.sf <= 10 then s.sf else p.sf)
      && 0 <= q.rx1Offset <= 3 && (0 <= s.rx1Offset <= 3 ==> q.rx1Offset == s.rx1Offset)
      && 8 <= q.rx2Dr <= 13 && (8 <= s.rx2Dr <= 13 ==> q.rx2Dr == s.rx2Dr)
      && q.rx2Frequency == (if s.rx2Frequency != 0 then s.rx2Frequency else 923_300_000)
      && q.rx1Delay == (if s.rx1Delay in [1, 2, 3, 4, 5, 6, 7, 8, 9, 10, 11, 12, 13, 14, 15] then s.rx1Delay else 1)
  {}

  /** Every setting of the radio under these parameters is the same: uplink
      channels and data rate, RX1 after any uplink, and RX2. */
  ghost predicate SameRadio(p: Params, q: Params)
    requires Sound(p) && Sound(q)
  {
    && q.sf == p.sf && q.rx1Delay == p.rx1Delay && q.rx2Frequency == p.rx2Frequency
    && (forall subBand :: EnabledChannels(q.mask, subBand) == EnabledChannels(p.mask, subBand))
    && (forall dr :: DownlinkSf(Rx1DataRate(dr, q.rx1Offset)) == DownlinkSf(Rx1DataRate(dr, p.rx1Offset)))
    && DownlinkSf(q.rx2Dr) == DownlinkSf(p.rx2Dr)
  }
}
