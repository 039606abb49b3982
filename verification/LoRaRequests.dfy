/** The MAC commands a network builds from its own fields, section 5 of
    LoRaWAN 1.0.3, and what each one is to do to the device. */
module LoRaRequests {
  import opened Wrappers
  import opened BitMath
  import opened LoRaCrypto
  import opened LoRaNetwork
  import opened LoRaParams
  import opened LoRaCommands
  import opened Paths

  /** `reserved` are bits the standard leaves free. A frequency counts hundreds
      of hertz. */
  datatype Request =
    | LinkCheckAns(margin: Byte, gateways: Byte)
    | LinkADRReq(dr: nat, power: nat, channels: seq<bool>, block: nat, repeats: nat, reserved: nat)
    | DutyCycleReq(limit: Byte)
    | RXParamSetupReq(offset: nat, dr: nat, frequency: nat, reserved: nat)
    | DevStatusReq
    | NewChannelReq(content: Bytes)
    | RXTimingSetupReq(delay: nat, reserved: nat)
    | TxParamSetupReq(content: Bytes)
    | DlChannelReq(content: Bytes)
  {
    predicate WellFormed() {
      match this
      case LinkADRReq(dr, power, channels, block, repeats, reserved) =>
        dr < 16 && power < 16 && |channels| == 16 && block < 8 && repeats < 16 && reserved < 2
      case RXParamSetupReq(offset, dr, frequency, reserved) =>
        offset < 8 && dr < 16 && frequency < 0x100_0000 && reserved < 2
      case RXTimingSetupReq(delay, reserved) => delay < 16 && reserved < 16
      case NewChannelReq(content) => |content| == 5
      case TxParamSetupReq(content) => |content| == 1
      case DlChannelReq(content) => |content| == 4
      case _ => true
    }

    /** The command identifier, then its arguments. */
    function Frame(): (b: Bytes)
      requires WellFormed()
    {
      match this
      case LinkCheckAns(margin, gateways) => [0x02, margin, gateways]
      case LinkADRReq(dr, power, channels, block, repeats, reserved) =>
        [0x03, 16 * dr + power, NthByte(Field(channels), 0), NthByte(Field(channels), 1), 128 * reserved + 16 * block + repeats]
      case DutyCycleReq(limit) => [0x04, limit]
      case RXParamSetupReq(offset, dr, frequency, reserved) =>
        [0x05, 128 * reserved + 16 * offset + dr, NthByte(frequency, 0), NthByte(frequency, 1), NthByte(frequency, 2)]
      case DevStatusReq => [0x06]
      case NewChannelReq(content) => [0x07] + content
      case RXTimingSetupReq(delay, reserved) => [0x08, 16 * reserved + delay]
      case TxParamSetupReq(content) => [0x09] + content
      case DlChannelReq(content) => [0x0A] + content
    }
  }

  // ---- What a request is to do ---------------------------------------------------------

  /** The reply queues behind the others if the header still has room. */
  predicate Replies(a: Assigned, b: Assigned, reply: Bytes) {
    b.pending == (if |a.pending| + |reply| <= 15 then a.pending + reply else a.pending) && b.linkCheck == a.linkCheck
  }

  /** The request wants channel `i` on: blocks 0 to 3 are sixteen channels
      each, 6 and 7 switch all 125 kHz channels on or off and list the
      500 kHz ones. */
  predicate Wants(mask: Mask, channels: seq<bool>, block: nat, i: nat)
    requires |mask| == 72 && |channels| == 16 && i < 72
  {
    if block < 4 then (if 16 * block <= i < 16 * block + 16 then channels[i - 16 * block] else mask[i])
    else if i < 64 then block == 6 else channels[i - 64]
  }

  predicate MaskGood(mask: Mask, channels: seq<bool>, block: nat)
    requires |mask| == 72 && |channels| == 16
  {
    block != 5 && exists i :: 0 <= i < 64 && Wants(mask, channels, block, i)
  }

  /** Exactly the wanted channels, and the data rate asked for. */
  predicate Tuned(p: Params, dr: nat, channels: seq<bool>, block: nat, q: Params)
    requires |p.mask| == 72 && |channels| == 16
  {
    && |q.mask| == 72 && (forall i :: 0 <= i < 72 ==> q.mask[i] == Wants(p.mask, channels, block, i))
    && q == p.(sf := if dr == 15 then p.sf else 10 - dr, mask := q.mask)
  }

  /** The device does what the request asks, or answers which of its parts it
      refuses and changes nothing; block 4 it drops. */
  predicate Does(a: Assigned, r: Request, snr: int, b: Assigned)
    requires a.Ok() && r.WellFormed()
  {
    match r
    case LinkCheckAns(margin, gateways) => b == a.(linkCheck := Checked(margin, gateways))
    case LinkADRReq(dr, power, channels, block, _, _) =>
      if block == 4 then b == a
      else
        var maskOk, drOk, powerOk :=
          MaskGood(a.params.mask, channels, block), dr in {1, 2, 3, 15}, power <= 10 || power == 15;
        && Replies(a, b, [0x03, (if maskOk then 1 else 0) + (if drOk then 2 else 0) + (if powerOk then 4 else 0)])
        && if maskOk && drOk && powerOk then Tuned(a.params, dr, channels, block, b.params) else b.params == a.params
    case DutyCycleReq(_) => Replies(a, b, [0x04]) && b.params == a.params
    case RXParamSetupReq(offset, dr, frequency, _) =>
      var offsetOk, drOk, frequencyOk := offset <= 3, 8 <= dr <= 13, 9_233_000 <= frequency <= 9_275_000;
      && Replies(a, b, [0x05, (if offsetOk then 4 else 0) + (if drOk then 2 else 0) + (if frequencyOk then 1 else 0)])
      && b.params == if offsetOk && drOk && frequencyOk
                     then a.params.(rx1Offset := offset, rx2Dr := dr, rx2Frequency := 100 * frequency) else a.params
    case DevStatusReq =>
      var margin := if snr < -32 then -32 else if snr > 31 then 31 else snr;
      Replies(a, b, [0x06, 0x00, if margin < 0 then 64 + margin else margin]) && b.params == a.params
    case RXTimingSetupReq(delay, _) =>
      Replies(a, b, [0x08]) && b.params == a.params.(rx1Delay := if delay == 0 then 1 else delay)
    case NewChannelReq(_) => b == a
    case TxParamSetupReq(_) => b == a
    case DlChannelReq(_) => b == a
  }

  // ---- And does ---------------------------------------------------------------------------

  /** The command as the device's parser delivers it. */
  function Delivered(r: Request): (c: Command)
    requires r.WellFormed()
    ensures c.WellFormed() && [c.cid] + c.args == r.Frame()
  {
    var f := r.Frame();
    Command(f[0], f[1..])
  }

  lemma AdrDoes(p: Params, dr: nat, power: nat, channels: seq<bool>, block: nat)
    requires Sound(p) && LinkADRReq(dr, power, channels, block, 0, 0).WellFormed() && block != 4
    ensures var (q, status) := LinkAdr(p, dr, power, Field(channels), block);
      var maskOk, drOk, powerOk := MaskGood(p.mask, channels, block), dr in {1, 2, 3, 15}, power <= 10 || power == 15;
      && status == (if maskOk then 1 else 0) + (if drOk then 2 else 0) + (if powerOk then 4 else 0)
      && if maskOk && drOk && powerOk then Tuned(p, dr, channels, block, q) else q == p
  {
    forall k | 0 <= k < 16 ensures FieldBit(Field(channels), k) == channels[k] {
      FieldDigit(channels, k);
    }
    var mask := AdrMask(p.mask, Field(channels), block);
    if block != 5 {
      assert forall i :: 0 <= i < 72 ==> mask[i] == Wants(p.mask, channels, block, i);
      assert Any125(mask) <==> MaskGood(p.mask, channels, block);
    }
  }

  lemma AdrFields(dr: nat, power: nat, channels: seq<bool>, block: nat, repeats: nat, reserved: nat)
    requires LinkADRReq(dr, power, channels, block, repeats, reserved).WellFormed()
    ensures var c := Delivered(LinkADRReq(dr, power, channels, block, repeats, reserved));
      c.cid == LINK_ADR && c.args[0] / 16 == dr && c.args[0] % 16 == power &&
      FromLe16(c.args[1], c.args[2]) == Field(channels) && c.args[3] / 16 % 8 == block
  {
    FieldBytes(channels);
  }

  lemma AdrDone(a: Assigned, r: Request, snr: int)
    requires a.Ok() && r.WellFormed() && r.LinkADRReq?
    ensures Does(a, r, snr, Handled(a, Delivered(r), snr))
  {
    AdrFields(r.dr, r.power, r.channels, r.block, r.repeats, r.reserved);
    if r.block != 4 { AdrDoes(a.params, r.dr, r.power, r.channels, r.block); }
  }

  lemma RxParamFields(offset: nat, dr: nat, frequency: nat, reserved: nat)
    requires RXParamSetupReq(offset, dr, frequency, reserved).WellFormed()
    ensures var c := Delivered(RXParamSetupReq(offset, dr, frequency, reserved));
      c.cid == RX_PARAM_SETUP && c.args[0] / 16 % 8 == offset && c.args[0] % 16 == dr &&
      FromLe24(c.args[1], c.args[2], c.args[3]) == frequency
  {
    BytesAddUp(frequency);
  }

  lemma RxParamDone(a: Assigned, r: Request, snr: int)
    requires a.Ok() && r.WellFormed() && r.RXParamSetupReq?
    ensures Does(a, r, snr, Handled(a, Delivered(r), snr))
  {
    RxParamFields(r.offset, r.dr, r.frequency, r.reserved);
  }

  lemma LowNibble(high: nat, low: nat)
    requires low < 16
    ensures (16 * high + low) % 16 == low
  {}

  lemma TimingDone(a: Assigned, r: Request, snr: int)
    requires a.Ok() && r.WellFormed() && r.RXTimingSetupReq?
    ensures Does(a, r, snr, Handled(a, Delivered(r), snr))
  {
    LowNibble(r.reserved, r.delay);
    assert Delivered(r).args == [16 * r.reserved + r.delay];
  }

  lemma StatusDone(a: Assigned, r: Request, snr: int)
    requires a.Ok() && r.WellFormed() && r.DevStatusReq?
    ensures Does(a, r, snr, Handled(a, Delivered(r), snr))
  {}

  /** Every request is carried out as its network meant it. */
  lemma RequestDone(a: Assigned, r: Request, snr: int)
    requires a.Ok() && r.WellFormed()
    ensures Does(a, r, snr, Handled(a, Delivered(r), snr))
  {
    if r.LinkADRReq? {
      AdrDone(a, r, snr);
    } else if r.RXParamSetupReq? {
      RxParamDone(a, r, snr);
    } else if r.RXTimingSetupReq? {
      TimingDone(a, r, snr);
    } else if r.DevStatusReq? {
      StatusDone(a, r, snr);
    }
  }

  /** There is no command the device knows but is some request's. */
  lemma AnyRequest(c: Command) returns (r: Request)
    requires c.WellFormed()
    ensures r.WellFormed() && Delivered(r) == c
  {
    var args := c.args;
    if c.cid == LINK_ADR {
      r := AnyAdr(args);
    } else if c.cid == RX_PARAM_SETUP {
      var low: int, mid: int, high: int := args[1], args[2], args[3];
      BytesOf(args[1], args[2], args[3]);
      r := RXParamSetupReq(args[0] / 16 % 8, args[0] % 16, low + 0x100 * mid + 0x1_0000 * high, args[0] / 128);
    } else {
      r := match c.cid
        case 0x02 => LinkCheckAns(args[0], args[1])
        case 0x04 => DutyCycleReq(args[0])
        case 0x06 => DevStatusReq
        case 0x07 => NewChannelReq(args)
        case 0x08 => RXTimingSetupReq(args[0] % 16, args[0] / 16)
        case 0x09 => TxParamSetupReq(args)
        case _ => DlChannelReq(args);
    }
  }

  lemma AnyAdr(args: Bytes) returns (r: Request)
    requires |args| == 4
    ensures r.WellFormed() && Delivered(r) == Command(LINK_ADR, args)
  {
    var low: int, high: int := args[1], args[2];
    var field := low + 256 * high;
    assert Pow2(8) == 256 && Pow2(16) == 0x10000;
    var channels := FieldOf(field, 16);
    BytesOf(args[1], args[2], 0);
    r := LinkADRReq(args[0] / 16, args[0] % 16, channels, args[3] / 16 % 8, args[3] % 16, args[3] / 128);
    Parts(args[3]);
    assert r.Frame() == [0x03] + args;
  }

  lemma Parts(b: Byte)
    ensures 128 * (b / 128) + 16 * (b / 16 % 8) + b % 16 == b
  {}

  // ---- Several in a row ---------------------------------------------------------------------

  predicate AllProper(rs: seq<Request>) { forall i :: 0 <= i < |rs| ==> rs[i].WellFormed() }

  /** The requests one after the other, as they travel. */
  function Frames(rs: seq<Request>): Bytes
    requires AllProper(rs)
    decreases |rs|
  {
    if rs == [] then [] else rs[0].Frame() + Frames(rs[1..])
  }

  ghost function Doing(snr: int): (Assigned, Request, Assigned) -> bool {
    (a: Assigned, r: Request, b: Assigned) => a.Ok() && r.WellFormed() && Does(a, r, snr, b)
  }

  /** Each is done in turn, to what those before it left. */
  ghost predicate DoesAll(a: Assigned, rs: seq<Request>, snr: int, b: Assigned) { Chain(Doing(snr), a, rs, b) }

  lemma DeliveredFirst(rs: seq<Request>, rest: Bytes)
    requires rs != [] && AllProper(rs)
    ensures Parse(Frames(rs) + rest) == [Delivered(rs[0])] + Parse(Frames(rs[1..]) + rest)
  {
    var c := Delivered(rs[0]);
    Regroup(rs[0].Frame(), Frames(rs[1..]), rest);
    ParseOne(c, Frames(rs[1..]) + rest);
  }

  lemma HandledFirst(a: Assigned, c: Command, cs: seq<Command>, snr: int)
    requires a.Ok() && c.WellFormed() && AllWellFormed(cs)
    ensures AllHandled(a, [c] + cs, snr) == AllHandled(Handled(a, c, snr), cs, snr)
  {
    assert ([c] + cs)[1..] == cs;
  }

  /** A run of requests is carried out one by one, whatever unknown bytes
      follow it. */
  lemma {:induction false} RequestsDone(a: Assigned, rs: seq<Request>, rest: Bytes, snr: int)
    requires a.Ok() && AllProper(rs) && Stops(rest)
    ensures DoesAll(a, rs, snr, AllHandled(a, Parse(Frames(rs) + rest), snr))
    decreases |rs|
  {
    if rs == [] {
      assert Frames(rs) + rest == rest;
    } else {
      var c := Delivered(rs[0]);
      var mid := Handled(a, c, snr);
      RequestDone(a, rs[0], snr);
      RequestsDone(mid, rs[1..], rest, snr);
      DeliveredFirst(rs, rest);
      HandledFirst(a, c, Parse(Frames(rs[1..]) + rest), snr);
      ChainFrom(Doing(snr), a, rs, mid, AllHandled(mid, Parse(Frames(rs[1..]) + rest), snr));
    }
  }
}
