/** The MAC commands of LoRaWAN 1.0.3, section 5: the byte stream, the answers
    queued for the next uplink, and the parameters the commands assign. */
module LoRaCommands {
  import opened Wrappers
  import opened BitMath
  import opened LoRaCrypto
  import opened LoRaParams

  const LINK_CHECK: Byte := 0x02
  const LINK_ADR: Byte := 0x03
  const DUTY_CYCLE: Byte := 0x04
  const RX_PARAM_SETUP: Byte := 0x05
  const DEV_STATUS: Byte := 0x06
  const RX_TIMING_SETUP: Byte := 0x08
  const MAX_FOPTS := 15

  datatype Command = Command(cid: Byte, args: Bytes) {
    predicate WellFormed() { ArgsLength(cid) == |args| }
  }

  /** The argument length of a downlink command, -1 when it is unknown. */
  function ArgsLength(cid: Byte): (n: int)
    ensures -1 <= n <= 5
  {
    match cid
    case 0x02 => 2
    case 0x03 => 4
    case 0x04 => 1
    case 0x05 => 4
    case 0x06 => 0
    case 0x07 => 5
    case 0x08 => 1
    case 0x09 => 1
    case 0x0A => 4
    case _ => -1
  }

  // ---- The stream -----------------------------------------------------------------

  function Serialize(cs: seq<Command>): Bytes
    decreases |cs|
  {
    if cs == [] then [] else [cs[0].cid] + cs[0].args + Serialize(cs[1..])
  }

  /** The commands handled: parsing stops at an unknown or cut-off one. */
  function Parse(b: Bytes): (cs: seq<Command>)
    ensures AllWellFormed(cs)
    decreases |b|
  {
    if Stops(b) then []
    else
      var n := ArgsLength(b[0]);
      [Command(b[0], b[1..1 + n])] + Parse(b[1 + n..])
  }

  predicate Stops(b: Bytes) { b == [] || ArgsLength(b[0]) < 0 || |b| < 1 + ArgsLength(b[0]) }

  predicate AllWellFormed(cs: seq<Command>) { forall i :: 0 <= i < |cs| ==> cs[i].WellFormed() }

  /** What is parsed is a prefix of the bytes, and the rest starts with no
      complete known command. */
  lemma {:induction false} ParsedPrefix(b: Bytes)
    ensures var s := Serialize(Parse(b)); s <= b && Stops(b[|s|..])
    decreases |b|
  {
    if !Stops(b) {
      var n := 1 + ArgsLength(b[0]);
      ParsedPrefix(b[n..]);
      SerializeCons(Command(b[0], b[1..n]), Parse(b[n..]));
      PrefixAfter(b, n, Serialize(Parse(b[n..])));
      assert [b[0]] + b[1..n] == b[..n];
    }
  }

  lemma SerializeCons(c: Command, cs: seq<Command>)
    ensures Serialize([c] + cs) == [c.cid] + c.args + Serialize(cs)
  {
    assert ([c] + cs)[1..] == cs;
  }

  lemma PrefixAfter(b: Bytes, n: nat, rest: Bytes)
    requires n <= |b| && rest <= b[n..]
    ensures b[..n] + rest <= b && b[|b[..n] + rest|..] == b[n..][|rest|..]
  {}

  /** Commands followed by anything are parsed first, exactly and in order. */
  lemma {:induction false} ParseAfter(cs: seq<Command>, rest: Bytes)
    requires AllWellFormed(cs)
    ensures Parse(Serialize(cs) + rest) == cs + Parse(rest)
    decreases |cs|
  {
    if cs == [] {
      assert Serialize(cs) + rest == rest;
    } else {
      var c := cs[0];
      assert c.WellFormed();
      ParseAfter(cs[1..], rest);
      ParseOne(c, Serialize(cs[1..]) + rest);
      Regroup([c.cid] + c.args, Serialize(cs[1..]), rest);
      assert cs == [c] + cs[1..];
      Regroup([c], cs[1..], Parse(rest));
    }
  }

  lemma ParseOne(c: Command, rest: Bytes)
    requires c.WellFormed()
    ensures Parse([c.cid] + c.args + rest) == [c] + Parse(rest)
  {
    var b := [c.cid] + c.args + rest;
    assert b[1..1 + |c.args|] == c.args && b[1 + |c.args|..] == rest;
  }

  /** On a concatenation of known commands the interpreter handles exactly
      those; on any bytes it handles the longest such prefix: whatever other
      well-formed commands the bytes start with come first in `Parse(b)`. */
  lemma ParseIsLongest(b: Bytes, cs: seq<Command>)
    requires AllWellFormed(cs)
    ensures Parse(Serialize(cs)) == cs
    ensures Serialize(cs) <= b ==> cs <= Parse(b)
  {
    ParseAfter(cs, []);
    assert Serialize(cs) + [] == Serialize(cs);
    if Serialize(cs) <= b {
      var rest := b[|Serialize(cs)|..];
      ParseAfter(cs, rest);
      assert b == Serialize(cs) + rest;
    }
  }

  // ---- Answers --------------------------------------------------------------------------

  /** The argument length of an uplink answer or request of this device. */
  function AnswerLength(cid: Byte): int {
    match cid
    case 0x02 => 0
    case 0x03 => 1
    case 0x04 => 0
    case 0x05 => 1
    case 0x06 => 2
    case 0x08 => 0
    case _ => -1
  }

  predicate IsAnswer(a: Bytes) { a != [] && |a| == 1 + AnswerLength(a[0]) }

  /** Whole answers, one after the other. */
  predicate Answers(b: Bytes)
    decreases |b|
  {
    b == [] || (AnswerLength(b[0]) >= 0 && |b| >= 1 + AnswerLength(b[0]) && Answers(b[1 + AnswerLength(b[0])..]))
  }

  lemma {:induction false} AnswersAppend(b: Bytes, a: Bytes)
    requires Answers(b) && IsAnswer(a)
    ensures Answers(b + a)
    decreases |b|
  {
    if b == [] {
      assert b + a == a && a[1 + AnswerLength(a[0])..] == [];
    } else {
      var n := 1 + AnswerLength(b[0]);
      AnswersAppend(b[n..], a);
      assert (b + a)[n..] == b[n..] + a && (b + a)[0] == b[0];
    }
  }

  /** An answer is queued whole or not at all, so the 4-bit FOptsLen is exact. */
  predicate Pending(b: Bytes) { |b| <= MAX_FOPTS && Answers(b) }

  function Queued(pending: Bytes, answer: Bytes): (r: Bytes)
    requires Pending(pending) && IsAnswer(answer)
    ensures Pending(r)
    ensures r == pending + answer || (r == pending && |pending| + |answer| > MAX_FOPTS)
  {
    AnswersAppend(pending, answer);
    if |pending| + |answer| <= MAX_FOPTS then pending + answer else pending
  }

  // ---- Handling -----------------------------------------------------------------------------

  datatype LinkCheck = NeverChecked | Checked(margin: Byte, gateways: Byte)

  /** What MAC commands change. */
  datatype Assigned = Assigned(params: Params, pending: Bytes, linkCheck: LinkCheck) {
    predicate Ok() { Sound(params) && Pending(pending) }
  }

  function FromLe24(b0: Byte, b1: Byte, b2: Byte): (v: nat)
    ensures v <= 0xFF_FFFF
  {
    var mid: int := b1;
    var high: int := b2;
    b0 + 256 * mid + 65536 * high
  }

  /** The margin byte of a DevStatusAns: 6-bit two's complement. */
  function MarginByte(snr: int): Byte { Clamped(snr, -32, 31) % 64 }

  function Answered(a: Assigned, params: Params, answer: Bytes): (r: Assigned)
    requires a.Ok() && Sound(params) && IsAnswer(answer)
    ensures r.Ok()
  {
    a.(params := params, pending := Queued(a.pending, answer))
  }

  /** One command; `snr` is the rounded SNR of the frame it came in. */
  function Handled(a: Assigned, c: Command, snr: int): (r: Assigned)
    requires a.Ok() && c.WellFormed()
    ensures r.Ok()
  {
    match c.cid
    case 0x02 => a.(linkCheck := Checked(c.args[0], c.args[1]))
    case 0x03 =>
      var (params, status) := LinkAdrOf(a.params, c);
      if status < 0 then a else Answered(a, params, [LINK_ADR, status])
    case 0x04 => Answered(a, a.params, [DUTY_CYCLE])
    case 0x05 =>
      var (params, status) := RxParamSetup(a.params, c.args[0], 100 * FromLe24(c.args[1], c.args[2], c.args[3]));
      Answered(a, params, [RX_PARAM_SETUP, status])
    case 0x06 => Answered(a, a.params, [DEV_STATUS, 0, MarginByte(snr)])
    case 0x08 => Answered(a, a.params.(rx1Delay := Delay(c.args[0])), [RX_TIMING_SETUP])
    case _ => a
  }

  function LinkAdrOf(p: Params, c: Command): (r: (Params, int))
    requires Sound(p) && c.WellFormed() && c.cid == LINK_ADR
    ensures Sound(r.0) && -1 <= r.1 <= 7
  {
    LinkAdr(p, c.args[0] / 16, c.args[0] % 16, FromLe16(c.args[1], c.args[2]), c.args[3] / 16 % 8)
  }

  function AllHandled(a: Assigned, cs: seq<Command>, snr: int): (r: Assigned)
    requires a.Ok() && AllWellFormed(cs)
    ensures r.Ok()
    decreases |cs|
  {
    if cs == [] then a else AllHandled(Handled(a, cs[0], snr), cs[1..], snr)
  }

  /** What handling the bytes from `i` on makes of `a`. */
  function HandledFrom(a: Assigned, b: Bytes, i: nat, snr: int): (r: Assigned)
    requires a.Ok() && i <= |b|
    ensures r.Ok()
  {
    AllHandled(a, Parse(b[i..]), snr)
  }

  /** Handling the bytes from `i` on is handling the command there and going on
      behind it, or nothing when no whole known command is there. */
  lemma HandledStep(a: Assigned, b: Bytes, i: nat, n: int, snr: int)
    requires a.Ok() && i < |b| && n == ArgsLength(b[i])
    ensures n < 0 || i + 1 + n > |b| ==> HandledFrom(a, b, i, snr) == a
    ensures 0 <= n <= |b| - 1 - i ==>
      HandledFrom(a, b, i, snr) == HandledFrom(Handled(a, Command(b[i], b[i + 1..i + 1 + n]), snr), b, i + 1 + n, snr)
  {
    var rest := b[i..];
    if 0 <= n <= |b| - 1 - i {
      assert rest[1 + n..] == b[i + 1 + n..] && rest[1..1 + n] == b[i + 1..i + 1 + n];
      var c := Command(b[i], b[i + 1..i + 1 + n]);
      assert Parse(rest) == [c] + Parse(rest[1 + n..]);
      assert Parse(rest)[1..] == Parse(rest[1 + n..]);
    } else {
      assert Stops(rest);
    }
  }

  /** A LinkADRReq with ChMaskCntl 4 is dropped: no change and no answer. */
  lemma ReservedBlockIsDropped(a: Assigned, c: Command, snr: int)
    requires a.Ok() && c.WellFormed() && c.cid == LINK_ADR
    ensures c.args[3] / 16 % 8 == 4 ==> Handled(a, c, snr) == a
    ensures c.args[3] / 16 % 8 != 4 && |a.pending| <= MAX_FOPTS - 2 ==> |Handled(a, c, snr).pending| == |a.pending| + 2
  {}
}
