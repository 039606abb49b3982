/** Device and network together: what one side sends, the other side reads. The
    network's side is its own, by the places of each field. */
module LoRaLink {
  import opened Wrappers
  import opened BitMath
  import opened LoRaCrypto
  import opened LoRaNetwork
  import opened LoRaParams
  import opened LoRaCommands
  import opened LoRaRequests
  import opened LoRaMac
  import Cayenne
  import Paths

  // ---- Join agreement: section 6.2.5 -------------------------------------------------

  /** A channel list of type 1 carries five fields of sixteen channels, of which
      72 exist, and five bytes of filler. */
  datatype ChannelList = NoList | OtherList(content: Bytes) | Channels(on: seq<bool>, filler: Bytes) {
    predicate WellFormed() {
      match this
      case NoList => true
      case OtherList(content) => |content| == 16 && content[15] != 1
      case Channels(on, filler) => |on| == 80 && |filler| == 5
    }

    function Content(): (b: Bytes)
      requires WellFormed()
      ensures |b| == 0 || |b| == 16
    {
      match this
      case NoList => []
      case OtherList(content) => content
      case Channels(on, filler) =>
        FieldContent(on, 0) + FieldContent(on, 1) + FieldContent(on, 2) + FieldContent(on, 3) + FieldContent(on, 4)
        + filler + [1]
    }
  }

  /** Sixteen channels in two bytes. */
  function FieldContent(on: seq<bool>, block: nat): (b: Bytes)
    requires |on| == 80 && block < 5
    ensures |b| == 2
  {
    var field := Field(on[16 * block..16 * block + 16]);
    [NthByte(field, 0), NthByte(field, 1)]
  }

  /** The fields a network answers a JoinRequest with; `dlReserved` and
      `delayReserved` are bits the standard leaves free. */
  datatype Grant = Grant(appNonce: Bytes, netId: Bytes, devAddr: Bytes, rx1Offset: nat, rx2Dr: nat, dlReserved: nat,
                         delay: nat, delayReserved: nat, channels: ChannelList) {
    predicate WellFormed() {
      && |appNonce| == 3 && |netId| == 3 && |devAddr| == 4 && channels.WellFormed()
      && rx1Offset < 8 && rx2Dr < 16 && dlReserved < 2 && delay < 16 && delayReserved < 16
    }

    function Body(): (b: Bytes)
      requires WellFormed()
      ensures |b| == 12 + |channels.Content()|
    {
      appNonce + netId + devAddr + [128 * dlReserved + 16 * rx1Offset + rx2Dr, 16 * delayReserved + delay] + channels.Content()
    }

    function Number(): (n: nat)
      requires WellFormed()
      ensures n <= 0xFF_FFFF
    {
      var low: int, mid: int, high: int := appNonce[0], appNonce[1], appNonce[2];
      low + 0x100 * mid + 0x1_0000 * high
    }
  }

  /** What a network reads in a JoinRequest: who asks to join, and the nonce. */
  datatype Ask = Ask(joinEui: Bytes, devEui: Bytes, nonce: nat)

  /** Type, the identifiers lowest byte first, the nonce, and the seal. */
  function Asked(aes: Aes, appKey: Bytes, request: Bytes): Option<Ask>
    requires aes.Lawful()
  {
    if |request| != 23 || request[0] != 0x00 || Seal(aes, appKey, request[..19]) != request[19..] then None
    else
      var low: int, high: int := request[17], request[18];
      Some(Ask(EightBack(request, 8), EightBack(request, 16), low + 256 * high))
  }

  /** Eight bytes, from `last` backwards. */
  function EightBack(b: Bytes, last: nat): (e: Bytes)
    requires 7 <= last < |b|
    ensures |e| == 8 && forall k :: 0 <= k < 8 ==> e[k] == b[last - k]
  {
    seq(8, k requires 0 <= k < 8 => b[last - k])
  }

  /** The JoinAccept the network sends: its body and seal under the inverse
      cipher. */
  function AcceptFrame(d: Device, g: Grant): Bytes
    requires d.Ok() && g.WellFormed()
  {
    [0x20] + DecryptBlocks(d.aes, d.appKey, g.Body() + Seal(d.aes, d.appKey, [0x20] + g.Body()))
  }

  lemma RequestLayout(request: Bytes, joinEui: Bytes, devEui: Bytes, count: Bytes, mic: Bytes)
    requires |joinEui| == 8 && |devEui| == 8 && |count| == 2 && |mic| == 4
    requires request == [0] + Backwards(joinEui) + Backwards(devEui) + count + mic
    ensures |request| == 23 && request[0] == 0 && request[17] == count[0] && request[18] == count[1] && request[19..] == mic
    ensures request[..19] == [0] + Backwards(joinEui) + Backwards(devEui) + count
    ensures EightBack(request, 8) == joinEui && EightBack(request, 16) == devEui
  {
    forall k | 0 <= k < 8 ensures request[8 - k] == joinEui[k] && request[16 - k] == devEui[k] {
      assert request[8 - k] == Backwards(joinEui)[7 - k] && request[16 - k] == Backwards(devEui)[7 - k];
    }
  }

  lemma RequestRead(d: Device, nonce: nat)
    requires d.Ok() && nonce <= 0xFFFF
    ensures Asked(d.aes, d.appKey, JoinRequest(d, nonce)) == Some(Ask(d.appEui, d.devEui, nonce))
  {
    var body, mic := JoinRequestBody(d, nonce), Mic(d.aes, d.appKey, JoinRequestBody(d, nonce));
    SealAgrees(d.aes, d.appKey, body);
    RequestLayout(JoinRequest(d, nonce), d.appEui, d.devEui, Le16(nonce), mic);
    Le16RoundTrip(nonce);
  }

  lemma AcceptRead(d: Device, g: Grant)
    requires d.Ok() && g.WellFormed()
    ensures |AcceptFrame(d, g)| == 17 + |g.channels.Content()| && AcceptFrame(d, g)[0] == JOIN_ACCEPT
    ensures AcceptBody(d, AcceptFrame(d, g)) == (g.Body(), Mic(d.aes, d.appKey, [JOIN_ACCEPT] + g.Body()))
  {
    SealAgrees(d.aes, d.appKey, [0x20] + g.Body());
    var mic := Mic(d.aes, d.appKey, [JOIN_ACCEPT] + g.Body());
    var clear := g.Body() + mic;
    var data := AcceptFrame(d, g);
    assert |clear| % 16 == 0;
    var sent := DecryptBlocks(d.aes, d.appKey, clear);
    assert data[1..] == sent;
    BlocksRecovered(d.aes, d.appKey, clear);
    assert clear[..|clear|] == clear;
    assert clear[..|clear| - 4] == g.Body() && clear[|clear| - 4..] == mic;
  }

  lemma BodyFields(g: Grant)
    requires g.WellFormed()
    ensures var b := g.Body();
      b[0..3] == g.appNonce && b[3..6] == g.netId && b[6..10] == g.devAddr &&
      b[10] == 128 * g.dlReserved + 16 * g.rx1Offset + g.rx2Dr && b[11] == 16 * g.delayReserved + g.delay &&
      CfList(b) == g.channels.Content() && FromLe24(b[0], b[1], b[2]) == g.Number()
  {
    var b := g.Body();
    assert b[0..3] == g.appNonce;
    assert b[0] == b[0..3][0] && b[1] == b[0..3][1] && b[2] == b[0..3][2];
    assert b[12..] == g.channels.Content();
    if |g.channels.Content()| == 16 { assert b[12..28] == b[12..]; }
  }

  /** The session the network opens for the nonce it was asked with. */
  function Opened(d: Device, g: Grant, nonce: nat): Session
    requires d.Ok() && g.WellFormed()
  {
    Session(g.devAddr, SessionKey(d.aes, d.appKey, 0x01, g.appNonce, g.netId, nonce),
            SessionKey(d.aes, d.appKey, 0x02, g.appNonce, g.netId, nonce), 0, 0, true)
  }

  // ---- What a grant assigns -------------------------------------------------------------

  /** The eight 125 kHz channels of the configured sub-band, and its 500 kHz
      one. */
  predicate InSubBand(subBand: int, i: nat) {
    var band := if subBand <= 1 then 0 else if subBand >= 8 then 7 else subBand - 1;
    8 * band <= i < 8 * band + 8 || i == 64 + band
  }

  /** The granted windows, and the granted channels when a 125 kHz one is among
      them; the spreading factor stays. */
  predicate Assigns(subBand: int, g: Grant, p: Params, q: Params)
    requires g.WellFormed()
  {
    && q.sf == p.sf && q.rx2Frequency == 923_300_000 && q.rx1Offset == g.rx1Offset
    && q.rx2Dr == (if g.rx2Dr < 8 then 8 else if g.rx2Dr > 13 then 13 else g.rx2Dr)
    && q.rx1Delay == (if g.delay == 0 then 1 else g.delay)
    && |q.mask| == 72
    && forall i :: 0 <= i < 72 ==>
         q.mask[i] == if g.channels.Channels? && (exists k :: 0 <= k < 64 && g.channels.on[k]) then g.channels.on[i]
                      else InSubBand(subBand, i)
  }

  lemma ListField(list: ChannelList, block: nat)
    requires list.WellFormed() && list.Channels? && block < 5
    ensures var b := list.Content(); FromLe16(b[2 * block], b[2 * block + 1]) == Field(list.on[16 * block..16 * block + 16])
  {
    var b := list.Content();
    assert block == 0 || block == 1 || block == 2 || block == 3 || block == 4;
    assert b[2 * block] == FieldContent(list.on, block)[0] && b[2 * block + 1] == FieldContent(list.on, block)[1];
    FieldBytes(list.on[16 * block..16 * block + 16]);
  }

  lemma ListRead(list: ChannelList)
    requires list.WellFormed() && list.Channels?
    ensures var m := CfListMask(list.Content());
      |m| == 72 && forall i :: 0 <= i < 72 ==> m[i] == list.on[i]
  {
    var b := list.Content();
    var m := CfListMask(b);
    forall i | 0 <= i < 72 ensures m[i] == list.on[i] {
      var block, bit := i / 16, i % 16;
      ListField(list, block);
      FieldDigit(list.on[16 * block..16 * block + 16], bit);
      assert list.on[16 * block..16 * block + 16][bit] == list.on[i];
    }
  }

  /** DLSettings and RxDelay taken apart again. */
  lemma GrantBytes(g: Grant)
    requires g.WellFormed()
    ensures var dl, delay := 128 * g.dlReserved + 16 * g.rx1Offset + g.rx2Dr, 16 * g.delayReserved + g.delay;
      dl / 16 % 8 == g.rx1Offset && dl % 16 == g.rx2Dr && delay % 16 == g.delay
  {
    LowNibble(g.delayReserved, g.delay);
    LowNibble(8 * g.dlReserved + g.rx1Offset, g.rx2Dr);
  }

  lemma GrantedMask(g: Grant)
    requires g.WellFormed()
    ensures var m := CfListMask(g.channels.Content());
      Any125(m) <==> g.channels.Channels? && exists k :: 0 <= k < 64 && g.channels.on[k]
    ensures g.channels.Channels? ==> |CfListMask(g.channels.Content())| == 72
    ensures g.channels.Channels? ==> forall i :: 0 <= i < 72 ==> CfListMask(g.channels.Content())[i] == g.channels.on[i]
  {
    if g.channels.Channels? {
      ListRead(g.channels);
    } else {
      assert CfListMask(g.channels.Content()) == [];
    }
  }

  lemma GrantAssigns(sf: int, subBand: int, g: Grant, p: Params, dlSettings: Byte, rxDelay: Byte, cfList: Bytes)
    requires g.WellFormed() && p.sf == sf && cfList == g.channels.Content()
    requires dlSettings / 16 % 8 == g.rx1Offset && dlSettings % 16 == g.rx2Dr && rxDelay % 16 == g.delay
    ensures Assigns(subBand, g, p, Joined(sf, subBand, dlSettings, rxDelay, cfList))
  {
    GrantedMask(g);
  }

  /** The whole handshake: the nonce is the next one, or the random first one,
      and is persisted before the request; the network reads from that who asks,
      and with which nonce; and the device accepts the answer exactly when the
      AppNonce is not among the recent ones. It then holds the session the
      network opened and what the network granted, and remembers the AppNonce
      among the last eight. Otherwise nothing changes. */
  lemma JoinAgreement(d: Device, m: Mac, random: nat, g: Grant)
    requires d.Ok() && m.Ok() && random <= 0xFFFF && g.WellFormed()
    ensures var (started, effects) := JoinStarted(d, m, random);
      var nonce := if m.nonceCounter < 0 then random else if m.nonceCounter == 0xFFFF then 0 else m.nonceCounter + 1;
      && started == m.(devNonce := nonce, nonceCounter := nonce)
      && |effects| == 2 && effects[0] == Persist(ImageOf(started)) && effects[1].Send?
      && Asked(d.aes, d.appKey, effects[1].frame) == Some(Ask(d.appEui, d.devEui, nonce))
      && var (joined, ok) := JoinAccepted(d, started, AcceptFrame(d, g));
      && (ok <==> g.Number() !in m.appNonces)
      && (!ok ==> joined == started)
      && (ok ==>
            var seen := m.appNonces + [g.Number()];
            && joined.session == Opened(d, g, nonce)
            && Assigns(d.subBand, g, m.net.params, joined.net.params)
            && joined.appNonces == (if |seen| <= 8 then seen else seen[|seen| - 8..])
            && joined.net == Assigned(joined.net.params, [], m.net.linkCheck) && !joined.ack
            && joined == started.(session := joined.session, appNonces := joined.appNonces, net := joined.net,
                                  ack := false))
  {
    RequestAgreement(d, m, random);
    GrantAgreement(d, JoinStarted(d, m, random).0, g);
  }

  lemma RequestAgreement(d: Device, m: Mac, random: nat)
    requires d.Ok() && m.Ok() && random <= 0xFFFF
    ensures var (started, effects) := JoinStarted(d, m, random);
      var nonce := if m.nonceCounter < 0 then random else if m.nonceCounter == 0xFFFF then 0 else m.nonceCounter + 1;
      && started == m.(devNonce := nonce, nonceCounter := nonce)
      && |effects| == 2 && effects[0] == Persist(ImageOf(started)) && effects[1].Send?
      && Asked(d.aes, d.appKey, effects[1].frame) == Some(Ask(d.appEui, d.devEui, nonce))
  {
    DrawnNext(m, random);
    RequestRead(d, Drawn(m, random).devNonce);
  }

  lemma DrawnNext(m: Mac, random: nat)
    requires m.Ok() && random <= 0xFFFF
    ensures var nonce := if m.nonceCounter < 0 then random else if m.nonceCounter == 0xFFFF then 0 else m.nonceCounter + 1;
      Drawn(m, random) == m.(devNonce := nonce, nonceCounter := nonce) && nonce <= 0xFFFF
  {}

  lemma GrantAgreement(d: Device, m: Mac, g: Grant)
    requires d.Ok() && m.Ok() && g.WellFormed()
    ensures var (joined, ok) := JoinAccepted(d, m, AcceptFrame(d, g)); var seen := m.appNonces + [g.Number()];
      && (ok <==> g.Number() !in m.appNonces)
      && (!ok ==> joined == m)
      && (ok ==>
            && joined.session == Opened(d, g, m.devNonce)
            && Assigns(d.subBand, g, m.net.params, joined.net.params)
            && joined.appNonces == (if |seen| <= 8 then seen else seen[|seen| - 8..])
            && joined.net == Assigned(joined.net.params, [], m.net.linkCheck) && !joined.ack
            && joined == m.(session := joined.session, appNonces := joined.appNonces, net := joined.net, ack := false))
  {
    AgreementAfter(d, m, g);
    if g.Number() !in m.appNonces {
      AdoptedGrant(d, m, g);
    }
  }

  /** Whatever frame comes in a join window, the device takes it for a JoinAccept
      exactly when it is long enough, of that type, rightly sealed, and its
      AppNonce is not a recent one; otherwise nothing changes. */
  lemma JoinedExactly(d: Device, m: Mac, data: Bytes)
    requires d.Ok() && m.Ok()
    ensures var (next, ok) := JoinAccepted(d, m, data);
      && (!ok ==> next == m)
      && (|data| < 17 || data[0] != 0x20 ==> !ok)
      && (|data| >= 17 && data[0] == 0x20 ==>
            var clear := Cleared(d.aes, d.appKey, data[1..]); var low: int, mid: int, high: int := clear[0], clear[1], clear[2];
            ok <==> Seal(d.aes, d.appKey, [0x20] + clear[..|clear| - 4]) == clear[|clear| - 4..] &&
                    low + 0x100 * mid + 0x1_0000 * high !in m.appNonces)
  {
    if |data| >= 17 && data[0] == 0x20 {
      var clear := Cleared(d.aes, d.appKey, data[1..]);
      ClearAgrees(d.aes, d.appKey, data[1..]);
      SealAgrees(d.aes, d.appKey, [0x20] + clear[..|clear| - 4]);
    }
  }

  lemma AgreementAfter(d: Device, m: Mac, g: Grant)
    requires d.Ok() && m.Ok() && g.WellFormed()
    ensures var (joined, ok) := JoinAccepted(d, m, AcceptFrame(d, g));
      && (ok <==> g.Number() !in m.appNonces)
      && (!ok ==> joined == m)
      && (ok ==> joined == Adopted(d, m, g.Body()))
  {
    AcceptRead(d, g);
    BodyFields(g);
  }

  lemma AdoptedGrant(d: Device, m: Mac, g: Grant)
    requires d.Ok() && m.Ok() && g.WellFormed() && g.Number() !in m.appNonces
    ensures FromLe24(g.Body()[0], g.Body()[1], g.Body()[2]) == g.Number()
    ensures var joined := Adopted(d, m, g.Body()); var seen := m.appNonces + [g.Number()];
      && joined.session == Opened(d, g, m.devNonce)
      && Assigns(d.subBand, g, m.net.params, joined.net.params)
      && joined.appNonces == (if |seen| <= 8 then seen else seen[|seen| - 8..])
      && joined.net == Assigned(joined.net.params, [], m.net.linkCheck) && !joined.ack
      && joined == m.(session := joined.session, appNonces := joined.appNonces, net := joined.net, ack := false)
  {
    BodyFields(g);
    SessionOpened(d, g, m.devNonce);
    GrantBytes(g);
    GrantAssigns(m.net.params.sf, d.subBand, g, m.net.params, g.Body()[10], g.Body()[11], CfList(g.Body()));
  }

  lemma SessionOpened(d: Device, g: Grant, nonce: nat)
    requires d.Ok() && g.WellFormed()
    ensures SessionKeys(d, g.Body(), nonce) == Opened(d, g, nonce)
  {
    BodyFields(g);
    KeyAgrees(d.aes, d.appKey, 0x01, g.appNonce, g.netId, nonce);
    KeyAgrees(d.aes, d.appKey, 0x02, g.appNonce, g.netId, nonce);
  }

  /** The AppNonces remembered after those of later JoinAccepts, in order: one
      still remembered is refused. */
  function RememberedAll(ns: seq<int>, others: seq<nat>): (r: seq<int>)
    requires RecentNonces(ns) && AllNonces(others)
    ensures RecentNonces(r)
    decreases |others|
  {
    if others == [] then ns
    else RememberedAll(if others[0] in ns then ns else Remembered(ns, others[0]), others[1..])
  }

  /** An accepted AppNonce stays refused through the next seven JoinAccepts at
      least: seen `later` accepts ago, it is within reach for the rest of them. */
  lemma {:induction false} ReplayWindow(ns: seq<int>, n: int, later: nat, others: seq<nat>)
    requires RecentNonces(ns) && AllNonces(others) && later < |ns| && ns[|ns| - 1 - later] == n
    requires later + |others| < NONCES_KEPT
    ensures n in RememberedAll(ns, others)
    decreases |others|
  {
    if others != [] {
      if others[0] in ns {
        ReplayWindow(ns, n, later, others[1..]);
      } else {
        OnePlaceOlder(ns, n, later, others[0]);
        ReplayWindow(Remembered(ns, others[0]), n, later + 1, others[1..]);
      }
    }
  }

  lemma OnePlaceOlder(ns: seq<int>, n: int, later: nat, o: nat)
    requires RecentNonces(ns) && o !in ns && o <= 0xFF_FFFF && later + 1 < NONCES_KEPT
    requires later < |ns| && ns[|ns| - 1 - later] == n
    ensures var r := Remembered(ns, o); later + 1 < |r| && r[|r| - 2 - later] == n
  {
    var all := ns + [o];
    assert all[|all| - 2 - later] == n;
  }

  // ---- Uplink: sections 4.3 and 4.4 ---------------------------------------------------------

  datatype Received = Received(devAddr: Bytes, confirmed: bool, ack: bool, count: nat, fopts: Bytes, port: Byte,
                               payload: Bytes)

  /** Bit 5 of FCtrl. */
  predicate AckBit(control: Byte) { control % 64 >= 32 }

  function Sixteen(low: Byte, high: Byte): nat {
    var l: int, h: int := low, high;
    l + 256 * h
  }

  /** A network reading an uplink under the keys of a session and the counter it
      expects: split by FCtrl, check the seal, decipher. */
  function NetworkRead(aes: Aes, s: Session, frame: Bytes): Option<Received>
    requires aes.Lawful() && |s.devAddr| == 4
  {
    if |frame| < 13 || (frame[0] != 0x40 && frame[0] != 0x80) || frame[1..5] != s.devAddr then None
    else
      var body, mic := frame[..|frame| - 4], frame[|frame| - 4..];
      var header := 8 + frame[5] % 16;
      if FrameSeal(aes, s.nwkSKey, s.devAddr, s.fcntUp, 0, body) != mic || |body| <= header
         || |body| - header - 1 > 255 * 16 then None
      else
        var port := body[header];
        Some(Received(frame[1..5], frame[0] == 0x80, AckBit(frame[5]), Sixteen(frame[6], frame[7]),
                      body[8..header], port,
                      Ciphered(aes, if port != 0 then s.appSKey else s.nwkSKey, s.devAddr, s.fcntUp, 0, body[header + 1..])))
  }

  lemma BodyLayout(b: Bytes, head: Byte, addr: Bytes, control: Byte, count: Bytes, fopts: Bytes, port: Byte, rest: Bytes)
    requires |addr| == 4 && |count| == 2
    requires b == [head] + addr + [control] + count + fopts + [port] + rest
    ensures |b| == 9 + |fopts| + |rest| && b[0] == head && b[1..5] == addr && b[5] == control
    ensures b[6..8] == count && b[8..8 + |fopts|] == fopts
    ensures b[8 + |fopts|] == port && b[9 + |fopts|..] == rest
  {}

  /** The header fields of a device frame, as the network reads them. */
  lemma UpFields(aes: Aes, m: Mac, payload: Bytes, port: Byte, confirmed: bool, body: Bytes, enc: Bytes)
    requires aes.Lawful() && m.Ok() && Fits(m, payload)
    requires body == UplinkBody(aes, m.session, m.net.pending, m.ack, payload, port, confirmed)
    requires enc == Encrypted(aes, if port != 0 then m.session.appSKey else m.session.nwkSKey, m.session.devAddr,
                              m.session.fcntUp, payload, 0)
    ensures |body| == 9 + |m.net.pending| + |enc| && body[1..5] == m.session.devAddr
    ensures body[0] == (if confirmed then CONFIRMED_UP else UNCONFIRMED_UP)
    ensures body[5] % 16 == |m.net.pending| && (AckBit(body[5]) <==> m.ack)
    ensures body[6..8] == Le16(m.session.fcntUp)
    ensures body[8..8 + |m.net.pending|] == m.net.pending && body[8 + |m.net.pending|] == port
    ensures body[9 + |m.net.pending|..] == enc
  {
    BodyLayout(body, if confirmed then CONFIRMED_UP else UNCONFIRMED_UP, m.session.devAddr,
               (if m.ack then 0x20 else 0) + |m.net.pending|, Le16(m.session.fcntUp), m.net.pending, port, enc);
  }

  /** Every frame the device builds is read back whole by the network: all the
      queued answers, and the payload that was given. */
  lemma FrameRead(aes: Aes, m: Mac, payload: Bytes, port: Byte, confirmed: bool)
    requires aes.Lawful() && m.Ok() && Fits(m, payload)
    ensures NetworkRead(aes, m.session, UplinkFrame(aes, m, payload, port, confirmed))
      == Some(Received(m.session.devAddr, confirmed, m.ack, Low16(m.session.fcntUp), m.net.pending, port, payload))
  {
    var s := m.session;
    var frame := UplinkFrame(aes, m, payload, port, confirmed);
    var body := UplinkBody(aes, s, m.net.pending, m.ack, payload, port, confirmed);
    var key := if port != 0 then s.appSKey else s.nwkSKey;
    var enc := Encrypted(aes, key, s.devAddr, s.fcntUp, payload, 0);
    UpFields(aes, m, payload, port, confirmed, body, enc);
    CountRead(body, s.fcntUp);
    EncryptionIsItsOwnInverse(aes, key, s.devAddr, s.fcntUp, payload, 0);
    CipherAgrees(aes, key, s.devAddr, s.fcntUp, 0, enc);
    FrameSealAgrees(aes, s.nwkSKey, s.devAddr, s.fcntUp, 0, body);
    ReadParts(aes, s, frame, body);
  }

  lemma CountRead(body: Bytes, fcnt: nat)
    requires |body| >= 8 && body[6..8] == Le16(fcnt)
    ensures Sixteen(body[6], body[7]) == Low16(fcnt)
  {
    assert body[6] == body[6..8][0] && body[7] == body[6..8][1];
    Le16RoundTrip(fcnt);
    Low16Is(fcnt);
  }

  /** Reading a frame whose seal is right comes down to its body. */
  lemma ReadParts(aes: Aes, s: Session, frame: Bytes, body: Bytes)
    requires aes.Lawful() && |s.devAddr| == 4 && 9 <= |body| <= 255 * 16 && |body| > 8 + body[5] % 16
    requires body[0] == 0x80 || body[0] == 0x40
    requires body[1..5] == s.devAddr && frame == body + FrameSeal(aes, s.nwkSKey, s.devAddr, s.fcntUp, 0, body)
    ensures var header := 8 + body[5] % 16; var port := body[header];
      NetworkRead(aes, s, frame) ==
      Some(Received(s.devAddr, body[0] == 0x80, AckBit(body[5]), Sixteen(body[6], body[7]),
                    body[8..header], port,
                    Ciphered(aes, if port != 0 then s.appSKey else s.nwkSKey, s.devAddr, s.fcntUp, 0, body[header + 1..])))
  {
    assert frame[..|frame| - 4] == body && frame[1..5] == body[1..5];
    assert frame[|frame| - 4..] == FrameSeal(aes, s.nwkSKey, s.devAddr, s.fcntUp, 0, body);
  }

  /** The payload fits the data rate beside the queued answers. */
  predicate Room(sf: int, queued: nat, size: nat) {
    size + queued <= if sf == 10 then 11 else if sf == 9 then 53 else if sf == 8 then 125 else 242
  }

  /** The regional defaults, all but the spreading factor. */
  predicate Regional(subBand: int, p: Params, q: Params) {
    && q == Params(p.sf, q.mask, 0, 8, 923_300_000, 1)
    && |q.mask| == 72 && forall i :: 0 <= i < 72 ==> q.mask[i] == InSubBand(subBand, i)
  }

  /** The session is gone, and all that belonged to it; the nonces stay. */
  predicate LeftBehind(d: Device, m: Mac, next: Mac) {
    && !next.session.joined && next.session.fcntUp == 0 && next.session.fcntDown == 0
    && Regional(d.subBand, m.net.params, next.net.params)
    && next == m.(session := next.session, net := Assigned(next.net.params, [], m.net.linkCheck), ack := false,
                  uplinks := 0, unanswered := 0)
  }

  /** What rides on the next uplink: every 24th without a downlink asks for a
      link check, when there is room. */
  function Riding(m: Mac): Bytes {
    if (m.uplinks + 1) % 24 == 0 && |m.net.pending| < 15 then m.net.pending + [0x02] else m.net.pending
  }

  /** What an uplink call does: it sends exactly when the session is joined, not
      given up after three unanswered link checks, and the payload fits beside
      the answers; and what it sends, with the counter already spent and
      persisted, the network reads as given, with whole answers only. An
      over-long payload leaves the answers queued for ever longer frames to
      carry. */
  lemma UplinkArrives(d: Device, m: Mac, payload: Bytes, port: Byte, confirmed: bool)
    requires d.Ok() && m.Ok()
    ensures var (next, effects) := UplinkStarted(d, m, payload, port, confirmed); var riding := Riding(m);
      var givenUp := (m.uplinks + 1) % 24 == 0 && m.unanswered == 3;
      && (|effects| == 2 <==> m.session.joined && !givenUp && Room(m.net.params.sf, |riding|, |payload|))
      && (|effects| == 2 ==>
            && next.session == m.session.(fcntUp := m.session.fcntUp + 1) && next.net.pending == [] && !next.ack
            && effects[0] == Persist(ImageOf(next)) && effects[1].Send?
            && NetworkRead(d.aes, m.session, effects[1].frame)
               == Some(Received(m.session.devAddr, confirmed, m.ack, Low16(m.session.fcntUp), riding, port, payload))
            && Answers(riding))
      && (!m.session.joined ==> next == m && effects == [])
      && (m.session.joined && givenUp ==> LeftBehind(d, m, next) && effects == [Persist(ImageOf(next))])
      && (m.session.joined && !givenUp && |effects| != 2 ==>
            next.net.pending == riding && next.session == m.session && effects == [])
  {
    if m.session.joined {
      ProbedRiding(d, m);
      var (probed, forgotten) := Probed(d, m);
      if !forgotten && Fits(probed, payload) {
        FrameRead(d.aes, probed, payload, port, confirmed);
      }
    }
  }

  lemma ProbedRiding(d: Device, m: Mac)
    requires m.Ok()
    ensures var (probed, forgotten) := Probed(d, m);
      && (forgotten <==> (m.uplinks + 1) % 24 == 0 && m.unanswered == 3)
      && (forgotten ==> LeftBehind(d, m, probed))
      && (!forgotten ==>
            && probed.net == m.net.(pending := Riding(m)) && probed.session == m.session && probed.ack == m.ack
            && probed.devNonce == m.devNonce && probed.nonceCounter == m.nonceCounter && probed.appNonces == m.appNonces
            && forall payload: Bytes :: Fits(probed, payload) <==> Room(m.net.params.sf, |Riding(m)|, |payload|))
  {}

  /** End to end: a reading encoded, encrypted and sent is decoded by the network
      with exactly the columns it had, each in-range one to half a quantum. */
  lemma ReadingArrives(d: Device, m: Mac, r: Cayenne.Reading, port: Byte, k: Cayenne.Key)
    requires d.Ok() && m.Ok()
    requires |UplinkStarted(d, m, Cayenne.Wire(Cayenne.Quantised(r)), port, false).1| == 2
    ensures var sent := UplinkStarted(d, m, Cayenne.Wire(Cayenne.Quantised(r)), port, false).1[1];
      sent.Send? && NetworkRead(d.aes, m.session, sent.frame).Some? &&
      var decoded := Cayenne.DecodedOf(NetworkRead(d.aes, m.session, sent.frame).value.payload);
      && (Cayenne.Scalar(k) in decoded <==> k in r.scalars)
      && (k in r.scalars && Cayenne.InRange(k, r.scalars[k]) ==>
            Cayenne.Near(decoded, Cayenne.Scalar(k), r.scalars[k], Cayenne.Quantum(k)))
  {
    UplinkArrives(d, m, Cayenne.Wire(Cayenne.Quantised(r)), port, false);
    Cayenne.ScalarArrives(r, k);
  }

  lemma PositionArrives(d: Device, m: Mac, r: Cayenne.Reading, port: Byte, a: Cayenne.Position)
    requires d.Ok() && m.Ok()
    requires |UplinkStarted(d, m, Cayenne.Wire(Cayenne.Quantised(r)), port, false).1| == 2
    ensures var sent := UplinkStarted(d, m, Cayenne.Wire(Cayenne.Quantised(r)), port, false).1[1];
      sent.Send? && NetworkRead(d.aes, m.session, sent.frame).Some? &&
      var decoded := Cayenne.DecodedOf(NetworkRead(d.aes, m.session, sent.frame).value.payload);
      && (Cayenne.Fix(a) in decoded <==> Cayenne.Lat in r.fix && Cayenne.Lon in r.fix)
      && (Cayenne.Fix(a) in decoded && Cayenne.AxisInRange(a, Cayenne.AxisReading(r, a)) ==>
            Cayenne.Near(decoded, Cayenne.Fix(a), Cayenne.AxisReading(r, a), Cayenne.AxisQuantum(a)))
  {
    UplinkArrives(d, m, Cayenne.Wire(Cayenne.Quantised(r)), port, false);
    Cayenne.FixArrives(r, a, Cayenne.Delivered(r));
  }

  // ---- Downlink counters: section 4.3.1.5 ----------------------------------------------------

  /** `n` is the least counter from `expected` on that ends in these 16 bits. */
  predicate Next(expected: nat, fcnt16: nat, n: nat) { expected <= n < expected + 0x10000 && Low16(n) == fcnt16 }

  lemma NextIsLeast(expected: nat, fcnt16: nat, n: nat, k: nat)
    requires Next(expected, fcnt16, n) && expected <= k && Low16(k) == fcnt16
    ensures n <= k && (k < expected + 0x10000 ==> k == n)
  {
    Low16Is(n);
    Low16Is(k);
  }

  /** The reconstruction is right exactly while the expected counter fits the
      32 bits it is masked to. */
  lemma ReconstructionExact(expected: nat, fcnt16: nat)
    requires fcnt16 < 0x10000
    ensures Next(expected, fcnt16, Reconstructed(expected, fcnt16)) <==> expected <= 0xFFFF_FFFF
  {
    Low16Is(expected);
    Low32Is(expected - Low16(expected));
    Low16Is(Reconstructed(expected, fcnt16));
    var high := expected / 0x10000;
    assert expected == high * 0x10000 + expected % 0x10000;
    assert high % 0x10000 == high || high >= 0x10000;
  }

  /** Whatever frame comes after an uplink, the device takes it for a downlink
      exactly when it is long enough, of one of the two types, for its address,
      and rightly sealed at the next counter that ends in its sixteen bits;
      otherwise nothing changes. */
  lemma HeardExactly(aes: Aes, m: Mac, data: Bytes, n: nat, snr: int)
    requires aes.Lawful() && m.Ok() && m.session.fcntDown <= 0xFFFF_FFFF
    requires |data| >= 12 ==> Next(m.session.fcntDown, Sixteen(data[6], data[7]), n)
    ensures Genuine(aes, m, data) <==>
      && |data| >= 12 && data[0] in {0x60, 0xA0} && data[1..5] == m.session.devAddr
      && FrameSeal(aes, m.session.nwkSKey, m.session.devAddr, n, 1, data[..|data| - 4]) == data[|data| - 4..]
    ensures !Genuine(aes, m, data) ==> Downlink(aes, m, data, snr) == (m, None)
  {
    if |data| >= 12 {
      ReconstructionExact(m.session.fcntDown, Fcnt16(data));
      NextIsLeast(m.session.fcntDown, Fcnt16(data), n, DownCount(m, data));
      FrameSealAgrees(aes, m.session.nwkSKey, m.session.devAddr, n, 1, data[..|data| - 4]);
    }
  }

  /** The frame the network sends for counter `n`: optional port and payload. */
  datatype Message = Message(confirmed: bool, flags: nat, fopts: Bytes, app: Option<(Byte, Bytes)>) {
    predicate WellFormed() { flags < 16 && |fopts| <= 15 && (app.Some? ==> |app.value.1| <= 255 * 16) }

    /** The port and payload as the application gave them. */
    function Clear(): Option<Bytes> {
      match app
      case None => None
      case Some(a) => Some([a.0] + a.1)
    }
  }

  /** FPort and encrypted payload, when there are any. */
  function DownTailOf(aes: Aes, s: Session, n: nat, msg: Message): Bytes
    requires aes.Lawful() && |s.devAddr| == 4 && msg.WellFormed()
  {
    match msg.app
    case None => []
    case Some(a) => [a.0] + Ciphered(aes, if a.0 == 0 then s.nwkSKey else s.appSKey, s.devAddr, n, 1, a.1)
  }

  function DownBody(aes: Aes, s: Session, n: nat, msg: Message): Bytes
    requires aes.Lawful() && |s.devAddr| == 4 && msg.WellFormed()
  {
    [if msg.confirmed then 0xA0 else 0x60] + s.devAddr + [16 * msg.flags + |msg.fopts|] + [NthByte(n, 0), NthByte(n, 1)]
    + msg.fopts + DownTailOf(aes, s, n, msg)
  }

  function DownFrame(aes: Aes, s: Session, n: nat, msg: Message): Bytes
    requires aes.Lawful() && |s.devAddr| == 4 && msg.WellFormed()
  {
    var body := DownBody(aes, s, n, msg);
    body + FrameSeal(aes, s.nwkSKey, s.devAddr, n, 1, body)
  }

  lemma DownLayout(b: Bytes, head: Byte, addr: Bytes, control: Byte, count: Bytes, fopts: Bytes, rest: Bytes)
    requires |addr| == 4 && |count| == 2 && control % 16 == |fopts|
    requires b == [head] + addr + [control] + count + fopts + rest
    ensures |b| == 8 + |fopts| + |rest| && b[0] == head && b[1..5] == addr && b[5] == control
    ensures b[6] == count[0] && b[7] == count[1] && b[8..8 + |fopts|] == fopts && b[8 + |fopts|..] == rest
  {}

  /** A frame and its MIC, taken apart again. */
  lemma Trailed(body: Bytes, mic: Bytes)
    requires |mic| == 4 && |body| >= 8
    ensures var f := body + mic;
      && |f| == |body| + 4 && f[..|f| - 4] == body && f[|f| - 4..] == mic
      && (forall i, j :: 0 <= i <= j <= |body| ==> f[i..j] == body[i..j])
      && (forall i :: 0 <= i < |body| ==> f[i] == body[i])
  {}

  /** What the device reads in a header. */
  lemma HeaderFields(f: Bytes, body: Bytes, control: Byte, count: Bytes, fopts: Bytes)
    requires 12 <= |f| && 8 + |fopts| <= |body| <= |f| && body == f[..|body|] && |count| == 2 && control % 16 == |fopts|
    requires body[5] == control && body[6] == count[0] && body[7] == count[1] && body[8..8 + |fopts|] == fopts
    ensures HeaderLength(f) == 8 + |fopts| && FOptsOf(f) == fopts && Fcnt16(f) == FromLe16(count[0], count[1])
  {
    assert f[8..8 + |fopts|] == body[8..8 + |fopts|];
  }

  /** The header fields of a network frame, as the device reads them. */
  lemma DownFields(aes: Aes, s: Session, n: nat, msg: Message)
    requires aes.Lawful() && |s.devAddr| == 4 && msg.WellFormed()
    ensures var f := DownFrame(aes, s, n, msg); var body := DownBody(aes, s, n, msg);
      && 12 <= |f| && f[0] == body[0] && f[1..5] == s.devAddr && Fcnt16(f) == Low16(n)
      && f[..|f| - 4] == body && f[|f| - 4..] == FrameMic(aes, s.nwkSKey, s.devAddr, n, body, 1)
      && HeaderLength(f) == 8 + |msg.fopts| && FOptsOf(f) == msg.fopts
      && f[0] == (if msg.confirmed then CONFIRMED_DOWN else UNCONFIRMED_DOWN)
  {
    var f, body := DownFrame(aes, s, n, msg), DownBody(aes, s, n, msg);
    var control: Byte := 16 * msg.flags + |msg.fopts|;
    assert [NthByte(n, 0), NthByte(n, 1)] == Le16(n);
    FrameSealAgrees(aes, s.nwkSKey, s.devAddr, n, 1, body);
    DownLayout(body, body[0], s.devAddr, control, Le16(n), msg.fopts, DownTailOf(aes, s, n, msg));
    Trailed(body, FrameMic(aes, s.nwkSKey, s.devAddr, n, body, 1));
    HeaderFields(f, body, control, Le16(n), msg.fopts);
    Le16RoundTrip(n);
    Low16Is(n);
  }

  lemma PayloadRead(aes: Aes, m: Mac, n: nat, f: Bytes, port: Byte, enc: Bytes)
    requires aes.Lawful() && m.Ok() && 12 <= |f| && |enc| <= MAX_PAYLOAD
    requires HeaderLength(f) <= |f| - 4 && f[HeaderLength(f)..|f| - 4] == [port] + enc
    ensures PayloadOf(aes, m, n, f) == Some([port] + Encrypted(aes, if port == 0 then m.session.nwkSKey else m.session.appSKey,
                                                               m.session.devAddr, n, enc, 1))
  {
    var body, header := f[..|f| - 4], HeaderLength(f);
    assert body[header..] == [port] + enc;
    assert body[header] == body[header..][0] && body[header + 1..] == body[header..][1..];
  }

  /** What follows the header of a network frame. */
  lemma DownTail(aes: Aes, s: Session, n: nat, msg: Message)
    requires aes.Lawful() && |s.devAddr| == 4 && msg.WellFormed()
    ensures var f := DownFrame(aes, s, n, msg);
      && |f| >= 12 && HeaderLength(f) <= |f| - 4
      && f[HeaderLength(f)..|f| - 4] == DownTailOf(aes, s, n, msg)
  {
    var f, body := DownFrame(aes, s, n, msg), DownBody(aes, s, n, msg);
    DownFields(aes, s, n, msg);
    var tail := DownTailOf(aes, s, n, msg);
    DownLayout(body, body[0], s.devAddr, 16 * msg.flags + |msg.fopts|, [NthByte(n, 0), NthByte(n, 1)], msg.fopts, tail);
    assert f[HeaderLength(f)..|f| - 4] == f[..|f| - 4][HeaderLength(f)..];
  }

  lemma DownPayload(aes: Aes, m: Mac, n: nat, msg: Message)
    requires aes.Lawful() && m.Ok() && msg.WellFormed()
    ensures |DownFrame(aes, m.session, n, msg)| >= 12
    ensures PayloadOf(aes, m, n, DownFrame(aes, m.session, n, msg)) == msg.Clear()
  {
    var s := m.session;
    var f := DownFrame(aes, s, n, msg);
    DownTail(aes, s, n, msg);
    match msg.app
    case None =>
    case Some(a) =>
      var key := if a.0 == 0 then s.nwkSKey else s.appSKey;
      var enc := Encrypted(aes, key, s.devAddr, n, a.1, 1);
      CipherAgrees(aes, key, s.devAddr, n, 1, a.1);
      PayloadRead(aes, m, n, f, a.0, enc);
      EncryptionIsItsOwnInverse(aes, key, s.devAddr, n, a.1, 1);
  }

  /** The MIC of this message tells apart all counters ending in the same bits. */
  ghost predicate Distinguishing(aes: Aes, s: Session, body: Bytes)
    requires aes.Lawful() && |s.devAddr| == 4
  {
    forall i: nat, j: nat :: Confusable(i, j) ==>
      FrameMic(aes, s.nwkSKey, s.devAddr, i, body, 1) != FrameMic(aes, s.nwkSKey, s.devAddr, j, body, 1)
  }

  /** Different 32-bit counters with the same 16 bits on the air. */
  predicate Confusable(i: nat, j: nat) { i <= 0xFFFF_FFFF && j <= 0xFFFF_FFFF && i != j && Low16(i) == Low16(j) }

  /** What 32 bits keep of a counter at most one turn past them. */
  function Carried(k: nat): nat { if k <= 0xFFFF_FFFF then k else k - 0x1_0000_0000 }

  lemma MicCarries(aes: Aes, key: Bytes, devAddr: Bytes, k: nat, body: Bytes)
    requires aes.Lawful() && |devAddr| == 4 && k < 0x1_0001_0000
    ensures FrameMic(aes, key, devAddr, Carried(k), body, 1) == FrameMic(aes, key, devAddr, k, body, 1)
  {
    if k > 0xFFFF_FFFF { CounterWraps(devAddr, k - 0x1_0000_0000); }
  }

  /** A frame authentic at one counter is authentic at another with the same 16
      bits exactly when 32 bits keep the same of them. */
  lemma AuthenticAt(aes: Aes, s: Session, data: Bytes, n: nat, k: nat)
    requires aes.Lawful() && |s.devAddr| == 4 && Authentic(aes, s, data, n) && n <= 0xFFFF_FFFF
    requires Distinguishing(aes, s, data[..|data| - 4])
    requires k < 0x1_0001_0000 && Low16(Carried(k)) == Low16(n)
    ensures Authentic(aes, s, data, k) <==> Carried(k) == n
  {
    var body := data[..|data| - 4];
    MicCarries(aes, s.nwkSKey, s.devAddr, k, body);
    if Carried(k) != n { assert Confusable(Carried(k), n); }
  }

  /** Not behind and less than 65536 ahead; or, within 65536 of the end of the
      32 bits, one of the first counters again, which look like those past it. */
  predicate InWindow(expected: nat, n: nat) { expected <= n < expected + 0x10000 || n + 0xFFFF_0000 < expected }

  /** The counter the device tries is the right one exactly in that window. */
  lemma TriedCounter(expected: nat, n: nat)
    requires expected <= 0xFFFF_FFFF && n <= 0xFFFF_FFFF
    ensures var k := Reconstructed(expected, Low16(n));
      && expected <= k < 0x1_0001_0000 && Low16(Carried(k)) == Low16(n)
      && (Carried(k) == n <==> InWindow(expected, n)) && (expected <= n < expected + 0x10000 ==> k == n)
  {
    ReconstructionExact(expected, Low16(n));
    var k := Reconstructed(expected, Low16(n));
    Low16Is(n);
    Low16Is(k);
    Low16Is(Carried(k));
  }

  /** A frame authentic at counter `n` is accepted exactly when the expected
      counter has `n` in its window. */
  lemma AcceptedExactly(aes: Aes, m: Mac, data: Bytes, n: nat)
    requires aes.Lawful() && m.Ok() && Authentic(aes, m.session, data, n) && Low16(n) == Fcnt16(data)
    requires m.session.fcntDown <= 0xFFFF_FFFF && n <= 0xFFFF_FFFF
    requires Distinguishing(aes, m.session, data[..|data| - 4])
    ensures Genuine(aes, m, data) <==> InWindow(m.session.fcntDown, n)
  {
    TriedCounter(m.session.fcntDown, n);
    AuthenticAt(aes, m.session, data, n, DownCount(m, data));
  }

  /** So a network frame is accepted exactly then. */
  lemma AcceptedIffNext(aes: Aes, m: Mac, n: nat, msg: Message)
    requires aes.Lawful() && m.Ok() && msg.WellFormed() && m.session.fcntDown <= 0xFFFF_FFFF && n <= 0xFFFF_FFFF
    requires Distinguishing(aes, m.session, DownBody(aes, m.session, n, msg))
    ensures Genuine(aes, m, DownFrame(aes, m.session, n, msg)) <==> InWindow(m.session.fcntDown, n)
  {
    DownFields(aes, m.session, n, msg);
    AcceptedExactly(aes, m, DownFrame(aes, m.session, n, msg), n);
  }

  /** And then it does what it says: the counter is one past it, the liveness
      count restarts, its commands are handled in order, its payload comes out. */
  lemma FrameDelivered(aes: Aes, m: Mac, n: nat, msg: Message, snr: int)
    requires aes.Lawful() && m.Ok() && msg.WellFormed()
    requires m.session.fcntDown <= n < m.session.fcntDown + 0x10000 && m.session.fcntDown <= 0xFFFF_FFFF
    ensures var (next, payload) := Downlink(aes, m, DownFrame(aes, m.session, n, msg), snr);
      && payload == msg.Clear()
      && next == m.(session := m.session.(fcntDown := n + 1), uplinks := 0, unanswered := 0, ack := m.ack || msg.confirmed,
                    net := next.net)
      && next.net == (var opts := AllHandled(m.net, Parse(msg.fopts), snr);
                      if msg.app.Some? && msg.app.value.0 == 0 then AllHandled(opts, Parse(msg.app.value.1), snr) else opts)
  {
    var f := DownFrame(aes, m.session, n, msg);
    DownFields(aes, m.session, n, msg);
    DownPayload(aes, m, n, msg);
    ReconstructionExact(m.session.fcntDown, Low16(n));
    NextIsLeast(m.session.fcntDown, Low16(n), DownCount(m, f), n);
    if msg.app.Some? {
      assert ([msg.app.value.0] + msg.app.value.1)[1..] == msg.app.value.1;
    }
  }

  /** So the requests a network puts in a frame, in its header or as the payload
      of port 0, are carried out as it meant them, one after the other. */
  lemma RequestsDelivered(aes: Aes, m: Mac, n: nat, msg: Message, header: seq<Request>, inside: seq<Request>, snr: int)
    requires aes.Lawful() && m.Ok() && msg.WellFormed()
    requires m.session.fcntDown <= n < m.session.fcntDown + 0x10000 && m.session.fcntDown <= 0xFFFF_FFFF
    requires AllProper(header) && msg.fopts == Frames(header)
    requires AllProper(inside) && if inside == [] then msg.app.None? || msg.app.value.0 != 0
                                  else msg.app == Some((0, Frames(inside)))
    ensures var (next, payload) := Downlink(aes, m, DownFrame(aes, m.session, n, msg), snr);
      && payload == msg.Clear()
      && next == m.(session := m.session.(fcntDown := n + 1), uplinks := 0, unanswered := 0, ack := m.ack || msg.confirmed,
                    net := next.net)
      && DoesAll(m.net, header + inside, snr, next.net)
  {
    FrameDelivered(aes, m, n, msg, snr);
    DoesBoth(m.net, header, inside, snr);
  }

  lemma DoesBoth(a: Assigned, header: seq<Request>, inside: seq<Request>, snr: int)
    requires a.Ok() && AllProper(header) && AllProper(inside)
    ensures var opts := AllHandled(a, Parse(Frames(header)), snr);
      DoesAll(a, header + inside, snr, AllHandled(opts, Parse(Frames(inside)), snr))
  {
    var opts := AllHandled(a, Parse(Frames(header)), snr);
    RequestsDone(a, header, [], snr);
    RequestsDone(opts, inside, [], snr);
    assert Frames(header) + [] == Frames(header) && Frames(inside) + [] == Frames(inside);
    Paths.ChainAppend(Doing(snr), a, header, opts, inside, AllHandled(opts, Parse(Frames(inside)), snr));
  }

  /** An accepted frame is authentic at the counter tried, and moves the
      expected one past it. */
  lemma Advances(aes: Aes, m: Mac, data: Bytes)
    requires aes.Lawful() && m.Ok() && Genuine(aes, m, data) && m.session.fcntDown <= 0xFFFF_FFFF
    ensures var n := DownCount(m, data);
      && Authentic(aes, m.session, data, n) && Low16(n) == Fcnt16(data)
      && m.session.fcntDown <= n && Heard(m, data).session.fcntDown == n + 1
  {
    ReconstructionExact(m.session.fcntDown, Fcnt16(data));
  }

  /** And once the expected counter is past it, a frame authentic at `n` is
      accepted again exactly from the last 65536 expected counters of the 32 bits
      on, and there only if `n` is one of the first. */
  lemma NeverTwice(aes: Aes, later: Mac, data: Bytes, n: nat)
    requires aes.Lawful() && later.Ok() && Authentic(aes, later.session, data, n) && Low16(n) == Fcnt16(data)
    requires n < later.session.fcntDown <= 0xFFFF_FFFF
    requires Distinguishing(aes, later.session, data[..|data| - 4])
    ensures Genuine(aes, later, data) <==> n + 0xFFFF_0000 < later.session.fcntDown
  {
    AcceptedExactly(aes, later, data, n);
  }
}
