/** The LoRaWAN 1.0.3 Class A device: join, uplink, downlink. */
module LoRaMac {
  import opened Wrappers
  import opened BitMath
  import opened LoRaCrypto
  import opened LoRaParams
  import opened LoRaCommands
  import opened LoRaRequests

  const JOIN_REQUEST: Byte := 0x00
  const JOIN_ACCEPT: Byte := 0x20
  const UNCONFIRMED_UP: Byte := 0x40
  const UNCONFIRMED_DOWN: Byte := 0x60
  const CONFIRMED_UP: Byte := 0x80
  const CONFIRMED_DOWN: Byte := 0xA0
  const LINK_CHECK_EVERY := 24
  const UNANSWERED_LIMIT := 3
  const NONCES_KEPT := 8
  const MAX_PAYLOAD := 255 * 16

  datatype Session = Session(devAddr: Bytes, nwkSKey: Bytes, appSKey: Bytes, fcntUp: nat, fcntDown: nat, joined: bool)

  function NoSession(): Session { Session(seq(4, _ => 0), seq(16, _ => 0), seq(16, _ => 0), 0, 0, false) }

  /** What never changes: the cipher, the root key, the identifiers, the
      configured sub-band. */
  datatype Device = Device(aes: Aes, appKey: Bytes, appEui: Bytes, devEui: Bytes, subBand: int) {
    ghost predicate Ok() { aes.Lawful() && |appEui| == 8 && |devEui| == 8 }
  }

  datatype Mac = Mac(session: Session, net: Assigned, devNonce: nat, nonceCounter: int, appNonces: seq<int>,
                     ack: bool, uplinks: nat, unanswered: nat)
  {
    /** What every reachable state satisfies. */
    predicate Ok() {
      && |session.devAddr| == 4 && net.Ok()
      && devNonce <= 0xFFFF && -1 <= nonceCounter <= 0xFFFF
      && RecentNonces(appNonces)
      && unanswered == uplinks / LINK_CHECK_EVERY && unanswered <= UNANSWERED_LIMIT
    }

    function Dr(): int
      requires net.Ok()
    {
      UplinkDr(net.params.sf)
    }
  }

  /** At most eight AppNonces, all different. */
  predicate RecentNonces(ns: seq<int>) {
    |ns| <= NONCES_KEPT && AllNonces(ns) && (forall i, j :: 0 <= i < j < |ns| ==> ns[i] != ns[j])
  }

  function Remembered(ns: seq<int>, n: int): (r: seq<int>)
    requires RecentNonces(ns) && n !in ns && 0 <= n <= 0xFF_FFFF
    ensures RecentNonces(r) && n in r
  {
    var all := ns + [n];
    assert all[|ns|] == n;
    if |all| <= NONCES_KEPT then all else all[|all| - NONCES_KEPT..]
  }

  /** The state at power-on, before anything saved is restored. */
  function Fresh(d: Device): Mac {
    Mac(NoSession(), Assigned(Defaults(9, d.subBand), [], NeverChecked), 0, -1, [], false, 0, 0)
  }

  lemma FreshOk(d: Device)
    ensures Fresh(d).Ok()
  {
    SubBandUsable(d.subBand);
  }

  // ---- The outside world ---------------------------------------------------------

  /** The row `save_session` writes. */
  datatype Image = Image(session: Session, saved: Saved)

  datatype Effect = Persist(image: Image) | Send(frame: Bytes)

  function ImageOf(m: Mac): Image { Image(m.session, Save(m.net.params, m.nonceCounter, m.appNonces)) }

  /** A restart: a fresh object, the saved parameters, and the saved session if
      it was joined. */
  function Restarted(d: Device, disk: Option<Image>): Mac {
    var f := Fresh(d);
    match disk
    case None => f
    case Some(i) =>
      f.(session := if i.session.joined then i.session else f.session,
         net := f.net.(params := Restore(f.net.params, i.saved)),
         nonceCounter := RestoredNonce(f.nonceCounter, i.saved),
         appNonces := RestoredAppNonces(i.saved, NONCES_KEPT))
  }

  /** Restarting from what a good state saved gives a good state with the same
      session, counters and AppNonces. */
  lemma RestartedOk(d: Device, m: Mac)
    requires m.Ok()
    ensures var r := Restarted(d, Some(ImageOf(m)));
      r.Ok() && r.appNonces == m.appNonces && (m.nonceCounter >= 0 ==> r.nonceCounter == m.nonceCounter) &&
      (m.session.joined ==> r.session == m.session)
  {
    FreshOk(d);
    SaveRestore(m.net.params, Fresh(d).net.params, m.nonceCounter, m.appNonces);
    InRangeKeeps(m.appNonces);
  }

  // ---- Forgetting a session ---------------------------------------------------------

  function Reset(d: Device, m: Mac): (r: Mac)
    requires m.Ok()
    ensures r.Ok()
  {
    SubBandUsable(d.subBand);
    m.(net := m.net.(params := Defaults(m.net.params.sf, d.subBand), pending := []), ack := false)
  }

  function Forgotten(d: Device, m: Mac): (r: Mac)
    requires m.Ok()
    ensures r.Ok()
  {
    Reset(d, m).(session := NoSession(), uplinks := 0, unanswered := 0)
  }

  // ---- Join: section 6.2 --------------------------------------------------------------

  function NextNonce(counter: int, random: nat): (n: nat)
    requires -1 <= counter <= 0xFFFF && random <= 0xFFFF
    ensures n <= 0xFFFF
  {
    if counter < 0 then random else (counter + 1) % 0x10000
  }

  function Backwards(b: Bytes): (r: Bytes)
    ensures |r| == |b|
  {
    seq(|b|, i requires 0 <= i < |b| => b[|b| - 1 - i])
  }

  function JoinRequestBody(d: Device, nonce: nat): (b: Bytes)
    requires d.Ok()
    ensures |b| == 19
  {
    [JOIN_REQUEST] + Backwards(d.appEui) + Backwards(d.devEui) + Le16(nonce)
  }

  function JoinRequest(d: Device, nonce: nat): Bytes
    requires d.Ok()
  {
    JoinRequestBody(d, nonce) + Mic(d.aes, d.appKey, JoinRequestBody(d, nonce))
  }

  function Drawn(m: Mac, random: nat): (r: Mac)
    requires m.Ok() && random <= 0xFFFF
    ensures r.Ok()
  {
    var n := NextNonce(m.nonceCounter, random);
    m.(devNonce := n, nonceCounter := n)
  }

  /** The nonce is drawn and persisted before the request is sent. */
  function JoinStarted(d: Device, m: Mac, random: nat): (r: (Mac, seq<Effect>))
    requires d.Ok() && m.Ok() && random <= 0xFFFF
    ensures r.0.Ok()
  {
    var next := Drawn(m, random);
    (next, [Persist(ImageOf(next)), Send(JoinRequest(d, next.devNonce))])
  }

  /** The decrypted frame after MHDR, without its MIC, and the MIC. */
  function AcceptBody(d: Device, data: Bytes): (r: (Bytes, Bytes))
    requires d.Ok() && |data| >= 17
    ensures |r.0| == |data| - 5 && |r.1| == 4
  {
    var clear := Recovered(d.aes, d.appKey, data[1..]);
    (clear[..|clear| - 4], clear[|clear| - 4..])
  }

  function SessionKeys(d: Device, body: Bytes, devNonce: nat): Session
    requires d.Ok() && |body| >= 12
  {
    Session(body[6..10], DerivedKey(d.aes, d.appKey, 0x01, body[0..3], body[3..6], devNonce),
            DerivedKey(d.aes, d.appKey, 0x02, body[0..3], body[3..6], devNonce), 0, 0, true)
  }

  function CfList(body: Bytes): Bytes { if |body| >= 28 then body[12..28] else [] }

  function Adopted(d: Device, m: Mac, body: Bytes): (r: Mac)
    requires d.Ok() && m.Ok() && |body| >= 12 && FromLe24(body[0], body[1], body[2]) !in m.appNonces
    ensures r.Ok()
  {
    var sf := m.net.params.sf;
    JoinedSound(sf, d.subBand, body[10], body[11], CfList(body));
    m.(appNonces := Remembered(m.appNonces, FromLe24(body[0], body[1], body[2])),
       session := SessionKeys(d, body, m.devNonce),
       net := m.net.(params := Joined(sf, d.subBand, body[10], body[11], CfList(body)), pending := []),
       ack := false)
  }

  function JoinAccepted(d: Device, m: Mac, data: Bytes): (r: (Mac, bool))
    requires d.Ok() && m.Ok()
    ensures r.0.Ok()
    ensures !r.1 ==> r.0 == m
  {
    if |data| < 17 || data[0] != JOIN_ACCEPT then (m, false)
    else
      var (body, mic) := AcceptBody(d, data);
      if Mic(d.aes, d.appKey, [JOIN_ACCEPT] + body) != mic then (m, false)
      else if FromLe24(body[0], body[1], body[2]) in m.appNonces then (m, false)
      else (Adopted(d, m, body), true)
  }

  // ---- Uplink: section 4 ----------------------------------------------------------------

  /** The liveness check: count the uplink, and at every 24th without a downlink
      ask for a LinkCheckAns or, after three unanswered, give up. */
  function Probed(d: Device, m: Mac): (r: (Mac, bool))
    requires m.Ok()
    ensures r.0.Ok()
  {
    var counted := m.uplinks + 1;
    if counted % LINK_CHECK_EVERY != 0 then (m.(uplinks := counted), false)
    else if m.unanswered >= UNANSWERED_LIMIT then (Forgotten(d, m), true)
    else
      (m.(uplinks := counted, unanswered := m.unanswered + 1,
          net := m.net.(pending := Queued(m.net.pending, [LINK_CHECK]))), false)
  }

  /** Whether the payload and the queued answers fit one frame. */
  predicate Fits(m: Mac, payload: Bytes)
    requires m.net.Ok()
  {
    |payload| <= MaxPayload(m.Dr()) - |m.net.pending|
  }

  function UplinkBody(aes: Aes, s: Session, fopts: Bytes, ack: bool, payload: Bytes, port: Byte, confirmed: bool): Bytes
    requires aes.Lawful() && |s.devAddr| == 4 && |fopts| <= MAX_FOPTS && |payload| <= MAX_PAYLOAD
  {
    [if confirmed then CONFIRMED_UP else UNCONFIRMED_UP] + s.devAddr + [(if ack then 0x20 else 0) + |fopts|]
    + Le16(s.fcntUp) + fopts + [port]
    + Encrypted(aes, if port != 0 then s.appSKey else s.nwkSKey, s.devAddr, s.fcntUp, payload, 0)
  }

  function UplinkFrame(aes: Aes, m: Mac, payload: Bytes, port: Byte, confirmed: bool): Bytes
    requires aes.Lawful() && m.Ok() && |payload| <= MAX_PAYLOAD
  {
    var s := m.session;
    var body := UplinkBody(aes, s, m.net.pending, m.ack, payload, port, confirmed);
    body + FrameMic(aes, s.nwkSKey, s.devAddr, s.fcntUp, body, 0)
  }

  /** One frame counter spent; the answers ride on this frame. */
  function Spent(m: Mac): (r: Mac)
    requires m.Ok()
    ensures r.Ok()
  {
    m.(session := m.session.(fcntUp := m.session.fcntUp + 1), net := m.net.(pending := []), ack := false)
  }

  /** `send_uplink` up to the receive windows. Nothing is sent unless the
      counter it uses has been spent and persisted first. */
  function UplinkStarted(d: Device, m: Mac, payload: Bytes, port: Byte, confirmed: bool): (r: (Mac, seq<Effect>))
    requires d.Ok() && m.Ok()
    ensures r.0.Ok()
  {
    if !m.session.joined then (m, [])
    else
      var (probed, forgotten) := Probed(d, m);
      if forgotten then (probed, [Persist(ImageOf(probed))])
      else if !Fits(probed, payload) then (probed, [])
      else
        var next := Spent(probed);
        (next, [Persist(ImageOf(next)), Send(UplinkFrame(d.aes, probed, payload, port, confirmed))])
  }

  // ---- Downlink: section 4.3.1.5 ------------------------------------------------------------

  /** The expected counter under the mask 0xFFFF0000, and one turn more if that is
      behind. */
  function Reconstructed(expected: nat, fcnt16: nat): nat {
    var candidate := Low32(expected - Low16(expected)) + fcnt16;
    if candidate < expected then candidate + 0x10000 else candidate
  }

  function Fcnt16(data: Bytes): (n: nat)
    requires |data| >= 12
    ensures n < 0x10000
  {
    FromLe16(data[6], data[7])
  }

  /** The counter a downlink is checked against. */
  function DownCount(m: Mac, data: Bytes): nat
    requires |data| >= 12
  {
    Reconstructed(m.session.fcntDown, Fcnt16(data))
  }

  /** A downlink addressed to this session whose MIC matches counter `n`. */
  predicate Authentic(aes: Aes, s: Session, data: Bytes, n: nat)
    requires aes.Lawful() && |s.devAddr| == 4
  {
    && |data| >= 12
    && (data[0] == UNCONFIRMED_DOWN || data[0] == CONFIRMED_DOWN)
    && data[1..5] == s.devAddr
    && FrameMic(aes, s.nwkSKey, s.devAddr, n, data[..|data| - 4], 1) == data[|data| - 4..]
  }

  /** What the device accepts: authentic at the counter it reconstructs. */
  predicate Genuine(aes: Aes, m: Mac, data: Bytes)
    requires aes.Lawful() && |m.session.devAddr| == 4
  {
    |data| >= 12 && Authentic(aes, m.session, data, DownCount(m, data))
  }

  /** The counter moves past the frame, and the liveness count restarts. */
  function Heard(m: Mac, data: Bytes): (r: Mac)
    requires m.Ok() && |data| >= 12
    ensures r.Ok()
  {
    m.(session := m.session.(fcntDown := DownCount(m, data) + 1), uplinks := 0, unanswered := 0,
       ack := m.ack || data[0] == CONFIRMED_DOWN)
  }

  function Commanded(m: Mac, commands: Bytes, snr: int): (r: Mac)
    requires m.Ok()
    ensures r.Ok()
  {
    m.(net := AllHandled(m.net, Parse(commands), snr))
  }

  function HeaderLength(data: Bytes): (n: nat)
    requires |data| >= 12
    ensures 8 <= n <= 23
  {
    8 + data[5] % 16
  }

  /** The FOpts field: cut from the whole frame, so a header that claims more
      than there is reaches into the MIC. */
  function FOptsOf(data: Bytes): Bytes
    requires |data| >= 12
  {
    data[8..if HeaderLength(data) <= |data| then HeaderLength(data) else |data|]
  }

  /** FPort and decrypted payload, when the frame has them. More than 255 blocks
      of payload overflow the block counter byte: the call fails, with the state
      as it is, and gives no payload. */
  function PayloadOf(aes: Aes, m: Mac, fcnt: nat, data: Bytes): Option<Bytes>
    requires aes.Lawful() && |m.session.devAddr| == 4 && 12 <= |data|
  {
    var body := data[..|data| - 4];
    var header := HeaderLength(data);
    if |body| <= header || |body| - header - 1 > MAX_PAYLOAD then None
    else
      var port := body[header];
      Some([port] + Encrypted(aes, if port == 0 then m.session.nwkSKey else m.session.appSKey, m.session.devAddr,
                              fcnt, body[header + 1..], 1))
  }

  function Downlink(aes: Aes, m: Mac, data: Bytes, snr: int): (r: (Mac, Option<Bytes>))
    requires aes.Lawful() && m.Ok()
    ensures r.0.Ok()
    ensures !Genuine(aes, m, data) ==> r == (m, None)
  {
    if !Genuine(aes, m, data) then (m, None)
    else
      var heard := Commanded(Heard(m, data), FOptsOf(data), snr);
      var payload := PayloadOf(aes, m, DownCount(m, data), data);
      if payload.Some? && payload.value[0] == 0 then (Commanded(heard, payload.value[1..], snr), payload)
      else (heard, payload)
  }

  // ---- The object -----------------------------------------------------------------------------

  class LoRaWANMAC {
    const device: Device
    var session: Session
    var params: Params
    var pending: Bytes
    var linkCheck: LinkCheck
    var devNonce: nat
    var nonceCounter: int
    var appNonces: seq<int>
    var ackPending: bool
    var uplinks: nat
    var unanswered: nat
    /** What the database and the radio have been given, in order. */
    var effects: seq<Effect>

    ghost function State(): Mac
      reads this
    {
      Mac(session, Assigned(params, pending, linkCheck), devNonce, nonceCounter, appNonces, ackPending, uplinks, unanswered)
    }

    ghost predicate Valid()
      reads this
    {
      device.Ok() && State().Ok()
    }

    constructor (d: Device)
      requires d.Ok()
      ensures Valid() && device == d && State() == Fresh(d) && effects == []
    {
      device := d;
      session := NoSession();
      params := Defaults(9, d.subBand);
      pending := [];
      linkCheck := NeverChecked;
      devNonce, nonceCounter, appNonces := 0, -1, [];
      ackPending, uplinks, unanswered := false, 0, 0;
      effects := [];
      new;
      FreshOk(d);
    }

    method PersistNow()
      modifies this`effects
      ensures effects == old(effects) + [Persist(ImageOf(State()))]
    {
      effects := effects + [Persist(Image(session, Save(params, nonceCounter, appNonces)))];
    }

    method QueueAnswer(answer: Bytes)
      requires Valid() && IsAnswer(answer)
      modifies this`pending
      ensures Valid() && pending == Queued(old(pending), answer)
    {
      ghost var q := Queued(pending, answer);
      if |pending| + |answer| <= MAX_FOPTS {
        pending := pending + answer;
      }
      assert pending == q;
    }

    method ResetMacParams()
      requires Valid()
      modifies this`params, this`pending, this`ackPending
      ensures Valid() && State() == Reset(device, old(State()))
    {
      ghost var r := Reset(device, State());
      params := Defaults(params.sf, device.subBand);
      pending := [];
      ackPending := false;
      assert State() == r;
    }

    method ForgetSession()
      requires Valid()
      modifies this
      ensures Valid() && State() == Forgotten(device, old(State())) && effects == old(effects)
    {
      ResetMacParams();
      session := NoSession();
      uplinks := 0;
      unanswered := 0;
    }

    method HandleMacCommand(c: Command, snr: int)
      requires Valid() && c.WellFormed()
      modifies this`params, this`pending, this`linkCheck
      ensures Valid() && State() == old(State()).(net := Handled(old(State().net), c, snr))
      ensures forall r: Request :: r.WellFormed() && c == Delivered(r) ==> Does(old(State().net), r, snr, State().net)
    {
      ghost var was := State().net;
      if c.cid == LINK_CHECK {
        linkCheck := Checked(c.args[0], c.args[1]);
      } else if c.cid == LINK_ADR {
        var (p, status) := LinkAdrOf(params, c);
        if status >= 0 {
          params := p;
          QueueAnswer([LINK_ADR, status]);
        }
      } else if c.cid == DUTY_CYCLE {
        QueueAnswer([DUTY_CYCLE]);
      } else if c.cid == RX_PARAM_SETUP {
        var (p, status) := RxParamSetup(params, c.args[0], 100 * FromLe24(c.args[1], c.args[2], c.args[3]));
        params := p;
        QueueAnswer([RX_PARAM_SETUP, status]);
      } else if c.cid == DEV_STATUS {
        QueueAnswer([DEV_STATUS, 0, MarginByte(snr)]);
      } else if c.cid == RX_TIMING_SETUP {
        params := params.(rx1Delay := Delay(c.args[0]));
        QueueAnswer([RX_TIMING_SETUP]);
      }
      assert State().net == Handled(was, c, snr);
      forall r: Request | r.WellFormed() && c == Delivered(r) ensures Does(was, r, snr, Handled(was, c, snr)) {
        RequestDone(was, r, snr);
      }
    }

    /** The command at `i`, and the index past it; -1 when no known whole
        command is there. */
    method HandleAt(commands: Bytes, i: nat, snr: int) returns (next: int)
      requires Valid() && i < |commands|
      modifies this`params, this`pending, this`linkCheck
      ensures Valid() && (next == -1 || i < next <= |commands|)
      ensures var rest := HandledFrom(old(State()).net, commands, i, snr);
        if next == -1 then State().net == rest else HandledFrom(State().net, commands, next, snr) == rest
    {
      var length := ArgsLength(commands[i]);
      HandledStep(State().net, commands, i, length, snr);
      if length < 0 || i + 1 + length > |commands| {
        return -1;
      }
      next := i + 1 + length;
      HandleMacCommand(Command(commands[i], commands[i + 1..next]), snr);
    }

    /** Walks the bytes by index, as far as they hold known whole commands. */
    method HandleMacCommands(commands: Bytes, snr: int)
      requires Valid()
      modifies this`params, this`pending, this`linkCheck
      ensures Valid() && State() == Commanded(old(State()), commands, snr)
      ensures forall rs: seq<Request> :: AllProper(rs) && commands == Frames(rs) ==>
        DoesAll(old(State().net), rs, snr, State().net)
    {
      ghost var was := State().net;
      forall rs: seq<Request> | AllProper(rs) && commands == Frames(rs)
        ensures DoesAll(was, rs, snr, AllHandled(was, Parse(commands), snr))
      {
        RequestsDone(was, rs, [], snr);
        assert Frames(rs) + [] == commands;
      }
      ghost var all := HandledFrom(State().net, commands, 0, snr);
      assert commands[0..] == commands;
      var i := 0;
      while i < |commands|
        invariant i <= |commands| && Valid() && HandledFrom(State().net, commands, i, snr) == all
        modifies this`params, this`pending, this`linkCheck
      {
        var next := HandleAt(commands, i, snr);
        if next == -1 {
          return;
        }
        i := next;
      }
      assert commands[i..] == [];
    }

    method DrawNonce(random: nat)
      requires Valid() && random <= 0xFFFF
      modifies this`devNonce, this`nonceCounter
      ensures Valid() && State() == Drawn(old(State()), random)
    {
      ghost var next := Drawn(State(), random);
      nonceCounter := if nonceCounter < 0 then random else (nonceCounter + 1) % 0x10000;
      devNonce := nonceCounter;
      assert State() == next;
    }

    method Transmit(frame: Bytes)
      modifies this`effects
      ensures effects == old(effects) + [Send(frame)]
    {
      effects := effects + [Send(frame)];
    }

    /** Draw a DevNonce, persist it, and hand the request to the radio. */
    method StartJoin(random: nat)
      requires Valid() && random <= 0xFFFF
      modifies this
      ensures Valid() && State() == JoinStarted(device, old(State()), random).0
      ensures effects == old(effects) + JoinStarted(device, old(State()), random).1
    {
      DrawNonce(random);
      PersistNow();
      Transmit(JoinRequest(device, devNonce));
    }

    method Remember(appNonce: nat)
      requires Valid() && appNonce !in appNonces && appNonce <= 0xFF_FFFF
      modifies this`appNonces
      ensures Valid() && appNonces == Remembered(old(appNonces), appNonce)
    {
      ghost var next := Remembered(appNonces, appNonce);
      appNonces := appNonces + [appNonce];
      if |appNonces| > NONCES_KEPT {
        appNonces := appNonces[|appNonces| - NONCES_KEPT..];
      }
      assert appNonces == next;
    }

    /** Keys, address and parameters of a verified JoinAccept. */
    method Adopt(body: Bytes)
      requires Valid() && |body| >= 12 && FromLe24(body[0], body[1], body[2]) !in appNonces
      modifies this
      ensures Valid() && effects == old(effects) && State() == Adopted(device, old(State()), body)
    {
      ghost var next := Adopted(device, State(), body);
      Remember(FromLe24(body[0], body[1], body[2]));
      session := SessionKeys(device, body, devNonce);
      pending, ackPending := [], false;
      params := Joined(params.sf, device.subBand, body[10], body[11], CfList(body));
      assert State() == next;
    }

    method ProcessJoinAccept(data: Bytes) returns (joined: bool)
      requires Valid()
      modifies this
      ensures Valid() && effects == old(effects)
      ensures (State(), joined) == JoinAccepted(device, old(State()), data)
    {
      joined := false;
      if |data| < 17 || data[0] != JOIN_ACCEPT {
        return;
      }
      var clear := RecoverJoinAccept(device.aes, device.appKey, data[1..]);
      var body, mic := clear[..|clear| - 4], clear[|clear| - 4..];
      if Mic(device.aes, device.appKey, [JOIN_ACCEPT] + body) != mic {
        return;
      }
      if FromLe24(body[0], body[1], body[2]) in appNonces {
        return;
      }
      Adopt(body);
      joined := true;
    }

    /** Join, with what the radio answered: nothing, or a frame in a window. */
    method Join(random: nat, sent: bool, received: Option<Bytes>) returns (joined: bool)
      requires Valid() && random <= 0xFFFF
      modifies this
      ensures Valid() && effects == old(effects) + JoinStarted(device, old(State()), random).1
      ensures var started := JoinStarted(device, old(State()), random).0;
        (State(), joined) == if sent && received.Some? then JoinAccepted(device, started, received.value) else (started, false)
    {
      StartJoin(random);
      joined := false;
      if sent && received.Some? {
        joined := ProcessJoinAccept(received.value);
      }
    }

    /** The liveness check at the top of an uplink. */
    method Probe() returns (forgotten: bool)
      requires Valid()
      modifies this
      ensures Valid() && effects == old(effects) && (State(), forgotten) == Probed(device, old(State()))
    {
      ghost var was := State();
      forgotten := false;
      if (uplinks + 1) % LINK_CHECK_EVERY == 0 {
        if unanswered >= UNANSWERED_LIMIT {
          ForgetSession();
          forgotten := true;
          return;
        }
        QueueAnswer([LINK_CHECK]);
        unanswered := unanswered + 1;
      }
      uplinks := uplinks + 1;
      assert State() == Probed(device, was).0;
    }

    method Spend()
      requires Valid()
      modifies this`session, this`pending, this`ackPending
      ensures Valid() && State() == Spent(old(State()))
    {
      ghost var next := Spent(State());
      session := session.(fcntUp := session.fcntUp + 1);
      pending, ackPending := [], false;
      assert State() == next;
    }

    /** The counter is spent and persisted before the radio has the frame. */
    method SpendAndSend(payload: Bytes, port: Byte, confirmed: bool)
      requires Valid() && |payload| <= MAX_PAYLOAD
      modifies this
      ensures Valid() && State() == Spent(old(State()))
      ensures effects == old(effects) + [Persist(ImageOf(Spent(old(State())))),
                                         Send(UplinkFrame(device.aes, old(State()), payload, port, confirmed))]
    {
      var frame := BuildUplink(payload, port, confirmed);
      Spend();
      PersistNow();
      Transmit(frame);
    }

    /** `send_uplink` until the frame is with the radio, or refused. */
    method StartUplink(payload: Bytes, port: Byte, confirmed: bool) returns (sending: bool)
      requires Valid()
      modifies this
      ensures Valid() && State() == UplinkStarted(device, old(State()), payload, port, confirmed).0
      ensures effects == old(effects) + UplinkStarted(device, old(State()), payload, port, confirmed).1
      ensures sending <==> |UplinkStarted(device, old(State()), payload, port, confirmed).1| == 2
    {
      sending := false;
      if !session.joined {
        return;
      }
      var forgotten := Probe();
      if forgotten {
        PersistNow();
        return;
      }
      if |payload| > MaxPayload(UplinkDr(params.sf)) - |pending| {
        return;
      }
      SpendAndSend(payload, port, confirmed);
      sending := true;
    }

    method BuildUplink(payload: Bytes, port: Byte, confirmed: bool) returns (frame: Bytes)
      requires Valid() && |payload| <= MAX_PAYLOAD
      ensures frame == UplinkFrame(device.aes, State(), payload, port, confirmed)
    {
      var key := if port != 0 then session.appSKey else session.nwkSKey;
      var enc := EncryptPayload(device.aes, key, session.devAddr, session.fcntUp, payload, 0);
      frame := [if confirmed then CONFIRMED_UP else UNCONFIRMED_UP] + session.devAddr;
      frame := frame + [(if ackPending then 0x20 else 0) + |pending|] + Le16(session.fcntUp) + pending + [port] + enc;
      frame := frame + FrameMic(device.aes, session.nwkSKey, session.devAddr, session.fcntUp, frame, 0);
    }

    method Hear(data: Bytes, fcnt: nat)
      requires Valid() && |data| >= 12 && fcnt == DownCount(State(), data)
      modifies this`session, this`uplinks, this`unanswered, this`ackPending
      ensures Valid() && State() == Heard(old(State()), data)
    {
      ghost var next := Heard(State(), data);
      session := session.(fcntDown := fcnt + 1);
      uplinks, unanswered := 0, 0;
      ackPending := ackPending || data[0] == CONFIRMED_DOWN;
      assert State() == next;
    }

    /** Type, address and MIC, and the counter the MIC was checked with. */
    method Verify(data: Bytes) returns (genuine: bool, fcnt: nat)
      requires Valid()
      ensures genuine == Genuine(device.aes, State(), data) && State() == old(State())
      ensures genuine ==> fcnt == DownCount(State(), data)
    {
      genuine, fcnt := false, 0;
      if |data| < 12 || (data[0] != UNCONFIRMED_DOWN && data[0] != CONFIRMED_DOWN) || data[1..5] != session.devAddr {
        return;
      }
      fcnt := Reconstructed(session.fcntDown, FromLe16(data[6], data[7]));
      var body, mic := data[..|data| - 4], data[|data| - 4..];
      genuine := FrameMic(device.aes, session.nwkSKey, session.devAddr, fcnt, body, 1) == mic;
    }

    /** The commands in the header. */
    method HandleFOpts(data: Bytes, snr: int)
      requires Valid() && |data| >= 12
      modifies this`params, this`pending, this`linkCheck
      ensures Valid() && State() == Commanded(old(State()), FOptsOf(data), snr)
    {
      var header := 8 + data[5] % 16;
      if data[5] % 16 != 0 {
        HandleMacCommands(data[8..if header <= |data| then header else |data|], snr);
      }
    }

    method ProcessDownlink(data: Bytes, snr: int) returns (payload: Option<Bytes>)
      requires Valid()
      modifies this
      ensures Valid() && effects == old(effects)
      ensures (State(), payload) == Downlink(device.aes, old(State()), data, snr)
    {
      payload := None;
      var genuine, fcnt := Verify(data);
      if !genuine {
        return;
      }
      Hear(data, fcnt);
      HandleFOpts(data, snr);
      payload := ReadPayload(data, fcnt);
      if payload.Some? && payload.value[0] == 0 {
        HandleMacCommands(payload.value[1..], snr);
      }
    }

    /** FPort and decrypted payload of a verified frame, when it has them. */
    method ReadPayload(data: Bytes, fcnt: nat) returns (payload: Option<Bytes>)
      requires Valid() && 12 <= |data|
      ensures payload == PayloadOf(device.aes, State(), fcnt, data)
    {
      var body, header := data[..|data| - 4], 8 + data[5] % 16;
      if |body| <= header || |body| - header - 1 > MAX_PAYLOAD {
        return None;
      }
      var port := body[header];
      var key := if port == 0 then session.nwkSKey else session.appSKey;
      var clear := EncryptPayload(device.aes, key, session.devAddr, fcnt, body[header + 1..], 1);
      payload := Some([port] + clear);
    }

    /** A whole uplink, with what the radio answered. */
    method SendUplink(data: Bytes, port: Byte, confirmed: bool, sent: bool, received: Option<Bytes>, snr: int)
      returns (payload: Option<Bytes>)
      requires Valid()
      modifies this
      ensures Valid()
      ensures var started := UplinkStarted(device, old(State()), data, port, confirmed);
        && effects == old(effects) + started.1
        && (State(), payload) == if |started.1| == 2 && sent && received.Some?
                                 then Downlink(device.aes, started.0, received.value, snr) else (started.0, None)
    {
      var sending := StartUplink(data, port, confirmed);
      payload := None;
      if sending && sent && received.Some? {
        payload := ProcessDownlink(received.value, snr);
      }
    }
  }
}
