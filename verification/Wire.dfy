/**
 * The wire codec of `shared/src/protocol.rs`: control messages, multiplexed frames, and the
 * reader that takes one frame at a time off a byte stream.
 */
module Wire {
  import opened Base

  const MAX_PAYLOAD_SIZE: u32 := 1_048_576
  const CONTROL_STREAM: u64 := 0
  const MAX_STREAM_IDS: nat := 0x1_0000_0000_0000_0000
  const FRAME_TYPE_STREAM_CLOSE: u32 := 0xFFFF_FFFF

  const MSG_AUTH: byte := 1
  const MSG_AUTH_OK: byte := 2
  const MSG_AUTH_FAILED: byte := 3
  const MSG_OPEN_TUNNEL: byte := 4
  const MSG_TUNNEL_OPENED: byte := 5
  const MSG_CLOSE_TUNNEL: byte := 6
  const MSG_NEW_CONNECTION: byte := 7
  const MSG_PING: byte := 9
  const MSG_PONG: byte := 10

  // ---------------------------------------------------------------- text

  predicate Continuation(b: byte) {
    0x80 <= b <= 0xBF
  }

  /** The well-formed byte sequences of section 4 of RFC 3629, which is what a Rust string holds. */
  predicate ValidUtf8(s: Bytes) {
    if s == [] then true
    else if s[0] < 0x80 then ValidUtf8(s[1..])
    else if 0xC2 <= s[0] <= 0xDF then
      |s| >= 2 && Continuation(s[1]) && ValidUtf8(s[2..])
    else if 0xE0 <= s[0] <= 0xEF then
      && |s| >= 3 && Continuation(s[1]) && Continuation(s[2])
      && (s[0] == 0xE0 ==> s[1] >= 0xA0) && (s[0] == 0xED ==> s[1] <= 0x9F)
      && ValidUtf8(s[3..])
    else if 0xF0 <= s[0] <= 0xF4 then
      && |s| >= 4 && Continuation(s[1]) && Continuation(s[2]) && Continuation(s[3])
      && (s[0] == 0xF0 ==> s[1] >= 0x90) && (s[0] == 0xF4 ==> s[1] <= 0x8F)
      && ValidUtf8(s[4..])
    else false
  }

  type Text = s: Bytes | ValidUtf8(s)

  // ---------------------------------------------------------------- messages and frames

  type Octets4 = s: Bytes | |s| == 4 witness [0, 0, 0, 0]
  type Octets16 = s: Bytes | |s| == 16 witness [0, 0, 0, 0, 0, 0, 0, 0, 0, 0, 0, 0, 0, 0, 0, 0]

  /** A socket address; the IPv6 form carries the flow label and the scope of RFC 3493. */
  datatype SocketAddr =
    | V4(ip4: Octets4, port: u16)
    | V6(ip6: Octets16, port: u16, flowInfo: u32, scopeId: u32)

  datatype TunnelProtocol = Tcp | Udp | Both

  datatype Message =
    | Auth(secret: Text, clientUuid: Option<Text>)
    | AuthOk
    | AuthFailed(reason: Text)
    | OpenTunnel(tunnelId: u32, remotePort: u16, protocol: TunnelProtocol, dbId: u32)
    | TunnelOpened(tunnelId: u32)
    | CloseTunnel(tunnelId: u32)
    | NewConnection(tunnelId: u32, streamId: u64, isUdp: bool, peerAddr: Option<SocketAddr>)
    | Ping
    | Pong

  datatype Frame =
    | Control(msg: Message)
    | Data(streamId: u64, payload: Bytes)
    | StreamClose(streamId: u64)

  datatype WireError =
    | Truncated
    | FrameTooLarge
    | EmptyControl
    | TooShort
    | InvalidUtf8
    | UnknownProtocol
    | UnknownMessage

  // ---------------------------------------------------------------- big-endian integers

  function U16Bytes(n: u16): Bytes {
    [n / 0x100, n % 0x100]
  }

  function U16Of(b: Bytes): u16
    requires |b| == 2
  {
    var hi: int := b[0];
    hi * 0x100 + b[1]
  }

  function U32Bytes(n: u32): Bytes {
    U16Bytes(n / 0x1_0000) + U16Bytes(n % 0x1_0000)
  }

  function U32Of(b: Bytes): u32
    requires |b| == 4
  {
    var hi: int := U16Of(b[0..2]);
    hi * 0x1_0000 + U16Of(b[2..4])
  }

  function U64Bytes(n: u64): Bytes {
    U32Bytes(n / 0x1_0000_0000) + U32Bytes(n % 0x1_0000_0000)
  }

  function U64Of(b: Bytes): u64
    requires |b| == 8
  {
    var hi: int := U32Of(b[0..4]);
    hi * 0x1_0000_0000 + U32Of(b[4..8])
  }

  lemma U32RoundTrip(n: u32)
    ensures |U32Bytes(n)| == 4 && U32Of(U32Bytes(n)) == n
  {
    var b := U32Bytes(n);
    assert b[0..2] == U16Bytes(n / 0x1_0000) && b[2..4] == U16Bytes(n % 0x1_0000);
  }

  lemma U64RoundTrip(n: u64)
    ensures |U64Bytes(n)| == 8 && U64Of(U64Bytes(n)) == n
  {
    var b := U64Bytes(n);
    U32RoundTrip(n / 0x1_0000_0000);
    U32RoundTrip(n % 0x1_0000_0000);
    assert b[0..4] == U32Bytes(n / 0x1_0000_0000) && b[4..8] == U32Bytes(n % 0x1_0000_0000);
  }

  // ---------------------------------------------------------------- Message::encode

  function ProtocolByte(p: TunnelProtocol): byte {
    match p
    case Tcp => 1
    case Udp => 2
    case Both => 3
  }

  function PeerBytes(peer: Option<SocketAddr>): Bytes {
    match peer
    case None => []
    case Some(V4(ip, port)) => U16Bytes(port) + [4] + ip
    case Some(V6(ip, port, _, _)) => U16Bytes(port) + [6] + ip
  }

  /** The payload after the message type. The UUID's length is cut to 16 bits, as `len() as u16` does. */
  function Body(m: Message): Bytes {
    match m
    case Auth(secret, uuid) =>
      var id := if uuid.Some? then uuid.value else [];
      U16Bytes(|id| % 0x1_0000) + id + secret
    case AuthFailed(reason) => reason
    case OpenTunnel(tid, port, protocol, dbId) =>
      U32Bytes(tid) + U16Bytes(port) + [ProtocolByte(protocol)] + U32Bytes(dbId)
    case TunnelOpened(tid) => U32Bytes(tid)
    case CloseTunnel(tid) => U32Bytes(tid)
    case NewConnection(tid, sid, isUdp, peer) =>
      U32Bytes(tid) + U64Bytes(sid) + [if isUdp then 1 else 0] + PeerBytes(peer)
    case AuthOk => []
    case Ping => []
    case Pong => []
  }

  function TypeByte(m: Message): byte {
    match m
    case Auth(_, _) => MSG_AUTH
    case AuthOk => MSG_AUTH_OK
    case AuthFailed(_) => MSG_AUTH_FAILED
    case OpenTunnel(_, _, _, _) => MSG_OPEN_TUNNEL
    case TunnelOpened(_) => MSG_TUNNEL_OPENED
    case CloseTunnel(_) => MSG_CLOSE_TUNNEL
    case NewConnection(_, _, _, _) => MSG_NEW_CONNECTION
    case Ping => MSG_PING
    case Pong => MSG_PONG
  }

  function Encode(m: Message): Bytes {
    [TypeByte(m)] + Body(m)
  }

  // ---------------------------------------------------------------- the layout, byte by byte

  /** The number that bytes stand for with the most significant byte first. */
  function Big(b: Bytes): nat {
    if b == [] then 0 else 256 * Big(b[..|b| - 1]) + b[|b| - 1]
  }

  lemma {:induction false} BigAppend(a: Bytes, b: Bytes, scale: nat)
    requires (|b| == 2 && scale == 0x1_0000) || (|b| == 4 && scale == 0x1_0000_0000)
    ensures Big(a + b) == Big(a) * scale + Big(b)
    decreases |b|
  {
    var half := |b| / 2;
    if |b| == 2 {
      BigNext(a, b[0]);
      BigNext(a + [b[0]], b[1]);
      BigNext([], b[0]);
      BigNext([b[0]], b[1]);
      assert (a + [b[0]]) + [b[1]] == a + b && [b[0]] + [b[1]] == b && [] + [b[0]] == [b[0]];
    } else {
      BigAppend(a, b[..2], 0x1_0000);
      BigAppend(a + b[..2], b[2..], 0x1_0000);
      BigAppend(b[..2], b[2..], 0x1_0000);
      assert (a + b[..2]) + b[2..] == a + b && b[..2] + b[2..] == b;
    }
  }

  lemma BigNext(a: Bytes, x: byte)
    ensures Big(a + [x]) == 256 * Big(a) + x
  {
    assert (a + [x])[..|a|] == a;
  }

  lemma BigEndian(n: u64)
    ensures n < 0x1_0000 ==> |U16Bytes(n)| == 2 && Big(U16Bytes(n)) == n
    ensures n < 0x1_0000_0000 ==> |U32Bytes(n)| == 4 && Big(U32Bytes(n)) == n
    ensures |U64Bytes(n)| == 8 && Big(U64Bytes(n)) == n
  {
    BigU32(n / 0x1_0000_0000);
    BigU32(n % 0x1_0000_0000);
    BigAppend(U32Bytes(n / 0x1_0000_0000), U32Bytes(n % 0x1_0000_0000), 0x1_0000_0000);
    if n < 0x1_0000_0000 {
      BigU32(n);
    }
    if n < 0x1_0000 {
      BigU16(n);
    }
  }

  lemma BigU16(n: u16)
    ensures |U16Bytes(n)| == 2 && Big(U16Bytes(n)) == n
  {
    BigNext([], n / 0x100);
    BigNext([n / 0x100], n % 0x100);
    assert [] + [n / 0x100] == [n / 0x100] && [n / 0x100] + [n % 0x100] == U16Bytes(n);
  }

  lemma BigU32(n: u32)
    ensures |U32Bytes(n)| == 4 && Big(U32Bytes(n)) == n
  {
    BigU16(n / 0x1_0000);
    BigU16(n % 0x1_0000);
    BigAppend(U16Bytes(n / 0x1_0000), U16Bytes(n % 0x1_0000), 0x1_0000);
  }

  /** The bytes of every message, with each number most significant byte first. */
  lemma MessageLayout(m: Message)
    ensures var e := Encode(m);
      match m
      case Auth(secret, uuid) =>
        var id := if uuid.Some? then uuid.value else [];
        && |e| == 3 + |id| + |secret| && e[0] == 1 && Big(e[1..3]) == |id| % 65536
        && e[3..3 + |id|] == id && e[3 + |id|..] == secret
      case AuthOk => e == [2]
      case AuthFailed(reason) => e == [3] + reason
      case OpenTunnel(tid, port, protocol, dbId) =>
        && |e| == 12 && e[0] == 4 && Big(e[1..5]) == tid && Big(e[5..7]) == port
        && e[7] == (match protocol case Tcp => 1 case Udp => 2 case Both => 3) && Big(e[8..12]) == dbId
      case TunnelOpened(tid) => |e| == 5 && e[0] == 5 && Big(e[1..5]) == tid
      case CloseTunnel(tid) => |e| == 5 && e[0] == 6 && Big(e[1..5]) == tid
      case NewConnection(tid, sid, isUdp, peer) =>
        && |e| >= 14 && e[0] == 7 && Big(e[1..5]) == tid && Big(e[5..13]) == sid && e[13] == (if isUdp then 1 else 0)
        && (match peer
            case None => |e| == 14
            case Some(V4(ip, port)) => |e| == 21 && Big(e[14..16]) == port && e[16] == 4 && e[17..] == ip
            case Some(V6(ip, port, _, _)) => |e| == 33 && Big(e[14..16]) == port && e[16] == 6 && e[17..] == ip)
      case Ping => e == [9]
      case Pong => e == [10]
  {
    match m
    case Auth(secret, uuid) => AuthLayout(secret, uuid); hide Encode, Big;
    case OpenTunnel(_, _, _, _) => OpenTunnelLayout(m); hide Encode, Big;
    case TunnelOpened(_) => TunnelIdLayout(m); hide Encode, Big;
    case CloseTunnel(_) => TunnelIdLayout(m); hide Encode, Big;
    case NewConnection(_, _, _, _) => NewConnectionLayout(m); hide Encode, Big;
    case AuthFailed(_) => hide Big;
    case AuthOk => hide Big;
    case Ping => hide Big;
    case Pong => hide Big;
  }

  lemma OpenTunnelLayout(m: Message)
    requires m.OpenTunnel?
    ensures var e := Encode(m);
      && |e| == 12 && e[0] == 4 && Big(e[1..5]) == m.tunnelId && Big(e[5..7]) == m.remotePort
      && e[7] == (match m.protocol case Tcp => 1 case Udp => 2 case Both => 3) && Big(e[8..12]) == m.dbId
  {
    hide Big;
    BigU32(m.tunnelId);
    BigU16(m.remotePort);
    BigU32(m.dbId);
    hide U16Bytes, U32Bytes;
    var e := Encode(m);
    assert e[1..5] == U32Bytes(m.tunnelId) && e[5..7] == U16Bytes(m.remotePort) && e[8..12] == U32Bytes(m.dbId);
  }

  lemma TunnelIdLayout(m: Message)
    requires m.TunnelOpened? || m.CloseTunnel?
    ensures var e := Encode(m); |e| == 5 && e[0] == (if m.TunnelOpened? then 5 else 6) && Big(e[1..5]) == m.tunnelId
  {
    hide Big;
    BigU32(m.tunnelId);
    hide U32Bytes;
    assert Encode(m)[1..5] == U32Bytes(m.tunnelId);
  }

  lemma AuthLayout(secret: Text, uuid: Option<Text>)
    ensures var e, id := Encode(Auth(secret, uuid)), if uuid.Some? then uuid.value else [];
      && |e| == 3 + |id| + |secret| && e[0] == 1 && Big(e[1..3]) == |id| % 65536
      && e[3..3 + |id|] == id && e[3 + |id|..] == secret
  {
    hide Big, ValidUtf8;
    var e, id := Encode(Auth(secret, uuid)), if uuid.Some? then uuid.value else [];
    BigU16(|id| % 65536);
    assert e[1..3] == U16Bytes(|id| % 65536);
    assert e[3..3 + |id|] == id && e[3 + |id|..] == secret;
  }

  lemma NewConnectionLayout(m: Message)
    requires m.NewConnection?
    ensures var e := Encode(m);
      && |e| >= 14 && e[0] == 7 && Big(e[1..5]) == m.tunnelId && Big(e[5..13]) == m.streamId
      && e[13] == (if m.isUdp then 1 else 0)
      && match m.peerAddr
         case None => |e| == 14
         case Some(V4(ip, port)) => |e| == 21 && Big(e[14..16]) == port && e[16] == 4 && e[17..] == ip
         case Some(V6(ip, port, _, _)) => |e| == 33 && Big(e[14..16]) == port && e[16] == 6 && e[17..] == ip
  {
    hide Big;
    var e := Encode(m);
    BigEndian(m.tunnelId);
    BigEndian(m.streamId);
    if m.peerAddr.Some? {
      BigEndian(m.peerAddr.value.port);
    }
    hide U16Bytes, U32Bytes, U64Bytes;
    assert e[1..5] == U32Bytes(m.tunnelId) && e[5..13] == U64Bytes(m.streamId);
    if m.peerAddr.Some? {
      var tail := PeerBytes(m.peerAddr);
      assert e[14..] == tail && e[14..16] == tail[0..2] == U16Bytes(m.peerAddr.value.port);
      assert e[16] == tail[2] && e[17..] == tail[3..];
    }
  }

  // ---------------------------------------------------------------- Message::decode

  function DecodeAuth(p: Bytes): Result<Message, WireError> {
    if |p| < 2 then Err(TooShort) else
    var idLen := U16Of(p[0..2]);
    if |p| < 2 + idLen then Err(TooShort) else
    var id, secret := p[2..2 + idLen], p[2 + idLen..];
    if idLen > 0 && !ValidUtf8(id) then Err(InvalidUtf8) else
    if !ValidUtf8(secret) then Err(InvalidUtf8) else
    Ok(Auth(secret, if idLen > 0 then Some(id) else None))
  }

  function DecodeOpenTunnel(p: Bytes): Result<Message, WireError> {
    if |p| < 7 then Err(TooShort) else
    if p[6] !in {1, 2, 3} then Err(UnknownProtocol) else
    var protocol := if p[6] == 1 then Tcp else if p[6] == 2 then Udp else Both;
    Ok(OpenTunnel(U32Of(p[0..4]), U16Of(p[4..6]), protocol,
                  if |p| >= 11 then U32Of(p[7..11]) else 0))
  }

  /** The optional peer address; an unknown or short tail is ignored. */
  function DecodePeer(p: Bytes): Option<SocketAddr> {
    if |p| < 16 then None
    else if p[15] == 4 && |p| >= 20 then Some(V4(p[16..20], U16Of(p[13..15])))
    else if p[15] == 6 && |p| >= 32 then Some(V6(p[16..32], U16Of(p[13..15]), 0, 0))
    else None
  }

  function DecodeNewConnection(p: Bytes): Result<Message, WireError> {
    if |p| < 12 then Err(TooShort) else
    Ok(NewConnection(U32Of(p[0..4]), U64Of(p[4..12]), |p| > 12 && p[12] != 0, DecodePeer(p)))
  }

  function Decode(data: Bytes): Result<Message, WireError> {
    if data == [] then Err(EmptyControl) else
    var t, p := data[0], data[1..];
    if t == MSG_AUTH then DecodeAuth(p)
    else if t == MSG_AUTH_OK then Ok(AuthOk)
    else if t == MSG_AUTH_FAILED then (if ValidUtf8(p) then Ok(AuthFailed(p)) else Err(InvalidUtf8))
    else if t == MSG_OPEN_TUNNEL then DecodeOpenTunnel(p)
    else if t == MSG_TUNNEL_OPENED then (if |p| < 4 then Err(TooShort) else Ok(TunnelOpened(U32Of(p[0..4]))))
    else if t == MSG_CLOSE_TUNNEL then (if |p| < 4 then Err(TooShort) else Ok(CloseTunnel(U32Of(p[0..4]))))
    else if t == MSG_NEW_CONNECTION then DecodeNewConnection(p)
    else if t == MSG_PING then Ok(Ping)
    else if t == MSG_PONG then Ok(Pong)
    else Err(UnknownMessage)
  }

  // ---------------------------------------------------------------- round trip of messages

  /** What survives the wire: an empty UUID reads back as none, and an IPv6 peer loses flow label and scope. */
  function Normal(m: Message): Message {
    match m
    case Auth(secret, Some(id)) => if id == [] then Auth(secret, None) else m
    case NewConnection(tid, sid, isUdp, Some(V6(ip, port, _, _))) =>
      NewConnection(tid, sid, isUdp, Some(V6(ip, port, 0, 0)))
    case _ => m
  }

  /** The UUID's length fits its 16-bit field. */
  predicate FitsLength(m: Message) {
    m.Auth? && m.clientUuid.Some? ==> |m.clientUuid.value| < 0x1_0000
  }

  /** The messages that read back exactly as they were sent. */
  predicate Faithful(m: Message) {
    match m
    case Auth(_, Some(id)) => 0 < |id| < 0x1_0000
    case NewConnection(_, _, _, Some(V6(_, _, flow, scope))) => flow == 0 && scope == 0
    case _ => true
  }

  /** An Auth payload, in its three parts. */
  lemma AuthRead(id: Text, secret: Text, p: Bytes)
    requires |id| < 0x1_0000 && p == U16Bytes(|id|) + id + secret
    ensures DecodeAuth(p) == Ok(Auth(secret, if id == [] then None else Some(id)))
  {
    hide ValidUtf8;
    assert p[0..2] == U16Bytes(|id|);
    assert p[2..2 + |id|] == id;
    assert p[2 + |id|..] == secret;
  }

  lemma AuthRoundTrip(secret: Text, uuid: Option<Text>)
    requires uuid.Some? ==> |uuid.value| < 0x1_0000
    ensures Decode(Encode(Auth(secret, uuid))) == Ok(Normal(Auth(secret, uuid)))
  {
    hide ValidUtf8, DecodeAuth;
    var id: Bytes := if uuid.Some? then uuid.value else [];
    var p := Body(Auth(secret, uuid));
    assert Encode(Auth(secret, uuid))[1..] == p;
    EmptyIsText();
    AuthRead(id, secret, p);
  }

  lemma EmptyIsText()
    ensures ValidUtf8([])
  {
  }

  /** The fixed part of an OpenTunnel payload, whatever follows it. */
  lemma OpenTunnelBase(m: Message, tail: Bytes, p: Bytes)
    requires m.OpenTunnel?
    requires p == U32Bytes(m.tunnelId) + U16Bytes(m.remotePort) + [ProtocolByte(m.protocol)] + tail
    ensures |p| == 7 + |tail| && p[7..] == tail
    ensures DecodeOpenTunnel(p) == Ok(m.(dbId := if |tail| >= 4 then U32Of(tail[0..4]) else 0))
  {
    U32RoundTrip(m.tunnelId);
    assert p[0..4] == U32Bytes(m.tunnelId);
    assert p[4..6] == U16Bytes(m.remotePort);
    assert p[6] == ProtocolByte(m.protocol);
    assert |tail| >= 4 ==> p[7..11] == tail[0..4];
  }

  lemma OpenTunnelRoundTrip(m: Message)
    requires m.OpenTunnel?
    ensures |Encode(m)| == 12 && Decode(Encode(m)) == Ok(m)
  {
    assert Encode(m)[1..] == Body(m);
    U32RoundTrip(m.dbId);
    OpenTunnelBase(m, U32Bytes(m.dbId), Body(m));
    assert U32Bytes(m.dbId)[0..4] == U32Bytes(m.dbId);
  }

  /** The fixed part of a NewConnection payload, whatever follows it. */
  lemma NewConnectionBase(m: Message, tail: Bytes, p: Bytes)
    requires m.NewConnection?
    requires p == U32Bytes(m.tunnelId) + U64Bytes(m.streamId) + [if m.isUdp then 1 else 0] + tail
    ensures |p| == 13 + |tail| && p[13..] == tail
    ensures DecodeNewConnection(p) == Ok(NewConnection(m.tunnelId, m.streamId, m.isUdp, DecodePeer(p)))
  {
    U32RoundTrip(m.tunnelId);
    U64RoundTrip(m.streamId);
    assert p[0..4] == U32Bytes(m.tunnelId) && p[4..12] == U64Bytes(m.streamId);
    assert p[12] == if m.isUdp then 1 else 0;
  }

  lemma PeerRoundTrip(p: Bytes, peer: SocketAddr)
    requires |p| >= 13 && p[13..] == PeerBytes(Some(peer))
    ensures DecodePeer(p) == Some(if peer.V6? then V6(peer.ip6, peer.port, 0, 0) else peer)
  {
    var tail := p[13..];
    assert forall i :: 0 <= i < |tail| ==> p[13 + i] == tail[i];
    assert p[13..15] == tail[0..2] == U16Bytes(peer.port);
    assert p[15] == tail[2];
    if peer.V4? {
      assert p[16..20] == tail[3..7] == peer.ip4;
    } else {
      assert p[16..32] == tail[3..19] == peer.ip6;
    }
  }

  lemma NewConnectionRoundTrip(m: Message)
    requires m.NewConnection?
    ensures |Encode(m)| <= 33 && Decode(Encode(m)) == Ok(Normal(m))
  {
    var p := Body(m);
    assert Encode(m)[1..] == p;
    NewConnectionBase(m, PeerBytes(m.peerAddr), p);
    if m.peerAddr.Some? {
      PeerRoundTrip(p, m.peerAddr.value);
    }
  }

  lemma TunnelIdRoundTrip(m: Message)
    requires m.TunnelOpened? || m.CloseTunnel?
    ensures |Encode(m)| == 5 && Decode(Encode(m)) == Ok(m)
  {
    var p := Body(m);
    U32RoundTrip(m.tunnelId);
    assert Encode(m)[1..] == p;
    assert p[0..4] == U32Bytes(m.tunnelId);
  }

  /** Every message whose UUID fits its length field is decoded to its normal form. */
  lemma DecodeEncode(m: Message)
    requires FitsLength(m)
    ensures Decode(Encode(m)) == Ok(Normal(m))
  {
    match m
    case Auth(secret, uuid) => AuthRoundTrip(secret, uuid);
    case AuthFailed(reason) => assert Encode(m)[1..] == reason;
    case OpenTunnel(_, _, _, _) => OpenTunnelRoundTrip(m);
    case TunnelOpened(_) => TunnelIdRoundTrip(m);
    case CloseTunnel(_) => TunnelIdRoundTrip(m);
    case NewConnection(_, _, _, _) => NewConnectionRoundTrip(m);
    case AuthOk =>
    case Ping =>
    case Pong =>
  }

  /** A UUID of 65536 bytes or more is never read back: the decoder sees a shorter one. */
  lemma OversizedUuidIsLost(m: Message)
    requires !FitsLength(m)
    ensures Decode(Encode(m)) != Ok(m)
  {
    var id := m.clientUuid.value;
    var p := Body(m);
    assert Encode(m)[1..] == p;
    assert p[0..2] == U16Bytes(|id| % 0x1_0000);
    var r := DecodeAuth(p);
    if r.Ok? && r.value.clientUuid.Some? {
      assert |r.value.clientUuid.value| == |id| % 0x1_0000;
    }
  }

  /** Decoding inverts encoding exactly on the faithful messages. */
  lemma {:induction false} RoundTripExactly(m: Message)
    ensures Decode(Encode(m)) == Ok(m) <==> Faithful(m)
  {
    hide Encode, Decode;
    if FitsLength(m) {
      DecodeEncode(m);
      NormalExactly(m);
    } else {
      OversizedUuidIsLost(m);
    }
  }

  lemma NormalExactly(m: Message)
    requires FitsLength(m)
    ensures Normal(m) == m <==> Faithful(m)
  {
  }

  lemma AcceptedAuth(p: Bytes)
    requires DecodeAuth(p).Ok?
    ensures var m := DecodeAuth(p).value; m.Auth? && Faithful(m) && |Encode(m)| == 1 + |p|
  {
  }

  lemma AcceptedSize(data: Bytes)
    requires Decode(data).Ok?
    ensures var m := Decode(data).value; Faithful(m) && (|Encode(m)| <= |data| || |Encode(m)| <= 33)
  {
    var m := Decode(data).value;
    if m.Auth? {
      AcceptedAuth(data[1..]);
    } else if m.AuthFailed? {
      assert |Encode(m)| == |data|;
    } else if m.NewConnection? {
      NewConnectionRoundTrip(m);
    } else if m.OpenTunnel? {
      OpenTunnelRoundTrip(m);
    } else if m.TunnelOpened? || m.CloseTunnel? {
      TunnelIdRoundTrip(m);
    }
  }

  /** Whatever the decoder accepts can be sent on and reads back the same, in no more bytes than a frame allows. */
  lemma {:induction false} AcceptedIsFaithful(data: Bytes)
    requires Decode(data).Ok?
    ensures var m := Decode(data).value;
      Faithful(m) && Decode(Encode(m)) == Ok(m) && (|Encode(m)| <= |data| || |Encode(m)| <= 33)
  {
    hide Encode, Decode;
    AcceptedSize(data);
    RoundTripExactly(Decode(data).value);
  }

  // ---------------------------------------------------------------- optional trailing fields

  /** Cutting OpenTunnel anywhere inside its trailing database id loses that id and nothing else. */
  lemma LegacyOpenTunnel(m: Message, cut: nat)
    requires m.OpenTunnel? && 8 <= cut < |Encode(m)|
    ensures Decode(Encode(m)[..cut]) == Ok(m.(dbId := 0))
  {
    U32RoundTrip(m.dbId);
    OpenTunnelBase(m, U32Bytes(m.dbId), Body(m));
    var q := Encode(m)[..cut][1..];
    assert q == Body(m)[..cut - 1];
    OpenTunnelBase(m, U32Bytes(m.dbId)[..cut - 8], q);
  }

  /** Cutting NewConnection after its 13-byte base, in the address or before it, loses the address and nothing else. */
  lemma LegacyNewConnection(m: Message, cut: nat)
    requires m.NewConnection? && 14 <= cut < |Encode(m)|
    ensures Decode(Encode(m)[..cut]) == Ok(m.(peerAddr := None))
  {
    var p := Body(m);
    NewConnectionBase(m, PeerBytes(m.peerAddr), p);
    var q := Encode(m)[..cut][1..];
    assert q == p[..cut - 1];
    NewConnectionBase(m, PeerBytes(m.peerAddr)[..cut - 14], q);
    var tail := PeerBytes(m.peerAddr);
    if |q| >= 16 {
      assert q[15] == p[15] == p[13..][2] == tail[2];
    }
  }

  // ---------------------------------------------------------------- frames

  function Header(len: u32, streamId: u64): Bytes {
    U32Bytes(len) + U64Bytes(streamId)
  }

  function WireStream(f: Frame): u64 {
    if f.Control? then CONTROL_STREAM else f.streamId
  }

  function WirePayload(f: Frame): Bytes {
    match f
    case Control(m) => Encode(m)
    case Data(_, payload) => payload
    case StreamClose(_) => []
  }

  /** The length field; lengths are cut to 32 bits, as `len() as u32` does. */
  function WireLength(f: Frame): u32 {
    if f.StreamClose? then FRAME_TYPE_STREAM_CLOSE else |WirePayload(f)| % 0x1_0000_0000
  }

  /** What the `write_*_noflush` functions put on the wire. */
  function FrameBytes(f: Frame): Bytes {
    Header(WireLength(f), WireStream(f)) + WirePayload(f)
  }

  /** The part of `read_frame` after the 12 header bytes. */
  function ParsePayload(len: u32, sid: u64, rest: Bytes): Result<(Frame, Bytes), WireError> {
    if len == FRAME_TYPE_STREAM_CLOSE then Ok((StreamClose(sid), rest)) else
    if len > MAX_PAYLOAD_SIZE then Err(FrameTooLarge) else
    if |rest| < len then Err(Truncated) else
    var payload, after := rest[..len], rest[len..];
    if sid == CONTROL_STREAM then
      var m := Decode(payload);
      if m.Ok? then Ok((Control(m.value), after)) else Err(m.error)
    else Ok((Data(sid, payload), after))
  }

  /** `read_frame` on the bytes received so far and nothing after them: a frame and the unread rest, or an error. */
  function ParseFrame(input: Bytes): (r: Result<(Frame, Bytes), WireError>)
    ensures r.Ok? ==> |r.value.1| <= |input| - 12
  {
    if |input| < 12 then Err(Truncated) else
    ParsePayload(U32Of(input[0..4]), U64Of(input[4..12]), input[12..])
  }

  /** The receiving end of a connection; `read_frame` takes the length, the stream and the payload off it in turn. */
  class FrameReader {
    var unread: Bytes

    constructor (input: Bytes)
      ensures unread == input
    {
      unread := input;
    }

    method ReadFrame() returns (r: Result<Frame, WireError>)
      modifies this
      ensures match ParseFrame(old(unread))
        case Ok((f, rest)) => r == Ok(f) && unread == rest
        case Err(e) => r == Err(e)
    {
      hide Decode, U64Of;
      if |unread| < 4 {
        return Err(Truncated);
      }
      var len := U32Of(unread[0..4]);
      unread := unread[4..];
      if |unread| < 8 {
        return Err(Truncated);
      }
      assert unread[0..8] == old(unread)[4..12] && unread[8..] == old(unread)[12..];
      var sid := U64Of(unread[0..8]);
      unread := unread[8..];
      if len == FRAME_TYPE_STREAM_CLOSE {
        return Ok(StreamClose(sid));
      }
      if len > MAX_PAYLOAD_SIZE {
        return Err(FrameTooLarge);
      }
      if |unread| < len {
        return Err(Truncated);
      }
      var payload := unread[..len];
      unread := unread[len..];
      if sid == CONTROL_STREAM {
        match Decode(payload) {
          case Ok(m) => return Ok(Control(m));
          case Err(e) => return Err(e);
        }
      }
      return Ok(Data(sid, payload));
    }
  }

  /** Frames whose encoding the reader takes for one frame. */
  predicate Encodable(f: Frame) {
    match f
    case Control(m) => FitsLength(m) && |Encode(m)| <= 1_048_576
    case Data(sid, payload) => sid != 0 && |payload| <= 1_048_576
    case StreamClose(_) => true
  }

  ghost predicate AllEncodable(frames: seq<Frame>) {
    forall f | f in frames :: Encodable(f)
  }

  function NormalFrame(f: Frame): Frame {
    if f.Control? then Control(Normal(f.msg)) else f
  }

  /** Frames that read back exactly as they were sent. */
  predicate FaithfulFrame(f: Frame) {
    Encodable(f) && (f.Control? ==> Faithful(f.msg))
  }

  /** The reader sees the header that was written, whatever follows it. */
  lemma HeaderRead(len: u32, sid: u64, tail: Bytes)
    ensures |Header(len, sid)| == 12
    ensures ParseFrame(Header(len, sid) + tail) == ParsePayload(len, sid, tail)
  {
    U32RoundTrip(len);
    U64RoundTrip(sid);
    var input := Header(len, sid) + tail;
    assert input[0..4] == U32Bytes(len) && input[4..12] == U64Bytes(sid) && input[12..] == tail;
  }

  /**
   * The bytes of every frame: the payload's length, or 0xFFFFFFFF for the close of a stream, in four bytes, then the
   * stream in eight, 0 for a control message, each with the most significant byte first, then the payload.
   */
  lemma FrameLayout(f: Frame)
    ensures var b := FrameBytes(f);
      && |b| >= 12
      && match f
         case Control(m) => Big(b[0..4]) == |Encode(m)| % 0x1_0000_0000 && Big(b[4..12]) == 0 && b[12..] == Encode(m)
         case Data(sid, payload) =>
           Big(b[0..4]) == |payload| % 0x1_0000_0000 && Big(b[4..12]) == sid && b[12..] == payload
         case StreamClose(sid) => Big(b[0..4]) == 4294967295 && Big(b[4..12]) == sid && |b| == 12
  {
    hide Encode, Big;
    BigEndian(WireLength(f));
    BigEndian(WireStream(f));
    hide U32Bytes, U64Bytes;
    var b := FrameBytes(f);
    assert b[0..4] == U32Bytes(WireLength(f)) && b[4..12] == U64Bytes(WireStream(f)) && b[12..] == WirePayload(f);
  }

  /** Reading back a written frame, in terms of its length field, its stream and its payload. */
  lemma FrameRead(f: Frame, rest: Bytes)
    ensures |FrameBytes(f)| == 12 + |WirePayload(f)|
    ensures ParseFrame(FrameBytes(f) + rest) == ParsePayload(WireLength(f), WireStream(f), WirePayload(f) + rest)
  {
    hide Encode, Decode, Header;
    HeaderRead(WireLength(f), WireStream(f), WirePayload(f) + rest);
    Associative(Header(WireLength(f), WireStream(f)), WirePayload(f), rest);
  }

  lemma ParseWholePayload(len: u32, sid: u64, payload: Bytes, rest: Bytes)
    requires len == |payload| <= MAX_PAYLOAD_SIZE
    ensures ParsePayload(len, sid, payload + rest) ==
      if sid != CONTROL_STREAM then Ok((Data(sid, payload), rest))
      else if Decode(payload).Ok? then Ok((Control(Decode(payload).value), rest))
      else Err(Decode(payload).error)
  {
    assert (payload + rest)[..len] == payload && (payload + rest)[len..] == rest;
  }

  lemma ParseControl(m: Message, payload: Bytes, rest: Bytes)
    requires |payload| <= MAX_PAYLOAD_SIZE && Decode(payload) == Ok(m)
    ensures ParseFrame((Header(|payload|, CONTROL_STREAM) + payload) + rest) == Ok((Control(m), rest))
  {
    HeaderRead(|payload|, CONTROL_STREAM, payload + rest);
    Associative(Header(|payload|, CONTROL_STREAM), payload, rest);
    ParseWholePayload(|payload|, CONTROL_STREAM, payload, rest);
  }

  lemma ParseStreamClose(sid: u64, rest: Bytes)
    ensures ParseFrame((Header(FRAME_TYPE_STREAM_CLOSE, sid) + []) + rest) == Ok((StreamClose(sid), rest))
  {
    hide Header;
    HeaderRead(FRAME_TYPE_STREAM_CLOSE, sid, rest);
    assert (Header(FRAME_TYPE_STREAM_CLOSE, sid) + []) + rest == Header(FRAME_TYPE_STREAM_CLOSE, sid) + rest;
  }

  lemma ParseData(sid: u64, payload: Bytes, rest: Bytes)
    requires sid != CONTROL_STREAM && |payload| <= MAX_PAYLOAD_SIZE
    ensures ParseFrame((Header(|payload|, sid) + payload) + rest) == Ok((Data(sid, payload), rest))
  {
    hide Header;
    HeaderRead(|payload|, sid, payload + rest);
    Associative(Header(|payload|, sid), payload, rest);
    ParseWholePayload(|payload|, sid, payload, rest);
  }

  /** One encoded frame followed by anything is read back as that frame, leaving exactly what follows. */
  lemma {:induction false} ParseEncoded(f: Frame, rest: Bytes)
    requires Encodable(f)
    ensures ParseFrame(FrameBytes(f) + rest) == Ok((NormalFrame(f), rest))
  {
    hide Encode, Decode, Header, ParseFrame, Normal, FitsLength;
    match f
    case Control(m) =>
      DecodeEncode(m);
      ParseControl(Normal(m), Encode(m), rest);
    case Data(sid, payload) => ParseData(sid, payload, rest);
    case StreamClose(sid) => ParseStreamClose(sid, rest);
  }

  /** A payload over the limit never reads back: it is refused, or cut so that too much is left unread. */
  lemma OversizedFrameIsLost(f: Frame, rest: Bytes)
    requires |WirePayload(f)| > MAX_PAYLOAD_SIZE
    ensures ParseFrame(FrameBytes(f) + rest) != Ok((f, rest))
  {
    FrameRead(f, rest);
    var r := ParsePayload(WireLength(f), WireStream(f), WirePayload(f) + rest);
    if r.Ok? && WireLength(f) != FRAME_TYPE_STREAM_CLOSE {
      assert |r.value.1| == |WirePayload(f)| + |rest| - WireLength(f) > |rest|;
    }
  }

  lemma UnfaithfulFrameIsLost(f: Frame, rest: Bytes)
    requires !FaithfulFrame(f)
    ensures ParseFrame(FrameBytes(f) + rest) != Ok((f, rest))
  {
    hide Encode, Decode, Header;
    if |WirePayload(f)| > MAX_PAYLOAD_SIZE {
      OversizedFrameIsLost(f, rest);
    } else {
      FrameRead(f, rest);
      ParseWholePayload(WireLength(f), WireStream(f), WirePayload(f), rest);
      if f.Control? {
        RoundTripExactly(f.msg);
      }
    }
  }

  /** Writing then reading a frame gives it back exactly when it is faithful, for every byte that may follow. */
  lemma {:induction false} FrameRoundTripExactly(f: Frame, rest: Bytes)
    ensures ParseFrame(FrameBytes(f) + rest) == Ok((f, rest)) <==> FaithfulFrame(f)
  {
    if FaithfulFrame(f) {
      ParseEncoded(f, rest);
      if f.Control? {
        RoundTripExactly(f.msg);
        DecodeEncode(f.msg);
      }
    } else {
      UnfaithfulFrameIsLost(f, rest);
    }
  }

  /** A frame taken off any byte stream, when sent on, is read back the same. */
  lemma ReadThenResend(input: Bytes, rest: Bytes)
    requires ParseFrame(input).Ok?
    ensures var f := ParseFrame(input).value.0;
      ParseFrame(FrameBytes(f) + rest) == Ok((f, rest))
  {
    var f := ParseFrame(input).value.0;
    if f.Control? {
      AcceptedIsFaithful(input[12..][..U32Of(input[0..4])]);
    }
    FrameRoundTripExactly(f, rest);
  }

  lemma CutPayload(len: u32, sid: u64, payload: Bytes, cut: nat)
    requires len == FRAME_TYPE_STREAM_CLOSE ==> payload == []
    requires len != FRAME_TYPE_STREAM_CLOSE ==> len == |payload| <= MAX_PAYLOAD_SIZE
    requires cut < |Header(len, sid) + payload|
    ensures ParseFrame((Header(len, sid) + payload)[..cut]) == Err(Truncated)
  {
    HeaderRead(len, sid, payload);
    if cut >= 12 {
      var part := payload[..cut - 12];
      HeaderRead(len, sid, part);
      assert (Header(len, sid) + payload)[..cut] == Header(len, sid) + part;
    }
  }

  /** Cutting one encoded frame anywhere before its end leaves nothing to read but an error. */
  lemma CutFrame(f: Frame, cut: nat)
    requires Encodable(f) && cut < |FrameBytes(f)|
    ensures ParseFrame(FrameBytes(f)[..cut]) == Err(Truncated)
  {
    hide Encode, Decode, Header;
    CutPayload(WireLength(f), WireStream(f), WirePayload(f), cut);
  }
}
