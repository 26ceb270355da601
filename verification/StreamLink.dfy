/**
 * Player streams over one live connection, as a transition system: the server's and the client's tables, a
 * first-in first-out queue each way, and what every socket read or handed on so far.
 */
module StreamLink {
  import opened Base
  import opened Wire
  import Client
  import Server

  // ---------------------------------------------------------------- states and steps

  const TCP_READ_BUFFER: nat := 65536
  const UDP_READ_BUFFER: nat := 65535

  /**
   * `tcp` and `udp` are all stream ids given out so far, `spawned` those the client has started a task for.
   * The last four record, per stream, the bytes read from the player, handed to the local stream's channel,
   * read from the local server, and handed to the player stream's channel.
   */
  datatype Link = Link(
    server: Server.Tables,
    client: Client.Tables,
    up: seq<Frame>,
    down: seq<Frame>,
    nextSid: nat,
    tcp: set<u64>,
    udp: set<u64>,
    spawned: set<u64>,
    fromPlayer: map<u64, Bytes>,
    toLocal: map<u64, Bytes>,
    fromLocal: map<u64, Bytes>,
    toPlayer: map<u64, Bytes>)

  const START := Link(Server.EMPTY_TABLES, Client.EMPTY_TABLES, [], [], 1, {}, {}, {}, map[], map[], map[], map[])

  datatype Event =
    | AcceptTcp(tid: u32, peer: SocketAddr)
    | OpenUdp(tid: u32, addr: SocketAddr, socket: nat)
    | PlayerSends(sid: u64, payload: Bytes)
    | PlayerCloses(sid: u64)
    | UdpExpires(sid: u64)
    | LocalSends(sid: u64, payload: Bytes)
    | LocalCloses(sid: u64)
    | ClientControl(msg: Message, tables: Client.Tables)
    | ServerReceives(choice: Server.Choice)
    | ClientReceives(taken: bool)

  function Known(l: Link): set<u64> {
    l.tcp + l.udp
  }

  predicate Enabled(l: Link, e: Event) {
    match e
    case AcceptTcp(_, _) => l.nextSid < MAX_STREAM_IDS
    case OpenUdp(_, _, _) => l.nextSid < MAX_STREAM_IDS
    case PlayerSends(sid, payload) =>
      (sid in l.tcp && 0 < |payload| <= TCP_READ_BUFFER) || (sid in l.udp && |payload| <= UDP_READ_BUFFER)
    case PlayerCloses(sid) => sid in l.tcp
    case UdpExpires(sid) => sid in l.udp
    case LocalSends(sid, payload) => sid in l.spawned && |payload| <= TCP_READ_BUFFER
    case LocalCloses(sid) => sid in l.spawned
    case ClientControl(m, t) =>
      && (m.OpenTunnel? || m.CloseTunnel? || m.Ping?)
      && t.streams == l.client.streams && t.streamTunnel == l.client.streamTunnel
    case ServerReceives(c) => l.up != [] && Server.ChoiceFits(l.server, l.up[0], c)
    case ClientReceives(_) => l.down != []
  }

  function Appended(m: map<u64, Bytes>, sid: u64, payload: Bytes): map<u64, Bytes> {
    m[sid := Accumulated(m, sid) + payload]
  }

  /** One step; an event that is not enabled changes nothing. */
  function Step(l: Link, e: Event): Link {
    if !Enabled(l, e) then l else
    match e
    case AcceptTcp(tid, peer) =>
      var (t, out) := Server.AcceptTcp(l.server, tid, l.nextSid, peer);
      l.(server := t, down := l.down + out, nextSid := l.nextSid + 1, tcp := l.tcp + {l.nextSid})
    case OpenUdp(tid, addr, socket) =>
      var (t, out) := Server.RegisterUdp(l.server, tid, l.nextSid, addr, socket);
      l.(server := t, down := l.down + out, nextSid := l.nextSid + 1, udp := l.udp + {l.nextSid})
    case PlayerSends(sid, payload) =>
      l.(down := l.down + [Data(sid, payload)], fromPlayer := Appended(l.fromPlayer, sid, payload))
    case PlayerCloses(sid) =>
      var (t, out) := Server.PlayerClosed(l.server, sid);
      l.(server := t, down := l.down + out)
    case UdpExpires(sid) =>
      var (t, out) := Server.ExpireUdp(l.server, sid);
      l.(server := t, down := l.down + out)
    case LocalSends(sid, payload) =>
      l.(up := l.up + [Data(sid, payload)], fromLocal := Appended(l.fromLocal, sid, payload))
    case LocalCloses(sid) =>
      var (t, out) := Client.LocalClosed(l.client, sid);
      l.(client := t, up := l.up + out)
    case ClientControl(m, t) => l.(client := t, up := l.up + [Control(m)])
    case ServerReceives(c) => ServerStep(l, c)
    case ClientReceives(taken) => ClientStep(l, taken)
  }

  /** The server handles its next frame; bytes for a TCP stream whose player still takes them are handed on. */
  function ServerStep(l: Link, c: Server.Choice): Link
    requires l.up != []
  {
    var f := l.up[0];
    var (t, out) := Server.OnFrame(l.server, f, c);
    l.(server := t, up := l.up[1..], down := l.down + out,
       toPlayer := if f.Data? && f.streamId in l.server.streams && c.taken
                   then Appended(l.toPlayer, f.streamId, f.payload) else l.toPlayer)
  }

  /** The client handles its next frame; a NewConnection starts the task of its stream. */
  function ClientStep(l: Link, taken: bool): Link
    requires l.down != []
  {
    var f := l.down[0];
    var (t, out) := Client.OnFrame(l.client, f, taken);
    l.(client := t, down := l.down[1..], up := l.up + out,
       spawned := if f.Control? && f.msg.NewConnection? then l.spawned + {f.msg.streamId} else l.spawned,
       toLocal := if f.Data? && f.streamId in l.client.streams && taken
                  then Appended(l.toLocal, f.streamId, f.payload) else l.toLocal)
  }

  function Run(events: seq<Event>): Link {
    if events == [] then START else Step(Run(events[..|events| - 1]), events[|events| - 1])
  }

  lemma OneMore(before: seq<Event>, e: Event)
    ensures Run(before + [e]) == Step(Run(before), e)
  {
    hide Step;
    assert (before + [e])[..|before|] == before;
  }

  lemma Receives(l: Link, c: Server.Choice)
    requires Enabled(l, ServerReceives(c))
    ensures l.up != [] && Server.ChoiceFits(l.server, l.up[0], c)
    ensures Step(l, ServerReceives(c)) == ServerStep(l, c)
  {
    hide ServerStep, Server.ChoiceFits;
  }

  // ---------------------------------------------------------------- one stream's view of a queue

  predicate Announces(f: Frame, x: u64) {
    f.Control? && f.msg.NewConnection? && f.msg.streamId == x
  }

  function Announcements(q: seq<Frame>, x: u64): nat {
    if q == [] then 0 else (if Announces(q[0], x) then 1 else 0) + Announcements(q[1..], x)
  }

  /** Whether the client has stream `x` once it has handled `f`, if it had it before (`reg`) or not. */
  function NextReg(reg: bool, f: Frame, x: u64): bool {
    if Announces(f, x) then true else if f == StreamClose(x) then false else reg
  }

  /** Replaying a whole queue on the client's table, for one stream. */
  function Registered(reg: bool, q: seq<Frame>, x: u64): bool
    decreases q
  {
    if q == [] then reg else Registered(NextReg(reg, q[0], x), q[1..], x)
  }

  function PayloadOf(f: Frame, x: u64): Bytes {
    if f.Data? && f.streamId == x then f.payload else []
  }

  /** The bytes of stream `x` that a client replaying the queue will hand on. */
  function WillDeliver(reg: bool, q: seq<Frame>, x: u64): Bytes
    decreases q
  {
    if q == [] then []
    else (if reg then PayloadOf(q[0], x) else []) + WillDeliver(NextReg(reg, q[0], x), q[1..], x)
  }

  /** All bytes of stream `x` in a queue. */
  function Pending(q: seq<Frame>, x: u64): Bytes {
    if q == [] then [] else PayloadOf(q[0], x) + Pending(q[1..], x)
  }

  lemma {:induction false} AppendRegistered(q: seq<Frame>, f: Frame, reg: bool, x: u64)
    ensures Registered(reg, q + [f], x) == NextReg(Registered(reg, q, x), f, x)
    decreases q
  {
    if q == [] {
      assert q + [f] == [f] && [f][1..] == [];
    } else {
      assert (q + [f])[0] == q[0] && (q + [f])[1..] == q[1..] + [f];
      AppendRegistered(q[1..], f, NextReg(reg, q[0], x), x);
    }
  }

  lemma {:induction false} AppendDelivers(q: seq<Frame>, f: Frame, reg: bool, x: u64)
    ensures WillDeliver(reg, q + [f], x) ==
      WillDeliver(reg, q, x) + if Registered(reg, q, x) then PayloadOf(f, x) else []
    decreases q
  {
    if q == [] {
      assert q + [f] == [f] && [f][1..] == [];
    } else {
      assert (q + [f])[0] == q[0] && (q + [f])[1..] == q[1..] + [f];
      AppendDelivers(q[1..], f, NextReg(reg, q[0], x), x);
    }
  }

  lemma {:induction false} AppendAnnouncements(q: seq<Frame>, f: Frame, x: u64)
    ensures Announcements(q + [f], x) == Announcements(q, x) + if Announces(f, x) then 1 else 0
    decreases q
  {
    if q == [] {
      assert q + [f] == [f] && [f][1..] == [];
    } else {
      assert (q + [f])[0] == q[0] && (q + [f])[1..] == q[1..] + [f];
      AppendAnnouncements(q[1..], f, x);
    }
  }

  lemma {:induction false} AppendPending(q: seq<Frame>, f: Frame, x: u64)
    ensures Pending(q + [f], x) == Pending(q, x) + PayloadOf(f, x)
    decreases q
  {
    if q == [] {
      assert q + [f] == [f] && [f][1..] == [];
    } else {
      assert (q + [f])[0] == q[0] && (q + [f])[1..] == q[1..] + [f];
      AppendPending(q[1..], f, x);
    }
  }

  lemma AppendFrame(q: seq<Frame>, f: Frame, reg: bool, x: u64)
    ensures Registered(reg, q + [f], x) == NextReg(Registered(reg, q, x), f, x)
    ensures WillDeliver(reg, q + [f], x) ==
      WillDeliver(reg, q, x) + if Registered(reg, q, x) then PayloadOf(f, x) else []
    ensures Announcements(q + [f], x) == Announcements(q, x) + if Announces(f, x) then 1 else 0
    ensures Pending(q + [f], x) == Pending(q, x) + PayloadOf(f, x)
  {
    hide *;
    AppendRegistered(q, f, reg, x);
    AppendDelivers(q, f, reg, x);
    AppendAnnouncements(q, f, x);
    AppendPending(q, f, x);
  }

  /** What the head of a queue contributes. */
  lemma TakeFrame(q: seq<Frame>, reg: bool, x: u64)
    requires q != []
    ensures Registered(reg, q, x) == Registered(NextReg(reg, q[0], x), q[1..], x)
    ensures WillDeliver(reg, q, x) ==
      (if reg then PayloadOf(q[0], x) else []) + WillDeliver(NextReg(reg, q[0], x), q[1..], x)
    ensures Announcements(q, x) == (if Announces(q[0], x) then 1 else 0) + Announcements(q[1..], x)
    ensures Pending(q, x) == PayloadOf(q[0], x) + Pending(q[1..], x)
    ensures !reg || PayloadOf(q[0], x) == [] ==> WillDeliver(reg, q, x) == WillDeliver(NextReg(reg, q[0], x), q[1..], x)
    ensures PayloadOf(q[0], x) == [] ==> Pending(q, x) == Pending(q[1..], x)
    ensures forall f :: f in q <==> f == q[0] || f in q[1..]
  {
    assert q == [q[0]] + q[1..];
  }

  lemma {:induction false} AppendCloses(q: seq<Frame>, order: seq<u64>, reg: bool, x: u64)
    ensures var q' := q + Server.StreamCloses(order);
      && Registered(reg, q', x) == (Registered(reg, q, x) && x !in order)
      && WillDeliver(reg, q', x) == WillDeliver(reg, q, x)
      && Announcements(q', x) == Announcements(q, x)
      && Pending(q', x) == Pending(q, x)
    decreases order
  {
    var closes := Server.StreamCloses(order);
    if order == [] {
      assert q + closes == q;
    } else {
      var n := |order| - 1;
      assert q + closes == (q + Server.StreamCloses(order[..n])) + [StreamClose(order[n])];
      AppendCloses(q, order[..n], reg, x);
      AppendFrame(q + Server.StreamCloses(order[..n]), StreamClose(order[n]), reg, x);
    }
  }

  /** Without an announcement in the queue, a stream the client does not have stays unknown to it. */
  lemma {:induction false} NotAnnounced(q: seq<Frame>, x: u64)
    requires Announcements(q, x) == 0
    ensures !Registered(false, q, x) && WillDeliver(false, q, x) == []
  {
    if q != [] {
      NotAnnounced(q[1..], x);
    }
  }

  // ---------------------------------------------------------------- the invariant

  /** Every stream is announced exactly once: its announcement is either under way or has been handled. */
  ghost predicate AnnouncedOnce(l: Link, x: u64) {
    (if x in l.spawned then 1 else 0) + Announcements(l.down, x) == if x in Known(l) then 1 else 0
  }

  /** Nothing came up the link for a stream the client has no task for. */
  ghost predicate SilentBefore(l: Link, x: u64) {
    x !in l.spawned ==> StreamClose(x) !in l.up && Pending(l.up, x) == [] && Accumulated(l.fromLocal, x) == []
  }

  /** The server's tables on stream `x`. */
  ghost predicate ServerRow(l: Link, x: u64) {
    && (x in l.server.streams ==> x in l.tcp)
    && (x in l.server.udpPeers ==> x in l.udp)
    && (x in l.server.streamTunnel <==> x in l.server.streams || x in l.server.udpPeers)
    && (x !in Known(l) ==> Accumulated(l.fromPlayer, x) == [])
    && (x in Known(l) ==> 0 < x < l.nextSid)
    && !(x in l.tcp && x in l.udp)
  }

  ghost predicate ClientRow(l: Link, x: u64) {
    (x in l.client.streams <==> x in l.client.streamTunnel) && (x in l.client.streams ==> x in l.spawned)
  }

  /** The server has the stream and no close of it is on its way there, exactly when the client will have it. */
  ghost predicate Agrees(l: Link, x: u64) {
    x in l.server.streamTunnel && StreamClose(x) !in l.up <==> Registered(x in l.client.streams, l.down, x)
  }

  /**
   * What was and will be handed to the local stream is a prefix of what the player sent, and all of it while the
   * stream lives.
   */
  ghost predicate DownBytes(l: Link, x: u64) {
    var reg := x in l.client.streams;
    var handed := Accumulated(l.toLocal, x) + WillDeliver(reg, l.down, x);
    && handed <= Accumulated(l.fromPlayer, x)
    && (Registered(reg, l.down, x) ==> handed == Accumulated(l.fromPlayer, x))
  }

  ghost predicate UpBytes(l: Link, x: u64) {
    && Accumulated(l.toPlayer, x) <= Accumulated(l.fromLocal, x)
    && (x in l.server.streams ==> Accumulated(l.toPlayer, x) + Pending(l.up, x) == Accumulated(l.fromLocal, x))
  }

  ghost predicate StreamOk(l: Link, x: u64) {
    && AnnouncedOnce(l, x) && SilentBefore(l, x) && ServerRow(l, x) && ClientRow(l, x)
    && Agrees(l, x) && DownBytes(l, x) && UpBytes(l, x)
  }

  ghost predicate Invariant(l: Link) {
    && l.nextSid > 0
    && AllEncodable(l.up) && AllEncodable(l.down)
    && forall x :: StreamOk(l, x)
  }

  // ---------------------------------------------------------------- what each step does to one stream

  lemma OpenStream(l: Link, l': Link, f: Frame, x: u64)
    requires StreamOk(l, x) && 0 < l.nextSid < MAX_STREAM_IDS
    requires f.Control? && f.msg.NewConnection? && f.msg.streamId == l.nextSid
    requires l'.down == l.down + [f] && l'.nextSid == l.nextSid + 1
    requires (l'.client, l'.up, l'.spawned) == (l.client, l.up, l.spawned)
    requires l'.fromPlayer == l.fromPlayer && l'.toLocal == l.toLocal
    requires l'.fromLocal == l.fromLocal && l'.toPlayer == l.toPlayer
    requires x != l.nextSid ==>
      && (x in l'.tcp <==> x in l.tcp) && (x in l'.udp <==> x in l.udp)
      && (x in l'.server.streams <==> x in l.server.streams)
      && (x in l'.server.udpPeers <==> x in l.server.udpPeers)
      && (x in l'.server.streamTunnel <==> x in l.server.streamTunnel)
    requires x == l.nextSid ==>
      && x in l'.server.streamTunnel
      && (x in l'.tcp <==> x in l'.server.streams) && (x in l'.udp <==> x in l'.server.udpPeers)
      && (x in l'.tcp <==> x !in l'.udp)
    ensures StreamOk(l', x)
  {
    hide Registered, WillDeliver, Announcements, Pending;
    AppendFrame(l.down, f, x in l.client.streams, x);
    if x == l.nextSid {
      assert x !in Known(l) && x !in l.spawned;
      NotAnnounced(l.down, x);
    }
  }

  lemma StepAcceptTcp(l: Link, tid: u32, peer: SocketAddr, x: u64)
    requires Invariant(l) && Enabled(l, AcceptTcp(tid, peer))
    ensures StreamOk(Step(l, AcceptTcp(tid, peer)), x)
  {
    hide StreamOk;
    var l' := Step(l, AcceptTcp(tid, peer));
    NewIsUnused(l);
    OpenStream(l, l', Control(NewConnection(tid, l.nextSid, false, Some(peer))), x);
  }

  lemma NewIsUnused(l: Link)
    requires Invariant(l) && l.nextSid < MAX_STREAM_IDS
    ensures l.nextSid !in Known(l) && l.nextSid !in l.server.streams && l.nextSid !in l.server.udpPeers
  {
    assert StreamOk(l, l.nextSid);
  }

  lemma StepOpenUdp(l: Link, tid: u32, addr: SocketAddr, socket: nat, x: u64)
    requires Invariant(l) && Enabled(l, OpenUdp(tid, addr, socket))
    ensures StreamOk(Step(l, OpenUdp(tid, addr, socket)), x)
  {
    hide StreamOk;
    var l' := Step(l, OpenUdp(tid, addr, socket));
    NewIsUnused(l);
    OpenStream(l, l', Control(NewConnection(tid, l.nextSid, true, Some(addr))), x);
  }

  lemma StepPlayerSends(l: Link, sid: u64, payload: Bytes, x: u64)
    requires StreamOk(l, x) && sid in Known(l)
    ensures StreamOk(l.(down := l.down + [Data(sid, payload)], fromPlayer := Appended(l.fromPlayer, sid, payload)), x)
  {
    hide Registered, WillDeliver, Announcements, Pending;
    var reg := x in l.client.streams;
    AppendFrame(l.down, Data(sid, payload), reg, x);
    if x == sid {
      Associative(Accumulated(l.toLocal, x), WillDeliver(reg, l.down, x), payload);
    } else {
      assert WillDeliver(reg, l.down + [Data(sid, payload)], x) == WillDeliver(reg, l.down, x);
    }
  }

  /** The server forgets stream `sid` and tells the client so. */
  lemma ServerDrops(l: Link, l': Link, sid: u64, x: u64)
    requires StreamOk(l, x)
    requires l'.server == l.server.(streams := l'.server.streams, udpPeers := l'.server.udpPeers,
                                    streamTunnel := l'.server.streamTunnel)
    requires x != sid ==>
      && (x in l'.server.streams <==> x in l.server.streams)
      && (x in l'.server.udpPeers <==> x in l.server.udpPeers)
      && (x in l'.server.streamTunnel <==> x in l.server.streamTunnel)
    requires x == sid ==> x !in l'.server.streams && x !in l'.server.udpPeers && x !in l'.server.streamTunnel
    requires l' == l.(server := l'.server, down := l.down + [StreamClose(sid)])
    ensures StreamOk(l', x)
  {
    hide Registered, WillDeliver, Announcements, Pending;
    AppendFrame(l.down, StreamClose(sid), x in l.client.streams, x);
  }

  lemma StepPlayerCloses(l: Link, sid: u64, x: u64)
    requires StreamOk(l, x) && StreamOk(l, sid) && Enabled(l, PlayerCloses(sid))
    ensures StreamOk(Step(l, PlayerCloses(sid)), x)
  {
    assert sid !in l.server.udpPeers;
    hide StreamOk;
    ServerDrops(l, Step(l, PlayerCloses(sid)), sid, x);
  }

  lemma StepUdpExpires(l: Link, sid: u64, x: u64)
    requires StreamOk(l, x) && StreamOk(l, sid) && Enabled(l, UdpExpires(sid))
    ensures StreamOk(Step(l, UdpExpires(sid)), x)
  {
    assert sid !in l.server.streams;
    hide StreamOk;
    ServerDrops(l, Step(l, UdpExpires(sid)), sid, x);
  }

  lemma StepLocalSends(l: Link, sid: u64, payload: Bytes, x: u64)
    requires StreamOk(l, x) && Enabled(l, LocalSends(sid, payload))
    ensures StreamOk(Step(l, LocalSends(sid, payload)), x)
  {
    hide Registered, WillDeliver, Announcements, Pending;
    AppendFrame(l.up, Data(sid, payload), false, x);
    assert StreamClose(x) in l.up + [Data(sid, payload)] <==> StreamClose(x) in l.up;
    if x == sid {
      Associative(Accumulated(l.toPlayer, x), Pending(l.up, x), payload);
    } else {
      assert Pending(l.up + [Data(sid, payload)], x) == Pending(l.up, x);
    }
  }

  /** The client forgets stream `sid` and tells the server so. */
  lemma ClientDrops(l: Link, sid: u64, x: u64)
    requires StreamOk(l, x) && sid in l.spawned
    ensures StreamOk(l.(client := Client.WithoutStream(l.client, sid), up := l.up + [StreamClose(sid)]), x)
  {
    hide Registered, WillDeliver, Announcements, Pending;
    var l' := l.(client := Client.WithoutStream(l.client, sid), up := l.up + [StreamClose(sid)]);
    AppendFrame(l.up, StreamClose(sid), false, x);
    if x == sid {
      NotAnnounced(l.down, x);
      assert StreamClose(x) in l'.up;
    } else {
      assert StreamClose(x) in l'.up <==> StreamClose(x) in l.up;
    }
  }

  lemma StepClientControl(l: Link, m: Message, t: Client.Tables, x: u64)
    requires StreamOk(l, x) && Enabled(l, ClientControl(m, t))
    ensures StreamOk(Step(l, ClientControl(m, t)), x)
  {
    hide Registered, WillDeliver, Announcements, Pending;
    var l' := Step(l, ClientControl(m, t));
    AppendFrame(l.up, Control(m), false, x);
    assert StreamClose(x) in l'.up <==> StreamClose(x) in l.up;
  }

  // ---------------------------------------------------------------- the client handles a frame

  /** The local task no longer takes bytes, so the client drops the stream. */
  lemma ClientRefusesOwnData(l: Link, x: u64)
    requires StreamOk(l, x) && l.down != [] && l.down[0].Data?
    requires l.down[0].streamId == x && x in l.client.streams && x in l.spawned
    ensures StreamOk(ClientStep(l, false), x)
  {
    hide Registered, WillDeliver, Announcements, Pending;
    var l' := ClientStep(l, false);
    assert l'.up == l.up + [StreamClose(x)] && l'.down == l.down[1..];
    assert x !in l'.client.streams && x !in l'.client.streamTunnel;
    TakeFrame(l.down, true, x);
    NotAnnounced(l.down[1..], x);
    AppendFrame(l.up, StreamClose(x), false, x);
    hide Client.OnFrame;
    assert StreamClose(x) in l'.up;
  }

  lemma ClientRefusesOtherData(l: Link, x: u64)
    requires StreamOk(l, x) && l.down != [] && l.down[0].Data?
    requires l.down[0].streamId != x && l.down[0].streamId in l.client.streams
    ensures StreamOk(ClientStep(l, false), x)
  {
    hide Registered, WillDeliver, Announcements, Pending;
    TakeFrame(l.down, x in l.client.streams, x);
    var sid := l.down[0].streamId;
    var l' := ClientStep(l, false);
    AppendFrame(l.up, StreamClose(sid), false, x);
    assert l'.up == l.up + [StreamClose(sid)];
    assert StreamClose(x) in l'.up <==> StreamClose(x) in l.up;
  }

  lemma ClientTakesData(l: Link, taken: bool, x: u64)
    requires StreamOk(l, x) && l.down != [] && l.down[0].Data?
    requires l.down[0].streamId in l.client.streams ==> taken
    ensures StreamOk(ClientStep(l, taken), x)
  {
    hide Registered, WillDeliver, Announcements, Pending;
    TakeFrame(l.down, x in l.client.streams, x);
    var f, l' := l.down[0], ClientStep(l, taken);
    assert l'.up == l.up;
    var reg, rest := x in l.client.streams, l.down[1..];
    Associative(Accumulated(l.toLocal, x), PayloadOf(f, x), WillDeliver(reg, rest, x));
  }

  lemma ClientHandlesNewConnection(l: Link, taken: bool, x: u64)
    requires StreamOk(l, x) && l.down != [] && l.down[0].Control? && l.down[0].msg.NewConnection?
    ensures StreamOk(ClientStep(l, taken), x)
  {
    hide Registered, WillDeliver, Announcements, Pending;
    TakeFrame(l.down, x in l.client.streams, x);
    assert ClientStep(l, taken).up == l.up;
  }

  lemma ClientHandlesOwnClose(l: Link, taken: bool, x: u64)
    requires StreamOk(l, x) && l.down != [] && l.down[0] == StreamClose(x)
    ensures StreamOk(ClientStep(l, taken), x)
  {
    hide Registered, WillDeliver, Announcements, Pending;
    TakeFrame(l.down, x in l.client.streams, x);
    assert ClientStep(l, taken).up == l.up;
  }

  /** Taking a frame off the queue that does not concern stream `x`. */
  lemma ClientPops(l: Link, x: u64)
    requires StreamOk(l, x) && l.down != []
    requires PayloadOf(l.down[0], x) == [] && l.down[0] != StreamClose(x) && !Announces(l.down[0], x)
    ensures StreamOk(l.(down := l.down[1..]), x)
  {
    hide Registered, WillDeliver, Announcements, Pending;
    TakeFrame(l.down, x in l.client.streams, x);
  }

  lemma ClientKeeps(l: Link, t: Client.Tables, x: u64)
    requires StreamOk(l, x)
    requires (x in t.streams <==> x in l.client.streams) && (x in t.streamTunnel <==> x in l.client.streamTunnel)
    ensures StreamOk(l.(client := t), x)
  {
    hide Registered, WillDeliver, Announcements, Pending;
  }

  /** A close of another stream, or a control message that is not about streams. */
  lemma ClientHandlesOther(l: Link, taken: bool, x: u64)
    requires StreamOk(l, x) && l.down != [] && !l.down[0].Data? && l.down[0] != StreamClose(x)
    requires !(l.down[0].Control? && l.down[0].msg.NewConnection?)
    ensures StreamOk(ClientStep(l, taken), x)
  {
    ClientPops(l, x);
    hide StreamOk;
    var l' := ClientStep(l, taken);
    assert l'.up == l.up;
    ClientKeeps(l.(down := l.down[1..]), l'.client, x);
  }

  lemma StepClientReceives(l: Link, taken: bool, x: u64)
    requires Invariant(l) && l.down != []
    ensures StreamOk(ClientStep(l, taken), x)
  {
    var f := l.down[0];
    assert StreamOk(l, x);
    if f.Data? {
      if f.streamId in l.client.streams && !taken {
        assert StreamOk(l, f.streamId);
        if f.streamId == x {
          ClientRefusesOwnData(l, x);
        } else {
          ClientRefusesOtherData(l, x);
        }
      } else {
        ClientTakesData(l, taken, x);
      }
    } else {
      if f.Control? && f.msg.NewConnection? {
        ClientHandlesNewConnection(l, taken, x);
      } else if f == StreamClose(x) {
        ClientHandlesOwnClose(l, taken, x);
      } else {
        ClientHandlesOther(l, taken, x);
      }
    }
  }

  // ---------------------------------------------------------------- the server handles a frame

  /** Taking a frame off the queue that does not concern stream `x`. */
  lemma {:induction false} ServerPops(l: Link, x: u64)
    requires StreamOk(l, x) && l.up != [] && PayloadOf(l.up[0], x) == [] && l.up[0] != StreamClose(x)
    ensures StreamOk(l.(up := l.up[1..]), x)
  {
    hide Registered, WillDeliver, Announcements, Pending;
    TakeFrame(l.up, false, x);
  }

  /** Bytes for the stream itself: handed on, refused, or too late. */
  lemma ServerHandlesOwnData(l: Link, c: Server.Choice, x: u64)
    requires StreamOk(l, x) && l.up != [] && l.up[0].Data? && l.up[0].streamId == x
    ensures StreamOk(ServerStep(l, c), x)
  {
    hide Registered, WillDeliver, Announcements, Pending;
    TakeFrame(l.up, false, x);
    var l', p, rest := ServerStep(l, c), l.up[0].payload, l.up[1..];
    Associative(Accumulated(l.toPlayer, x), p, Pending(rest, x));
    if x in l.server.streams && !c.taken {
      AppendFrame(l.down, StreamClose(x), x in l.client.streams, x);
    } else {
      assert l'.down == l.down;
    }
  }

  /** The server's entries for stream `x` stay, and nothing about it is sent. */
  lemma ServerKeeps(l: Link, l': Link, out: seq<Frame>, x: u64)
    requires StreamOk(l, x)
    requires l'.(server := l.server, down := l.down, toPlayer := l.toPlayer) == l
    requires x in l'.server.streams <==> x in l.server.streams
    requires x in l'.server.udpPeers <==> x in l.server.udpPeers
    requires x in l'.server.streamTunnel <==> x in l.server.streamTunnel
    requires Accumulated(l'.toPlayer, x) == Accumulated(l.toPlayer, x)
    requires l'.down == l.down + out && |out| <= 1
    requires forall f | f in out :: !Announces(f, x) && f != StreamClose(x) && PayloadOf(f, x) == []
    ensures StreamOk(l', x)
  {
    hide Registered, WillDeliver, Announcements, Pending;
    var reg := x in l.client.streams;
    if out == [] {
      assert l.down + out == l.down;
    } else {
      assert out == [out[0]];
      AppendFrame(l.down, out[0], reg, x);
    }
    assert Registered(reg, l'.down, x) == Registered(reg, l.down, x);
    assert WillDeliver(reg, l'.down, x) == WillDeliver(reg, l.down, x);
    assert Announcements(l'.down, x) == Announcements(l.down, x);
  }

  lemma ServerHandlesOtherData(l: Link, c: Server.Choice, x: u64)
    requires StreamOk(l, x) && l.up != [] && l.up[0].Data? && l.up[0].streamId != x
    ensures StreamOk(ServerStep(l, c), x)
  {
    ServerPops(l, x);
    hide StreamOk;
    ServerKeeps(l.(up := l.up[1..]), ServerStep(l, c), Server.OnFrame(l.server, l.up[0], c).1, x);
  }

  lemma ServerHandlesStreamClose(l: Link, c: Server.Choice, x: u64)
    requires StreamOk(l, x) && l.up != [] && l.up[0].StreamClose?
    ensures StreamOk(ServerStep(l, c), x)
  {
    hide Registered, WillDeliver, Announcements, Pending;
    TakeFrame(l.up, false, x);
    var l' := ServerStep(l, c);
    assert l'.down == l.down;
    assert l.up[0] in l.up;
    if l.up[0].streamId != x {
      ServerPops(l, x);
    }
  }

  /** A closed tunnel takes all its streams with it, and the client is told of each. */
  lemma ServerHandlesCloseTunnel(l: Link, c: Server.Choice, x: u64)
    requires StreamOk(l, x) && l.up != [] && l.up[0].Control? && l.up[0].msg.CloseTunnel?
    requires Server.ChoiceFits(l.server, l.up[0], c)
    ensures StreamOk(ServerStep(l, c), x)
  {
    hide Registered, WillDeliver, Announcements, Pending;
    ServerPops(l, x);
    AppendCloses(l.down, c.order, x in l.client.streams, x);
  }

  lemma ServerHandlesOtherControl(l: Link, c: Server.Choice, x: u64)
    requires StreamOk(l, x) && l.up != [] && l.up[0].Control? && !l.up[0].msg.CloseTunnel?
    ensures StreamOk(ServerStep(l, c), x)
  {
    ServerPops(l, x);
    NoStreamTouched(l.server, l.up[0], c);
    hide StreamOk, Server.OnFrame;
    ServerKeeps(l.(up := l.up[1..]), ServerStep(l, c), Server.OnFrame(l.server, l.up[0], c).1, x);
  }

  lemma NoStreamTouched(t: Server.Tables, f: Frame, c: Server.Choice)
    requires f.Control? && !f.msg.CloseTunnel?
    ensures var (t', out) := Server.OnFrame(t, f, c);
      && t'.streams == t.streams && t'.udpPeers == t.udpPeers && t'.streamTunnel == t.streamTunnel
      && |out| <= 1 && forall o | o in out :: o.Control? && (o.msg.CloseTunnel? || o.msg.TunnelOpened? || o.msg.Pong?)
  {
  }

  lemma StepServerReceives(l: Link, c: Server.Choice, x: u64)
    requires StreamOk(l, x) && Enabled(l, ServerReceives(c))
    ensures StreamOk(ServerStep(l, c), x)
  {
    var f := l.up[0];
    hide StreamOk, ServerStep;
    if f.Data? {
      if f.streamId == x {
        ServerHandlesOwnData(l, c, x);
      } else {
        ServerHandlesOtherData(l, c, x);
      }
    } else if f.StreamClose? {
      ServerHandlesStreamClose(l, c, x);
    } else if f.msg.CloseTunnel? {
      ServerHandlesCloseTunnel(l, c, x);
    } else {
      ServerHandlesOtherControl(l, c, x);
    }
  }

  // ---------------------------------------------------------------- every frame fits the wire

  lemma ControlFits(m: Message)
    requires !m.Auth? && !m.AuthFailed?
    ensures Encodable(Control(m))
  {
    match m
    case OpenTunnel(_, _, _, _) => OpenTunnelRoundTrip(m);
    case TunnelOpened(_) => TunnelIdRoundTrip(m);
    case CloseTunnel(_) => TunnelIdRoundTrip(m);
    case NewConnection(_, _, _, _) => NewConnectionRoundTrip(m);
    case _ =>
  }

  lemma ServerOutFits(t: Server.Tables, f: Frame, c: Server.Choice)
    ensures AllEncodable(Server.OnFrame(t, f, c).1)
  {
    var out := Server.OnFrame(t, f, c).1;
    forall o | o in out
      ensures Encodable(o)
    {
      if o.Control? {
        ControlFits(o.msg);
      }
    }
  }

  lemma StepFits(l: Link, e: Event)
    requires Invariant(l)
    ensures var l' := Step(l, e); l'.nextSid > 0 && AllEncodable(l'.up) && AllEncodable(l'.down)
  {
    hide StreamOk, Encodable;
    if Enabled(l, e) {
      var l' := Step(l, e);
      match e
      case AcceptTcp(tid, peer) => ControlFits(NewConnection(tid, l.nextSid, false, Some(peer)));
      case OpenUdp(tid, addr, _) => ControlFits(NewConnection(tid, l.nextSid, true, Some(addr)));
      case PlayerSends(sid, payload) => KnownDataFits(l, sid, payload);
      case PlayerCloses(sid) => CloseFits(sid);
      case UdpExpires(sid) => CloseFits(sid);
      case LocalSends(sid, payload) => SpawnedDataFits(l, sid, payload);
      case LocalCloses(sid) => CloseFits(sid);
      case ClientControl(m, _) => ControlFits(m);
      case ServerReceives(c) => ServerOutFits(l.server, l.up[0], c);
      case ClientReceives(taken) =>
        if l.down[0].Data? {
          CloseFits(l.down[0].streamId);
        }
    }
  }

  lemma CloseFits(sid: u64)
    ensures Encodable(StreamClose(sid))
  {
  }

  lemma KnownDataFits(l: Link, sid: u64, payload: Bytes)
    requires Invariant(l) && sid in Known(l) && |payload| <= TCP_READ_BUFFER
    ensures Encodable(Data(sid, payload))
  {
    assert StreamOk(l, sid);
  }

  lemma SpawnedDataFits(l: Link, sid: u64, payload: Bytes)
    requires Invariant(l) && sid in l.spawned && |payload| <= TCP_READ_BUFFER
    ensures Encodable(Data(sid, payload))
  {
    assert StreamOk(l, sid);
  }

  // ---------------------------------------------------------------- every run

  lemma StepKeepsStream(l: Link, e: Event, x: u64)
    requires Invariant(l)
    ensures StreamOk(Step(l, e), x)
  {
    assert StreamOk(l, x);
    hide StreamOk;
    if Enabled(l, e) {
      match e
      case AcceptTcp(tid, peer) => StepAcceptTcp(l, tid, peer, x);
      case OpenUdp(tid, addr, socket) => StepOpenUdp(l, tid, addr, socket, x);
      case PlayerSends(sid, payload) => StepPlayerSends(l, sid, payload, x);
      case PlayerCloses(sid) => StepPlayerCloses(l, sid, x);
      case UdpExpires(sid) => StepUdpExpires(l, sid, x);
      case LocalSends(sid, payload) => StepLocalSends(l, sid, payload, x);
      case LocalCloses(sid) => ClientDrops(l, sid, x);
      case ClientControl(m, t) => StepClientControl(l, m, t, x);
      case ServerReceives(c) => StepServerReceives(l, c, x);
      case ClientReceives(taken) => StepClientReceives(l, taken, x);
    }
  }

  lemma {:induction false} InvariantHolds(events: seq<Event>)
    ensures Invariant(Run(events))
  {
    if events != [] {
      var before, e := events[..|events| - 1], events[|events| - 1];
      InvariantHolds(before);
      hide StreamOk, Step;
      StepFits(Run(before), e);
      forall x
        ensures StreamOk(Run(events), x)
      {
        StepKeepsStream(Run(before), e, x);
      }
    }
  }

  /**
   * In every reachable state: the streams in the server's tables for which no client close is under way are
   * exactly those the client will have once it has handled everything under way to it.
   */
  lemma StreamAgreement(events: seq<Event>, x: u64)
    ensures var l := Run(events);
      x in l.server.streamTunnel && StreamClose(x) !in l.up <==> Registered(x in l.client.streams, l.down, x)
  {
    InvariantHolds(events);
    assert StreamOk(Run(events), x);
  }

  /** When both queues are empty, server and client have the same streams. */
  lemma SameStreamsWhenQuiet(events: seq<Event>)
    requires Run(events).up == [] && Run(events).down == []
    ensures var l := Run(events); l.server.streamTunnel.Keys == l.client.streams == l.client.streamTunnel.Keys
  {
    InvariantHolds(events);
    var l := Run(events);
    forall x: u64
      ensures x in l.server.streamTunnel <==> x in l.client.streams
      ensures x in l.client.streams <==> x in l.client.streamTunnel
    {
      assert StreamOk(l, x);
    }
  }

  /**
   * In every reachable state and in both directions: the bytes handed to the receiving side's stream channel
   * are a prefix of the bytes read from the sending socket.
   */
  lemma BytesArriveInOrder(events: seq<Event>, x: u64)
    ensures var l := Run(events);
      && Accumulated(l.toLocal, x) <= Accumulated(l.fromPlayer, x)
      && Accumulated(l.toPlayer, x) <= Accumulated(l.fromLocal, x)
  {
    InvariantHolds(events);
    assert StreamOk(Run(events), x);
  }

  /** As long as a stream is alive at both ends and nothing is under way, nothing of it was lost. */
  lemma NothingLostWhileAlive(events: seq<Event>, x: u64)
    requires Run(events).up == [] && Run(events).down == []
    requires x in Run(events).server.streams
    ensures var l := Run(events);
      && Accumulated(l.toLocal, x) == Accumulated(l.fromPlayer, x)
      && Accumulated(l.toPlayer, x) == Accumulated(l.fromLocal, x)
  {
    InvariantHolds(events);
    assert StreamOk(Run(events), x);
  }

  /** Every stream is announced to the client exactly once: its NewConnection is under way, or was handled. */
  lemma AnnouncedExactlyOnce(events: seq<Event>, x: u64)
    ensures var l := Run(events);
      (if x in l.spawned then 1 else 0) + Announcements(l.down, x) == if x in Known(l) then 1 else 0
  {
    InvariantHolds(events);
    assert StreamOk(Run(events), x);
  }

  /**
   * The server's three tables fit: TCP and UDP streams are disjoint and together are those with a tunnel; ids are
   * fresh and nonzero.
   */
  lemma ServerTablesFit(events: seq<Event>)
    ensures var l := Run(events);
      && l.server.streams !! l.server.udpPeers.Keys
      && l.server.streams + l.server.udpPeers.Keys == l.server.streamTunnel.Keys
      && forall x | x in l.server.streamTunnel :: CONTROL_STREAM < x < l.nextSid
  {
    InvariantHolds(events);
    var l := Run(events);
    forall x: u64
      ensures x in l.server.streamTunnel <==> x in l.server.streams || x in l.server.udpPeers
      ensures !(x in l.server.streams && x in l.server.udpPeers)
      ensures x in l.server.streamTunnel ==> CONTROL_STREAM < x < l.nextSid
    {
      assert StreamOk(l, x);
    }
  }

  /** Everything either side ever queues can be carried by the wire format. */
  lemma {:induction false} QueuesFitTheWire(events: seq<Event>)
    ensures AllEncodable(Run(events).up) && AllEncodable(Run(events).down)
  {
    InvariantHolds(events);
  }

  /**
   * In the frame loops, which begin after authentication, what a frame does to either side does not depend on what
   * the wire drops from it.
   */
  lemma FrameLoopsIgnoreWireLoss(f: Frame, t: Client.Tables, taken: bool, s: Server.Tables, choice: Server.Choice)
    ensures Client.OnFrame(t, NormalFrame(f), taken) == Client.OnFrame(t, f, taken)
    ensures Server.OnFrame(s, NormalFrame(f), choice) == Server.OnFrame(s, f, choice)
    ensures Server.ChoiceFits(s, NormalFrame(f), choice) <==> Server.ChoiceFits(s, f, choice)
  {
  }
}
