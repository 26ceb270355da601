/**
 * One UDP listener task of server/src/main.rs: its four local maps, the peer table it shares with the frame loop,
 * stale-peer eviction and expiry.
 */
module UdpSessions {
  import opened Base
  import opened Wire
  import Server

  const SESSION_TIMEOUT_SECS: nat := 300

  // ---------------------------------------------------------------- the listener's own maps

  /**
   * Who talks on which stream, when each address was last heard (in milliseconds), and the inbound byte counters.
   * `bytesOut` holds the streams whose outbound counter, kept in the shared peer entry, the listener also holds.
   */
  datatype Sessions = Sessions(
    peerStreams: map<SocketAddr, u64>,
    lastSeen: map<SocketAddr, nat>,
    bytesIn: map<u64, nat>,
    bytesOut: set<u64>)

  const NO_SESSIONS := Sessions(map[], map[], map[], {})

  /** Forgets the mapping of an address; `lastSeen` too. */
  function Drop(s: Sessions, addr: SocketAddr): Sessions
    requires addr in s.peerStreams
  {
    var sid := s.peerStreams[addr];
    Sessions(s.peerStreams - {addr}, s.lastSeen - {addr}, s.bytesIn - {sid}, s.bytesOut - {sid})
  }

  /** A mapping whose stream the client has closed meanwhile is dropped. */
  function Evict(s: Sessions, addr: SocketAddr, t: Server.Tables): Sessions {
    if addr in s.peerStreams && s.peerStreams[addr] !in t.udpPeers then Drop(s, addr) else s
  }

  /** A packet from `addr` at time `now`; `newSid` is the next stream id, used only for an address without a mapping. */
  function OnPacket(s: Sessions, t: Server.Tables, tid: u32, socket: nat, addr: SocketAddr, payload: Bytes,
                    now: nat, newSid: u64)
    : (Sessions, Server.Tables, seq<Frame>)
  {
    var seen := Evict(s.(lastSeen := s.lastSeen[addr := now]), addr, t);
    if addr in seen.peerStreams then
      var sid := seen.peerStreams[addr];
      (Counted(seen, sid, |payload|), t, [Data(sid, payload)])
    else
      var (t', out) := Server.RegisterUdp(t, tid, newSid, addr, socket);
      (Counted(Mapped(seen, addr, newSid), newSid, |payload|), t', out + [Data(newSid, payload)])
  }

  function Mapped(s: Sessions, addr: SocketAddr, sid: u64): Sessions {
    Sessions(s.peerStreams[addr := sid], s.lastSeen, s.bytesIn[sid := 0], s.bytesOut + {sid})
  }

  function Counted(s: Sessions, sid: u64, n: nat): Sessions {
    if sid in s.bytesIn then s.(bytesIn := s.bytesIn[sid := s.bytesIn[sid] + n]) else s
  }

  /** Whether a packet from `addr` opens a new stream. */
  predicate Opens(s: Sessions, t: Server.Tables, addr: SocketAddr) {
    addr !in s.peerStreams || s.peerStreams[addr] !in t.udpPeers
  }

  predicate IsStale(s: Sessions, addr: SocketAddr, now: nat) {
    addr in s.lastSeen && s.lastSeen[addr] <= now && (now - s.lastSeen[addr]) / 1000 > SESSION_TIMEOUT_SECS
  }

  function Stale(s: Sessions, now: nat): set<SocketAddr> {
    set addr | addr in s.lastSeen && IsStale(s, addr, now)
  }

  function ExpireOne(s: Sessions, t: Server.Tables, addr: SocketAddr): (Sessions, Server.Tables, seq<Frame>) {
    if addr in s.peerStreams then
      var (t', out) := Server.ExpireUdp(t, s.peerStreams[addr]);
      (Drop(s, addr), t', out)
    else (s.(lastSeen := s.lastSeen - {addr}), t, [])
  }

  /** The cleanup tick, with the stale addresses in the order in which the table lists them. */
  function ExpireAll(s: Sessions, t: Server.Tables, order: seq<SocketAddr>): (Sessions, Server.Tables, seq<Frame>) {
    if order == [] then (s, t, []) else
    var (s1, t1, out1) := ExpireAll(s, t, order[..|order| - 1]);
    var (s2, t2, out2) := ExpireOne(s1, t1, order[|order| - 1]);
    (s2, t2, out1 + out2)
  }

  // ---------------------------------------------------------------- the listener task

  class UdpListener {
    const tid: u32
    const socket: nat
    const server: Server.ServerState
    var peerStreams: map<SocketAddr, u64>
    var lastSeen: map<SocketAddr, nat>
    var bytesIn: map<u64, nat>
    var bytesOut: set<u64>

    ghost function View(): Sessions
      reads this
    {
      Sessions(peerStreams, lastSeen, bytesIn, bytesOut)
    }

    constructor (tid: u32, socket: nat, server: Server.ServerState)
      ensures View() == NO_SESSIONS && this.tid == tid && this.socket == socket && this.server == server
    {
      this.tid, this.socket, this.server := tid, socket, server;
      peerStreams, lastSeen, bytesIn, bytesOut := map[], map[], map[], {};
    }

    /** Notes that the address was heard, and drops its mapping if the client has closed the stream meanwhile. */
    method HearAndEvict(addr: SocketAddr, now: nat)
      modifies this
      ensures View() == Evict(old(View()).(lastSeen := old(View()).lastSeen[addr := now]), addr, server.View())
    {
      lastSeen := lastSeen[addr := now];
      if addr in peerStreams {
        var sid := peerStreams[addr];
        if sid !in server.udpPeers {
          peerStreams := peerStreams - {addr};
          lastSeen := lastSeen - {addr};
          bytesIn := bytesIn - {sid};
          bytesOut := bytesOut - {sid};
        }
      }
    }

    /** Registers a new player with the listener and with the server, and announces it. */
    method OpenSession(addr: SocketAddr, sid: u64)
      modifies this, server
      ensures View() == Mapped(old(View()), addr, sid)
      ensures var (t, out) := Server.RegisterUdp(old(server.View()), tid, sid, addr, socket);
        server.View() == t && server.outbox == old(server.outbox) + out
    {
      peerStreams := peerStreams[addr := sid];
      bytesIn := bytesIn[sid := 0];
      bytesOut := bytesOut + {sid};
      server.udpPeers := server.udpPeers[sid := Server.UdpPeer(addr, socket, 0)];
      server.streamTunnel := server.streamTunnel[sid := tid];
      server.Send(Control(NewConnection(tid, sid, true, Some(addr))));
    }

    /** Returns whether the new stream id was used. */
    method Receive(addr: SocketAddr, payload: Bytes, now: nat, newSid: u64) returns (used: bool)
      modifies this, server
      ensures used == Opens(old(View()), old(server.View()), addr)
      ensures var (s, t, out) := OnPacket(old(View()), old(server.View()), tid, socket, addr, payload, now, newSid);
        View() == s && server.View() == t && server.outbox == old(server.outbox) + out
    {
      hide Server.RegisterUdp;
      HearAndEvict(addr, now);
      var sid: u64;
      used := addr !in peerStreams;
      if used {
        sid := newSid;
        OpenSession(addr, sid);
      } else {
        sid := peerStreams[addr];
      }
      if sid in bytesIn {
        bytesIn := bytesIn[sid := bytesIn[sid] + |payload|];
      }
      server.Send(Data(sid, payload));
    }

    method Expire(addr: SocketAddr)
      modifies this, server
      ensures var (s, t, out) := ExpireOne(old(View()), old(server.View()), addr);
        View() == s && server.View() == t && server.outbox == old(server.outbox) + out
    {
      lastSeen := lastSeen - {addr};
      if addr in peerStreams {
        var sid := peerStreams[addr];
        peerStreams := peerStreams - {addr};
        bytesIn := bytesIn - {sid};
        bytesOut := bytesOut - {sid};
        server.udpPeers := server.udpPeers - {sid};
        server.streamTunnel := server.streamTunnel - {sid};
        server.Send(StreamClose(sid));
      }
    }

    /** The cleanup tick; returns the order in which the stale addresses were handled. */
    method Cleanup(now: nat) returns (order: seq<SocketAddr>)
      modifies this, server
      ensures Enumerates(order, Stale(old(View()), now))
      ensures var (s, t, out) := ExpireAll(old(View()), old(server.View()), order);
        View() == s && server.View() == t && server.outbox == old(server.outbox) + out
    {
      hide ExpireOne, Enumerates;
      var stale := set addr | addr in lastSeen && lastSeen[addr] <= now
        && (now - lastSeen[addr]) / 1000 > SESSION_TIMEOUT_SECS;
      assert stale == Stale(View(), now);
      order := [];
      var left := stale;
      assert stale - left == {};
      NothingEnumerated<SocketAddr>();
      while left != {}
        invariant left <= stale && Enumerates(order, stale - left)
        invariant var (s, t, out) := ExpireAll(old(View()), old(server.View()), order);
          View() == s && server.View() == t && server.outbox == old(server.outbox) + out
      {
        var addr :| addr in left;
        EnumeratesNext(order, stale - left, addr);
        assert stale - (left - {addr}) == (stale - left) + {addr};
        assert (order + [addr])[..|order|] == order;
        Expire(addr);
        order, left := order + [addr], left - {addr};
      }
      assert stale - left == stale;
    }
  }

  // ---------------------------------------------------------------- runs of one listener among everything else

  /**
   * The listener with the tables it shares. `handed` are the frames it queued, `openers` the address whose packet
   * opened each of its streams, and `replies` where its socket sent what the client returned on each stream.
   */
  datatype World = World(
    tid: u32,
    socket: nat,
    running: bool,
    sessions: Sessions,
    server: Server.Tables,
    nextSid: nat,
    handed: seq<Frame>,
    openers: map<u64, SocketAddr>,
    replies: seq<(u64, SocketAddr, Bytes)>)

  datatype Event =
    | Packet(addr: SocketAddr, payload: Bytes, now: nat)
    | Tick(now: nat, order: seq<SocketAddr>)
    | Shutdown
    | ClientSends(frame: Frame, choice: Server.Choice)
    | OtherUdp(tid: u32, addr: SocketAddr, socket: nat)
    | OtherTcp(tid: u32, peer: SocketAddr)

  function Start(tid: u32, socket: nat): World {
    World(tid, socket, true, NO_SESSIONS, Server.EMPTY_TABLES, 1, [], map[], [])
  }

  predicate Enabled(w: World, e: Event) {
    match e
    case Packet(_, _, _) => w.running && w.nextSid < MAX_STREAM_IDS
    case Tick(now, order) => w.running && Enumerates(order, Stale(w.sessions, now))
    case Shutdown => true
    case ClientSends(f, c) => Server.ChoiceFits(w.server, f, c)
    case OtherUdp(_, _, socket) => socket != w.socket && w.nextSid < MAX_STREAM_IDS
    case OtherTcp(_, _) => w.nextSid < MAX_STREAM_IDS
  }

  /** Where the client's bytes for a stream leave, when it is one of this listener's. */
  function Reply(w: World, f: Frame): seq<(u64, SocketAddr, Bytes)> {
    if f.Data? && f.streamId !in w.server.streams && f.streamId in w.server.udpPeers &&
       w.server.udpPeers[f.streamId].socket == w.socket
    then [(f.streamId, w.server.udpPeers[f.streamId].addr, f.payload)] else []
  }

  function Step(w: World, e: Event): World {
    if !Enabled(w, e) then w else
    match e
    case Packet(addr, payload, now) =>
      var (s, t, out) := OnPacket(w.sessions, w.server, w.tid, w.socket, addr, payload, now, w.nextSid);
      var w' := w.(sessions := s, server := t, handed := w.handed + out);
      if Opens(w.sessions, w.server, addr)
      then w'.(nextSid := w.nextSid + 1, openers := w.openers[w.nextSid := addr]) else w'
    case Tick(now, order) =>
      var (s, t, out) := ExpireAll(w.sessions, w.server, order);
      w.(sessions := s, server := t, handed := w.handed + out)
    case Shutdown => w.(running := false)
    case ClientSends(f, c) => w.(server := Server.OnFrame(w.server, f, c).0, replies := w.replies + Reply(w, f))
    case OtherUdp(tid, addr, socket) =>
      w.(server := Server.RegisterUdp(w.server, tid, w.nextSid, addr, socket).0, nextSid := w.nextSid + 1)
    case OtherTcp(tid, peer) =>
      w.(server := Server.AcceptTcp(w.server, tid, w.nextSid, peer).0, nextSid := w.nextSid + 1)
  }

  function Run(tid: u32, socket: nat, events: seq<Event>): World {
    if events == [] then Start(tid, socket)
    else Step(Run(tid, socket, events[..|events| - 1]), events[|events| - 1])
  }

  /** Total payload length of the Data frames of a stream. */
  function TotalOf(handed: seq<Frame>, sid: u64): nat {
    if handed == [] then 0 else
    var last := handed[|handed| - 1];
    TotalOf(handed[..|handed| - 1], sid) + if last.Data? && last.streamId == sid then |last.payload| else 0
  }

  /** Stream `sid` is mapped, and from the address that opened it. */
  ghost predicate MappedHome(w: World, sid: u64) {
    sid in w.openers && w.openers[sid] in w.sessions.peerStreams && w.sessions.peerStreams[w.openers[sid]] == sid
  }

  ghost predicate TablesFit(w: World) {
    && w.nextSid > 0
    && (forall a | a in w.sessions.peerStreams :: var sid := w.sessions.peerStreams[a];
          sid in w.openers && w.openers[sid] == a && sid in w.sessions.bytesIn && sid in w.sessions.bytesOut)
    && (forall sid | sid in w.sessions.bytesIn || sid in w.sessions.bytesOut :: MappedHome(w, sid))
    && (forall a | a in w.sessions.lastSeen :: a in w.sessions.peerStreams)
    && (forall sid | sid in w.server.udpPeers :: 0 < sid < w.nextSid)
    && (forall sid | sid in w.openers :: 0 < sid < w.nextSid)
    && (forall sid | sid in w.server.udpPeers && w.server.udpPeers[sid].socket == w.socket ::
          MappedHome(w, sid) && w.server.udpPeers[sid].addr == w.openers[sid])
  }

  ghost predicate Accounted(w: World) {
    && (forall sid | sid in w.sessions.bytesIn :: w.sessions.bytesIn[sid] == TotalOf(w.handed, sid))
    && (forall sid: u64 | sid !in w.openers :: TotalOf(w.handed, sid) == 0)
    && (forall r | r in w.replies :: r.0 in w.openers && w.openers[r.0] == r.1)
  }

  ghost predicate Invariant(w: World) {
    TablesFit(w) && Accounted(w)
  }

  lemma TotalAppend(handed: seq<Frame>, f: Frame, sid: u64)
    ensures TotalOf(handed + [f], sid) == TotalOf(handed, sid) + if f.Data? && f.streamId == sid then |f.payload| else 0
  {
    assert (handed + [f])[..|handed|] == handed;
  }

  /** A packet on a mapped, live stream. */
  lemma PacketOnKnown(w: World, addr: SocketAddr, payload: Bytes, now: nat)
    requires Invariant(w) && Enabled(w, Packet(addr, payload, now)) && !Opens(w.sessions, w.server, addr)
    ensures Invariant(Step(w, Packet(addr, payload, now)))
  {
    var w', sid := Step(w, Packet(addr, payload, now)), w.sessions.peerStreams[addr];
    hide TotalOf;
    forall x
      ensures TotalOf(w'.handed, x) == TotalOf(w.handed, x) + if x == sid then |payload| else 0
    {
      TotalAppend(w.handed, Data(sid, payload), x);
    }
    assert forall x | MappedHome(w, x) :: MappedHome(w', x);
  }

  /** Forgetting a mapping whose stream is not live keeps everything. */
  lemma DropKeeps(w: World, addr: SocketAddr)
    requires Invariant(w) && addr in w.sessions.peerStreams
    requires w.sessions.peerStreams[addr] !in w.server.udpPeers
    ensures Invariant(w.(sessions := Drop(w.sessions, addr)))
  {
    var w', sid := w.(sessions := Drop(w.sessions, addr)), w.sessions.peerStreams[addr];
    assert forall x | MappedHome(w, x) && x != sid :: MappedHome(w', x);
  }

  function Opened(w: World, addr: SocketAddr, payload: Bytes, seen: map<SocketAddr, nat>): World
    requires w.nextSid < MAX_STREAM_IDS
  {
    var s, sid := w.sessions, w.nextSid;
    w.(
      sessions := Counted(Mapped(s.(lastSeen := seen), addr, sid), sid, |payload|),
      server := Server.RegisterUdp(w.server, w.tid, sid, addr, w.socket).0,
      handed := w.handed + [Control(NewConnection(w.tid, sid, true, Some(addr))), Data(sid, payload)],
      openers := w.openers[sid := addr], nextSid := sid + 1)
  }

  /** A first packet from an address without a mapping opens a stream. */
  lemma PacketOpens(w: World, addr: SocketAddr, payload: Bytes, seen: map<SocketAddr, nat>)
    requires TablesFit(w) && addr !in w.sessions.peerStreams && w.nextSid < MAX_STREAM_IDS
    requires forall a | a in seen :: a in w.sessions.peerStreams || a == addr
    ensures TablesFit(Opened(w, addr, payload, seen))
  {
    var w', sid := Opened(w, addr, payload, seen), w.nextSid;
    assert sid !in w.openers;
    assert MappedHome(w', sid);
    assert forall x | MappedHome(w, x) :: MappedHome(w', x);
  }

  lemma OpenedAccounted(w: World, addr: SocketAddr, payload: Bytes, seen: map<SocketAddr, nat>)
    requires Invariant(w) && w.nextSid < MAX_STREAM_IDS
    ensures Accounted(Opened(w, addr, payload, seen))
  {
    var w', sid := Opened(w, addr, payload, seen), w.nextSid;
    var hello := Control(NewConnection(w.tid, sid, true, Some(addr)));
    hide TotalOf, Server.RegisterUdp;
    assert w'.handed == (w.handed + [hello]) + [Data(sid, payload)];
    forall x
      ensures TotalOf(w'.handed, x) == TotalOf(w.handed, x) + if x == sid then |payload| else 0
    {
      TotalAppend(w.handed, hello, x);
      TotalAppend(w.handed + [hello], Data(sid, payload), x);
    }
    assert sid !in w.openers;
  }

  /** What a packet that opens a stream amounts to, once a stale mapping has been dropped. */
  lemma PacketReopens(w: World, addr: SocketAddr, payload: Bytes, now: nat)
    requires Enabled(w, Packet(addr, payload, now)) && Opens(w.sessions, w.server, addr)
    ensures var known := addr in w.sessions.peerStreams;
      var base := if known then w.(sessions := Drop(w.sessions, addr)) else w;
      var seen := if known then base.sessions.lastSeen else w.sessions.lastSeen[addr := now];
      Step(w, Packet(addr, payload, now)) == Opened(base, addr, payload, seen)
  {
    hide Counted, Mapped;
    assert w.sessions.lastSeen[addr := now] - {addr} == w.sessions.lastSeen - {addr};
    var out := [Control(NewConnection(w.tid, w.nextSid, true, Some(addr)))];
    assert Server.RegisterUdp(w.server, w.tid, w.nextSid, addr, w.socket).1 == out;
    assert out + [Data(w.nextSid, payload)] == [out[0], Data(w.nextSid, payload)];
  }

  lemma StepPacket(w: World, addr: SocketAddr, payload: Bytes, now: nat)
    requires Invariant(w) && Enabled(w, Packet(addr, payload, now))
    ensures Invariant(Step(w, Packet(addr, payload, now)))
  {
    if !Opens(w.sessions, w.server, addr) {
      PacketOnKnown(w, addr, payload, now);
    } else {
      var known := addr in w.sessions.peerStreams;
      var base := if known then w.(sessions := Drop(w.sessions, addr)) else w;
      if known {
        DropKeeps(w, addr);
      }
      var seen := if known then base.sessions.lastSeen else w.sessions.lastSeen[addr := now];
      assert forall a | a in seen :: a in base.sessions.peerStreams || a == addr;
      hide Accounted, MappedHome, Opened, OnPacket, Step;
      PacketReopens(w, addr, payload, now);
      PacketOpens(base, addr, payload, seen);
      OpenedAccounted(base, addr, payload, seen);
    }
  }

  lemma ExpireKeeps(w: World, addr: SocketAddr)
    requires Invariant(w)
    ensures var (s, t, out) := ExpireOne(w.sessions, w.server, addr);
      Invariant(w.(sessions := s, server := t, handed := w.handed + out))
  {
    var (s, t, out) := ExpireOne(w.sessions, w.server, addr);
    if addr in w.sessions.peerStreams {
      var sid := w.sessions.peerStreams[addr];
      var w1 := w.(server := t, handed := w.handed + out);
      hide TotalOf;
      forall x
        ensures TotalOf(w1.handed, x) == TotalOf(w.handed, x)
      {
        TotalAppend(w.handed, StreamClose(sid), x);
      }
      assert forall x | MappedHome(w, x) :: MappedHome(w1, x);
      DropKeeps(w1, addr);
    } else {
      assert w.handed + out == w.handed;
      assert s == w.sessions by {
        assert addr !in w.sessions.lastSeen;
      }
    }
  }

  lemma {:induction false} ExpireAllKeeps(w: World, order: seq<SocketAddr>)
    requires Invariant(w)
    ensures var (s, t, out) := ExpireAll(w.sessions, w.server, order);
      Invariant(w.(sessions := s, server := t, handed := w.handed + out))
  {
    hide Invariant, ExpireOne;
    if order == [] {
      assert w.handed + [] == w.handed;
    } else {
      var n := |order| - 1;
      ExpireAllKeeps(w, order[..n]);
      var (s1, t1, out1) := ExpireAll(w.sessions, w.server, order[..n]);
      var w1 := w.(sessions := s1, server := t1, handed := w.handed + out1);
      ExpireKeeps(w1, order[n]);
      var (s2, t2, out2) := ExpireOne(s1, t1, order[n]);
      assert w.handed + (out1 + out2) == (w.handed + out1) + out2;
    }
  }

  lemma StepClientSends(w: World, f: Frame, c: Server.Choice)
    requires Invariant(w)
    ensures Invariant(w.(server := Server.OnFrame(w.server, f, c).0, replies := w.replies + Reply(w, f)))
  {
    hide TotalOf;
    var t := Server.OnFrame(w.server, f, c).0;
    var w' := w.(server := t, replies := w.replies + Reply(w, f));
    PeersOnlyShrink(w.server, f, c);
    hide Server.OnFrame;
    assert forall x | MappedHome(w, x) :: MappedHome(w', x);
  }

  /** No frame from the client adds a UDP peer or changes a peer's address or socket. */
  lemma PeersOnlyShrink(t: Server.Tables, f: Frame, c: Server.Choice)
    ensures var t' := Server.OnFrame(t, f, c).0;
      forall sid | sid in t'.udpPeers ::
        && sid in t.udpPeers
        && t'.udpPeers[sid].addr == t.udpPeers[sid].addr && t'.udpPeers[sid].socket == t.udpPeers[sid].socket
  {
  }

  /** A stream opened elsewhere has an id of its own and another socket. */
  lemma StepElsewhere(w: World, e: Event)
    requires Invariant(w) && Enabled(w, e) && (e.OtherUdp? || e.OtherTcp?)
    ensures Invariant(Step(w, e))
  {
    hide TotalOf, Accounted;
    var w' := Step(w, e);
    assert forall x | MappedHome(w, x) :: MappedHome(w', x);
    SameAccounts(w, w');
  }

  lemma SameAccounts(w: World, w': World)
    requires Accounted(w) && w'.sessions == w.sessions && w'.handed == w.handed && w'.openers == w.openers
    requires w'.replies == w.replies
    ensures Accounted(w')
  {
    hide TotalOf;
  }

  lemma StepShutdown(w: World)
    requires Invariant(w)
    ensures Invariant(Step(w, Shutdown))
  {
    hide TotalOf;
    assert forall x | MappedHome(w, x) :: MappedHome(Step(w, Shutdown), x);
  }

  lemma {:induction false} InvariantHolds(tid: u32, socket: nat, events: seq<Event>)
    ensures Invariant(Run(tid, socket, events))
  {
    if events != [] {
      var before, e := events[..|events| - 1], events[|events| - 1];
      InvariantHolds(tid, socket, before);
      var w := Run(tid, socket, before);
      hide Invariant;
      if Enabled(w, e) {
        match e
        case Packet(addr, payload, now) => StepPacket(w, addr, payload, now);
        case Tick(now, order) => ExpireAllKeeps(w, order);
        case ClientSends(f, c) => StepClientSends(w, f, c);
        case Shutdown => StepShutdown(w);
        case OtherUdp(_, _, _) => StepElsewhere(w, e);
        case OtherTcp(_, _) => StepElsewhere(w, e);
      }
    }
  }

  // ---------------------------------------------------------------- what follows for every run

  /** No two addresses share a stream, and an address has at most one live stream on this listener. */
  lemma OneStreamPerAddress(tid: u32, socket: nat, events: seq<Event>)
    ensures var w := Run(tid, socket, events);
      && (forall a, b | a in w.sessions.peerStreams && b in w.sessions.peerStreams && a != b ::
            w.sessions.peerStreams[a] != w.sessions.peerStreams[b])
      && (forall x, y | x in w.server.udpPeers && y in w.server.udpPeers &&
            w.server.udpPeers[x].socket == socket && w.server.udpPeers[y].socket == socket &&
            w.server.udpPeers[x].addr == w.server.udpPeers[y].addr :: x == y)
  {
    InvariantHolds(tid, socket, events);
    SocketFixed(tid, socket, events);
  }

  lemma {:induction false} SocketFixed(tid: u32, socket: nat, events: seq<Event>)
    ensures Run(tid, socket, events).socket == socket
  {
    if events != [] {
      SocketFixed(tid, socket, events[..|events| - 1]);
    }
  }

  /** Both counter maps have exactly the mapped streams as keys, and the inbound counters are the bytes handed on. */
  lemma CountersMatch(tid: u32, socket: nat, events: seq<Event>)
    ensures var w := Run(tid, socket, events);
      && w.sessions.bytesIn.Keys == w.sessions.bytesOut == w.sessions.peerStreams.Values
      && forall sid | sid in w.sessions.bytesIn :: w.sessions.bytesIn[sid] == TotalOf(w.handed, sid)
  {
    InvariantHolds(tid, socket, events);
    var w := Run(tid, socket, events);
    forall sid
      ensures sid in w.sessions.bytesIn <==> sid in w.sessions.peerStreams.Values
      ensures sid in w.sessions.bytesOut <==> sid in w.sessions.peerStreams.Values
    {
      if sid in w.sessions.bytesIn || sid in w.sessions.bytesOut {
        assert MappedHome(w, sid);
      }
      if sid in w.sessions.peerStreams.Values {
        var a :| a in w.sessions.peerStreams && w.sessions.peerStreams[a] == sid;
      }
    }
  }

  /** Whatever the client returns on a stream goes to the address whose packet opened it. */
  lemma RepliesGoHome(tid: u32, socket: nat, events: seq<Event>, reply: (u64, SocketAddr, Bytes))
    requires reply in Run(tid, socket, events).replies
    ensures var w := Run(tid, socket, events); reply.0 in w.openers && w.openers[reply.0] == reply.1
  {
    InvariantHolds(tid, socket, events);
  }

  // ---------------------------------------------------------------- packets and replies are carried

  /**
   * A packet from an address is handed on at once as one Data frame with its payload, on the stream the address is
   * mapped to from then on. That is the stream it had, if it had one that is still live; otherwise it is a new one,
   * which is announced first as a UDP stream of this listener's tunnel with the address as its peer.
   */
  lemma PacketIsForwarded(w: World, addr: SocketAddr, payload: Bytes, now: nat)
    requires Enabled(w, Packet(addr, payload, now))
    ensures var w' := Step(w, Packet(addr, payload, now));
      && addr in w'.sessions.peerStreams
      && var x := w'.sessions.peerStreams[addr];
         if addr in w.sessions.peerStreams && w.sessions.peerStreams[addr] in w.server.udpPeers then
           && x == w.sessions.peerStreams[addr]
           && w'.handed == w.handed + [Data(x, payload)]
         else
           && x == w.nextSid
           && w'.handed == w.handed + [Control(NewConnection(w.tid, x, true, Some(addr))), Data(x, payload)]
           && x in w'.server.udpPeers && x in w'.server.streamTunnel && w'.server.streamTunnel[x] == w.tid
  {
    if addr in w.sessions.peerStreams && w.sessions.peerStreams[addr] in w.server.udpPeers {
      hide Server.RegisterUdp;
    } else {
      PacketReopens(w, addr, payload, now);
      hide Step, OnPacket, Evict, Drop;
    }
  }

  /** The payloads handed on for a stream, in order. */
  function PayloadsOf(handed: seq<Frame>, x: u64): seq<Bytes> {
    if handed == [] then [] else
    var last := handed[|handed| - 1];
    PayloadsOf(handed[..|handed| - 1], x) + if last.Data? && last.streamId == x then [last.payload] else []
  }

  /** The payloads of the packets sent on a stream, in order: those from the address mapped to it at the time. */
  function SentOn(tid: u32, socket: nat, events: seq<Event>, x: u64): seq<Bytes> {
    if events == [] then [] else
    var before, e := events[..|events| - 1], events[|events| - 1];
    var peers := Run(tid, socket, events).sessions.peerStreams;
    SentOn(tid, socket, before, x) +
    if e.Packet? && Enabled(Run(tid, socket, before), e) && e.addr in peers && peers[e.addr] == x
    then [e.payload] else []
  }

  lemma PayloadsAppend(handed: seq<Frame>, f: Frame, x: u64)
    ensures PayloadsOf(handed + [f], x) ==
      PayloadsOf(handed, x) + if f.Data? && f.streamId == x then [f.payload] else []
  {
    assert (handed + [f])[..|handed|] == handed;
  }

  lemma {:induction false} NoPayloads(handed: seq<Frame>, out: seq<Frame>, x: u64)
    requires forall f | f in out :: !f.Data?
    ensures PayloadsOf(handed + out, x) == PayloadsOf(handed, x)
  {
    if out == [] {
      assert handed + out == handed;
    } else {
      var n := |out| - 1;
      NoPayloads(handed, out[..n], x);
      PayloadsAppend(handed + out[..n], out[n], x);
      assert (handed + out[..n]) + [out[n]] == handed + out;
      assert out[n] in out;
    }
  }

  lemma {:induction false} ExpiryHandsOnNothing(s: Sessions, t: Server.Tables, order: seq<SocketAddr>)
    ensures forall f | f in ExpireAll(s, t, order).2 :: f.StreamClose?
  {
    if order != [] {
      ExpiryHandsOnNothing(s, t, order[..|order| - 1]);
    }
  }

  lemma PacketPayloads(w: World, e: Event, x: u64)
    requires Enabled(w, e) && e.Packet?
    ensures var w' := Step(w, e);
      && e.addr in w'.sessions.peerStreams
      && PayloadsOf(w'.handed, x) ==
           PayloadsOf(w.handed, x) + if w'.sessions.peerStreams[e.addr] == x then [e.payload] else []
  {
    PacketIsForwarded(w, e.addr, e.payload, e.now);
    var y := Step(w, e).sessions.peerStreams[e.addr];
    hide Step, PayloadsOf;
    PayloadsAppend(w.handed, Data(y, e.payload), x);
    PayloadsAfterHello(w.handed, NewConnection(w.tid, y, true, Some(e.addr)), Data(y, e.payload), x);
  }

  lemma PayloadsAfterHello(handed: seq<Frame>, hello: Message, f: Frame, x: u64)
    ensures PayloadsOf(handed + [Control(hello), f], x) == PayloadsOf(handed + [f], x)
  {
    hide PayloadsOf;
    PayloadsAppend(handed, f, x);
    PayloadsAppend(handed, Control(hello), x);
    PayloadsAppend(handed + [Control(hello)], f, x);
    assert (handed + [Control(hello)]) + [f] == handed + [Control(hello), f];
    assert PayloadsOf(handed, x) + [] == PayloadsOf(handed, x);
  }

  /** Nothing but a packet hands on a payload. */
  lemma OtherPayloads(w: World, e: Event, x: u64)
    requires !(e.Packet? && Enabled(w, e))
    ensures PayloadsOf(Step(w, e).handed, x) == PayloadsOf(w.handed, x)
  {
    hide Server.OnFrame, Server.RegisterUdp, Server.AcceptTcp, Stale, ExpireAll;
    if e.Tick? && Enabled(w, e) {
      var out := ExpireAll(w.sessions, w.server, e.order).2;
      ExpiryHandsOnNothing(w.sessions, w.server, e.order);
      NoPayloads(w.handed, out, x);
    }
  }

  /** Over every run, the payloads handed on for a stream are those of the packets sent on it, in order. */
  lemma {:induction false} PacketsArriveInOrder(tid: u32, socket: nat, events: seq<Event>, x: u64)
    ensures PayloadsOf(Run(tid, socket, events).handed, x) == SentOn(tid, socket, events, x)
  {
    if events != [] {
      var before, e := events[..|events| - 1], events[|events| - 1];
      PacketsArriveInOrder(tid, socket, before, x);
      var w := Run(tid, socket, before);
      assert Run(tid, socket, events) == Step(w, e);
      hide Run, Step, PayloadsOf;
      if Enabled(w, e) && e.Packet? {
        PacketPayloads(w, e, x);
      } else {
        OtherPayloads(w, e, x);
      }
    }
  }

  function TotalLength(payloads: seq<Bytes>): nat {
    if payloads == [] then 0 else TotalLength(payloads[..|payloads| - 1]) + |payloads[|payloads| - 1]|
  }

  lemma {:induction false} TotalIsLength(handed: seq<Frame>, x: u64)
    ensures TotalOf(handed, x) == TotalLength(PayloadsOf(handed, x))
  {
    if handed != [] {
      var n := |handed| - 1;
      TotalIsLength(handed[..n], x);
      var p := PayloadsOf(handed[..n], x);
      if handed[n].Data? && handed[n].streamId == x {
        assert (p + [handed[n].payload])[..|p|] == p;
      } else {
        assert p + [] == p;
      }
    }
  }

  /** Over every run, each inbound counter is the number of bytes the players of its stream sent. */
  lemma CountersCountPackets(tid: u32, socket: nat, events: seq<Event>, x: u64)
    requires x in Run(tid, socket, events).sessions.bytesIn
    ensures Run(tid, socket, events).sessions.bytesIn[x] == TotalLength(SentOn(tid, socket, events, x))
  {
    CountersMatch(tid, socket, events);
    PacketsArriveInOrder(tid, socket, events, x);
    hide Run, SentOn;
    TotalIsLength(Run(tid, socket, events).handed, x);
  }

  ghost predicate StreamsApart(w: World) {
    && (forall x | x in w.server.streams :: x < w.nextSid && x !in w.server.udpPeers)
    && (forall x | x in w.server.udpPeers :: x < w.nextSid)
  }

  lemma PacketKeepsApart(w: World, e: Event)
    requires StreamsApart(w) && e.Packet? && Enabled(w, e)
    ensures StreamsApart(Step(w, e))
  {
    hide Counted, Mapped;
  }

  lemma {:induction false} ExpiryShrinks(s: Sessions, t: Server.Tables, order: seq<SocketAddr>)
    ensures var t' := ExpireAll(s, t, order).1;
      t'.streams == t.streams && forall x | x in t'.udpPeers :: x in t.udpPeers
  {
    if order != [] {
      ExpiryShrinks(s, t, order[..|order| - 1]);
    }
  }

  lemma FramesOnlyShrink(t: Server.Tables, f: Frame, c: Server.Choice)
    ensures var t' := Server.OnFrame(t, f, c).0;
      t'.streams <= t.streams && forall x | x in t'.udpPeers :: x in t.udpPeers
  {
  }

  lemma OtherKeepsApart(w: World, e: Event)
    requires StreamsApart(w) && !e.Packet? && Enabled(w, e)
    ensures StreamsApart(Step(w, e))
  {
    if e.Tick? {
      ExpiryShrinks(w.sessions, w.server, e.order);
    } else if e.ClientSends? {
      FramesOnlyShrink(w.server, e.frame, e.choice);
    }
    hide Server.OnFrame, ExpireAll, Stale;
  }

  lemma {:induction false} AlwaysApart(tid: u32, socket: nat, events: seq<Event>)
    ensures StreamsApart(Run(tid, socket, events))
  {
    if events != [] {
      var before, e := events[..|events| - 1], events[|events| - 1];
      AlwaysApart(tid, socket, before);
      var w := Run(tid, socket, before);
      hide StreamsApart;
      if Enabled(w, e) {
        if e.Packet? {
          PacketKeepsApart(w, e);
        } else {
          OtherKeepsApart(w, e);
        }
      }
    }
  }

  /**
   * In every reachable state, what the client returns on a live stream of this listener leaves at once as one datagram
   * with that payload, to the address whose packet opened the stream, and is counted.
   */
  lemma ReplyIsDelivered(tid: u32, socket: nat, events: seq<Event>, x: u64, payload: Bytes,
                         c: Server.Choice)
    requires var w := Run(tid, socket, events); x in w.server.udpPeers && w.server.udpPeers[x].socket == socket
    ensures var w, w' := Run(tid, socket, events), Run(tid, socket, events + [ClientSends(Data(x, payload), c)]);
      && x in w.openers && w'.replies == w.replies + [(x, w.openers[x], payload)]
      && x in w'.server.udpPeers
      && w'.server.udpPeers[x].bytesOut == w.server.udpPeers[x].bytesOut + |payload|
  {
    var e := ClientSends(Data(x, payload), c);
    assert (events + [e])[..|events|] == events;
    assert Run(tid, socket, events + [e]) == Step(Run(tid, socket, events), e);
    InvariantHolds(tid, socket, events);
    AlwaysApart(tid, socket, events);
    SocketFixed(tid, socket, events);
    hide Run;
  }

  // ---------------------------------------------------------------- expiry

  lemma {:induction false} ExpiresListed(s: Sessions, t: Server.Tables, order: seq<SocketAddr>, addr: SocketAddr)
    ensures var s' := ExpireAll(s, t, order).0;
      && (addr in s'.peerStreams <==> addr in s.peerStreams && addr !in order)
      && (addr in s'.peerStreams ==> s'.peerStreams[addr] == s.peerStreams[addr])
      && (addr !in order ==> (addr in s'.lastSeen <==> addr in s.lastSeen))
      && (addr !in order && addr in s.lastSeen ==> s'.lastSeen[addr] == s.lastSeen[addr])
  {
    if order != [] {
      var n := |order| - 1;
      ExpiresListed(s, t, order[..n], addr);
      assert addr in order <==> addr in order[..n] || addr == order[n];
    }
  }

  /**
   * When the listener has the address on record as heard: at its last packet, unless that packet reopened a session
   * the client had closed, because evicting the closed one also drops the time just noted.
   */
  function Heard(tid: u32, socket: nat, events: seq<Event>, addr: SocketAddr): Option<nat> {
    if events == [] then None else
    var before, e := events[..|events| - 1], events[|events| - 1];
    var w := Run(tid, socket, before);
    if e.Packet? && e.addr == addr && Enabled(w, e) then
      if addr in w.sessions.peerStreams && Opens(w.sessions, w.server, addr) then None else Some(e.now)
    else Heard(tid, socket, before, addr)
  }

  function OnRecord(s: Sessions, addr: SocketAddr): Option<nat> {
    if addr in s.lastSeen then Some(s.lastSeen[addr]) else None
  }

  lemma PacketRecords(w: World, e: Event)
    requires Enabled(w, e) && e.Packet?
    ensures OnRecord(Step(w, e).sessions, e.addr) ==
      if e.addr in w.sessions.peerStreams && Opens(w.sessions, w.server, e.addr) then None else Some(e.now)
  {
    hide Server.RegisterUdp;
  }

  /** Nothing but a packet of its own or the expiry of its session touches what is on record of an address. */
  lemma OtherStepRecords(w: World, e: Event, addr: SocketAddr)
    requires Enabled(w, e) && addr in Step(w, e).sessions.peerStreams && !(e.Packet? && e.addr == addr)
    ensures addr in w.sessions.peerStreams && OnRecord(Step(w, e).sessions, addr) == OnRecord(w.sessions, addr)
  {
    hide Server.OnFrame, Server.RegisterUdp, Server.AcceptTcp, Stale, ExpireAll;
    if e.Tick? {
      ExpiresListed(w.sessions, w.server, e.order, addr);
    }
  }

  lemma {:induction false} HeardIsRecorded(tid: u32, socket: nat, events: seq<Event>, addr: SocketAddr)
    requires addr in Run(tid, socket, events).sessions.peerStreams
    ensures Heard(tid, socket, events, addr) == OnRecord(Run(tid, socket, events).sessions, addr)
  {
    var before, e := events[..|events| - 1], events[|events| - 1];
    var w := Run(tid, socket, before);
    assert Run(tid, socket, events) == Step(w, e);
    hide Run, OnRecord;
    if Enabled(w, e) {
      if e.Packet? && e.addr == addr {
        PacketRecords(w, e);
      } else {
        OtherStepRecords(w, e, addr);
      }
    }
    hide Step;
    if addr in w.sessions.peerStreams {
      HeardIsRecorded(tid, socket, before, addr);
    }
  }

  /**
   * Over every run, a cleanup tick gives up a session exactly when its address is on record as heard more than 300
   * whole seconds ago, that is 301 seconds or more.
   */
  lemma GivenUpExactly(tid: u32, socket: nat, events: seq<Event>, now: nat, order: seq<SocketAddr>,
                       addr: SocketAddr)
    requires var w := Run(tid, socket, events);
      Enabled(w, Tick(now, order)) && addr in w.sessions.peerStreams
    ensures addr !in Run(tid, socket, events + [Tick(now, order)]).sessions.peerStreams <==>
      match Heard(tid, socket, events, addr)
      case None => false
      case Some(t) => t + 301_000 <= now
  {
    var w, e := Run(tid, socket, events), Tick(now, order);
    assert (events + [e])[..|events|] == events;
    assert Run(tid, socket, events + [e]) == Step(w, e);
    ExpiresListed(w.sessions, w.server, order, addr);
    HeardIsRecorded(tid, socket, events, addr);
    hide ExpireAll, Heard;
    assert addr in order <==> IsStale(w.sessions, addr, now);
  }

  /** A tick gives up exactly the stale sessions, and leaves the streams and the times of all others as they are. */
  lemma ExpiresExactly(s: Sessions, t: Server.Tables, now: nat, order: seq<SocketAddr>,
                       addr: SocketAddr)
    requires Enumerates(order, Stale(s, now))
    ensures var s' := ExpireAll(s, t, order).0;
      && (addr in s'.peerStreams <==> addr in s.peerStreams && !IsStale(s, addr, now))
      && (addr in s'.peerStreams ==>
            s'.peerStreams[addr] == s.peerStreams[addr] && OnRecord(s', addr) == OnRecord(s, addr))
  {
    ExpiresListed(s, t, order, addr);
    assert addr in order <==> IsStale(s, addr, now);
  }

  /** A session whose address is on record is given up by some tick right after, if the listener runs. */
  lemma RecordedSessionCanExpire(tid: u32, socket: nat, events: seq<Event>, addr: SocketAddr)
    returns (now: nat, order: seq<SocketAddr>)
    requires var w := Run(tid, socket, events); w.running && addr in w.sessions.peerStreams
    requires Heard(tid, socket, events, addr).Some?
    ensures Enabled(Run(tid, socket, events), Tick(now, order))
    ensures addr !in Run(tid, socket, events + [Tick(now, order)]).sessions.peerStreams
  {
    now := Heard(tid, socket, events, addr).value + (SESSION_TIMEOUT_SECS + 1) * 1000;
    order := Enumeration(Stale(Run(tid, socket, events).sessions, now));
    GivenUpExactly(tid, socket, events, now, order, addr);
  }

  /** Without a packet from the address, what is on record of it stays as it is. */
  predicate Silent(more: seq<Event>, addr: SocketAddr) {
    forall e | e in more :: !(e.Packet? && e.addr == addr)
  }

  /** A mapped address with no time on record keeps its session as long as it is silent, whatever else happens. */
  lemma {:induction false} UnrecordedSessionStays(tid: u32, socket: nat, events: seq<Event>, more: seq<Event>,
                                                  addr: SocketAddr)
    requires addr in Run(tid, socket, events).sessions.peerStreams
    requires Heard(tid, socket, events, addr) == None && Silent(more, addr)
    ensures var w := Run(tid, socket, events + more);
      && addr in w.sessions.peerStreams
      && w.sessions.peerStreams[addr] == Run(tid, socket, events).sessions.peerStreams[addr]
      && Heard(tid, socket, events + more, addr) == None
  {
    hide Run, Heard;
    if more == [] {
      assert events + more == events;
    } else {
      var n, e := |more| - 1, more[|more| - 1];
      UnrecordedSessionStays(tid, socket, events, more[..n], addr);
      assert e in more;
      OneMoreSilent(tid, socket, events + more[..n], e, addr);
      assert (events + more[..n]) + [e] == events + more;
    }
  }

  lemma OneMoreSilent(tid: u32, socket: nat, events: seq<Event>, e: Event, addr: SocketAddr)
    requires addr in Run(tid, socket, events).sessions.peerStreams
    requires Heard(tid, socket, events, addr) == None && !(e.Packet? && e.addr == addr)
    ensures var s := Run(tid, socket, events + [e]).sessions;
      && addr in s.peerStreams && s.peerStreams[addr] == Run(tid, socket, events).sessions.peerStreams[addr]
      && Heard(tid, socket, events + [e], addr) == None
  {
    hide Step;
    HeardIsRecorded(tid, socket, events, addr);
    assert (events + [e])[..|events|] == events;
    SilentStepKeeps(Run(tid, socket, events), e, addr);
  }

  lemma SilentStepKeeps(w: World, e: Event, addr: SocketAddr)
    requires addr in w.sessions.peerStreams && addr !in w.sessions.lastSeen && !(e.Packet? && e.addr == addr)
    ensures var s := Step(w, e).sessions;
      addr in s.peerStreams && s.peerStreams[addr] == w.sessions.peerStreams[addr]
  {
    hide Server.OnFrame, Server.RegisterUdp, Server.AcceptTcp, ExpireAll;
    if e.Tick? && Enabled(w, e) {
      ExpiresListed(w.sessions, w.server, e.order, addr);
    }
  }

  /**
   * So a session reopened after the client closed the previous one, and silent from then on, is never given up. Here
   * is the shortest such run, with anything that may follow it: the session stays, and is live until the client
   * closes it.
   */
  lemma ReopenedSessionNeverExpires(tid: u32, socket: nat, addr: SocketAddr, c: Server.Choice,
                                    more: seq<Event>)
    requires Silent(more, addr)
    ensures var events := [Packet(addr, [], 0), ClientSends(StreamClose(1), c), Packet(addr, [], 1)];
      var w := Run(tid, socket, events + more);
      && addr in w.sessions.peerStreams && w.sessions.peerStreams[addr] == 2
      && 2 in Run(tid, socket, events).server.udpPeers
  {
    ReopenedSession(tid, socket, addr, c);
    var events := [Packet(addr, [], 0), ClientSends(StreamClose(1), c), Packet(addr, [], 1)];
    UnrecordedSessionStays(tid, socket, events, more, addr);
  }

  lemma ReopenedSession(tid: u32, socket: nat, addr: SocketAddr, c: Server.Choice)
    ensures var events := [Packet(addr, [], 0), ClientSends(StreamClose(1), c), Packet(addr, [], 1)];
      var w := Run(tid, socket, events);
      && addr in w.sessions.peerStreams && w.sessions.peerStreams[addr] == 2 && 2 in w.server.udpPeers
      && Heard(tid, socket, events, addr) == None
  {
    var e1, e2, e3 := Packet(addr, [], 0), ClientSends(StreamClose(1), c), Packet(addr, [], 1);
    var events := [e1, e2, e3];
    ClosedSession(tid, socket, addr, c);
    assert events[..2] == [e1, e2];
    var w2 := Run(tid, socket, [e1, e2]);
    PacketIsForwarded(w2, addr, [], 1);
    assert Run(tid, socket, events) == Step(w2, e3);
    hide Run, Step;
  }

  lemma ClosedSession(tid: u32, socket: nat, addr: SocketAddr, c: Server.Choice)
    ensures var w := Run(tid, socket, [Packet(addr, [], 0), ClientSends(StreamClose(1), c)]);
      w.running && w.nextSid == 2 && w.sessions.peerStreams == map[addr := 1] && 1 !in w.server.udpPeers
  {
    var e1, e2 := Packet(addr, [], 0), ClientSends(StreamClose(1), c);
    FirstSession(tid, socket, addr);
    assert [e1, e2][..1] == [e1] && [e1][..0] == [];
    assert Run(tid, socket, [e1]) == Step(Start(tid, socket), e1);
    assert Run(tid, socket, [e1, e2]) == Step(Step(Start(tid, socket), e1), e2);
    hide Run;
  }

  lemma FirstSession(tid: u32, socket: nat, addr: SocketAddr)
    ensures var w := Step(Start(tid, socket), Packet(addr, [], 0));
      w.running && w.nextSid == 2 && w.sessions.peerStreams == map[addr := 1] && 1 in w.server.udpPeers
  {
  }
}
