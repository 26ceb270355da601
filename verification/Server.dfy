/**
 * The tables one server keeps for one connected client (`ServerState` in server/src/main.rs), and what each
 * received frame and each local event does to them. The functions on `Tables` say what happens; the class does it.
 */
module Server {
  import opened Base
  import opened Wire

  const BIND_ATTEMPTS: nat := 10

  /** `watch` names the shutdown channel whose sending half the tunnel owns. */
  datatype ActiveTunnel = ActiveTunnel(remotePort: u16, protocol: TunnelProtocol, dbId: u32, watch: nat)

  datatype ListenerKind = TcpListener | UdpListener

  /** A listener task, holding a receiver of shutdown channel `watch`. */
  datatype Listener = Listener(tunnelId: u32, kind: ListenerKind, watch: nat)

  /** `socket` names the listener socket that replies leave through. */
  datatype UdpPeer = UdpPeer(addr: SocketAddr, socket: nat, bytesOut: nat)

  /**
   * `listeners` are all listener tasks ever started, `watches` counts the shutdown channels made, and `ended`
   * holds those whose receivers have been woken, by a signal or because the sender was dropped.
   */
  datatype Tables = Tables(
    tunnels: map<u32, ActiveTunnel>,
    streams: set<u64>,
    udpPeers: map<u64, UdpPeer>,
    streamTunnel: map<u64, u32>,
    listeners: set<Listener>,
    watches: nat,
    ended: set<nat>)

  const EMPTY_TABLES := Tables(map[], {}, map[], map[], {}, 0, {})

  /** The listeners that have not been told to stop. */
  function Running(t: Tables): set<Listener> {
    set l | l in t.listeners && l.watch !in t.ended
  }

  predicate IsValidGamePort(port: u16) {
    port == 80 || port == 443 || (port >= 1024 && port != 9000 && port != 9001)
  }

  // ---------------------------------------------------------------- OpenTunnel

  datatype BindAttempt = Bound | AddrInUse | OtherError

  /** Some attempt succeeds, and every earlier one found the address in use. */
  predicate Binds(attempts: seq<BindAttempt>) {
    exists k :: 0 <= k < |attempts| && attempts[k] == Bound && forall j :: 0 <= j < k ==> attempts[j] == AddrInUse
  }

  function Wants(protocol: TunnelProtocol, kind: ListenerKind): bool {
    protocol == Both || protocol == (if kind == TcpListener then Tcp else Udp)
  }

  function Requested(tid: u32, protocol: TunnelProtocol, watch: nat): set<Listener> {
    set kind | kind in {TcpListener, UdpListener} && Wants(protocol, kind) :: Listener(tid, kind, watch)
  }

  /** What one OpenTunnel does, given whether the TCP and the UDP port can be bound. */
  function OpenOutcome(t: Tables, m: Message, tcpBinds: bool, udpBinds: bool): (Tables, seq<Frame>)
    requires m.OpenTunnel?
  {
    var tid, refusal := m.tunnelId, [Control(CloseTunnel(m.tunnelId))];
    if !IsValidGamePort(m.remotePort) then (t, refusal)
    else if tid in t.tunnels then (t, [])
    else
      var w := t.watches;
      if Wants(m.protocol, TcpListener) && !tcpBinds then
        (t.(watches := w + 1, ended := t.ended + {w}), refusal)
      else if Wants(m.protocol, UdpListener) && !udpBinds then
        var started := if Wants(m.protocol, TcpListener) then {Listener(tid, TcpListener, w)} else {};
        (t.(watches := w + 1, ended := t.ended + {w}, listeners := t.listeners + started), refusal)
      else
        (t.(watches := w + 1,
            listeners := t.listeners + Requested(tid, m.protocol, w),
            tunnels := t.tunnels[tid := ActiveTunnel(m.remotePort, m.protocol, m.dbId, w)]),
         [Control(TunnelOpened(tid))])
  }

  // ---------------------------------------------------------------- streams

  function StreamsOf(t: Tables, tid: u32): set<u64> {
    set sid | sid in t.streamTunnel && t.streamTunnel[sid] == tid
  }

  function WithoutStreams(t: Tables, gone: set<u64>): Tables {
    t.(streams := t.streams - gone, udpPeers := t.udpPeers - gone, streamTunnel := t.streamTunnel - gone)
  }

  lemma WithoutOneMore(t: Tables, gone: set<u64>, sid: u64)
    ensures WithoutStreams(WithoutStreams(t, gone), {sid}) == WithoutStreams(t, gone + {sid})
  {
    assert t.streamTunnel - gone - {sid} == t.streamTunnel - (gone + {sid});
    assert t.udpPeers - gone - {sid} == t.udpPeers - (gone + {sid});
  }

  function StreamCloses(order: seq<u64>): (frames: seq<Frame>)
    ensures |frames| == |order|
    ensures forall i :: 0 <= i < |order| ==> frames[i] == StreamClose(order[i])
  {
    seq(|order|, i requires 0 <= i < |order| => StreamClose(order[i]))
  }

  /** Closing a tunnel; `order` is the order in which its streams come out of the table. */
  function OnCloseTunnel(t: Tables, tid: u32, order: seq<u64>): (Tables, seq<Frame>) {
    var ended := if tid in t.tunnels then t.ended + {t.tunnels[tid].watch} else t.ended;
    (WithoutStreams(t.(tunnels := t.tunnels - {tid}, ended := ended), StreamsOf(t, tid)), StreamCloses(order))
  }

  /** `taken` says whether the player task still takes the bytes off its channel. */
  function OnData(t: Tables, sid: u64, payload: Bytes, taken: bool): (Tables, seq<Frame>) {
    if sid in t.streams then
      if taken then (t, [])
      else (t.(streams := t.streams - {sid}, streamTunnel := t.streamTunnel - {sid}), [StreamClose(sid)])
    else if sid in t.udpPeers then
      var peer := t.udpPeers[sid];
      (t.(udpPeers := t.udpPeers[sid := peer.(bytesOut := peer.bytesOut + |payload|)]), [])
    else (t, [])
  }

  function OnStreamClose(t: Tables, sid: u64): Tables {
    WithoutStreams(t, {sid})
  }

  /** A TCP player was accepted on a listener of tunnel `tid` and given stream `sid`. */
  function AcceptTcp(t: Tables, tid: u32, sid: u64, peer: SocketAddr): (Tables, seq<Frame>) {
    (t.(streams := t.streams + {sid}, streamTunnel := t.streamTunnel[sid := tid]),
     [Control(NewConnection(tid, sid, false, Some(peer)))])
  }

  /** The task of TCP player `sid` has ended. */
  function PlayerClosed(t: Tables, sid: u64): (Tables, seq<Frame>) {
    (t.(streams := t.streams - {sid}, streamTunnel := t.streamTunnel - {sid}), [StreamClose(sid)])
  }

  /** A packet from an unknown address opened stream `sid` on the UDP listener `socket` of tunnel `tid`. */
  function RegisterUdp(t: Tables, tid: u32, sid: u64, addr: SocketAddr, socket: nat): (Tables, seq<Frame>) {
    (t.(udpPeers := t.udpPeers[sid := UdpPeer(addr, socket, 0)], streamTunnel := t.streamTunnel[sid := tid]),
     [Control(NewConnection(tid, sid, true, Some(addr)))])
  }

  /** The UDP listener gave up stream `sid` after a long silence. */
  function ExpireUdp(t: Tables, sid: u64): (Tables, seq<Frame>) {
    (t.(udpPeers := t.udpPeers - {sid}, streamTunnel := t.streamTunnel - {sid}), [StreamClose(sid)])
  }

  /** The connection is lost: every tunnel is shut down and the TCP streams are dropped. */
  function Disconnected(t: Tables): Tables {
    t.(tunnels := map[], streams := {}, ended := t.ended + (set tid | tid in t.tunnels :: t.tunnels[tid].watch))
  }

  // ---------------------------------------------------------------- one received frame

  /** What the world decides while a frame is handled. */
  datatype Choice = Choice(tcpBinds: bool, udpBinds: bool, taken: bool, order: seq<u64>, pongFits: bool)

  /** The closing order offered is one in which a hash table could list the tunnel's streams. */
  predicate ChoiceFits(t: Tables, f: Frame, c: Choice) {
    f.Control? && f.msg.CloseTunnel? ==> Enumerates(c.order, StreamsOf(t, f.msg.tunnelId))
  }

  function OnFrame(t: Tables, f: Frame, c: Choice): (Tables, seq<Frame>) {
    match f
    case Data(sid, payload) => OnData(t, sid, payload, c.taken)
    case StreamClose(sid) => (OnStreamClose(t, sid), [])
    case Control(m) =>
      match m
      case OpenTunnel(_, _, _, _) => OpenOutcome(t, m, c.tcpBinds, c.udpBinds)
      case CloseTunnel(tid) => OnCloseTunnel(t, tid, c.order)
      case Ping => (t, if c.pongFits then [Control(Pong)] else [])
      case _ => (t, [])
  }

  // ---------------------------------------------------------------- the state object

  class ServerState {
    var tunnels: map<u32, ActiveTunnel>
    var streams: set<u64>
    var udpPeers: map<u64, UdpPeer>
    var streamTunnel: map<u64, u32>
    var listeners: set<Listener>
    var watches: nat
    var ended: set<nat>
    /** Frames handed to the writer task, oldest first. */
    var outbox: seq<Frame>

    ghost function View(): Tables
      reads this
    {
      Tables(tunnels, streams, udpPeers, streamTunnel, listeners, watches, ended)
    }

    constructor ()
      ensures View() == EMPTY_TABLES && outbox == []
    {
      tunnels, streams, udpPeers, streamTunnel := map[], {}, map[], map[];
      listeners, watches, ended, outbox := {}, 0, {}, [];
    }

    method Send(f: Frame)
      modifies this`outbox
      ensures outbox == old(outbox) + [f]
    {
      outbox := outbox + [f];
    }

    /** Up to ten attempts; an address in use is tried again, any other failure is final. */
    method BindWithRetry(attempts: seq<BindAttempt>) returns (bound: bool)
      requires |attempts| == BIND_ATTEMPTS
      ensures bound <==> Binds(attempts)
    {
      for attempt := 0 to BIND_ATTEMPTS
        invariant forall j :: 0 <= j < attempt ==> attempts[j] == AddrInUse
      {
        match attempts[attempt] {
          case Bound => return true;
          case AddrInUse =>
          case OtherError => return false;
        }
      }
      return false;
    }

    method OnOpenTunnel(m: Message, tcpAttempts: seq<BindAttempt>, udpAttempts: seq<BindAttempt>)
      requires m.OpenTunnel? && |tcpAttempts| == |udpAttempts| == BIND_ATTEMPTS
      modifies this
      ensures var (t, out) := OpenOutcome(old(View()), m, Binds(tcpAttempts), Binds(udpAttempts));
        View() == t && outbox == old(outbox) + out
    {
      if !IsValidGamePort(m.remotePort) {
        Send(Control(CloseTunnel(m.tunnelId)));
        return;
      }
      if m.tunnelId in tunnels {
        return;
      }
      var watch := watches;
      watches := watches + 1;
      if m.protocol == Tcp || m.protocol == Both {
        var bound := BindWithRetry(tcpAttempts);
        if !bound {
          Send(Control(CloseTunnel(m.tunnelId)));
          ended := ended + {watch};  // the sending half goes out of scope here
          return;
        }
        listeners := listeners + {Listener(m.tunnelId, TcpListener, watch)};
      }
      if m.protocol == Udp || m.protocol == Both {
        var bound := BindWithRetry(udpAttempts);
        if !bound {
          Send(Control(CloseTunnel(m.tunnelId)));
          ended := ended + {watch};  // and here
          return;
        }
        listeners := listeners + {Listener(m.tunnelId, UdpListener, watch)};
      }
      assert listeners == old(listeners) + Requested(m.tunnelId, m.protocol, watch);
      tunnels := tunnels[m.tunnelId := ActiveTunnel(m.remotePort, m.protocol, m.dbId, watch)];
      Send(Control(TunnelOpened(m.tunnelId)));
    }

    /** Returns the closed streams in the order in which the table listed them. */
    method CloseTunnelStreams(tid: u32) returns (sids: seq<u64>)
      modifies this
      ensures Enumerates(sids, StreamsOf(old(View()), tid))
      ensures var (t, out) := OnCloseTunnel(old(View()), tid, sids); View() == t && outbox == old(outbox) + out
    {
      if tid in tunnels {
        ended := ended + {tunnels[tid].watch};
        tunnels := tunnels - {tid};
      }
      sids := [];
      var left := set sid | sid in streamTunnel && streamTunnel[sid] == tid;
      ghost var all, start := left, View();
      while left != {}
        invariant left <= all
        invariant Enumerates(sids, all - left)
        invariant View() == WithoutStreams(start, all - left)
        invariant outbox == old(outbox) + StreamCloses(sids)
      {
        var sid :| sid in left;
        WithoutOneMore(start, all - left, sid);
        EnumeratesNext(sids, all - left, sid);
        streams, udpPeers, streamTunnel := streams - {sid}, udpPeers - {sid}, streamTunnel - {sid};
        Send(StreamClose(sid));
        assert StreamCloses(sids + [sid]) == StreamCloses(sids) + [StreamClose(sid)];
        assert all - (left - {sid}) == (all - left) + {sid};
        sids, left := sids + [sid], left - {sid};
      }
      assert all - left == all;
    }

    /** `taken` is the outcome of sending on the player's channel, when there is one. */
    method ForwardData(sid: u64, payload: Bytes, taken: bool)
      modifies this
      ensures var (t, out) := OnData(old(View()), sid, payload, taken); View() == t && outbox == old(outbox) + out
    {
      if sid in streams {
        if !taken {
          Send(StreamClose(sid));
          streams := streams - {sid};
          streamTunnel := streamTunnel - {sid};
        }
      } else if sid in udpPeers {
        var peer := udpPeers[sid];
        udpPeers := udpPeers[sid := peer.(bytesOut := peer.bytesOut + |payload|)];
      }
    }

    /** One turn of the frame loop of `handle_client`. */
    method HandleFrame(f: Frame, tcpAttempts: seq<BindAttempt>, udpAttempts: seq<BindAttempt>,
                       taken: bool, pongFits: bool) returns (order: seq<u64>)
      requires |tcpAttempts| == |udpAttempts| == BIND_ATTEMPTS
      modifies this
      ensures var c := Choice(Binds(tcpAttempts), Binds(udpAttempts), taken, order, pongFits);
        && ChoiceFits(old(View()), f, c)
        && var (t, out) := OnFrame(old(View()), f, c); View() == t && outbox == old(outbox) + out
    {
      order := [];
      match f {
        case Data(sid, payload) => ForwardData(sid, payload, taken);
        case StreamClose(sid) =>
          streams, udpPeers, streamTunnel := streams - {sid}, udpPeers - {sid}, streamTunnel - {sid};
        case Control(m) =>
          match m {
            case OpenTunnel(_, _, _, _) => OnOpenTunnel(m, tcpAttempts, udpAttempts);
            case CloseTunnel(tid) => order := CloseTunnelStreams(tid);
            case Ping =>
              if pongFits {
                Send(Control(Pong));
              }
            case _ =>
          }
      }
    }

    method TcpAccepted(tid: u32, sid: u64, peer: SocketAddr)
      modifies this
      ensures var (t, out) := AcceptTcp(old(View()), tid, sid, peer); View() == t && outbox == old(outbox) + out
    {
      streams := streams + {sid};
      streamTunnel := streamTunnel[sid := tid];
      Send(Control(NewConnection(tid, sid, false, Some(peer))));
    }

    method PlayerStreamEnded(sid: u64)
      modifies this
      ensures var (t, out) := PlayerClosed(old(View()), sid); View() == t && outbox == old(outbox) + out
    {
      Send(StreamClose(sid));
      streams := streams - {sid};
      streamTunnel := streamTunnel - {sid};
    }

    method Shutdown()
      modifies this
      ensures View() == Disconnected(old(View())) && outbox == old(outbox)
    {
      var left := tunnels.Keys;
      while left != {}
        invariant left <= old(tunnels).Keys == tunnels.Keys && tunnels == old(tunnels)
        invariant ended == old(ended) + set tid | tid in old(tunnels) && tid !in left :: tunnels[tid].watch
        invariant unchanged(`streams, `udpPeers, `streamTunnel, `listeners, `watches, `outbox)
      {
        var tid :| tid in left;
        ended, left := ended + {tunnels[tid].watch}, left - {tid};
      }
      tunnels, streams := map[], {};
    }
  }

  // ---------------------------------------------------------------- CloseTunnel is exact

  /** TCP and UDP streams are disjoint, and together they are the streams with a tunnel. */
  ghost predicate StreamTablesFit(t: Tables) {
    t.streams !! t.udpPeers.Keys && t.streams + t.udpPeers.Keys == t.streamTunnel.Keys
  }

  /** Closing a tunnel removes exactly its streams from every table and sends exactly one StreamClose for each. */
  lemma CloseTunnelIsExact(t: Tables, tid: u32, order: seq<u64>)
    requires StreamTablesFit(t) && Enumerates(order, StreamsOf(t, tid))
    ensures var (t', out) := OnCloseTunnel(t, tid, order);
      && StreamTablesFit(t')
      && t'.streams == t.streams - StreamsOf(t, tid)
      && t'.udpPeers.Keys == t.udpPeers.Keys - StreamsOf(t, tid)
      && (forall sid | sid in t'.udpPeers :: t'.udpPeers[sid] == t.udpPeers[sid])
      && (forall sid :: sid in t'.streamTunnel <==> sid in t.streamTunnel && t.streamTunnel[sid] != tid)
      && (forall sid | sid in t'.streamTunnel :: t'.streamTunnel[sid] == t.streamTunnel[sid])
      && t'.tunnels == t.tunnels - {tid}
      && (forall sid :: StreamClose(sid) in out <==> sid in t.streamTunnel && t.streamTunnel[sid] == tid)
      && NoDuplicates(out) && |out| == |StreamsOf(t, tid)|
  {
    var out := StreamCloses(order);
    forall sid
      ensures StreamClose(sid) in out <==> sid in StreamsOf(t, tid)
    {
      if sid in order {
        var i :| 0 <= i < |order| && order[i] == sid;
        assert out[i] == StreamClose(sid);
      }
    }
    EnumerationLength(order, StreamsOf(t, tid));
  }

  // ---------------------------------------------------------------- OpenTunnel is all or nothing

  /** Shutdown channels are numbered in the order they were made; each recorded tunnel holds its own, still open one. */
  ghost predicate WatchesFit(t: Tables) {
    && (forall l | l in t.listeners :: l.watch < t.watches)
    && (forall w | w in t.ended :: w < t.watches)
    && (forall tid | tid in t.tunnels :: t.tunnels[tid].watch < t.watches && t.tunnels[tid].watch !in t.ended)
    && (forall a, b | a in t.tunnels && b in t.tunnels && a != b :: t.tunnels[a].watch != t.tunnels[b].watch)
  }

  /** The running listeners are exactly those the recorded tunnels asked for: none is orphaned, none is missing. */
  ghost predicate ListenersMatch(t: Tables) {
    && WatchesFit(t)
    && (forall l | l in Running(t) ::
          && l.tunnelId in t.tunnels
          && l in Requested(l.tunnelId, t.tunnels[l.tunnelId].protocol, t.tunnels[l.tunnelId].watch))
    && (forall tid | tid in t.tunnels :: Requested(tid, t.tunnels[tid].protocol, t.tunnels[tid].watch) <= Running(t))
  }

  /** The tunnel can be opened: its port is allowed, its id is new, and every requested port can be bound. */
  predicate CanOpen(t: Tables, m: Message, tcpBinds: bool, udpBinds: bool)
    requires m.OpenTunnel?
  {
    && IsValidGamePort(m.remotePort) && m.tunnelId !in t.tunnels
    && (Wants(m.protocol, TcpListener) ==> tcpBinds)
    && (Wants(m.protocol, UdpListener) ==> udpBinds)
  }

  /**
   * Either the tunnel is recorded with every requested listener running and TunnelOpened goes out, or nothing
   * is recorded, no listener is left running that was not running before, and one CloseTunnel goes out, or
   * none at all when the id was already in use.
   */
  lemma OpenIsAllOrNothing(t: Tables, m: Message, tcpBinds: bool, udpBinds: bool)
    requires m.OpenTunnel? && WatchesFit(t)
    ensures var (t', out) := OpenOutcome(t, m, tcpBinds, udpBinds);
      if CanOpen(t, m, tcpBinds, udpBinds) then
        && t'.tunnels == t.tunnels[m.tunnelId := ActiveTunnel(m.remotePort, m.protocol, m.dbId, t.watches)]
        && Running(t') == Running(t) + Requested(m.tunnelId, m.protocol, t.watches)
        && out == [Control(TunnelOpened(m.tunnelId))]
      else
        && t'.tunnels == t.tunnels
        && Running(t') == Running(t)
        && out == (if IsValidGamePort(m.remotePort) && m.tunnelId in t.tunnels then []
                   else [Control(CloseTunnel(m.tunnelId))])
  {
    var (t', out) := OpenOutcome(t, m, tcpBinds, udpBinds);
    if CanOpen(t, m, tcpBinds, udpBinds) {
      assert forall l | l in Requested(m.tunnelId, m.protocol, t.watches) :: l.watch == t.watches;
    }
  }

  /**
   * The same with every port, protocol and listener written out: 80, 443 and the ports from 1024 on are allowed,
   * except 9000 and 9001; a TCP tunnel needs the TCP port and starts one TCP listener, a UDP tunnel needs the UDP port
   * and starts one UDP listener, and a tunnel for both needs and starts both.
   */
  lemma OpenWrittenOut(t: Tables, tid: u32, port: u16, protocol: TunnelProtocol, dbId: u32,
                       tcpBinds: bool, udpBinds: bool)
    requires WatchesFit(t)
    ensures var (t', out) := OpenOutcome(t, OpenTunnel(tid, port, protocol, dbId), tcpBinds, udpBinds);
      var allowed := port == 80 || port == 443 || (1024 <= port && port != 9000 && port != 9001);
      var tcp, udp := Listener(tid, TcpListener, t.watches), Listener(tid, UdpListener, t.watches);
      var (bound, started) :=
        match protocol
        case Tcp => (tcpBinds, {tcp})
        case Udp => (udpBinds, {udp})
        case Both => (tcpBinds && udpBinds, {tcp, udp});
      if allowed && tid !in t.tunnels && bound then
        && t'.tunnels == t.tunnels[tid := ActiveTunnel(port, protocol, dbId, t.watches)]
        && Running(t') == Running(t) + started
        && out == [Control(TunnelOpened(tid))]
      else
        && t'.tunnels == t.tunnels
        && Running(t') == Running(t)
        && out == (if allowed && tid in t.tunnels then [] else [Control(CloseTunnel(tid))])
  {
    OpenIsAllOrNothing(t, OpenTunnel(tid, port, protocol, dbId), tcpBinds, udpBinds);
    hide OpenOutcome;
    RequestedExactly(tid, protocol, t.watches, TcpListener);
    RequestedExactly(tid, protocol, t.watches, UdpListener);
    assert forall l | l in Requested(tid, protocol, t.watches) :: l.tunnelId == tid && l.watch == t.watches;
  }

  /** Opening a tunnel touches no stream. */
  lemma OpenKeepsStreams(t: Tables, m: Message, tcpBinds: bool, udpBinds: bool)
    requires m.OpenTunnel?
    ensures var t' := OpenOutcome(t, m, tcpBinds, udpBinds).0;
      t'.streams == t.streams && t'.udpPeers == t.udpPeers && t'.streamTunnel == t.streamTunnel
  {
  }

  /** A listener kind is requested exactly when the protocol asks for it. */
  lemma RequestedExactly(tid: u32, protocol: TunnelProtocol, watch: nat, kind: ListenerKind)
    ensures Listener(tid, kind, watch) in Requested(tid, protocol, watch) <==> Wants(protocol, kind)
  {
    if Listener(tid, kind, watch) in Requested(tid, protocol, watch) {
      var k :| k in {TcpListener, UdpListener} && Wants(protocol, k)
        && Listener(tid, kind, watch) == Listener(tid, k, watch);
    } else {
      assert kind in {TcpListener, UdpListener};
    }
  }

  lemma OpenKeepsListeners(t: Tables, m: Message, tcpBinds: bool, udpBinds: bool)
    requires m.OpenTunnel? && ListenersMatch(t)
    ensures ListenersMatch(OpenOutcome(t, m, tcpBinds, udpBinds).0)
  {
    OpenIsAllOrNothing(t, m, tcpBinds, udpBinds);
    var t' := OpenOutcome(t, m, tcpBinds, udpBinds).0;
    forall l | l in Requested(m.tunnelId, m.protocol, t.watches)
      ensures l.tunnelId == m.tunnelId && l.watch == t.watches
    {
    }
  }

  lemma CloseKeepsListeners(t: Tables, tid: u32, order: seq<u64>)
    requires ListenersMatch(t)
    ensures ListenersMatch(OnCloseTunnel(t, tid, order).0)
  {
    var t' := OnCloseTunnel(t, tid, order).0;
    if tid in t.tunnels {
      forall other | other in t'.tunnels
        ensures Requested(other, t.tunnels[other].protocol, t.tunnels[other].watch) <= Running(t')
      {
        assert forall l | l in Requested(other, t.tunnels[other].protocol, t.tunnels[other].watch) ::
          l.watch == t.tunnels[other].watch;
      }
    }
  }

  /** Every frame a server can receive, in any state and with any outcome, keeps listeners and tunnels matched. */
  lemma {:induction false} FrameKeepsListeners(t: Tables, f: Frame, c: Choice)
    requires ListenersMatch(t)
    ensures ListenersMatch(OnFrame(t, f, c).0)
  {
    if f.Control? && f.msg.OpenTunnel? {
      OpenKeepsListeners(t, f.msg, c.tcpBinds, c.udpBinds);
    } else if f.Control? && f.msg.CloseTunnel? {
      CloseKeepsListeners(t, f.msg.tunnelId, c.order);
    } else {
      var t' := OnFrame(t, f, c).0;
      assert Running(t') == Running(t);
    }
  }

  /** A heartbeat is answered, if there is room, and changes nothing; what only a server sends is ignored. */
  lemma OnlyPingIsAnswered(t: Tables, m: Message, c: Choice)
    requires !m.OpenTunnel? && !m.CloseTunnel?
    ensures OnFrame(t, Control(m), c) == (t, if m.Ping? && c.pongFits then [Control(Pong)] else [])
  {
  }

  /** When the connection is lost no listener of it is left running, and no tunnel and no TCP stream is left. */
  lemma DisconnectStopsListeners(t: Tables)
    requires ListenersMatch(t)
    ensures Running(Disconnected(t)) == {}
    ensures Disconnected(t).tunnels == map[] && Disconnected(t).streams == {}
    ensures Disconnected(t).udpPeers == t.udpPeers && Disconnected(t).streamTunnel == t.streamTunnel
  {
    assert forall l | l in Running(Disconnected(t)) :: l in Running(t);
  }
}
