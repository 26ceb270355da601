/**
 * Tunnels across one client and any number of servers, as a transition system with a first-in first-out queue
 * in each direction of every connection. The two sides of a connection agree up to the messages under way.
 */
module TunnelNet {
  import opened Base
  import opened Wire
  import Client
  import Server

  // ---------------------------------------------------------------- states and steps

  /** A server's tables for the client, and the frames under way from it; those towards it are in the client's queue. */
  datatype Peer = Peer(tables: Server.Tables, down: seq<Frame>)

  /** `openedOn` remembers on which server each tunnel id was opened. */
  datatype Net = Net(client: Client.Client, servers: map<u32, Peer>, openedOn: map<u32, u32>)

  datatype Event =
    | Connect(server: u32)
    | Lost(server: u32)
    | SyncClose(dbId: u32, reopen: bool)
    | SyncOpen(row: Client.DbTunnel, server: u32)
    | SpendId
    | ServerReceives(server: u32, choice: Server.Choice)
    | ClientReceives(server: u32, taken: bool)
    | ServerStreams(server: u32, streams: set<u64>, udpPeers: map<u64, Server.UdpPeer>, streamTunnel: map<u64, u32>,
                    out: seq<Frame>)
    | ClientStreams(server: u32, streams: set<u64>, streamTunnel: map<u64, u32>, out: seq<Frame>)

  const START := Net(Client.EMPTY_CLIENT, map[], map[])

  predicate IsOpen(f: Frame) {
    f.Control? && f.msg.OpenTunnel?
  }

  predicate IsClose(f: Frame) {
    f.Control? && f.msg.CloseTunnel?
  }

  /** Frames about streams and heartbeats; they open and close no tunnel. */
  predicate NoTunnelFrames(frames: seq<Frame>) {
    forall f | f in frames :: !IsOpen(f) && !IsClose(f)
  }

  predicate Enabled(n: Net, e: Event) {
    match e
    case Connect(s) => s !in n.client.links
    case Lost(s) => s in n.client.links
    case SyncClose(_, _) => true
    case SyncOpen(d, s) =>
      s in n.client.links && d.id !in n.client.tables.tunnels && n.client.nextTid < Client.MAX_TUNNEL_IDS
    case SpendId => n.client.nextTid < Client.MAX_TUNNEL_IDS
    case ServerReceives(s, _) => s in n.servers && s in n.client.links && n.client.links[s] != []
    case ClientReceives(s, _) => s in n.servers && s in n.client.links && n.servers[s].down != []
    case ServerStreams(s, _, _, _, out) => s in n.servers && NoTunnelFrames(out)
    case ClientStreams(s, _, _, out) => s in n.client.links && NoTunnelFrames(out)
  }

  /** One step; an event that is not enabled changes nothing. */
  function Step(n: Net, e: Event): Net {
    if !Enabled(n, e) then n else
    var c := n.client;
    match e
    case Connect(s) =>
      n.(client := c.(links := c.links[s := []]), servers := n.servers[s := Peer(Server.EMPTY_TABLES, [])])
    case Lost(s) =>
      n.(client := c.(tables := Client.Disconnected(c.tables, s), links := c.links - {s}), servers := n.servers - {s})
    case SyncClose(dbId, reopen) => n.(client := Client.Close(c, dbId, reopen))
    case SyncOpen(d, s) =>
      n.(client := Client.Open(c, d, s), openedOn := n.openedOn[Client.NextTid(c) := s])
    case SpendId => n.(client := c.(nextTid := c.nextTid + 1))
    case ServerReceives(s, choice) =>
      var p := n.servers[s];
      var (t, out) := Server.OnFrame(p.tables, c.links[s][0], choice);
      n.(client := c.(links := c.links[s := c.links[s][1..]]), servers := n.servers[s := Peer(t, p.down + out)])
    case ClientReceives(s, taken) =>
      var p := n.servers[s];
      var (t, out) := Client.OnFrame(c.tables, p.down[0], taken);
      n.(client := c.(tables := t, links := c.links[s := c.links[s] + out]),
         servers := n.servers[s := Peer(p.tables, p.down[1..])])
    case ServerStreams(s, streams, udpPeers, streamTunnel, out) =>
      var p := n.servers[s];
      var t := p.tables.(streams := streams, udpPeers := udpPeers, streamTunnel := streamTunnel);
      n.(servers := n.servers[s := Peer(t, p.down + out)])
    case ClientStreams(s, streams, streamTunnel, out) =>
      n.(client := c.(tables := c.tables.(streams := streams, streamTunnel := streamTunnel),
                      links := c.links[s := c.links[s] + out]))
  }

  function Run(events: seq<Event>): Net {
    if events == [] then START else Step(Run(events[..|events| - 1]), events[|events| - 1])
  }

  // ---------------------------------------------------------------- agreement

  /** The tunnels a server with tunnels `ids` will have once it has handled `up`, if it refuses none of them. */
  function Replay(ids: set<u32>, up: seq<Frame>): set<u32>
    decreases up
  {
    if up == [] then ids
    else if IsOpen(up[0]) then Replay(ids + {up[0].msg.tunnelId}, up[1..])
    else if IsClose(up[0]) then Replay(ids - {up[0].msg.tunnelId}, up[1..])
    else Replay(ids, up[1..])
  }

  /** How often a queue asks for a tunnel. */
  function Requests(up: seq<Frame>, tid: u32): nat {
    if up == [] then 0 else (if IsOpen(up[0]) && up[0].msg.tunnelId == tid then 1 else 0) + Requests(up[1..], tid)
  }

  /** The tunnels whose refusal is on its way to the client. */
  function Refused(down: seq<Frame>): set<u32> {
    set f | f in down && IsClose(f) :: f.msg.tunnelId
  }

  /** Every pending Open is for an id that is neither in `ids` nor opened twice. */
  predicate FreshOpens(ids: set<u32>, up: seq<Frame>)
    decreases up
  {
    if up == [] then true
    else if IsOpen(up[0]) then up[0].msg.tunnelId !in ids && FreshOpens(ids + {up[0].msg.tunnelId}, up[1..])
    else FreshOpens(ids, up[1..])
  }

  /** Every tunnel id that occurs on a connection was opened on that server. */
  ghost predicate OpenedHere(s: u32, t: Server.Tables, up: seq<Frame>, down: seq<Frame>, openedOn: map<u32, u32>) {
    && (forall tid | tid in t.tunnels :: tid in openedOn && openedOn[tid] == s)
    && (forall f | f in up && IsOpen(f) :: f.msg.tunnelId in openedOn && openedOn[f.msg.tunnelId] == s)
    && (forall f | f in down && IsClose(f) :: f.msg.tunnelId in openedOn && openedOn[f.msg.tunnelId] == s)
  }

  /** One connection, given the tunnel ids the client has on its server. */
  ghost predicate LinkOk(s: u32, t: Server.Tables, up: seq<Frame>, down: seq<Frame>, ids: set<u32>,
                         openedOn: map<u32, u32>) {
    && Replay(t.tunnels.Keys, up) == ids - Refused(down)
    && FreshOpens(t.tunnels.Keys, up)
    && OpenedHere(s, t, up, down, openedOn)
    && Server.ListenersMatch(t)
  }

  ghost predicate ClientOk(n: Net) {
    && 0 < n.client.nextTid <= Client.MAX_TUNNEL_IDS
    && Client.Coherent(n.client.tables, n.client.nextTid)
    && (forall tid | tid in n.openedOn :: tid < n.client.nextTid)
    && (forall db | db in n.client.tables.tunnels :: var a := n.client.tables.tunnels[db];
          a.serverId in n.client.links && a.tunnelId in n.openedOn && n.openedOn[a.tunnelId] == a.serverId)
  }

  ghost predicate LinkInNet(n: Net, s: u32)
    requires s in n.servers && s in n.client.links
  {
    LinkOk(s, n.servers[s].tables, n.client.links[s], n.servers[s].down, Client.TidsOn(n.client.tables, s), n.openedOn)
  }

  ghost predicate Invariant(n: Net) {
    && ClientOk(n)
    && n.servers.Keys == n.client.links.Keys
    && forall s | s in n.servers :: LinkInNet(n, s)
  }

  // ---------------------------------------------------------------- queues

  lemma {:induction false} ReplayAppend(ids: set<u32>, up: seq<Frame>, more: seq<Frame>)
    ensures Replay(ids, up + more) == Replay(Replay(ids, up), more)
    decreases up
  {
    if up == [] {
      assert up + more == more;
    } else {
      assert (up + more)[0] == up[0] && (up + more)[1..] == up[1..] + more;
      if IsOpen(up[0]) {
        ReplayAppend(ids + {up[0].msg.tunnelId}, up[1..], more);
      } else if IsClose(up[0]) {
        ReplayAppend(ids - {up[0].msg.tunnelId}, up[1..], more);
      } else {
        ReplayAppend(ids, up[1..], more);
      }
    }
  }

  lemma {:induction false} ReplayTraffic(ids: set<u32>, frames: seq<Frame>)
    requires NoTunnelFrames(frames)
    ensures Replay(ids, frames) == ids && FreshOpens(ids, frames)
  {
    if frames != [] {
      ReplayTraffic(ids, frames[1..]);
    }
  }

  lemma ReplayOne(ids: set<u32>, f: Frame)
    ensures IsOpen(f) ==> Replay(ids, [f]) == ids + {f.msg.tunnelId}
    ensures IsClose(f) ==> Replay(ids, [f]) == ids - {f.msg.tunnelId}
  {
    assert [f][1..] == [];
  }

  /** An id that is not opened again leaves the rest of a replay as it is, whether it was there at the start or not. */
  lemma {:induction false} ReplayWithout(ids: set<u32>, tid: u32, up: seq<Frame>)
    requires forall f | f in up && IsOpen(f) :: f.msg.tunnelId != tid
    ensures Replay(ids - {tid}, up) == Replay(ids, up) - {tid}
    decreases up
  {
    if up != [] {
      assert up[0] in up;
      if IsOpen(up[0]) {
        var u := up[0].msg.tunnelId;
        ReplayWithout(ids + {u}, tid, up[1..]);
        assert ids + {u} - {tid} == ids - {tid} + {u};
      } else if IsClose(up[0]) {
        var u := up[0].msg.tunnelId;
        ReplayWithout(ids - {u}, tid, up[1..]);
        assert ids - {u} - {tid} == ids - {tid} - {u};
      } else {
        ReplayWithout(ids, tid, up[1..]);
      }
    }
  }

  lemma {:induction false} FreshWithFewer(ids: set<u32>, fewer: set<u32>, up: seq<Frame>)
    requires FreshOpens(ids, up) && fewer <= ids
    ensures FreshOpens(fewer, up)
    ensures forall f | f in up && IsOpen(f) :: f.msg.tunnelId !in ids
    decreases up
  {
    if up != [] {
      if IsOpen(up[0]) {
        FreshWithFewer(ids + {up[0].msg.tunnelId}, fewer + {up[0].msg.tunnelId}, up[1..]);
      } else {
        FreshWithFewer(ids, fewer, up[1..]);
      }
    }
  }

  lemma {:induction false} FreshAppend(ids: set<u32>, up: seq<Frame>, f: Frame)
    requires FreshOpens(ids, up)
    requires IsOpen(f) ==> f.msg.tunnelId !in ids && forall g | g in up && IsOpen(g) :: g.msg.tunnelId != f.msg.tunnelId
    ensures FreshOpens(ids, up + [f])
    decreases up
  {
    if up == [] {
      assert up + [f] == [f] && [f][1..] == [];
    } else {
      assert (up + [f])[0] == up[0] && (up + [f])[1..] == up[1..] + [f];
      assert up[0] in up;
      FreshAppend(if IsOpen(up[0]) then ids + {up[0].msg.tunnelId} else ids, up[1..], f);
    }
  }

  lemma {:induction false} FreshAppendTraffic(ids: set<u32>, up: seq<Frame>, frames: seq<Frame>)
    requires FreshOpens(ids, up) && NoTunnelFrames(frames)
    ensures FreshOpens(ids, up + frames)
    decreases up
  {
    if up == [] {
      assert up + frames == frames;
      ReplayTraffic(ids, frames);
    } else {
      assert (up + frames)[0] == up[0] && (up + frames)[1..] == up[1..] + frames;
      FreshAppendTraffic(if IsOpen(up[0]) then ids + {up[0].msg.tunnelId} else ids, up[1..], frames);
    }
  }

  // ---------------------------------------------------------------- one connection, step by step

  lemma LinkTraffic(s: u32, t: Server.Tables, up: seq<Frame>, down: seq<Frame>, ids: set<u32>,
                    openedOn: map<u32, u32>, moreUp: seq<Frame>, moreDown: seq<Frame>)
    requires LinkOk(s, t, up, down, ids, openedOn) && NoTunnelFrames(moreUp) && NoTunnelFrames(moreDown)
    ensures LinkOk(s, t, up + moreUp, down + moreDown, ids, openedOn)
  {
    hide Server.ListenersMatch;
    ReplayAppend(t.tunnels.Keys, up, moreUp);
    ReplayTraffic(Replay(t.tunnels.Keys, up), moreUp);
    FreshAppendTraffic(t.tunnels.Keys, up, moreUp);
    assert Refused(down + moreDown) == Refused(down);
  }

  lemma LinkGrows(s: u32, t: Server.Tables, up: seq<Frame>, down: seq<Frame>, ids: set<u32>,
                  openedOn: map<u32, u32>, later: map<u32, u32>)
    requires LinkOk(s, t, up, down, ids, openedOn)
    requires forall tid | tid in openedOn :: tid in later && later[tid] == openedOn[tid]
    ensures LinkOk(s, t, up, down, ids, later)
  {
    hide Server.ListenersMatch;
  }

  /** The client closes one of its tunnels on this server. */
  lemma LinkClose(s: u32, t: Server.Tables, up: seq<Frame>, down: seq<Frame>, ids: set<u32>,
                  openedOn: map<u32, u32>, tid: u32)
    requires LinkOk(s, t, up, down, ids, openedOn)
    ensures LinkOk(s, t, up + [Control(CloseTunnel(tid))], down, ids - {tid}, openedOn)
  {
    hide Server.ListenersMatch;
    ReplayAppend(t.tunnels.Keys, up, [Control(CloseTunnel(tid))]);
    ReplayOne(Replay(t.tunnels.Keys, up), Control(CloseTunnel(tid)));
    FreshAppend(t.tunnels.Keys, up, Control(CloseTunnel(tid)));
  }

  /** The client opens a tunnel on this server under an id never used before. */
  lemma LinkOpen(s: u32, t: Server.Tables, up: seq<Frame>, down: seq<Frame>, ids: set<u32>,
                 openedOn: map<u32, u32>, m: Message)
    requires LinkOk(s, t, up, down, ids, openedOn) && m.OpenTunnel? && m.tunnelId !in openedOn
    ensures LinkOk(s, t, up + [Control(m)], down, ids + {m.tunnelId}, openedOn[m.tunnelId := s])
  {
    hide Server.ListenersMatch;
    ReplayAppend(t.tunnels.Keys, up, [Control(m)]);
    ReplayOne(Replay(t.tunnels.Keys, up), Control(m));
    FreshAppend(t.tunnels.Keys, up, Control(m));
    assert m.tunnelId !in Refused(down);
  }

  /** The client handles the next frame from this server; a refusal takes the tunnel out of its tables. */
  lemma LinkClientReceives(s: u32, t: Server.Tables, up: seq<Frame>, down: seq<Frame>, ids: set<u32>,
                           openedOn: map<u32, u32>)
    requires LinkOk(s, t, up, down, ids, openedOn) && down != []
    ensures LinkOk(s, t, up, down[1..], if IsClose(down[0]) then ids - {down[0].msg.tunnelId} else ids, openedOn)
  {
    hide Server.ListenersMatch;
    assert down == [down[0]] + down[1..];
    var ids' := if IsClose(down[0]) then ids - {down[0].msg.tunnelId} else ids;
    assert Refused(down) == Refused(down[1..]) + if IsClose(down[0]) then {down[0].msg.tunnelId} else {};
  }

  /** The server handles the next frame from the client, whatever comes of it. */
  lemma LinkServerReceives(s: u32, t: Server.Tables, up: seq<Frame>, down: seq<Frame>, ids: set<u32>,
                           openedOn: map<u32, u32>, choice: Server.Choice)
    requires LinkOk(s, t, up, down, ids, openedOn) && up != []
    ensures var (t', out) := Server.OnFrame(t, up[0], choice);
      LinkOk(s, t', up[1..], down + out, ids, openedOn)
  {
    if IsOpen(up[0]) {
      LinkServerOpens(s, t, up, down, ids, openedOn, choice.tcpBinds, choice.udpBinds);
      hide LinkOk, Server.OpenOutcome;
    } else {
      hide Server.OnFrame;
      LinkServerCloses(s, t, up, down, ids, openedOn, choice);
    }
  }

  /** Apart from OpenTunnel, a frame takes at most its own tunnel away, and the answer is about no tunnel. */
  lemma OtherFrameCloses(t: Server.Tables, f: Frame, choice: Server.Choice)
    requires !IsOpen(f)
    ensures var (t', out) := Server.OnFrame(t, f, choice);
      && t'.tunnels.Keys == (if IsClose(f) then t.tunnels.Keys - {f.msg.tunnelId} else t.tunnels.Keys)
      && NoTunnelFrames(out)
  {
  }

  lemma LinkServerCloses(s: u32, t: Server.Tables, up: seq<Frame>, down: seq<Frame>, ids: set<u32>,
                         openedOn: map<u32, u32>, choice: Server.Choice)
    requires LinkOk(s, t, up, down, ids, openedOn) && up != [] && !IsOpen(up[0])
    ensures var (t', out) := Server.OnFrame(t, up[0], choice);
      LinkOk(s, t', up[1..], down + out, ids, openedOn)
  {
    var f, rest := up[0], up[1..];
    var (t', out) := Server.OnFrame(t, f, choice);
    Server.FrameKeepsListeners(t, f, choice);
    OtherFrameCloses(t, f, choice);
    hide Server.ListenersMatch, Server.OnFrame;
    FreshWithFewer(t.tunnels.Keys, t'.tunnels.Keys, rest);
    assert Refused(down + out) == Refused(down);
  }

  lemma LinkServerOpens(s: u32, t: Server.Tables, up: seq<Frame>, down: seq<Frame>, ids: set<u32>,
                        openedOn: map<u32, u32>, tcpBinds: bool, udpBinds: bool)
    requires LinkOk(s, t, up, down, ids, openedOn) && up != [] && IsOpen(up[0])
    ensures var (t', out) := Server.OpenOutcome(t, up[0].msg, tcpBinds, udpBinds);
      LinkOk(s, t', up[1..], down + out, ids, openedOn)
  {
    var m, rest := up[0].msg, up[1..];
    var tid := m.tunnelId;
    var (t', out) := Server.OpenOutcome(t, m, tcpBinds, udpBinds);
    Server.OpenIsAllOrNothing(t, m, tcpBinds, udpBinds);
    Server.OpenKeepsListeners(t, m, tcpBinds, udpBinds);
    hide Server.ListenersMatch, Server.WatchesFit, Server.Running;
    hide Server.OpenOutcome, Server.CanOpen, Server.IsValidGamePort;
    FreshWithFewer(t.tunnels.Keys + {tid}, t.tunnels.Keys, rest);
    if Server.CanOpen(t, m, tcpBinds, udpBinds) {
      assert t'.tunnels.Keys == t.tunnels.Keys + {tid};
      assert Refused(down + out) == Refused(down);
    } else {
      ReplayWithout(t.tunnels.Keys + {tid}, tid, rest);
      assert t.tunnels.Keys + {tid} - {tid} == t.tunnels.Keys;
      assert Refused(down + out) == Refused(down) + {tid};
      assert up[0] in up;
    }
  }

  // ---------------------------------------------------------------- the client's ids per server

  lemma IdsAfterForget(t: Client.Tables, dbId: u32, reopen: bool, nextTid: nat, s: u32)
    requires Client.Coherent(t, nextTid) && dbId in t.tunnels
    ensures Client.TidsOn(Client.Forget(t, dbId, reopen), s) == Client.TidsOn(t, s) - {t.tunnels[dbId].tunnelId}
    ensures t.tunnels[dbId].serverId != s ==> Client.TidsOn(Client.Forget(t, dbId, reopen), s) == Client.TidsOn(t, s)
  {
    hide Client.IsActive, Client.EntriesAgree;
    var t', tid := Client.Forget(t, dbId, reopen), t.tunnels[dbId].tunnelId;
    forall db | db in Client.TidsOn(t, s) && db != tid
      ensures db in Client.TidsOn(t', s)
    {
      var x :| x in Client.TunnelsOn(t, s) && t.tunnels[x].tunnelId == db;
      assert x in Client.TunnelsOn(t', s);
    }
    forall db | db in Client.TidsOn(t', s)
      ensures db in Client.TidsOn(t, s) && db != tid
    {
      var x :| x in Client.TunnelsOn(t', s) && t'.tunnels[x].tunnelId == db;
      assert x in Client.TunnelsOn(t, s);
    }
    assert t.tunnels[dbId].serverId != s ==> forall x | x in Client.TunnelsOn(t, s) :: t.tunnels[x].tunnelId != tid;
  }

  lemma IdsAfterClose(t: Client.Tables, tid: u32, s: u32)
    ensures Client.TidsOn(Client.OnCloseTunnel(t, tid), s) == Client.TidsOn(t, s) - {tid}
  {
    var t' := Client.OnCloseTunnel(t, tid);
    forall db | db in Client.TidsOn(t, s) && db != tid
      ensures db in Client.TidsOn(t', s)
    {
      var x :| x in Client.TunnelsOn(t, s) && t.tunnels[x].tunnelId == db;
      assert x in Client.TunnelsOn(t', s);
    }
    forall db | db in Client.TidsOn(t', s)
      ensures db in Client.TidsOn(t, s) && db != tid
    {
      var x :| x in Client.TunnelsOn(t', s) && t'.tunnels[x].tunnelId == db;
      assert x in Client.TunnelsOn(t, s);
    }
  }

  lemma IdsAfterRecord(t: Client.Tables, d: Client.DbTunnel, tid: u32, server: u32, s: u32)
    requires d.id !in t.tunnels
    ensures Client.TidsOn(Client.Record(t, d, tid, server), s) ==
      Client.TidsOn(t, s) + if s == server then {tid} else {}
  {
    var t' := Client.Record(t, d, tid, server);
    assert t'.tunnels[d.id].tunnelId == tid && t'.tunnels[d.id].serverId == server;
    assert Client.TunnelsOn(t', s) == Client.TunnelsOn(t, s) + if s == server then {d.id} else {};
    forall x | x in Client.TidsOn(t, s)
      ensures x in Client.TidsOn(t', s)
    {
      var db :| db in Client.TunnelsOn(t, s) && t.tunnels[db].tunnelId == x;
      assert db in Client.TunnelsOn(t', s) && t'.tunnels[db].tunnelId == x;
    }
    if s == server {
      assert d.id in Client.TunnelsOn(t', s);
    }
  }

  lemma IdsAfterLoss(t: Client.Tables, lost: u32, s: u32)
    requires s != lost
    ensures Client.TidsOn(Client.Disconnected(t, lost), s) == Client.TidsOn(t, s)
  {
    var t' := Client.Disconnected(t, lost);
    assert Client.TunnelsOn(t', s) == Client.TunnelsOn(t, s);
    assert forall db | db in Client.TunnelsOn(t, s) :: t'.tunnels[db] == t.tunnels[db];
  }

  // ---------------------------------------------------------------- whole steps

  lemma SameLink(n: Net, n': Net, s: u32)
    requires s in n.servers && s in n.client.links && LinkInNet(n, s)
    requires s in n'.servers && n'.servers[s] == n.servers[s]
    requires s in n'.client.links && n'.client.links[s] == n.client.links[s]
    requires Client.TidsOn(n'.client.tables, s) == Client.TidsOn(n.client.tables, s)
    requires forall tid | tid in n.openedOn :: tid in n'.openedOn && n'.openedOn[tid] == n.openedOn[tid]
    ensures LinkInNet(n', s)
  {
    LinkGrows(s, n.servers[s].tables, n.client.links[s], n.servers[s].down, Client.TidsOn(n.client.tables, s),
              n.openedOn, n'.openedOn);
  }

  lemma {:induction false} StepConnect(n: Net, s: u32)
    requires Invariant(n) && Enabled(n, Connect(s))
    ensures Invariant(Step(n, Connect(s)))
  {
    hide LinkInNet, Client.Coherent;
    var n' := Step(n, Connect(s));
    assert Client.TidsOn(n.client.tables, s) == {} by {
      assert Client.TunnelsOn(n.client.tables, s) == {};
    }
    NewLink(n', s);
    forall x | x in n'.servers && x != s
      ensures LinkInNet(n', x)
    {
      SameLink(n, n', x);
    }
  }

  lemma NewLink(n: Net, s: u32)
    requires s in n.servers && s in n.client.links
    requires n.servers[s] == Peer(Server.EMPTY_TABLES, []) && n.client.links[s] == []
    requires Client.TidsOn(n.client.tables, s) == {}
    ensures LinkInNet(n, s)
  {
    assert Server.Running(Server.EMPTY_TABLES) == {};
  }

  lemma {:induction false} StepLost(n: Net, s: u32)
    requires Invariant(n)
    ensures Invariant(Step(n, Lost(s)))
  {
    hide LinkInNet;
    if !Enabled(n, Lost(s)) {
      return;
    }
    var n' := Step(n, Lost(s));
    Client.DisconnectIsExact(n.client.tables, s, n.client.nextTid);
    hide Client.Coherent, Client.Disconnected;
    forall x | x in n'.servers
      ensures LinkInNet(n', x)
    {
      IdsAfterLoss(n.client.tables, s, x);
      SameLink(n, n', x);
    }
  }

  lemma {:induction false} SyncCloseLink(n: Net, dbId: u32, reopen: bool, x: u32)
    requires Invariant(n) && x in n.servers
    ensures LinkInNet(Step(n, SyncClose(dbId, reopen)), x)
  {
    var n' := Step(n, SyncClose(dbId, reopen));
    var c := n.client;
    hide LinkOk, Client.IsActive, Client.EntriesAgree;
    if dbId !in c.tables.tunnels {
      return;
    }
    var a := c.tables.tunnels[dbId];
    assert a.tunnelId != 0;
    IdsAfterForget(c.tables, dbId, reopen, c.nextTid, x);
    hide Client.Coherent, Client.Forget;
    if x == a.serverId {
      LinkClose(x, n.servers[x].tables, c.links[x], n.servers[x].down, Client.TidsOn(c.tables, x), n.openedOn,
                a.tunnelId);
    } else {
      SameLink(n, n', x);
    }
  }

  lemma {:induction false} StepSyncClose(n: Net, dbId: u32, reopen: bool)
    requires Invariant(n)
    ensures Invariant(Step(n, SyncClose(dbId, reopen)))
  {
    hide LinkInNet;
    var n' := Step(n, SyncClose(dbId, reopen));
    var c := n.client;
    if dbId in c.tables.tunnels {
      assert c.tables.tunnels[dbId].tunnelId != 0;
      Client.ForgetCoherent(c.tables, dbId, reopen, c.nextTid);
      forall x | x in n'.servers
        ensures LinkInNet(n', x)
      {
        SyncCloseLink(n, dbId, reopen, x);
      }
    }
  }

  lemma {:induction false} SyncOpenLink(n: Net, d: Client.DbTunnel, s: u32, x: u32)
    requires Invariant(n) && x in n.servers
    ensures LinkInNet(Step(n, SyncOpen(d, s)), x)
  {
    hide LinkOk, Client.Coherent;
    if !Enabled(n, SyncOpen(d, s)) {
      return;
    }
    var n' := Step(n, SyncOpen(d, s));
    var c, tid := n.client, Client.NextTid(n.client);
    var m := OpenTunnel(tid, d.remotePort, Client.ProtocolOf(d.protocol), d.id);
    IdsAfterRecord(c.tables, d, tid, s, x);
    hide Client.Record;
    if x == s {
      LinkOpen(x, n.servers[x].tables, c.links[x], n.servers[x].down, Client.TidsOn(c.tables, x), n.openedOn, m);
    } else {
      SameLink(n, n', x);
    }
  }

  lemma {:induction false} StepSyncOpen(n: Net, d: Client.DbTunnel, s: u32)
    requires Invariant(n) && Enabled(n, SyncOpen(d, s))
    ensures Invariant(Step(n, SyncOpen(d, s)))
  {
    hide LinkInNet, Client.Coherent;
    var n' := Step(n, SyncOpen(d, s));
    assert Client.NextTid(n.client) == n.client.nextTid && n.client.nextTid !in n.openedOn;
    Client.RecordCoherent(n.client.tables, d, n.client.nextTid, s);
    forall x | x in n'.servers
      ensures LinkInNet(n', x)
    {
      SyncOpenLink(n, d, s, x);
    }
  }

  lemma {:induction false} StepServerReceives(n: Net, s: u32, choice: Server.Choice)
    requires Invariant(n) && Enabled(n, ServerReceives(s, choice))
    ensures Invariant(Step(n, ServerReceives(s, choice)))
  {
    var n' := Step(n, ServerReceives(s, choice));
    hide LinkOk, Client.Coherent, Server.OnFrame;
    forall x | x in n'.servers
      ensures LinkInNet(n', x)
    {
      if x == s {
        LinkServerReceives(x, n.servers[x].tables, n.client.links[x], n.servers[x].down,
                           Client.TidsOn(n.client.tables, x), n.openedOn, choice);
      } else {
        SameLink(n, n', x);
      }
    }
  }

  lemma {:induction false} ClientReceivesLink(n: Net, s: u32, taken: bool, x: u32)
    requires Invariant(n) && x in n.servers
    ensures LinkInNet(Step(n, ClientReceives(s, taken)), x)
  {
    hide LinkOk, Client.Coherent, Client.OnFrame;
    if !Enabled(n, ClientReceives(s, taken)) {
      return;
    }
    var n' := Step(n, ClientReceives(s, taken));
    var c, f := n.client, n.servers[s].down[0];
    var (t', out) := Client.OnFrame(c.tables, f, taken);
    ClientFrame(c.tables, f, taken, c.nextTid);
    if x == s {
      var p := n.servers[x];
      LinkClientReceives(x, p.tables, c.links[x], p.down, Client.TidsOn(c.tables, x), n.openedOn);
      assert IsClose(f) || Client.TidsOn(t', x) == Client.TidsOn(c.tables, x);
      LinkTraffic(x, p.tables, c.links[x], p.down[1..], Client.TidsOn(t', x), n.openedOn, out, []);
      assert p.down[1..] + [] == p.down[1..];
    } else {
      RefusalIsLocal(n, s, x);
      assert Client.TidsOn(t', x) == Client.TidsOn(c.tables, x);
      SameLink(n, n', x);
    }
  }

  lemma {:induction false} StepClientReceives(n: Net, s: u32, taken: bool)
    requires Invariant(n)
    ensures Invariant(Step(n, ClientReceives(s, taken)))
  {
    hide LinkInNet, Client.Coherent, Client.OnFrame;
    if !Enabled(n, ClientReceives(s, taken)) {
      return;
    }
    var n' := Step(n, ClientReceives(s, taken));
    ClientFrame(n.client.tables, n.servers[s].down[0], taken, n.client.nextTid);
    forall x | x in n'.servers
      ensures LinkInNet(n', x)
    {
      ClientReceivesLink(n, s, taken, x);
    }
  }

  lemma {:induction false} ClientFrame(t: Client.Tables, f: Frame, taken: bool, nextTid: nat)
    requires Client.Coherent(t, nextTid)
    ensures var (t', out) := Client.OnFrame(t, f, taken);
      && Client.Coherent(t', nextTid)
      && NoTunnelFrames(out)
      && (forall db | db in t'.tunnels :: db in t.tunnels && t'.tunnels[db] == t.tunnels[db])
      && (forall x :: Client.TidsOn(t', x) == Client.TidsOn(t, x) - if IsClose(f) then {f.msg.tunnelId} else {})
  {
    var (t', out) := Client.OnFrame(t, f, taken);
    if IsClose(f) {
      Client.CloseTunnelCoherent(t, f.msg.tunnelId, nextTid);
      forall x
        ensures Client.TidsOn(t', x) == Client.TidsOn(t, x) - {f.msg.tunnelId}
      {
        IdsAfterClose(t, f.msg.tunnelId, x);
      }
    } else {
      SameTunnelTables(t, t', nextTid);
    }
  }

  lemma SameTunnelsCoherent(t: Client.Tables, t': Client.Tables, nextTid: nat)
    requires Client.Coherent(t, nextTid)
    requires t' == t.(streams := t'.streams, streamTunnel := t'.streamTunnel)
    ensures Client.Coherent(t', nextTid)
  {
    assert t.tunnels - {} == t.tunnels && t.localAddrs - {} == t.localAddrs && t.tunnelServer - {} == t.tunnelServer;
    Client.RemovalCoherent(t, t', {}, {}, nextTid);
  }

  lemma SameTunnelTables(t: Client.Tables, t': Client.Tables, nextTid: nat)
    requires Client.Coherent(t, nextTid)
    requires t' == t.(streams := t'.streams, streamTunnel := t'.streamTunnel)
    ensures Client.Coherent(t', nextTid) && forall x :: Client.TidsOn(t', x) == Client.TidsOn(t, x)
  {
    hide Client.Coherent;
    SameTunnelsCoherent(t, t', nextTid);
    forall x
      ensures Client.TidsOn(t', x) == Client.TidsOn(t, x)
    {
      assert Client.TunnelsOn(t', x) == Client.TunnelsOn(t, x);
    }
  }

  /** A refusal under way from `s` is for no tunnel the client has on another server. */
  lemma RefusalIsLocal(n: Net, s: u32, x: u32)
    requires ClientOk(n) && s in n.servers && s in n.client.links && LinkInNet(n, s)
    requires x != s && n.servers[s].down != []
    ensures var f := n.servers[s].down[0]; IsClose(f) ==> f.msg.tunnelId !in Client.TidsOn(n.client.tables, x)
  {
    var f := n.servers[s].down[0];
    if IsClose(f) {
      assert f in n.servers[s].down && n.openedOn[f.msg.tunnelId] == s;
    }
  }

  lemma StreamTablesKeepLink(s: u32, t: Server.Tables, t': Server.Tables, up: seq<Frame>, down: seq<Frame>,
                             ids: set<u32>, openedOn: map<u32, u32>)
    requires LinkOk(s, t, up, down, ids, openedOn)
    requires t' == t.(streams := t'.streams, udpPeers := t'.udpPeers, streamTunnel := t'.streamTunnel)
    ensures LinkOk(s, t', up, down, ids, openedOn)
  {
    assert Server.Running(t') == Server.Running(t);
  }

  lemma {:induction false} StepServerStreams(n: Net, e: Event)
    requires Invariant(n) && e.ServerStreams? && Enabled(n, e)
    ensures Invariant(Step(n, e))
  {
    hide LinkOk, Client.Coherent;
    var n', s := Step(n, e), e.server;
    forall x | x in n'.servers
      ensures LinkInNet(n', x)
    {
      assert LinkInNet(n, x);
      if x == s {
        var p, t := n.servers[x], n'.servers[x].tables;
        var ids := Client.TidsOn(n.client.tables, x);
        StreamTablesKeepLink(x, p.tables, t, n.client.links[x], p.down, ids, n.openedOn);
        LinkTraffic(x, t, n.client.links[x], p.down, ids, n.openedOn, [], e.out);
        assert n.client.links[x] + [] == n.client.links[x];
      } else {
        SameLink(n, n', x);
      }
    }
  }

  lemma {:induction false} StepClientStreams(n: Net, e: Event)
    requires Invariant(n) && e.ClientStreams? && Enabled(n, e)
    ensures Invariant(Step(n, e))
  {
    hide LinkOk, Client.Coherent;
    var n', s := Step(n, e), e.server;
    SameTunnelTables(n.client.tables, n'.client.tables, n.client.nextTid);
    forall x | x in n'.servers
      ensures LinkInNet(n', x)
    {
      assert LinkInNet(n, x);
      if x == s {
        var p := n.servers[x];
        LinkTraffic(x, p.tables, n.client.links[x], p.down, Client.TidsOn(n.client.tables, x), n.openedOn, e.out, []);
        assert p.down + [] == p.down;
      } else {
        SameLink(n, n', x);
      }
    }
  }

  lemma {:induction false} StepSpendId(n: Net)
    requires Invariant(n)
    ensures Invariant(Step(n, SpendId))
  {
    hide LinkOk, Client.Coherent;
    var n' := Step(n, SpendId);
    Client.CoherentLater(n.client.tables, n.client.nextTid, n.client.nextTid + 1);
    forall x | x in n'.servers
      ensures LinkInNet(n', x)
    {
      assert LinkInNet(n, x);
      SameLink(n, n', x);
    }
  }

  lemma {:induction false} StepKeepsInvariant(n: Net, e: Event)
    requires Invariant(n)
    ensures Invariant(Step(n, e))
  {
    hide Invariant;
    if Enabled(n, e) {
      match e
      case Connect(s) => StepConnect(n, s);
      case Lost(s) => StepLost(n, s);
      case SyncClose(dbId, reopen) => StepSyncClose(n, dbId, reopen);
      case SyncOpen(d, s) => StepSyncOpen(n, d, s);
      case SpendId => StepSpendId(n);
      case ServerReceives(s, choice) => StepServerReceives(n, s, choice);
      case ClientReceives(s, taken) => StepClientReceives(n, s, taken);
      case ServerStreams(_, _, _, _, _) => StepServerStreams(n, e);
      case ClientStreams(_, _, _, _) => StepClientStreams(n, e);
    }
  }

  lemma {:induction false} InvariantHolds(events: seq<Event>)
    ensures Invariant(Run(events))
  {
    hide Step;
    if events != [] {
      InvariantHolds(events[..|events| - 1]);
      StepKeepsInvariant(Run(events[..|events| - 1]), events[|events| - 1]);
    }
  }

  // ---------------------------------------------------------------- what follows for every run

  /**
   * In every reachable state and for every connected server: replaying the client's pending messages on the
   * server's tunnels gives the tunnels the client has there, less those whose refusal is under way.
   */
  lemma TunnelAgreement(events: seq<Event>, s: u32)
    requires s in Run(events).servers
    ensures var n := Run(events);
      && s in n.client.links
      && Replay(n.servers[s].tables.tunnels.Keys, n.client.links[s]) ==
           Client.TidsOn(n.client.tables, s) - Refused(n.servers[s].down)
  {
    InvariantHolds(events);
  }

  /** When nothing is under way, both sides have the same tunnels, and the server listens for exactly these. */
  lemma AgreeWhenQuiet(events: seq<Event>, s: u32)
    requires s in Run(events).servers && s in Run(events).client.links
    requires Run(events).client.links[s] == [] && Run(events).servers[s].down == []
    ensures var n := Run(events);
      && n.servers[s].tables.tunnels.Keys == Client.TidsOn(n.client.tables, s)
      && Server.ListenersMatch(n.servers[s].tables)
  {
    InvariantHolds(events);
    assert LinkInNet(Run(events), s);
  }

  /** In every reachable state the client's tables are coherent and each of its tunnels is on a connected server. */
  lemma {:induction false} ClientAlwaysCoherent(events: seq<Event>)
    ensures var c := Run(events).client;
      && Client.Coherent(c.tables, c.nextTid)
      && forall db | db in c.tables.tunnels :: c.tables.tunnels[db].serverId in c.links
  {
    InvariantHolds(events);
  }
}
