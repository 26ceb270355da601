/**
 * What a tunnel is, on both sides: in every run, the OpenTunnel under way and the server's record have the port, the
 * protocol and the database id of the row the client opened the tunnel for, and so do the client's own tables.
 */
module TunnelSettings {
  import opened Base
  import opened Text
  import opened Wire
  import opened TunnelNet
  import Client
  import Server

  /** The row each tunnel id was opened for, taken from the events alone. */
  function OpenedFor(events: seq<Event>): map<u32, Client.DbTunnel> {
    if events == [] then map[] else
    var before, e := events[..|events| - 1], events[|events| - 1];
    var n, sofar := Run(before), OpenedFor(before);
    if e.SyncOpen? && Enabled(n, e) then sofar[n.client.nextTid := e.row] else sofar
  }

  // ---------------------------------------------------------------- what a row asks for, written out

  function PortsOf(protocol: string): TunnelProtocol {
    if protocol == "udp" then Udp else if protocol == "both" then Both else Tcp
  }

  function Request(d: Client.DbTunnel, tid: u32): Message {
    OpenTunnel(tid, d.remotePort, PortsOf(d.protocol), d.id)
  }

  function Address(d: Client.DbTunnel): string {
    d.serverIp + ":" + Decimal(d.serverPort)
  }

  // ---------------------------------------------------------------- the invariant

  type Rows = map<u32, Client.DbTunnel>

  ghost predicate RowFits(a: Client.ActiveTunnel, db: u32, rows: Rows) {
    && a.tunnelId in rows && a.dbId == db
    && var d := rows[a.tunnelId];
       d.id == db && a.remotePort == d.remotePort && a.localAddress == Address(d) && a.proxyProtocol == d.proxyProtocol
  }

  ghost predicate ClientFits(t: Client.Tables, rows: Rows) {
    && (forall db | db in t.tunnels :: RowFits(t.tunnels[db], db, rows))
    && (forall tid | tid in t.localAddrs :: tid in rows && t.localAddrs[tid] == Address(rows[tid]))
    && (forall tid | tid in t.protocols :: tid in rows && t.protocols[tid] == rows[tid].protocol)
    && (forall tid | tid in t.proxies :: tid in rows && t.proxies[tid] == rows[tid].proxyProtocol)
  }

  ghost predicate QueueFits(up: seq<Frame>, rows: Rows) {
    forall f | f in up && IsOpen(f) :: f.msg.tunnelId in rows && f.msg == Request(rows[f.msg.tunnelId], f.msg.tunnelId)
  }

  ghost predicate ServerFits(t: Server.Tables, rows: Rows) {
    forall tid | tid in t.tunnels :: tid in rows &&
      var d := rows[tid];
      && t.tunnels[tid].remotePort == d.remotePort && t.tunnels[tid].dbId == d.id
      && t.tunnels[tid].protocol == PortsOf(d.protocol)
  }

  ghost predicate QueuesFit(links: map<u32, seq<Frame>>, rows: Rows) {
    forall s | s in links :: QueueFits(links[s], rows)
  }

  ghost predicate ServersFit(servers: map<u32, Peer>, rows: Rows) {
    forall s | s in servers :: ServerFits(servers[s].tables, rows)
  }

  ghost predicate Fits(n: Net, rows: Rows) {
    && n.client.nextTid > 0
    && (forall tid | tid in rows :: tid < n.client.nextTid)
    && ClientFits(n.client.tables, rows)
    && QueuesFit(n.client.links, rows) && ServersFit(n.servers, rows)
  }

  // ---------------------------------------------------------------- step by step

  ghost predicate Sub<K, V>(a: map<K, V>, b: map<K, V>) {
    forall k | k in a :: k in b && a[k] == b[k]
  }

  lemma ClientShrinks(t: Client.Tables, t': Client.Tables, rows: Rows)
    requires ClientFits(t, rows)
    requires Sub(t'.tunnels, t.tunnels) && Sub(t'.localAddrs, t.localAddrs)
    requires Sub(t'.protocols, t.protocols) && Sub(t'.proxies, t.proxies)
    ensures ClientFits(t', rows)
  {
    hide RowFits;
  }

  lemma QueueGrows(links: map<u32, seq<Frame>>, s: u32, more: seq<Frame>, rows: Rows)
    requires QueuesFit(links, rows) && s in links && QueueFits(more, rows)
    ensures QueuesFit(links[s := links[s] + more], rows)
  {
  }

  lemma NoOpens(frames: seq<Frame>, rows: Rows)
    requires forall f | f in frames :: !IsOpen(f)
    ensures QueueFits(frames, rows)
  {
  }

  lemma CloseFits(n: Net, dbId: u32, reopen: bool, rows: Rows)
    requires Fits(n, rows)
    ensures Fits(Step(n, SyncClose(dbId, reopen)), rows)
  {
    var c := n.client;
    var c' := Client.Close(c, dbId, reopen);
    if c' != c {
      var a := c.tables.tunnels[dbId];
      ClientShrinks(c.tables, c'.tables, rows);
      if a.serverId in c.links {
        NoOpens([Control(CloseTunnel(a.tunnelId))], rows);
        QueueGrows(c.links, a.serverId, [Control(CloseTunnel(a.tunnelId))], rows);
      }
      hide ClientFits, QueueFits, QueuesFit, ServerFits, Client.Forget;
    }
  }

  /** The client's side of opening a row under a fresh id. */
  lemma RecordFits(t: Client.Tables, d: Client.DbTunnel, tid: u32, s: u32, rows: Rows)
    requires ClientFits(t, rows) && tid !in rows
    ensures ClientFits(Client.Record(t, d, tid, s), rows[tid := d])
  {
    var t', rows' := Client.Record(t, d, tid, s), rows[tid := d];
    assert RowFits(t'.tunnels[d.id], d.id, rows');
    forall db | db in t.tunnels && db != d.id
      ensures RowFits(t.tunnels[db], db, rows')
    {
      assert RowFits(t.tunnels[db], db, rows);
    }
    hide RowFits;
  }

  /** A row under a fresh id changes nothing for what fits already. */
  lemma MoreRows(n: Net, rows: Rows, tid: u32, d: Client.DbTunnel)
    requires tid !in rows
    ensures QueuesFit(n.client.links, rows) ==> QueuesFit(n.client.links, rows[tid := d])
    ensures ServersFit(n.servers, rows) ==> ServersFit(n.servers, rows[tid := d])
  {
  }

  /** The client asks for exactly what the row says. */
  lemma OpenSendsRequest(c: Client.Client, d: Client.DbTunnel, s: u32)
    requires s in c.links && c.nextTid < Client.MAX_TUNNEL_IDS
    ensures Client.Open(c, d, s).links == c.links[s := c.links[s] + [Control(Request(d, c.nextTid))]]
    ensures Client.Open(c, d, s).tables == Client.Record(c.tables, d, c.nextTid, s)
    ensures Client.Open(c, d, s).nextTid == c.nextTid + 1
  {
    hide Client.Record;
  }

  lemma OpenFits(n: Net, d: Client.DbTunnel, s: u32, rows: Rows)
    requires Fits(n, rows) && Enabled(n, SyncOpen(d, s))
    ensures Fits(Step(n, SyncOpen(d, s)), rows[n.client.nextTid := d])
  {
    var c, tid := n.client, n.client.nextTid;
    var rows' := rows[tid := d];
    assert Step(n, SyncOpen(d, s)).client == Client.Open(c, d, s) && Step(n, SyncOpen(d, s)).servers == n.servers;
    assert s in c.links && tid !in rows && tid < Client.MAX_TUNNEL_IDS;
    RecordFits(c.tables, d, tid, s, rows);
    MoreRows(n, rows, tid, d);
    RequestFits(d, tid, rows);
    hide ClientFits, QueueFits, QueuesFit, ServersFit, Client.Record, Client.Open, Step, Enabled;
    OpenSendsRequest(c, d, s);
    QueueGrows(c.links, s, [Control(Request(d, tid))], rows');
  }

  lemma RequestFits(d: Client.DbTunnel, tid: u32, rows: Rows)
    ensures QueueFits([Control(Request(d, tid))], rows[tid := d])
  {
  }

  /** A server records a tunnel only as it is asked to. */
  lemma FrameFits(t: Server.Tables, f: Frame, choice: Server.Choice, rows: Rows)
    requires ServerFits(t, rows) && QueueFits([f], rows)
    ensures ServerFits(Server.OnFrame(t, f, choice).0, rows)
  {
    assert f in [f];
    if IsOpen(f) {
      OpenedFits(t, f.msg, choice, rows);
    } else {
      OtherFrameRecordsNothing(t, f, choice);
    }
    hide Server.OpenOutcome;
  }

  lemma OpenedFits(t: Server.Tables, m: Message, choice: Server.Choice, rows: Rows)
    requires ServerFits(t, rows) && m.OpenTunnel? && m.tunnelId in rows && m == Request(rows[m.tunnelId], m.tunnelId)
    ensures ServerFits(Server.OpenOutcome(t, m, choice.tcpBinds, choice.udpBinds).0, rows)
  {
    hide PortsOf;
  }

  lemma OtherFrameRecordsNothing(t: Server.Tables, f: Frame, choice: Server.Choice)
    requires !IsOpen(f)
    ensures Sub(Server.OnFrame(t, f, choice).0.tunnels, t.tunnels)
  {
  }

  lemma ServerReceiptFits(n: Net, s: u32, choice: Server.Choice, rows: Rows)
    requires Fits(n, rows) && Enabled(n, ServerReceives(s, choice))
    ensures Fits(Step(n, ServerReceives(s, choice)), rows)
  {
    var up := n.client.links[s];
    assert up == [up[0]] + up[1..];
    assert QueueFits([up[0]], rows) && QueueFits(up[1..], rows);
    FrameFits(n.servers[s].tables, up[0], choice, rows);
    hide ClientFits, QueueFits, QueuesFit, ServerFits, Server.OnFrame;
  }

  /** No frame adds anything to the client's tunnel tables, or makes it ask for a tunnel. */
  lemma ClientFrameFits(t: Client.Tables, f: Frame, taken: bool, rows: Rows)
    requires ClientFits(t, rows)
    ensures ClientFits(Client.OnFrame(t, f, taken).0, rows) && QueueFits(Client.OnFrame(t, f, taken).1, rows)
  {
    var t' := Client.OnFrame(t, f, taken).0;
    if IsClose(f) {
      ClientShrinks(t, Client.OnCloseTunnel(t, f.msg.tunnelId), rows);
    } else {
      assert t' == t.(streams := t'.streams, streamTunnel := t'.streamTunnel);
    }
    hide RowFits;
  }

  lemma ClientReceiptFits(n: Net, s: u32, taken: bool, rows: Rows)
    requires Fits(n, rows) && Enabled(n, ClientReceives(s, taken))
    ensures Fits(Step(n, ClientReceives(s, taken)), rows)
  {
    var f := n.servers[s].down[0];
    ClientFrameFits(n.client.tables, f, taken, rows);
    QueueGrows(n.client.links, s, Client.OnFrame(n.client.tables, f, taken).1, rows);
    hide ClientFits, QueueFits, QueuesFit, ServerFits, Client.OnFrame;
  }

  lemma LostFits(n: Net, s: u32, rows: Rows)
    requires Fits(n, rows) && Enabled(n, Lost(s))
    ensures Fits(Step(n, Lost(s)), rows)
  {
    ClientShrinks(n.client.tables, Client.Disconnected(n.client.tables, s), rows);
    hide ClientFits, QueueFits, QueuesFit, ServerFits, Client.Disconnected;
  }

  lemma OtherFits(n: Net, e: Event, rows: Rows)
    requires Fits(n, rows) && Enabled(n, e)
    requires e.Connect? || e.SpendId? || e.ServerStreams? || e.ClientStreams?
    ensures Fits(Step(n, e), rows)
  {
    if e.Connect? {
      NoOpens([], rows);
      assert ServerFits(Server.EMPTY_TABLES, rows);
    } else if e.ClientStreams? {
      NoOpens(e.out, rows);
      QueueGrows(n.client.links, e.server, e.out, rows);
    }
    hide RowFits, QueueFits;
  }

  lemma {:induction false} AlwaysFits(events: seq<Event>)
    ensures Fits(Run(events), OpenedFor(events))
  {
    if events != [] {
      var before, e := events[..|events| - 1], events[|events| - 1];
      AlwaysFits(before);
      var n, rows := Run(before), OpenedFor(before);
      hide Fits;
      if Enabled(n, e) {
        match e
        case SyncClose(dbId, reopen) => CloseFits(n, dbId, reopen, rows);
        case SyncOpen(d, s) => OpenFits(n, d, s, rows);
        case ServerReceives(s, choice) => ServerReceiptFits(n, s, choice, rows);
        case ClientReceives(s, taken) => ClientReceiptFits(n, s, taken, rows);
        case Lost(s) => LostFits(n, s, rows);
        case _ => OtherFits(n, e, rows);
      }
    }
  }

  // ---------------------------------------------------------------- what follows for every run

  /** The client's record of a row is what the row said when it was opened, and so are its other tables. */
  lemma ClientRecordsRow(events: seq<Event>, db: u32)
    requires db in Run(events).client.tables.tunnels
    ensures var t, rows := Run(events).client.tables, OpenedFor(events);
      var a := t.tunnels[db];
      && a.tunnelId in rows && a.tunnelId in t.localAddrs && a.tunnelId in t.protocols && a.tunnelId in t.proxies
      && var d := rows[a.tunnelId];
         && d.id == db == a.dbId && a.remotePort == d.remotePort
         && t.protocols[a.tunnelId] == d.protocol
         && t.localAddrs[a.tunnelId] == a.localAddress == d.serverIp + ":" + Decimal(d.serverPort)
         && t.proxies[a.tunnelId] == a.proxyProtocol == d.proxyProtocol
  {
    AlwaysFits(events);
    ClientAlwaysCoherent(events);
    hide Run, OpenedFor;
    assert Client.EntriesAgree(Run(events).client.tables, Run(events).client.tables.tunnels[db]);
  }

  /** In every run, the players of a tunnel are connected to the address of the row it was opened for. */
  lemma PlayersReachTheirRow(events: seq<Event>, db: u32, m: Message, show6: Octets16 -> string)
    requires db in Run(events).client.tables.tunnels
    requires m.NewConnection? && m.tunnelId == Run(events).client.tables.tunnels[db].tunnelId
    ensures m.tunnelId in OpenedFor(events)
    ensures var d, task := OpenedFor(events)[m.tunnelId], Client.TaskFor(Run(events).client.tables, m, show6);
      && task.isUdp == m.isUdp && task.target == d.serverIp + ":" + Decimal(d.serverPort)
      && (task.header.Some? <==> d.proxyProtocol && !m.isUdp)
  {
    ClientRecordsRow(events, db);
    ClientAlwaysCoherent(events);
    hide Run, OpenedFor;
    Client.TaskReachesTunnel(Run(events).client.tables, Run(events).client.nextTid, db, m, show6);
  }

  /** Whatever the server has under the id of one of the client's rows has that row's port, protocol and id. */
  lemma ServerRecordsRow(events: seq<Event>, db: u32, s: u32)
    requires db in Run(events).client.tables.tunnels && s in Run(events).servers
    ensures var t, r := Run(events).client.tables, Run(events).servers[s].tables.tunnels;
      var a := t.tunnels[db];
      a.tunnelId in r ==>
        && r[a.tunnelId].remotePort == a.remotePort && r[a.tunnelId].dbId == db
        && a.tunnelId in t.protocols
        && r[a.tunnelId].protocol ==
             if t.protocols[a.tunnelId] == "udp" then Udp else if t.protocols[a.tunnelId] == "both" then Both else Tcp
  {
    AlwaysFits(events);
    ClientRecordsRow(events, db);
    hide Run, OpenedFor;
  }

  lemma {:induction false} RequestedOnce(ids: set<u32>, up: seq<Frame>, tid: u32)
    requires FreshOpens(ids, up)
    ensures Requests(up, tid) <= 1 && (tid in ids ==> Requests(up, tid) == 0)
    ensures tid in Replay(ids, up) ==> tid in ids || Requests(up, tid) == 1
    decreases up
  {
    if up != [] {
      if IsOpen(up[0]) {
        RequestedOnce(ids + {up[0].msg.tunnelId}, up[1..], tid);
      } else if IsClose(up[0]) {
        FreshWithFewer(ids, ids - {up[0].msg.tunnelId}, up[1..]);
        RequestedOnce(ids, up[1..], tid);
        RequestedOnce(ids - {up[0].msg.tunnelId}, up[1..], tid);
      } else {
        RequestedOnce(ids, up[1..], tid);
      }
    }
  }

  /**
   * In every reachable state, each of the client's rows whose refusal is not under way is either recorded by its
   * server, or asked for by exactly one OpenTunnel under way, and then with the row's port, protocol and id.
   */
  lemma RowIsAskedForOnce(events: seq<Event>, db: u32)
    requires db in Run(events).client.tables.tunnels
    ensures var n := Run(events);
      var t, a := n.client.tables, n.client.tables.tunnels[db];
      && a.serverId in n.servers && a.serverId in n.client.links && a.tunnelId in t.protocols
      && var p, up := n.servers[a.serverId], n.client.links[a.serverId];
         && (a.tunnelId !in Refused(p.down) && a.tunnelId !in p.tables.tunnels ==> Requests(up, a.tunnelId) == 1)
         && (a.tunnelId in p.tables.tunnels ==> Requests(up, a.tunnelId) == 0)
         && (forall f | f in up && IsOpen(f) && f.msg.tunnelId == a.tunnelId ::
               f.msg == OpenTunnel(a.tunnelId, a.remotePort,
                                   if t.protocols[a.tunnelId] == "udp" then Udp
                                   else if t.protocols[a.tunnelId] == "both" then Both else Tcp,
                                   db))
  {
    AlwaysFits(events);
    InvariantHolds(events);
    ClientRecordsRow(events, db);
    var n := Run(events);
    var a := n.client.tables.tunnels[db];
    hide Run, OpenedFor;
    assert n.servers.Keys == n.client.links.Keys && a.serverId in n.client.links;
    assert LinkInNet(n, a.serverId);
    assert a.tunnelId in Client.TidsOn(n.client.tables, a.serverId) by {
      assert db in Client.TunnelsOn(n.client.tables, a.serverId);
    }
    RequestedOnce(n.servers[a.serverId].tables.tunnels.Keys, n.client.links[a.serverId], a.tunnelId);
  }

  /**
   * With nothing under way, each row of the client on this server is recorded there with the row's port, protocol and
   * id, and its running listeners are a TCP one unless the protocol is "udp", and a UDP one if it is "udp" or "both".
   */
  lemma RowsAgreeWhenQuiet(events: seq<Event>, s: u32, db: u32)
    requires s in Run(events).servers && s in Run(events).client.links
    requires Run(events).client.links[s] == [] && Run(events).servers[s].down == []
    requires db in Run(events).client.tables.tunnels && Run(events).client.tables.tunnels[db].serverId == s
    ensures var t, r := Run(events).client.tables, Run(events).servers[s].tables;
      var a := t.tunnels[db];
      && a.tunnelId in r.tunnels && a.tunnelId in t.protocols
      && var protocol, w := t.protocols[a.tunnelId], r.tunnels[a.tunnelId].watch;
         && r.tunnels[a.tunnelId].remotePort == a.remotePort && r.tunnels[a.tunnelId].dbId == db
         && r.tunnels[a.tunnelId].protocol ==
              (if protocol == "udp" then Udp else if protocol == "both" then Both else Tcp)
         && (Server.Listener(a.tunnelId, Server.TcpListener, w) in Server.Running(r) <==> protocol != "udp")
         && (Server.Listener(a.tunnelId, Server.UdpListener, w) in Server.Running(r) <==>
               protocol == "udp" || protocol == "both")
  {
    AgreeWhenQuiet(events, s);
    ServerRecordsRow(events, db, s);
    var n := Run(events);
    hide Run;
    var t, r := n.client.tables, n.servers[s].tables;
    var tid := t.tunnels[db].tunnelId;
    assert tid in Client.TidsOn(t, s) by {
      assert db in Client.TunnelsOn(t, s);
    }
    ListenersOf(r, tid);
  }

  /** The running listeners of a recorded tunnel. */
  lemma ListenersOf(r: Server.Tables, tid: u32)
    requires Server.ListenersMatch(r) && tid in r.tunnels
    ensures var protocol, w := r.tunnels[tid].protocol, r.tunnels[tid].watch;
      && (Server.Listener(tid, Server.TcpListener, w) in Server.Running(r) <==> protocol != Udp)
      && (Server.Listener(tid, Server.UdpListener, w) in Server.Running(r) <==> protocol != Tcp)
  {
    var protocol, w := r.tunnels[tid].protocol, r.tunnels[tid].watch;
    Server.RequestedExactly(tid, protocol, w, Server.TcpListener);
    Server.RequestedExactly(tid, protocol, w, Server.UdpListener);
    assert Server.Requested(tid, protocol, w) <= Server.Running(r);
    hide Server.Requested, Server.WatchesFit;
  }
}
