/**
 * The client's tables (`ClientState` in client/src/main.rs): reconciling them with the manager's list, and what
 * frames from a server, local streams and lost connections do to them.
 */
module Client {
  import opened Base
  import opened LeastLoaded
  import ProxyHeader
  import opened Wire

  datatype ActiveTunnel = ActiveTunnel(
    tunnelId: u32, serverId: u32, dbId: u32, remotePort: u16, localAddress: string, proxyProtocol: bool)

  /** One row of the manager's list. */
  datatype DbTunnel = DbTunnel(
    id: u32, serverIp: string, serverPort: u16, remotePort: u16, protocol: string,
    serverId: Option<u32>, proxyProtocol: bool)

  /** `tunnels` is keyed by database id, the next four by tunnel id, the last two by stream id. */
  datatype Tables = Tables(
    tunnels: map<u32, ActiveTunnel>,
    localAddrs: map<u32, string>,
    protocols: map<u32, string>,
    proxies: map<u32, bool>,
    tunnelServer: map<u32, u32>,
    streams: set<u64>,
    streamTunnel: map<u64, u32>)

  /** The tables, the frames queued towards each connected server, and how often the tunnel-id counter was used. */
  datatype Client = Client(tables: Tables, links: map<u32, seq<Frame>>, nextTid: nat)

  const EMPTY_TABLES := Tables(map[], map[], map[], map[], map[], {}, map[])
  const EMPTY_CLIENT := Client(EMPTY_TABLES, map[], 1)

  const MAX_TUNNEL_IDS: nat := 0x1_0000_0000

  // ---------------------------------------------------------------- elementary steps

  function Enqueue(links: map<u32, seq<Frame>>, sid: u32, f: Frame): map<u32, seq<Frame>> {
    if sid in links then links[sid := links[sid] + [f]] else links
  }

  /** The tunnel is taken out of the tables; the protocol entry goes only when the tunnel is about to be reopened. */
  function Forget(t: Tables, dbId: u32, withProtocol: bool): Tables
    requires dbId in t.tunnels
  {
    var tid := t.tunnels[dbId].tunnelId;
    t.(tunnels := t.tunnels - {dbId}, localAddrs := t.localAddrs - {tid}, tunnelServer := t.tunnelServer - {tid},
       proxies := t.proxies - {tid}, protocols := if withProtocol then t.protocols - {tid} else t.protocols)
  }

  /** Closing one active tunnel on its server and forgetting it. */
  function Close(c: Client, dbId: u32, reopen: bool): Client {
    if dbId !in c.tables.tunnels || c.tables.tunnels[dbId].tunnelId == 0 then c else
    var a := c.tables.tunnels[dbId];
    c.(links := Enqueue(c.links, a.serverId, Control(CloseTunnel(a.tunnelId))),
       tables := Forget(c.tables, dbId, reopen))
  }

  function ProtocolOf(name: string): TunnelProtocol {
    if name == "udp" then Udp else if name == "both" then Both else Tcp
  }

  function Record(t: Tables, d: DbTunnel, tid: u32, sid: u32): Tables {
    var local := ProxyHeader.LocalAddress(d.serverIp, d.serverPort);
    t.(tunnels := t.tunnels[d.id := ActiveTunnel(tid, sid, d.id, d.remotePort, local, d.proxyProtocol)],
       localAddrs := t.localAddrs[tid := local], protocols := t.protocols[tid := d.protocol],
       proxies := t.proxies[tid := d.proxyProtocol], tunnelServer := t.tunnelServer[tid := sid])
  }

  /** The id the 32-bit counter hands out next. */
  function NextTid(c: Client): u32 {
    c.nextTid % MAX_TUNNEL_IDS
  }

  /** Opening one tunnel on a connected server under a fresh id. */
  function Open(c: Client, d: DbTunnel, sid: u32): Client
    requires sid in c.links
  {
    var tid := NextTid(c);
    Client(Record(c.tables, d, tid, sid),
           Enqueue(c.links, sid, Control(OpenTunnel(tid, d.remotePort, ProtocolOf(d.protocol), d.id))),
           c.nextTid + 1)
  }

  // ---------------------------------------------------------------- reconciliation

  /** A row whose active tunnel has to move, or has to be reopened for a changed proxy flag. */
  datatype Update = Update(row: DbTunnel, oldSid: u32, newSid: u32)

  /** The server wanted for a row that is active on `current`. */
  function Desired(d: DbTunnel, current: u32): u32 {
    if d.serverId.Some? then d.serverId.value else current
  }

  predicate NeedsUpdate(t: Tables, d: DbTunnel, entries: seq<u32>) {
    && d.id in t.tunnels
    && var a := t.tunnels[d.id];
       && Desired(d, a.serverId) in entries
       && (Desired(d, a.serverId) != a.serverId || d.proxyProtocol != a.proxyProtocol)
  }

  function Ids(list: seq<DbTunnel>): set<u32> {
    set d | d in list :: d.id
  }

  function ToAdd(t: Tables, list: seq<DbTunnel>): (add: seq<DbTunnel>)
    ensures forall d :: d in add <==> d in list && d.id !in t.tunnels
  {
    if list == [] then [] else
    var last := list[|list| - 1];
    ToAdd(t, list[..|list| - 1]) + if last.id in t.tunnels then [] else [last]
  }

  function ToRemove(t: Tables, list: seq<DbTunnel>): set<u32> {
    t.tunnels.Keys - Ids(list)
  }

  function ToUpdate(t: Tables, list: seq<DbTunnel>, entries: seq<u32>): (update: seq<Update>)
    ensures forall u | u in update ::
      u.row in list && NeedsUpdate(t, u.row, entries) &&
      u.oldSid == t.tunnels[u.row.id].serverId && u.newSid == Desired(u.row, u.oldSid)
    ensures forall d | d in list && NeedsUpdate(t, d, entries) ::
      Update(d, t.tunnels[d.id].serverId, Desired(d, t.tunnels[d.id].serverId)) in update
  {
    if list == [] then [] else
    var last := list[|list| - 1];
    ToUpdate(t, list[..|list| - 1], entries) +
    if NeedsUpdate(t, last, entries)
    then [Update(last, t.tunnels[last.id].serverId, Desired(last, t.tunnels[last.id].serverId))]
    else []
  }

  function CloseAll(c: Client, order: seq<u32>): Client {
    if order == [] then c else Close(CloseAll(c, order[..|order| - 1]), order[|order| - 1], false)
  }

  /** Close on the old server, then open on the new one if it is connected; the id is spent either way. */
  function Reopen(c: Client, u: Update): Client {
    if u.row.id !in c.tables.tunnels || c.tables.tunnels[u.row.id].tunnelId == 0 then c else
    var closed := Client(Forget(c.tables, u.row.id, true),
                         Enqueue(c.links, u.oldSid, Control(CloseTunnel(c.tables.tunnels[u.row.id].tunnelId))),
                         c.nextTid);
    if u.newSid in closed.links then Open(closed, u.row, u.newSid) else closed.(nextTid := c.nextTid + 1)
  }

  function ReopenAll(c: Client, updates: seq<Update>): Client {
    if updates == [] then c else Reopen(ReopenAll(c, updates[..|updates| - 1]), updates[|updates| - 1])
  }

  /** Active tunnels on a server. */
  function TunnelsOn(t: Tables, sid: u32): set<u32> {
    set db | db in t.tunnels && t.tunnels[db].serverId == sid
  }

  function Counts(t: Tables): map<u32, nat> {
    map sid | sid in (set db | db in t.tunnels :: t.tunnels[db].serverId) :: |TunnelsOn(t, sid)|
  }

  ghost predicate CountedOn(t: Tables, seen: set<u32>, sid: u32) {
    exists db :: db in seen && db in t.tunnels && t.tunnels[db].serverId == sid
  }

  /** `counts` is right for the tunnels in `seen`. */
  ghost predicate CountsPart(t: Tables, seen: set<u32>, counts: map<u32, nat>) {
    && (forall sid | sid in counts :: CountedOn(t, seen, sid))
    && (forall sid :: Load(counts, sid) == |TunnelsOn(t, sid) * seen|)
  }

  lemma OnOneMore(t: Tables, seen: set<u32>, db: u32, sid: u32)
    requires db in t.tunnels && db !in seen
    ensures |TunnelsOn(t, sid) * (seen + {db})| ==
      |TunnelsOn(t, sid) * seen| + if t.tunnels[db].serverId == sid then 1 else 0
    ensures CountedOn(t, seen, sid) || sid == t.tunnels[db].serverId ==> CountedOn(t, seen + {db}, sid)
  {
    if t.tunnels[db].serverId == sid {
      assert TunnelsOn(t, sid) * (seen + {db}) == TunnelsOn(t, sid) * seen + {db};
      assert db in seen + {db};
    } else {
      assert TunnelsOn(t, sid) * (seen + {db}) == TunnelsOn(t, sid) * seen;
      if CountedOn(t, seen, sid) {
        var x :| x in seen && x in t.tunnels && t.tunnels[x].serverId == sid;
        assert x in seen + {db};
      }
    }
  }

  lemma CountOneMore(t: Tables, seen: set<u32>, counts: map<u32, nat>, db: u32)
    requires CountsPart(t, seen, counts) && db in t.tunnels && db !in seen
    ensures var sid := t.tunnels[db].serverId;
      CountsPart(t, seen + {db}, counts[sid := Load(counts, sid) + 1])
  {
    hide TunnelsOn, CountedOn;
    var here := t.tunnels[db].serverId;
    var counts' := counts[here := Load(counts, here) + 1];
    forall sid
      ensures Load(counts', sid) == |TunnelsOn(t, sid) * (seen + {db})|
      ensures sid in counts' ==> CountedOn(t, seen + {db}, sid)
    {
      OnOneMore(t, seen, db, sid);
      assert Load(counts, sid) == |TunnelsOn(t, sid) * seen|;
    }
  }

  lemma CountsStart(t: Tables)
    ensures CountsPart(t, {}, map[])
  {
    assert forall sid :: TunnelsOn(t, sid) * {} == {};
  }

  lemma CountsWhole(t: Tables, counts: map<u32, nat>)
    requires CountsPart(t, t.tunnels.Keys, counts)
    ensures counts == Counts(t)
  {
    var whole := Counts(t);
    forall sid
      ensures sid in counts <==> sid in whole
      ensures Load(counts, sid) == |TunnelsOn(t, sid)|
    {
      assert TunnelsOn(t, sid) * t.tunnels.Keys == TunnelsOn(t, sid);
      if sid in whole {
        var db :| db in t.tunnels && t.tunnels[db].serverId == sid;
        assert db in TunnelsOn(t, sid);
      }
    }
  }

  /** The server a new row goes to: the named one if configured, else the least loaded, else server 1. */
  function Target(d: DbTunnel, entries: seq<u32>, counts: map<u32, nat>): u32 {
    if d.serverId.Some? && d.serverId.value in entries then d.serverId.value
    else if entries != [] then entries[FirstLeast(entries, counts)]
    else 1
  }

  function Add(c: Client, d: DbTunnel, entries: seq<u32>, counts: map<u32, nat>): Client {
    var sid := Target(d, entries, counts);
    if sid in c.links then Open(c, d, sid) else c
  }

  function AddAll(c: Client, rows: seq<DbTunnel>, entries: seq<u32>, counts: map<u32, nat>): Client {
    if rows == [] then c else Add(AddAll(c, rows[..|rows| - 1], entries, counts), rows[|rows| - 1], entries, counts)
  }

  /** The tables when the additions begin. */
  function BeforeAdding(c: Client, list: seq<DbTunnel>, entries: seq<u32>, order: seq<u32>): Client {
    ReopenAll(CloseAll(c, order), ToUpdate(c.tables, list, entries))
  }

  /** One whole `sync_tunnels`; `order` is the order in which the removed rows come out of the table. */
  function SyncPass(c: Client, list: seq<DbTunnel>, entries: seq<u32>, order: seq<u32>): Client {
    var reopened := BeforeAdding(c, list, entries, order);
    AddAll(reopened, ToAdd(c.tables, list), entries, Counts(reopened.tables))
  }

  // ---------------------------------------------------------------- frames, local streams, connections

  const DEFAULT_TARGET := "127.0.0.1:25565"

  /** The task started for a stream: where it connects, over UDP or TCP, and what it writes first. */
  datatype LocalTask = LocalTask(isUdp: bool, target: string, header: Option<string>)

  /** `show6` is the textual form of a genuine IPv6 address. */
  function TaskFor(t: Tables, m: Message, show6: Octets16 -> string): LocalTask
    requires m.NewConnection?
  {
    var target := if m.tunnelId in t.localAddrs then t.localAddrs[m.tunnelId] else DEFAULT_TARGET;
    var useProxy := m.tunnelId in t.proxies && t.proxies[m.tunnelId];
    var header := if !m.isUdp && useProxy then Some(ProxyHeader.Header(m.peerAddr, target, show6)) else None;
    LocalTask(m.isUdp, target, header)
  }

  /**
   * A player of an active tunnel is connected to the address recorded for it, by the player's own protocol, and a TCP
   * player of a tunnel with the proxy flag is introduced by the header for the player's address.
   */
  lemma TaskReachesTunnel(t: Tables, nextTid: nat, db: u32, m: Message, show6: Octets16 -> string)
    requires Coherent(t, nextTid) && m.NewConnection? && db in t.tunnels && t.tunnels[db].tunnelId == m.tunnelId
    ensures var a, task := t.tunnels[db], TaskFor(t, m, show6);
      && task.isUdp == m.isUdp && task.target == a.localAddress
      && task.header == if !a.proxyProtocol || m.isUdp then None
           else Some(ProxyHeader.Header(m.peerAddr, a.localAddress, show6))
  {
    assert EntriesAgree(t, t.tunnels[db]);
  }

  /** A player of a tunnel the client knows nothing about is sent to the default address without a header. */
  lemma TaskWithoutTunnel(t: Tables, m: Message, show6: Octets16 -> string)
    requires m.NewConnection? && m.tunnelId !in t.localAddrs && m.tunnelId !in t.proxies
    ensures TaskFor(t, m, show6) == LocalTask(m.isUdp, "127.0.0.1:25565", None)
  {
  }

  function WithoutStream(t: Tables, sid: u64): Tables {
    t.(streams := t.streams - {sid}, streamTunnel := t.streamTunnel - {sid})
  }

  function OnCloseTunnel(t: Tables, tid: u32): Tables {
    t.(tunnels := t.tunnels - (set db | db in t.tunnels && t.tunnels[db].tunnelId == tid),
       localAddrs := t.localAddrs - {tid}, tunnelServer := t.tunnelServer - {tid})
  }

  /** One frame from a server; `taken` says whether a local stream task still takes bytes off its channel. */
  function OnFrame(t: Tables, f: Frame, taken: bool): (Tables, seq<Frame>) {
    match f
    case Data(sid, _) =>
      if sid in t.streams && !taken then (WithoutStream(t, sid), [StreamClose(sid)]) else (t, [])
    case StreamClose(sid) => (WithoutStream(t, sid), [])
    case Control(NewConnection(tid, sid, _, _)) =>
      (t.(streams := t.streams + {sid}, streamTunnel := t.streamTunnel[sid := tid]), [])
    case Control(CloseTunnel(tid)) => (OnCloseTunnel(t, tid), [])
    case Control(_) => (t, [])
  }

  /** The local task of a stream has ended, or could not be started. */
  function LocalClosed(t: Tables, sid: u64): (Tables, seq<Frame>) {
    (WithoutStream(t, sid), [StreamClose(sid)])
  }

  function TidsOn(t: Tables, sid: u32): set<u32> {
    set db | db in TunnelsOn(t, sid) :: t.tunnels[db].tunnelId
  }

  /** Everything recorded for the tunnels of a lost server goes, streams included. */
  function Disconnected(t: Tables, sid: u32): Tables {
    var tids := TidsOn(t, sid);
    var gone := set s | s in t.streamTunnel && t.streamTunnel[s] in tids;
    t.(streams := t.streams - gone, streamTunnel := t.streamTunnel - gone,
       tunnels := t.tunnels - TunnelsOn(t, sid), localAddrs := t.localAddrs - tids, protocols := t.protocols - tids,
       proxies := t.proxies - tids, tunnelServer := t.tunnelServer - tids)
  }

  /** The tables after the rows in `gone` have been forgotten one by one. */
  ghost function WithoutRows(t: Tables, gone: set<u32>): Tables {
    var tids := set db | db in gone && db in t.tunnels :: t.tunnels[db].tunnelId;
    t.(tunnels := t.tunnels - gone, localAddrs := t.localAddrs - tids, protocols := t.protocols - tids,
       proxies := t.proxies - tids, tunnelServer := t.tunnelServer - tids)
  }

  lemma DisconnectedByRows(t: Tables, sid: u32)
    ensures var tids := TidsOn(t, sid);
      var gone := set s | s in t.streamTunnel && t.streamTunnel[s] in tids;
      Disconnected(t, sid) ==
        WithoutRows(t.(streams := t.streams - gone, streamTunnel := t.streamTunnel - gone), TunnelsOn(t, sid))
  {
    assert TidsOn(t, sid) ==
      set db | db in TunnelsOn(t, sid) && db in t.tunnels :: t.tunnels[db].tunnelId;
  }

  lemma WithoutOneMoreRow(t: Tables, gone: set<u32>, db: u32)
    requires db in t.tunnels && db !in gone
    ensures db in WithoutRows(t, gone).tunnels
    ensures Forget(WithoutRows(t, gone), db, true) == WithoutRows(t, gone + {db})
  {
    var tids := set x | x in gone && x in t.tunnels :: t.tunnels[x].tunnelId;
    var more := set x | x in gone + {db} && x in t.tunnels :: t.tunnels[x].tunnelId;
    assert more == tids + {t.tunnels[db].tunnelId};
    assert t.tunnels - gone - {db} == t.tunnels - (gone + {db});
    var tid := t.tunnels[db].tunnelId;
    assert t.localAddrs - tids - {tid} == t.localAddrs - more;
    assert t.protocols - tids - {tid} == t.protocols - more;
    assert t.proxies - tids - {tid} == t.proxies - more;
    assert t.tunnelServer - tids - {tid} == t.tunnelServer - more;
  }

  // ---------------------------------------------------------------- coherence

  ghost predicate IsActive(t: Tables, tid: u32) {
    exists db :: db in t.tunnels && t.tunnels[db].tunnelId == tid
  }

  /**
   * Active tunnel ids are nonzero, distinct and below the counter; they are exactly the keys of the address and
   * server tables, which agree with the recorded tunnel, and all have protocol and proxy entries.
   */
  ghost predicate Coherent(t: Tables, nextTid: nat) {
    && (forall db | db in t.tunnels :: 0 < t.tunnels[db].tunnelId < nextTid)
    && (forall a, b | a in t.tunnels && b in t.tunnels && a != b :: t.tunnels[a].tunnelId != t.tunnels[b].tunnelId)
    && (forall tid | tid in t.localAddrs :: IsActive(t, tid))
    && (forall tid | tid in t.tunnelServer :: IsActive(t, tid))
    && (forall db | db in t.tunnels :: EntriesAgree(t, t.tunnels[db]))
  }

  lemma ActiveBy(t: Tables, db: u32)
    requires db in t.tunnels
    ensures IsActive(t, t.tunnels[db].tunnelId)
  {
  }

  lemma ActiveWitness(t: Tables, tid: u32) returns (db: u32)
    requires IsActive(t, tid)
    ensures db in t.tunnels && t.tunnels[db].tunnelId == tid
  {
    db :| db in t.tunnels && t.tunnels[db].tunnelId == tid;
  }

  ghost predicate EntriesAgree(t: Tables, a: ActiveTunnel) {
    && a.tunnelId in t.localAddrs && t.localAddrs[a.tunnelId] == a.localAddress
    && a.tunnelId in t.tunnelServer && t.tunnelServer[a.tunnelId] == a.serverId
    && a.tunnelId in t.protocols
    && a.tunnelId in t.proxies && t.proxies[a.tunnelId] == a.proxyProtocol
  }

  lemma CoherentLater(t: Tables, a: nat, b: nat)
    requires Coherent(t, a) && a <= b
    ensures Coherent(t, b)
  {
  }

  /** Taking out the tunnels with the ids `tids`, and those ids' entries, keeps the tables coherent. */
  lemma RemovalCoherent(t: Tables, t': Tables, gone: set<u32>, tids: set<u32>, nextTid: nat)
    requires Coherent(t, nextTid)
    requires forall db | db in t.tunnels :: db in gone <==> t.tunnels[db].tunnelId in tids
    requires t'.tunnels == t.tunnels - gone
    requires t'.localAddrs == t.localAddrs - tids && t'.tunnelServer == t.tunnelServer - tids
    requires forall tid | tid in t.protocols && tid !in tids :: tid in t'.protocols
    requires forall tid | tid in t.proxies && tid !in tids :: tid in t'.proxies && t'.proxies[tid] == t.proxies[tid]
    ensures Coherent(t', nextTid)
  {
    hide IsActive;
    forall tid | tid in t'.localAddrs || tid in t'.tunnelServer
      ensures IsActive(t', tid)
    {
      var db := ActiveWitness(t, tid);
      ActiveBy(t', db);
    }
    forall db | db in t'.tunnels
      ensures EntriesAgree(t', t'.tunnels[db])
    {
      assert EntriesAgree(t, t.tunnels[db]);
    }
  }

  lemma ForgetCoherent(t: Tables, dbId: u32, withProtocol: bool, nextTid: nat)
    requires Coherent(t, nextTid) && dbId in t.tunnels
    ensures Coherent(Forget(t, dbId, withProtocol), nextTid)
  {
    RemovalCoherent(t, Forget(t, dbId, withProtocol), {dbId}, {t.tunnels[dbId].tunnelId}, nextTid);
  }

  lemma CloseTunnelCoherent(t: Tables, tid: u32, nextTid: nat)
    requires Coherent(t, nextTid)
    ensures Coherent(OnCloseTunnel(t, tid), nextTid)
  {
    var gone := set db | db in t.tunnels && t.tunnels[db].tunnelId == tid;
    RemovalCoherent(t, OnCloseTunnel(t, tid), gone, {tid}, nextTid);
  }

  lemma RecordCoherent(t: Tables, d: DbTunnel, tid: u32, sid: u32)
    requires Coherent(t, tid) && tid > 0 && d.id !in t.tunnels
    ensures Coherent(Record(t, d, tid, sid), tid as nat + 1)
  {
    var t' := Record(t, d, tid, sid);
    hide IsActive;
    forall x | x in t'.localAddrs || x in t'.tunnelServer
      ensures IsActive(t', x)
    {
      if x == tid {
        ActiveBy(t', d.id);
      } else {
        var db := ActiveWitness(t, x);
        ActiveBy(t', db);
      }
    }
    forall db | db in t'.tunnels
      ensures EntriesAgree(t', t'.tunnels[db])
    {
      if db != d.id {
        assert EntriesAgree(t, t.tunnels[db]);
      }
    }
  }

  /** No other control message changes the tables, and no control message is answered. */
  lemma ControlIsNotAnswered(t: Tables, m: Message, taken: bool)
    ensures OnFrame(t, Control(m), taken).1 == []
    ensures !m.NewConnection? && !m.CloseTunnel? ==> OnFrame(t, Control(m), taken).0 == t
  {
  }

  /** A CloseTunnel from the server takes out the tunnel with that id and nothing else, and leaves streams alone. */
  lemma RefusalIsExact(t: Tables, tid: u32)
    ensures var t' := OnCloseTunnel(t, tid);
      && (forall db :: db in t'.tunnels <==> db in t.tunnels && t.tunnels[db].tunnelId != tid)
      && (forall db | db in t'.tunnels :: t'.tunnels[db] == t.tunnels[db])
      && tid !in t'.localAddrs && tid !in t'.tunnelServer
      && t'.streams == t.streams && t'.streamTunnel == t.streamTunnel
      && t'.protocols == t.protocols && t'.proxies == t.proxies
  {
  }

  /** Losing a server removes exactly that server's tunnels and exactly the streams of those tunnels. */
  lemma DisconnectIsExact(t: Tables, sid: u32, nextTid: nat)
    requires Coherent(t, nextTid)
    ensures var t' := Disconnected(t, sid);
      && (forall tid | tid in TidsOn(t, sid) ::
            tid !in t'.localAddrs && tid !in t'.protocols && tid !in t'.proxies && tid !in t'.tunnelServer)
      && Coherent(t', nextTid)
      && (forall db :: db in t'.tunnels <==> db in t.tunnels && t.tunnels[db].serverId != sid)
      && (forall db | db in t'.tunnels :: t'.tunnels[db] == t.tunnels[db])
      && (forall s :: s in t'.streamTunnel <==> s in t.streamTunnel && t.streamTunnel[s] !in TidsOn(t, sid))
      && (forall s | s in t.streamTunnel :: s in t'.streams <==> s in t.streams && t.streamTunnel[s] !in TidsOn(t, sid))
      && (forall s | s !in t.streamTunnel :: s in t'.streams <==> s in t.streams)
  {
    forall db | db in t.tunnels
      ensures db in TunnelsOn(t, sid) <==> t.tunnels[db].tunnelId in TidsOn(t, sid)
    {
      if t.tunnels[db].tunnelId in TidsOn(t, sid) {
        var x :| x in TunnelsOn(t, sid) && t.tunnels[x].tunnelId == t.tunnels[db].tunnelId;
      }
    }
    RemovalCoherent(t, Disconnected(t, sid), TunnelsOn(t, sid), TidsOn(t, sid), nextTid);
  }

  // ---------------------------------------------------------------- the state object

  class ClientState {
    var tunnels: map<u32, ActiveTunnel>
    var localAddrs: map<u32, string>
    var protocols: map<u32, string>
    var proxies: map<u32, bool>
    var tunnelServer: map<u32, u32>
    var streams: set<u64>
    var streamTunnel: map<u64, u32>
    /** Frames queued towards each connected server, oldest first. */
    var links: map<u32, seq<Frame>>
    var nextTid: nat

    ghost function View(): Tables
      reads this
    {
      Tables(tunnels, localAddrs, protocols, proxies, tunnelServer, streams, streamTunnel)
    }

    ghost function All(): Client
      reads this
    {
      Client(View(), links, nextTid)
    }

    constructor ()
      ensures All() == EMPTY_CLIENT
    {
      tunnels, localAddrs, protocols, proxies, tunnelServer := map[], map[], map[], map[], map[];
      streams, streamTunnel, links, nextTid := {}, map[], map[], 1;
    }

    method Send(sid: u32, f: Frame)
      modifies this`links
      ensures links == Enqueue(old(links), sid, f)
    {
      if sid in links {
        links := links[sid := links[sid] + [f]];
      }
    }

    method ForgetTunnel(dbId: u32, withProtocol: bool)
      requires dbId in tunnels
      modifies this
      ensures All() == old(All()).(tables := Forget(old(View()), dbId, withProtocol))
    {
      var tid := tunnels[dbId].tunnelId;
      tunnels := tunnels - {dbId};
      localAddrs := localAddrs - {tid};
      tunnelServer := tunnelServer - {tid};
      proxies := proxies - {tid};
      if withProtocol {
        protocols := protocols - {tid};
      }
    }

    method OpenOn(d: DbTunnel, sid: u32)
      requires sid in links
      modifies this
      ensures All() == Open(old(All()), d, sid)
    {
      var tid := nextTid % MAX_TUNNEL_IDS;
      nextTid := nextTid + 1;
      var local := ProxyHeader.LocalAddress(d.serverIp, d.serverPort);
      Send(sid, Control(OpenTunnel(tid, d.remotePort, ProtocolOf(d.protocol), d.id)));
      tunnels := tunnels[d.id := ActiveTunnel(tid, sid, d.id, d.remotePort, local, d.proxyProtocol)];
      localAddrs := localAddrs[tid := local];
      protocols := protocols[tid := d.protocol];
      proxies := proxies[tid := d.proxyProtocol];
      tunnelServer := tunnelServer[tid := sid];
    }

    /** The three-way comparison of the tables with the manager's list. */
    method Diff(list: seq<DbTunnel>, entries: seq<u32>)
      returns (add: seq<DbTunnel>, remove: set<u32>, update: seq<Update>)
      ensures add == ToAdd(View(), list) && remove == ToRemove(View(), list)
      ensures update == ToUpdate(View(), list, entries)
    {
      add, update := [], [];
      for i := 0 to |list|
        invariant add == ToAdd(View(), list[..i]) && update == ToUpdate(View(), list[..i], entries)
      {
        assert list[..i + 1][..i] == list[..i];
        var d := list[i];
        if d.id in tunnels {
          var a := tunnels[d.id];
          var desired := if d.serverId.Some? then d.serverId.value else a.serverId;
          if desired in entries && (desired != a.serverId || d.proxyProtocol != a.proxyProtocol) {
            update := update + [Update(d, a.serverId, desired)];
          }
        } else {
          add := add + [d];
        }
      }
      assert list[..|list|] == list;
      remove := tunnels.Keys - set d | d in list :: d.id;
    }

    method CloseRemoved(dbId: u32)
      modifies this
      ensures All() == Close(old(All()), dbId, false)
    {
      if dbId in tunnels && tunnels[dbId].tunnelId > 0 {
        Send(tunnels[dbId].serverId, Control(CloseTunnel(tunnels[dbId].tunnelId)));
        ForgetTunnel(dbId, false);
      }
    }

    method ReopenUpdated(u: Update)
      modifies this
      ensures All() == Reopen(old(All()), u)
    {
      if u.row.id !in tunnels || tunnels[u.row.id].tunnelId == 0 {
        return;
      }
      Send(u.oldSid, Control(CloseTunnel(tunnels[u.row.id].tunnelId)));
      ForgetTunnel(u.row.id, true);
      if u.newSid in links {
        OpenOn(u.row, u.newSid);
      } else {
        nextTid := nextTid + 1;
      }
    }

    /** How many active tunnels each server has. */
    method CountTunnels() returns (counts: map<u32, nat>)
      ensures counts == Counts(View())
    {
      hide CountsPart;
      counts := map[];
      var left := tunnels.Keys;
      CountsStart(View());
      assert tunnels.Keys - left == {};
      while left != {}
        invariant left <= tunnels.Keys
        invariant CountsPart(View(), tunnels.Keys - left, counts)
      {
        var db :| db in left;
        CountOneMore(View(), tunnels.Keys - left, counts, db);
        assert tunnels.Keys - (left - {db}) == (tunnels.Keys - left) + {db};
        counts := counts[tunnels[db].serverId := Load(counts, tunnels[db].serverId) + 1];
        left := left - {db};
      }
      assert tunnels.Keys - left == tunnels.Keys;
      CountsWhole(View(), counts);
    }

    /** Returns the order in which the table listed the rows. */
    method CloseAllRemoved(remove: set<u32>) returns (order: seq<u32>)
      modifies this
      ensures Enumerates(order, remove)
      ensures All() == CloseAll(old(All()), order)
    {
      hide Close;
      order := [];
      var left := remove;
      while left != {}
        invariant left <= remove && Enumerates(order, remove - left)
        invariant All() == CloseAll(old(All()), order)
      {
        var dbId :| dbId in left;
        CloseRemoved(dbId);
        EnumeratesNext(order, remove - left, dbId);
        assert remove - (left - {dbId}) == (remove - left) + {dbId};
        assert (order + [dbId])[..|order|] == order;
        order, left := order + [dbId], left - {dbId};
      }
      assert remove - left == remove;
    }

    method ReopenAllUpdated(update: seq<Update>)
      modifies this
      ensures All() == ReopenAll(old(All()), update)
    {
      hide Reopen;
      for i := 0 to |update|
        invariant All() == ReopenAll(old(All()), update[..i])
      {
        assert update[..i + 1][..i] == update[..i];
        ReopenUpdated(update[i]);
      }
      assert update[..|update|] == update;
    }

    method AddRow(d: DbTunnel, entries: seq<u32>, counts: map<u32, nat>)
      modifies this
      ensures All() == Add(old(All()), d, entries, counts)
    {
      var sid := if d.serverId.Some? && d.serverId.value in entries then d.serverId.value
        else if entries != [] then entries[FirstLeast(entries, counts)] else 1;
      if sid in links {
        OpenOn(d, sid);
      }
    }

    method AddAllRows(add: seq<DbTunnel>, entries: seq<u32>, counts: map<u32, nat>)
      modifies this
      ensures All() == AddAll(old(All()), add, entries, counts)
    {
      hide Add;
      for i := 0 to |add|
        invariant All() == AddAll(old(All()), add[..i], entries, counts)
      {
        assert add[..i + 1][..i] == add[..i];
        AddRow(add[i], entries, counts);
      }
      assert add[..|add|] == add;
    }

    /** `sync_tunnels`: removals in the order the table lists them, then updates, then additions. */
    method SyncTunnels(list: seq<DbTunnel>, entries: seq<u32>) returns (order: seq<u32>)
      modifies this
      ensures Enumerates(order, ToRemove(old(View()), list))
      ensures All() == SyncPass(old(All()), list, entries, order)
    {
      var add, remove, update := Diff(list, entries);
      order := CloseAllRemoved(remove);
      ReopenAllUpdated(update);
      var counts := CountTunnels();
      AddAllRows(add, entries, counts);
    }

    method TunnelRefused(tid: u32)
      requires Coherent(View(), nextTid)
      modifies this
      ensures All() == old(All()).(tables := OnCloseTunnel(old(View()), tid))
    {
      var found := set db | db in tunnels && tunnels[db].tunnelId == tid;
      if found != {} {
        var db :| db in found;
        assert found == {db} by {
          assert forall x | x in found :: x == db;
        }
        tunnels := tunnels - {db};
      } else {
        assert tunnels - found == tunnels;
      }
      localAddrs := localAddrs - {tid};
      tunnelServer := tunnelServer - {tid};
    }

    /** A player was announced: the stream is recorded and its task started. */
    method StartStream(m: Message, show6: Octets16 -> string) returns (task: LocalTask)
      requires m.NewConnection?
      modifies this
      ensures task == TaskFor(old(View()), m, show6)
      ensures All() == old(All()).(tables := old(View()).(streams := old(streams) + {m.streamId},
                                                         streamTunnel := old(streamTunnel)[m.streamId := m.tunnelId]))
    {
      var tid := m.tunnelId;
      var target := if tid in localAddrs then localAddrs[tid] else DEFAULT_TARGET;
      var useProxy := tid in proxies && proxies[tid];
      streamTunnel := streamTunnel[m.streamId := tid];
      streams := streams + {m.streamId};
      var header := if !m.isUdp && useProxy then Some(ProxyHeader.Header(m.peerAddr, target, show6)) else None;
      return LocalTask(m.isUdp, target, header);
    }

    /** `handle_server_frame`, and the control messages it passes on. */
    method HandleFrame(from: u32, f: Frame, taken: bool, show6: Octets16 -> string) returns (task: Option<LocalTask>)
      requires Coherent(View(), nextTid)
      modifies this
      ensures task ==
        if f.Control? && f.msg.NewConnection? then Some(TaskFor(old(View()), f.msg, show6)) else None
      ensures var (t, out) := OnFrame(old(View()), f, taken);
        View() == t && nextTid == old(nextTid) &&
        links == if out == [] then old(links) else Enqueue(old(links), from, out[0])
    {
      hide TaskFor;
      task := None;
      match f {
        case Data(sid, _) =>
          if sid in streams && !taken {
            Send(from, StreamClose(sid));
            streams := streams - {sid};
            streamTunnel := streamTunnel - {sid};
          }
        case StreamClose(sid) =>
          streams := streams - {sid};
          streamTunnel := streamTunnel - {sid};
        case Control(NewConnection(_, _, _, _)) =>
          var started := StartStream(f.msg, show6);
          task := Some(started);
        case Control(CloseTunnel(tid)) =>
          TunnelRefused(tid);
        case Control(_) =>
      }
    }

    method LocalStreamEnded(server: u32, sid: u64)
      modifies this
      ensures View() == LocalClosed(old(View()), sid).0 && nextTid == old(nextTid)
      ensures links == Enqueue(old(links), server, LocalClosed(old(View()), sid).1[0])
    {
      Send(server, StreamClose(sid));
      streams := streams - {sid};
      streamTunnel := streamTunnel - {sid};
    }

    method ForgetRows(rows: set<u32>)
      requires rows <= tunnels.Keys
      modifies this
      ensures All() == old(All()).(tables := WithoutRows(old(View()), rows))
    {
      hide Forget;
      ghost var start := View();
      var left := rows;
      assert rows - left == {};
      while left != {}
        invariant left <= rows && All() == old(All()).(tables := WithoutRows(start, rows - left))
      {
        var db :| db in left;
        WithoutOneMoreRow(start, rows - left, db);
        assert rows - (left - {db}) == (rows - left) + {db};
        ForgetTunnel(db, true);
        left := left - {db};
      }
      assert rows - left == rows;
    }

    /** The cleanup of `run_server_task` after its connection is lost. */
    method ServerLost(server: u32)
      modifies this
      ensures View() == Disconnected(old(View()), server)
      ensures links == old(links) - {server} && nextTid == old(nextTid)
    {
      links := links - {server};
      var rows := set db | db in tunnels && tunnels[db].serverId == server;
      var tids := set db | db in rows :: tunnels[db].tunnelId;
      var stale := set s | s in streamTunnel && streamTunnel[s] in tids;
      streams, streamTunnel := streams - stale, streamTunnel - stale;
      DisconnectedByRows(old(View()), server);
      ForgetRows(rows);
    }
  }
}
