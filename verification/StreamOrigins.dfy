/**
 * Where every stream of a link belongs: in every run, the server's table, the announcement and the client's table
 * name the tunnel a player was really accepted on, and closing a tunnel ends exactly its players' streams.
 */
module StreamOrigins {
  import opened Base
  import opened Wire
  import opened StreamLink
  import Client
  import Server

  /** The tunnel whose listener a player was accepted on, the protocol of that listener, and the player's address. */
  datatype Origin = Origin(tid: u32, isUdp: bool, addr: SocketAddr)

  type Origins = map<u64, Origin>

  /** How each stream came about, taken from the events alone. */
  function OriginsOf(events: seq<Event>): Origins {
    if events == [] then map[] else
    var before, e := events[..|events| - 1], events[|events| - 1];
    var sofar, next := OriginsOf(before), Run(before).nextSid;
    if next >= MAX_STREAM_IDS then sofar else
    match e
    case AcceptTcp(tid, peer) => sofar[next := Origin(tid, false, peer)]
    case OpenUdp(tid, addr, _) => sofar[next := Origin(tid, true, addr)]
    case _ => sofar
  }

  /** The announcement of stream `x`, as its player's arrival asks for it. */
  function Announcement(o: Origin, x: u64): Frame {
    Control(NewConnection(o.tid, x, o.isUdp, Some(o.addr)))
  }

  ghost predicate ServerKnows(t: Server.Tables, origin: Origins) {
    && (forall x | x in t.streamTunnel :: x in origin && t.streamTunnel[x] == origin[x].tid)
    && (forall x | x in t.streams :: x in origin && !origin[x].isUdp)
    && (forall x | x in t.udpPeers :: x in origin && origin[x].isUdp && t.udpPeers[x].addr == origin[x].addr)
  }

  ghost predicate AnnouncedAs(q: seq<Frame>, origin: Origins) {
    forall f | f in q && f.Control? && f.msg.NewConnection? ::
      f.msg.streamId in origin && f == Announcement(origin[f.msg.streamId], f.msg.streamId)
  }

  ghost predicate ClientKnows(t: Client.Tables, origin: Origins) {
    forall x | x in t.streamTunnel :: x in origin && t.streamTunnel[x] == origin[x].tid
  }

  ghost predicate OriginsFit(l: Link, origin: Origins) {
    && l.nextSid > 0
    && (forall x | x in origin :: 0 < x < l.nextSid)
    && ServerKnows(l.server, origin) && AnnouncedAs(l.down, origin) && ClientKnows(l.client, origin)
  }

  /** No frame the server receives adds a stream, moves one to another tunnel, or makes it announce one. */
  lemma FrameAddsNoStream(t: Server.Tables, f: Frame, c: Server.Choice)
    ensures var (t', out) := Server.OnFrame(t, f, c);
      && (forall x | x in t'.streamTunnel :: x in t.streamTunnel && t'.streamTunnel[x] == t.streamTunnel[x])
      && t'.streams <= t.streams
      && (forall x | x in t'.udpPeers :: x in t.udpPeers && t'.udpPeers[x].addr == t.udpPeers[x].addr)
      && (forall g | g in out :: !(g.Control? && g.msg.NewConnection?))
  {
  }

  lemma AnnouncedMore(q: seq<Frame>, out: seq<Frame>, origin: Origins)
    requires AnnouncedAs(q, origin) && AnnouncedAs(out, origin)
    ensures AnnouncedAs(q + out, origin)
  {
  }

  /** A new player: nothing recorded so far is about the new id. */
  lemma ArrivalFits(l: Link, e: Event, origin: Origins)
    requires OriginsFit(l, origin) && Enabled(l, e) && (e.AcceptTcp? || e.OpenUdp?)
    ensures var o := Origin(e.tid, e.OpenUdp?, if e.OpenUdp? then e.addr else e.peer);
      OriginsFit(Step(l, e), origin[l.nextSid := o])
  {
    var o := Origin(e.tid, e.OpenUdp?, if e.OpenUdp? then e.addr else e.peer);
    var l', x, origin' := Step(l, e), l.nextSid, origin[l.nextSid := o];
    assert x !in origin;
    assert l'.down == l.down + [Announcement(o, x)];
    AnnouncedMore(l.down, [Announcement(o, x)], origin');
    hide AnnouncedAs;
  }

  lemma ServerReceiptFits(l: Link, c: Server.Choice, origin: Origins)
    requires OriginsFit(l, origin) && l.up != []
    ensures OriginsFit(ServerStep(l, c), origin)
  {
    FrameAddsNoStream(l.server, l.up[0], c);
    AnnouncedMore(l.down, Server.OnFrame(l.server, l.up[0], c).1, origin);
    hide Server.OnFrame, AnnouncedAs;
  }

  /** The client puts a stream under the tunnel of its announcement, and moves none. */
  lemma ClientFrameFits(t: Client.Tables, f: Frame, taken: bool, origin: Origins)
    requires ClientKnows(t, origin) && AnnouncedAs([f], origin)
    ensures ClientKnows(Client.OnFrame(t, f, taken).0, origin)
  {
    assert f in [f];
  }

  lemma ClientReceiptFits(l: Link, taken: bool, origin: Origins)
    requires OriginsFit(l, origin) && l.down != []
    ensures OriginsFit(ClientStep(l, taken), origin)
  {
    assert AnnouncedAs([l.down[0]], origin) && AnnouncedAs(l.down[1..], origin);
    ClientFrameFits(l.client, l.down[0], taken, origin);
    hide AnnouncedAs, ClientKnows, ServerKnows, Client.OnFrame;
  }

  lemma OtherStepFits(l: Link, e: Event, origin: Origins)
    requires OriginsFit(l, origin) && Enabled(l, e)
    requires !e.AcceptTcp? && !e.OpenUdp? && !e.ServerReceives? && !e.ClientReceives?
    ensures OriginsFit(Step(l, e), origin)
  {
  }

  lemma {:induction false} OriginsAlwaysFit(events: seq<Event>)
    ensures OriginsFit(Run(events), OriginsOf(events))
  {
    if events != [] {
      var before, e := events[..|events| - 1], events[|events| - 1];
      OriginsAlwaysFit(before);
      var l, origin := Run(before), OriginsOf(before);
      hide OriginsFit;
      if Enabled(l, e) {
        match e
        case AcceptTcp(_, _) => ArrivalFits(l, e, origin);
        case OpenUdp(_, _, _) => ArrivalFits(l, e, origin);
        case ServerReceives(c) => ServerReceiptFits(l, c, origin);
        case ClientReceives(taken) => ClientReceiptFits(l, taken, origin);
        case _ => OtherStepFits(l, e, origin);
      }
    }
  }

  // ---------------------------------------------------------------- what follows for every run

  /**
   * In every reachable state: a stream the server has is recorded under the tunnel its player was accepted on, as TCP
   * or UDP and with the player's address as it was; its announcement, while under way, says exactly that; and the
   * client has it under the same tunnel.
   */
  lemma StreamsKeepTheirOrigin(events: seq<Event>, x: u64)
    ensures var l, origin := Run(events), OriginsOf(events);
      && (x in l.server.streamTunnel ==> x in origin && l.server.streamTunnel[x] == origin[x].tid)
      && (x in l.server.streams ==> x in origin && !origin[x].isUdp)
      && (x in l.server.udpPeers ==>
            x in origin && origin[x].isUdp && l.server.udpPeers[x].addr == origin[x].addr)
      && (x in l.client.streamTunnel ==> x in origin && l.client.streamTunnel[x] == origin[x].tid)
      && (forall f | f in l.down && f.Control? && f.msg.NewConnection? && f.msg.streamId == x ::
            x in origin && f.msg == NewConnection(origin[x].tid, x, origin[x].isUdp, Some(origin[x].addr)))
  {
    OriginsAlwaysFit(events);
    hide Run, OriginsOf;
  }

  /** From `t` to `t'` exactly the streams accepted on `tid` ended, and `out` announces the end of each of them once. */
  ghost predicate EndsPlayersOf(tid: u32, origin: Origins, t: Server.Tables, t': Server.Tables, out: seq<Frame>) {
    && (forall x | x in t.streamTunnel :: x in origin)
    && (forall x :: x in t'.streamTunnel <==> x in t.streamTunnel && origin[x].tid != tid)
    && (forall x :: x in t'.streams <==> x in t.streams && x in origin && origin[x].tid != tid)
    && (forall x :: x in t'.udpPeers <==> x in t.udpPeers && x in origin && origin[x].tid != tid)
    && NoDuplicates(out)
    && forall f :: f in out <==> f.StreamClose? && f.streamId in t.streamTunnel && origin[f.streamId].tid == tid
  }

  /**
   * In every run, a CloseTunnel that the server handles ends exactly the streams whose players were accepted on that
   * tunnel, and announces the end of each of them once.
   */
  lemma CloseEndsItsPlayers(events: seq<Event>, tid: u32, c: Server.Choice)
    requires Enabled(Run(events), ServerReceives(c)) && Run(events).up[0] == Control(CloseTunnel(tid))
    ensures var l, l' := Run(events), Run(events + [ServerReceives(c)]);
      && l.down <= l'.down
      && EndsPlayersOf(tid, OriginsOf(events), l.server, l'.server, l'.down[|l.down|..])
  {
    hide *;
    OneMore(events, ServerReceives(c));
    Receives(Run(events), c);
    OriginsAlwaysFit(events);
    TablesFitInRun(events);
    CloseStep(Run(events), tid, c, OriginsOf(events));
  }

  lemma TablesFitInRun(events: seq<Event>)
    ensures Server.StreamTablesFit(Run(events).server)
  {
    ServerTablesFit(events);
    hide Run;
  }

  lemma CloseStep(l: Link, tid: u32, c: Server.Choice, origin: Origins)
    requires OriginsFit(l, origin) && Server.StreamTablesFit(l.server)
    requires l.up != [] && l.up[0] == Control(CloseTunnel(tid)) && Server.ChoiceFits(l.server, l.up[0], c)
    ensures var l' := ServerStep(l, c);
      && l.down <= l'.down
      && EndsPlayersOf(tid, origin, l.server, l'.server, l'.down[|l.down|..])
  {
    var out := Server.OnCloseTunnel(l.server, tid, c.order).1;
    CloseOnTables(l.server, tid, c.order, origin);
    hide Server.OnCloseTunnel, EndsPlayersOf;
    assert (l.down + out)[|l.down|..] == out;
  }

  lemma CloseOnTables(t: Server.Tables, tid: u32, order: seq<u64>, origin: Origins)
    requires ServerKnows(t, origin) && Server.StreamTablesFit(t) && Enumerates(order, Server.StreamsOf(t, tid))
    ensures var (t', out) := Server.OnCloseTunnel(t, tid, order); EndsPlayersOf(tid, origin, t, t', out)
  {
    Server.CloseTunnelIsExact(t, tid, order);
    var (t', out) := Server.OnCloseTunnel(t, tid, order);
    assert forall f | f in out :: f.StreamClose?;
    hide Server.OnCloseTunnel;
  }
}
