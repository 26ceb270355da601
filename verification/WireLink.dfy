/**
 * Player streams over the bytes of a connection: the two sides of the stream model joined by two byte pipes, each
 * with a queue, a writer that encodes what it takes off the queue, bytes under way, and a reader that takes frames
 * off the bytes that have arrived. Every run of it is a run over queues of frames, so what holds there holds here.
 */
module WireLink {
  import opened Base
  import opened Wire
  import opened Batching
  import Client
  import Server
  import StreamLink
  import StreamOrigins

  // ---------------------------------------------------------------- states and steps

  /** `link` is the stream model without its two queues, for which the pipes stand in. */
  datatype Wired = Wired(link: StreamLink.Link, up: Pipe, down: Pipe)

  /** `Local` is any event of the stream model other than the receipt of a frame. */
  datatype Event =
    | Local(action: StreamLink.Event)
    | UpMoves(event: PipeEvent)
    | DownMoves(event: PipeEvent)
    | ServerReads(choice: Server.Choice)
    | ClientReads(taken: bool)

  const START := Wired(StreamLink.START, EMPTY_PIPE, EMPTY_PIPE)

  /** Nothing is queued except by the two sides, and nothing is read except by their frame loops. */
  predicate Enabled(w: Wired, e: Event) {
    match e
    case Local(a) => !a.ServerReceives? && !a.ClientReceives?
    case UpMoves(p) => p.WriteNext? || p.Arrive?
    case DownMoves(p) => p.WriteNext? || p.Arrive?
    case ServerReads(c) =>
      var r := ParseFrame(w.up.arrived);
      r.Ok? && Server.ChoiceFits(w.link.server, r.value.0, c)
    case ClientReads(_) => ParseFrame(w.down.arrived).Ok?
  }

  /** The two sides without what is between them. */
  function Apart(l: StreamLink.Link): StreamLink.Link {
    l.(up := [], down := [])
  }

  function EnqueueAll(p: Pipe, frames: seq<Frame>): Pipe {
    p.(queue := p.queue + frames, sent := p.sent + frames)
  }

  /** What one side did is kept, and what it sent goes into the pipes. */
  function Settle(w: Wired, l: StreamLink.Link): Wired {
    Wired(Apart(l), EnqueueAll(w.up, l.up), EnqueueAll(w.down, l.down))
  }

  function Step(w: Wired, e: Event): Wired {
    if !Enabled(w, e) then w else
    match e
    case Local(a) => Settle(w, StreamLink.Step(w.link, a))
    case UpMoves(p) => w.(up := PipeStep(w.up, p))
    case DownMoves(p) => w.(down := PipeStep(w.down, p))
    case ServerReads(c) =>
      var f := ParseFrame(w.up.arrived).value.0;
      Settle(w.(up := PipeStep(w.up, ReadNext)), StreamLink.ServerStep(w.link.(up := [f]), c))
    case ClientReads(taken) =>
      var f := ParseFrame(w.down.arrived).value.0;
      Settle(w.(down := PipeStep(w.down, ReadNext)), StreamLink.ClientStep(w.link.(down := [f]), taken))
  }

  function Run(events: seq<Event>): Wired {
    if events == [] then START else Step(Run(events[..|events| - 1]), events[|events| - 1])
  }

  // ---------------------------------------------------------------- refinement

  /** The frame queues that a pipe stands in for: what was sent and has not been read. */
  ghost predicate Carries(p: Pipe, queue: seq<Frame>, r: nat, w: nat) {
    PipeAt(p, r, w) && queue == p.sent[r..]
  }

  /** The stream model is in the same state, with what is in the pipes in its queues. */
  ghost predicate Refines(w: Wired, l: StreamLink.Link) {
    && w.link == Apart(l)
    && (exists r, k :: Carries(w.up, l.up, r, k))
    && (exists r, k :: Carries(w.down, l.down, r, k))
  }

  lemma CarriesMore(p: Pipe, queue: seq<Frame>, frames: seq<Frame>, r: nat, w: nat)
    requires Carries(p, queue, r, w) && AllEncodable(frames)
    ensures Carries(EnqueueAll(p, frames), queue + frames, r, w)
  {
    hide Encodable, Concat, Normals;
    var q := EnqueueAll(p, frames);
    assert q.sent[..r] == p.sent[..r] && q.sent[r..w] == p.sent[r..w];
    assert q.sent[w..] == p.sent[w..] + frames && q.sent[r..] == p.sent[r..] + frames;
  }

  /** Writing and transport leave the frame queue as it is. */
  lemma CarriesStill(p: Pipe, e: PipeEvent, queue: seq<Frame>, r: nat, w: nat) returns (w': nat)
    requires Carries(p, queue, r, w) && (e.WriteNext? || e.Arrive?)
    ensures Carries(PipeStep(p, e), queue, r, w')
  {
    hide PipeAt, FrameBytes, ParseFrame;
    w' := w;
    if e.WriteNext? && p.queue != [] {
      PipeWrite(p, r, w);
      w' := w + 1;
    } else if e.Arrive? && e.bytes <= |p.transit| {
      PipeArrive(p, r, w, e.bytes);
    }
  }

  /** A frame read off the bytes is the first of the queue, in its normal form. */
  lemma CarriesRead(p: Pipe, queue: seq<Frame>, r: nat, w: nat)
    requires Carries(p, queue, r, w) && ParseFrame(p.arrived).Ok?
    ensures queue != [] && ParseFrame(p.arrived).value.0 == NormalFrame(queue[0])
    ensures Carries(PipeStep(p, ReadNext), queue[1..], r + 1, w)
  {
    hide ParseFrame, FrameBytes, Encodable, NormalFrame, Concat;
    PipeRead(p, r, w);
    var p' := PipeStep(p, ReadNext);
    assert |p'.received| == |p.received| + 1;
    assert p.sent[..r + 1] == p.sent[..r] + [p.sent[r]];
    assert p'.received[r] == NormalFrame(p.sent[r]);
  }

  /** What `k`, with its own queues, adds to the queues of `l`. */
  ghost predicate Extends(l: StreamLink.Link, k: StreamLink.Link, l': StreamLink.Link) {
    l' == k.(up := l.up + k.up, down := l.down + k.down)
  }

  /** A local event does the same whatever is queued. */
  lemma LocalIgnoresQueues(l: StreamLink.Link, a: StreamLink.Event)
    requires !a.ServerReceives? && !a.ClientReceives?
    ensures Extends(l, StreamLink.Step(Apart(l), a), StreamLink.Step(l, a))
  {
    hide Server.AcceptTcp, Server.RegisterUdp, Server.PlayerClosed, Server.ExpireUdp, Client.LocalClosed;
    assert l.up + [] == l.up && l.down + [] == l.down;
  }

  lemma ServerReadsTheSame(l: StreamLink.Link, c: Server.Choice)
    requires l.up != []
    ensures Extends(l.(up := l.up[1..]), StreamLink.ServerStep(Apart(l).(up := [NormalFrame(l.up[0])]), c),
                    StreamLink.ServerStep(l, c))
  {
    StreamLink.FrameLoopsIgnoreWireLoss(l.up[0], l.client, true, l.server, c);
    hide Server.OnFrame;
    assert l.up[1..] + [] == l.up[1..];
  }

  lemma ClientReadsTheSame(l: StreamLink.Link, taken: bool)
    requires l.down != []
    ensures Extends(l.(down := l.down[1..]), StreamLink.ClientStep(Apart(l).(down := [NormalFrame(l.down[0])]), taken),
                    StreamLink.ClientStep(l, taken))
  {
    var choice := Server.Choice(true, true, true, [], true);
    StreamLink.FrameLoopsIgnoreWireLoss(l.down[0], l.client, taken, l.server, choice);
    hide Client.OnFrame;
    assert l.down[1..] + [] == l.down[1..];
  }

  /** Putting what a step sent into the pipes keeps the refinement. */
  lemma SettleRefines(w: Wired, l: StreamLink.Link, k: StreamLink.Link, l': StreamLink.Link)
    requires Refines(w, l) && Extends(l, k, l') && AllEncodable(l'.up) && AllEncodable(l'.down)
    ensures Refines(Settle(w, k), l')
  {
    LaterEncodable(l.up, k.up);
    LaterEncodable(l.down, k.down);
    hide PipeAt, AllEncodable, EnqueueAll;
    var r, m :| Carries(w.up, l.up, r, m);
    CarriesMore(w.up, l.up, k.up, r, m);
    var r', m' :| Carries(w.down, l.down, r', m');
    CarriesMore(w.down, l.down, k.down, r', m');
    hide Carries;
  }

  lemma LaterEncodable(a: seq<Frame>, b: seq<Frame>)
    ensures AllEncodable(a + b) ==> AllEncodable(b)
  {
    hide Encodable;
    assert forall f | f in b :: f in a + b;
  }

  /** What a step over bytes amounts to over queues of frames. */
  function Ideal(w: Wired, e: Event): seq<StreamLink.Event> {
    if !Enabled(w, e) then [] else
    match e
    case Local(a) => [a]
    case UpMoves(_) => []
    case DownMoves(_) => []
    case ServerReads(c) => [StreamLink.ServerReceives(c)]
    case ClientReads(taken) => [StreamLink.ClientReceives(taken)]
  }

  function Frames(events: seq<Event>): seq<StreamLink.Event> {
    if events == [] then [] else
    var before := events[..|events| - 1];
    Frames(before) + Ideal(Run(before), events[|events| - 1])
  }

  lemma StepRefines(w: Wired, e: Event, before: seq<StreamLink.Event>)
    requires Refines(w, StreamLink.Run(before))
    ensures Refines(Step(w, e), StreamLink.Run(before + Ideal(w, e)))
  {
    hide StreamLink.Run, StreamLink.Step, StreamLink.ServerStep, StreamLink.ClientStep;
    hide PipeAt, ParseFrame, AllEncodable;
    var l := StreamLink.Run(before);
    assert before + [] == before;
    if Enabled(w, e) {
      match e {
        case Local(a) =>
          StreamLink.OneMore(before, a);
          LocalIgnoresQueues(l, a);
          StreamLink.QueuesFitTheWire(before + [a]);
          SettleRefines(w, l, StreamLink.Step(w.link, a), StreamLink.Run(before + [a]));
        case UpMoves(p) =>
          var r, m :| Carries(w.up, l.up, r, m);
          var m' := CarriesStill(w.up, p, l.up, r, m);
        case DownMoves(p) =>
          var r, m :| Carries(w.down, l.down, r, m);
          var m' := CarriesStill(w.down, p, l.down, r, m);
        case ServerReads(c) => ServerReadsRefines(w, c, before);
        case ClientReads(taken) => ClientReadsRefines(w, taken, before);
      }
    }
  }

  lemma ServerReadsRefines(w: Wired, c: Server.Choice, before: seq<StreamLink.Event>)
    requires Refines(w, StreamLink.Run(before)) && Enabled(w, ServerReads(c))
    ensures Refines(Step(w, ServerReads(c)), StreamLink.Run(before + [StreamLink.ServerReceives(c)]))
  {
    hide StreamLink.Run, StreamLink.ServerStep, PipeAt, ParseFrame, AllEncodable, PipeStep;
    var l, e := StreamLink.Run(before), StreamLink.ServerReceives(c);
    var r, m :| Carries(w.up, l.up, r, m);
    CarriesRead(w.up, l.up, r, m);
    StreamLink.FrameLoopsIgnoreWireLoss(l.up[0], l.client, true, l.server, c);
    hide Server.ChoiceFits;
    StreamLink.OneMore(before, e);
    ServerReadsTheSame(l, c);
    StreamLink.QueuesFitTheWire(before + [e]);
    SettleRefines(w.(up := PipeStep(w.up, ReadNext)), l.(up := l.up[1..]),
                  StreamLink.ServerStep(Apart(l).(up := [NormalFrame(l.up[0])]), c), StreamLink.Run(before + [e]));
  }

  lemma ClientReadsRefines(w: Wired, taken: bool, before: seq<StreamLink.Event>)
    requires Refines(w, StreamLink.Run(before)) && Enabled(w, ClientReads(taken))
    ensures Refines(Step(w, ClientReads(taken)), StreamLink.Run(before + [StreamLink.ClientReceives(taken)]))
  {
    hide StreamLink.Run, StreamLink.ClientStep, PipeAt, ParseFrame, AllEncodable, PipeStep;
    var l, e := StreamLink.Run(before), StreamLink.ClientReceives(taken);
    var r, m :| Carries(w.down, l.down, r, m);
    CarriesRead(w.down, l.down, r, m);
    StreamLink.OneMore(before, e);
    ClientReadsTheSame(l, taken);
    StreamLink.QueuesFitTheWire(before + [e]);
    SettleRefines(w.(down := PipeStep(w.down, ReadNext)), l.(down := l.down[1..]),
                  StreamLink.ClientStep(Apart(l).(down := [NormalFrame(l.down[0])]), taken),
                  StreamLink.Run(before + [e]));
  }

  /** Every run over bytes is a run over queues of frames. */
  lemma {:induction false} RunRefines(events: seq<Event>)
    ensures Refines(Run(events), StreamLink.Run(Frames(events)))
  {
    if events == [] {
      assert Carries(EMPTY_PIPE, [], 0, 0);
    } else {
      var before := events[..|events| - 1];
      RunRefines(before);
      StepRefines(Run(before), events[|events| - 1], Frames(before));
      hide Refines, Step, Ideal;
    }
  }

  // ---------------------------------------------------------------- what follows for every run

  lemma NormalRegisters(f: Frame, reg: bool, x: u64)
    ensures StreamLink.NextReg(reg, NormalFrame(f), x) == StreamLink.NextReg(reg, f, x)
    ensures NormalFrame(f) == StreamClose(x) <==> f == StreamClose(x)
  {
  }

  lemma {:induction false} RegisteredNormals(reg: bool, q: seq<Frame>, x: u64)
    ensures StreamLink.Registered(reg, Normals(q), x) == StreamLink.Registered(reg, q, x)
    ensures StreamClose(x) in Normals(q) <==> StreamClose(x) in q
    decreases q
  {
    if q != [] {
      NormalRegisters(q[0], reg, x);
      var n := Normals(q);
      assert n[0] == NormalFrame(q[0]) && n[1..] == Normals(q[1..]);
      RegisteredNormals(StreamLink.NextReg(reg, q[0], x), q[1..], x);
      hide StreamLink.NextReg, NormalFrame, Normals;
      assert q == [q[0]] + q[1..] && n == [n[0]] + n[1..];
    }
  }

  /**
   * In every run and in both directions, through codec, writer and reader: the bytes handed to the receiving side's
   * stream channel are a prefix of the bytes read from the sending socket.
   */
  lemma BytesArriveInOrder(events: seq<Event>, x: u64)
    ensures var l := Run(events).link;
      && Accumulated(l.toLocal, x) <= Accumulated(l.fromPlayer, x)
      && Accumulated(l.toPlayer, x) <= Accumulated(l.fromLocal, x)
  {
    hide StreamLink.Run, Frames;
    var frames := Frames(events);
    RunRefines(events);
    StreamLink.BytesArriveInOrder(frames, x);
  }

  /**
   * In every run: a stream is in the server's tables with no close of it under way from the client exactly when
   * replaying the frames under way to the client leaves it in the client's table.
   */
  lemma StreamAgreement(events: seq<Event>, x: u64)
    ensures var w := Run(events);
      x in w.link.server.streamTunnel && StreamClose(x) !in UnderWay(w.up) <==>
      StreamLink.Registered(x in w.link.client.streams, UnderWay(w.down), x)
  {
    hide StreamLink.Run, Frames, PipeAt, UnderWay, StreamLink.Registered;
    var frames := Frames(events);
    RunRefines(events);
    var w, l := Run(events), StreamLink.Run(frames);
    var r, m :| Carries(w.up, l.up, r, m);
    UnderWayIsUnread(w.up, r, m);
    var r', m' :| Carries(w.down, l.down, r', m');
    UnderWayIsUnread(w.down, r', m');
    RegisteredNormals(true, l.up, x);
    RegisteredNormals(x in l.client.streams, l.down, x);
    StreamLink.StreamAgreement(frames, x);
  }

  /** A pipe with nothing queued and no byte under way. */
  predicate Quiet(p: Pipe) {
    p.queue == [] && p.arrived == [] && p.transit == []
  }

  lemma NoBytesNoFrames(frames: seq<Frame>)
    ensures Concat(frames) == [] ==> frames == []
  {
    if frames != [] {
      FrameRead(frames[0], []);
    }
  }

  lemma QuietCarriesNothing(p: Pipe, queue: seq<Frame>, r: nat, w: nat)
    requires Carries(p, queue, r, w) && Quiet(p)
    ensures queue == []
  {
    NoBytesNoFrames(p.sent[r..w]);
  }

  /** With nothing under way, both sides have the same streams, and of those that live no byte was lost. */
  lemma NothingLostWhenQuiet(events: seq<Event>)
    requires Quiet(Run(events).up) && Quiet(Run(events).down)
    ensures var l := Run(events).link;
      && l.server.streamTunnel.Keys == l.client.streams == l.client.streamTunnel.Keys
      && forall x | x in l.server.streams ::
           && Accumulated(l.toLocal, x) == Accumulated(l.fromPlayer, x)
           && Accumulated(l.toPlayer, x) == Accumulated(l.fromLocal, x)
  {
    hide StreamLink.Run, Frames, PipeAt;
    var frames := Frames(events);
    RunRefines(events);
    var w, l := Run(events), StreamLink.Run(frames);
    var r, m :| Carries(w.up, l.up, r, m);
    QuietCarriesNothing(w.up, l.up, r, m);
    var r', m' :| Carries(w.down, l.down, r', m');
    QuietCarriesNothing(w.down, l.down, r', m');
    StreamLink.SameStreamsWhenQuiet(frames);
    forall x | x in l.server.streams
      ensures Accumulated(l.toLocal, x) == Accumulated(l.fromPlayer, x)
      ensures Accumulated(l.toPlayer, x) == Accumulated(l.fromLocal, x)
    {
      StreamLink.NothingLostWhileAlive(frames, x);
    }
  }

  /** How each stream came about, taken from the players' arrivals alone. */
  function OriginsOf(events: seq<Event>): StreamOrigins.Origins {
    StreamOrigins.OriginsOf(Frames(events))
  }

  lemma AnnouncedUnderWay(q: seq<Frame>, origin: StreamOrigins.Origins, f: Frame)
    requires StreamOrigins.AnnouncedAs(q, origin) && f in Normals(q) && f.Control? && f.msg.NewConnection?
    ensures f.msg.streamId in origin
    ensures f == NormalFrame(StreamOrigins.Announcement(origin[f.msg.streamId], f.msg.streamId))
  {
    var i :| 0 <= i < |q| && Normals(q)[i] == f;
    assert q[i] in q;
  }

  /**
   * In every run, over the bytes: a stream is recorded on both sides under the tunnel its player was accepted on, and
   * its announcement names that tunnel, the protocol and the player's address, as far as the wire carries it.
   */
  lemma StreamsKeepTheirOrigin(events: seq<Event>, x: u64)
    ensures var w, origin := Run(events), OriginsOf(events);
      && (x in w.link.server.streamTunnel ==> x in origin && w.link.server.streamTunnel[x] == origin[x].tid)
      && (x in w.link.server.streams ==> x in origin && !origin[x].isUdp)
      && (x in w.link.server.udpPeers ==>
            x in origin && origin[x].isUdp && w.link.server.udpPeers[x].addr == origin[x].addr)
      && (x in w.link.client.streamTunnel ==> x in origin && w.link.client.streamTunnel[x] == origin[x].tid)
      && (forall f | f in UnderWay(w.down) && f.Control? && f.msg.NewConnection? && f.msg.streamId == x ::
            x in origin && f.msg == Normal(NewConnection(origin[x].tid, x, origin[x].isUdp, Some(origin[x].addr))))
  {
    hide StreamLink.Run, Frames, PipeAt, UnderWay, Run, StreamOrigins.OriginsOf;
    var frames := Frames(events);
    RunRefines(events);
    var w, l, origin := Run(events), StreamLink.Run(frames), OriginsOf(events);
    var r, m :| Carries(w.down, l.down, r, m);
    UnderWayIsUnread(w.down, r, m);
    StreamOrigins.StreamsKeepTheirOrigin(frames, x);
    StreamOrigins.OriginsAlwaysFit(frames);
    forall f | f in UnderWay(w.down) && f.Control? && f.msg.NewConnection? && f.msg.streamId == x
      ensures x in origin && f == NormalFrame(StreamOrigins.Announcement(origin[x], x))
    {
      AnnouncedUnderWay(l.down, origin, f);
    }
  }
}
