# game-tunnel: a verified model

game-tunnel carries player connections over one TLS link between a client, which sits next to the game servers, and
a public server; a manager hands tunnels out to clients and a web front end edits them. This project models the parts
of it that are hard to get right and proves what they promise, over every input and every run.

| file | models |
|---|---|
| `Wire.dfy`, `Batching.dfy` | the message and frame codec of `shared/src/protocol.rs`, the batching writer tasks, and the byte pipe between them |
| `Server.dfy` | one server's tables for one client: OpenTunnel, CloseTunnel, frames, accepted players, disconnect |
| `Client.dfy`, `Reconcile.dfy` | the client's tables, `sync_tunnels` as a three-way difference, frames, disconnect; outcome, convergence and fixpoint of a pass |
| `TunnelNet.dfy`, `TunnelSettings.dfy`, `SyncRuns.dfy` | one client and any number of servers as a transition system: tunnel agreement, down to ports and protocols; a pass is made of its steps |
| `StreamLink.dfy`, `StreamOrigins.dfy`, `WireLink.dfy` | player streams over one link as a transition system, first over queues of frames, then over the bytes of two connections: stream agreement, bytes in order, every stream under the tunnel its player arrived on |
| `UdpSessions.dfy` | the UDP listener's session table: eviction, expiry, counters, replies |
| `PreAuth.dfy` | the one-shot, expiring pre-auth cache against an event log; the handshake, and what the codec does to it |
| `Assignment.dfy` | the manager's greedy assignment and its optimality |
| `WebApi.dfy` | the UPDATE statement built by the web front end, what a database makes of it, and the lowest free id |
| `ProxyHeader.dfy`, `Text.dfy` | the PROXY protocol version 1 header; splitting, joining, decimals |
| `Rates.dfy` | per-second rates of the client and of the server |
| `Base.dfy` | options, results, fixed-width integers |

## How the model is built

Objects that the source updates in place are classes whose methods are proved against functions on plain table
values; the protocol proofs are about these functions. Loops over hash tables take the elements in an order the
proofs leave open. A run is a sequence of events, and an event that is not possible in the current state changes
nothing, so a statement about every sequence of events is a statement about every reachable state.

Assumptions, and the size of a step:

- Queueing a message and recording or removing its table entry is one step. `sync_tunnels` calls do not overlap.
- While a server is connected, sends to it succeed; a writer that died is a lost connection (`Lost`).
- The 32-bit tunnel counter and the 64-bit stream counter do not wrap. An event that would need a further id is not possible.
- Time does not run backwards in the pre-auth log. The UDP listener is proved for any clock.
- Text is a byte sequence that is well-formed UTF-8 in the sense of section 4 of RFC 3629.
- Bind outcomes, whether a stream's task still takes bytes, which frames are already queued when a writer polls, and
  how bytes are cut up in transit are open choices, made anew at every step.
- The stream model lets the client send any OpenTunnel, CloseTunnel or Ping at any time and lets players connect on
  any tunnel id, so it covers every schedule of the tunnel protocol.

## What is not true as one might expect it

- Decoding does not invert encoding for every message: an empty UUID reads back as none, a UUID of 65536 bytes or
  more reads back shorter (its length is cut to 16 bits), and an IPv6 peer loses flow label and scope.
  `Wire.RoundTripExactly` and `Wire.FrameRoundTripExactly` say exactly when the round trip holds. Nothing that was
  ever decoded is affected (`Wire.AcceptedIsFaithful`).
- The handshake acts on what is lost from an Auth message. A client that sends an empty UUID is treated as one that
  sends none, so the pre-auth cache is not asked (`PreAuth.EmptyUuidIsNotChecked`). The server decides on what it
  reads as it would on what was sent, for every secret, cache and time, if and only if the message is faithful and
  fits a frame (`PreAuth.VerdictSurvivesCodec`, `PreAuth.VerdictSurvivesWire`). The frame loops, which begin after
  authentication, do not act on what is lost (`StreamLink.FrameLoopsIgnoreWireLoss`).
- A `sync_tunnels` pass settles the manager's list exactly when every row can be settled: it matches already, or the
  server it needs is connected (`Reconcile.ConvergesExactly`). A row whose new server is not connected loses its
  tunnel, and spends an id, rather than staying where it was.
- The UDP session timeout does not reach every silent session: one that was reopened after the client closed the one
  before has no recorded time, so it stays, whatever happens, until its address sends again
  (`UdpSessions.UnrecordedSessionStays`; `UdpSessions.ReopenedSessionNeverExpires` is the shortest run). Every other
  session is given up by some tick (`UdpSessions.RecordedSessionCanExpire`), and `UdpSessions.GivenUpExactly` says by
  which: times are compared in whole seconds, so after 301 seconds of silence, not after 300.5.
- `(1u32..)` in `create_tunnel` is commented as infinite; when every id is taken its counter wraps to 0 in a release
  build (and panics in a debug build). `WebApi.LowestFreeId` returns 0 in exactly that case.

## Model

| member | source | states |
|---|---|---|
| Wire.DecodeEncode | shared/src/protocol.rs:97-287 | every message whose UUID length fits 16 bits decodes to its normal form |
| Wire.MessageLayout | shared/src/protocol.rs:97-168 | every message byte by byte: its type number, its fields in order with the most significant byte first, the optional address |
| Wire.FrameLayout | shared/src/protocol.rs:340-398 | every frame byte by byte: length or close marker, stream id, payload |
| Wire.OversizedUuidIsLost | shared/src/protocol.rs:99-109 | a UUID of 65536 bytes or more never reads back |
| Wire.RoundTripExactly | shared/src/protocol.rs:97-287 | decoding inverts encoding if and only if the message is faithful (nonempty UUID below 65536 bytes, IPv6 peer without flow label and scope) |
| Wire.AcceptedIsFaithful | shared/src/protocol.rs:171-287 | any accepted bytes, re-encoded and decoded again, give the same message, in no more bytes than a frame allows |
| Wire.LegacyOpenTunnel | shared/src/protocol.rs:207-231 | cutting OpenTunnel in its trailing database id loses that id and nothing else |
| Wire.LegacyNewConnection | shared/src/protocol.rs:246-282 | cutting NewConnection after its 13-byte base loses the address and nothing else |
| Wire.ParseFrame | shared/src/protocol.rs:299-332 | an accepted frame consumes at least its header, so repeated reading ends |
| Wire.FrameReader.ReadFrame | shared/src/protocol.rs:299-332 | the reader returns what the parser says and leaves exactly the unread rest; on an error nothing further is promised |
| Wire.ParseEncoded | shared/src/protocol.rs:299-398 | one encoded frame followed by anything reads back as that frame and leaves exactly what follows |
| Wire.OversizedFrameIsLost | shared/src/protocol.rs:314-316 | a payload over the limit never reads back |
| Wire.FrameRoundTripExactly | shared/src/protocol.rs:299-398 | writing then reading a frame gives it back if and only if it is faithful, within the size limit and not data on stream 0 |
| Wire.ReadThenResend | shared/src/protocol.rs:299-398 | a frame taken off any byte stream reads back the same when sent on |
| Wire.CutFrame | shared/src/protocol.rs:300-324 | an encoded frame cut before its end yields only an error |
| Batching.CutAnywhere | shared/src/protocol.rs:299-398 | output cut at any byte yields exactly the complete frames before the cut and then an error |
| Batching.ReadBack | shared/src/protocol.rs:299-398 | repeated reads of concatenated encodings return exactly the frames |
| Batching.WriterTask | server/src/main.rs:550-573 | whatever the batches of at most 64, the output is a prefix of the encodings in queue order, all of it unless a write failed, and everything taken is flushed at each blocking receive |
| Batching.WrittenIsReadBack | client/src/main.rs:344-365 | whatever a writer managed to write, the reader gets the complete frames of it and no others |
| Batching.PipeInvariant | shared/src/protocol.rs:299-398 | in every run, frames read, frames under way as bytes and frames queued are consecutive parts of what was queued |
| Batching.UnderWayIsUnread | shared/src/protocol.rs:299-398 | the frames in the bytes under way and in the queue are the frames sent and not yet read |
| Batching.LinkIsFifo | server/src/main.rs:550-587 | codec, writer and reader together are a lossless first-in first-out queue at every moment of every run |
| Server.ServerState.BindWithRetry | server/src/main.rs:661-683 | a port is bound exactly when one of ten attempts succeeds and every earlier one found the address in use |
| Server.ServerState.OnOpenTunnel | server/src/main.rs:641-910 | the sequential handler has the outcome that the next rows describe, under every pattern of bind failures and retries |
| Server.OpenIsAllOrNothing | server/src/main.rs:641-910 | either the tunnel is recorded with every requested listener running and TunnelOpened sent, or nothing is recorded, no further listener keeps running and one CloseTunnel is sent (none for a duplicate id) |
| Server.OpenWrittenOut | server/src/main.rs:641-910 | the same with the allowed ports as numbers and, for each protocol, the port that must bind and the listeners that then run |
| Server.OpenKeepsListeners | server/src/main.rs:641-910 | opening keeps the running listeners exactly those of the recorded tunnels |
| Server.ServerState.CloseTunnelStreams | server/src/main.rs:911-918 | the tunnel and all its streams go, with one StreamClose each, in the order of the table |
| Server.CloseTunnelIsExact | server/src/main.rs:911-918 | CloseTunnel removes exactly that tunnel's streams from every table and sends exactly one StreamClose for each |
| Server.OnlyPingIsAnswered | server/src/main.rs:929-930 | a heartbeat is answered if there is room; other messages change nothing and get no answer |
| Server.CloseKeepsListeners | server/src/main.rs:911-918 | closing stops exactly that tunnel's listeners |
| Server.ServerState.ForwardData | server/src/main.rs:592-611 | data goes to the player's channel or the UDP peer; a dead channel closes the stream on both sides |
| Server.ServerState.HandleFrame | server/src/main.rs:588-626 | one turn of the frame loop does what the protocol proofs take a received frame to do |
| Server.FrameKeepsListeners | server/src/main.rs:588-626 | every frame, with every outcome, keeps listeners and tunnels matched |
| Server.ServerState.PlayerStreamEnded | server/src/main.rs:998-1001 | an ended player task closes its stream and leaves the tables |
| Server.ServerState.Shutdown | server/src/main.rs:630 | losing the connection signals every tunnel and drops the TCP streams |
| Server.DisconnectStopsListeners | server/src/main.rs:630 | after a disconnect no listener is left running and no tunnel and TCP stream is left; the other two stream tables keep their entries |
| Client.ToAdd | client/src/main.rs:699-727 | the rows to add are exactly the listed rows that are not active |
| Client.ToUpdate | client/src/main.rs:706-717 | the rows to update are exactly those whose known server or proxy flag differs, each with its old and new server |
| Client.ClientState.Diff | client/src/main.rs:699-727 | the loop computes the three differences |
| Client.ClientState.CloseAllRemoved | client/src/main.rs:729-762 | every removed row is closed on its server and forgotten, in the order of the table |
| Client.ClientState.ReopenAllUpdated | client/src/main.rs:764-817 | every updated row is closed on its old server and opened on the new one under the next id, if that is connected |
| Reconcile.ReopenSends | client/src/main.rs:769-800 | an update queues CloseTunnel for the old id and then OpenTunnel with the row's port, protocol and id, in this order also on one server |
| Client.ClientState.CountTunnels | client/src/main.rs:819-824 | the counts are the numbers of active tunnels per server |
| Client.ClientState.AddAllRows | client/src/main.rs:826-874 | every new row is opened on its named or the least loaded server, if that is connected |
| Client.ClientState.SyncTunnels | client/src/main.rs:697-875 | a whole pass is removals, then updates, then additions |
| Client.ClientState.TunnelRefused | client/src/main.rs:1129-1137 | a CloseTunnel from the server takes the tunnel with that id out of three tables |
| Client.ClientState.HandleFrame | client/src/main.rs:960-1140 | one frame from a server does what the protocol proofs take a received frame to do, and a NewConnection starts the task described next |
| Client.ClientState.StartStream | client/src/main.rs:1015-1127 | an announced stream is recorded under its tunnel and its task started with the recorded or default address and, if asked for, the header |
| Client.TaskReachesTunnel | client/src/main.rs:1016-1023 | a player of an active tunnel is connected to the recorded address by its own protocol, with a header exactly for TCP and a set proxy flag |
| Client.TaskWithoutTunnel | client/src/main.rs:1018-1021 | a player of an unknown tunnel is connected to 127.0.0.1:25565 without a header |
| Client.ClientState.LocalStreamEnded | client/src/main.rs:1197-1207 | an ended local task closes its stream and leaves the tables |
| Client.ClientState.ServerLost | client/src/main.rs:412-457 | the disconnect cleanup, row by row, has the stated overall effect |
| Client.DisconnectIsExact | client/src/main.rs:416-457 | disconnect removes exactly that server's tunnels and exactly the streams of those tunnels, and keeps the tables coherent |
| Client.RefusalIsExact | client/src/main.rs:1129-1137 | a server CloseTunnel takes out exactly the tunnel with that id, its address and its server, and no stream |
| Client.CloseTunnelCoherent | client/src/main.rs:1129-1137 | a server CloseTunnel keeps the tables coherent |
| Client.RecordCoherent | client/src/main.rs:861-872 | recording an opened tunnel under a fresh id keeps the tables coherent |
| Reconcile.SyncOutcome | client/src/main.rs:697-875 | where every listed and unlisted row ends up after one pass, with the rules for keeping, moving and placing a row written out, whichever servers are connected |
| Reconcile.PickedExactly | client/src/main.rs:827-838 | a new row goes to its named server if configured, else to the first of the least loaded ones, else to server 1 |
| Reconcile.LoadsAreKnown | client/src/main.rs:819-824 | the counts used by the additions are a function of the tables and the list before the pass, whatever the order of the removals |
| Reconcile.ConvergesExactly | client/src/main.rs:697-875 | one pass reaches the manager's list if and only if every row matches already or its server can be reached, which can be told before the pass |
| Reconcile.Converges | client/src/main.rs:697-875 | with every configured server connected and every named or used server configured, one pass reaches the list |
| Reconcile.SettledIsFixpoint | client/src/main.rs:699-727 | once settled, the same list gives empty add, remove and update sets, and a pass changes and sends nothing |
| Reconcile.SyncCoherent | client/src/main.rs:743-815 | a whole pass keeps the client's tables coherent |
| TunnelNet.InvariantHolds | client/src/main.rs:729-874 | in every reachable state, each connection satisfies the agreement invariant and the client's tables are coherent |
| TunnelNet.TunnelAgreement | server/src/main.rs:641-647 | for each connected server, replaying the pending client messages on the server's tunnels gives exactly the client's tunnels there less those whose refusal is under way |
| TunnelNet.AgreeWhenQuiet | server/src/main.rs:908-928 | with both queues empty, both sides have the same tunnels and the server listens for exactly these |
| TunnelNet.ClientAlwaysCoherent | client/src/main.rs:416-457 | in every reachable state the client's tables are coherent and each tunnel is on a connected server |
| TunnelSettings.ClientRecordsRow | client/src/main.rs:804-815 | in every run, the client's tables hold the port, protocol, proxy flag and "ip:port" text of the row the tunnel was opened for |
| TunnelSettings.PlayersReachTheirRow | client/src/main.rs:1016-1023 | in every run, the players of a tunnel are connected to the "ip:port" of the row it was opened for |
| TunnelSettings.ServerRecordsRow | server/src/main.rs:908 | in every run, what a server records under the id of a client's row is that row's port, protocol and database id |
| TunnelSettings.RowIsAskedForOnce | client/src/main.rs:790-799 | in every reachable state, a row not refused is recorded by its server or asked for by exactly one OpenTunnel under way, which carries its port, protocol and id |
| TunnelSettings.RowsAgreeWhenQuiet | server/src/main.rs:653-908 | with nothing under way, each row is recorded by its server with its port, protocol and id, and exactly the listeners of that protocol run |
| TunnelNet.LinkServerReceives | server/src/main.rs:588-626 | whatever the server makes of its next frame, refusals included, agreement is kept |
| TunnelNet.LinkClientReceives | client/src/main.rs:1129-1137 | handling a refusal keeps agreement |
| SyncRuns.SyncIsARun | client/src/main.rs:697-875 | from every reachable state a pass is a sequence of protocol steps without any server taking part, and tunnel agreement holds after it |
| SyncRuns.PassAsksForRows | client/src/main.rs:785-872 | from every reachable state, a pass asks once for each row it opens, with the row's port, protocol and id, and records the row's address and protocol |
| StreamLink.InvariantHolds | server/src/main.rs:592-625 | every stream satisfies the two-sided invariant, in every interleaving of player close, local close, CloseTunnel, UDP expiry and frame receipt |
| StreamLink.AnnouncedExactlyOnce | server/src/main.rs:695-711 | each stream's NewConnection is queued once, and is either under way or handled |
| StreamOrigins.StreamsKeepTheirOrigin | server/src/main.rs:708-711 | in every run, a stream is recorded on both sides under the tunnel its player was accepted on, and its announcement names that tunnel, the protocol and the player's address |
| StreamOrigins.CloseEndsItsPlayers | server/src/main.rs:911-918 | in every run, handling a CloseTunnel ends exactly the streams accepted on that tunnel, with one StreamClose each |
| StreamLink.ServerTablesFit | server/src/main.rs:861-864 | TCP and UDP streams are disjoint and together are the keys of the stream-to-tunnel table; ids are above the control stream and below the counter |
| StreamLink.StepServerReceives | server/src/main.rs:588-626 | whatever frame the server handles, the invariant of every stream is kept |
| StreamLink.StepClientReceives | client/src/main.rs:1015-1127 | whatever frame the client handles, the invariant of every stream is kept |
| StreamLink.QueuesFitTheWire | shared/src/protocol.rs:299-398 | everything either side queues in any run can be carried by the wire format |
| StreamLink.FrameLoopsIgnoreWireLoss | server/src/main.rs:588-626 | in the frame loops, which begin after authentication, neither side acts on the parts of a message that the wire loses |
| WireLink.RunRefines | shared/src/protocol.rs:299-398 | every run in which both sides are joined by encoded bytes is a run over queues of frames |
| WireLink.BytesArriveInOrder | server/src/main.rs:948-960 | in every run and both directions, through codec, writer and reader, the bytes handed to the receiving side's channel are a prefix of the bytes read from the sending socket |
| WireLink.StreamAgreement | server/src/main.rs:998-1003 | a stream is in the server's tables with no client StreamClose among the frames under way exactly when replaying the frames under way, as bytes or queued, leaves it in the client's |
| WireLink.StreamsKeepTheirOrigin | server/src/main.rs:708-711 | the same over the bytes, with the player's address as far as the wire carries it |
| WireLink.NothingLostWhenQuiet | client/src/main.rs:964-996 | with nothing queued and no byte under way, both sides have the same streams, and all bytes read for a live TCP stream were handed on |
| UdpSessions.UdpListener.HearAndEvict | server/src/main.rs:803-830 | the address is noted as heard, and a mapping whose stream the client closed is dropped with its counters |
| UdpSessions.UdpListener.Receive | server/src/main.rs:803-873 | one packet updates the four maps and the shared tables and queues its frames as specified |
| UdpSessions.PacketIsForwarded | server/src/main.rs:832-872 | every packet is handed on as one Data frame with its payload on its address's stream, after the announcement if that stream is new |
| UdpSessions.PacketsArriveInOrder | server/src/main.rs:868-872 | over every run, the payloads handed on for a stream are those of the packets sent on it, in order |
| UdpSessions.CountersCountPackets | server/src/main.rs:868-871 | over every run, an inbound counter is the number of bytes in the packets sent on its stream |
| UdpSessions.ReplyIsDelivered | server/src/main.rs:600-609 | in every reachable state, what the client returns on a live stream leaves as one datagram to the address that opened it, and is counted |
| UdpSessions.UdpListener.Cleanup | server/src/main.rs:876-896 | a cleanup tick gives up the stale sessions one by one, in some order |
| UdpSessions.InvariantHolds | server/src/main.rs:793-905 | mappings, counters, shared peers and opening addresses fit together in every run of packets, ticks, shutdown, client frames and other listeners |
| UdpSessions.OneStreamPerAddress | server/src/main.rs:832-864 | the map from address to stream is injective, and an address has at most one live stream per listener |
| UdpSessions.CountersMatch | server/src/main.rs:868-873 | both counter maps have exactly the mapped streams as keys, and each inbound counter is the total payload handed to the queue for its stream |
| UdpSessions.RepliesGoHome | server/src/main.rs:600-609 | whatever the client returns on a stream leaves for the address whose packet opened it |
| UdpSessions.ExpiresExactly | server/src/main.rs:876-895 | a tick gives up exactly the stale sessions, whatever the order; streams and times of the others stay |
| UdpSessions.HeardIsRecorded | server/src/main.rs:803-830 | the recorded time is that of the address's last packet, and there is none if that packet reopened a closed session |
| UdpSessions.GivenUpExactly | server/src/main.rs:876-896 | over every run, a tick gives up a session if and only if its address is on record as heard 301,000 milliseconds ago or more |
| UdpSessions.UnrecordedSessionStays | server/src/main.rs:820-896 | a mapped address with no recorded time keeps its session through every continuation without a packet of its own |
| UdpSessions.RecordedSessionCanExpire | server/src/main.rs:876-896 | a session with a recorded time is given up by some later tick of a running listener |
| UdpSessions.ReopenedSessionNeverExpires | server/src/main.rs:820-830 | a run that reopens a session the client closed, after which it stays through every continuation in which its address is silent |
| PreAuth.PreAuthCache.Authenticate | server/src/main.rs:489-519 | the verdict, and the entry used up by a valid secret whether it was still good or not |
| PreAuth.CompareSecrets | server/src/main.rs:475-479 | the comparison that collects differing bits without stopping is equality |
| PreAuth.PreAuthCache.GreetClient | server/src/main.rs:458-527 | the verdict on the first frame or read error, and what it uses up in the cache |
| PreAuth.GreetedExactly | server/src/main.rs:473-527 | a client is let in if and only if its first frame is an Auth with the server's secret and no UUID, or one announced less than 10,000 milliseconds ago |
| PreAuth.RefusedExactly | server/src/main.rs:461-527 | every other first frame, or failure to read one, is refused for its own reason |
| PreAuth.VerdictShowsMessage | server/src/main.rs:473-527 | no frame other than the Auth message itself gets its verdict for every secret, cache and time |
| PreAuth.VerdictSurvivesCodec | server/src/main.rs:473-527 | the verdict on the decoded message is the verdict on the message sent, for every secret, cache and time, if and only if the message is faithful |
| PreAuth.VerdictSurvivesWire | client/src/main.rs:118-121 | the same for the frame on the wire, whatever follows it, if and only if the message is faithful and fits a frame |
| PreAuth.EmptyUuidIsNotChecked | shared/src/protocol.rs:102-103 | with nothing announced, an Auth with an empty UUID would be refused as sent and is accepted as received |
| PreAuth.PreAuthCache.CleanUp | server/src/main.rs:292-304 | the periodic purge and the number of entries it removed |
| PreAuth.CacheFollowsLog | server/src/main.rs:292-304 | an entry is the latest event about its UUID, and a latest announcement is missing only when older than the grace period |
| PreAuth.AcceptedExactly | server/src/main.rs:489-515 | over every run, a valid secret with a UUID is accepted if and only if the latest event about that UUID is an announcement less than 10 seconds old |
| PreAuth.CleanupChangesNoDecision | server/src/main.rs:292-304 | any schedule of the cleanup task accepts the same clients as never running it |
| PreAuth.UsesAnAnnouncement | server/src/main.rs:497-501 | each accepted UUID matches an announcement less than 10 seconds old |
| PreAuth.AnnouncementIsUsedUp | server/src/main.rs:497-501 | a second accept of a UUID needs an announcement made after the first, so accepts match distinct announcements |
| LeastLoaded.FirstLeast | manager/src/main.rs:291-293 | the first client with the least load is chosen |
| Assignment.AssignTunnels | manager/src/main.rs:281-301 | the loop hands out the greedy choices and keeps the counts right, also when the database stops it |
| Assignment.TotalGrowsByCount | manager/src/main.rs:290-299 | total load grows by exactly the number of tunnels assigned |
| Assignment.ReceiversStayLow | manager/src/main.rs:290-299 | a client that received a tunnel ends at most one above every configured client |
| Assignment.GreedyIsOptimal | manager/src/main.rs:281-301 | no other way to hand out as many tunnels among the same clients has a smaller maximum load |
| WebApi.PushClauses | web/src/main.rs:302-314 | the clause vector has the clauses of exactly the supplied fields, in column order |
| WebApi.BindValues | web/src/main.rs:331-346 | the arguments are the values of exactly the supplied fields, in the same order, with sentinels turned into NULL |
| WebApi.UpdateTunnel | web/src/main.rs:301-348 | nothing is built when no field is supplied; otherwise the statement and its arguments, the row id last |
| WebApi.StatementParses | web/src/main.rs:329 | the assembled text, split at its commas, is the supplied assignments in order |
| WebApi.UpdatePreservesMeaning | web/src/main.rs:302-348 | executing the statement sets exactly the supplied columns of exactly the addressed row, with sentinels as NULL, and clears dns_set if and only if a DNS-affecting field is present |
| WebApi.LowestFreeId | web/src/main.rs:265-272 | the least positive id not taken, at most the number of taken ids plus one; 0 exactly when every id is taken |
| WebApi.Pigeonhole | web/src/main.rs:272 | a run of taken ids from 1 is no longer than the set of taken ids, which bounds the search |
| ProxyHeader.LocalAddressSplits | client/src/main.rs:908-919 | splitting the formatted "ip:port" at its last colon recovers the port and the bracket-stripped ip, for every ip string |
| ProxyHeader.StrippedExactly | client/src/main.rs:914-919 | exactly the opening brackets before and the closing brackets behind the ip are stripped |
| ProxyHeader.WithoutColon | client/src/main.rs:908-919 | without a colon the ip is 127.0.0.1 and the text is read as the port, else 25565 |
| ProxyHeader.LineReadsBack | client/src/main.rs:947-950 | a TCP4 line parses back to its two addresses and two ports |
| ProxyHeader.LineLength | client/src/main.rs:947-950 | a TCP4 line has at most 56 of the 107 characters allowed |
| ProxyHeader.BackendSeesPeer | client/src/main.rs:899-951 | for a plain or mapped IPv4 peer and an IPv4 local address, parsing the header per section 2.1 of the PROXY protocol specification returns the peer's address and port |
| ProxyHeader.MappedExactly | client/src/main.rs:930 | the mapped addresses are those of section 2.5.5.2 of RFC 4291, byte by byte |
| ProxyHeader.Tcp6Line | client/src/main.rs:934-945 | a genuine IPv6 peer gets a TCP6 line for its address, an IPv6 destination, its port and the local port |
| ProxyHeader.FieldsReadBack | client/src/main.rs:947-950 | a line splits at its blanks into PROXY, protocol, source, destination, source port and destination port |
| ProxyHeader.UnknownPeer | client/src/main.rs:903-905 | without an address the header is PROXY UNKNOWN |
| ProxyHeader.HeaderSurvivesWire | client/src/main.rs:1098-1099 | the header built from a received NewConnection is the one for the address the server accepted |
| TunnelRates.Stats.TickRates | client/src/stats.rs:126-136 | a tick publishes every tunnel's difference since the tick before, whatever the order |
| TunnelRates.TickIsOnePerTunnel | client/src/stats.rs:126-136 | a tick is one step per tunnel, in any order |
| TunnelRates.RatesConserveBytes | client/src/stats.rs:126-136 | over any interleaving of additions and ticks, the published values plus the unpublished remainder sum to the bytes that arrived |
| TunnelRates.OneEntryPerRow | client/src/stats.rs:104-106 | no database row is shown under two tunnel ids |
| TunnelRates.AddedExactly | client/src/stats.rs:104-118 | adding a tunnel starts it from zero, drops the other entries of its row and keeps those of all other rows |
| ConnectionRates.RateTask.Tick | server/src/main.rs:315-329 | a tick publishes every connection's difference, and afterwards `prev` has exactly the registry's keys |
| ConnectionRates.TickIsSamplesAndPurge | server/src/main.rs:315-329 | a tick is one sample per connection, in any order, and a purge |
| ConnectionRates.RatesTelescope | server/src/main.rs:317-326 | over any interleaving, the values published for a connection sum to its last sample minus its first |

## Left out

- TLS, sockets, keepalive and buffer options, HTTP routing and header checks, DNS, configuration, logging and the web page: input and output, or library wrappers.
- The database itself: the manager's queries are parameters, and `WebApi` interprets only the UPDATE statement.
- Streams over several servers: stream ids are unique per server process, but the client keys streams by id alone.
- Overlapping `sync_tunnels` calls: two of them can open the same row, so agreement and convergence are stated for serialised calls.
- Streams across a disconnect and reconnect of the same link: the stream model ends with the link.
- The connection registry, `active_connections` and `refresh_stats`: the registry only feeds displays, and the counter is not kept exact by the source.
- A player connecting before the tunnel is recorded: the stream model lets players connect on any tunnel id instead of tracking the listener, so nothing is claimed about the tunnel of a stream being recorded.
- Server.Disconnected: only `tunnels` and `streams` are cleared by the source, so the stream tables no longer fit together after a disconnect.
- Client.Coherent: the protocol and proxy tables include the active tunnels but may hold more, since the source does not clear them on every path.
- UdpSessions.Invariant: the addresses with a recorded time are among those with a session, not equal to them, for the reason given above.
- A UDP listener that stops on a receive error, and the effect of a full channel on UDP data towards the player: dropped packets are not sent, which the stream model covers as nothing having been read.
- The balance of several additions within one client pass: the source does not update its counts inside the loop.
- Changed ports or protocols of an active row: the source does not detect them.
- ProxyHeader.Header: the textual form of a genuine IPv6 address is a parameter, and an IPv4 peer with an IPv6 local address gets a mixed TCP4 line, which section 2.1 of the PROXY protocol specification does not allow.
- Wire.FrameReader.ReadFrame: what is consumed before an error is not stated, since every caller drops the connection then.
- Idle timeouts, back-off, heartbeats and the connection cap: timers that decide when an event happens, not what it does.
- Counters of bytes do not wrap at 64 bits.
