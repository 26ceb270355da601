/** A `sync_tunnels` pass is made of steps of the tunnel protocol, so what holds of every run holds across passes. */
module SyncRuns {
  import opened Base
  import opened Client
  import opened Reconcile
  import Text
  import TunnelNet
  import TunnelSettings
  import Wire

  type Steps = seq<TunnelNet.Event>

  /** Taking `steps` after `before` brings the client to `c` without any server taking part. */
  ghost predicate Reaches(before: Steps, steps: Steps, c: Client) {
    var n := TunnelNet.Run(before + steps);
    n.client == c && n.servers == TunnelNet.Run(before).servers
  }

  /** The steps open no tunnels but for rows of the list. */
  predicate OpensOnly(steps: Steps, list: seq<DbTunnel>) {
    forall e | e in steps && e.SyncOpen? :: e.row in list
  }

  lemma NoSteps(before: Steps)
    ensures Reaches(before, [], TunnelNet.Run(before).client)
  {
    assert before + [] == before;
  }

  lemma OneStep(before: Steps, e: TunnelNet.Event)
    ensures TunnelNet.Run(before + [e]) == TunnelNet.Step(TunnelNet.Run(before), e)
  {
    assert (before + [e])[..|before|] == before;
  }

  lemma Then(before: Steps, first: Steps, second: Steps, c1: Client, c2: Client)
    requires Reaches(before, first, c1) && Reaches(before + first, second, c2)
    ensures Reaches(before, first + second, c2)
  {
    assert (before + first) + second == before + (first + second);
  }

  lemma {:induction false} CloseAllSteps(before: Steps, order: seq<u32>) returns (steps: Steps)
    ensures Reaches(before, steps, CloseAll(TunnelNet.Run(before).client, order)) && OpensOnly(steps, [])
  {
    hide TunnelNet.Run, Close;
    if order == [] {
      steps := [];
      NoSteps(before);
    } else {
      var c := TunnelNet.Run(before).client;
      var first := CloseAllSteps(before, order[..|order| - 1]);
      var e := TunnelNet.SyncClose(order[|order| - 1], false);
      OneStep(before + first, e);
      Then(before, first, [e], CloseAll(c, order[..|order| - 1]), CloseAll(c, order));
      steps := first + [e];
    }
  }

  lemma ReopenSteps(before: Steps, u: Update) returns (steps: Steps)
    requires var c := TunnelNet.Run(before).client;
      && c.nextTid < MAX_TUNNEL_IDS
      && (u.row.id in c.tables.tunnels ==> c.tables.tunnels[u.row.id].serverId == u.oldSid)
    ensures Reaches(before, steps, Reopen(TunnelNet.Run(before).client, u)) && OpensOnly(steps, [u.row])
  {
    hide TunnelNet.Run, Open, Enqueue;
    var c := TunnelNet.Run(before).client;
    if u.row.id !in c.tables.tunnels || c.tables.tunnels[u.row.id].tunnelId == 0 {
      steps := [];
      NoSteps(before);
    } else {
      var close := TunnelNet.SyncClose(u.row.id, true);
      var closed := Close(c, u.row.id, true);
      OneStep(before, close);
      var open := if u.newSid in closed.links then TunnelNet.SyncOpen(u.row, u.newSid) else TunnelNet.SpendId;
      OneStep(before + [close], open);
      Then(before, [close], [open], closed, Reopen(c, u));
      steps := [close] + [open];
    }
  }

  lemma {:induction false} ReopenAllSteps(before: Steps, updates: seq<Update>, list: seq<DbTunnel>)
    returns (steps: Steps)
    requires var c := TunnelNet.Run(before).client;
      && Coherent(c.tables, c.nextTid) && 0 < c.nextTid && c.nextTid + |updates| <= MAX_TUNNEL_IDS
      && DistinctUpdates(updates)
      && (forall u | u in updates :: u.row.id in c.tables.tunnels && c.tables.tunnels[u.row.id].serverId == u.oldSid)
      && forall u | u in updates :: u.row in list
    ensures Reaches(before, steps, ReopenAll(TunnelNet.Run(before).client, updates)) && OpensOnly(steps, list)
  {
    hide TunnelNet.Run, Reopen, Coherent;
    if updates == [] {
      steps := [];
      NoSteps(before);
    } else {
      var c, n := TunnelNet.Run(before).client, |updates| - 1;
      var u := updates[n];
      var first := ReopenAllSteps(before, updates[..n], list);
      ReopenAllCoherent(c, updates[..n]);
      CoherentNonzero(c.tables, c.nextTid);
      ReopenAllEffect(c, updates[..n]);
      assert SameRow(c.tables, ReopenAll(c, updates[..n]).tables, u.row.id) by {
        assert forall x | x in updates[..n] :: x.row.id != u.row.id;
      }
      var last := ReopenSteps(before + first, u);
      Then(before, first, last, ReopenAll(c, updates[..n]), ReopenAll(c, updates));
      steps := first + last;
    }
  }

  lemma AddSteps(before: Steps, d: DbTunnel, entries: seq<u32>, counts: map<u32, nat>) returns (steps: Steps)
    requires var c := TunnelNet.Run(before).client;
      c.nextTid < MAX_TUNNEL_IDS && d.id !in c.tables.tunnels
    ensures Reaches(before, steps, Add(TunnelNet.Run(before).client, d, entries, counts)) && OpensOnly(steps, [d])
  {
    hide TunnelNet.Run, Open, Target;
    var c, sid := TunnelNet.Run(before).client, Target(d, entries, counts);
    if sid in c.links {
      var open := TunnelNet.SyncOpen(d, sid);
      OneStep(before, open);
      steps := [open];
    } else {
      steps := [];
      NoSteps(before);
    }
  }

  lemma {:induction false} AddAllSteps(before: Steps, rows: seq<DbTunnel>, entries: seq<u32>, counts: map<u32, nat>)
    returns (steps: Steps)
    requires var c := TunnelNet.Run(before).client;
      && Coherent(c.tables, c.nextTid) && 0 < c.nextTid && c.nextTid + |rows| <= MAX_TUNNEL_IDS
      && DistinctRows(rows) && forall d | d in rows :: d.id !in c.tables.tunnels
    ensures Reaches(before, steps, AddAll(TunnelNet.Run(before).client, rows, entries, counts))
    ensures OpensOnly(steps, rows)
  {
    hide TunnelNet.Run, Add, Coherent, Target;
    if rows == [] {
      steps := [];
      NoSteps(before);
    } else {
      var c, n := TunnelNet.Run(before).client, |rows| - 1;
      var d := rows[n];
      var first := AddAllSteps(before, rows[..n], entries, counts);
      AddAllCoherent(c, rows[..n], entries, counts);
      AddAllEffect(c, rows[..n], entries, counts);
      assert SameRow(c.tables, AddAll(c, rows[..n], entries, counts).tables, d.id) by {
        assert forall x | x in rows[..n] :: x.id != d.id;
      }
      var last := AddSteps(before + first, d, entries, counts);
      Then(before, first, last, AddAll(c, rows[..n], entries, counts), AddAll(c, rows, entries, counts));
      steps := first + last;
    }
  }

  /**
   * From every reachable state, a pass over a list of distinct rows does what a sequence of protocol steps does, as
   * long as the id counter does not wrap. So tunnel agreement also holds right after it, whatever is under way.
   */
  lemma {:induction false} SyncIsARun(before: Steps, list: seq<DbTunnel>, entries: seq<u32>, order: seq<u32>)
    returns (steps: Steps)
    requires var c := TunnelNet.Run(before).client;
      && DistinctRows(list) && Enumerates(order, ToRemove(c.tables, list)) && c.nextTid + |list| <= MAX_TUNNEL_IDS
    ensures OpensOnly(steps, list)
    ensures var n, n' := TunnelNet.Run(before), TunnelNet.Run(before + steps);
      && n'.client == SyncPass(n.client, list, entries, order) && n'.servers == n.servers
      && forall s | s in n.servers ::
           s in n'.client.links &&
           TunnelNet.Replay(n.servers[s].tables.tunnels.Keys, n'.client.links[s]) ==
             TidsOn(n'.client.tables, s) - TunnelNet.Refused(n.servers[s].down)
  {
    hide TunnelNet.Run, CloseAll, ReopenAll, AddAll, Counts, Coherent, TunnelNet.Replay, TidsOn;
    var c := TunnelNet.Run(before).client;
    TunnelNet.ClientAlwaysCoherent(before);
    TunnelNet.InvariantHolds(before);
    var updates, rows := ToUpdate(c.tables, list, entries), ToAdd(c.tables, list);
    ToUpdateDistinct(c.tables, list, entries);
    ToAddDistinct(c.tables, list);
    var closed, reopened := CloseAll(c, order), BeforeAdding(c, list, entries, order);
    PassInStages(c, list, entries, order);

    var s1 := CloseAllSteps(before, order);
    var s2 := ReopenAllSteps(before + s1, updates, list);
    Then(before, s1, s2, closed, reopened);
    var s3 := AddAllSteps(before + (s1 + s2), rows, entries, Counts(reopened.tables));
    Then(before, s1 + s2, s3, reopened, SyncPass(c, list, entries, order));
    steps := (s1 + s2) + s3;
    forall s | s in TunnelNet.Run(before).servers
      ensures var n' := TunnelNet.Run(before + steps);
        s in n'.client.links && TunnelNet.Replay(n'.servers[s].tables.tunnels.Keys, n'.client.links[s]) ==
          TidsOn(n'.client.tables, s) - TunnelNet.Refused(n'.servers[s].down)
    {
      TunnelNet.TunnelAgreement(before + steps, s);
    }
  }

  /** Whatever is opened in further steps is opened for a row of the list. */
  lemma {:induction false} OpenedFromList(before: Steps, steps: Steps, list: seq<DbTunnel>)
    requires OpensOnly(steps, list)
    ensures var rows, rows' := TunnelSettings.OpenedFor(before), TunnelSettings.OpenedFor(before + steps);
      forall tid | tid in rows' && tid !in rows :: rows'[tid] in list
  {
    if steps == [] {
      assert before + steps == before;
    } else {
      var n, e := |steps| - 1, steps[|steps| - 1];
      assert e in steps && forall x | x in steps[..n] :: x in steps;
      OpenedFromList(before, steps[..n], list);
      assert (before + steps)[..|before + steps| - 1] == before + steps[..n];
    }
  }

  /** The client has the row, and asks its server for it exactly once, with the row's own port, protocol and id. */
  ghost predicate AskedFor(c: Client, d: DbTunnel) {
    && d.id in c.tables.tunnels
    && var a, tid := c.tables.tunnels[d.id], c.tables.tunnels[d.id].tunnelId;
       && a.serverId in c.links && TunnelNet.Requests(c.links[a.serverId], tid) == 1
       && (forall f | f in c.links[a.serverId] && TunnelNet.IsOpen(f) && f.msg.tunnelId == tid ::
             f.msg == Wire.OpenTunnel(tid, d.remotePort,
                                      if d.protocol == "udp" then Wire.Udp
                                      else if d.protocol == "both" then Wire.Both else Wire.Tcp,
                                      d.id))
       && tid in c.tables.protocols && c.tables.protocols[tid] == d.protocol
       && tid in c.tables.localAddrs && c.tables.localAddrs[tid] == d.serverIp + ":" + Text.Decimal(d.serverPort)
  }

  /**
   * From every reachable state, a pass asks the server for each row that it opens exactly once, and with the row's own
   * port, protocol and id; and the client records the row's local address and protocol under the tunnel's id.
   */
  lemma PassAsksForRows(before: Steps, list: seq<DbTunnel>, entries: seq<u32>, order: seq<u32>,
                        d: DbTunnel)
    requires var c := TunnelNet.Run(before).client;
      && DistinctRows(list) && Enumerates(order, ToRemove(c.tables, list)) && c.nextTid + |list| <= MAX_TUNNEL_IDS
    ensures var c, c' := TunnelNet.Run(before).client, SyncPass(TunnelNet.Run(before).client, list, entries, order);
      d in list && d.id in c'.tables.tunnels && c.nextTid <= c'.tables.tunnels[d.id].tunnelId ==> AskedFor(c', d)
  {
    hide TunnelNet.Run, SyncPass, TunnelSettings.OpenedFor, TunnelNet.Requests;
    var steps := SyncIsARun(before, list, entries, order);
    var n, n' := TunnelNet.Run(before), TunnelNet.Run(before + steps);
    if d in list && d.id in n'.client.tables.tunnels && n.client.nextTid <= n'.client.tables.tunnels[d.id].tunnelId {
      var tid := n'.client.tables.tunnels[d.id].tunnelId;
      TunnelSettings.ClientRecordsRow(before + steps, d.id);
      FreshIdIsUnknown(before, tid);
      OpenedFromList(before, steps, list);
      OnlyRow(list, TunnelSettings.OpenedFor(before + steps)[tid], d);
      TunnelSettings.RowIsAskedForOnce(before + steps, d.id);
    }
  }

  /** An id not given out yet was opened for no row, and no server has it or refused it. */
  lemma FreshIdIsUnknown(before: Steps, tid: u32)
    requires TunnelNet.Run(before).client.nextTid <= tid
    ensures tid !in TunnelSettings.OpenedFor(before)
    ensures var n := TunnelNet.Run(before);
      forall s | s in n.servers :: tid !in n.servers[s].tables.tunnels && tid !in TunnelNet.Refused(n.servers[s].down)
  {
    TunnelSettings.AlwaysFits(before);
    TunnelNet.InvariantHolds(before);
    var n := TunnelNet.Run(before);
    hide TunnelNet.Run, TunnelSettings.OpenedFor;
    forall s | s in n.servers
      ensures tid !in n.servers[s].tables.tunnels && tid !in TunnelNet.Refused(n.servers[s].down)
    {
      assert TunnelNet.LinkInNet(n, s);
    }
  }
}
