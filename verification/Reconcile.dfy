/** What one `sync_tunnels` pass achieves, and when: the exact outcome, convergence, the fixpoint, coherence. */
module Reconcile {
  import opened Base
  import opened LeastLoaded
  import opened Client
  import Text

  // ---------------------------------------------------------------- the outcome of a pass

  /** Row `d` is active on server `sid` with the settings of the row. */
  ghost predicate Holds(t: Tables, d: DbTunnel, sid: u32) {
    && d.id in t.tunnels
    && t.tunnels[d.id].serverId == sid
    && t.tunnels[d.id].dbId == d.id
    && t.tunnels[d.id].remotePort == d.remotePort
    && t.tunnels[d.id].localAddress == d.serverIp + ":" + Text.Decimal(d.serverPort)
    && t.tunnels[d.id].proxyProtocol == d.proxyProtocol
  }

  /** The row with this id is as it was. */
  ghost predicate SameRow(t: Tables, t': Tables, id: u32) {
    (id in t.tunnels <==> id in t'.tunnels) && (id in t.tunnels ==> t'.tunnels[id] == t.tunnels[id])
  }

  ghost predicate DistinctRows(list: seq<DbTunnel>) {
    forall i, j :: 0 <= i < j < |list| ==> list[i].id != list[j].id
  }

  ghost predicate DistinctUpdates(updates: seq<Update>) {
    forall i, j :: 0 <= i < j < |updates| ==> updates[i].row.id != updates[j].row.id
  }

  ghost predicate IdsNonzero(t: Tables) {
    forall db | db in t.tunnels :: t.tunnels[db].tunnelId != 0
  }

  lemma {:induction false} CloseAllEffect(c: Client, order: seq<u32>)
    requires IdsNonzero(c.tables)
    ensures var c' := CloseAll(c, order);
      && c'.links.Keys == c.links.Keys && c'.nextTid == c.nextTid
      && c'.tables.tunnels == c.tables.tunnels - (set db | db in order)
  {
    if order != [] {
      var n := |order| - 1;
      CloseAllEffect(c, order[..n]);
      assert order == order[..n] + [order[n]];
      assert (set db | db in order) == (set db | db in order[..n]) + {order[n]};
    }
  }

  lemma ReopenEffect(c: Client, u: Update)
    requires u.row.id in c.tables.tunnels && c.tables.tunnels[u.row.id].tunnelId != 0
    ensures var c' := Reopen(c, u);
      && c'.links.Keys == c.links.Keys
      && c'.nextTid == c.nextTid + 1
      && (if u.newSid in c.links then Holds(c'.tables, u.row, u.newSid) else u.row.id !in c'.tables.tunnels)
      && (forall id :: id != u.row.id ==> SameRow(c.tables, c'.tables, id))
  {
  }

  lemma {:induction false} ReopenAllEffect(c: Client, updates: seq<Update>)
    requires DistinctUpdates(updates) && IdsNonzero(c.tables)
    requires forall u | u in updates :: u.row.id in c.tables.tunnels
    ensures var c' := ReopenAll(c, updates);
      && c'.links.Keys == c.links.Keys
      && (forall u | u in updates ::
            if u.newSid in c.links then Holds(c'.tables, u.row, u.newSid) else u.row.id !in c'.tables.tunnels)
      && (forall id :: (forall u | u in updates :: u.row.id != id) ==> SameRow(c.tables, c'.tables, id))
  {
    hide Reopen;
    if updates != [] {
      var n := |updates| - 1;
      var before, u := ReopenAll(c, updates[..n]), updates[n];
      assert forall x | x in updates[..n] :: x in updates && x.row.id != u.row.id;
      ReopenAllEffect(c, updates[..n]);
      assert SameRow(c.tables, before.tables, u.row.id);
      ReopenEffect(before, u);
      var after := Reopen(before, u);
      forall x | x in updates
        ensures if x.newSid in c.links then Holds(after.tables, x.row, x.newSid) else x.row.id !in after.tables.tunnels
      {
        if x in updates[..n] {
          assert SameRow(before.tables, after.tables, x.row.id);
        } else {
          assert x == u;
        }
      }
      forall id | forall x | x in updates :: x.row.id != id
        ensures SameRow(c.tables, after.tables, id)
      {
        assert u in updates && SameRow(before.tables, after.tables, id);
        assert SameRow(c.tables, before.tables, id);
      }
    }
  }

  lemma AddEffect(c: Client, d: DbTunnel, entries: seq<u32>, counts: map<u32, nat>)
    ensures var c', sid := Add(c, d, entries, counts), Target(d, entries, counts);
      && c'.links.Keys == c.links.Keys
      && c'.nextTid <= c.nextTid + 1
      && (if sid in c.links then Holds(c'.tables, d, sid) else c' == c)
      && (forall id :: id != d.id ==> SameRow(c.tables, c'.tables, id))
  {
    hide Target;
  }

  lemma {:induction false} AddAllEffect(c: Client, rows: seq<DbTunnel>, entries: seq<u32>, counts: map<u32, nat>)
    requires DistinctRows(rows)
    ensures var c' := AddAll(c, rows, entries, counts);
      && c'.links.Keys == c.links.Keys
      && (forall d | d in rows ::
            if Target(d, entries, counts) in c.links then Holds(c'.tables, d, Target(d, entries, counts))
            else SameRow(c.tables, c'.tables, d.id))
      && (forall id :: (forall d | d in rows :: d.id != id) ==> SameRow(c.tables, c'.tables, id))
  {
    hide Add, Target;
    if rows != [] {
      var n := |rows| - 1;
      var before, d := AddAll(c, rows[..n], entries, counts), rows[n];
      assert forall x | x in rows[..n] :: x in rows && x.id != d.id;
      AddAllEffect(c, rows[..n], entries, counts);
      assert SameRow(c.tables, before.tables, d.id);
      AddEffect(before, d, entries, counts);
      var after := Add(before, d, entries, counts);
      forall x | x in rows
        ensures if Target(x, entries, counts) in c.links then Holds(after.tables, x, Target(x, entries, counts))
          else SameRow(c.tables, after.tables, x.id)
      {
        if x in rows[..n] {
          assert SameRow(before.tables, after.tables, x.id);
        } else {
          assert x == d;
        }
      }
      forall id | forall x | x in rows :: x.id != id
        ensures SameRow(c.tables, after.tables, id)
      {
        assert d in rows && SameRow(before.tables, after.tables, id);
        assert SameRow(c.tables, before.tables, id);
      }
    }
  }

  lemma DistinctRowsNext(rows: seq<DbTunnel>, d: DbTunnel)
    requires DistinctRows(rows) && forall x | x in rows :: x.id != d.id
    ensures DistinctRows(rows + [d])
  {
  }

  lemma {:induction false} ToAddDistinct(t: Tables, list: seq<DbTunnel>)
    requires DistinctRows(list)
    ensures DistinctRows(ToAdd(t, list)) && |ToAdd(t, list)| <= |list|
  {
    if list != [] {
      var n := |list| - 1;
      ToAddDistinct(t, list[..n]);
      assert forall i | 0 <= i < n :: list[i].id != list[n].id;
      assert forall d | d in ToAdd(t, list[..n]) :: d in list[..n] && d.id != list[n].id;
      hide DistinctRows;
      DistinctRowsNext(ToAdd(t, list[..n]), list[n]);
      assert ToAdd(t, list[..n]) + [] == ToAdd(t, list[..n]);
    }
  }

  lemma {:induction false} ToUpdateDistinct(t: Tables, list: seq<DbTunnel>, entries: seq<u32>)
    requires DistinctRows(list)
    ensures DistinctUpdates(ToUpdate(t, list, entries))
    ensures |ToAdd(t, list)| + |ToUpdate(t, list, entries)| <= |list|
  {
    if list != [] {
      var n := |list| - 1;
      ToUpdateDistinct(t, list[..n], entries);
      hide NeedsUpdate, Desired;
      assert forall u | u in ToUpdate(t, list[..n], entries) :: u.row in list[..n] && u.row.id != list[n].id;
    }
  }

  // ---------------------------------------------------------------- the loads when the additions begin

  /**
   * The server a listed, active row is on when the additions begin: its own, unless the row names another configured
   * server or its proxy flag changed; none if the server it then goes to is not connected.
   */
  function ServerAfter(c: Client, d: DbTunnel, entries: seq<u32>): Option<u32>
    requires d.id in c.tables.tunnels
  {
    var a := c.tables.tunnels[d.id];
    var wanted := match d.serverId case Some(named) => named case None => a.serverId;
    if wanted !in entries || (wanted == a.serverId && d.proxyProtocol == a.proxyProtocol) then Some(a.serverId)
    else if wanted in c.links then Some(wanted)
    else None
  }

  /** The listed, active rows that will be on a server. */
  function StayingOn(c: Client, list: seq<DbTunnel>, entries: seq<u32>, sid: u32): set<u32> {
    set d | d in list && d.id in c.tables.tunnels && ServerAfter(c, d, entries) == Some(sid) :: d.id
  }

  /** How many tunnels each server has when the additions begin, in terms of the tables before the pass. */
  function Loads(c: Client, list: seq<DbTunnel>, entries: seq<u32>): map<u32, nat> {
    map sid | sid in (set d | d in list && d.id in c.tables.tunnels && ServerAfter(c, d, entries).Some? ::
                        ServerAfter(c, d, entries).value) ::
      |StayingOn(c, list, entries, sid)|
  }

  ghost predicate Staying(c: Client, t: Tables, d: DbTunnel, entries: seq<u32>) {
    && (d.id in t.tunnels <==> d.id in c.tables.tunnels && ServerAfter(c, d, entries).Some?)
    && (d.id in t.tunnels ==> ServerAfter(c, d, entries) == Some(t.tunnels[d.id].serverId))
  }

  lemma RemovedAndReopened(c: Client, list: seq<DbTunnel>, entries: seq<u32>, order: seq<u32>)
    requires IdsNonzero(c.tables) && DistinctRows(list)
    requires Enumerates(order, ToRemove(c.tables, list))
    ensures var closed, reopened := CloseAll(c, order), BeforeAdding(c, list, entries, order);
      && closed.tables.tunnels == c.tables.tunnels - ToRemove(c.tables, list)
      && closed.links.Keys == reopened.links.Keys == c.links.Keys
      && (forall u | u in ToUpdate(c.tables, list, entries) ::
            if u.newSid in closed.links then Holds(reopened.tables, u.row, u.newSid)
            else u.row.id !in reopened.tables.tunnels)
      && (forall id :: (forall u | u in ToUpdate(c.tables, list, entries) :: u.row.id != id) ==>
            SameRow(closed.tables, reopened.tables, id))
      && (forall id | id !in Ids(list) :: id !in reopened.tables.tunnels)
  {
    hide CloseAll, ReopenAll;
    var closed, updates := CloseAll(c, order), ToUpdate(c.tables, list, entries);
    CloseAllEffect(c, order);
    assert closed.tables.tunnels == c.tables.tunnels - ToRemove(c.tables, list);
    ToUpdateDistinct(c.tables, list, entries);
    forall u | u in updates
      ensures u.row.id in closed.tables.tunnels && u.row.id in Ids(list)
    {
      assert u.row in list;
    }
    ReopenAllEffect(closed, updates);
    forall id | id !in Ids(list)
      ensures id !in ReopenAll(closed, updates).tables.tunnels
    {
      assert SameRow(closed.tables, ReopenAll(closed, updates).tables, id);
    }
  }

  lemma RowStays(c: Client, list: seq<DbTunnel>, entries: seq<u32>, order: seq<u32>, d: DbTunnel)
    requires IdsNonzero(c.tables) && DistinctRows(list) && d in list
    requires Enumerates(order, ToRemove(c.tables, list))
    ensures Staying(c, BeforeAdding(c, list, entries, order).tables, d, entries)
  {
    hide BeforeAdding, CloseAll;
    RemovedAndReopened(c, list, entries, order);
    var updates := ToUpdate(c.tables, list, entries);
    assert d.id in Ids(list);
    if d.id in c.tables.tunnels && NeedsUpdate(c.tables, d, entries) {
      var current := c.tables.tunnels[d.id].serverId;
      assert Update(d, current, Desired(d, current)) in updates;
    } else {
      forall u | u in updates
        ensures u.row.id != d.id
      {
        assert u.row in list && NeedsUpdate(c.tables, u.row, entries);
        OnlyRow(list, u.row, d);
      }
      assert SameRow(CloseAll(c, order).tables, BeforeAdding(c, list, entries, order).tables, d.id);
    }
  }

  /** The counts that the additions use can be told before the pass, and do not depend on the order of the removals. */
  lemma LoadsAreKnown(c: Client, list: seq<DbTunnel>, entries: seq<u32>, order: seq<u32>)
    requires IdsNonzero(c.tables) && DistinctRows(list)
    requires Enumerates(order, ToRemove(c.tables, list))
    ensures Counts(BeforeAdding(c, list, entries, order).tables) == Loads(c, list, entries)
  {
    hide BeforeAdding, ServerAfter, NeedsUpdate;
    var t := BeforeAdding(c, list, entries, order).tables;
    RemovedAndReopened(c, list, entries, order);
    forall d | d in list
      ensures Staying(c, t, d, entries)
    {
      RowStays(c, list, entries, order, d);
    }
    forall sid
      ensures TunnelsOn(t, sid) == StayingOn(c, list, entries, sid)
      ensures sid in Counts(t) <==> sid in Loads(c, list, entries)
    {
      SameServers(c, list, entries, t, sid);
    }
  }

  lemma SameServers(c: Client, list: seq<DbTunnel>, entries: seq<u32>, t: Tables, sid: u32)
    requires forall d | d in list :: Staying(c, t, d, entries)
    requires forall id | id !in Ids(list) :: id !in t.tunnels
    ensures TunnelsOn(t, sid) == StayingOn(c, list, entries, sid)
    ensures sid in Counts(t) <==> sid in Loads(c, list, entries)
  {
    hide ServerAfter;
    forall id
      ensures id in TunnelsOn(t, sid) <==> id in StayingOn(c, list, entries, sid)
    {
      if id in TunnelsOn(t, sid) {
        assert id in Ids(list);
        var d :| d in list && d.id == id;
        assert Staying(c, t, d, entries);
      }
      if id in StayingOn(c, list, entries, sid) {
        var d :| d in list && d.id == id && d.id in c.tables.tunnels && ServerAfter(c, d, entries) == Some(sid);
        assert Staying(c, t, d, entries);
      }
    }
    CountedWhenUsed(t, sid);
    LoadedWhenUsed(c, list, entries, sid);
  }

  lemma CountedWhenUsed(t: Tables, sid: u32)
    ensures sid in Counts(t) <==> TunnelsOn(t, sid) != {}
  {
    if sid in Counts(t) {
      var db :| db in t.tunnels && t.tunnels[db].serverId == sid;
      assert db in TunnelsOn(t, sid);
    }
  }

  lemma LoadedWhenUsed(c: Client, list: seq<DbTunnel>, entries: seq<u32>, sid: u32)
    ensures sid in Loads(c, list, entries) <==> StayingOn(c, list, entries, sid) != {}
  {
    hide ServerAfter;
    if sid in Loads(c, list, entries) {
      var d :| d in list && d.id in c.tables.tunnels && ServerAfter(c, d, entries) == Some(sid);
      assert d.id in StayingOn(c, list, entries, sid);
    }
  }

  // ---------------------------------------------------------------- the outcome of a whole pass

  /** The server for a new row: the named one if configured, else the first least loaded one, else server 1. */
  ghost predicate Picked(d: DbTunnel, entries: seq<u32>, counts: map<u32, nat>, sid: u32) {
    if d.serverId.Some? && d.serverId.value in entries then sid == d.serverId.value
    else if entries == [] then sid == 1
    else exists i ::
      && 0 <= i < |entries| && sid == entries[i]
      && (forall j | 0 <= j < |entries| :: Load(counts, entries[i]) <= Load(counts, entries[j]))
      && (forall j | 0 <= j < i :: Load(counts, entries[i]) < Load(counts, entries[j]))
  }

  /** The rule picks one server, and the pass goes by it. */
  lemma PickedExactly(d: DbTunnel, entries: seq<u32>, counts: map<u32, nat>, sid: u32)
    ensures Picked(d, entries, counts, sid) <==> sid == Target(d, entries, counts)
  {
  }

  /**
   * An update sends the CloseTunnel for the old tunnel to the old server before the OpenTunnel goes to the new one,
   * which may be the same, and asks for the row's port, protocol and id under the next id.
   */
  lemma ReopenSends(c: Client, u: Update)
    requires u.row.id in c.tables.tunnels && c.tables.tunnels[u.row.id].tunnelId != 0
    requires u.oldSid in c.links && u.newSid in c.links && c.nextTid < MAX_TUNNEL_IDS
    ensures var d, gone := u.row, c.tables.tunnels[u.row.id].tunnelId;
      var close := Wire.Control(Wire.CloseTunnel(gone));
      var open := Wire.Control(Wire.OpenTunnel(c.nextTid, d.remotePort,
        if d.protocol == "udp" then Wire.Udp else if d.protocol == "both" then Wire.Both else Wire.Tcp, d.id));
      Reopen(c, u).links ==
        if u.oldSid == u.newSid then c.links[u.oldSid := c.links[u.oldSid] + [close, open]]
        else c.links[u.oldSid := c.links[u.oldSid] + [close]][u.newSid := c.links[u.newSid] + [open]]
  {
    hide Forget, Record;
    var close := Wire.Control(Wire.CloseTunnel(c.tables.tunnels[u.row.id].tunnelId));
    var open := Wire.Control(Wire.OpenTunnel(c.nextTid, u.row.remotePort, ProtocolOf(u.row.protocol), u.row.id));
    assert (c.links[u.oldSid] + [close]) + [open] == c.links[u.oldSid] + [close, open];
  }

  /** Where one row of the list ends up. */
  ghost predicate RowOutcome(c: Client, c': Client, d: DbTunnel, entries: seq<u32>, counts: map<u32, nat>) {
    if d.id !in c.tables.tunnels then
      exists sid ::
        && Picked(d, entries, counts, sid)
        && if sid in c.links then Holds(c'.tables, d, sid) else d.id !in c'.tables.tunnels
    else
      var a := c.tables.tunnels[d.id];
      var wanted := match d.serverId case Some(named) => named case None => a.serverId;
      if wanted !in entries || (wanted == a.serverId && d.proxyProtocol == a.proxyProtocol) then
        d.id in c'.tables.tunnels && c'.tables.tunnels[d.id] == a
      else if wanted in c.links then Holds(c'.tables, d, wanted)
      else d.id !in c'.tables.tunnels
  }

  /**
   * The outcome of a pass in every situation, connected or not: rows the manager does not list are gone, and
   * each listed row is kept, reopened, opened or lost as `RowOutcome` says.
   */
  lemma SyncOutcome(c: Client, list: seq<DbTunnel>, entries: seq<u32>, order: seq<u32>)
    requires IdsNonzero(c.tables) && DistinctRows(list)
    requires Enumerates(order, ToRemove(c.tables, list))
    ensures var c' := SyncPass(c, list, entries, order);
      && c'.links.Keys == c.links.Keys
      && (forall id | id in c'.tables.tunnels :: id in Ids(list))
      && (forall d | d in list :: RowOutcome(c, c', d, entries, Loads(c, list, entries)))
  {
    hide CloseAll, BeforeAdding, AddAll, Target, Counts, Loads, ToAdd, ToUpdate;
    LoadsAreKnown(c, list, entries, order);
    var closed, reopened := CloseAll(c, order), BeforeAdding(c, list, entries, order);
    var rows, counts := ToAdd(c.tables, list), Loads(c, list, entries);
    RemovedAndReopened(c, list, entries, order);
    ToAddDistinct(c.tables, list);
    AddAllEffect(reopened, rows, entries, counts);
    var c' := AddAll(reopened, rows, entries, counts);
    forall d | d in list
      ensures RowOutcome(c, c', d, entries, counts)
    {
      RowByRow(c, closed, reopened, c', list, d, entries, counts);
    }
    forall id | id !in Ids(list)
      ensures id !in c'.tables.tunnels
    {
      assert forall d | d in rows :: d.id in Ids(list);
      assert SameRow(reopened.tables, c'.tables, id);
    }
  }

  lemma RowByRow(c: Client, closed: Client, reopened: Client, c': Client, list: seq<DbTunnel>,
                 d: DbTunnel, entries: seq<u32>, counts: map<u32, nat>)
    requires DistinctRows(list) && d in list
    requires closed.tables.tunnels == c.tables.tunnels - ToRemove(c.tables, list)
    requires closed.links.Keys == reopened.links.Keys == c.links.Keys
    requires forall u | u in ToUpdate(c.tables, list, entries) ::
      if u.newSid in closed.links then Holds(reopened.tables, u.row, u.newSid) else u.row.id !in reopened.tables.tunnels
    requires forall id :: (forall u | u in ToUpdate(c.tables, list, entries) :: u.row.id != id) ==>
      SameRow(closed.tables, reopened.tables, id)
    requires forall x | x in ToAdd(c.tables, list) ::
      if Target(x, entries, counts) in reopened.links then Holds(c'.tables, x, Target(x, entries, counts))
      else SameRow(reopened.tables, c'.tables, x.id)
    requires forall id :: (forall x | x in ToAdd(c.tables, list) :: x.id != id) ==>
      SameRow(reopened.tables, c'.tables, id)
    ensures RowOutcome(c, c', d, entries, counts)
  {
    hide Target;
    assert d.id in Ids(list);
    var updates := ToUpdate(c.tables, list, entries);
    if d.id in c.tables.tunnels {
      assert forall x | x in ToAdd(c.tables, list) :: x.id != d.id;
      assert SameRow(reopened.tables, c'.tables, d.id);
      if NeedsUpdate(c.tables, d, entries) {
        var current := c.tables.tunnels[d.id].serverId;
        assert Update(d, current, Desired(d, current)) in updates;
      } else {
        forall u | u in updates
          ensures u.row.id != d.id
        {
          assert u.row in list && NeedsUpdate(c.tables, u.row, entries);
          OnlyRow(list, u.row, d);
        }
        assert SameRow(closed.tables, reopened.tables, d.id);
      }
    } else {
      assert d in ToAdd(c.tables, list);
      PickedExactly(d, entries, counts, Target(d, entries, counts));
      assert forall u | u in updates :: u.row.id in c.tables.tunnels;
      assert SameRow(closed.tables, reopened.tables, d.id);
    }
  }

  lemma OnlyRow(list: seq<DbTunnel>, a: DbTunnel, b: DbTunnel)
    requires DistinctRows(list) && a in list && b in list
    ensures a.id == b.id ==> a == b
  {
    var i :| 0 <= i < |list| && list[i] == a;
    var j :| 0 <= j < |list| && list[j] == b;
    assert i < j ==> list[i].id != list[j].id;
    assert j < i ==> list[j].id != list[i].id;
  }

  // ---------------------------------------------------------------- convergence

  /** An active tunnel is what the row asks for. */
  predicate Matches(d: DbTunnel, a: ActiveTunnel) {
    (d.serverId.Some? ==> a.serverId == d.serverId.value) && a.proxyProtocol == d.proxyProtocol
  }

  /** The tables agree with the manager's list. */
  ghost predicate Settled(t: Tables, list: seq<DbTunnel>) {
    t.tunnels.Keys == Ids(list) && forall d | d in list :: Matches(d, t.tunnels[d.id])
  }

  /** What can be checked of one row before the pass: it matches already, or its server can be reached. */
  predicate CanSettle(c: Client, list: seq<DbTunnel>, d: DbTunnel, entries: seq<u32>) {
    if d.id !in c.tables.tunnels then
      var sid := Target(d, entries, Loads(c, list, entries));
      sid in c.links && (d.serverId.Some? ==> sid == d.serverId.value)
    else
      var a := c.tables.tunnels[d.id];
      if NeedsUpdate(c.tables, d, entries) then Desired(d, a.serverId) in c.links else Matches(d, a)
  }

  /** One pass brings the tables to the manager's list exactly when every row can be settled. */
  lemma {:induction false} ConvergesExactly(c: Client, list: seq<DbTunnel>, entries: seq<u32>, order: seq<u32>)
    requires IdsNonzero(c.tables) && DistinctRows(list)
    requires Enumerates(order, ToRemove(c.tables, list))
    ensures Settled(SyncPass(c, list, entries, order).tables, list) <==>
      forall d | d in list :: CanSettle(c, list, d, entries)
  {
    hide SyncPass, Target, Loads;
    SyncOutcome(c, list, entries, order);
    var c' := SyncPass(c, list, entries, order);
    forall d | d in list
      ensures d.id in c'.tables.tunnels && Matches(d, c'.tables.tunnels[d.id]) <==> CanSettle(c, list, d, entries)
    {
      assert RowOutcome(c, c', d, entries, Loads(c, list, entries));
      if d.id !in c.tables.tunnels {
        var sid :| Picked(d, entries, Loads(c, list, entries), sid)
          && if sid in c.links then Holds(c'.tables, d, sid) else d.id !in c'.tables.tunnels;
        PickedExactly(d, entries, Loads(c, list, entries), sid);
      }
    }
    assert forall d | d in list :: d.id in Ids(list);
    if forall d | d in list :: CanSettle(c, list, d, entries) {
      assert c'.tables.tunnels.Keys == Ids(list);
    }
  }

  /** With every configured server connected and every server in use configured, one pass settles the list. */
  lemma Converges(c: Client, list: seq<DbTunnel>, entries: seq<u32>, order: seq<u32>)
    requires IdsNonzero(c.tables) && DistinctRows(list)
    requires Enumerates(order, ToRemove(c.tables, list))
    requires entries != [] && forall sid | sid in entries :: sid in c.links
    requires forall d | d in list && d.serverId.Some? :: d.serverId.value in entries
    requires forall db | db in c.tables.tunnels :: c.tables.tunnels[db].serverId in entries
    ensures Settled(SyncPass(c, list, entries, order).tables, list)
  {
    hide SyncPass, Loads;
    ConvergesExactly(c, list, entries, order);
  }

  lemma {:induction false} NothingToAdd(t: Tables, list: seq<DbTunnel>)
    requires forall d | d in list :: d.id in t.tunnels
    ensures ToAdd(t, list) == []
  {
    if list != [] {
      assert list[|list| - 1] in list;
      NothingToAdd(t, list[..|list| - 1]);
    }
  }

  lemma {:induction false} NothingToUpdate(t: Tables, list: seq<DbTunnel>, entries: seq<u32>)
    requires forall d | d in list :: d.id in t.tunnels && Matches(d, t.tunnels[d.id])
    ensures ToUpdate(t, list, entries) == []
  {
    if list != [] {
      assert list[|list| - 1] in list;
      NothingToUpdate(t, list[..|list| - 1], entries);
    }
  }

  /** Once settled, the same list leads to empty differences, so a second pass changes nothing and sends nothing. */
  lemma SettledIsFixpoint(c: Client, list: seq<DbTunnel>, entries: seq<u32>)
    requires Settled(c.tables, list)
    ensures ToAdd(c.tables, list) == [] && ToRemove(c.tables, list) == {} && ToUpdate(c.tables, list, entries) == []
    ensures SyncPass(c, list, entries, []) == c
  {
    assert forall d | d in list :: d.id in Ids(list);
    NothingToAdd(c.tables, list);
    NothingToUpdate(c.tables, list, entries);
  }

  // ---------------------------------------------------------------- coherence

  lemma CoherentNonzero(t: Tables, nextTid: nat)
    requires Coherent(t, nextTid)
    ensures IdsNonzero(t)
  {
  }

  lemma CloseCoherent(c: Client, dbId: u32, reopen: bool)
    requires Coherent(c.tables, c.nextTid)
    ensures Coherent(Close(c, dbId, reopen).tables, c.nextTid) && Close(c, dbId, reopen).nextTid == c.nextTid
  {
    if dbId in c.tables.tunnels {
      ForgetCoherent(c.tables, dbId, reopen, c.nextTid);
    }
  }

  lemma {:induction false} OpenCoherent(c: Client, d: DbTunnel, sid: u32)
    requires Coherent(c.tables, c.nextTid) && 0 < c.nextTid < MAX_TUNNEL_IDS
    requires sid in c.links && d.id !in c.tables.tunnels
    ensures Coherent(Open(c, d, sid).tables, c.nextTid + 1)
  {
    hide Coherent, Record;
    RecordCoherent(c.tables, d, c.nextTid, sid);
  }

  lemma ReopenCoherent(c: Client, u: Update)
    requires Coherent(c.tables, c.nextTid) && 0 < c.nextTid < MAX_TUNNEL_IDS
    ensures var c' := Reopen(c, u); Coherent(c'.tables, c'.nextTid) && c.nextTid <= c'.nextTid <= c.nextTid + 1
  {
    hide Coherent;
    if u.row.id in c.tables.tunnels && c.tables.tunnels[u.row.id].tunnelId != 0 {
      var tid := c.tables.tunnels[u.row.id].tunnelId;
      ForgetCoherent(c.tables, u.row.id, true, c.nextTid);
      var links := Enqueue(c.links, u.oldSid, Wire.Control(Wire.CloseTunnel(tid)));
      var closed := Client(Forget(c.tables, u.row.id, true), links, c.nextTid);
      if u.newSid in closed.links {
        OpenCoherent(closed, u.row, u.newSid);
      } else {
        CoherentLater(closed.tables, c.nextTid, c.nextTid + 1);
      }
    }
  }

  lemma {:induction false} CloseAllCoherent(c: Client, order: seq<u32>)
    requires Coherent(c.tables, c.nextTid)
    ensures Coherent(CloseAll(c, order).tables, c.nextTid) && CloseAll(c, order).nextTid == c.nextTid
  {
    hide Coherent, Close;
    if order != [] {
      CloseAllCoherent(c, order[..|order| - 1]);
      CloseCoherent(CloseAll(c, order[..|order| - 1]), order[|order| - 1], false);
    }
  }

  lemma {:induction false} ReopenAllCoherent(c: Client, updates: seq<Update>)
    requires Coherent(c.tables, c.nextTid) && 0 < c.nextTid && c.nextTid + |updates| <= MAX_TUNNEL_IDS
    ensures var c' := ReopenAll(c, updates);
      Coherent(c'.tables, c'.nextTid) && c.nextTid <= c'.nextTid <= c.nextTid + |updates|
  {
    hide Coherent, Reopen;
    if updates != [] {
      ReopenAllCoherent(c, updates[..|updates| - 1]);
      ReopenCoherent(ReopenAll(c, updates[..|updates| - 1]), updates[|updates| - 1]);
    }
  }

  lemma {:induction false} AddAllCoherent(c: Client, rows: seq<DbTunnel>, entries: seq<u32>, counts: map<u32, nat>)
    requires Coherent(c.tables, c.nextTid) && 0 < c.nextTid && c.nextTid + |rows| <= MAX_TUNNEL_IDS
    requires DistinctRows(rows) && forall d | d in rows :: d.id !in c.tables.tunnels
    ensures var c' := AddAll(c, rows, entries, counts);
      Coherent(c'.tables, c'.nextTid) && c.nextTid <= c'.nextTid <= c.nextTid + |rows|
  {
    hide Coherent, Add;
    if rows != [] {
      var n := |rows| - 1;
      var before, d := AddAll(c, rows[..n], entries, counts), rows[n];
      LastIsOther(rows);
      AddAllCoherent(c, rows[..n], entries, counts);
      AddAllEffect(c, rows[..n], entries, counts);
      assert SameRow(c.tables, before.tables, d.id);
      assert d in rows && d.id !in before.tables.tunnels;
      hide DistinctRows, SameRow, Holds, Target;
      AddCoherent(before, d, entries, counts);
    }
  }

  lemma LastIsOther(rows: seq<DbTunnel>)
    requires DistinctRows(rows) && rows != []
    ensures var n := |rows| - 1;
      DistinctRows(rows[..n]) && forall x | x in rows[..n] :: x in rows && x.id != rows[n].id
  {
  }

  lemma {:induction false} AddCoherent(c: Client, d: DbTunnel, entries: seq<u32>, counts: map<u32, nat>)
    requires Coherent(c.tables, c.nextTid) && 0 < c.nextTid < MAX_TUNNEL_IDS && d.id !in c.tables.tunnels
    ensures var c' := Add(c, d, entries, counts);
      Coherent(c'.tables, c'.nextTid) && c.nextTid <= c'.nextTid <= c.nextTid + 1
  {
    hide Coherent, Target;
    var sid := Target(d, entries, counts);
    if sid in c.links {
      OpenCoherent(c, d, sid);
    }
  }

  /** The rows to reopen are still where they were after the removals, and the rows to add are still absent. */
  lemma PassInStages(c: Client, list: seq<DbTunnel>, entries: seq<u32>, order: seq<u32>)
    requires Coherent(c.tables, c.nextTid) && 0 < c.nextTid && c.nextTid + |list| <= MAX_TUNNEL_IDS
    requires DistinctRows(list) && Enumerates(order, ToRemove(c.tables, list))
    ensures var closed, reopened := CloseAll(c, order), BeforeAdding(c, list, entries, order);
      && Coherent(closed.tables, closed.nextTid) && closed.nextTid == c.nextTid
      && (forall u | u in ToUpdate(c.tables, list, entries) ::
            u.row.id in closed.tables.tunnels && closed.tables.tunnels[u.row.id].serverId == u.oldSid)
      && Coherent(reopened.tables, reopened.nextTid)
      && c.nextTid <= reopened.nextTid <= c.nextTid + |ToUpdate(c.tables, list, entries)|
      && (forall d | d in ToAdd(c.tables, list) :: d.id !in reopened.tables.tunnels)
  {
    hide CloseAll, ReopenAll, Coherent;
    var closed, updates := CloseAll(c, order), ToUpdate(c.tables, list, entries);
    CoherentNonzero(c.tables, c.nextTid);
    CloseAllCoherent(c, order);
    CloseAllEffect(c, order);
    assert closed.tables.tunnels == c.tables.tunnels - ToRemove(c.tables, list);
    CoherentNonzero(closed.tables, closed.nextTid);
    ToUpdateDistinct(c.tables, list, entries);
    forall u | u in updates
      ensures u.row.id in closed.tables.tunnels && closed.tables.tunnels[u.row.id].serverId == u.oldSid
    {
      assert u.row in list && u.row.id in Ids(list);
    }
    ReopenAllCoherent(closed, updates);
    ReopenAllEffect(closed, updates);
    var reopened := ReopenAll(closed, updates);
    forall d | d in ToAdd(c.tables, list)
      ensures d.id !in reopened.tables.tunnels
    {
      assert forall u | u in updates :: u.row.id in c.tables.tunnels;
      assert SameRow(closed.tables, reopened.tables, d.id);
    }
  }

  /** A whole pass keeps the tables coherent, as long as the id counter does not wrap. */
  lemma SyncCoherent(c: Client, list: seq<DbTunnel>, entries: seq<u32>, order: seq<u32>)
    requires Coherent(c.tables, c.nextTid) && 0 < c.nextTid && c.nextTid + |list| <= MAX_TUNNEL_IDS
    requires DistinctRows(list) && Enumerates(order, ToRemove(c.tables, list))
    ensures var c' := SyncPass(c, list, entries, order); Coherent(c'.tables, c'.nextTid)
  {
    hide BeforeAdding, AddAll, Counts, Coherent;
    PassInStages(c, list, entries, order);
    ToUpdateDistinct(c.tables, list, entries);
    ToAddDistinct(c.tables, list);
    var reopened := BeforeAdding(c, list, entries, order);
    AddAllCoherent(reopened, ToAdd(c.tables, list), entries, Counts(reopened.tables));
  }
}
