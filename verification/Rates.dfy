/** Bytes in both directions, added and subtracted component by component. */
module TrafficCounts {
  datatype Traffic = Traffic(inward: nat, outward: nat) {
    function Plus(t: Traffic): Traffic {
      Traffic(inward + t.inward, outward + t.outward)
    }

    /** The source subtracts with saturation at zero. */
    function SaturatingMinus(t: Traffic): Traffic {
      Traffic(if t.inward <= inward then inward - t.inward else 0,
              if t.outward <= outward then outward - t.outward else 0)
    }

    predicate AtMost(t: Traffic) {
      inward <= t.inward && outward <= t.outward
    }
  }

  const ZERO := Traffic(0, 0)

  lemma MinusRestores(a: Traffic, b: Traffic)
    requires a.AtMost(b)
    ensures a.Plus(b.SaturatingMinus(a)) == b
  {
  }

  lemma PlusAssociates(a: Traffic, b: Traffic, c: Traffic)
    ensures a.Plus(b).Plus(c) == a.Plus(b.Plus(c))
  {
  }

  lemma EqualCounts(a: Traffic)
    ensures a.AtMost(a) && a.SaturatingMinus(a) == ZERO && a.Plus(ZERO) == a && ZERO.Plus(a) == a
  {
  }

  lemma PlusGrows(a: Traffic, b: Traffic, n: Traffic)
    requires a.AtMost(b)
    ensures a.AtMost(b.Plus(n))
  {
  }
}

/** The client's per-second rates: client/src/stats.rs. */
module TunnelRates {
  import opened Base
  import opened TrafficCounts

  datatype TunnelStats = TunnelStats(dbId: u32, bytes: Traffic, perSec: Traffic, prev: Traffic)

  type Table = map<u32, TunnelStats>

  // ---------------------------------------------------------------- the operations

  function Added(t: Table, tid: u32, dbId: u32): Table {
    (map id | id in t && t[id].dbId != dbId :: t[id])[tid := TunnelStats(dbId, ZERO, ZERO, ZERO)]
  }

  function Counted(t: Table, tid: u32, n: Traffic): Table {
    if tid in t then t[tid := t[tid].(bytes := t[tid].bytes.Plus(n))] else t
  }

  function Published(s: TunnelStats): TunnelStats {
    s.(perSec := s.bytes.SaturatingMinus(s.prev), prev := s.bytes)
  }

  class Stats {
    var tunnels: Table

    constructor ()
      ensures tunnels == map[]
    {
      tunnels := map[];
    }

    method AddTunnel(tid: u32, dbId: u32)
      modifies this
      ensures tunnels == Added(old(tunnels), tid, dbId)
    {
      tunnels := map id | id in tunnels && tunnels[id].dbId != dbId :: tunnels[id];
      tunnels := tunnels[tid := TunnelStats(dbId, ZERO, ZERO, ZERO)];
    }

    method RemoveTunnel(tid: u32)
      modifies this
      ensures tunnels == old(tunnels) - {tid}
    {
      tunnels := tunnels - {tid};
    }

    method CountBytes(tid: u32, n: Traffic)
      modifies this
      ensures tunnels == Counted(old(tunnels), tid, n)
    {
      if tid in tunnels {
        tunnels := tunnels[tid := tunnels[tid].(bytes := tunnels[tid].bytes.Plus(n))];
      }
    }

    /** Publishes every tunnel's rate, whatever the order of the table. */
    method TickRates()
      modifies this
      ensures tunnels == map tid | tid in old(tunnels) :: Published(old(tunnels)[tid])
    {
      var left := tunnels.Keys;
      while left != {}
        invariant left <= tunnels.Keys == old(tunnels).Keys
        invariant forall tid | tid in tunnels ::
          tunnels[tid] == if tid in left then old(tunnels)[tid] else Published(old(tunnels)[tid])
      {
        var tid :| tid in left;
        var ts := tunnels[tid];
        var current, prev := ts.bytes, ts.prev;
        ts := ts.(prev := current);
        ts := ts.(perSec := current.SaturatingMinus(prev));
        tunnels := tunnels[tid := ts];
        left := left - {tid};
      }
    }
  }

  // ---------------------------------------------------------------- runs

  /** `Tick(tid)` is one tunnel's part of a tick, so bytes may arrive between any two tunnels of one tick. */
  datatype Event =
    | Add(tid: u32, dbId: u32)
    | Remove(tid: u32)
    | Bytes(tid: u32, n: Traffic)
    | Tick(tid: u32)

  /** Each event is one method of `Stats`, `Tick` one turn of the loop of `TickRates`. */
  function Step(t: Table, e: Event): Table {
    match e
    case Add(tid, dbId) => Added(t, tid, dbId)
    case Remove(tid) => t - {tid}
    case Bytes(tid, n) => Counted(t, tid, n)
    case Tick(tid) => if tid in t then t[tid := Published(t[tid])] else t
  }

  function After(log: seq<Event>): Table {
    if log == [] then map[] else Step(After(log[..|log| - 1]), log[|log| - 1])
  }

  function TickInOrder(t: Table, order: seq<u32>): Table {
    if order == [] then t else Step(TickInOrder(t, order[..|order| - 1]), Tick(order[|order| - 1]))
  }

  /** What `Stats.TickRates` does at once is what a run does one tunnel at a time, in any order. */
  lemma {:induction false} TickIsOnePerTunnel(t: Table, order: seq<u32>)
    requires NoDuplicates(order)
    ensures TickInOrder(t, order) == map tid | tid in t :: if tid in order then Published(t[tid]) else t[tid]
  {
    if order != [] {
      TickIsOnePerTunnel(t, order[..|order| - 1]);
      assert forall tid :: tid in order <==> tid in order[..|order| - 1] || tid == order[|order| - 1];
    }
  }

  /** The bytes that arrived for a tunnel since it was last added. */
  function Arrived(log: seq<Event>, tid: u32): Traffic {
    if log == [] then ZERO else
    var before, e := log[..|log| - 1], log[|log| - 1];
    if e.tid != tid then Arrived(before, tid) else
    match e
    case Add(_, _) => ZERO
    case Bytes(_, n) => Arrived(before, tid).Plus(n)
    case _ => Arrived(before, tid)
  }

  /** The sum of the per-second values a tunnel showed after each tick since it was last added. */
  function Shown(log: seq<Event>, tid: u32): Traffic {
    if log == [] then ZERO else
    var before, e := log[..|log| - 1], log[|log| - 1];
    if e.tid != tid then Shown(before, tid) else
    match e
    case Add(_, _) => ZERO
    case Tick(_) => if tid in After(log) then Shown(before, tid).Plus(After(log)[tid].perSec) else Shown(before, tid)
    case _ => Shown(before, tid)
  }

  /** No byte is shown twice or never: what was shown and what the next tick will show make up what arrived. */
  lemma {:induction false} RatesConserveBytes(log: seq<Event>, tid: u32)
    requires tid in After(log)
    ensures var s := After(log)[tid];
      && s.bytes == Arrived(log, tid)
      && Shown(log, tid).Plus(Published(s).perSec) == Arrived(log, tid)
  {
    ShownIsPrevious(log, tid);
    hide *;
    MinusRestores(After(log)[tid].prev, After(log)[tid].bytes);
  }

  lemma {:induction false} ShownIsPrevious(log: seq<Event>, tid: u32)
    requires tid in After(log)
    ensures var s := After(log)[tid];
      s.bytes == Arrived(log, tid) && s.prev == Shown(log, tid) && s.prev.AtMost(s.bytes)
  {
    var before, e := log[..|log| - 1], log[|log| - 1];
    if tid in After(before) {
      ShownIsPrevious(before, tid);
    }
  }

  /** Adding a tunnel starts it from zero, drops the other entries of its row and keeps those of all other rows. */
  lemma AddedExactly(t: Table, tid: u32, dbId: u32, other: u32)
    ensures Added(t, tid, dbId)[tid] == TunnelStats(dbId, Traffic(0, 0), Traffic(0, 0), Traffic(0, 0))
    ensures other != tid ==> (other in Added(t, tid, dbId) <==> other in t && t[other].dbId != dbId)
    ensures other != tid && other in Added(t, tid, dbId) ==> Added(t, tid, dbId)[other] == t[other]
  {
  }

  /** Each database row is shown under one tunnel id only. */
  lemma {:induction false} OneEntryPerRow(log: seq<Event>, a: u32, b: u32)
    requires a in After(log) && b in After(log) && a != b
    ensures After(log)[a].dbId != After(log)[b].dbId
  {
    var before := After(log[..|log| - 1]);
    if a in before && b in before {
      OneEntryPerRow(log[..|log| - 1], a, b);
    }
  }
}

/** The server's per-second rates: the background task of server/src/main.rs. */
module ConnectionRates {
  import opened Base
  import opened Wire
  import opened TrafficCounts

  datatype ConnRecord = ConnRecord(bytes: Traffic, perSec: Traffic)

  type Registry = map<u64, ConnRecord>
  type Snapshot = map<u64, Traffic>

  // ---------------------------------------------------------------- one tick

  /** The previous sample; a connection seen for the first time is compared with itself. */
  function Previous(prev: Snapshot, sid: u64, current: Traffic): Traffic {
    if sid in prev then prev[sid] else current
  }

  function Sampled(r: ConnRecord, prev: Snapshot, sid: u64): ConnRecord {
    r.(perSec := r.bytes.SaturatingMinus(Previous(prev, sid, r.bytes)))
  }

  class RateTask {
    var registry: Registry
    var prev: Snapshot

    constructor (registry: Registry)
      ensures this.registry == registry && prev == map[]
    {
      this.registry, prev := registry, map[];
    }

    method SampleOne(sid: u64)
      requires sid in registry
      modifies this
      ensures registry == old(registry)[sid := Sampled(old(registry)[sid], old(prev), sid)]
      ensures prev == old(prev)[sid := old(registry)[sid].bytes]
    {
      var current := registry[sid].bytes;
      if sid !in prev {
        prev := prev[sid := current];
      }
      registry := registry[sid := registry[sid].(perSec := current.SaturatingMinus(prev[sid]))];
      prev := prev[sid := current];
    }

    /** Afterwards `prev` has exactly the registry's keys, and holds its current counters. */
    method Tick()
      modifies this
      ensures registry == map sid | sid in old(registry) :: Sampled(old(registry)[sid], old(prev), sid)
      ensures prev == map sid | sid in registry :: registry[sid].bytes
    {
      var left := registry.Keys;
      while left != {}
        invariant left <= registry.Keys == old(registry).Keys
        invariant registry.Keys - left <= prev.Keys
        invariant forall sid | sid in left :: registry[sid] == old(registry)[sid]
        invariant forall sid | sid in left :: sid in prev <==> sid in old(prev)
        invariant forall sid | sid in left && sid in prev :: prev[sid] == old(prev)[sid]
        invariant forall sid | sid in registry && sid !in left ::
          registry[sid] == Sampled(old(registry)[sid], old(prev), sid) && prev[sid] == registry[sid].bytes
      {
        var sid :| sid in left;
        SampleOne(sid);
        left := left - {sid};
      }
      prev := map sid | sid in prev && sid in registry :: prev[sid];
    }
  }

  // ---------------------------------------------------------------- runs

  /** `samples` and `shown` record, for each connection, what a tick read and the value it then published. */
  datatype World = World(
    registry: Registry,
    prev: Snapshot,
    nextSid: nat,
    samples: map<u64, seq<Traffic>>,
    shown: map<u64, Traffic>)

  /** A tick is a `Sample` of each registered connection and then a `Purge`; anything may happen in between. */
  datatype Event =
    | Connect
    | Disconnect(sid: u64)
    | Bytes(sid: u64, n: Traffic)
    | Sample(sid: u64)
    | Purge

  function SamplesOf(w: World, sid: u64): seq<Traffic> {
    if sid in w.samples then w.samples[sid] else []
  }

  function ShownOf(w: World, sid: u64): Traffic {
    if sid in w.shown then w.shown[sid] else ZERO
  }

  function Step(w: World, e: Event): World {
    match e
    case Connect =>
      if w.nextSid < MAX_STREAM_IDS
      then w.(registry := w.registry[w.nextSid := ConnRecord(ZERO, ZERO)], nextSid := w.nextSid + 1) else w
    case Disconnect(sid) => w.(registry := w.registry - {sid})
    case Bytes(sid, n) =>
      if sid in w.registry
      then w.(registry := w.registry[sid := w.registry[sid].(bytes := w.registry[sid].bytes.Plus(n))]) else w
    case Sample(sid) =>
      if sid !in w.registry then w else
      var r := Sampled(w.registry[sid], w.prev, sid);
      w.(registry := w.registry[sid := r], prev := w.prev[sid := r.bytes],
        samples := w.samples[sid := SamplesOf(w, sid) + [r.bytes]],
        shown := w.shown[sid := ShownOf(w, sid).Plus(r.perSec)])
    case Purge => w.(prev := map sid | sid in w.prev && sid in w.registry :: w.prev[sid])
  }

  function Run(log: seq<Event>): World {
    if log == [] then World(map[], map[], 1, map[], map[])
    else Step(Run(log[..|log| - 1]), log[|log| - 1])
  }

  function SampleInOrder(w: World, order: seq<u64>): World {
    if order == [] then w else Step(SampleInOrder(w, order[..|order| - 1]), Sample(order[|order| - 1]))
  }

  lemma {:induction false} SamplesInOrder(w: World, order: seq<u64>)
    requires NoDuplicates(order) && forall sid | sid in order :: sid in w.registry
    ensures var w' := SampleInOrder(w, order);
      && w'.registry == (map sid | sid in w.registry ::
                           if sid in order then Sampled(w.registry[sid], w.prev, sid) else w.registry[sid])
      && w'.prev.Keys == w.prev.Keys + (set sid | sid in order)
      && forall sid | sid in w'.prev :: w'.prev[sid] == if sid in order then w.registry[sid].bytes else w.prev[sid]
  {
    if order != [] {
      var before, last := order[..|order| - 1], order[|order| - 1];
      SamplesInOrder(w, before);
      assert order == before + [last];
      OneMoreSample(w, SampleInOrder(w, before), before, last);
    }
  }

  lemma OneMoreSample(w: World, w1: World, before: seq<u64>, last: u64)
    requires last in w.registry && last !in before && forall sid | sid in before :: sid in w.registry
    requires w1.registry == map sid | sid in w.registry ::
      if sid in before then Sampled(w.registry[sid], w.prev, sid) else w.registry[sid]
    requires w1.prev.Keys == w.prev.Keys + (set sid | sid in before)
    requires forall sid | sid in w1.prev :: w1.prev[sid] == if sid in before then w.registry[sid].bytes else w.prev[sid]
    ensures var w', order := Step(w1, Sample(last)), before + [last];
      && w'.registry == (map sid | sid in w.registry ::
                           if sid in order then Sampled(w.registry[sid], w.prev, sid) else w.registry[sid])
      && w'.prev.Keys == w.prev.Keys + (set sid | sid in order)
      && forall sid | sid in w'.prev :: w'.prev[sid] == if sid in order then w.registry[sid].bytes else w.prev[sid]
  {
    assert Sampled(w1.registry[last], w1.prev, last) == Sampled(w.registry[last], w.prev, last);
    hide Sampled;
  }

  /** What `RateTask.Tick` does at once is what a run does with a sample of each connection and a purge. */
  lemma {:induction false} TickIsSamplesAndPurge(w: World, order: seq<u64>)
    requires Enumerates(order, w.registry.Keys)
    ensures var w' := Step(SampleInOrder(w, order), Purge);
      && w'.registry == (map sid | sid in w.registry :: Sampled(w.registry[sid], w.prev, sid))
      && w'.prev == (map sid | sid in w'.registry :: w'.registry[sid].bytes)
  {
    SamplesInOrder(w, order);
  }

  /** What was published so far leads from the first sample to the last. */
  ghost predicate Telescopes(samples: seq<Traffic>, shown: Traffic) {
    if samples == [] then shown == ZERO else samples[0].Plus(shown) == samples[|samples| - 1]
  }

  ghost predicate ConnectionOk(w: World, sid: u64) {
    var samples := SamplesOf(w, sid);
    && (sid in w.registry || sid in w.prev || samples != [] ==> sid < w.nextSid)
    && (sid in w.prev ==> samples != [])
    && (sid in w.registry && samples != [] ==>
          sid in w.prev && w.prev[sid] == samples[|samples| - 1] && w.prev[sid].AtMost(w.registry[sid].bytes))
    && Telescopes(samples, ShownOf(w, sid))
  }

  lemma {:induction false} TelescopesNext(samples: seq<Traffic>, shown: Traffic, before: Traffic, current: Traffic)
    requires Telescopes(samples, shown)
    requires if samples == [] then before == current else before == samples[|samples| - 1] && before.AtMost(current)
    ensures Telescopes(samples + [current], shown.Plus(current.SaturatingMinus(before)))
  {
    hide Traffic.Plus, Traffic.SaturatingMinus;
    var after, delta := samples + [current], current.SaturatingMinus(before);
    assert after[|after| - 1] == current;
    if samples == [] {
      EqualCounts(current);
      EqualCounts(ZERO);
    } else {
      assert after[0] == samples[0];
      MinusRestores(before, current);
      PlusAssociates(samples[0], shown, delta);
    }
  }

  lemma SampleKeepsOk(w: World, sid: u64)
    requires ConnectionOk(w, sid) && sid in w.registry
    ensures ConnectionOk(Step(w, Sample(sid)), sid)
  {
    hide Telescopes, Traffic.Plus, Traffic.SaturatingMinus;
    var w', current := Step(w, Sample(sid)), w.registry[sid].bytes;
    assert SamplesOf(w', sid) == SamplesOf(w, sid) + [current];
    EqualCounts(current);
    TelescopesNext(SamplesOf(w, sid), ShownOf(w, sid), Previous(w.prev, sid, current), current);
  }

  lemma OtherStepKeepsOk(w: World, e: Event, sid: u64)
    requires ConnectionOk(w, sid) && !(e.Sample? && e.sid == sid)
    ensures ConnectionOk(Step(w, e), sid)
  {
    var w' := Step(w, e);
    assert SamplesOf(w', sid) == SamplesOf(w, sid) && ShownOf(w', sid) == ShownOf(w, sid);
    if e.Bytes? && sid in w.registry && sid in w.prev {
      PlusGrows(w.prev[sid], w.registry[sid].bytes, e.n);
    }
    hide Traffic.Plus, Traffic.SaturatingMinus, Traffic.AtMost, SamplesOf, ShownOf;
  }

  lemma {:induction false} AlwaysOk(log: seq<Event>, sid: u64)
    ensures ConnectionOk(Run(log), sid)
  {
    if log != [] {
      var before := log[..|log| - 1];
      AlwaysOk(before, sid);
      var w, e := Run(before), log[|log| - 1];
      if e != Sample(sid) {
        OtherStepKeepsOk(w, e, sid);
      } else if sid in w.registry {
        SampleKeepsOk(w, sid);
      }
      hide ConnectionOk;
    }
  }

  /** The values published for a connection sum to its last sample minus its first, in every run. */
  lemma RatesTelescope(log: seq<Event>, sid: u64)
    requires SamplesOf(Run(log), sid) != []
    ensures var w := Run(log);
      var samples := SamplesOf(w, sid);
      samples[0].Plus(ShownOf(w, sid)) == samples[|samples| - 1]
  {
    AlwaysOk(log, sid);
  }
}
