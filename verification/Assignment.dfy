/** Choosing the least-loaded target: the rule shared by the manager (`assign_tunnels`) and the client's sync. */
module LeastLoaded {

  function Load<K>(counts: map<K, nat>, k: K): nat {
    if k in counts then counts[k] else 0
  }

  /** `min_by_key` over the loads: the first of the least-loaded keys. */
  function FirstLeast<K>(keys: seq<K>, counts: map<K, nat>): (i: nat)
    requires keys != []
    ensures i < |keys|
    ensures forall j :: 0 <= j < |keys| ==> Load(counts, keys[i]) <= Load(counts, keys[j])
    ensures forall j :: 0 <= j < i ==> Load(counts, keys[i]) < Load(counts, keys[j])
  {
    var last := |keys| - 1;
    if last == 0 then 0 else
    var best := FirstLeast(keys[..last], counts);
    assert forall j :: 0 <= j < last ==> keys[..last][j] == keys[j];
    if Load(counts, keys[last]) < Load(counts, keys[best]) then last else best
  }

  /** Sum of the loads of a set of keys. */
  ghost function Total<K>(keys: set<K>, counts: map<K, nat>): nat {
    if keys == {} then 0 else
    var k :| k in keys;
    Load(counts, k) + Total(keys - {k}, counts)
  }

  lemma {:induction false} TotalWithout<K>(keys: set<K>, counts: map<K, nat>, k: K)
    requires k in keys
    ensures Total(keys, counts) == Load(counts, k) + Total(keys - {k}, counts)
  {
    var first :| first in keys && Total(keys, counts) == Load(counts, first) + Total(keys - {first}, counts);
    if first != k {
      TotalWithout(keys - {first}, counts, k);
      assert keys - {first} - {k} == keys - {k} - {first};
      TotalWithout(keys - {k}, counts, first);
    }
  }

  lemma {:induction false} TotalDependsOnLoads<K>(keys: set<K>, a: map<K, nat>, b: map<K, nat>)
    requires forall k | k in keys :: Load(a, k) == Load(b, k)
    ensures Total(keys, a) == Total(keys, b)
  {
    if keys != {} {
      var k :| k in keys;
      TotalWithout(keys, a, k);
      TotalWithout(keys, b, k);
      TotalDependsOnLoads(keys - {k}, a, b);
    }
  }

  lemma {:induction false} TotalMonotone<K>(keys: set<K>, a: map<K, nat>, b: map<K, nat>)
    requires forall k | k in keys :: Load(a, k) <= Load(b, k)
    ensures Total(keys, a) <= Total(keys, b)
  {
    if keys != {} {
      var k :| k in keys;
      TotalWithout(keys, a, k);
      TotalWithout(keys, b, k);
      TotalMonotone(keys - {k}, a, b);
    }
  }
}

/** The manager's greedy hand-out of unassigned tunnels (`assign_tunnels` in manager/src/main.rs). */
module Assignment {
  import opened LeastLoaded

  type ClientId = string
  type Counts = map<ClientId, nat>

  function OneMore(counts: Counts, c: ClientId): Counts {
    counts[c := Load(counts, c) + 1]
  }

  /** The counts after handing out one tunnel to each client named, however they were picked. */
  function After(counts: Counts, choices: seq<ClientId>): Counts {
    if choices == [] then counts
    else OneMore(After(counts, choices[..|choices| - 1]), choices[|choices| - 1])
  }

  /** The clients the greedy rule picks for `n` tunnels in turn. */
  function GreedyChoices(clients: seq<ClientId>, counts: Counts, n: nat): (choices: seq<ClientId>)
    requires clients != []
    ensures |choices| == n && forall c | c in choices :: c in clients
  {
    if n == 0 then [] else
    var sofar := GreedyChoices(clients, counts, n - 1);
    sofar + [clients[FirstLeast(clients, After(counts, sofar))]]
  }

  ghost function Members(clients: seq<ClientId>): set<ClientId> {
    set c | c in clients
  }

  ghost predicate EachAtMost(clients: seq<ClientId>, counts: Counts, m: nat) {
    forall c | c in clients :: Load(counts, c) <= m
  }

  /**
   * `accepted` is how many of the updates the database takes before one fails, which ends the pass.
   * `handedTo` lists the client written for each tunnel, in the order of the tunnels.
   */
  method AssignTunnels(clients: seq<ClientId>, stored: Counts, unassigned: seq<nat>, accepted: nat)
    returns (counts: Counts, handedTo: seq<ClientId>)
    ensures clients == [] ==> handedTo == []
    ensures clients != [] ==>
      && |handedTo| == (if |unassigned| < accepted then |unassigned| else accepted)
      && handedTo == GreedyChoices(clients, stored, |handedTo|)
      && forall c :: Load(counts, c) == Load(After(stored, handedTo), c)
  {
    hide FirstLeast, GreedyChoices, After;
    counts, handedTo := stored, [];
    GreedyStart(clients, stored);
    if clients == [] || unassigned == [] {
      return;
    }
    for i := 0 to |clients|
      invariant forall c :: Load(counts, c) == Load(stored, c)
    {
      if clients[i] !in counts {
        counts := counts[clients[i] := 0];
      }
    }
    for i := 0 to |unassigned|
      invariant |handedTo| == i <= accepted
      invariant handedTo == GreedyChoices(clients, stored, i)
      invariant forall c :: Load(counts, c) == Load(After(stored, handedTo), c)
    {
      if i == accepted {
        return;
      }
      var best := clients[FirstLeast(clients, counts)];
      LeastDependsOnLoads(clients, counts, After(stored, handedTo));
      GreedyNext(clients, stored, i);
      SameLoadsAfterOneMore(counts, After(stored, handedTo), best);
      counts := OneMore(counts, best);
      handedTo := handedTo + [best];
    }
  }

  lemma SameLoadsAfterOneMore(a: Counts, b: Counts, best: ClientId)
    requires forall c :: Load(a, c) == Load(b, c)
    ensures forall c :: Load(OneMore(a, best), c) == Load(OneMore(b, best), c)
  {
    forall c
      ensures Load(OneMore(a, best), c) == Load(OneMore(b, best), c)
    {
      assert Load(a, c) == Load(b, c) && Load(a, best) == Load(b, best);
    }
  }

  lemma GreedyStart(clients: seq<ClientId>, counts: Counts)
    ensures After(counts, []) == counts
    ensures clients != [] ==> GreedyChoices(clients, counts, 0) == []
  {
  }

  lemma GreedyNext(clients: seq<ClientId>, counts: Counts, n: nat)
    requires clients != []
    ensures var sofar := GreedyChoices(clients, counts, n);
      var best := clients[FirstLeast(clients, After(counts, sofar))];
      && GreedyChoices(clients, counts, n + 1) == sofar + [best]
      && After(counts, sofar + [best]) == OneMore(After(counts, sofar), best)
  {
    var sofar := GreedyChoices(clients, counts, n);
    var best := clients[FirstLeast(clients, After(counts, sofar))];
    assert (sofar + [best])[..n] == sofar;
  }

  lemma {:induction false} LeastDependsOnLoads(clients: seq<ClientId>, a: Counts, b: Counts)
    requires clients != [] && forall c | c in clients :: Load(a, c) == Load(b, c)
    ensures FirstLeast(clients, a) == FirstLeast(clients, b)
  {
    var i, j := FirstLeast(clients, a), FirstLeast(clients, b);
    assert Load(a, clients[i]) <= Load(a, clients[j]) && Load(b, clients[j]) <= Load(b, clients[i]);
  }

  /** However tunnels are handed out among the clients, the total load grows by their number and no load shrinks. */
  lemma {:induction false} TotalGrowsByCount(clients: seq<ClientId>, counts: Counts, choices: seq<ClientId>)
    requires forall c | c in choices :: c in clients
    ensures Total(Members(clients), After(counts, choices)) == Total(Members(clients), counts) + |choices|
    ensures forall c :: Load(counts, c) <= Load(After(counts, choices), c)
  {
    if choices != [] {
      var last := |choices| - 1;
      var c, before := choices[last], After(counts, choices[..last]);
      assert c in choices;
      TotalGrowsByCount(clients, counts, choices[..last]);
      TotalWithout(Members(clients), before, c);
      TotalWithout(Members(clients), OneMore(before, c), c);
      TotalDependsOnLoads(Members(clients) - {c}, before, OneMore(before, c));
    }
  }

  /** A client that received a tunnel ends at most one above every configured client. */
  lemma {:induction false} ReceiversStayLow(clients: seq<ClientId>, counts: Counts, n: nat, c: ClientId, d: ClientId)
    requires clients != [] && c in clients && d in clients
    requires var final := After(counts, GreedyChoices(clients, counts, n)); Load(counts, c) < Load(final, c)
    ensures var final := After(counts, GreedyChoices(clients, counts, n)); Load(final, c) <= Load(final, d) + 1
  {
    var sofar := GreedyChoices(clients, counts, n - 1);
    var before := After(counts, sofar);
    var best := clients[FirstLeast(clients, before)];
    assert GreedyChoices(clients, counts, n)[..n - 1] == sofar;
    if c != best {
      ReceiversStayLow(clients, counts, n - 1, c, d);
    }
  }

  /**
   * Greedy assignment is optimal: whenever some hand-out of as many tunnels among the same clients keeps every
   * load within `m`, so does the greedy one. No other way has a smaller maximum load.
   */
  lemma GreedyIsOptimal(clients: seq<ClientId>, counts: Counts, other: seq<ClientId>, m: nat)
    requires clients != [] && forall c | c in other :: c in clients
    requires EachAtMost(clients, After(counts, other), m)
    ensures EachAtMost(clients, After(counts, GreedyChoices(clients, counts, |other|)), m)
  {
    var greedy := GreedyChoices(clients, counts, |other|);
    var final, rival, all := After(counts, greedy), After(counts, other), Members(clients);
    TotalGrowsByCount(clients, counts, greedy);
    TotalGrowsByCount(clients, counts, other);
    forall c | c in clients
      ensures Load(final, c) <= m
    {
      if Load(final, c) > m {
        assert Load(counts, c) <= Load(rival, c) <= m;
        forall d | d in all - {c}
          ensures Load(rival, d) <= Load(final, d)
        {
          ReceiversStayLow(clients, counts, |other|, c, d);
        }
        TotalMonotone(all - {c}, rival, final);
        TotalWithout(all, final, c);
        TotalWithout(all, rival, c);
        assert false;
      }
    }
  }
}
