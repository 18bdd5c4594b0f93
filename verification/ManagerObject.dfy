/** The upstream manager as an object that its locked regions update in place
    (upstream/manager.go), each proved against the corresponding function on values. */
module ManagerObject {
  import opened Options
  import opened Tickets
  import opened Config
  import opened Text
  import opened Upstreams

  class ManagerObject {
    var entries: map<string, Entry>
    var order: seq<string>
    var active: string
    var rrIdx: Ticket
    var strategy: Strategy
    var health: Thresholds

    ghost function Value(): Manager
      reads this
    {
      Manager(entries, order, active, rrIdx, strategy, health)
    }

    /** NewManager before its first dial. */
    constructor (u: Option<Upstream>)
      ensures Value() == FRESH.(strategy := StrategyOf(u), health := HealthSettings(u))
    {
      entries, order, active, rrIdx := map[], [], "", 0;
      strategy, health := StrategyOf(u), HealthSettings(u);
    }

    // ---- routing ----

    method HealthyNamesLocked() returns (names: seq<string>)
      ensures names == HealthyNames(entries, order)
    {
      names := [];
      for i := 0 to |order|
        invariant names == HealthyNames(entries, order[..i])
      {
        assert order[..i + 1][..i] == order[..i];
        if order[i] in entries && entries[order[i]].healthy {
          names := names + [order[i]];
        }
      }
      assert order[..|order|] == order;
    }

    method WeightedPickLocked(names: seq<string>) returns (name: string)
      requires names != [] && Known(entries, names)
      modifies this`rrIdx
      ensures var total := Total(entries, names);
              && rrIdx == (if total == 0 then old(rrIdx) else After(old(rrIdx), 1))
              && name == (if total == 0 then names[0] else WalkName(entries, names, Rem(old(rrIdx), total)))
    {
      var total: Int := 0;
      for k := 0 to |names|
        invariant total == Total(entries, names[..k])
      {
        assert names[..k + 1][..k] == names[..k];
        total := Add(total, entries[names[k]].ep.weight);
      }
      assert names[..|names|] == names;
      if total == 0 {
        return names[0];
      }
      var i: int := Rem(rrIdx, total);
      rrIdx := After(rrIdx, 1);
      ghost var stop := Walk(entries, names, 0, i);
      for k := 0 to |names|
        invariant stop == Walk(entries, names, k, i)
      {
        var w := entries[names[k]].ep.weight;
        if i < w {
          return names[k];
        }
        i := i - w;
      }
      return names[0];
    }

    method LatencyPickLocked(names: seq<string>) returns (name: string)
      requires names != [] && Known(entries, names)
      ensures name == names[Fastest(entries, names, |names|).0]
    {
      name := names[0];
      var bestRTT: Int := MAX_INT64;
      for k := 0 to |names|
        invariant name == names[Fastest(entries, names, k).0] && bestRTT == Fastest(entries, names, k).1
      {
        var rtt := entries[names[k]].rtt;
        if rtt == 0 {
          rtt := 1_000_000;
        }
        if rtt < bestRTT {
          bestRTT := rtt;
          name := names[k];
        }
      }
    }

    method PickLocked() returns (name: string)
      modifies this`active, this`rrIdx
      ensures name == Pick(old(Value())).name && Value() == Pick(old(Value())).m
    {
      var names := HealthyNamesLocked();
      if names == [] {
        return active;
      }
      match strategy
      case RoundRobin =>
        var i := rrIdx;
        rrIdx := After(rrIdx, 1);
        return names[i % |names|];
      case Weighted =>
        name := WeightedPickLocked(names);
      case LeastLatency =>
        name := LatencyPickLocked(names);
      case Failover =>
        if active !in names {
          active := names[0];
        }
        return active;
    }

    /** poolFor, as one atomic step although it holds only a read lock. */
    method PoolFor(bind: string) returns (pool: Option<PoolId>)
      modifies this`active, this`rrIdx
      ensures (pool, Value()) == Upstreams.PoolFor(old(Value()), bind)
    {
      if bind != "" {
        if bind in entries && entries[bind].healthy {
          return Some(entries[bind].pool);
        }
      }
      var name := PickLocked();
      if name in entries {
        return Some(entries[name].pool);
      }
      return None;
    }

    // ---- health ----

    method FailoverLocked()
      modifies this`active
      ensures active == FailoverTo(entries, order, old(active))
    {
      for i := 0 to |order|
        invariant active == old(active) && forall j | 0 <= j < i :: !Healthy(entries, order[j])
      {
        if order[i] in entries && entries[order[i]].healthy {
          FirstHealthy(entries, order, i);
          if active != order[i] {
            active := order[i];
          }
          return;
        }
      }
      NoneHealthy(entries, order);
    }

    /** One iteration of runHealthCheck; `busy` says whether a reconnect is running for
        the entry, `spawned` whether one is launched. */
    method CheckEntry(name: string, p: Ping, busy: bool) returns (spawned: bool)
      requires name in entries
      modifies this`entries, this`active
      ensures Value() == Visit(old(Value()), name, p)
      ensures entries == old(entries)[name := Observe(old(entries)[name], p, health)]
      ensures spawned <==> p == Silent && !entries[name].healthy && !busy
    {
      var e := entries[name];
      if p == Silent {
        e := e.(failures := e.failures + 1, recovers := 0);
        entries := entries[name := e];
        if e.healthy && e.failures >= health.fail {
          e := e.(healthy := false);
          entries := entries[name := e];
          if active == name {
            FailoverLocked();
          }
        }
        assert entries == old(entries)[name := e];
        return !e.healthy && !busy;
      }
      e := e.(rtt := p.rtt, failures := 0);
      if !e.healthy {
        e := e.(recovers := e.recovers + 1);
        if e.recovers >= health.recover {
          e := e.(healthy := true, recovers := 0);
        }
      }
      entries := entries[name := e];
      return false;
    }

    /** Of the entries visited, `spawned` are those a reconnect was launched for. */
    static ghost predicate Launched(spawned: set<string>, es: map<string, Entry>, names: seq<string>, pings: Pings,
                                    busy: set<string>)
    {
      forall n :: n in spawned <==> n in names && n in es && pings(n) == Silent && !es[n].healthy && n !in busy
    }

    static lemma LaunchedSnoc(spawned: set<string>, es: map<string, Entry>, names: seq<string>, pings: Pings,
                              busy: set<string>, name: string, e: Entry)
      requires Launched(spawned, es, names, pings, busy) && name in es && name !in names
      ensures var launch := pings(name) == Silent && !e.healthy && name !in busy;
              Launched(if launch then spawned + {name} else spawned, es[name := e], names + [name], pings, busy)
    {
    }

    /** runHealthCheck: the order in which it visits the entries is anybody's guess. */
    method RunHealthCheck(pings: Pings, busy: set<string>) returns (names: seq<string>, spawned: set<string>)
      modifies this`entries, this`active
      ensures Iterates(names, old(entries).Keys) && Value() == Round(old(Value()), names, pings)
      ensures forall n :: n in spawned <==> n in entries && pings(n) == Silent && !entries[n].healthy && n !in busy
    {
      names, spawned := [], {};
      var todo := entries.Keys;
      while todo != {}
        invariant Iterates(names, old(entries).Keys - todo) && todo <= old(entries).Keys
        invariant Value() == Round(old(Value()), names, pings) && entries.Keys == old(entries).Keys
        invariant Launched(spawned, entries, names, pings, busy)
        decreases todo
      {
        var name :| name in todo;
        IteratesSnoc(names, old(entries).Keys, todo, name);
        RoundSnoc(old(Value()), names, name, pings);
        LaunchedSnoc(spawned, entries, names, pings, busy, name, Observe(entries[name], pings(name), health));
        todo := todo - {name};
        var launch := CheckEntry(name, pings(name), name in busy);
        if launch {
          spawned := spawned + {name};
        }
        names := names + [name];
      }
    }

    // ---- reconnect, Reload, Close ----

    /** The locked end of reconnect: the pool that was replaced, if the entry exists. */
    method SwapPool(name: string, pool: PoolId) returns (was: Option<PoolId>)
      modifies this`entries, this`active
      ensures was == if name in old(entries) then Some(old(entries)[name].pool) else None
      ensures Value() == if name in old(entries) then Swap(old(Value()), name, pool) else old(Value())
    {
      if name !in entries {
        return None;
      }
      var e := entries[name];
      was := Some(e.pool);
      entries := entries[name := e.(pool := pool, healthy := true, failures := 0, recovers := 0)];
      if active == "" || !(active in entries && entries[active].healthy) {
        active := name;
      }
    }

    /** The locked end of Reload: the entries that were replaced. */
    method CommitReload(es: map<string, Entry>, names: seq<string>, strategy: Strategy, health: Thresholds)
      returns (was: map<string, Entry>)
      modifies this
      ensures was == old(entries) && Value() == Commit(old(Value()), es, names, strategy, health)
    {
      was := entries;
      this.health := health;
      this.strategy := strategy;
      entries := es;
      order := names;
      if |names| > 0 {
        active := names[0];
      }
    }

    /** Close: the pools it closes, in the order in which it does. */
    method CloseLocked() returns (names: seq<string>, closed: seq<PoolId>)
      modifies this`entries, this`order
      ensures Value() == Shut(old(Value())) && Iterates(names, old(entries).Keys) && |closed| == |names|
      ensures forall i | 0 <= i < |names| :: closed[i] == old(entries)[names[i]].pool
    {
      names, closed := [], [];
      var todo := entries.Keys;
      while todo != {}
        invariant Iterates(names, entries.Keys - todo) && todo <= entries.Keys && |closed| == |names|
        invariant forall i | 0 <= i < |names| :: closed[i] == entries[names[i]].pool
        decreases todo
      {
        var name :| name in todo;
        todo := todo - {name};
        names, closed := names + [name], closed + [entries[name].pool];
      }
      entries := map[];
      order := [];
    }
  }
}
