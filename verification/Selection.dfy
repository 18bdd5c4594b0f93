/** Which upstream new streams are routed to: safety, stickiness and what the four
    strategies choose (upstream/manager.go). */
module Selection {
  import opened Options
  import opened Config
  import opened Text
  import opened Endpoints
  import opened Upstreams

  // ---- runs of locked regions ----

  predicate OpAt(ms: seq<Manager>, ops: seq<Op>, i: nat)
    requires |ms| == |ops| + 1 && i < |ops|
  {
    Allowed(ms[i], ops[i]) && ms[i + 1] == Apply(ms[i], ops[i])
  }

  /** `ms` are the states of a run that performs `ops`. */
  ghost predicate Trace(ms: seq<Manager>, ops: seq<Op>) {
    && |ms| == |ops| + 1
    && forall i: nat {:trigger OpAt(ms, ops, i)} | i < |ops| :: OpAt(ms, ops, i)
  }

  lemma TraceTail(ms: seq<Manager>, ops: seq<Op>)
    requires Trace(ms, ops) && ops != []
    ensures Trace(ms[1..], ops[1..])
  {
    forall i: nat | i < |ops[1..]|
      ensures OpAt(ms[1..], ops[1..], i)
    {
      assert OpAt(ms, ops, i + 1);
    }
  }

  lemma TraceSnoc(ms: seq<Manager>, ops: seq<Op>, op: Op)
    requires Trace(ms, ops) && Allowed(ms[|ops|], op)
    ensures Trace(ms + [Apply(ms[|ops|], op)], ops + [op])
  {
    var ms', ops' := ms + [Apply(ms[|ops|], op)], ops + [op];
    forall i: nat | i < |ops'|
      ensures OpAt(ms', ops', i)
    {
      assert i < |ops| ==> OpAt(ms, ops, i);
    }
  }

  lemma ThreeOps(m: Manager, a: Op, b: Op, c: Op, m1: Manager, m2: Manager) returns (ms: seq<Manager>, ops: seq<Op>)
    requires Allowed(m, a) && m1 == Apply(m, a) && Allowed(m1, b) && m2 == Apply(m1, b) && Allowed(m2, c)
    ensures Trace(ms, ops) && ms == [m, m1, m2, Apply(m2, c)] && ops == [a, b, c]
  {
    TraceSnoc([m], [], a);
    TraceSnoc([m, m1], [a], b);
    TraceSnoc([m, m1, m2], [a, b], c);
    ms, ops := [m, m1, m2] + [Apply(m2, c)], [a, b] + [c];
    assert [m] + [m1] == [m, m1] && [m, m1] + [m2] == [m, m1, m2] && [] + [a] == [a] && [a] + [b] == [a, b];
  }

  lemma {:induction false} RunCoherent(ms: seq<Manager>, ops: seq<Op>, i: nat)
    requires Trace(ms, ops) && Coherent(ms[0]) && i < |ms|
    ensures Coherent(ms[i])
  {
    if i == 0 {
    } else {
      RunCoherent(ms, ops, i - 1);
      assert OpAt(ms, ops, i - 1);
      OpKeepsCoherent(ms[i - 1], ops[i - 1]);
    }
  }

  // ---- safety ----

  lemma NoneHealthyIff(m: Manager)
    requires Coherent(m)
    ensures HealthyNames(m.entries, m.order) == [] <==> forall n :: !Healthy(m.entries, n)
  {
    if n :| Healthy(m.entries, n) {
      HealthyNamesIff(m.entries, m.order, n);
    } else {
      NoneHealthy(m.entries, m.order);
    }
  }

  lemma PickSafe(m: Manager)
    ensures Pick(m).m.entries == m.entries
    ensures if HealthyNames(m.entries, m.order) == [] then Pick(m) == Choice(m.active, m)
            else Healthy(m.entries, Pick(m).name)
  {
  }

  /** Whatever the strategy: a healthy bound upstream is used; otherwise a healthy one
      is, as long as there is one; with none the active one is still tried; and there
      is no pool at all exactly when the manager has no entries. */
  lemma RouteSafe(m: Manager, bind: string)
    requires Coherent(m)
    ensures var (c, p) := (Route(m, bind), PoolFor(m, bind).0);
            && (bind != "" && Healthy(m.entries, bind) ==> c.name == bind && c.m == m)
            && ((exists n :: Healthy(m.entries, n)) ==> Healthy(m.entries, c.name))
            && ((forall n :: !Healthy(m.entries, n)) ==> c.name == m.active && c.m == m)
            && (p.None? <==> m.entries == map[])
            && (p.Some? ==> c.name in m.entries && p.value == m.entries[c.name].pool)
  {
    NoneHealthyIff(m);
    PickSafe(m);
  }

  /** So in every reachable state. */
  lemma RunRoutesSafely(ms: seq<Manager>, ops: seq<Op>, i: nat, bind: string)
    requires Trace(ms, ops) && ms[0] == FRESH && i < |ms|
    ensures ms[i].entries != map[] ==> ms[i].active in ms[i].entries && PoolFor(ms[i], bind).0.Some?
    ensures (exists n :: Healthy(ms[i].entries, n)) ==> Healthy(ms[i].entries, Route(ms[i], bind).name)
  {
    RunCoherent(ms, ops, i);
    RouteSafe(ms[i], bind);
  }

  // ---- stickiness ----

  predicate Replaces(op: Op) {
    op.Load? || op.CloseAll?
  }

  lemma {:induction false} RoundKeepsActive(m: Manager, names: seq<string>, pings: Pings, x: string)
    requires m.active == x && Healthy(Round(m, names, pings).entries, x)
    requires Distinct(names)
    requires Healthy(m.entries, x)
    ensures Round(m, names, pings).active == x
  {
    if names == [] {
    } else {
      var k := |names| - 1;
      var before := Round(m, names[..k], pings);
      RoundFrame(m, names[..k], pings);
      if names[k] == x {
        Untouched(m, names[..k], pings, x);
      }
      RoundKeepsActive(m, names[..k], pings, x);
    }
  }

  lemma {:induction false} Untouched(m: Manager, names: seq<string>, pings: Pings, x: string)
    requires forall i | 0 <= i < |names| :: names[i] != x
    requires x in m.entries
    ensures x in Round(m, names, pings).entries && Round(m, names, pings).entries[x] == m.entries[x]
  {
    if names == [] {
    } else {
      Untouched(m, names[..|names| - 1], pings, x);
    }
  }

  lemma OpKeepsActive(m: Manager, op: Op, x: string)
    requires Allowed(m, op) && !Replaces(op) && m.strategy == Failover
    requires m.active == x && Healthy(m.entries, x) && Healthy(Apply(m, op).entries, x)
    requires x in m.order && x != ""
    ensures Apply(m, op).active == x && Apply(m, op).strategy == Failover && Apply(m, op).order == m.order
  {
    HealthyNamesIff(m.entries, m.order, x);
    if op.Check? {
      RoundKeepsActive(m, op.names, op.pings, x);
      RoundFrame(m, op.names, op.pings);
    }
  }

  /** While the active entry stays healthy nothing but a Reload or Close takes the
      traffic away from it, whatever happens to the other entries. */
  lemma {:induction false} StaysActive(ms: seq<Manager>, ops: seq<Op>, x: string, i: nat)
    requires Trace(ms, ops) && i < |ms| && ms[0].strategy == Failover
    requires ms[0].active == x && x in ms[0].order && x != ""
    requires forall k | 0 <= k <= i :: Healthy(ms[k].entries, x)
    requires forall k | 0 <= k < i :: !Replaces(ops[k])
    ensures ms[i].active == x && ms[i].strategy == Failover && ms[i].order == ms[0].order
  {
    if i == 0 {
    } else {
      StaysActive(ms, ops, x, i - 1);
      assert OpAt(ms, ops, i - 1);
      assert Healthy(ms[i - 1].entries, x) && Healthy(ms[i].entries, x) && !Replaces(ops[i - 1]);
      OpKeepsActive(ms[i - 1], ops[i - 1], x);
    }
  }

  /** Under failover the upstream chosen for an unbound stream changes, from one pick
      to a later one, only if the one chosen first is not healthy at some moment from
      the first pick to the later one, or the entries are replaced in between. */
  lemma ChangeMeansUnhealthy(ms: seq<Manager>, ops: seq<Op>)
    requires Trace(ms, ops) && Coherent(ms[0]) && ms[0].strategy == Failover && ops != [] && ops[0] == Use("")
    ensures var last := |ops|;
            Pick(ms[last]).name != Pick(ms[0]).name ==>
              || (exists k :: 0 <= k < last && Replaces(ops[k]))
              || (exists k :: 0 <= k <= last && !Healthy(ms[k].entries, Pick(ms[0]).name))
  {
    var x, n := Pick(ms[0]).name, |ops|;
    if (forall k | 0 <= k < n :: !Replaces(ops[k])) && (forall k | 0 <= k <= n :: Healthy(ms[k].entries, x)) {
      assert OpAt(ms, ops, 0);
      assert Healthy(ms[0].entries, x) && x in ms[0].order;
      HealthyNamesIff(ms[0].entries, ms[0].order, x);
      assert ms[1] == Pick(ms[0]).m && ms[1].active == x && ms[1].order == ms[0].order;
      TraceTail(ms, ops);
      StaysActive(ms[1..], ops[1..], x, n - 1);
      assert ms[n] == ms[1..][n - 1];
      HealthyNamesIff(ms[n].entries, ms[n].order, x);
    }
  }

  // ---- reconnects ----

  /** The swap of a reconnect: its entry is healthy with the new pool and clean counters,
      its latency and all other entries are left alone. The active name stays if its entry
      was healthy, and otherwise becomes the reconnected one; so it is healthy. */
  lemma SwapRevives(m: Manager, name: string, pool: PoolId)
    requires Coherent(m) && name in m.entries
    ensures var r := Apply(m, Install(name, pool));
            && Healthy(r.entries, r.active)
            && (Healthy(m.entries, m.active) ==> r.active == m.active)
            && (!Healthy(m.entries, m.active) ==> r.active == name)
            && r.entries.Keys == m.entries.Keys
            && (forall n | n in m.entries && n != name :: r.entries[n] == m.entries[n])
            && var e := r.entries[name];
               && e.pool == pool && e.healthy && e.failures == 0 && e.recovers == 0
               && e.rtt == m.entries[name].rtt && e.ep == m.entries[name].ep && e.id == m.entries[name].id
  {
  }

  /** So of several servers that are all down, the first that is reconnected gets the
      traffic under failover and keeps it while it stays healthy. */
  lemma FirstBack(ms: seq<Manager>, ops: seq<Op>, name: string, pool: PoolId, i: nat)
    requires Trace(ms, ops) && 0 < i < |ms| && Coherent(ms[0]) && ms[0].strategy == Failover
    requires ops[0] == Install(name, pool) && forall n :: !Healthy(ms[0].entries, n)
    requires forall k | 0 < k <= i :: Healthy(ms[k].entries, name)
    requires forall k | 0 < k < i :: !Replaces(ops[k])
    ensures ms[i].active == name && Pick(ms[i]).name == name
  {
    assert OpAt(ms, ops, 0);
    SwapRevives(ms[0], name, pool);
    TraceTail(ms, ops);
    StaysActive(ms[1..], ops[1..], name, i - 1);
    assert ms[1..][i - 1] == ms[i] && Healthy(ms[i].entries, name);
    HealthyNamesIff(ms[i].entries, ms[i].order, name);
  }

  // ---- not always the highest priority ----

  /** The order lists endpoints by rank, best first. */
  ghost predicate ByRank(m: Manager)
    requires Known(m.entries, m.order)
  {
    forall i, j | 0 <= i < j < |m.order| :: !Before(m.entries[m.order[j]].ep, m.entries[m.order[i]].ep)
  }

  /** A round, a swap or a pick leaves order and endpoints alone. */
  lemma OpKeepsEndpoints(m: Manager, op: Op)
    requires Allowed(m, op) && !Replaces(op)
    ensures var m' := Apply(m, op);
            && m'.order == m.order && m'.entries.Keys == m.entries.Keys
            && forall n | n in m.entries :: m'.entries[n].ep == m.entries[n].ep
  {
    if op.Check? {
      RoundFrame(m, op.names, op.pings);
    }
  }

  /** The order stays by rank, as long as Reload is given endpoints in that order, as
      UpstreamEndpoints yields them. */
  lemma OpKeepsRank(m: Manager, op: Op)
    requires Coherent(m) && Allowed(m, op) && ByRank(m)
    requires op.Load? ==> ByRank(Commit(m, op.es, op.order, op.strategy, op.health))
    ensures Known(Apply(m, op).entries, Apply(m, op).order) && ByRank(Apply(m, op))
  {
    if !Replaces(op) {
      OpKeepsEndpoints(m, op);
      var m' := Apply(m, op);
      forall i, j | 0 <= i < j < |m'.order|
        ensures m'.order[i] in m'.entries && m'.order[j] in m'.entries
        ensures !Before(m'.entries[m'.order[j]].ep, m'.entries[m'.order[i]].ep)
      {
        assert m.order[i] in m.entries && m.order[j] in m.entries;
      }
    }
  }

  /** No healthy entry ranks before entry `n`. */
  ghost predicate BestHealthy(m: Manager, n: string) {
    Healthy(m.entries, n) && forall o :: Healthy(m.entries, o) ==> !Before(m.entries[o].ep, m.entries[n].ep)
  }

  lemma {:induction false} FirstPlace(es: map<string, Entry>, order: seq<string>) returns (i: nat)
    requires HealthyNames(es, order) != []
    ensures i < |order| && order[i] == HealthyNames(es, order)[0]
    ensures forall j | 0 <= j < i :: !Healthy(es, order[j])
  {
    var n := |order| - 1;
    if HealthyNames(es, order[..n]) == [] {
      i := n;
      forall j | 0 <= j < n
        ensures !Healthy(es, order[j])
      {
        HealthyNamesIff(es, order[..n], order[..n][j]);
      }
    } else {
      i := FirstPlace(es, order[..n]);
    }
  }

  lemma FirstIsBest(m: Manager)
    requires Coherent(m) && ByRank(m) && HealthyNames(m.entries, m.order) != []
    ensures BestHealthy(m, HealthyNames(m.entries, m.order)[0])
  {
    var i := FirstPlace(m.entries, m.order);
    forall o | Healthy(m.entries, o)
      ensures !Before(m.entries[o].ep, m.entries[m.order[i]].ep)
    {
      var j :| 0 <= j < |m.order| && m.order[j] == o;
      BeforeOrder(m.entries[o].ep, m.entries[o].ep, m.entries[o].ep);
    }
  }

  /** Failover picks a healthy upstream of the highest priority if and only if the
      active one is not healthy or has that priority itself. */
  lemma FailoverBestIff(m: Manager)
    requires Coherent(m) && ByRank(m) && m.strategy == Failover && exists n :: Healthy(m.entries, n)
    ensures BestHealthy(m, Pick(m).name) <==> !Healthy(m.entries, m.active) || BestHealthy(m, m.active)
  {
    var n :| Healthy(m.entries, n);
    HealthyNamesIff(m.entries, m.order, n);
    HealthyNamesIff(m.entries, m.order, m.active);
    FirstIsBest(m);
  }

  /** Two entries of which the first one, then healthy, fails and recovers while the
      second one stays healthy. */
  lemma FailAndRecover(m: Manager, a: string, b: string)
    requires m.order == [a, b] && a != b && Healthy(m.entries, a) && Healthy(m.entries, b)
    requires m.active == a && m.health == Thresholds(1, 1)
    requires m.entries[a].recovers == 0
    ensures var m2 := Visit(Visit(m, a, Silent), b, Pong(5));
            var m3 := Visit(Visit(m2, a, Pong(5)), b, Pong(5));
            && m3.active == b && Healthy(m3.entries, a) && Healthy(m3.entries, b)
  {
    var m1 := Visit(m, a, Silent);
    FirstHealthy(m1.entries, m1.order, 1);
  }

  function TwoServers(a: Endpoint, b: Endpoint): Op {
    Load(map[a.name := FreshEntry(0, a, 0), b.name := FreshEntry(1, b, 1)], [a.name, b.name],
         Failover, Thresholds(1, 1))
  }

  lemma TwoServersLoad(a: Endpoint, b: Endpoint)
    requires a.name != b.name && a.name != "" && b.name != "" && a.weight >= 1 && b.weight >= 1 && Before(a, b)
    ensures Allowed(FRESH, TwoServers(a, b))
    ensures Coherent(Apply(FRESH, TwoServers(a, b))) && ByRank(Apply(FRESH, TwoServers(a, b)))
  {
    BeforeOrder(a, b, a);
  }

  lemma CheckTwice(m: Manager, a: string, b: string, fails: Pings, works: Pings)
    requires Coherent(m) && ByRank(m) && m.strategy == Failover && m.order == [a, b] && a != b
    requires Healthy(m.entries, a) && Healthy(m.entries, b) && Before(m.entries[a].ep, m.entries[b].ep)
    requires m.active == a && m.health == Thresholds(1, 1) && m.entries[a].recovers == 0
    requires fails(a) == Silent && fails(b) == works(a) == works(b) == Pong(5)
    ensures var m3 := Round(Round(m, [a, b], fails), [a, b], works);
            && Healthy(m3.entries, a) && m3.strategy == Failover
            && Pick(m3).name == b && !BestHealthy(m3, b)
  {
    var m2 := Round(m, [a, b], fails);
    var m3 := Round(m2, [a, b], works);
    RoundTwo(m, a, b, fails);
    RoundTwo(m2, a, b, works);
    FailAndRecover(m, a, b);
    RoundFrame(m, [a, b], fails);
    RoundFrame(m2, [a, b], works);
    HealthyNamesIff(m3.entries, m3.order, b);
    assert Before(m3.entries[a].ep, m3.entries[b].ep);
  }

  /** The run behind the remark that failover is sticky: the first server fails one
      check, recovers in the next, and traffic stays on the second one, although it is
      not the best healthy one any more. */
  lemma StickyWitness(a: Endpoint, b: Endpoint) returns (ms: seq<Manager>, ops: seq<Op>)
    requires a.name != b.name && a.name != "" && b.name != "" && a.weight >= 1 && b.weight >= 1 && Before(a, b)
    ensures Trace(ms, ops) && ms[0] == FRESH && |ops| == 3
    ensures ms[3].strategy == Failover && Healthy(ms[3].entries, a.name)
    ensures Pick(ms[3]).name == b.name && !BestHealthy(ms[3], b.name)
  {
    var fails: Pings := n => if n == a.name then Silent else Pong(5);
    var works: Pings := n => Pong(5);
    var order := [a.name, b.name];
    TwoServersLoad(a, b);
    var m1 := Apply(FRESH, TwoServers(a, b));
    var m2 := Round(m1, order, fails);
    RoundFrame(m1, order, fails);
    CheckTwice(m1, a.name, b.name, fails, works);
    ms, ops := ThreeOps(FRESH, TwoServers(a, b), Check(order, fails), Check(order, works), m1, m2);
  }

  // ---- least latency ----

  /** The position chosen by latency is the first one with the least latency, unless
      every latency is the largest there is. */
  lemma {:induction false} FastestMeans(es: map<string, Entry>, names: seq<string>, n: nat)
    requires Known(es, names) && n <= |names| && names != []
    ensures var (k, rtt) := Fastest(es, names, n);
            && (forall j | 0 <= j < n :: rtt <= Latency(es[names[j]]))
            && (rtt == MAX_INT64 ==> k == 0)
            && (rtt < MAX_INT64 ==> k < n && rtt == Latency(es[names[k]])
                                    && forall j | 0 <= j < k :: rtt < Latency(es[names[j]]))
  {
    if n == 0 {
    } else {
      FastestMeans(es, names, n - 1);
    }
  }

  /** Least latency routes to a healthy entry that no healthy entry beats. */
  lemma LatencyPick(m: Manager)
    requires Coherent(m) && m.strategy == LeastLatency && exists n :: Healthy(m.entries, n)
    ensures Pick(m).m == m && Healthy(m.entries, Pick(m).name)
    ensures forall n :: Healthy(m.entries, n) ==> Latency(m.entries[Pick(m).name]) <= Latency(m.entries[n])
  {
    var names := HealthyNames(m.entries, m.order);
    var n :| Healthy(m.entries, n);
    HealthyNamesIff(m.entries, m.order, n);
    FastestMeans(m.entries, names, |names|);
    forall o | Healthy(m.entries, o)
      ensures Latency(m.entries[Pick(m).name]) <= Latency(m.entries[o])
    {
      HealthyNamesIff(m.entries, m.order, o);
      var j :| 0 <= j < |names| && names[j] == o;
    }
  }

  /** In terms of what was measured: an upstream chosen without a measurement is beaten by
      nobody measured below a millisecond, and one chosen with a measurement is at most as
      slow as everybody measured and, if somebody was not, as a millisecond. */
  lemma UnmeasuredPick(m: Manager)
    requires Coherent(m) && m.strategy == LeastLatency && exists n :: Healthy(m.entries, n)
    ensures var rtt := m.entries[Pick(m).name].rtt;
            forall n | Healthy(m.entries, n) ::
              if rtt == 0 then m.entries[n].rtt == 0 || 1_000_000 <= m.entries[n].rtt
              else if m.entries[n].rtt == 0 then rtt <= 1_000_000
              else rtt <= m.entries[n].rtt
  {
    LatencyPick(m);
  }
}
