/** Runs in which a CloseUDP does not reach the pool of its OpenUDP, and one in which a
    healthy upstream gets no stream at all. */
module RoutingWitness {
  import opened Options
  import opened Config
  import opened Endpoints
  import opened Text
  import opened Tickets
  import opened Upstreams
  import opened PoolSystem
  import opened PoolRuns
  import opened PoolWitness
  import opened UdpRouting
  import Fairness
  import Selection

  const EAGER := Thresholds(1, 1)

  function Two(a: Endpoint, b: Endpoint): map<string, Entry> {
    map[a.name := FreshEntry(0, a, 10), b.name := FreshEntry(1, b, 11)]
  }

  function Loaded(a: Endpoint, b: Endpoint, strategy: Strategy): Manager {
    Manager(Two(a, b), [a.name, b.name], a.name, 0, strategy, EAGER)
  }

  /** A load of two servers that has dialled the first. */
  lemma FirstDialled(a: Endpoint, b: Endpoint, strategy: Strategy) returns (r: Run)
    requires Plain(a) && Plain(b) && a.name != b.name
    ensures r.Ok() && r.Last().m == FRESH && r.Last().dialled == map[10 := a] && r.Last().nextEntry == 1
    ensures r.Last().threads
         == map[0 := Loading([a, b], 1, map[a.name := FreshEntry(0, a, 10)], [a.name], strategy, EAGER)]
  {
    r := Started();
    r := Extend(r, BeginLoad(0, [a, b], strategy, EAGER));
    r := Extend(r, LoadWorks(0, 10));
    assert [a, b][0] == a && [] + [a.name] == [a.name];
  }

  /** A manager with two servers, loaded from the start. */
  lemma TwoLoaded(a: Endpoint, b: Endpoint, strategy: Strategy) returns (r: Run)
    requires Plain(a) && Plain(b) && a.name != b.name
    ensures r.Ok() && r.Last().m == Loaded(a, b, strategy)
  {
    r := FirstDialled(a, b, strategy);
    r := Extend(r, LoadWorks(0, 11));
    assert [a, b][1] == b && [a.name] + [b.name] == [a.name, b.name];
    assert map[a.name := FreshEntry(0, a, 10)][b.name := FreshEntry(1, b, 11)] == Two(a, b);
    assert r.Last().threads[0] == Loading([a, b], 2, Two(a, b), [a.name, b.name], strategy, EAGER);
    r := Extend(r, CommitLoad(0));
  }

  lemma BothHealthy(m: Manager, a: string, b: string)
    requires m.order == [a, b] && Healthy(m.entries, a) && Healthy(m.entries, b)
    ensures HealthyNames(m.entries, m.order) == [a, b]
  {
    assert [a, b][..1] == [a] && [a][..0] == [];
    assert HealthyNames(m.entries, [a]) == [a];
  }

  /** Of two healthy servers least latency takes the second if it is faster. */
  lemma FasterSecond(m: Manager, a: string, b: string)
    requires m.order == [a, b] && Healthy(m.entries, a) && Healthy(m.entries, b) && m.strategy == LeastLatency
    requires Latency(m.entries[a]) < MAX_INT64
    ensures Pick(m).name == if Latency(m.entries[b]) < Latency(m.entries[a]) then b else a
  {
    BothHealthy(m, a, b);
    var names := [a, b];
    assert Fastest(m.entries, names, 1) == (0, Latency(m.entries[a]));
  }

  /** One health check is enough under least latency: both servers stay healthy, but the
      second one turns out to be faster. */
  lemma LatencyWitness(a: Endpoint, b: Endpoint) returns (r: Run, i: nat)
    requires Plain(a) && Plain(b) && a.name != b.name
    ensures r.Ok() && i + 2 == |r.acts| && r.acts[i] == Act.Route("") && r.acts[i + 1].Check?
    ensures var m := r.Last().m; Healthy(m.entries, a.name) && Healthy(m.entries, b.name)
    ensures !Reaches(r.ss, i, i + 2, "")
  {
    r := TwoLoaded(a, b, LeastLatency);
    i := |r.acts|;
    var names, pings := [a.name, b.name], (n: string) => if n == a.name then Pong(5) else Pong(3);
    var m := r.Last().m;
    FasterSecond(m, a.name, b.name);
    r := Extend(r, Act.Route(""));
    r := Extend(r, Act.Check(names, pings));
    RoundTwo(m, a.name, b.name, pings);
    FasterSecond(r.Last().m, a.name, b.name);
  }

  /** Under round robin over two servers the CloseUDP that comes next goes to the other
      one. */
  lemma RoundRobinWitness(a: Endpoint, b: Endpoint) returns (r: Run, i: nat)
    requires Plain(a) && Plain(b) && a.name != b.name
    ensures r.Ok() && i + 1 == |r.acts| && r.acts[i] == Act.Route("")
    ensures !Reaches(r.ss, i, i + 1, "")
  {
    r := TwoLoaded(a, b, RoundRobin);
    i := |r.acts|;
    BothHealthy(r.Last().m, a.name, b.name);
    r := Extend(r, Act.Route(""));
    BothHealthy(r.Last().m, a.name, b.name);
  }

  lemma OnlyServer(r: Run, i: nat, x: string)
    requires r.Ok() && i < |r.ss| && r.ss[i].m.entries.Keys == {x}
    ensures Pick(r.ss[i].m).name == x && PoolFor(r.ss[i].m, "").0 == Some(r.ss[i].m.entries[x].pool)
  {
    RunKeepsCoherent(r.ss, r.acts, i);
    Selection.RouteSafe(r.ss[i].m, "");
    assert r.ss[i].m.entries != map[] by {
      assert x in r.ss[i].m.entries.Keys;
    }
  }

  /** A stream is opened on the only server, and a reconnect begins. */
  lemma OpenedBefore(ep: Endpoint) returns (r: Run, i: nat)
    requires Plain(ep)
    ensures r.Ok() && i < |r.acts| && r.acts[i] == Act.Route("")
    ensures r.ss[i].m.strategy == Failover && r.ss[i].m.entries == One(ep, 0, 10)
    ensures var s := r.Last();
            && s.m.entries == One(ep, 0, 10) && 12 !in s.dialled && 1 in s.threads && s.threads[1].Dialling?
            && s.threads[1].ep == ep && s.threads[1].name == ep.name
  {
    r := Started();
    r := DialOne(r, 0, ep, 10);
    r := CommitOne(r, 0, ep, 0, 10);
    i := |r.acts|;
    var r1 := Extend(r, Act.Route(""));
    r := StartReconnect(r1, 1, ep, 0, 10);
    assert r.ss[i] == r1.ss[i] && r.acts[i] == r1.acts[i];
  }

  /** And after a reconnect in between the one server there is has another pool. */
  lemma SwapWitness(ep: Endpoint) returns (r: Run, i: nat)
    requires Plain(ep)
    ensures r.Ok() && i < |r.acts| && r.acts[i] == Act.Route("")
    ensures r.ss[i].m.strategy == Failover && r.Last().m.entries.Keys == {ep.name}
    ensures Pick(r.ss[i].m).name == Pick(r.Last().m).name && !Reaches(r.ss, i, |r.acts|, "")
  {
    var r1: Run;
    r1, i := OpenedBefore(ep);
    r := FinishReconnect(r1, 1, ep, 12);
    assert r.ss[i] == r1.ss[i] && r.acts[i] == r1.acts[i];
    OnlyServer(r, i, ep.name);
    OnlyServer(r, |r.acts|, ep.name);
  }

  /** A weight of 2^32 leaves the server behind it without any ticket. */
  lemma NeverChosenWitness(a: Endpoint, b: Endpoint) returns (r: Run)
    requires Plain(a) && Plain(b) && a.name != b.name && a.weight == SPAN && b.weight == 1
    ensures r.Ok() && var m := r.Last().m;
            && m.strategy == Weighted && Healthy(m.entries, b.name)
            && !Fairness.ChosenBySome(m, b.name)
  {
    r := TwoLoaded(a, b, Weighted);
    var m, names := r.Last().m, [a.name, b.name];
    BothHealthy(m, a.name, b.name);
    assert m.entries[names[0]].ep.weight == SPAN && m.entries[names[1]].ep.weight == 1;
    assert Fairness.Sum(m.entries, names, 1) == Fairness.Sum(m.entries, names, 0) + SPAN == SPAN;
    assert Fairness.Sum(m.entries, names, 2) == Fairness.Sum(m.entries, names, 1) + 1;
    Fairness.WeightedReachIff(m, names, 1);
  }
}
