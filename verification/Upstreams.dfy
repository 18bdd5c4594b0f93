/** The upstream manager's state and what each of its locked regions does to it, on
    values (upstream/manager.go). */
module Upstreams {
  import opened Options
  import opened Text
  import opened Tickets
  import opened Config
  import opened Endpoints

  /** Stands for a *tunnelpool.Pool. */
  type PoolId = nat

  /** An entry of the manager; `id` stands for the address of the entry object. */
  datatype Entry = Entry(id: nat, ep: Endpoint, pool: PoolId, healthy: bool, failures: nat, recovers: nat, rtt: Int)

  /** The entry Reload or NewManager makes for an endpoint. */
  function FreshEntry(id: nat, ep: Endpoint, pool: PoolId): Entry {
    Entry(id, ep, pool, true, 0, 0, 0)
  }

  datatype Strategy = Failover | RoundRobin | Weighted | LeastLatency

  datatype Thresholds = Thresholds(fail: Int, recover: Int)

  datatype Manager = Manager(entries: map<string, Entry>, order: seq<string>, active: string, rrIdx: Ticket,
                             strategy: Strategy, health: Thresholds)

  // ---- settings ----

  function NormalizedStrategy(strategy: string): Strategy {
    var s := Lower(Trim(strategy));
    if s == "round_robin" || s == "round-robin" then RoundRobin
    else if s == "weighted" || s == "weight" then Weighted
    else if s == "least_latency" || s == "least-latency" || s == "latency" then LeastLatency
    else Failover
  }

  function StrategyOf(u: Option<Upstream>): Strategy {
    match u case None => Failover case Some(v) => NormalizedStrategy(v.strategy)
  }

  /** Thresholds below one are replaced by 3 and 2. */
  function HealthSettings(u: Option<Upstream>): (t: Thresholds)
    ensures t.fail >= 1 && t.recover >= 1
  {
    match u
    case None => Thresholds(3, 2)
    case Some(v) => Thresholds(if v.failThreshold < 1 then 3 else v.failThreshold,
                               if v.recoverThreshold < 1 then 2 else v.recoverThreshold)
  }

  // ---- healthy entries ----

  predicate Healthy(es: map<string, Entry>, name: string) {
    name in es && es[name].healthy
  }

  /** healthyNamesLocked. */
  function HealthyNames(es: map<string, Entry>, order: seq<string>): (names: seq<string>)
    ensures forall k | 0 <= k < |names| :: Healthy(es, names[k])
    ensures |names| <= |order|
  {
    if order == [] then []
    else
      var rest := HealthyNames(es, order[..|order| - 1]);
      if Healthy(es, order[|order| - 1]) then rest + [order[|order| - 1]] else rest
  }

  predicate Known(es: map<string, Entry>, names: seq<string>) {
    forall k | 0 <= k < |names| :: names[k] in es
  }

  // ---- the four strategies ----

  /** The weights added up in Go's int. */
  function Total(es: map<string, Entry>, names: seq<string>): Int
    requires Known(es, names)
  {
    if names == [] then 0 else Add(Total(es, names[..|names| - 1]), es[names[|names| - 1]].ep.weight)
  }

  /** Go's remainder of a ticket, which keeps the ticket's sign. */
  function Rem(t: Ticket, total: Int): nat
    requires total != 0
  {
    t % (if total < 0 then 0 - total else total)
  }

  /** The position at which the walk over the weights stops, from position `k` on with
      `i` left; the number of names if it falls through. */
  function Walk(es: map<string, Entry>, names: seq<string>, k: nat, i: int): (r: nat)
    requires Known(es, names) && k <= |names|
    ensures k <= r <= |names|
    decreases |names| - k
  {
    if k == |names| then k
    else if i < es[names[k]].ep.weight then k
    else Walk(es, names, k + 1, i - es[names[k]].ep.weight)
  }

  function WalkName(es: map<string, Entry>, names: seq<string>, i: int): string
    requires Known(es, names) && names != []
  {
    var k := Walk(es, names, 0, i);
    if k == |names| then names[0] else names[k]
  }

  /** An unmeasured entry counts as one millisecond. */
  function Latency(e: Entry): Int {
    if e.rtt == 0 then 1_000_000 else e.rtt
  }

  /** The best position and latency among the first `n` names. */
  function Fastest(es: map<string, Entry>, names: seq<string>, n: nat): (r: (nat, Int))
    requires Known(es, names) && n <= |names| && names != []
    ensures r.0 < |names|
  {
    if n == 0 then (0, MAX_INT64)
    else
      var best := Fastest(es, names, n - 1);
      var rtt := Latency(es[names[n - 1]]);
      if rtt < best.1 then (n - 1, rtt) else best
  }

  datatype Choice = Choice(name: string, m: Manager)

  function Draw(m: Manager): Manager {
    m.(rrIdx := After(m.rrIdx, 1))
  }

  /** pickLocked. */
  function Pick(m: Manager): Choice {
    var names := HealthyNames(m.entries, m.order);
    if names == [] then Choice(m.active, m)
    else match m.strategy
         case RoundRobin => Choice(names[m.rrIdx % |names|], Draw(m))
         case Weighted =>
           var total := Total(m.entries, names);
           if total == 0 then Choice(names[0], m)
           else Choice(WalkName(m.entries, names, Rem(m.rrIdx, total)), Draw(m))
         case LeastLatency => Choice(names[Fastest(m.entries, names, |names|).0], m)
         case Failover => if m.active in names then Choice(m.active, m) else Choice(names[0], m.(active := names[0]))
  }

  /** The entry poolFor routes to, if any. */
  function Route(m: Manager, bind: string): Choice {
    if bind != "" && Healthy(m.entries, bind) then Choice(bind, m) else Pick(m)
  }

  function PoolFor(m: Manager, bind: string): (Option<PoolId>, Manager) {
    var c := Route(m, bind);
    (if c.name in c.m.entries then Some(c.m.entries[c.name].pool) else None, c.m)
  }

  // ---- health checks ----

  datatype Ping = Silent | Pong(rtt: Int)

  /** What one ping does to an entry. */
  function Observe(e: Entry, p: Ping, t: Thresholds): Entry {
    match p
    case Silent => e.(failures := e.failures + 1, recovers := 0, healthy := e.healthy && e.failures + 1 < t.fail)
    case Pong(rtt) =>
      if e.healthy then e.(rtt := rtt, failures := 0)
      else if e.recovers + 1 >= t.recover then e.(rtt := rtt, failures := 0, recovers := 0, healthy := true)
      else e.(rtt := rtt, failures := 0, recovers := e.recovers + 1)
  }

  /** failoverLocked: the first healthy name, or the active one if there is none. */
  function FailoverTo(es: map<string, Entry>, order: seq<string>, active: string): string {
    var names := HealthyNames(es, order);
    if names == [] then active else names[0]
  }

  /** The iteration of runHealthCheck for one name. */
  function Visit(m: Manager, name: string, p: Ping): Manager {
    if name !in m.entries then m
    else
      var e := Observe(m.entries[name], p, m.health);
      var m' := m.(entries := m.entries[name := e]);
      if m.entries[name].healthy && !e.healthy && m.active == name
      then m'.(active := FailoverTo(m'.entries, m'.order, m'.active)) else m'
  }

  type Pings = string -> Ping

  /** runHealthCheck, iterating over `names`. */
  function Round(m: Manager, names: seq<string>, pings: Pings): Manager {
    if names == [] then m
    else
      var n := names[|names| - 1];
      Visit(Round(m, names[..|names| - 1], pings), n, pings(n))
  }

  predicate Distinct(names: seq<string>) {
    forall i, j | 0 <= i < j < |names| :: names[i] != names[j]
  }

  /** `names` lists a map's keys, each once, in some order. */
  predicate Iterates(names: seq<string>, keys: set<string>) {
    && (forall i | 0 <= i < |names| :: names[i] in keys)
    && (forall n | n in keys :: n in names)
    && Distinct(names)
  }

  // ---- reconnect, Reload and Close ----

  /** The locked end of a successful reconnect. */
  function Swap(m: Manager, name: string, pool: PoolId): Manager
    requires name in m.entries
  {
    var e := m.entries[name].(pool := pool, healthy := true, failures := 0, recovers := 0);
    var m' := m.(entries := m.entries[name := e]);
    if m'.active == "" || !Healthy(m'.entries, m'.active) then m'.(active := name) else m'
  }

  /** The locked end of Reload, and likewise what NewManager builds. */
  function Commit(m: Manager, es: map<string, Entry>, order: seq<string>, strategy: Strategy,
                  health: Thresholds): Manager
  {
    m.(entries := es, order := order, strategy := strategy, health := health,
       active := if order == [] then m.active else order[0])
  }

  function Shut(m: Manager): Manager {
    m.(entries := map[], order := [])
  }

  const FRESH := Manager(map[], [], "", 0, Failover, Thresholds(3, 2))

  /** The locked regions of the manager. */
  datatype Op =
    | Use(bind: string)
    | Check(names: seq<string>, pings: Pings)
    | Install(name: string, pool: PoolId)
    | Load(es: map<string, Entry>, order: seq<string>, strategy: Strategy, health: Thresholds)
    | CloseAll

  /** What Dial's loop over the endpoints builds before Reload takes the lock. */
  predicate Loadable(es: map<string, Entry>, order: seq<string>) {
    && order != [] && Known(es, order) && "" !in es
    && (forall n | n in es :: n in order && es[n].healthy && es[n].ep.name == n && es[n].ep.weight >= 1
                              && es[n].failures == 0 && es[n].recovers == 0 && es[n].rtt == 0)
  }

  predicate Allowed(m: Manager, op: Op) {
    match op
    case Use(_) => true
    case Check(names, _) => Iterates(names, m.entries.Keys)
    case Install(name, _) => name in m.entries
    case Load(es, order, _, health) => Loadable(es, order) && health.fail >= 1 && health.recover >= 1
    case CloseAll => true
  }

  function Apply(m: Manager, op: Op): Manager
    requires Allowed(m, op)
  {
    match op
    case Use(bind) => Route(m, bind).m
    case Check(names, pings) => Round(m, names, pings)
    case Install(name, pool) => Swap(m, name, pool)
    case Load(es, order, strategy, health) => Commit(m, es, order, strategy, health)
    case CloseAll => Shut(m)
  }

  // ---- every reachable state ----

  predicate Positive(t: Thresholds) {
    t.fail >= 1 && t.recover >= 1
  }

  /** The order lists the entries and nothing else, the active name is one of them
      unless there are none, no name is empty, and weights and thresholds are positive. */
  predicate Coherent(m: Manager) {
    && Known(m.entries, m.order) && "" !in m.entries
    && (forall n | n in m.entries :: n in m.order && m.entries[n].ep.name == n && m.entries[n].ep.weight >= 1)
    && (m.entries != map[] ==> m.active in m.entries)
    && Positive(m.health)
  }

  lemma {:induction false} HealthyNamesIff(es: map<string, Entry>, order: seq<string>, name: string)
    ensures name in HealthyNames(es, order) <==> name in order && Healthy(es, name)
  {
    if order == [] {
    } else {
      HealthyNamesIff(es, order[..|order| - 1], name);
      assert order == order[..|order| - 1] + [order[|order| - 1]];
    }
  }

  /** What a scan in order meets first is the first of the healthy names. */
  lemma {:induction false} FirstHealthy(es: map<string, Entry>, order: seq<string>, i: nat)
    requires i < |order| && Healthy(es, order[i]) && forall j | 0 <= j < i :: !Healthy(es, order[j])
    ensures HealthyNames(es, order) != [] && HealthyNames(es, order)[0] == order[i]
  {
    var n := |order| - 1;
    if i < n {
      FirstHealthy(es, order[..n], i);
    } else {
      NoneHealthy(es, order[..n]);
    }
  }

  lemma {:induction false} NoneHealthy(es: map<string, Entry>, order: seq<string>)
    requires forall j | 0 <= j < |order| :: !Healthy(es, order[j])
    ensures HealthyNames(es, order) == []
  {
    if order == [] {
    } else {
      NoneHealthy(es, order[..|order| - 1]);
    }
  }

  /** `r` differs from `m` only in what pings observe and in the active name. */
  predicate SameFrame(m: Manager, r: Manager) {
    && r.(entries := m.entries, active := m.active) == m
    && r.entries.Keys == m.entries.Keys
    && (forall n | n in m.entries :: r.entries[n].id == m.entries[n].id && r.entries[n].ep == m.entries[n].ep
                                     && r.entries[n].pool == m.entries[n].pool)
    && (m.active in m.entries ==> r.active in m.entries)
  }

  lemma VisitFrame(m: Manager, n: string, p: Ping)
    ensures SameFrame(m, Visit(m, n, p))
  {
  }

  /** Only the fields a ping observes change in a round, and only the active name. */
  lemma {:induction false} RoundFrame(m: Manager, names: seq<string>, pings: Pings)
    ensures SameFrame(m, Round(m, names, pings))
  {
    if names == [] {
    } else {
      var k := |names| - 1;
      RoundFrame(m, names[..k], pings);
      VisitFrame(Round(m, names[..k], pings), names[k], pings(names[k]));
    }
  }

  lemma RoundSnoc(m: Manager, names: seq<string>, n: string, pings: Pings)
    ensures Round(m, names + [n], pings) == Visit(Round(m, names, pings), n, pings(n))
  {
    assert (names + [n])[..|names|] == names;
  }

  /** An iteration goes on with any key that is left. */
  lemma IteratesSnoc(names: seq<string>, keys: set<string>, todo: set<string>, n: string)
    requires Iterates(names, keys - todo) && todo <= keys && n in todo
    ensures Iterates(names + [n], keys - (todo - {n}))
  {
  }

  lemma RoundTwo(m: Manager, a: string, b: string, pings: Pings)
    ensures Round(m, [a, b], pings) == Visit(Visit(m, a, pings(a)), b, pings(b))
  {
    assert [a, b][..1] == [a] && [a][..0] == [];
    assert Round(m, [a], pings) == Visit(m, a, pings(a));
  }

  lemma OpKeepsCoherent(m: Manager, op: Op)
    requires Coherent(m) && Allowed(m, op)
    ensures Coherent(Apply(m, op))
  {
    if op.Check? {
      RoundFrame(m, op.names, op.pings);
    }
  }
}
