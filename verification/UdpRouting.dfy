/** To which pool the end of a UDP stream is reported: OpenUDP and the CloseUDP that
    belongs to it are routed apart, each by a poolFor of its own, and anything may happen
    in between (upstream/manager.go). */
module UdpRouting {
  import opened Options
  import opened Text
  import opened Tickets
  import opened Upstreams
  import opened Ledger
  import opened PoolSystem
  import opened PoolInvariants
  import opened PoolRuns
  import Fairness
  import Selection

  // ---- what becomes of an installed pool ----

  /** The step takes the pool of entry `x` out of it. */
  predicate TakesOut(s: Sys, a: Act, x: string)
    requires Can(s, a)
  {
    a.CommitLoad? || a.CloseManager? || (a.SwapIn? && s.threads[a.t].name == x)
  }

  /** Between states `i` and `k` a reload commits, the manager is closed or a reconnect
      swaps a pool into entry `x`. */
  ghost predicate Replaced(ss: seq<Sys>, acts: seq<Act>, i: nat, k: nat, x: string)
    requires |ss| == |acts| + 1 && k < |ss|
  {
    exists j: nat {:trigger StepAt(ss, acts, j)} :: i <= j < k && StepAt(ss, acts, j) && TakesOut(ss[j], acts[j], x)
  }

  /** Goroutine `t` is about to close pool `p`. */
  predicate Due(s: Sys, t: Tid, n: string, p: PoolId) {
    && t in s.threads && (s.threads[t].Disposing? || s.threads[t].Closing?)
    && n in Held(s.threads[t]) && Held(s.threads[t])[n] == p
  }

  ghost predicate Retired(s: Sys, p: PoolId) {
    p in s.closed || exists t: Tid, n :: Due(s, t, n, p)
  }

  lemma DueIsClosed(s: Sys, a: Act, t: Tid, n: string, p: PoolId)
    requires Can(s, a) && Due(s, t, n, p) && Actor(a) == Some(t)
    ensures p in Do(s, a).closed || Due(Do(s, a), t, n, p)
  {
  }

  lemma RetiredStays(s: Sys, a: Act, p: PoolId)
    requires Can(s, a) && Retired(s, p)
    ensures Retired(Do(s, a), p)
  {
    if p in s.closed {
      ClosedGrows(s, a);
    } else {
      var t: Tid, n :| Due(s, t, n, p);
      if Actor(a) == Some(t) {
        DueIsClosed(s, a, t, n, p);
      } else {
        OthersStay(s, a, t);
        assert Due(Do(s, a), t, n, p);
      }
    }
  }

  lemma ClosedGrows(s: Sys, a: Act)
    requires Can(s, a)
    ensures forall p :: p in s.closed ==> p in Do(s, a).closed
  {
  }

  lemma TakenOut(s: Sys, a: Act, x: string)
    requires Can(s, a) && TakesOut(s, a, x) && x in s.m.entries
    ensures Retired(Do(s, a), s.m.entries[x].pool)
  {
    assert Due(Do(s, a), a.t, x, s.m.entries[x].pool);
  }

  /** Any other step leaves the entry its pool and the manager its order and strategy. */
  lemma StepKeepsPool(s: Sys, a: Act, x: string)
    requires Can(s, a) && !TakesOut(s, a, x) && x in s.m.entries
    ensures var r := Do(s, a);
            && x in r.m.entries && r.m.entries[x].pool == s.m.entries[x].pool
            && r.m.order == s.m.order && r.m.strategy == s.m.strategy
  {
    if a.Check? {
      RoundFrame(s.m, a.names, a.pings);
    } else if !a.Route? && !a.SwapIn? {
      ManagerUntouched(s, a);
    }
  }

  lemma ReplacedStep(ss: seq<Sys>, acts: seq<Act>, i: nat, k: nat, x: string)
    requires Runs(ss, acts) && i < k < |ss| && StepAt(ss, acts, k - 1)
    ensures Replaced(ss, acts, i, k, x) <==> Replaced(ss, acts, i, k - 1, x) || TakesOut(ss[k - 1], acts[k - 1], x)
  {
  }

  /** What has become by state `s` of the pool that entry `x` of `m` held. */
  ghost predicate Fate(m: Manager, x: string, replaced: bool, s: Sys)
    requires x in m.entries
  {
    if replaced then Retired(s, m.entries[x].pool)
    else && x in s.m.entries && s.m.entries[x].pool == m.entries[x].pool
         && s.m.order == m.order && s.m.strategy == m.strategy
  }

  lemma FateStep(m: Manager, x: string, replaced: bool, s: Sys, a: Act)
    requires Can(s, a) && x in m.entries && Fate(m, x, replaced, s)
    ensures Fate(m, x, replaced || TakesOut(s, a, x), Do(s, a))
  {
    if replaced {
      RetiredStays(s, a, m.entries[x].pool);
    } else if TakesOut(s, a, x) {
      TakenOut(s, a, x);
    } else {
      StepKeepsPool(s, a, x);
    }
  }

  /** A pool that is installed at one moment is found in its entry later on, or it was
      taken out and is closed or about to be. */
  lemma {:induction false} PoolFate(ss: seq<Sys>, acts: seq<Act>, i: nat, k: nat, x: string)
    requires Runs(ss, acts) && i <= k < |ss| && x in ss[i].m.entries
    ensures Fate(ss[i].m, x, Replaced(ss, acts, i, k, x), ss[k])
  {
    if i == k {
    } else {
      PoolFate(ss, acts, i, k - 1, x);
      assert StepAt(ss, acts, k - 1);
      ReplacedStep(ss, acts, i, k, x);
      FateStep(ss[i].m, x, Replaced(ss, acts, i, k - 1, x), ss[k - 1], acts[k - 1]);
    }
  }

  lemma RetiredIsOut(ss: seq<Sys>, acts: seq<Act>, k: nat, p: PoolId)
    requires Runs(ss, acts) && k < |ss| && Retired(ss[k], p)
    ensures forall n | n in ss[k].m.entries :: ss[k].m.entries[n].pool != p
  {
    var s := ss[k];
    InstalledIsOpen(ss, acts, k);
    if t: Tid, n :| Due(s, t, n, p) {
      assert n in Holds(s, t) && Holds(s, t)[n] == p;
    }
  }

  // ---- the pool of the second call ----

  /** A CloseUDP at state `k` gets the pool that an OpenUDP got at state `i`; both have
      the binding `bind`. */
  predicate Reaches(ss: seq<Sys>, i: nat, k: nat, bind: string)
    requires i < |ss| && k < |ss|
  {
    PoolFor(ss[k].m, bind).0 == PoolFor(ss[i].m, bind).0
  }

  /** In every run, whatever happens between the two calls: they get one pool if and only
      if they are routed to one name and that entry's pool is not taken out in between. */
  lemma SamePoolIff(ss: seq<Sys>, acts: seq<Act>, i: nat, k: nat, bind: string)
    requires Runs(ss, acts) && i <= k < |ss| && ss[i].m.entries != map[]
    ensures var x := Upstreams.Route(ss[i].m, bind).name;
            Reaches(ss, i, k, bind)
            <==> Upstreams.Route(ss[k].m, bind).name == x && !Replaced(ss, acts, i, k, x)
  {
    var x := Upstreams.Route(ss[i].m, bind).name;
    RunKeepsCoherent(ss, acts, i);
    RunKeepsCoherent(ss, acts, k);
    Selection.RouteSafe(ss[i].m, bind);
    Selection.RouteSafe(ss[k].m, bind);
    PoolFate(ss, acts, i, k, x);
    InstalledIsOpen(ss, acts, k);
    if Replaced(ss, acts, i, k, x) {
      RetiredIsOut(ss, acts, k, ss[i].m.entries[x].pool);
    }
  }

  ghost predicate NobodyHealthy(m: Manager) {
    forall n :: !Healthy(m.entries, n)
  }

  /** For unbound traffic it is left to say which name the pick at the end chooses. */
  lemma UnboundReturns(ss: seq<Sys>, acts: seq<Act>, i: nat, k: nat)
    requires Runs(ss, acts) && i <= k < |ss| && ss[i].m.entries != map[]
    ensures var (x, m) := (Pick(ss[i].m).name, ss[k].m);
            && (!Replaced(ss, acts, i, k, x) ==> m.strategy == ss[i].m.strategy && m.order == ss[i].m.order)
            && (Reaches(ss, i, k, "") <==> !Replaced(ss, acts, i, k, x) && Pick(m).name == x)
            && (NobodyHealthy(m) ==> Pick(m).name == m.active)
            && (NobodyHealthy(m) <==> HealthyNames(m.entries, m.order) == [])
            && Fairness.Weighty(m.entries, HealthyNames(m.entries, m.order))
  {
    var x := Pick(ss[i].m).name;
    SamePoolIff(ss, acts, i, k, "");
    RunKeepsCoherent(ss, acts, i);
    RunKeepsCoherent(ss, acts, k);
    Selection.RouteSafe(ss[i].m, "");
    Selection.NoneHealthyIff(ss[k].m);
    PoolFate(ss, acts, i, k, x);
  }

  /** Bound traffic: a stream opened on its own upstream is closed there if and only if
      the pool is not taken out of that entry and, when it ends, the upstream is healthy,
      or nobody is and it happens to be the active one. */
  lemma BoundReturnsIff(ss: seq<Sys>, acts: seq<Act>, i: nat, k: nat, bind: string)
    requires Runs(ss, acts) && i <= k < |ss| && bind != "" && Healthy(ss[i].m.entries, bind)
    ensures PoolFor(ss[i].m, bind).0 == Some(ss[i].m.entries[bind].pool)
    ensures var m := ss[k].m;
            Reaches(ss, i, k, bind)
            <==> && !Replaced(ss, acts, i, k, bind)
                 && (Healthy(m.entries, bind) || (NobodyHealthy(m) && m.active == bind))
  {
    RunKeepsCoherent(ss, acts, k);
    SamePoolIff(ss, acts, i, k, bind);
    Selection.RouteSafe(ss[k].m, bind);
  }

  // ---- failover ----

  /** Everybody before `x` in order is unhealthy. */
  ghost predicate Leads(m: Manager, x: string) {
    exists p: nat :: p < |m.order| && m.order[p] == x && forall j | 0 <= j < p :: !Healthy(m.entries, m.order[j])
  }

  lemma LeadsIff(m: Manager, x: string)
    requires Healthy(m.entries, x) && HealthyNames(m.entries, m.order) != []
    ensures Leads(m, x) <==> HealthyNames(m.entries, m.order)[0] == x
  {
    if Leads(m, x) {
      var p: nat :| p < |m.order| && m.order[p] == x && forall j | 0 <= j < p :: !Healthy(m.entries, m.order[j]);
      FirstHealthy(m.entries, m.order, p);
    }
    var p := Selection.FirstPlace(m.entries, m.order);
    assert m.order[p] == HealthyNames(m.entries, m.order)[0];
  }

  /** Under failover: if and only if the upstream is then the active one, healthy unless
      nobody is, or the first healthy one while the active one is not healthy. */
  lemma FailoverReturnsIff(ss: seq<Sys>, acts: seq<Act>, i: nat, k: nat)
    requires Runs(ss, acts) && i <= k < |ss| && ss[i].m.entries != map[] && ss[i].m.strategy == Failover
    ensures var (x, m) := (Pick(ss[i].m).name, ss[k].m);
            Reaches(ss, i, k, "")
            <==> && !Replaced(ss, acts, i, k, x)
                 && if m.active == x then Healthy(m.entries, x) || NobodyHealthy(m)
                    else Healthy(m.entries, x) && !Healthy(m.entries, m.active) && Leads(m, x)
  {
    var x, m := Pick(ss[i].m).name, ss[k].m;
    var names := HealthyNames(m.entries, m.order);
    UnboundReturns(ss, acts, i, k);
    RunKeepsCoherent(ss, acts, k);
    HealthyNamesIff(m.entries, m.order, m.active);
    HealthyNamesIff(m.entries, m.order, x);
    if Healthy(m.entries, x) {
      LeadsIff(m, x);
    }
  }

  lemma StepSticks(s: Sys, a: Act, x: string)
    requires LoadsOk(s) && Can(s, a) && Coherent(s.m) && s.m.strategy == Failover && s.m.active == x
    requires !TakesOut(s, a, x) && Healthy(s.m.entries, x) && Healthy(Do(s, a).m.entries, x)
    ensures Do(s, a).m.active == x
  {
    StepIsOp(s, a);
    if OpOf(s, a).Some? {
      Selection.OpKeepsActive(s.m, OpOf(s, a).value, x);
    }
  }

  lemma {:induction false} ActiveSticks(ss: seq<Sys>, acts: seq<Act>, i: nat, k: nat, x: string)
    requires Runs(ss, acts) && i <= k < |ss| && ss[i].m.strategy == Failover && ss[i].m.active == x
    requires forall j | i <= j <= k :: Healthy(ss[j].m.entries, x)
    requires !Replaced(ss, acts, i, k, x)
    ensures ss[k].m.active == x && ss[k].m.strategy == Failover
  {
    if i == k {
    } else {
      assert StepAt(ss, acts, k - 1);
      ReplacedStep(ss, acts, i, k, x);
      ActiveSticks(ss, acts, i, k - 1, x);
      RunLoads(ss, acts, k - 1);
      RunKeepsCoherent(ss, acts, k - 1);
      assert Healthy(ss[k - 1].m.entries, x) && Healthy(ss[k].m.entries, x);
      StepSticks(ss[k - 1], acts[k - 1], x);
      StepKeepsPool(ss[k - 1], acts[k - 1], x);
    }
  }

  /** So it does as long as the upstream stays healthy and keeps its pool. */
  lemma FailoverReturns(ss: seq<Sys>, acts: seq<Act>, i: nat, k: nat)
    requires Runs(ss, acts) && i < k < |ss| && ss[i].m.strategy == Failover && acts[i] == Act.Route("")
    requires var x := Pick(ss[i].m).name;
             !Replaced(ss, acts, i, k, x) && forall j | i <= j <= k :: Healthy(ss[j].m.entries, x)
    ensures Reaches(ss, i, k, "")
  {
    var x := Pick(ss[i].m).name;
    assert StepAt(ss, acts, i) && Healthy(ss[i].m.entries, x);
    assert ss[i + 1].m.active == x && ss[i + 1].m.strategy == Failover by {
      RunKeepsCoherent(ss, acts, i);
      HealthyNamesIff(ss[i].m.entries, ss[i].m.order, x);
    }
    assert !Replaced(ss, acts, i + 1, k, x);
    ActiveSticks(ss, acts, i + 1, k, x);
    FailoverReturnsIff(ss, acts, i, k);
  }

  // ---- least latency ----

  /** `x` is the first of the healthy names with the least latency. */
  ghost predicate Unbeaten(m: Manager, x: string) {
    exists p: nat :: FirstFastest(m, p, x)
  }

  ghost predicate FirstFastest(m: Manager, p: nat, x: string) {
    var names := HealthyNames(m.entries, m.order);
    && p < |names| && names[p] == x
    && (forall j | 0 <= j < |names| :: Latency(m.entries[x]) <= Latency(m.entries[names[j]]))
    && (forall j | 0 <= j < p :: Latency(m.entries[x]) < Latency(m.entries[names[j]]))
  }

  lemma FastestIff(m: Manager, x: string)
    requires m.strategy == LeastLatency && HealthyNames(m.entries, m.order) != []
    ensures Pick(m).name == x <==> Unbeaten(m, x)
  {
    var names := HealthyNames(m.entries, m.order);
    var q := Fastest(m.entries, names, |names|).0;
    Selection.FastestMeans(m.entries, names, |names|);
    assert FirstFastest(m, q, names[q]);
    if p: nat :| FirstFastest(m, p, x) {
      assert p == q;
    }
  }

  /** Under least latency: if and only if no healthy upstream then beats the upstream, or
      equals it and comes before it in order. */
  lemma LatencyReturnsIff(ss: seq<Sys>, acts: seq<Act>, i: nat, k: nat)
    requires Runs(ss, acts) && i <= k < |ss| && ss[i].m.entries != map[] && ss[i].m.strategy == LeastLatency
    ensures var (x, m) := (Pick(ss[i].m).name, ss[k].m);
            Reaches(ss, i, k, "")
            <==> && !Replaced(ss, acts, i, k, x)
                 && if NobodyHealthy(m) then m.active == x else Unbeaten(m, x)
  {
    var x, m := Pick(ss[i].m).name, ss[k].m;
    UnboundReturns(ss, acts, i, k);
    if m.strategy == LeastLatency && HealthyNames(m.entries, m.order) != [] {
      FastestIff(m, x);
    }
  }

  // ---- tickets ----

  /** The step is a call that draws a ticket. */
  predicate Draws(m: Manager, a: Act) {
    var names := HealthyNames(m.entries, m.order);
    && a.Route? && !(a.bind != "" && Healthy(m.entries, a.bind)) && names != []
    && (m.strategy == RoundRobin || (m.strategy == Weighted && Total(m.entries, names) != 0))
  }

  /** How many calls draw a ticket between states `i` and `k`. */
  function Drawn(ss: seq<Sys>, acts: seq<Act>, i: nat, k: nat): nat
    requires |ss| == |acts| + 1 && i <= k < |ss|
  {
    if i == k then 0 else Drawn(ss, acts, i, k - 1) + if Draws(ss[k - 1].m, acts[k - 1]) then 1 else 0
  }

  lemma StepDraws(s: Sys, a: Act)
    requires Can(s, a)
    ensures Do(s, a).m.rrIdx == if Draws(s.m, a) then After(s.m.rrIdx, 1) else s.m.rrIdx
  {
    if a.Check? {
      RoundFrame(s.m, a.names, a.pings);
    } else if !a.Route? && !a.SwapIn? && !a.CommitLoad? {
      ManagerUntouched(s, a);
    }
  }

  /** Nothing but these calls moves the counter, in any run. */
  lemma {:induction false} RunDraws(ss: seq<Sys>, acts: seq<Act>, i: nat, k: nat)
    requires Runs(ss, acts) && i <= k < |ss|
    ensures ss[k].m.rrIdx == After(ss[i].m.rrIdx, Drawn(ss, acts, i, k))
  {
    if i == k {
    } else {
      RunDraws(ss, acts, i, k - 1);
      assert StepAt(ss, acts, k - 1);
      StepDraws(ss[k - 1], acts[k - 1]);
      Fairness.AfterStep(ss[i].m.rrIdx, Drawn(ss, acts, i, k - 1) + 1);
    }
  }

  lemma {:induction false} DrawnSplit(ss: seq<Sys>, acts: seq<Act>, i: nat, j: nat, k: nat)
    requires |ss| == |acts| + 1 && i <= j <= k < |ss|
    ensures Drawn(ss, acts, i, k) == Drawn(ss, acts, i, j) + Drawn(ss, acts, j, k)
  {
    if j == k {
    } else {
      DrawnSplit(ss, acts, i, j, k - 1);
    }
  }

  // ---- round robin ----

  /** Under round robin: if and only if the healthy names that are then there have the
      upstream at the position of the ticket that is then due. */
  lemma RoundRobinReturnsIff(ss: seq<Sys>, acts: seq<Act>, i: nat, k: nat)
    requires Runs(ss, acts) && i <= k < |ss| && ss[i].m.entries != map[] && ss[i].m.strategy == RoundRobin
    ensures var (x, m) := (Pick(ss[i].m).name, ss[k].m);
            var names := HealthyNames(m.entries, m.order);
            Reaches(ss, i, k, "")
            <==> && !Replaced(ss, acts, i, k, x)
                 && if NobodyHealthy(m) then m.active == x
                    else names != [] && names[After(ss[i].m.rrIdx, Drawn(ss, acts, i, k)) % |names|] == x
  {
    UnboundReturns(ss, acts, i, k);
    RunDraws(ss, acts, i, k);
  }

  /** If the healthy names are the same at both moments and the counter does not wrap in
      between: if and only if the calls that drew a ticket in between, the OpenUDP among
      them, are a multiple of the healthy upstreams. */
  lemma RoundRobinReturns(ss: seq<Sys>, acts: seq<Act>, i: nat, k: nat, names: seq<string>)
    requires Runs(ss, acts) && DistinctLoads(acts) && i <= k < |ss| && ss[i].m.strategy == RoundRobin
    requires names == HealthyNames(ss[i].m.entries, ss[i].m.order) == HealthyNames(ss[k].m.entries, ss[k].m.order)
    requires names != [] && ss[i].m.rrIdx + Drawn(ss, acts, i, k) < SPAN
    ensures var d := Drawn(ss, acts, i, k);
            Reaches(ss, i, k, "") <==> !Replaced(ss, acts, i, k, Pick(ss[i].m).name) && d % |names| == 0
  {
    var n, t, d := |names|, ss[i].m.rrIdx, Drawn(ss, acts, i, k);
    assert Healthy(ss[i].m.entries, names[0]);
    RoundRobinReturnsIff(ss, acts, i, k);
    UnboundReturns(ss, acts, i, k);
    RunOrderDistinct(ss, acts, i);
    Fairness.HealthyDistinct(ss[i].m.entries, ss[i].m.order);
    AfterIs(t, d);
    RemainderReturns(t, d, n);
    assert names[(t + d) % n] == names[t % n] <==> (t + d) % n == t % n;
  }

  lemma RemainderReturns(t: nat, d: nat, n: nat)
    requires n > 0
    ensures (t + d) % n == t % n <==> d % n == 0
  {
    RemainderAdds(t, t / n, t % n, d, d / n, d % n, n);
  }

  lemma RemainderAdds(t: nat, q: nat, k: nat, d: nat, p: nat, l: nat, n: nat)
    requires t == n * q + k && d == n * p + l && k < n && l < n
    ensures (t + d) % n == if k + l < n then k + l else k + l - n
  {
    assert n * (q + p) == n * q + n * p;
    if k + l < n {
      DivModUnique(t + d, q + p, k + l, n);
    } else {
      assert n * (q + p + 1) == n * (q + p) + n;
      DivModUnique(t + d, q + p + 1, k + l - n, n);
    }
  }

  /** So with several healthy upstreams a CloseUDP with no other such call since its
      OpenUDP never reaches the pool of the OpenUDP. */
  lemma RoundRobinMisses(ss: seq<Sys>, acts: seq<Act>, i: nat, k: nat, names: seq<string>)
    requires Runs(ss, acts) && DistinctLoads(acts) && i < k < |ss| && ss[i].m.strategy == RoundRobin
    requires acts[i] == Act.Route("") && Drawn(ss, acts, i + 1, k) == 0
    requires names == HealthyNames(ss[i].m.entries, ss[i].m.order) == HealthyNames(ss[k].m.entries, ss[k].m.order)
    requires |names| >= 2 && ss[i].m.rrIdx + 1 < SPAN
    ensures !Reaches(ss, i, k, "")
  {
    DrawnSplit(ss, acts, i, i + 1, k);
    assert Drawn(ss, acts, i, i + 1) == 1;
    RoundRobinReturns(ss, acts, i, k, names);
    DivModUnique(1, 0, 1, |names|);
  }

  // ---- weights ----

  /** Under weighted selection: if and only if the ticket that is then due falls into the
      upstream's share of the healthy weights that are then there. */
  lemma WeightedReturnsIff(ss: seq<Sys>, acts: seq<Act>, i: nat, k: nat)
    requires Runs(ss, acts) && i <= k < |ss| && ss[i].m.entries != map[] && ss[i].m.strategy == Weighted
    ensures var (x, m) := (Pick(ss[i].m).name, ss[k].m);
            Reaches(ss, i, k, "")
            <==> && !Replaced(ss, acts, i, k, x)
                 && if NobodyHealthy(m) then m.active == x
                    else Fairness.InShareOf(m, x, After(ss[i].m.rrIdx, Drawn(ss, acts, i, k)))
    ensures !NobodyHealthy(ss[i].m) ==> Fairness.InShareOf(ss[i].m, Pick(ss[i].m).name, ss[i].m.rrIdx)
  {
    var x, m := Pick(ss[i].m).name, ss[k].m;
    UnboundReturns(ss, acts, i, k);
    UnboundReturns(ss, acts, i, i);
    RunDraws(ss, acts, i, k);
    if m.strategy == Weighted && !NobodyHealthy(m) {
      Fairness.WeightedIff(m, x);
    }
    if !NobodyHealthy(ss[i].m) {
      Fairness.WeightedIff(ss[i].m, x);
    }
  }
}
