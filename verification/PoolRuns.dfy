/** Whole runs of the upstream manager with its reconnects, reloads and Close, in any
    interleaving. */
module PoolRuns {
  import opened Options
  import opened Config
  import opened Endpoints
  import opened Upstreams
  import opened Ledger
  import opened PoolSystem
  import opened PoolInvariants
  import opened Text
  import ResolvedFacts
  import Selection

  ghost predicate StepAt(ss: seq<Sys>, acts: seq<Act>, i: nat)
    requires |ss| == |acts| + 1 && i < |acts|
  {
    Can(ss[i], acts[i]) && ss[i + 1] == Do(ss[i], acts[i])
  }

  ghost predicate Runs(ss: seq<Sys>, acts: seq<Act>) {
    && |ss| == |acts| + 1 && ss[0] == START
    && forall i: nat {:trigger StepAt(ss, acts, i)} | i < |acts| :: StepAt(ss, acts, i)
  }

  // ---- invariants of every run ----

  lemma {:induction false} RunLoads(ss: seq<Sys>, acts: seq<Act>, i: nat)
    requires Runs(ss, acts) && i < |ss|
    ensures LoadsOk(ss[i])
  {
    if i == 0 {
    } else {
      RunLoads(ss, acts, i - 1);
      assert StepAt(ss, acts, i - 1);
      StepKeepsLoads(ss[i - 1], acts[i - 1]);
    }
  }

  lemma {:induction false} RunEps(ss: seq<Sys>, acts: seq<Act>, i: nat)
    requires Runs(ss, acts) && i < |ss|
    ensures EpsOk(ss[i])
  {
    if i == 0 {
    } else {
      RunEps(ss, acts, i - 1);
      assert StepAt(ss, acts, i - 1);
      StepKeepsEps(ss[i - 1], acts[i - 1]);
    }
  }

  /** Seen from the manager alone a run is a run of its locked regions. */
  lemma {:induction false} RunProjects(ss: seq<Sys>, acts: seq<Act>, i: nat) returns (ms: seq<Manager>, ops: seq<Op>)
    requires Runs(ss, acts) && i < |ss|
    ensures Selection.Trace(ms, ops) && ms[0] == FRESH && ms[|ops|] == ss[i].m
  {
    if i == 0 {
      ms, ops := [FRESH], [];
    } else {
      ms, ops := RunProjects(ss, acts, i - 1);
      assert StepAt(ss, acts, i - 1);
      RunLoads(ss, acts, i - 1);
      StepIsOp(ss[i - 1], acts[i - 1]);
      match OpOf(ss[i - 1], acts[i - 1]) {
        case None =>
        case Some(op) =>
          Selection.TraceSnoc(ms, ops, op);
          ms, ops := ms + [ss[i].m], ops + [op];
      }
    }
  }

  lemma RunKeepsCoherent(ss: seq<Sys>, acts: seq<Act>, i: nat)
    requires Runs(ss, acts) && i < |ss|
    ensures Coherent(ss[i].m)
  {
    var ms, ops := RunProjects(ss, acts, i);
    Selection.RunCoherent(ms, ops, |ops|);
  }

  // ---- conservation of pools ----

  predicate DistinctNames(eps: seq<Endpoint>) {
    forall i, j | 0 <= i < j < |eps| :: eps[i].name != eps[j].name
  }

  /** No reload is given two endpoints of one name. */
  predicate DistinctLoads(acts: seq<Act>) {
    forall i | 0 <= i < |acts| :: acts[i].BeginLoad? ==> DistinctNames(acts[i].eps)
  }

  ghost predicate LoadsDistinct(s: Sys) {
    forall t | t in s.threads && s.threads[t].Loading? :: DistinctNames(s.threads[t].eps)
  }

  lemma {:induction false} RunLoadsDistinct(ss: seq<Sys>, acts: seq<Act>, i: nat)
    requires Runs(ss, acts) && i < |ss| && DistinctLoads(acts)
    ensures LoadsDistinct(ss[i])
  {
    if i == 0 {
    } else {
      RunLoadsDistinct(ss, acts, i - 1);
      assert StepAt(ss, acts, i - 1);
      forall t | t in ss[i].threads && ss[i].threads[t].Loading?
        ensures DistinctNames(ss[i].threads[t].eps)
      {
        LoadingAfter(ss[i - 1], acts[i - 1], t);
      }
    }
  }

  /** The step dials for a name that its reload has staged already. */
  predicate Repeats(s: Sys, a: Act)
    requires Can(s, a)
  {
    a.LoadWorks? && var th := s.threads[a.t]; exists j :: 0 <= j < th.k && th.eps[j].name == th.eps[th.k].name
  }

  lemma DialForgetsNothing(s: Sys, t: Tid, pool: PoolId)
    requires Can(s, DialWorks(t, pool))
    ensures !Forgets(LedgerOf(s), MoveOf(s, DialWorks(t, pool)))
  {
    OthersHold(s, s, t);
  }

  lemma StagedBefore(th: Thread, name: string)
    requires LoadOk(th) && th.Loading?
    ensures name in th.staged <==> exists j :: 0 <= j < th.k && th.eps[j].name == name
  {
    if name in th.staged {
      var j :| 0 <= j < |th.order| && th.order[j] == name;
      assert th.eps[j].name == name;
    }
    if j :| 0 <= j < th.k && th.eps[j].name == name {
      assert th.order[j] in th.staged;
    }
  }

  lemma LoadForgetsIff(s: Sys, t: Tid, pool: PoolId)
    requires LoadsOk(s) && Can(s, LoadWorks(t, pool))
    ensures Forgets(LedgerOf(s), MoveOf(s, LoadWorks(t, pool))) <==> Repeats(s, LoadWorks(t, pool))
  {
    var th := s.threads[t];
    OthersHold(s, s, t);
    assert LoadOk(th);
    StagedBefore(th, th.eps[th.k].name);
  }

  /** A dial forgets a pool exactly if a reload has staged that name already. */
  lemma ForgetsIff(s: Sys, a: Act)
    requires LoadsOk(s) && Can(s, a)
    ensures Forgets(LedgerOf(s), MoveOf(s, a)) <==> Repeats(s, a)
  {
    match a
    case DialWorks(t, pool) => DialForgetsNothing(s, t, pool);
    case LoadWorks(t, pool) => LoadForgetsIff(s, t, pool);
    case _ =>
  }

  /** No reload before state `n` dials twice for one name. */
  ghost predicate NoRepeats(ss: seq<Sys>, acts: seq<Act>, n: nat)
    requires |ss| == |acts| + 1 && n < |ss|
  {
    forall i: nat {:trigger StepAt(ss, acts, i)} | i < n && StepAt(ss, acts, i) :: !Repeats(ss[i], acts[i])
  }

  lemma DistinctNeverRepeat(ss: seq<Sys>, acts: seq<Act>, n: nat)
    requires Runs(ss, acts) && n < |ss| && DistinctLoads(acts)
    ensures NoRepeats(ss, acts, n)
  {
    forall i: nat | i < n && StepAt(ss, acts, i)
      ensures !Repeats(ss[i], acts[i])
    {
      RunLoadsDistinct(ss, acts, i);
    }
  }

  lemma StartHoused()
    ensures Housed(LedgerOf(START), map[], {})
  {
    var l := LedgerOf(START);
    forall p, h | h != Leaked
      ensures !Has(l, p, h)
    {
    }
  }

  lemma StepLeaks(s: Sys, a: Act, w: Homes) returns (w': Homes)
    requires LoadsOk(s) && Can(s, a) && Housed(LedgerOf(s), w, s.dialled.Keys)
    ensures Housed(LedgerOf(Do(s, a)), w', Do(s, a).dialled.Keys)
    ensures NoneLeaked(w') <==> NoneLeaked(w) && !Repeats(s, a)
  {
    var mv, r := MoveOf(s, a), LedgerOf(Do(s, a));
    StepMoves(s, a);
    StepDials(s, a);
    ForgetsIff(s, a);
    MoveHouses(LedgerOf(s), w, s.dialled.Keys, mv, r);
    w' := Rehouse(LedgerOf(s), w, mv);
    if p :| p in w && w[p] == Leaked {
      LeakedStays(LedgerOf(s), w, s.dialled.Keys, mv, r, p);
    }
  }

  /** Conservation: in every run, every pool ever dialled is installed in one entry, or
      held by one goroutine, or closed once, or, after a reload with a repeated name,
      leaked; and it is only one of these. */
  lemma {:induction false} RunHouses(ss: seq<Sys>, acts: seq<Act>, n: nat) returns (w: Homes)
    requires Runs(ss, acts) && n < |ss|
    ensures Housed(LedgerOf(ss[n]), w, ss[n].dialled.Keys)
    ensures NoneLeaked(w) <==> NoRepeats(ss, acts, n)
    ensures DistinctLoads(acts) ==> NoneLeaked(w)
  {
    if n == 0 {
      w := map[];
      StartHoused();
    } else {
      var before := RunHouses(ss, acts, n - 1);
      assert StepAt(ss, acts, n - 1);
      RunLoads(ss, acts, n - 1);
      w := StepLeaks(ss[n - 1], acts[n - 1], before);
    }
    if DistinctLoads(acts) {
      DistinctNeverRepeat(ss, acts, n);
    }
  }

  /** Conservation, exactly: in every run, every pool dialled so far is in some entry, in
      some goroutine's hands or closed if and only if no reload has dialled twice for one
      name. */
  lemma RunLeaksIff(ss: seq<Sys>, acts: seq<Act>, n: nat)
    requires Runs(ss, acts) && n < |ss|
    ensures (forall p | p in ss[n].dialled.Keys :: Located(LedgerOf(ss[n]), p)) <==> NoRepeats(ss, acts, n)
  {
    var w := RunHouses(ss, acts, n);
    LocatedIff(LedgerOf(ss[n]), w, ss[n].dialled.Keys);
  }

  /** So in every run: an installed pool was dialled, is not closed, is installed in no
      other entry and in no goroutine's hands; no goroutine is about to close a closed
      pool; and nothing was closed twice. */
  lemma InstalledIsOpen(ss: seq<Sys>, acts: seq<Act>, i: nat)
    requires Runs(ss, acts) && i < |ss|
    ensures var (s, es) := (ss[i], ss[i].m.entries);
            && (forall n | n in es :: es[n].pool in s.dialled && es[n].pool !in s.closed)
            && (forall n, o | n in es && o in es :: es[n].pool == es[o].pool ==> n == o)
            && (forall n, t, k | n in es && k in Holds(s, t) :: Holds(s, t)[k] != es[n].pool)
            && (forall t, k | k in Holds(s, t) :: Holds(s, t)[k] !in s.closed)
            && (forall p :: s.closed[p] <= 1)
  {
    var s, l := ss[i], LedgerOf(ss[i]);
    var w := RunHouses(ss, acts, i);
    forall n | n in s.m.entries
      ensures s.m.entries[n].pool in w && w[s.m.entries[n].pool] == InEntry(n)
      ensures s.m.entries[n].pool !in s.closed
    {
      assert Has(l, s.m.entries[n].pool, InEntry(n));
      assert !Has(l, s.m.entries[n].pool, Closed);
    }
    forall t, k | k in Holds(s, t)
      ensures Holds(s, t)[k] in w && w[Holds(s, t)[k]] == InThread(t, k)
      ensures Holds(s, t)[k] !in s.closed
    {
      OthersHold(s, s, t);
      assert Has(l, Holds(s, t)[k], InThread(t, k));
      assert !Has(l, Holds(s, t)[k], Closed);
    }
  }

  /** Whatever runs beside it, poolFor hands out a pool that is open at that moment. */
  lemma RoutesToOpenPool(ss: seq<Sys>, acts: seq<Act>, i: nat, bind: string)
    requires Runs(ss, acts) && i < |ss|
    ensures var p := PoolFor(ss[i].m, bind).0;
            && (p.None? <==> ss[i].m.entries == map[])
            && (p.Some? ==> p.value in ss[i].dialled && p.value !in ss[i].closed)
  {
    RunKeepsCoherent(ss, acts, i);
    Selection.RouteSafe(ss[i].m, bind);
    InstalledIsOpen(ss, acts, i);
  }

  /** The order that a reload leaves lists no name twice if its endpoints do not. */
  lemma {:induction false} RunOrderDistinct(ss: seq<Sys>, acts: seq<Act>, i: nat)
    requires Runs(ss, acts) && i < |ss| && DistinctLoads(acts)
    ensures Distinct(ss[i].m.order)
  {
    if i == 0 {
    } else {
      RunOrderDistinct(ss, acts, i - 1);
      RunLoads(ss, acts, i - 1);
      RunLoadsDistinct(ss, acts, i - 1);
      assert StepAt(ss, acts, i - 1);
      StepKeepsDistinct(ss[i - 1], acts[i - 1]);
    }
  }

  lemma StepKeepsDistinct(s: Sys, a: Act)
    requires LoadsOk(s) && LoadsDistinct(s) && Can(s, a) && Distinct(s.m.order)
    ensures Distinct(Do(s, a).m.order)
  {
    if a.CommitLoad? {
      assert LoadOk(s.threads[a.t]);
    } else if a.Check? {
      RoundFrame(s.m, a.names, a.pings);
    } else if !a.Route? && !a.SwapIn? {
      ManagerUntouched(s, a);
    }
  }

  /** With no goroutine left every pool is installed or closed. */
  lemma Quiescent(ss: seq<Sys>, acts: seq<Act>, i: nat)
    requires Runs(ss, acts) && i < |ss| && DistinctLoads(acts) && ss[i].threads == map[]
    ensures ss[i].dialled.Keys == Pools(ss[i].m.entries).Values + set p | p in ss[i].closed
  {
    var s, l := ss[i], LedgerOf(ss[i]);
    var w := RunHouses(ss, acts, i);
    forall p | p in s.dialled
      ensures p in Pools(s.m.entries).Values || p in s.closed
    {
      assert Has(l, p, w[p]);
      OthersHold(s, s, if w[p].InThread? then w[p].t else 0);
      if w[p].InEntry? {
        assert Pools(s.m.entries)[w[p].name] == p;
      }
    }
    forall p | p in Pools(s.m.entries).Values
      ensures p in s.dialled
    {
      var n :| n in s.m.entries && s.m.entries[n].pool == p;
      assert Has(l, p, InEntry(n));
    }
    forall p | p in s.closed
      ensures p in s.dialled
    {
      assert Has(l, p, Closed);
    }
  }

  // ---- one reconnect per entry ----

  lemma {:induction false} RunFlags(ss: seq<Sys>, acts: seq<Act>, i: nat) returns (w: map<nat, Tid>)
    requires Runs(ss, acts) && i < |ss|
    ensures Flagged(ss[i], w)
  {
    if i == 0 {
      w := map[];
    } else {
      var before := RunFlags(ss, acts, i - 1);
      assert StepAt(ss, acts, i - 1);
      StepKeepsFlags(ss[i - 1], before, acts[i - 1]);
      w := Reflag(ss[i - 1], before, acts[i - 1]);
    }
  }

  /** No two reconnects run for one entry, and a flag is set only while one does. */
  lemma OneReconnect(ss: seq<Sys>, acts: seq<Act>, i: nat, t: Tid, u: Tid)
    requires Runs(ss, acts) && i < |ss|
    ensures FlagOf(ss[i], t).Some? && FlagOf(ss[i], t) == FlagOf(ss[i], u) ==> t == u
    ensures forall e :: e in ss[i].busy <==> exists v :: FlagOf(ss[i], v) == Some(e)
  {
    var w := RunFlags(ss, acts, i);
    forall e | e in ss[i].busy
      ensures exists v :: FlagOf(ss[i], v) == Some(e)
    {
      assert FlagOf(ss[i], w[e]) == Some(e);
    }
  }

  // ---- endpoints ----

  /** Every swap that finds its entry comes before the next reload after the entry was
      read. */
  ghost predicate TimelySwaps(ss: seq<Sys>, acts: seq<Act>)
    requires Runs(ss, acts)
  {
    forall i: nat {:trigger StepAt(ss, acts, i)} | i < |acts| && StepAt(ss, acts, i) && acts[i].SwapIn? ::
      var th := ss[i].threads[acts[i].t]; th.name in ss[i].m.entries ==> th.at == ss[i].reloads
  }

  /** Endpoint agreement: without a reload between a reconnect's reading of its entry
      and its swap, every installed pool was dialled to its own entry's endpoint. */
  lemma {:induction false} RunAgrees(ss: seq<Sys>, acts: seq<Act>, i: nat)
    requires Runs(ss, acts) && i < |ss| && TimelySwaps(ss, acts)
    ensures Agree(ss[i])
  {
    if i == 0 {
    } else {
      RunAgrees(ss, acts, i - 1);
      RunEps(ss, acts, i - 1);
      assert StepAt(ss, acts, i - 1);
      if acts[i - 1].SwapIn? && ss[i - 1].threads[acts[i - 1].t].name in ss[i - 1].m.entries {
        TimelySwap(ss[i - 1], acts[i - 1].t);
      }
      AgreeIff(ss[i - 1], acts[i - 1]);
    }
  }

  /** No step before state `n` swaps a pool into an entry whose endpoint has changed. */
  ghost predicate NoStaleSwaps(ss: seq<Sys>, acts: seq<Act>, n: nat)
    requires |ss| == |acts| + 1 && n < |ss|
  {
    forall i: nat {:trigger StepAt(ss, acts, i)} | i < n && StepAt(ss, acts, i) :: !StaleSwap(ss[i], acts[i])
  }

  /** Exactly: pools and endpoints agree in all states up to the `n`-th if and only if
      no step before it is a stale swap. */
  lemma {:induction false} RunAgreesIff(ss: seq<Sys>, acts: seq<Act>, n: nat)
    requires Runs(ss, acts) && n < |ss|
    ensures (forall i: nat | i <= n :: Agree(ss[i])) <==> NoStaleSwaps(ss, acts, n)
  {
    if n == 0 {
    } else {
      RunAgreesIff(ss, acts, n - 1);
      RunEps(ss, acts, n - 1);
      assert StepAt(ss, acts, n - 1);
      if Agree(ss[n - 1]) {
        AgreeIff(ss[n - 1], acts[n - 1]);
      }
      if forall i: nat | i <= n :: Agree(ss[i]) {
        assert forall i: nat | i <= n - 1 :: Agree(ss[i]);
        assert Agree(ss[n]) && Agree(ss[n - 1]);
      }
    }
  }

  // ---- Close ----

  /** After the load committed at step `i` the manager was closed before state `j`. */
  ghost predicate ClosedSince(acts: seq<Act>, i: nat, j: nat)
    requires j <= |acts|
  {
    exists k :: i < k < j && acts[k].CloseManager?
  }

  ghost predicate EveryLoadClosed(acts: seq<Act>, j: nat)
    requires j <= |acts|
  {
    forall i: nat {:trigger ClosedSince(acts, i, j)} | i < j && acts[i].CommitLoad? :: ClosedSince(acts, i, j)
  }

  /** Only a load fills the manager and only Close empties it. */
  lemma StepEmpties(s: Sys, a: Act)
    requires LoadsOk(s) && Can(s, a)
    ensures a.CommitLoad? ==> Do(s, a).m.entries != map[]
    ensures a.CloseManager? ==> Do(s, a).m.entries == map[]
    ensures !a.CommitLoad? && !a.CloseManager? ==> Do(s, a).m.entries.Keys == s.m.entries.Keys
  {
    if a.CommitLoad? {
      CommitFills(s, a.t);
    } else if !a.CloseManager? {
      KeysStay(s, a);
    }
  }

  lemma CommitFills(s: Sys, t: Tid)
    requires LoadsOk(s) && Can(s, CommitLoad(t))
    ensures Do(s, CommitLoad(t)).m.entries != map[]
  {
    var th := s.threads[t];
    assert LoadOk(th);
    StagedLoadable(th);
    assert th.eps[0].name in Names(th.eps);
  }

  lemma KeysStay(s: Sys, a: Act)
    requires Can(s, a) && !a.CommitLoad? && !a.CloseManager?
    ensures Do(s, a).m.entries.Keys == s.m.entries.Keys
  {
    if a.Check? {
      RoundFrame(s.m, a.names, a.pings);
    }
  }

  lemma LoadClosedStep(acts: seq<Act>, j: nat)
    requires 0 < j <= |acts| && !acts[j - 1].CommitLoad? && !acts[j - 1].CloseManager?
    ensures EveryLoadClosed(acts, j) <==> EveryLoadClosed(acts, j - 1)
  {
    forall i: nat | i < j - 1
      ensures ClosedSince(acts, i, j) <==> ClosedSince(acts, i, j - 1)
    {
      if k :| i < k < j && acts[k].CloseManager? {
        assert k < j - 1;
      }
    }
    if EveryLoadClosed(acts, j) {
      forall i: nat | i < j - 1 && acts[i].CommitLoad?
        ensures ClosedSince(acts, i, j - 1)
      {
        assert ClosedSince(acts, i, j);
      }
    }
    if EveryLoadClosed(acts, j - 1) {
      forall i: nat | i < j && acts[i].CommitLoad?
        ensures ClosedSince(acts, i, j)
      {
        assert ClosedSince(acts, i, j - 1);
      }
    }
  }

  /** In every run the manager is empty if and only if every load that was committed has
      been followed by a Close. */
  lemma {:induction false} EmptyIff(ss: seq<Sys>, acts: seq<Act>, j: nat)
    requires Runs(ss, acts) && j < |ss|
    ensures ss[j].m.entries == map[] <==> EveryLoadClosed(acts, j)
  {
    if j == 0 {
    } else {
      var a := acts[j - 1];
      EmptyIff(ss, acts, j - 1);
      RunLoads(ss, acts, j - 1);
      assert StepAt(ss, acts, j - 1);
      StepEmpties(ss[j - 1], a);
      if a.CommitLoad? {
        assert !ClosedSince(acts, j - 1, j);
      } else if a.CloseManager? {
        forall i: nat | i < j && acts[i].CommitLoad?
          ensures ClosedSince(acts, i, j)
        {
          assert i < j - 1 < j && acts[j - 1].CloseManager?;
        }
      } else {
        LoadClosedStep(acts, j);
        assert ss[j].m.entries == map[] <==> ss[j].m.entries.Keys == {};
        assert ss[j - 1].m.entries == map[] <==> ss[j - 1].m.entries.Keys == {};
      }
    }
  }

  /** poolFor finds no pool, bound or not, exactly then. The default route calls what it
      finds without looking. */
  lemma NoPoolIff(ss: seq<Sys>, acts: seq<Act>, j: nat, bind: string)
    requires Runs(ss, acts) && j < |ss|
    ensures PoolFor(ss[j].m, bind).0.None? <==> EveryLoadClosed(acts, j)
  {
    RoutesToOpenPool(ss, acts, j, bind);
    EmptyIff(ss, acts, j);
  }

  /** With no goroutine left, all pools are closed exactly when none is installed. */
  lemma AllClosedIffEmpty(ss: seq<Sys>, acts: seq<Act>, j: nat)
    requires Runs(ss, acts) && j < |ss| && DistinctLoads(acts) && ss[j].threads == map[]
    ensures ss[j].closed == multiset(ss[j].dialled.Keys) <==> ss[j].m.entries == map[]
  {
    var s := ss[j];
    Quiescent(ss, acts, j);
    InstalledIsOpen(ss, acts, j);
    if s.m.entries == map[] {
      assert Pools(s.m.entries).Values == {};
      forall p
        ensures s.closed[p] == multiset(s.dialled.Keys)[p]
      {
        assert p in s.closed <==> p in s.dialled;
      }
    } else {
      var n :| n in s.m.entries;
      assert s.m.entries[n].pool in multiset(s.dialled.Keys);
    }
  }

  /** What Close guarantees, exactly: when all goroutines have ended, every pool that was
      ever dialled has been closed, each once, if and only if every committed load has
      been followed by a Close. */
  lemma AllClosedIff(ss: seq<Sys>, acts: seq<Act>, j: nat)
    requires Runs(ss, acts) && j < |ss| && DistinctLoads(acts) && ss[j].threads == map[]
    ensures ss[j].closed == multiset(ss[j].dialled.Keys) <==> EveryLoadClosed(acts, j)
  {
    AllClosedIffEmpty(ss, acts, j);
    EmptyIff(ss, acts, j);
  }

  /** Once closed the manager stays empty until a reload commits. */
  lemma {:induction false} ClosedStaysEmpty(ss: seq<Sys>, acts: seq<Act>, i: nat, j: nat)
    requires Runs(ss, acts) && i < j < |ss| && acts[i].CloseManager?
    requires forall k | i < k < j :: !acts[k].CommitLoad?
    ensures ss[j].m.entries == map[] && ss[j].m.order == [] && ss[j].m.active == ss[i].m.active
  {
    assert StepAt(ss, acts, j - 1);
    if j - 1 > i {
      ClosedStaysEmpty(ss, acts, i, j - 1);
      if acts[j - 1].Check? {
        RoundFrame(ss[j - 1].m, acts[j - 1].names, acts[j - 1].pings);
      }
    }
  }

  /** So if no reload commits after Close, then once all goroutines have ended every
      pool that was ever dialled has been closed, each exactly once. */
  lemma CloseClosesAll(ss: seq<Sys>, acts: seq<Act>, i: nat, j: nat)
    requires Runs(ss, acts) && i < j < |ss| && acts[i].CloseManager? && DistinctLoads(acts)
    requires forall k | i < k < j :: !acts[k].CommitLoad?
    requires ss[j].threads == map[]
    ensures ss[j].closed == multiset(ss[j].dialled.Keys)
  {
    ClosedStaysEmpty(ss, acts, i, j);
    AllClosedIffEmpty(ss, acts, j);
  }

  // ---- from the configuration to the entries ----

  /** What a configuration resolves to is fit for a reload at any moment: named
      endpoints with positive weights, and positive thresholds. */
  lemma ResolvedUsable(c: Config, parse: AddrParser, s: Sys, t: Tid)
    requires UpstreamEndpoints(c, parse).Endpoints? && New(s, t)
    ensures Can(s, BeginLoad(t, UpstreamEndpoints(c, parse).eps, StrategyOf(c.upstream), HealthSettings(c.upstream)))
  {
    var eps := UpstreamEndpoints(c, parse).eps;
    EndpointNames(c, parse);
    forall i | 0 <= i < |eps|
      ensures eps[i].name != "" && eps[i].weight >= 1
    {
      assert eps[i].name in Names(eps);
      ResolvedFacts.NamesTrimmed(c, eps[i].name);
      ResolvedFacts.WeightsPositive(c, parse, i);
    }
  }

  /** A reload installs exactly the names it was given, in order, and, if they are
      distinct, each with its endpoint; sorted endpoints give an order by rank. */
  lemma CommitInstalls(s: Sys, t: Tid)
    requires LoadsOk(s) && Can(s, CommitLoad(t))
    ensures var (eps, m) := (s.threads[t].eps, Do(s, CommitLoad(t)).m);
            && m.entries.Keys == Names(eps) && |m.order| == |eps|
            && (forall i | 0 <= i < |eps| :: m.order[i] == eps[i].name && eps[i].name in m.entries)
            && m.active == eps[0].name
            && (DistinctNames(eps) ==> forall i | 0 <= i < |eps| :: m.entries[eps[i].name].ep == eps[i])
            && (DistinctNames(eps) && Sorted(eps) ==> Selection.ByRank(m))
  {
    var th := s.threads[t];
    assert LoadOk(th);
    StagedLoadable(th);
  }

  /** A manager loaded from an accepted configuration knows a bind_upstream of it as an
      entry if and only if it is written without surrounding white space. Its traffic
      then goes to that entry for as long as the entry is healthy; otherwise it always
      takes the default route. */
  lemma BoundTraffic(c0: Config, parse: AddrParser, bind: string, m: Manager)
    requires Validate(c0).1 == None && Validate(c0).0.role == "client"
    requires UpstreamEndpoints(Validate(c0).0, parse).Endpoints?
    requires ResolvedFacts.InForce(Validate(c0).0, bind) && bind != ""
    requires m.entries.Keys == Names(UpstreamEndpoints(Validate(c0).0, parse).eps)
    ensures bind in m.entries <==> Trim(bind) == bind
    ensures Healthy(m.entries, bind) ==> PoolFor(m, bind) == (Some(m.entries[bind].pool), m)
    ensures Trim(bind) != bind ==> PoolFor(m, bind) == PoolFor(m, "")
  {
    ResolvedFacts.BindNamesEndpointIff(c0, parse, bind);
  }

  // ---- rank in every run ----

  /** What UpstreamEndpoints yields is sorted. */
  lemma ResolvedSorted(c: Config, parse: AddrParser)
    requires UpstreamEndpoints(c, parse).Endpoints?
    ensures Sorted(UpstreamEndpoints(c, parse).eps)
  {
    if HasServers(c) {
      SortStableSorts(Resolve(MakerOf(c, parse, ServersOf(c)), |ServersOf(c)|).eps);
    }
  }

  /** Some configuration resolves to `eps`. */
  ghost predicate Resolvable(eps: seq<Endpoint>) {
    exists c: Config, parse: AddrParser :: UpstreamEndpoints(c, parse) == Endpoints(eps)
  }

  lemma ResolvableSorted(eps: seq<Endpoint>)
    requires Resolvable(eps)
    ensures Sorted(eps)
  {
    var c: Config, parse: AddrParser :| UpstreamEndpoints(c, parse) == Endpoints(eps);
    ResolvedSorted(c, parse);
  }

  /** Every load is of endpoints that some configuration resolves to, without two of one
      name. */
  ghost predicate LoadsResolved(acts: seq<Act>) {
    DistinctLoads(acts) && forall i | 0 <= i < |acts| && acts[i].BeginLoad? :: Resolvable(acts[i].eps)
  }

  ghost predicate LoadsSorted(s: Sys) {
    forall t | t in s.threads && s.threads[t].Loading? :: Sorted(s.threads[t].eps)
  }

  lemma {:induction false} RunLoadsSorted(ss: seq<Sys>, acts: seq<Act>, i: nat)
    requires Runs(ss, acts) && i < |ss| && LoadsResolved(acts)
    ensures LoadsSorted(ss[i])
  {
    if i == 0 {
    } else {
      RunLoadsSorted(ss, acts, i - 1);
      assert StepAt(ss, acts, i - 1);
      if acts[i - 1].BeginLoad? {
        ResolvableSorted(acts[i - 1].eps);
      }
      forall t | t in ss[i].threads && ss[i].threads[t].Loading?
        ensures Sorted(ss[i].threads[t].eps)
      {
        LoadingAfter(ss[i - 1], acts[i - 1], t);
      }
    }
  }

  lemma StepKeepsRank(s: Sys, a: Act)
    requires LoadsOk(s) && LoadsSorted(s) && LoadsDistinct(s) && Can(s, a)
    requires Coherent(s.m) && Selection.ByRank(s.m) && Coherent(Do(s, a).m)
    ensures Selection.ByRank(Do(s, a).m)
  {
    if a.CommitLoad? {
      CommitInstalls(s, a.t);
    } else {
      StepIsOp(s, a);
      if OpOf(s, a).Some? {
        Selection.OpKeepsRank(s.m, OpOf(s, a).value);
      }
    }
  }

  /** In every run whose loads are resolved from configurations with distinct names, the
      manager's order is by rank. */
  lemma {:induction false} RunRanked(ss: seq<Sys>, acts: seq<Act>, i: nat)
    requires Runs(ss, acts) && i < |ss| && LoadsResolved(acts)
    ensures Coherent(ss[i].m) && Selection.ByRank(ss[i].m)
  {
    RunKeepsCoherent(ss, acts, i);
    if i == 0 {
    } else {
      RunRanked(ss, acts, i - 1);
      assert StepAt(ss, acts, i - 1);
      RunLoads(ss, acts, i - 1);
      RunLoadsSorted(ss, acts, i - 1);
      RunLoadsDistinct(ss, acts, i - 1);
      StepKeepsRank(ss[i - 1], acts[i - 1]);
    }
  }

  /** So at every reachable state under failover: the choice has the highest priority
      among the healthy upstreams if and only if the active one is unhealthy or has it
      itself. */
  lemma RunFailoverBestIff(ss: seq<Sys>, acts: seq<Act>, i: nat)
    requires Runs(ss, acts) && i < |ss| && LoadsResolved(acts)
    requires ss[i].m.strategy == Failover && exists n :: Healthy(ss[i].m.entries, n)
    ensures var m := ss[i].m;
            Selection.BestHealthy(m, Pick(m).name)
            <==> !Healthy(m.entries, m.active) || Selection.BestHealthy(m, m.active)
  {
    RunRanked(ss, acts, i);
    Selection.FailoverBestIff(ss[i].m);
  }
}
