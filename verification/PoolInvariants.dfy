/** What every step of the pool system keeps besides ownership: the shape of a reload in
    progress, the reconnect flags, and which endpoint a pool was dialled to. */
module PoolInvariants {
  import opened Options
  import opened Config
  import opened Endpoints
  import opened Upstreams
  import opened Ledger
  import opened PoolSystem

  // ---- reloads in progress ----

  /** What Reload's loop has built after `k` endpoints. */
  predicate Staged(eps: seq<Endpoint>, k: nat, es: map<string, Entry>, order: seq<string>) {
    && k <= |eps| && |order| == k && Known(es, order)
    && (forall i | 0 <= i < k :: order[i] == eps[i].name)
    && (forall n | n in es :: n in order && es[n].healthy && es[n].failures == 0 && es[n].recovers == 0
                              && es[n].rtt == 0)
    && (forall i | 0 <= i < k && (forall j | i < j < k :: eps[j].name != eps[i].name) :: es[order[i]].ep == eps[i])
    && (forall n | n in es :: es[n].ep.name == n && es[n].ep.weight >= 1)
  }

  predicate LoadOk(th: Thread) {
    th.Loading? ==> Usable(th.eps) && Positive(th.health) && Staged(th.eps, th.k, th.staged, th.order)
  }

  ghost predicate LoadsOk(s: Sys) {
    forall t | t in s.threads :: LoadOk(s.threads[t])
  }

  lemma StageKeeps(th: Thread, id: nat, pool: PoolId)
    requires LoadOk(th) && th.Loading? && th.k < |th.eps|
    ensures LoadOk(Stage(th, id, pool))
  {
    var r := Stage(th, id, pool);
    forall i | 0 <= i < r.k && (forall j | i < j < r.k :: r.eps[j].name != r.eps[i].name)
      ensures r.staged[r.order[i]].ep == r.eps[i]
    {
      if i < th.k {
        assert r.eps[th.k].name != r.eps[i].name;
      }
    }
  }

  /** Where a reload in progress comes from. */
  lemma LoadingAfter(s: Sys, a: Act, t: Tid)
    requires Can(s, a) && t in Do(s, a).threads && Do(s, a).threads[t].Loading?
    ensures || (t in s.threads && Do(s, a).threads[t] == s.threads[t])
            || (a.BeginLoad? && Do(s, a).threads[t] == Loading(a.eps, 0, map[], [], a.strategy, a.health))
            || (a.LoadWorks? && a.t == t && Do(s, a).threads[t] == Stage(s.threads[t], s.nextEntry, a.pool))
  {
    if Actor(a) != Some(t) {
      OthersStay(s, a, t);
    } else if !a.BeginLoad? && !a.LoadWorks? {
      OnlyLoadsLoad(s, a);
    }
  }

  lemma OnlyLoadsLoad(s: Sys, a: Act)
    requires Can(s, a) && Actor(a).Some? && !a.BeginLoad? && !a.LoadWorks?
    ensures a.t in Do(s, a).threads ==> !Do(s, a).threads[a.t].Loading?
  {
  }

  lemma StepKeepsLoads(s: Sys, a: Act)
    requires LoadsOk(s) && Can(s, a)
    ensures LoadsOk(Do(s, a))
  {
    if a.LoadWorks? {
      assert LoadOk(s.threads[a.t]);
      StageKeeps(s.threads[a.t], s.nextEntry, a.pool);
    }
    forall t | t in Do(s, a).threads
      ensures LoadOk(Do(s, a).threads[t])
    {
      if Do(s, a).threads[t].Loading? {
        LoadingAfter(s, a, t);
      }
    }
  }

  // ---- the manager's view ----

  /** The locked region an action runs, if any. */
  function OpOf(s: Sys, a: Act): Option<Op>
    requires Can(s, a)
  {
    match a
    case Route(bind) => Some(Use(bind))
    case Check(names, pings) => Some(Op.Check(names, pings))
    case SwapIn(t) =>
      var th := s.threads[t];
      if th.name in s.m.entries then Some(Install(th.name, th.pool)) else None
    case CommitLoad(t) =>
      var th := s.threads[t];
      Some(Load(th.staged, th.order, th.strategy, th.health))
    case CloseManager(_) => Some(CloseAll)
    case _ => None
  }

  lemma StagedLoadable(th: Thread)
    requires LoadOk(th) && th.Loading? && th.k >= |th.eps|
    ensures Loadable(th.staged, th.order) && th.staged.Keys == Names(th.eps)
  {
    forall n | n in th.staged
      ensures n != "" && n in Names(th.eps)
    {
      var i :| 0 <= i < |th.order| && th.order[i] == n;
      assert th.eps[i].name == n;
    }
    forall n | n in Names(th.eps)
      ensures n in th.staged
    {
      var i :| 0 <= i < |th.eps| && th.eps[i].name == n;
      assert th.order[i] == n;
    }
  }

  /** The manager changes in locked regions only, and as they do. */
  lemma StepIsOp(s: Sys, a: Act)
    requires LoadsOk(s) && Can(s, a)
    ensures match OpOf(s, a)
            case None => Do(s, a).m == s.m
            case Some(op) => Allowed(s.m, op) && Do(s, a).m == Apply(s.m, op)
  {
    if a.CommitLoad? {
      assert LoadOk(s.threads[a.t]);
      StagedLoadable(s.threads[a.t]);
    } else if !a.SwapIn? && !a.Check? && !a.Route? {
      ManagerUntouched(s, a);
    }
  }

  // ---- reconnect flags ----

  function FlagOf(s: Sys, t: Tid): Option<nat> {
    if t in s.threads then Flag(s.threads[t]) else None
  }

  /** Every set flag belongs to one reconnect, and a reconnect past its flag has one. */
  ghost predicate Flagged(s: Sys, w: map<nat, Tid>) {
    && w.Keys == s.busy
    && forall t, e :: FlagOf(s, t) == Some(e) <==> e in w && w[e] == t
  }

  function Reflag(s: Sys, w: map<nat, Tid>, a: Act): map<nat, Tid>
    requires Can(s, a)
  {
    match a
    case SetFlag(t) => if s.threads[t].eid in s.busy then w else w[s.threads[t].eid := t]
    case Leave(t) => w - {s.threads[t].eid}
    case _ => w
  }

  lemma BusyKept(s: Sys, a: Act)
    requires Can(s, a) && !a.SetFlag? && !a.Leave?
    ensures Do(s, a).busy == s.busy
  {
  }

  lemma RetriesHold(s: Sys, a: Act)
    requires Can(s, a) && (a.Stop? || a.ReadEntry? || a.DialFails?)
    ensures FlagOf(Do(s, a), a.t) == FlagOf(s, a.t)
  {
  }

  lemma DialsHold(s: Sys, a: Act)
    requires Can(s, a) && (a.DialWorks? || a.PingEnds?)
    ensures FlagOf(Do(s, a), a.t) == FlagOf(s, a.t)
  {
  }

  lemma SwapsHold(s: Sys, a: Act)
    requires Can(s, a) && (a.SwapIn? || a.DisposePool?)
    ensures FlagOf(Do(s, a), a.t) == FlagOf(s, a.t)
  {
  }

  lemma StartsUnflagged(s: Sys, a: Act)
    requires Can(s, a) && (a.Spawn? || a.LookUp? || a.CloseManager? || a.CloseNext? || a.EndClosing?)
    ensures FlagOf(Do(s, a), a.t) == FlagOf(s, a.t) == None
  {
  }

  lemma LoadsUnflagged(s: Sys, a: Act)
    requires Can(s, a) && (a.LoadWorks? || a.BeginLoad? || a.LoadFails? || a.CommitLoad?)
    ensures FlagOf(Do(s, a), a.t) == FlagOf(s, a.t) == None
  {
  }

  lemma FlagsKept(s: Sys, a: Act, t: Tid)
    requires Can(s, a) && !a.SetFlag? && !a.Leave?
    ensures FlagOf(Do(s, a), t) == FlagOf(s, t)
  {
    if Actor(a) != Some(t) {
      OthersStay(s, a, t);
    } else if a.Stop? || a.ReadEntry? || a.DialFails? {
      RetriesHold(s, a);
    } else if a.DialWorks? || a.PingEnds? {
      DialsHold(s, a);
    } else if a.SwapIn? || a.DisposePool? {
      SwapsHold(s, a);
    } else if a.LoadWorks? || a.BeginLoad? || a.LoadFails? || a.CommitLoad? {
      LoadsUnflagged(s, a);
    } else {
      StartsUnflagged(s, a);
    }
  }

  lemma StepKeepsFlags(s: Sys, w: map<nat, Tid>, a: Act)
    requires Flagged(s, w) && Can(s, a)
    ensures Flagged(Do(s, a), Reflag(s, w, a))
  {
    if a.SetFlag? {
      SetFlagKeeps(s, w, a.t);
    } else if a.Leave? {
      LeaveKeeps(s, w, a.t);
    } else {
      forall t, e
        ensures FlagOf(Do(s, a), t) == Some(e) <==> e in w && w[e] == t
      {
        FlagsKept(s, a, t);
      }
      BusyKept(s, a);
    }
  }

  lemma SetFlagKeeps(s: Sys, w: map<nat, Tid>, t: Tid)
    requires Flagged(s, w) && Can(s, SetFlag(t))
    ensures Flagged(Do(s, SetFlag(t)), Reflag(s, w, SetFlag(t)))
  {
    var r, w' := Do(s, SetFlag(t)), Reflag(s, w, SetFlag(t));
    assert FlagOf(s, t) == None;
    forall u, e
      ensures FlagOf(r, u) == Some(e) <==> e in w' && w'[e] == u
    {
      assert FlagOf(s, u) == Some(e) <==> e in w && w[e] == u;
    }
  }

  lemma LeaveKeeps(s: Sys, w: map<nat, Tid>, t: Tid)
    requires Flagged(s, w) && Can(s, Leave(t))
    ensures Flagged(Do(s, Leave(t)), Reflag(s, w, Leave(t)))
  {
    var r, w' := Do(s, Leave(t)), Reflag(s, w, Leave(t));
    assert FlagOf(s, t) == Some(s.threads[t].eid);
    forall u, e
      ensures FlagOf(r, u) == Some(e) <==> e in w' && w'[e] == u
    {
      assert FlagOf(s, u) == Some(e) <==> e in w && w[e] == u;
    }
  }

  // ---- endpoints ----

  predicate DialledTo(s: Sys, pool: PoolId, ep: Endpoint) {
    pool in s.dialled && s.dialled[pool] == ep
  }

  /** A reconnect dials the endpoint its entry had when it read it, which it still has
      as long as no reload came in between. */
  predicate Reads(s: Sys, name: string, ep: Endpoint, at: nat) {
    at <= s.reloads && (at == s.reloads && name in s.m.entries ==> s.m.entries[name].ep == ep)
  }

  predicate EpOk(s: Sys, th: Thread) {
    match th
    case Dialling(name, _, ep, at) => Reads(s, name, ep, at)
    case Pinging(name, _, ep, at, pool) => Reads(s, name, ep, at) && DialledTo(s, pool, ep)
    case Swapping(name, _, ep, at, pool) => Reads(s, name, ep, at) && DialledTo(s, pool, ep)
    case Loading(_, _, staged, _, _, _) => forall n | n in staged :: DialledTo(s, staged[n].pool, staged[n].ep)
    case _ => true
  }

  ghost predicate EpsOk(s: Sys) {
    forall t | t in s.threads :: EpOk(s, s.threads[t])
  }

  /** Every installed pool was dialled to its own entry's endpoint. */
  ghost predicate Agree(s: Sys) {
    forall n | n in s.m.entries :: DialledTo(s, s.m.entries[n].pool, s.m.entries[n].ep)
  }

  lemma DialsGrow(s: Sys, a: Act, pool: PoolId, ep: Endpoint)
    requires Can(s, a) && DialledTo(s, pool, ep)
    ensures DialledTo(Do(s, a), pool, ep)
  {
  }

  /** Endpoints of entries change only in a reload, and entries appear only then; pools
      of entries change only in a reload or by the swap of a reconnect. */
  lemma EndpointsStay(s: Sys, a: Act, n: string)
    requires Can(s, a) && !a.CommitLoad? && n in Do(s, a).m.entries
    ensures n in s.m.entries && Do(s, a).m.entries[n].ep == s.m.entries[n].ep && Do(s, a).reloads == s.reloads
    ensures !(a.SwapIn? && s.threads[a.t].name == n) ==> Do(s, a).m.entries[n].pool == s.m.entries[n].pool
  {
    if a.Check? {
      RoundFrame(s.m, a.names, a.pings);
    } else if !a.SwapIn? && !a.Route? {
      ManagerUntouched(s, a);
    }
  }

  lemma ManagerUntouched(s: Sys, a: Act)
    requires Can(s, a) && !a.Route? && !a.Check? && !a.SwapIn? && !a.CommitLoad?
    ensures Do(s, a).m == if a.CloseManager? then Shut(s.m) else s.m
    ensures Do(s, a).reloads == s.reloads
  {
  }

  lemma ReadsStay(s: Sys, a: Act, name: string, ep: Endpoint, at: nat)
    requires Can(s, a) && Reads(s, name, ep, at)
    ensures Reads(Do(s, a), name, ep, at)
  {
    if !a.CommitLoad? {
      if name in Do(s, a).m.entries {
        EndpointsStay(s, a, name);
      }
    }
  }

  lemma EpStays(s: Sys, a: Act, th: Thread)
    requires Can(s, a) && EpOk(s, th)
    ensures EpOk(Do(s, a), th)
  {
    match th
    case Dialling(name, _, ep, at) => ReadsStay(s, a, name, ep, at);
    case Pinging(name, _, ep, at, pool) =>
      ReadsStay(s, a, name, ep, at);
      DialsGrow(s, a, pool, ep);
    case Swapping(name, _, ep, at, pool) =>
      ReadsStay(s, a, name, ep, at);
      DialsGrow(s, a, pool, ep);
    case Loading(_, _, staged, _, _, _) =>
      forall n | n in staged
        ensures DialledTo(Do(s, a), staged[n].pool, staged[n].ep)
      {
        DialsGrow(s, a, staged[n].pool, staged[n].ep);
      }
    case _ =>
  }

  /** A reconnect that has read its entry, dialled or pinged ends up with what it read
      and dialled. */
  lemma ReconnectOk(s: Sys, a: Act)
    requires EpsOk(s) && Can(s, a) && (a.ReadEntry? || a.DialWorks? || a.PingEnds?)
    ensures EpOk(Do(s, a), Do(s, a).threads[a.t])
  {
    EpStays(s, a, s.threads[a.t]);
  }

  /** So does a reload. */
  lemma ReloadOk(s: Sys, a: Act)
    requires EpsOk(s) && Can(s, a) && (a.BeginLoad? || a.LoadWorks?)
    ensures EpOk(Do(s, a), Do(s, a).threads[a.t])
  {
    if a.LoadWorks? {
      EpStays(s, a, s.threads[a.t]);
    }
  }

  /** What the other steps lead to has read and dialled nothing. */
  lemma RestOk(s: Sys, a: Act)
    requires Can(s, a) && Actor(a).Some? && a.t in Do(s, a).threads
    requires !a.ReadEntry? && !a.DialWorks? && !a.PingEnds? && !a.BeginLoad? && !a.LoadWorks?
    ensures EpOk(Do(s, a), Do(s, a).threads[a.t])
  {
  }

  lemma ActorOk(s: Sys, a: Act, t: Tid)
    requires EpsOk(s) && Can(s, a) && t in Do(s, a).threads
    ensures EpOk(Do(s, a), Do(s, a).threads[t])
  {
    if Actor(a) != Some(t) {
      OthersStay(s, a, t);
      EpStays(s, a, s.threads[t]);
    } else if a.ReadEntry? || a.DialWorks? || a.PingEnds? {
      ReconnectOk(s, a);
    } else if a.BeginLoad? || a.LoadWorks? {
      ReloadOk(s, a);
    } else {
      RestOk(s, a);
    }
  }

  lemma StepKeepsEps(s: Sys, a: Act)
    requires EpsOk(s) && Can(s, a)
    ensures EpsOk(Do(s, a))
  {
    forall t | t in Do(s, a).threads
      ensures EpOk(Do(s, a), Do(s, a).threads[t])
    {
      ActorOk(s, a, t);
    }
  }

  /** The swap of a reconnect whose entry has another endpoint by now. */
  predicate StaleSwap(s: Sys, a: Act)
    requires Can(s, a)
  {
    a.SwapIn? && var th := s.threads[a.t]; th.name in s.m.entries && th.ep != s.m.entries[th.name].ep
  }

  /** Exactly the stale swaps break the agreement of pools and endpoints. */
  lemma AgreeIff(s: Sys, a: Act)
    requires EpsOk(s) && Agree(s) && Can(s, a)
    ensures Agree(Do(s, a)) <==> !StaleSwap(s, a)
  {
    var r := Do(s, a);
    if a.SwapIn? && s.threads[a.t].name in s.m.entries {
      SwapAgrees(s, a.t);
    } else {
      forall n | n in r.m.entries
        ensures DialledTo(r, r.m.entries[n].pool, r.m.entries[n].ep)
      {
        PlainAgrees(s, a, n);
      }
    }
  }

  lemma SwapAgrees(s: Sys, t: Tid)
    requires EpsOk(s) && Agree(s) && Can(s, SwapIn(t)) && s.threads[t].name in s.m.entries
    ensures Agree(Do(s, SwapIn(t))) <==> !StaleSwap(s, SwapIn(t))
  {
    var r, th := Do(s, SwapIn(t)), s.threads[t];
    assert EpOk(s, th);
    assert r.m.entries[th.name].pool == th.pool && r.m.entries[th.name].ep == s.m.entries[th.name].ep;
    forall n | n in r.m.entries && n != th.name
      ensures DialledTo(r, r.m.entries[n].pool, r.m.entries[n].ep)
    {
      assert r.m.entries[n] == s.m.entries[n];
    }
  }

  lemma PlainAgrees(s: Sys, a: Act, n: string)
    requires EpsOk(s) && Agree(s) && Can(s, a) && n in Do(s, a).m.entries
    requires a.SwapIn? ==> s.threads[a.t].name !in s.m.entries
    ensures DialledTo(Do(s, a), Do(s, a).m.entries[n].pool, Do(s, a).m.entries[n].ep)
  {
    if a.CommitLoad? {
      assert EpOk(s, s.threads[a.t]);
    } else {
      EndpointsStay(s, a, n);
      DialsGrow(s, a, s.m.entries[n].pool, s.m.entries[n].ep);
    }
  }

  /** A swap with no reload since the entry was read is not stale. */
  lemma TimelySwap(s: Sys, t: Tid)
    requires EpsOk(s) && Can(s, SwapIn(t)) && s.threads[t].at == s.reloads
    ensures !StaleSwap(s, SwapIn(t))
  {
    assert EpOk(s, s.threads[t]);
  }
}
