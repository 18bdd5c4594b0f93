/** The upstream manager with everything that runs beside it: reconnects, Reload,
    NewManager and Close (upstream/manager.go). A locked region is one step; dialling,
    pinging, closing a pool and touching a reconnect flag are steps of their own, and
    any goroutine may take the next one. */
module PoolSystem {
  import opened Options
  import opened Config
  import opened Endpoints
  import opened Upstreams
  import opened Ledger

  // ---- goroutines ----

  /** A goroutine by what it does next. `eid` is the entry object whose reconnect flag
      a reconnect has set, `ep` and `at` the endpoint it dials and when it read it,
      counted in reloads. */
  datatype Thread =
    | Starting(name: string)
    | Flagging(name: string, eid: nat)
    | Looking(name: string, eid: nat)
    | Dialling(name: string, eid: nat, ep: Endpoint, at: nat)
    | Pinging(name: string, eid: nat, ep: Endpoint, at: nat, pool: PoolId)
    | Swapping(name: string, eid: nat, ep: Endpoint, at: nat, pool: PoolId)
    | Disposing(name: string, eid: nat, pool: PoolId, retry: bool)
    | Leaving(eid: nat)
    | Loading(eps: seq<Endpoint>, k: nat, staged: map<string, Entry>, order: seq<string>,
              strategy: Strategy, health: Thresholds)
    | Closing(pools: map<string, PoolId>)

  function Pools(es: map<string, Entry>): map<string, PoolId> {
    map n | n in es :: es[n].pool
  }

  /** The pools a goroutine holds. */
  function Held(th: Thread): map<string, PoolId> {
    match th
    case Pinging(name, _, _, _, pool) => map[name := pool]
    case Swapping(name, _, _, _, pool) => map[name := pool]
    case Disposing(name, _, pool, _) => map[name := pool]
    case Loading(_, _, staged, _, _, _) => Pools(staged)
    case Closing(pools) => pools
    case _ => map[]
  }

  /** The entry whose reconnect flag a goroutine has set. */
  function Flag(th: Thread): Option<nat> {
    match th
    case Looking(_, eid) => Some(eid)
    case Dialling(_, eid, _, _) => Some(eid)
    case Pinging(_, eid, _, _, _) => Some(eid)
    case Swapping(_, eid, _, _, _) => Some(eid)
    case Disposing(_, eid, _, _) => Some(eid)
    case Leaving(eid) => Some(eid)
    case _ => None
  }

  // ---- the system ----

  /** `done` is whether the context was cancelled, `busy` the entries whose reconnect
      flag is set, `dialled` which endpoint each pool was dialled to, `reloads` how many
      times entries were replaced. */
  datatype Sys = Sys(m: Manager, done: bool, busy: set<nat>, nextEntry: nat, dialled: map<PoolId, Endpoint>,
                     threads: map<Tid, Thread>, closed: multiset<PoolId>, reloads: nat)

  const START := Sys(FRESH, false, {}, 0, map[], map[], multiset{}, 0)

  datatype Act =
    | Route(bind: string)
    | Check(names: seq<string>, pings: Pings)
    | Cancel
    | Spawn(t: Tid, name: string)
    | LookUp(t: Tid)
    | SetFlag(t: Tid)
    | Stop(t: Tid)
    | ReadEntry(t: Tid, alive: bool)
    | DialFails(t: Tid)
    | DialWorks(t: Tid, pool: PoolId)
    | PingEnds(t: Tid, ok: bool)
    | SwapIn(t: Tid)
    | DisposePool(t: Tid)
    | Leave(t: Tid)
    | BeginLoad(t: Tid, eps: seq<Endpoint>, strategy: Strategy, health: Thresholds)
    | LoadFails(t: Tid)
    | LoadWorks(t: Tid, pool: PoolId)
    | CommitLoad(t: Tid)
    | CloseManager(t: Tid)
    | CloseNext(t: Tid, name: string)
    | EndClosing(t: Tid)

  /** Endpoints as UpstreamEndpoints yields them. */
  predicate Usable(eps: seq<Endpoint>) {
    eps != [] && forall i | 0 <= i < |eps| :: eps[i].name != "" && eps[i].weight >= 1
  }

  predicate New(s: Sys, t: Tid) {
    t !in s.threads
  }

  predicate Can(s: Sys, a: Act) {
    match a
    case Route(_) => true
    case Check(names, _) => Iterates(names, s.m.entries.Keys)
    case Cancel => true
    case Spawn(t, _) => New(s, t)
    case LookUp(t) => t in s.threads && s.threads[t].Starting?
    case SetFlag(t) => t in s.threads && s.threads[t].Flagging?
    case Stop(t) => t in s.threads && s.threads[t].Looking? && s.done
    case ReadEntry(t, _) => t in s.threads && s.threads[t].Looking?
    case DialFails(t) => t in s.threads && s.threads[t].Dialling?
    case DialWorks(t, pool) => t in s.threads && s.threads[t].Dialling? && pool !in s.dialled
    case PingEnds(t, _) => t in s.threads && s.threads[t].Pinging?
    case SwapIn(t) => t in s.threads && s.threads[t].Swapping?
    case DisposePool(t) => t in s.threads && s.threads[t].Disposing?
    case Leave(t) => t in s.threads && s.threads[t].Leaving?
    case BeginLoad(t, eps, _, health) => New(s, t) && Usable(eps) && Positive(health)
    case LoadFails(t) => t in s.threads && s.threads[t].Loading? && s.threads[t].k < |s.threads[t].eps|
    case LoadWorks(t, pool) =>
      t in s.threads && s.threads[t].Loading? && s.threads[t].k < |s.threads[t].eps| && pool !in s.dialled
    case CommitLoad(t) => t in s.threads && s.threads[t].Loading? && s.threads[t].k >= |s.threads[t].eps|
    case CloseManager(t) => New(s, t)
    case CloseNext(t, name) => t in s.threads && s.threads[t].Closing? && name in s.threads[t].pools
    case EndClosing(t) => t in s.threads && s.threads[t] == Closing(map[])
  }

  function Goes(s: Sys, t: Tid, th: Thread): Sys {
    s.(threads := s.threads[t := th])
  }

  function Ends(s: Sys, t: Tid): Sys {
    s.(threads := s.threads - {t})
  }

  /** Reload's loop after one more successful dial. */
  function Stage(th: Thread, id: nat, pool: PoolId): Thread
    requires th.Loading? && th.k < |th.eps|
  {
    var ep := th.eps[th.k];
    th.(k := th.k + 1, staged := th.staged[ep.name := FreshEntry(id, ep, pool)], order := th.order + [ep.name])
  }

  function Do(s: Sys, a: Act): Sys
    requires Can(s, a)
  {
    match a
    case Route(bind) => s.(m := Upstreams.Route(s.m, bind).m)
    case Check(names, pings) => s.(m := Round(s.m, names, pings))
    case Cancel => s.(done := true)

    // reconnect(name)
    case Spawn(t, name) => Goes(s, t, Starting(name))
    case LookUp(t) =>
      var name := s.threads[t].name;
      if name in s.m.entries then Goes(s, t, Flagging(name, s.m.entries[name].id)) else Ends(s, t)
    case SetFlag(t) =>
      var th := s.threads[t];
      if th.eid in s.busy then Ends(s, t) else Goes(s.(busy := s.busy + {th.eid}), t, Looking(th.name, th.eid))
    case Stop(t) => Goes(s, t, Leaving(s.threads[t].eid))
    case ReadEntry(t, alive) =>
      var th := s.threads[t];
      if th.name !in s.m.entries || (s.m.entries[th.name].healthy && alive) then Goes(s, t, Leaving(th.eid))
      else Goes(s, t, Dialling(th.name, th.eid, s.m.entries[th.name].ep, s.reloads))
    case DialFails(t) => Goes(s, t, Looking(s.threads[t].name, s.threads[t].eid))
    case DialWorks(t, pool) =>
      var th := s.threads[t];
      Goes(s.(dialled := s.dialled[pool := th.ep]), t, Pinging(th.name, th.eid, th.ep, th.at, pool))
    case PingEnds(t, ok) =>
      var th := s.threads[t];
      Goes(s, t, if ok then Swapping(th.name, th.eid, th.ep, th.at, th.pool)
                 else Disposing(th.name, th.eid, th.pool, true))
    case SwapIn(t) =>
      var th := s.threads[t];
      if th.name !in s.m.entries then Goes(s, t, Disposing(th.name, th.eid, th.pool, false))
      else Goes(s.(m := Swap(s.m, th.name, th.pool)), t,
                Disposing(th.name, th.eid, s.m.entries[th.name].pool, false))
    case DisposePool(t) =>
      var th := s.threads[t];
      Goes(s.(closed := s.closed + multiset{th.pool}), t,
           if th.retry then Looking(th.name, th.eid) else Leaving(th.eid))
    case Leave(t) => Ends(s.(busy := s.busy - {s.threads[t].eid}), t)

    // Reload and NewManager
    case BeginLoad(t, eps, strategy, health) => Goes(s, t, Loading(eps, 0, map[], [], strategy, health))
    case LoadFails(t) => Goes(s, t, Closing(Pools(s.threads[t].staged)))
    case LoadWorks(t, pool) =>
      var th := s.threads[t];
      Goes(s.(dialled := s.dialled[pool := th.eps[th.k]], nextEntry := s.nextEntry + 1), t,
           Stage(th, s.nextEntry, pool))
    case CommitLoad(t) =>
      var th := s.threads[t];
      Goes(s.(m := Commit(s.m, th.staged, th.order, th.strategy, th.health), reloads := s.reloads + 1), t,
           Closing(Pools(s.m.entries)))

    // Close, which keeps the lock until it has closed the last pool
    case CloseManager(t) => Goes(s.(m := Shut(s.m), done := true), t, Closing(Pools(s.m.entries)))
    case CloseNext(t, name) =>
      var pools := s.threads[t].pools;
      Goes(s.(closed := s.closed + multiset{pools[name]}), t, Closing(pools - {name}))
    case EndClosing(t) => Ends(s, t)
  }

  /** The goroutine that takes the step, if it is not one of the callers or the ticker. */
  function Actor(a: Act): Option<Tid> {
    match a
    case Route(_) => None
    case Check(_, _) => None
    case Cancel => None
    case _ => Some(a.t)
  }

  lemma OthersStay(s: Sys, a: Act, t: Tid)
    requires Can(s, a) && Actor(a) != Some(t)
    ensures t in Do(s, a).threads <==> t in s.threads
    ensures t in s.threads ==> Do(s, a).threads[t] == s.threads[t]
  {
  }

  // ---- ownership ----

  function LedgerOf(s: Sys): Ledger {
    Ledger(Pools(s.m.entries), map t | t in s.threads :: Held(s.threads[t]), s.closed)
  }

  /** What an action does to the ownership of pools. */
  function MoveOf(s: Sys, a: Act): Move
    requires Can(s, a)
  {
    match a
    case DialWorks(t, pool) => Take(t, s.threads[t].name, pool)
    case LoadWorks(t, pool) => Take(t, s.threads[t].eps[s.threads[t].k].name, pool)
    case SwapIn(t) =>
      var name := s.threads[t].name;
      if name in s.m.entries then Exchange(t, name, name) else Stay
    case DisposePool(t) => Dispose(t, s.threads[t].name)
    case CloseNext(t, name) => Dispose(t, name)
    case CommitLoad(t) => Handover(t)
    case CloseManager(t) => Handover(t)
    case _ => Stay
  }

  function Holds(s: Sys, t: Tid): map<string, PoolId> {
    if t in s.threads then Held(s.threads[t]) else map[]
  }

  /** Only goroutine `t` changes, starts or ends from `s` to `r`. */
  ghost predicate OnlyThread(s: Sys, r: Sys, t: Tid) {
    && (forall u | u != t :: u in s.threads <==> u in r.threads)
    && (forall u | u != t && u in s.threads :: r.threads[u] == s.threads[u])
  }

  /** So only its pools can move. */
  lemma OthersHold(s: Sys, r: Sys, t: Tid)
    requires OnlyThread(s, r, t)
    ensures OthersSame(LedgerOf(s), LedgerOf(r), t)
    ensures HeldBy(LedgerOf(s), t) == Holds(s, t) && HeldBy(LedgerOf(r), t) == Holds(r, t)
  {
    forall u: Tid | u != t
      ensures SameHeld(LedgerOf(s), LedgerOf(r), u)
    {
    }
  }

  lemma Quiet(s: Sys, r: Sys, t: Tid)
    requires OnlyThread(s, r, t) && Pools(r.m.entries) == Pools(s.m.entries) && r.closed == s.closed
    requires Holds(r, t) == Holds(s, t)
    ensures Moved(LedgerOf(s), Stay, LedgerOf(r))
  {
    OthersHold(s, r, t);
    forall u: Tid
      ensures SameHeld(LedgerOf(s), LedgerOf(r), u)
    {
      assert u != t ==> SameHeld(LedgerOf(s), LedgerOf(r), u);
    }
  }

  lemma ManagerStays(s: Sys, a: Act)
    requires Can(s, a) && (a.Route? || a.Check? || a.Cancel?)
    ensures Moved(LedgerOf(s), Stay, LedgerOf(Do(s, a)))
  {
    if a.Check? {
      RoundFrame(s.m, a.names, a.pings);
    }
    Quiet(s, Do(s, a), 0);
  }

  lemma StartStays(s: Sys, a: Act)
    requires Can(s, a) && (a.Spawn? || a.LookUp? || a.SetFlag? || a.EndClosing?)
    ensures Moved(LedgerOf(s), Stay, LedgerOf(Do(s, a)))
  {
    Quiet(s, Do(s, a), a.t);
  }

  lemma RetryStays(s: Sys, a: Act)
    requires Can(s, a) && (a.Stop? || a.ReadEntry? || a.DialFails? || a.Leave?)
    ensures Moved(LedgerOf(s), Stay, LedgerOf(Do(s, a)))
  {
    Quiet(s, Do(s, a), a.t);
  }

  lemma PingStays(s: Sys, t: Tid, ok: bool)
    requires Can(s, PingEnds(t, ok))
    ensures Moved(LedgerOf(s), Stay, LedgerOf(Do(s, PingEnds(t, ok))))
  {
    Quiet(s, Do(s, PingEnds(t, ok)), t);
  }

  lemma LoadStays(s: Sys, a: Act)
    requires Can(s, a) && (a.BeginLoad? || a.LoadFails?)
    ensures Moved(LedgerOf(s), Stay, LedgerOf(Do(s, a)))
  {
    Quiet(s, Do(s, a), a.t);
  }

  lemma DialTakes(s: Sys, t: Tid, pool: PoolId)
    requires Can(s, DialWorks(t, pool))
    ensures Moved(LedgerOf(s), Take(t, s.threads[t].name, pool), LedgerOf(Do(s, DialWorks(t, pool))))
  {
    OthersHold(s, Do(s, DialWorks(t, pool)), t);
  }

  lemma LoadTakes(s: Sys, t: Tid, pool: PoolId)
    requires Can(s, LoadWorks(t, pool))
    ensures Moved(LedgerOf(s), Take(t, s.threads[t].eps[s.threads[t].k].name, pool),
                  LedgerOf(Do(s, LoadWorks(t, pool))))
  {
    OthersHold(s, Do(s, LoadWorks(t, pool)), t);
  }

  lemma PoolDisposed(s: Sys, t: Tid)
    requires Can(s, DisposePool(t))
    ensures Moved(LedgerOf(s), Dispose(t, s.threads[t].name), LedgerOf(Do(s, DisposePool(t))))
  {
    OthersHold(s, Do(s, DisposePool(t)), t);
  }

  lemma NextDisposed(s: Sys, t: Tid, name: string)
    requires Can(s, CloseNext(t, name))
    ensures Moved(LedgerOf(s), Dispose(t, name), LedgerOf(Do(s, CloseNext(t, name))))
  {
    OthersHold(s, Do(s, CloseNext(t, name)), t);
  }

  lemma SwapStays(s: Sys, t: Tid)
    requires Can(s, SwapIn(t)) && s.threads[t].name !in s.m.entries
    ensures Moved(LedgerOf(s), Stay, LedgerOf(Do(s, SwapIn(t))))
  {
    Quiet(s, Do(s, SwapIn(t)), t);
  }

  lemma SwapPools(m: Manager, name: string, pool: PoolId)
    requires name in m.entries
    ensures Pools(Swap(m, name, pool).entries) == Pools(m.entries)[name := pool]
  {
  }

  lemma SwapExchanges(s: Sys, t: Tid)
    requires Can(s, SwapIn(t)) && s.threads[t].name in s.m.entries
    ensures Moved(LedgerOf(s), Exchange(t, s.threads[t].name, s.threads[t].name), LedgerOf(Do(s, SwapIn(t))))
  {
    SwapPools(s.m, s.threads[t].name, s.threads[t].pool);
    Exchanged(s, Do(s, SwapIn(t)), t, s.threads[t].name, s.threads[t].pool);
  }

  lemma Exchanged(s: Sys, r: Sys, t: Tid, name: string, pool: PoolId)
    requires OnlyThread(s, r, t) && name in s.m.entries && r.closed == s.closed
    requires Pools(r.m.entries) == Pools(s.m.entries)[name := pool]
    requires Holds(s, t) == map[name := pool] && Holds(r, t) == map[name := s.m.entries[name].pool]
    ensures Moved(LedgerOf(s), Exchange(t, name, name), LedgerOf(r))
  {
    OthersHold(s, r, t);
  }

  lemma CommitHandsOver(s: Sys, t: Tid)
    requires Can(s, CommitLoad(t))
    ensures Moved(LedgerOf(s), Handover(t), LedgerOf(Do(s, CommitLoad(t))))
  {
    OthersHold(s, Do(s, CommitLoad(t)), t);
  }

  lemma CloseHandsOver(s: Sys, t: Tid)
    requires Can(s, CloseManager(t))
    ensures Moved(LedgerOf(s), Handover(t), LedgerOf(Do(s, CloseManager(t))))
  {
    OthersHold(s, Do(s, CloseManager(t)), t);
  }

  /** Every step moves pools in one of the five ways the ledger knows. */
  lemma StepMoves(s: Sys, a: Act)
    requires Can(s, a)
    ensures Moved(LedgerOf(s), MoveOf(s, a), LedgerOf(Do(s, a)))
  {
    match a
    case Route(_) => ManagerStays(s, a);
    case Check(_, _) => ManagerStays(s, a);
    case Cancel => ManagerStays(s, a);
    case Spawn(_, _) => StartStays(s, a);
    case LookUp(_) => StartStays(s, a);
    case SetFlag(_) => StartStays(s, a);
    case EndClosing(_) => StartStays(s, a);
    case Stop(_) => RetryStays(s, a);
    case ReadEntry(_, _) => RetryStays(s, a);
    case DialFails(_) => RetryStays(s, a);
    case Leave(_) => RetryStays(s, a);
    case DialWorks(t, pool) => DialTakes(s, t, pool);
    case PingEnds(t, ok) => PingStays(s, t, ok);
    case SwapIn(t) =>
      if s.threads[t].name in s.m.entries {
        SwapExchanges(s, t);
      } else {
        SwapStays(s, t);
      }
    case DisposePool(t) => PoolDisposed(s, t);
    case BeginLoad(_, _, _, _) => LoadStays(s, a);
    case LoadFails(_) => LoadStays(s, a);
    case LoadWorks(t, pool) => LoadTakes(s, t, pool);
    case CommitLoad(t) => CommitHandsOver(s, t);
    case CloseManager(t) => CloseHandsOver(s, t);
    case CloseNext(t, name) => NextDisposed(s, t, name);
  }

  lemma StepDials(s: Sys, a: Act)
    requires Can(s, a)
    ensures Fresh(MoveOf(s, a), s.dialled.Keys)
    ensures Do(s, a).dialled.Keys == Dialled(MoveOf(s, a), s.dialled.Keys)
  {
  }
}
