/** Runs that show where the guarantees of the upstream manager end. */
module PoolWitness {
  import opened Endpoints
  import opened Upstreams
  import opened Ledger
  import opened PoolSystem
  import opened PoolInvariants
  import opened PoolRuns

  /** A run so far. */
  datatype Run = Run(ss: seq<Sys>, acts: seq<Act>) {
    ghost predicate Ok() {
      Runs(ss, acts)
    }

    function Last(): Sys
      requires ss != []
    {
      ss[|ss| - 1]
    }

    ghost predicate GoesOn(r: Run) {
      ss <= r.ss && acts <= r.acts
    }
  }

  lemma Started() returns (r: Run)
    ensures r.Ok() && r.Last() == START
  {
    r := Run([START], []);
  }

  lemma Extend(r: Run, a: Act) returns (r': Run)
    requires r.Ok() && Can(r.Last(), a)
    ensures r'.Ok() && r'.Last() == Do(r.Last(), a)
    ensures r'.ss == r.ss + [r'.Last()] && r'.acts == r.acts + [a]
  {
    r' := Run(r.ss + [Do(r.Last(), a)], r.acts + [a]);
    forall i: nat | i < |r'.acts|
      ensures StepAt(r'.ss, r'.acts, i)
    {
      if i < |r.acts| {
        assert StepAt(r.ss, r.acts, i);
      }
    }
  }

  predicate Plain(ep: Endpoint) {
    ep.name != "" && ep.weight >= 1
  }

  function One(ep: Endpoint, id: nat, pool: PoolId): map<string, Entry> {
    map[ep.name := FreshEntry(id, ep, pool)]
  }

  /** A reload that begins, and one that has dialled its only endpoint. */
  lemma DialOne(r: Run, t: Tid, ep: Endpoint, pool: PoolId) returns (r': Run)
    requires r.Ok() && New(r.Last(), t) && Plain(ep) && pool !in r.Last().dialled
    ensures r'.Ok() && var (s, s') := (r.Last(), r'.Last());
            s' == s.(dialled := s.dialled[pool := ep], nextEntry := s.nextEntry + 1,
                     threads := s.threads[t := Loading([ep], 1, One(ep, s.nextEntry, pool), [ep.name],
                                                       Failover, Thresholds(3, 2))])
  {
    var r1 := Extend(r, BeginLoad(t, [ep], Failover, Thresholds(3, 2)));
    r' := Extend(r1, LoadWorks(t, pool));
    assert [ep][0] == ep && [] + [ep.name] == [ep.name];
    assert map[][ep.name := FreshEntry(r.Last().nextEntry, ep, pool)] == One(ep, r.Last().nextEntry, pool);
  }

  lemma CommitOne(r: Run, t: Tid, ep: Endpoint, id: nat, pool: PoolId) returns (r': Run)
    requires r.Ok() && t in r.Last().threads
    requires r.Last().threads[t] == Loading([ep], 1, One(ep, id, pool), [ep.name], Failover, Thresholds(3, 2))
    ensures r'.Ok() && var (s, s') := (r.Last(), r'.Last());
            && s'.m.entries == One(ep, id, pool) && s'.m.active == ep.name && s'.m.strategy == Failover
            && s'.reloads == s.reloads + 1
            && s'.threads == s.threads[t := Closing(Pools(s.m.entries))]
            && s'.dialled == s.dialled && s'.busy == s.busy && s'.done == s.done && s'.closed == s.closed
  {
    r' := Extend(r, CommitLoad(t));
  }

  /** A reconnect that reads its entry. */
  lemma StartReconnect(r: Run, u: Tid, ep: Endpoint, id: nat, pool: PoolId) returns (r': Run)
    requires r.Ok() && New(r.Last(), u) && r.Last().m.entries == One(ep, id, pool) && id !in r.Last().busy
    ensures r.GoesOn(r')
    ensures r'.Ok() && var (s, s') := (r.Last(), r'.Last());
            s' == s.(busy := s.busy + {id}, threads := s.threads[u := Dialling(ep.name, id, ep, s.reloads)])
  {
    var r1 := Extend(r, Spawn(u, ep.name));
    var r2 := Extend(r1, LookUp(u));
    var r3 := Extend(r2, SetFlag(u));
    r' := Extend(r3, ReadEntry(u, false));
  }

  /** One that dials what it read and swaps the pool in. */
  lemma FinishReconnect(r: Run, u: Tid, ep: Endpoint, pool: PoolId) returns (r': Run)
    requires r.Ok() && u in r.Last().threads && r.Last().threads[u].Dialling? && r.Last().threads[u].ep == ep
    requires pool !in r.Last().dialled && r.Last().threads[u].name in r.Last().m.entries
    ensures r.GoesOn(r')
    ensures r'.Ok() && var (s, s') := (r.Last(), r'.Last());
            && s'.m == Swap(s.m, s.threads[u].name, pool) && s'.dialled == s.dialled[pool := ep]
            && s'.closed == s.closed && u in s'.threads && s'.threads[u].Disposing?
            && s'.threads[u].pool == s.m.entries[s.threads[u].name].pool
  {
    var r1 := Extend(r, DialWorks(u, pool));
    var r2 := Extend(r1, PingEnds(u, true));
    r' := Extend(r2, SwapIn(u));
  }

  /** Why the agreement needs its hypothesis: a server is renumbered by a reload while a
      reconnect is dialling its old address. The reconnect then installs the pool to the
      old address in the new entry, and goes on to close the one the reload dialled. */
  lemma StaleReconnect(ep: Endpoint, ep': Endpoint) returns (r: Run)
    requires Plain(ep) && Plain(ep') && ep.name == ep'.name && ep != ep'
    ensures r.Ok() && !Agree(r.Last())
    ensures var s := r.Last();
            && s.m.entries.Keys == {ep.name} && s.m.entries[ep.name].ep == ep'
            && DialledTo(s, s.m.entries[ep.name].pool, ep)
            && exists t: Tid :: t in s.threads && s.threads[t].Disposing? && DialledTo(s, s.threads[t].pool, ep')
  {
    r := Started();
    r := DialOne(r, 0, ep, 10);
    r := CommitOne(r, 0, ep, 0, 10);
    r := StartReconnect(r, 1, ep, 0, 10);
    r := DialOne(r, 2, ep', 11);
    r := CommitOne(r, 2, ep', r.Last().nextEntry - 1, 11);
    r := FinishReconnect(r, 1, ep, 12);
  }

  /** Why Close must come after the last reload: one that is dialling while the manager
      is closed commits afterwards, and when all goroutines have ended its pool is
      installed in a closed manager and open. */
  lemma ReloadAfterClose(ep: Endpoint) returns (r: Run)
    requires Plain(ep)
    ensures r.Ok() && var s := r.Last();
            s.done && s.threads == map[] && s.m.entries.Keys == {ep.name} && s.m.entries[ep.name].pool !in s.closed
  {
    r := Started();
    r := DialOne(r, 0, ep, 10);
    r := Extend(r, CloseManager(5));
    r := Extend(r, EndClosing(5));
    r := CommitOne(r, 0, ep, 0, 10);
    r := Extend(r, EndClosing(0));
  }

  /** The first of two endpoints of one name. */
  lemma DialFirst(ep: Endpoint, ep': Endpoint) returns (r: Run)
    requires Plain(ep) && Plain(ep') && ep.name == ep'.name
    ensures r.Ok() && r.Last().dialled == map[10 := ep] && r.Last().closed == multiset{} && r.Last().m.entries == map[]
    ensures r.Last().nextEntry == 1
    ensures r.Last().threads == map[0 := Loading([ep, ep'], 1, One(ep, 0, 10), [ep.name], Failover, Thresholds(3, 2))]
  {
    r := Started();
    r := Extend(r, BeginLoad(0, [ep, ep'], Failover, Thresholds(3, 2)));
    r := Extend(r, LoadWorks(0, 10));
    assert r.Last().threads[0] == Loading([ep, ep'], 1, One(ep, 0, 10), [ep.name], Failover, Thresholds(3, 2));
  }

  /** Both of them. */
  lemma DialTwice(ep: Endpoint, ep': Endpoint) returns (r: Run)
    requires Plain(ep) && Plain(ep') && ep.name == ep'.name
    ensures r.Ok() && 10 in r.Last().dialled && r.Last().closed == multiset{} && r.Last().m.entries == map[]
    ensures r.Last().threads == map[0 := Loading([ep, ep'], 2, One(ep', 1, 11), [ep.name, ep.name],
                                                 Failover, Thresholds(3, 2))]
  {
    r := DialFirst(ep, ep');
    r := Extend(r, LoadWorks(0, 11));
    assert One(ep, 0, 10)[ep.name := FreshEntry(1, ep', 11)] == One(ep', 1, 11);
    assert [ep.name] + [ep'.name] == [ep.name, ep.name];
    assert r.Last().threads[0]
        == Loading([ep, ep'], 2, One(ep', 1, 11), [ep.name, ep.name], Failover, Thresholds(3, 2));
  }

  /** Why names must be distinct: of two endpoints of one name the first pool is
      forgotten, neither installed nor ever closed. */
  lemma RepeatedName(ep: Endpoint, ep': Endpoint) returns (r: Run)
    requires Plain(ep) && Plain(ep') && ep.name == ep'.name
    ensures r.Ok() && var s := r.Last();
            && s.threads == map[] && 10 in s.dialled && 10 !in s.closed
            && forall n | n in s.m.entries :: s.m.entries[n].pool != 10
  {
    r := DialTwice(ep, ep');
    r := Extend(r, CommitLoad(0));
    assert r.Last().threads == map[0 := Closing(map[])];
    r := Extend(r, EndClosing(0));
  }
}
