/** What reconnects and reloads do in whole runs of the upstream manager: when a reconnect
    stops trying, what its swap does to the active upstream, and whose settings are in
    force (upstream/manager.go). */
module ReconnectRuns {
  import opened Options
  import opened Upstreams
  import opened Ledger
  import opened PoolSystem
  import opened PoolInvariants
  import opened PoolRuns
  import Endpoints
  import Selection

  // ---- when a reconnect stops ----

  /** Between setting the flag of its entry and being through with it, a reconnect reads,
      dials, pings, swaps, or closes a pool that did not answer its ping. */
  predicate Trying(s: Sys, t: Tid) {
    && t in s.threads
    && match s.threads[t]
       case Looking(_, _) => true
       case Dialling(_, _, _, _) => true
       case Pinging(_, _, _, _, _) => true
       case Swapping(_, _, _, _, _) => true
       case Disposing(_, _, _, retry) => retry
       case _ => false
  }

  /** Reconnect `t` sets a flag that was not set. */
  predicate SetsOut(s: Sys, a: Act, t: Tid)
    requires Can(s, a)
  {
    a == SetFlag(t) && s.threads[t].eid !in s.busy
  }

  /** Reconnect `t` finds the context cancelled, or its entry gone, or its entry healthy
      with a pool that is alive; or it swaps its pool in, or finds its entry gone then. */
  predicate Concludes(s: Sys, a: Act, t: Tid)
    requires Can(s, a)
  {
    match a
    case Stop(u) => u == t && s.done
    case ReadEntry(u, alive) =>
      u == t && (s.threads[t].name !in s.m.entries || (Healthy(s.m.entries, s.threads[t].name) && alive))
    case SwapIn(u) => u == t
    case _ => false
  }

  lemma StepTrying(s: Sys, a: Act, t: Tid)
    requires Can(s, a)
    ensures Trying(Do(s, a), t) <==> SetsOut(s, a, t) || (Trying(s, t) && !Concludes(s, a, t))
  {
    if Actor(a) != Some(t) {
      OthersStay(s, a, t);
    } else if a.SetFlag? || a.Stop? || a.ReadEntry? || a.SwapIn? {
      TurnsTrying(s, a);
    } else {
      StaysTrying(s, a);
    }
  }

  lemma TurnsTrying(s: Sys, a: Act)
    requires Can(s, a) && (a.SetFlag? || a.Stop? || a.ReadEntry? || a.SwapIn?)
    ensures Trying(Do(s, a), a.t) <==> SetsOut(s, a, a.t) || (Trying(s, a.t) && !Concludes(s, a, a.t))
  {
  }

  lemma StaysTrying(s: Sys, a: Act)
    requires Can(s, a) && Actor(a).Some? && !a.SetFlag? && !a.Stop? && !a.ReadEntry? && !a.SwapIn?
    ensures Trying(Do(s, a), a.t) <==> Trying(s, a.t)
  {
  }

  /** Step `f` set reconnect `t` out and no step since has concluded it. */
  ghost predicate OutSince(ss: seq<Sys>, acts: seq<Act>, f: nat, n: nat, t: Tid)
    requires |ss| == |acts| + 1 && f < n < |ss|
  {
    && StepAt(ss, acts, f) && SetsOut(ss[f], acts[f], t)
    && forall k: nat {:trigger StepAt(ss, acts, k)} | f < k < n && StepAt(ss, acts, k) :: !Concludes(ss[k], acts[k], t)
  }

  lemma OutSinceStep(ss: seq<Sys>, acts: seq<Act>, f: nat, n: nat, t: Tid)
    requires Runs(ss, acts) && f < n - 1 && n < |ss| && StepAt(ss, acts, n - 1)
    ensures OutSince(ss, acts, f, n, t) <==>
              OutSince(ss, acts, f, n - 1, t) && !Concludes(ss[n - 1], acts[n - 1], t)
  {
  }

  ghost predicate Out(ss: seq<Sys>, acts: seq<Act>, n: nat, t: Tid)
    requires |ss| == |acts| + 1 && n < |ss|
  {
    exists f: nat :: f < n && OutSince(ss, acts, f, n, t)
  }

  lemma OutStep(ss: seq<Sys>, acts: seq<Act>, n: nat, t: Tid)
    requires Runs(ss, acts) && 0 < n < |ss| && StepAt(ss, acts, n - 1)
    ensures Out(ss, acts, n, t) <==>
              SetsOut(ss[n - 1], acts[n - 1], t) || (Out(ss, acts, n - 1, t) && !Concludes(ss[n - 1], acts[n - 1], t))
  {
    var l := n - 1;
    if SetsOut(ss[l], acts[l], t) {
      assert OutSince(ss, acts, l, n, t);
    }
    if f: nat :| f < n && OutSince(ss, acts, f, n, t) {
      if f < l {
        OutSinceStep(ss, acts, f, n, t);
      }
    }
    if f: nat :| f < l && OutSince(ss, acts, f, l, t) {
      OutSinceStep(ss, acts, f, n, t);
    }
  }

  /** In every run, exactly: a reconnect goes on trying, whatever dials and pings fail, from
      the step that set its flag until one of those steps concludes it. */
  lemma {:induction false} TryingIff(ss: seq<Sys>, acts: seq<Act>, n: nat, t: Tid)
    requires Runs(ss, acts) && n < |ss|
    ensures Trying(ss[n], t) <==> Out(ss, acts, n, t)
  {
    if n == 0 {
    } else {
      TryingIff(ss, acts, n - 1, t);
      assert StepAt(ss, acts, n - 1);
      StepTrying(ss[n - 1], acts[n - 1], t);
      OutStep(ss, acts, n, t);
    }
  }

  /** It is through, but for the flag and the pool it still has to close. */
  predicate Through(s: Sys, t: Tid) {
    t in s.threads && (s.threads[t].Leaving? || (s.threads[t].Disposing? && !s.threads[t].retry))
  }

  lemma StepThrough(s: Sys, a: Act, t: Tid)
    requires Can(s, a) && Through(Do(s, a), t)
    ensures Through(s, t) || Concludes(s, a, t)
  {
    if Actor(a) != Some(t) {
      OthersStay(s, a, t);
    }
  }

  /** So a reconnect clears its flag only after one of those steps. */
  lemma {:induction false} LeavesAfter(ss: seq<Sys>, acts: seq<Act>, n: nat, t: Tid)
    requires Runs(ss, acts) && n < |ss| && Through(ss[n], t)
    ensures exists k: nat {:trigger StepAt(ss, acts, k)} ::
              k < n && StepAt(ss, acts, k) && Concludes(ss[k], acts[k], t)
  {
    if n == 0 {
    } else {
      assert StepAt(ss, acts, n - 1);
      StepThrough(ss[n - 1], acts[n - 1], t);
      if Through(ss[n - 1], t) {
        LeavesAfter(ss, acts, n - 1, t);
      }
    }
  }

  lemma StepCancels(s: Sys, a: Act)
    requires Can(s, a)
    ensures Do(s, a).done <==> s.done || a.Cancel? || a.CloseManager?
  {
  }

  /** In every run the context is cancelled once the program is stopped or the manager is
      closed, and not before. */
  lemma {:induction false} CancelledIff(ss: seq<Sys>, acts: seq<Act>, n: nat)
    requires Runs(ss, acts) && n < |ss|
    ensures ss[n].done <==> exists i :: 0 <= i < n && (acts[i].Cancel? || acts[i].CloseManager?)
  {
    if n == 0 {
    } else {
      CancelledIff(ss, acts, n - 1);
      assert StepAt(ss, acts, n - 1);
      StepCancels(ss[n - 1], acts[n - 1]);
    }
  }

  // ---- what its swap does ----

  /** In every run, the swap of a reconnect that finds its entry leaves a healthy upstream
      active: the one that was, if it was healthy, and else the reconnected one. */
  lemma SwapInRevives(ss: seq<Sys>, acts: seq<Act>, i: nat)
    requires Runs(ss, acts) && i < |acts| && acts[i].SwapIn?
    ensures acts[i].t in ss[i].threads && ss[i].threads[acts[i].t].Swapping?
    ensures var (name, m, r) := (ss[i].threads[acts[i].t].name, ss[i].m, ss[i + 1].m);
            name in m.entries ==>
              && Healthy(r.entries, name) && r.entries[name].pool == ss[i].threads[acts[i].t].pool
              && Healthy(r.entries, r.active)
              && r.active == if Healthy(m.entries, m.active) then m.active else name
  {
    assert StepAt(ss, acts, i);
    RunKeepsCoherent(ss, acts, i);
    var th := ss[i].threads[acts[i].t];
    if th.name in ss[i].m.entries {
      Selection.SwapRevives(ss[i].m, th.name, th.pool);
    }
  }

  // ---- whose settings are in force ----

  lemma StepKeepsSettings(s: Sys, a: Act)
    requires Can(s, a) && !a.CommitLoad?
    ensures Do(s, a).m.strategy == s.m.strategy && Do(s, a).m.health == s.m.health
  {
    if a.Check? {
      RoundFrame(s.m, a.names, a.pings);
    } else if !a.Route? && !a.SwapIn? {
      ManagerUntouched(s, a);
    }
  }

  /** The load in progress was begun with its endpoints and settings. */
  lemma {:induction false} LoadBegan(ss: seq<Sys>, acts: seq<Act>, n: nat, t: Tid) returns (h: nat)
    requires Runs(ss, acts) && n < |ss| && t in ss[n].threads && ss[n].threads[t].Loading?
    ensures h < n && acts[h].BeginLoad? && acts[h].t == t
    ensures var th := ss[n].threads[t];
            acts[h].eps == th.eps && acts[h].strategy == th.strategy && acts[h].health == th.health
  {
    assert n > 0 && StepAt(ss, acts, n - 1);
    LoadingAfter(ss[n - 1], acts[n - 1], t);
    if Actor(acts[n - 1]) == Some(t) && acts[n - 1].BeginLoad? {
      h := n - 1;
    } else {
      h := LoadBegan(ss, acts, n - 1, t);
    }
  }

  /** In every run, after a load has been committed and until the next one is, the strategy
      and the thresholds are those that the load was begun with, and at the commit the
      entries are those of its endpoints. */
  lemma {:induction false} RunSettings(ss: seq<Sys>, acts: seq<Act>, i: nat, n: nat) returns (h: nat)
    requires Runs(ss, acts) && i < n < |ss| && acts[i].CommitLoad?
    requires forall k | i < k < n :: !acts[k].CommitLoad?
    ensures h < i && acts[h].BeginLoad? && acts[h].t == acts[i].t
    ensures ss[n].m.strategy == acts[h].strategy && ss[n].m.health == acts[h].health
    ensures n == i + 1 ==> ss[n].m.entries.Keys == Endpoints.Names(acts[h].eps)
  {
    assert StepAt(ss, acts, n - 1);
    if n == i + 1 {
      h := LoadBegan(ss, acts, i, acts[i].t);
      RunLoads(ss, acts, i);
      CommitInstalls(ss[i], acts[i].t);
    } else {
      h := RunSettings(ss, acts, i, n - 1);
      StepKeepsSettings(ss[n - 1], acts[n - 1]);
    }
  }
}
