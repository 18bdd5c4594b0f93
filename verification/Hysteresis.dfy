/** What the two counters of an entry mean: the health flag as a function of the whole
    history of pings (runHealthCheck in upstream/manager.go). */
module Hysteresis {
  import opened Upstreams

  type History = seq<Ping>

  /** An entry as Dial, Reload and a reconnect leave it. */
  predicate Reset(e: Entry) {
    e.healthy && e.failures == 0 && e.recovers == 0
  }

  /** The entry after a history of pings, oldest first. */
  function Replay(e: Entry, h: History, t: Thresholds): Entry {
    if h == [] then e else Observe(Replay(e, h[..|h| - 1], t), h[|h| - 1], t)
  }

  /** How many failures, and how many successes, the history ends with. */
  function Fails(h: History): nat {
    if h == [] || h[|h| - 1] != Silent then 0 else Fails(h[..|h| - 1]) + 1
  }

  function Oks(h: History): nat {
    if h == [] || h[|h| - 1] == Silent then 0 else Oks(h[..|h| - 1]) + 1
  }

  /** With the `i`-th ping a run of t.fail failures is complete. */
  predicate Falls(h: History, i: nat, t: Thresholds)
    requires i <= |h|
  {
    Fails(h[..i]) >= t.fail
  }

  /** With the `j`-th ping a run of t.recover successes is complete. */
  predicate Rises(h: History, j: nat, t: Thresholds)
    requires j <= |h|
  {
    Oks(h[..j]) >= t.recover
  }

  /** Some run of failures was completed and no run of successes since. */
  ghost predicate Down(h: History, t: Thresholds) {
    exists i: nat :: i <= |h| && Falls(h, i, t) && forall j: nat | i < j <= |h| :: !Rises(h, j, t)
  }

  lemma FallsSnoc(h: History, p: Ping, i: nat, t: Thresholds)
    requires i <= |h|
    ensures Falls(h + [p], i, t) == Falls(h, i, t) && Rises(h + [p], i, t) == Rises(h, i, t)
  {
    assert (h + [p])[..i] == h[..i];
  }

  /** How one more ping changes the verdict. */
  lemma DownSnoc(h: History, p: Ping, t: Thresholds)
    requires Positive(t)
    ensures Down(h + [p], t) <==> Fails(h + [p]) >= t.fail || (Down(h, t) && Oks(h + [p]) < t.recover)
  {
    var g, n := h + [p], |h| + 1;
    assert g[..n] == g;
    if Down(g, t) {
      var i: nat :| i <= n && Falls(g, i, t) && forall j: nat | i < j <= n :: !Rises(g, j, t);
      if i < n {
        FallsSnoc(h, p, i, t);
        forall j: nat | i < j <= |h|
          ensures !Rises(h, j, t)
        {
          FallsSnoc(h, p, j, t);
        }
        assert Down(h, t) && !Rises(g, n, t);
      }
    }
    if Fails(g) >= t.fail {
      assert Falls(g, n, t);
    } else if Down(h, t) && Oks(g) < t.recover {
      var i: nat :| i <= |h| && Falls(h, i, t) && forall j: nat | i < j <= |h| :: !Rises(h, j, t);
      FallsSnoc(h, p, i, t);
      forall j: nat | i < j <= n
        ensures !Rises(g, j, t)
      {
        if j < n {
          FallsSnoc(h, p, j, t);
        }
      }
    }
  }

  /** The refinement: whatever the pings since the last reset, `failures` is the run of
      failures the history ends with, `recovers` the run of successes while the entry
      is down and zero while it is up, and the entry is unhealthy if and only if some
      run of FailThreshold failures has no completed run of RecoverThreshold successes
      after it. */
  lemma {:induction false} Refines(e: Entry, h: History, t: Thresholds)
    requires Reset(e) && Positive(t)
    ensures var a := Replay(e, h, t);
            && a.failures == Fails(h)
            && a.recovers == (if a.healthy then 0 else Oks(h))
            && (!a.healthy ==> Oks(h) < t.recover)
            && (!a.healthy <==> Down(h, t))
            && a.id == e.id && a.ep == e.ep && a.pool == e.pool
  {
    if h != [] {
      var n := |h| - 1;
      assert h == h[..n] + [h[n]];
      Refines(e, h[..n], t);
      DownSnoc(h[..n], h[n], t);
    } else {
      assert Fails(h[..0]) == 0;
    }
  }

  /** The hysteresis shows: right after a completed failure run the entry is down, right
      after a completed recovery run it is up, and in between it keeps its state. */
  lemma Turns(e: Entry, h: History, p: Ping, t: Thresholds)
    requires Reset(e) && Positive(t)
    ensures var (was, now) := (Replay(e, h, t).healthy, Replay(e, h + [p], t).healthy);
            && (was && !now <==> was && Fails(h + [p]) >= t.fail)
            && (!was && now <==> !was && Oks(h + [p]) >= t.recover)
  {
    Refines(e, h, t);
    Refines(e, h + [p], t);
    DownSnoc(h, p, t);
  }

  /** No ping after the `i`-th was answered. */
  predicate LastAnswer(h: History, i: nat) {
    i < |h| && h[i].Pong? && forall j | i < j < |h| :: h[j].Silent?
  }

  predicate Unanswered(h: History) {
    forall j | 0 <= j < |h| :: h[j].Silent?
  }

  /** The latency is that of the last ping answered, whether the entry was healthy or not;
      without one it is what it was. */
  lemma {:induction false} LatencyMeans(e: Entry, h: History, t: Thresholds)
    ensures Unanswered(h) ==> Replay(e, h, t).rtt == e.rtt
    ensures forall i: nat :: LastAnswer(h, i) ==> Replay(e, h, t).rtt == h[i].rtt
  {
    if h == [] {
    } else {
      var n := |h| - 1;
      var g := h[..n];
      LatencyMeans(e, g, t);
      forall i: nat | LastAnswer(h, i)
        ensures Replay(e, h, t).rtt == h[i].rtt
      {
        if i < n {
          assert h[n].Silent? && LastAnswer(g, i);
        }
      }
    }
  }
}
