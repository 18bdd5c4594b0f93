/** What the upstream settings of a configuration mean for the manager that NewManager and
    Reload leave (HealthSettings and NormalizedStrategy in config/upstream.go). */
module Settings {
  import opened Options
  import opened Text
  import opened Config
  import opened Upstreams
  import opened Hysteresis

  /** The words for the strategies, in any mixture of cases and within white space; any
      other text means failover, as does a configuration without upstream servers. */
  lemma StrategyWords(u: Option<Upstream>)
    ensures StrategyOf(u) == RoundRobin <==> Says(u, "round_robin") || Says(u, "round-robin")
    ensures StrategyOf(u) == Weighted <==> Says(u, "weighted") || Says(u, "weight")
    ensures StrategyOf(u) == LeastLatency <==>
              Says(u, "least_latency") || Says(u, "least-latency") || Says(u, "latency")
  {
    if u.Some? {
      var s := u.value.strategy;
      SpellsIff(s, "round_robin");
      SpellsIff(s, "round-robin");
      SpellsIff(s, "weighted");
      SpellsIff(s, "weight");
      SpellsIff(s, "least_latency");
      SpellsIff(s, "least-latency");
      SpellsIff(s, "latency");
    }
  }

  predicate Says(u: Option<Upstream>, word: string) {
    u.Some? && Spells(u.value.strategy, word)
  }

  // ---- thresholds ----

  function Times(p: Ping, n: nat): History {
    seq(n, _ => p)
  }

  lemma {:induction false} DownAfter(e: Entry, n: nat, t: Thresholds)
    requires Reset(e) && Positive(t)
    ensures var a := Replay(e, Times(Silent, n), t);
            a.failures == n && a.recovers == 0 && (a.healthy <==> n < t.fail)
  {
    if n == 0 {
    } else {
      assert Times(Silent, n)[..n - 1] == Times(Silent, n - 1);
      DownAfter(e, n - 1, t);
    }
  }

  lemma {:induction false} UpAfter(e: Entry, n: nat, k: nat, rtt: Int, t: Thresholds)
    requires Reset(e) && Positive(t) && n >= t.fail
    ensures var a := Replay(e, Times(Silent, n) + Times(Pong(rtt), k), t);
            (a.healthy <==> k >= t.recover) && (!a.healthy ==> a.recovers == k)
  {
    var h := Times(Silent, n) + Times(Pong(rtt), k);
    if k == 0 {
      assert h == Times(Silent, n);
      DownAfter(e, n, t);
    } else {
      assert h[..|h| - 1] == Times(Silent, n) + Times(Pong(rtt), k - 1);
      UpAfter(e, n, k - 1, rtt, t);
    }
  }

  function FailAfter(u: Option<Upstream>): int {
    if u.Some? && u.value.failThreshold >= 1 then u.value.failThreshold else 3
  }

  function RecoverAfter(u: Option<Upstream>): int {
    if u.Some? && u.value.recoverThreshold >= 1 then u.value.recoverThreshold else 2
  }

  /** With the settings of a configuration in force an upstream falls with its
      fail_threshold-th failure in a row, by default the third, and then recovers with its
      recover_threshold-th success in a row, by default the second. */
  lemma ConfiguredThresholds(u: Option<Upstream>, e: Entry, n: nat, k: nat, rtt: Int)
    requires Reset(e)
    ensures Replay(e, Times(Silent, n), HealthSettings(u)).healthy <==> n < FailAfter(u)
    ensures n >= FailAfter(u) ==>
              (Replay(e, Times(Silent, n) + Times(Pong(rtt), k), HealthSettings(u)).healthy <==> k >= RecoverAfter(u))
  {
    DownAfter(e, n, HealthSettings(u));
    if n >= FailAfter(u) {
      UpAfter(e, n, k, rtt, HealthSettings(u));
    }
  }
}
