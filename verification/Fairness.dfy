/** How the weighted and round-robin strategies share streams out: each pick draws one
    ticket of a uint32 counter (pickLocked and weightedPickLocked in
    upstream/manager.go). */
module Fairness {
  import opened Tickets
  import opened Bytes
  import opened Config
  import opened Text
  import opened Upstreams

  /** Weights as resolved: at least one. */
  predicate Weighty(es: map<string, Entry>, names: seq<string>) {
    Known(es, names) && forall k | 0 <= k < |names| :: es[names[k]].ep.weight >= 1
  }

  lemma {:induction false} HealthyDistinct(es: map<string, Entry>, order: seq<string>)
    requires Distinct(order)
    ensures Distinct(HealthyNames(es, order))
  {
    if order == [] {
    } else {
      var n := |order| - 1;
      HealthyDistinct(es, order[..n]);
      HealthyNamesIff(es, order[..n], order[n]);
    }
  }

  // ---- sums of weights ----

  /** The weights of the first `k` names, added up without wrapping. */
  function Sum(es: map<string, Entry>, names: seq<string>, k: nat): int
    requires Known(es, names) && k <= |names|
  {
    if k == 0 then 0 else Sum(es, names, k - 1) + es[names[k - 1]].ep.weight
  }

  lemma {:induction false} SumGrows(es: map<string, Entry>, names: seq<string>, j: nat, k: nat)
    requires Weighty(es, names) && j <= k <= |names|
    ensures 0 <= Sum(es, names, j) && Sum(es, names, j) + (k - j) <= Sum(es, names, k)
    decreases j + k
  {
    if j < k {
      SumGrows(es, names, j, k - 1);
    } else if j > 0 {
      SumGrows(es, names, j - 1, j - 1);
    }
  }

  lemma {:induction false} SumPrefix(es: map<string, Entry>, names: seq<string>, n: nat, k: nat)
    requires Known(es, names) && k <= n <= |names|
    ensures Sum(es, names[..n], k) == Sum(es, names, k)
  {
    if k == 0 {
    } else {
      SumPrefix(es, names, n, k - 1);
    }
  }

  /** Go's total is the sum of the weights up to a multiple of 2^64. */
  lemma {:induction false} TotalWraps(es: map<string, Entry>, names: seq<string>) returns (q: int)
    requires Known(es, names)
    ensures Total(es, names) == Sum(es, names, |names|) - q * WORD
  {
    if names == [] {
      q := 0;
    } else {
      var n := |names| - 1;
      q := TotalWraps(es, names[..n]);
      SumPrefix(es, names, n, n);
      var plain := Total(es, names[..n]) + es[names[n]].ep.weight;
      q := if plain > MAX_INT64 then q + 1 else if plain < -MAX_INT64 - 1 then q - 1 else q;
    }
  }

  /** It is the sum, if that fits. */
  lemma TotalExact(es: map<string, Entry>, names: seq<string>)
    requires Weighty(es, names) && Sum(es, names, |names|) <= MAX_INT64
    ensures Total(es, names) == Sum(es, names, |names|)
  {
    var q := TotalWraps(es, names);
    SumGrows(es, names, 0, |names|);
  }

  /** The branch for a total of zero is taken exactly when the weights of at least one
      healthy entry add up to a multiple of 2^64. */
  lemma TotalZeroIff(es: map<string, Entry>, names: seq<string>)
    requires Weighty(es, names) && names != []
    ensures Total(es, names) == 0 <==> Sum(es, names, |names|) % WORD == 0
    ensures Total(es, names) == 0 ==> Sum(es, names, |names|) >= WORD
  {
    var q := TotalWraps(es, names);
    SumGrows(es, names, 0, |names|);
    WordMultiple(Total(es, names), Sum(es, names, |names|), q);
  }

  lemma WordMultiple(t: Int, sum: int, q: int)
    requires t == sum - q * WORD && sum > 0
    ensures t == 0 <==> sum % WORD == 0
    ensures t == 0 ==> sum >= WORD
  {
    var m := sum / WORD;
    assert sum == m * WORD + sum % WORD;
  }

  // ---- the walk ----

  /** The walk stops at the position whose share of the sum contains the number. */
  lemma {:induction false} WalkMeans(es: map<string, Entry>, names: seq<string>, k: nat, i: nat)
    requires Weighty(es, names) && k <= |names|
    ensures var r := Walk(es, names, k, i);
            && (r < |names| ==> Sum(es, names, r) <= Sum(es, names, k) + i < Sum(es, names, r + 1))
            && (r == |names| <==> Sum(es, names, |names|) <= Sum(es, names, k) + i)
    decreases |names| - k
  {
    if k < |names| && i >= es[names[k]].ep.weight {
      WalkMeans(es, names, k + 1, i - es[names[k]].ep.weight);
    } else {
      SumGrows(es, names, if k < |names| then k + 1 else k, |names|);
    }
  }

  /** The walk never falls through to the return behind it, wrapped total or not. */
  lemma WalkStops(es: map<string, Entry>, names: seq<string>, t: Ticket)
    requires Weighty(es, names) && Total(es, names) != 0
    ensures Walk(es, names, 0, Rem(t, Total(es, names))) < |names|
  {
    var i, total := Rem(t, Total(es, names)), Sum(es, names, |names|);
    var q := TotalWraps(es, names);
    SumGrows(es, names, 0, |names|);
    WalkMeans(es, names, 0, i);
    if total <= MAX_INT64 {
      TotalExact(es, names);
      assert i < total;
    } else {
      RemBound(t, Total(es, names));
    }
  }

  lemma RemBound(t: Ticket, total: Int)
    requires total != 0
    ensures Rem(t, total) <= t
  {
    var d: nat := if total < 0 then 0 - total else total;
    if t < d {
      DivModUnique(t, 0, t, d);
    } else {
      assert t % d < d;
    }
  }

  /** The share of position `k` in 0 .. sum. */
  lemma SharesDisjoint(es: map<string, Entry>, names: seq<string>, r: nat, k: nat, x: int)
    requires Weighty(es, names) && r < |names| && k < |names|
    requires Sum(es, names, r) <= x < Sum(es, names, r + 1) && Sum(es, names, k) <= x < Sum(es, names, k + 1)
    ensures r == k
  {
    if r < k {
      SumGrows(es, names, r + 1, k);
    } else if k < r {
      SumGrows(es, names, k + 1, r);
    }
  }

  /** The number that a ticket stands for: its remainder by the wrapping total. */
  function Number(m: Manager, t: Ticket): nat {
    var total := Total(m.entries, HealthyNames(m.entries, m.order));
    if total == 0 then 0 else Rem(t, total)
  }

  /** It lies in the share of `x` in the sum of the healthy weights. */
  ghost predicate InShareOf(m: Manager, x: string, t: Ticket) {
    exists p: nat :: InShareAt(m, p, x, t)
  }

  predicate InShareAt(m: Manager, p: nat, x: string, t: Ticket) {
    var names := HealthyNames(m.entries, m.order);
    && p < |names| && names[p] == x
    && Sum(m.entries, names, p) <= Number(m, t) < Sum(m.entries, names, p + 1)
  }

  /** A weighted pick, wrapped total or not. */
  lemma WeightedIff(m: Manager, x: string)
    requires Weighty(m.entries, HealthyNames(m.entries, m.order)) && m.strategy == Weighted
    requires HealthyNames(m.entries, m.order) != []
    ensures Pick(m).name == x <==> InShareOf(m, x, m.rrIdx)
  {
    var es, names, t := m.entries, HealthyNames(m.entries, m.order), m.rrIdx;
    var r := Walk(es, names, 0, Number(m, t));
    WalkMeans(es, names, 0, Number(m, t));
    if Total(es, names) != 0 {
      WalkStops(es, names, t);
    } else {
      SumGrows(es, names, 1, |names|);
    }
    assert InShareAt(m, r, names[r], t) && Pick(m).name == names[r];
    if p: nat :| InShareAt(m, p, x, t) {
      SharesDisjoint(es, names, p, r, Number(m, t));
    }
  }

  predicate ChosenBy(m: Manager, t: Ticket, x: string) {
    Pick(m.(rrIdx := t)).name == x
  }

  /** The numbers that tickets stand for are those below this one. */
  function Reach(m: Manager): nat {
    var total := Total(m.entries, HealthyNames(m.entries, m.order));
    if total == 0 then 1
    else if total < 0 then if 0 - total < SPAN then 0 - total else SPAN
    else if total < SPAN then total else SPAN
  }

  lemma NumbersReach(m: Manager, t: Ticket)
    ensures Number(m, t) < Reach(m)
    ensures t < Reach(m) ==> Number(m, t) == t
  {
    var total := Total(m.entries, HealthyNames(m.entries, m.order));
    if total != 0 {
      var d: nat := if total < 0 then 0 - total else total;
      RemBound(t, total);
      if t < d {
        DivModUnique(t, 0, t, d);
      } else {
        assert t % d < d;
      }
    }
  }

  ghost predicate ChosenBySome(m: Manager, x: string) {
    exists t: Ticket :: ChosenBy(m, t, x)
  }

  lemma ChosenByIff(m: Manager, names: seq<string>, k: nat, t: Ticket)
    requires Distinct(names) && names == HealthyNames(m.entries, m.order) && Weighty(m.entries, names)
    requires m.strategy == Weighted && k < |names|
    ensures ChosenBy(m, t, names[k])
            <==> Sum(m.entries, names, k) <= Number(m, t) < Sum(m.entries, names, k + 1)
  {
    WeightedIff(m.(rrIdx := t), names[k]);
    assert Number(m.(rrIdx := t), t) == Number(m, t);
    if p: nat :| InShareAt(m.(rrIdx := t), p, names[k], t) {
      assert p == k;
    }
    if Sum(m.entries, names, k) <= Number(m, t) < Sum(m.entries, names, k + 1) {
      assert InShareAt(m.(rrIdx := t), k, names[k], t);
    }
  }

  /** With a sum that fits, the shares that tickets reach are those that start below 2^32. */
  lemma PlainReach(m: Manager, names: seq<string>, k: nat)
    requires names == HealthyNames(m.entries, m.order) && Weighty(m.entries, names) && k < |names|
    requires Sum(m.entries, names, |names|) <= MAX_INT64
    ensures Sum(m.entries, names, k) < Reach(m) <==> Sum(m.entries, names, k) < SPAN
  {
    TotalExact(m.entries, names);
    ShareBounds(m.entries, names, k);
  }

  /** An upstream is chosen by some ticket, with weights of any size, if and only if its
      share starts below the number of tickets and the wrapping total; if the weights
      add up without wrapping, if and only if it starts below 2^32. */
  lemma WeightedReachIff(m: Manager, names: seq<string>, k: nat)
    requires Distinct(m.order) && names == HealthyNames(m.entries, m.order) && Weighty(m.entries, names)
    requires m.strategy == Weighted && k < |names|
    ensures ChosenBySome(m, names[k]) <==> Sum(m.entries, names, k) < Reach(m)
    ensures Sum(m.entries, names, |names|) <= MAX_INT64 ==>
              (ChosenBySome(m, names[k]) <==> Sum(m.entries, names, k) < SPAN)
  {
    var lo := Sum(m.entries, names, k);
    HealthyDistinct(m.entries, m.order);
    ShareBounds(m.entries, names, k);
    if t: Ticket :| ChosenBy(m, t, names[k]) {
      ChosenByIff(m, names, k, t);
      NumbersReach(m, t);
    }
    if lo < Reach(m) {
      NumbersReach(m, lo);
      ChosenByIff(m, names, k, lo);
      assert ChosenBy(m, lo, names[k]);
    }
    if Sum(m.entries, names, |names|) <= MAX_INT64 {
      PlainReach(m, names, k);
    }
  }

  // ---- consecutive picks ----

  function Iterate(f: Manager -> Manager, m: Manager, k: nat): Manager {
    if k == 0 then m else f(Iterate(f, m, k - 1))
  }

  function Next(m: Manager): Manager {
    Pick(m).m
  }

  /** The manager after `k` unbound picks. */
  function Nth(m: Manager, k: nat): Manager {
    Iterate(Next, m, k)
  }

  /** How many of the first `n` unbound picks choose `name`. */
  function Chosen(m: Manager, n: nat, name: string): nat {
    if n == 0 then 0 else Chosen(m, n - 1, name) + if PickedAt(m, n - 1, name) then 1 else 0
  }

  predicate PickedAt(m: Manager, j: nat, name: string) {
    Pick(Nth(m, j)).name == name
  }

  /** Counting picks is counting tickets, if each pick is decided by its ticket. */
  lemma {:induction false} ChosenAreHits(m: Manager, name: string, n: nat, d: nat, lo: nat, hi: nat)
    requires d > 0
    requires forall j: nat | j < n :: PickedAt(m, j, name) <==> Within(After(m.rrIdx, j), d, lo, hi)
    ensures Chosen(m, n, name) == Hits(m.rrIdx, n, d, lo, hi)
  {
    if n == 0 {
    } else {
      ChosenAreHits(m, name, n - 1, d, lo, hi);
    }
  }

  lemma AfterStep(t: Ticket, k: nat)
    requires k > 0
    ensures After(After(t, k - 1), 1) == After(t, k)
  {
  }

  /** The healthy names, in order, with a sum of weights that fits an int. */
  ghost predicate Shares(m: Manager, names: seq<string>) {
    && Distinct(m.order) && names == HealthyNames(m.entries, m.order) && names != []
    && Weighty(m.entries, names) && Sum(m.entries, names, |names|) <= MAX_INT64
  }

  lemma PickDraws(m: Manager, names: seq<string>)
    requires Shares(m, names) && (m.strategy == Weighted || m.strategy == RoundRobin)
    ensures Pick(m).m == Draw(m)
  {
    TotalExact(m.entries, names);
    SumGrows(m.entries, names, 0, |names|);
  }

  lemma NextDraws(m: Manager, names: seq<string>, t: Ticket)
    requires Shares(m, names) && (m.strategy == Weighted || m.strategy == RoundRobin)
    ensures Next(m.(rrIdx := t)) == m.(rrIdx := After(t, 1))
  {
    PickDraws(m.(rrIdx := t), names);
  }

  lemma {:induction false} IterateDraws(f: Manager -> Manager, m: Manager, k: nat)
    requires forall t: Ticket :: f(m.(rrIdx := t)) == m.(rrIdx := After(t, 1))
    ensures Iterate(f, m, k) == m.(rrIdx := After(m.rrIdx, k))
  {
    if k == 0 {
    } else {
      IterateDraws(f, m, k - 1);
      AfterStep(m.rrIdx, k);
    }
  }

  lemma NthDraws(m: Manager, names: seq<string>, k: nat)
    requires Shares(m, names) && (m.strategy == Weighted || m.strategy == RoundRobin)
    ensures Nth(m, k) == m.(rrIdx := After(m.rrIdx, k))
  {
    forall t: Ticket
      ensures Next(m.(rrIdx := t)) == m.(rrIdx := After(t, 1))
    {
      NextDraws(m, names, t);
    }
    IterateDraws(Next, m, k);
  }

  /** The position a weighted pick chooses. */
  lemma WeightedPosition(m: Manager, names: seq<string>) returns (r: nat)
    requires Shares(m, names) && m.strategy == Weighted
    ensures r < |names| && Pick(m).name == names[r] && Sum(m.entries, names, |names|) > 0
    ensures Sum(m.entries, names, r) <= m.rrIdx % Sum(m.entries, names, |names|) < Sum(m.entries, names, r + 1)
  {
    var es, sum := m.entries, Sum(m.entries, names, |names|);
    SumGrows(es, names, 0, |names|);
    TotalExact(es, names);
    WalkMeans(es, names, 0, m.rrIdx % sum);
    r := Walk(es, names, 0, m.rrIdx % sum);
  }

  lemma ShareBounds(es: map<string, Entry>, names: seq<string>, k: nat)
    requires Weighty(es, names) && k < |names|
    ensures 0 <= Sum(es, names, k) <= Sum(es, names, k + 1) <= Sum(es, names, |names|)
  {
    SumGrows(es, names, 0, k);
    SumGrows(es, names, k, k + 1);
    SumGrows(es, names, k + 1, |names|);
  }

  /** A weighted pick chooses the name whose share contains the ticket's remainder. */
  lemma WeightedPickIff(m: Manager, names: seq<string>, k: nat)
    requires Shares(m, names) && m.strategy == Weighted && k < |names|
    ensures var (lo, hi) := (Sum(m.entries, names, k), Sum(m.entries, names, k + 1));
            && 0 <= lo <= hi <= Sum(m.entries, names, |names|) && Sum(m.entries, names, |names|) > 0
            && (Pick(m).name == names[k] <==> Within(m.rrIdx, Sum(m.entries, names, |names|), lo, hi))
  {
    var r := WeightedPosition(m, names);
    var i := m.rrIdx % Sum(m.entries, names, |names|);
    ShareBounds(m.entries, names, k);
    HealthyDistinct(m.entries, m.order);
    assert names[r] == names[k] <==> r == k;
    if Sum(m.entries, names, k) <= i < Sum(m.entries, names, k + 1) {
      SharesDisjoint(m.entries, names, r, k, i);
    }
  }

  lemma WeightedPicks(m: Manager, names: seq<string>, k: nat, n: nat, lo: nat, hi: nat, sum: nat)
    requires Shares(m, names) && m.strategy == Weighted && k < |names|
    requires lo == Sum(m.entries, names, k) && hi == Sum(m.entries, names, k + 1)
    requires sum == Sum(m.entries, names, |names|)
    ensures lo <= hi <= sum && sum > 0 && Chosen(m, n, names[k]) == Hits(m.rrIdx, n, sum, lo, hi)
  {
    WeightedPickIff(m, names, k);
    forall j: nat | j < n
      ensures PickedAt(m, j, names[k]) <==> Within(After(m.rrIdx, j), sum, lo, hi)
    {
      NthDraws(m, names, j);
      WeightedPickIff(Nth(m, j), names, k);
    }
    ChosenAreHits(m, names[k], n, sum, lo, hi);
  }

  /** Weighted fairness: while the healthy set stays as it is and the counter's wrap is
      not noticed, any `n` picks, being `q` times the sum of the weights and `s` more,
      choose every upstream at least `q` times its weight and at most `q` or, if `s` is
      not zero, `q + 1` times its weight. */
  lemma WeightedFair(m: Manager, names: seq<string>, k: nat, n: nat, q: nat, s: nat)
    requires Shares(m, names) && m.strategy == Weighted && k < |names|
    requires s < Sum(m.entries, names, |names|) && n == q * Sum(m.entries, names, |names|) + s <= SPAN
    requires Seamless(m.rrIdx, n, Sum(m.entries, names, |names|))
    ensures var w := m.entries[names[k]].ep.weight;
            w >= 1 && q * w <= Chosen(m, n, names[k]) <= Ceiling(q, s) * w
  {
    var w := m.entries[names[k]].ep.weight;
    WeightedPickIff(m, names, k);
    var lo, sum := Sum(m.entries, names, k), Sum(m.entries, names, |names|);
    assert Sum(m.entries, names, k + 1) == lo + w;
    WeightedPicks(m, names, k, n, lo, lo + w, sum);
    HitsBounds(m.rrIdx, n, q, s, sum, lo, w);
  }

  /** So as many picks as the weights add up to choose each upstream weight times. */
  lemma WeightedCycle(m: Manager, names: seq<string>, k: nat)
    requires Shares(m, names) && m.strategy == Weighted && k < |names|
    requires 0 < Sum(m.entries, names, |names|) <= SPAN
    requires Seamless(m.rrIdx, Sum(m.entries, names, |names|), Sum(m.entries, names, |names|))
    ensures Chosen(m, Sum(m.entries, names, |names|), names[k]) == m.entries[names[k]].ep.weight
  {
    WeightedFair(m, names, k, Sum(m.entries, names, |names|), 1, 0);
  }

  /** Exactly: among as many picks as the weights add up to, an upstream gets its weight
      if and only if the wrap of the counter, if there is one, repeats as much of its
      share as it leaves out. */
  lemma WeightedCycleIff(m: Manager, names: seq<string>, k: nat)
    requires Shares(m, names) && m.strategy == Weighted && k < |names|
    ensures var (lo, hi) := (Sum(m.entries, names, k), Sum(m.entries, names, k + 1));
            var sum := Sum(m.entries, names, |names|);
            && 0 <= lo <= hi <= sum && sum > 0
            && (Chosen(m, sum, names[k]) == m.entries[names[k]].ep.weight <==> ShareWhole(m.rrIdx, sum, lo, hi))
  {
    WeightedPickIff(m, names, k);
    var lo, hi, sum := Sum(m.entries, names, k), Sum(m.entries, names, k + 1), Sum(m.entries, names, |names|);
    assert hi == lo + m.entries[names[k]].ep.weight;
    WeightedPicks(m, names, k, sum, lo, hi, sum);
    ShareWholeIff(m.rrIdx, sum, lo, hi);
  }

  // ---- round robin ----

  lemma RoundRobinPickIff(m: Manager, names: seq<string>, k: nat)
    requires Shares(m, names) && m.strategy == RoundRobin && k < |names|
    ensures Pick(m).name == names[k] <==> Within(m.rrIdx, |names|, k, k + 1)
  {
    HealthyDistinct(m.entries, m.order);
    var r := m.rrIdx % |names|;
    assert Pick(m).name == names[r];
    assert r != k ==> names[r] != names[k];
  }

  lemma RoundRobinPicks(m: Manager, names: seq<string>, k: nat, n: nat)
    requires Shares(m, names) && m.strategy == RoundRobin && k < |names|
    ensures Chosen(m, n, names[k]) == Hits(m.rrIdx, n, |names|, k, k + 1)
  {
    forall j: nat | j < n
      ensures PickedAt(m, j, names[k]) <==> Within(After(m.rrIdx, j), |names|, k, k + 1)
    {
      NthDraws(m, names, j);
      RoundRobinPickIff(Nth(m, j), names, k);
    }
    ChosenAreHits(m, names[k], n, |names|, k, k + 1);
  }

  /** Round robin over `n` healthy upstreams gives each of them one of `n` consecutive
      picks if and only if the counter does not wrap on the way or `n` divides 2^32. */
  lemma RoundRobinFairIff(m: Manager, names: seq<string>)
    requires Shares(m, names) && m.strategy == RoundRobin && |names| <= SPAN
    ensures (forall k: nat | k < |names| :: Chosen(m, |names|, names[k]) == 1) <==> Seamless(m.rrIdx, |names|, |names|)
  {
    var n := |names|;
    forall k: nat | k < n
      ensures Chosen(m, n, names[k]) == HitsOf(m.rrIdx, n, k)
    {
      RoundRobinPicks(m, names, k, n);
    }
    CycleFairIff(m.rrIdx, n);
    if !CycleFair(m.rrIdx, n) {
      var r: nat :| r < n && HitsOf(m.rrIdx, n, r) != 1;
      assert Chosen(m, n, names[r]) != 1;
    }
  }
}
