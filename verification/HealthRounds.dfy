/** The health check iterates over a map, so in an order nobody chose: what of its
    outcome depends on that order (runHealthCheck in upstream/manager.go). */
module HealthRounds {
  import opened Endpoints
  import opened Upstreams
  import Hysteresis
  import Selection

  // ---- entries ----

  /** One round on the entries alone. */
  function Observed(m: Manager, pings: Pings): map<string, Entry> {
    map n | n in m.entries :: Observe(m.entries[n], pings(n), m.health)
  }

  /** Part way through a round the names visited are observed, the others as before. */
  ghost predicate PartWay(m: Manager, names: seq<string>, pings: Pings, r: Manager) {
    && r.entries.Keys == m.entries.Keys
    && forall n | n in m.entries ::
         r.entries[n] == if n in names then Observe(m.entries[n], pings(n), m.health) else m.entries[n]
  }

  lemma {:induction false} RoundPartWay(m: Manager, names: seq<string>, pings: Pings)
    requires Distinct(names)
    ensures PartWay(m, names, pings, Round(m, names, pings))
  {
    if names == [] {
    } else {
      var k := |names| - 1;
      RoundPartWay(m, names[..k], pings);
      RoundFrame(m, names[..k], pings);
      assert names == names[..k] + [names[k]];
      assert names[k] !in names[..k];
    }
  }

  /** Counters, health flags and latencies do not depend on the order. */
  lemma RoundEntries(m: Manager, names: seq<string>, pings: Pings)
    requires Iterates(names, m.entries.Keys)
    ensures Round(m, names, pings).entries == Observed(m, pings)
  {
    RoundPartWay(m, names, pings);
  }

  // ---- the active entry ----

  /** Entry `n` is healthy at the end of the round. */
  predicate Ends(m: Manager, pings: Pings, n: string) {
    n in m.entries && Observe(m.entries[n], pings(n), m.health).healthy
  }

  predicate FallsIn(m: Manager, pings: Pings, n: string) {
    Healthy(m.entries, n) && !Ends(m, pings, n)
  }

  predicate RisesIn(m: Manager, pings: Pings, n: string) {
    !Healthy(m.entries, n) && Ends(m, pings, n)
  }

  /** From `b` to `r` by visiting `n`: the active name moves only if it is `n` and falls. */
  predicate Moves(b: Manager, n: string, r: Manager) {
    r.active == if b.active == n && Healthy(b.entries, n) && !Healthy(r.entries, n)
                then FailoverTo(r.entries, r.order, b.active) else b.active
  }

  /** Iteration `k` of a round over `names`. */
  ghost predicate Step(m: Manager, names: seq<string>, pings: Pings, k: nat, b: Manager, r: Manager)
    requires k < |names|
  {
    && PartWay(m, names[..k], pings, b) && PartWay(m, names[..k + 1], pings, r)
    && r.order == m.order && Moves(b, names[k], r)
  }

  ghost predicate Steps(m: Manager, names: seq<string>, pings: Pings, ms: seq<Manager>) {
    && |ms| == |names| + 1 && ms[0] == m
    && forall k: nat {:trigger StepAt(m, names, pings, ms, k)} | k < |names| :: StepAt(m, names, pings, ms, k)
  }

  ghost predicate StepAt(m: Manager, names: seq<string>, pings: Pings, ms: seq<Manager>, k: nat)
    requires k < |names| && |ms| == |names| + 1
  {
    Step(m, names, pings, k, ms[k], ms[k + 1])
  }

  lemma LastVisit(m: Manager, names: seq<string>, pings: Pings)
    requires names != [] && Distinct(names)
    ensures Step(m, names, pings, |names| - 1, Round(m, names[..|names| - 1], pings), Round(m, names, pings))
  {
    RoundPartWay(m, names[..|names| - 1], pings);
    RoundPartWay(m, names, pings);
    RoundFrame(m, names, pings);
    assert names[..|names|] == names;
  }

  /** A step of a shorter round is one of the longer round. */
  lemma StepOfPrefix(m: Manager, names: seq<string>, pings: Pings, n: nat, k: nat, b: Manager, r: Manager)
    requires k < n <= |names| && Step(m, names[..n], pings, k, b, r)
    ensures Step(m, names, pings, k, b, r)
  {
    assert names[..n][..k] == names[..k] && names[..n][..k + 1] == names[..k + 1];
  }

  /** The states a round goes through. */
  lemma {:induction false} RoundSteps(m: Manager, names: seq<string>, pings: Pings) returns (ms: seq<Manager>)
    requires Distinct(names)
    ensures Steps(m, names, pings, ms) && ms[|names|] == Round(m, names, pings)
  {
    if names == [] {
      ms := [m];
    } else {
      var n := |names| - 1;
      var bs := RoundSteps(m, names[..n], pings);
      LastVisit(m, names, pings);
      ms := bs + [Round(m, names, pings)];
      StepsSnoc(m, names, pings, bs, Round(m, names, pings));
    }
  }

  lemma StepsSnoc(m: Manager, names: seq<string>, pings: Pings, bs: seq<Manager>, last: Manager)
    requires names != [] && Steps(m, names[..|names| - 1], pings, bs)
    requires Step(m, names, pings, |names| - 1, bs[|names| - 1], last)
    ensures Steps(m, names, pings, bs + [last])
  {
    var n := |names| - 1;
    forall k: nat | k < |names|
      ensures StepAt(m, names, pings, bs + [last], k)
    {
      if k < n {
        assert StepAt(m, names[..n], pings, bs, k);
        StepOfPrefix(m, names, pings, n, k, bs[k], bs[k + 1]);
      }
    }
  }

  // ---- when the outcome is settled ----

  /** On its way to `s` the active name is `s` or an entry that will fall yet. */
  predicate Settling(m: Manager, names: seq<string>, pings: Pings, s: string, active: string) {
    active == s || (active !in names && FallsIn(m, pings, active))
  }

  /** The first entry healthy at the end of the round. */
  predicate FirstAfter(m: Manager, pings: Pings, i: nat) {
    && i < |m.order| && Ends(m, pings, m.order[i])
    && forall j | 0 <= j < i :: !Ends(m, pings, m.order[j])
  }

  lemma FailoverSettles(m: Manager, names: seq<string>, pings: Pings, i: nat, r: Manager)
    requires Known(m.entries, m.order) && PartWay(m, names, pings, r) && r.order == m.order
    requires FirstAfter(m, pings, i) && Healthy(m.entries, m.order[i])
    ensures forall active :: Settling(m, names, pings, m.order[i], FailoverTo(r.entries, r.order, active))
  {
    assert Healthy(r.entries, m.order[i]);
    HealthyNamesIff(r.entries, r.order, m.order[i]);
    var f := Selection.FirstPlace(r.entries, r.order);
    assert f <= i;
    if f < i {
      assert Healthy(r.entries, m.order[f]) && !Ends(m, pings, m.order[f]);
    }
  }

  lemma VisitSettles(m: Manager, names: seq<string>, n: string, pings: Pings, i: nat, b: Manager, r: Manager)
    requires Known(m.entries, m.order) && r.order == m.order && n in m.entries && n !in names
    requires PartWay(m, names, pings, b) && PartWay(m, names + [n], pings, r) && Moves(b, n, r)
    requires FirstAfter(m, pings, i) && Healthy(m.entries, m.order[i])
    requires Settling(m, names, pings, m.order[i], b.active)
    ensures Settling(m, names + [n], pings, m.order[i], r.active)
  {
    if b.active == n {
      FailoverSettles(m, names + [n], pings, i, r);
    }
  }

  lemma {:induction false} StepsSettle(m: Manager, names: seq<string>, pings: Pings, i: nat, ms: seq<Manager>, k: nat)
    requires Known(m.entries, m.order) && Distinct(names) && Known(m.entries, names)
    requires Steps(m, names, pings, ms) && k <= |names|
    requires FirstAfter(m, pings, i) && Healthy(m.entries, m.order[i]) && FallsIn(m, pings, m.active)
    ensures Settling(m, names[..k], pings, m.order[i], ms[k].active)
  {
    if k == 0 {
      assert names[..k] == [];
    } else {
      var j := k - 1;
      StepsSettle(m, names, pings, i, ms, j);
      assert StepAt(m, names, pings, ms, j);
      StepSettles(m, names, pings, i, ms, j);
    }
  }

  lemma StepSettles(m: Manager, names: seq<string>, pings: Pings, i: nat, ms: seq<Manager>, j: nat)
    requires Known(m.entries, m.order) && Distinct(names) && Known(m.entries, names)
    requires |ms| == |names| + 1 && j < |names| && StepAt(m, names, pings, ms, j)
    requires FirstAfter(m, pings, i) && Healthy(m.entries, m.order[i])
    requires Settling(m, names[..j], pings, m.order[i], ms[j].active)
    ensures Settling(m, names[..j + 1], pings, m.order[i], ms[j + 1].active)
  {
    assert names[..j] + [names[j]] == names[..j + 1];
    VisitSettles(m, names[..j], names[j], pings, i, ms[j], ms[j + 1]);
  }

  /** Nothing moves the active name before it is visited, or if it does not fall. */
  lemma {:induction false} ActiveStands(m: Manager, names: seq<string>, pings: Pings, ms: seq<Manager>, k: nat)
    requires Steps(m, names, pings, ms) && Distinct(names) && k <= |names|
    requires m.active in names[..k] ==> !FallsIn(m, pings, m.active)
    ensures ms[k].active == m.active
  {
    if k == 0 {
    } else {
      assert names[..k] == names[..k - 1] + [names[k - 1]];
      ActiveStands(m, names, pings, ms, k - 1);
      MoveStands(m, names, pings, ms, k - 1);
    }
  }

  lemma MoveStands(m: Manager, names: seq<string>, pings: Pings, ms: seq<Manager>, j: nat)
    requires j < |names| && |ms| == |names| + 1 && Distinct(names) && StepAt(m, names, pings, ms, j)
    requires names[j] == m.active ==> !FallsIn(m, pings, m.active)
    requires ms[j].active == m.active
    ensures ms[j + 1].active == m.active
  {
    assert names[..j + 1] == names[..j] + [names[j]];
    assert names[j] !in names[..j];
  }

  /** The visit of `n` that ends in `r` cannot make `x` the active name. */
  predicate Barred(m: Manager, pings: Pings, n: string, r: Manager, x: string) {
    RisesIn(m, pings, n) || !Healthy(r.entries, x)
  }

  ghost predicate BarredAt(m: Manager, names: seq<string>, pings: Pings, ms: seq<Manager>, j: nat, x: string)
    requires j < |names| && |ms| == |names| + 1
  {
    Barred(m, pings, names[j], ms[j + 1], x)
  }

  lemma NotYet(m: Manager, names: seq<string>, pings: Pings, j: nat, b: Manager, r: Manager, x: string)
    requires j < |names| && Step(m, names, pings, j, b, r)
    requires x in names[..j + 1] ==> !Ends(m, pings, x)
    requires x !in names[..j + 1] ==> !Healthy(m.entries, x)
    ensures Barred(m, pings, names[j], r, x)
  {
  }

  lemma MoveAvoids(m: Manager, names: seq<string>, pings: Pings, ms: seq<Manager>, j: nat, x: string)
    requires j < |names| && |ms| == |names| + 1 && Distinct(names) && StepAt(m, names, pings, ms, j)
    requires BarredAt(m, names, pings, ms, j, x) && ms[j].active != x
    ensures ms[j + 1].active != x
  {
    if RisesIn(m, pings, names[j]) {
      assert names[j] !in names[..j];
    }
  }

  /** A failover moves only to entries that are healthy at that moment. */
  lemma {:induction false} Avoids(m: Manager, names: seq<string>, pings: Pings, ms: seq<Manager>,
                                  from: nat, k: nat, x: string)
    requires Steps(m, names, pings, ms) && Distinct(names) && from <= k <= |names| && ms[from].active != x
    requires forall j: nat {:trigger BarredAt(m, names, pings, ms, j, x)} | from <= j < k ::
               BarredAt(m, names, pings, ms, j, x)
    ensures ms[k].active != x
  {
    if k == from {
    } else {
      Avoids(m, names, pings, ms, from, k - 1, x);
      MoveAvoids(m, names, pings, ms, k - 1, x);
    }
  }

  /** The last visit of a round that leaves the active entry, which falls, to the end. */
  lemma ActiveLast(m: Manager, names: seq<string>, pings: Pings)
    requires Iterates(names, m.entries.Keys) && names != [] && names[|names| - 1] == m.active
    requires FallsIn(m, pings, m.active)
    ensures Round(m, names, pings).active == FailoverTo(Observed(m, pings), m.order, m.active)
  {
    var k := |names| - 1;
    var ms := RoundSteps(m, names, pings);
    assert StepAt(m, names, pings, ms, k);
    ActiveStands(m, names, pings, ms, k);
    RoundEntries(m, names, pings);
  }

  // ---- iteration orders ----

  lemma {:induction false} Enumerate(keys: set<string>) returns (names: seq<string>)
    ensures Iterates(names, keys)
  {
    if keys == {} {
      names := [];
    } else {
      var n :| n in keys;
      var rest := Enumerate(keys - {n});
      names := [n] + rest;
    }
  }

  lemma Joined(xs: seq<string>, ys: seq<string>, s: set<string>, t: set<string>)
    requires Iterates(xs, s) && Iterates(ys, t) && s !! t
    ensures Iterates(xs + ys, s + t)
  {
  }

  // ---- confluence ----

  /** Every order of iteration has the same outcome. */
  ghost predicate OrderFree(m: Manager, pings: Pings) {
    forall ns, ns' | Iterates(ns, m.entries.Keys) && Iterates(ns', m.entries.Keys)
      :: Round(m, ns, pings) == Round(m, ns', pings)
  }

  /** The active entry does not fall; or the first entry that is healthy at the end was
      so at the start; or only the active one was healthy and none is at the end. */
  ghost predicate Settled(m: Manager, pings: Pings) {
    || !FallsIn(m, pings, m.active)
    || (exists i: nat :: FirstAfter(m, pings, i) && Healthy(m.entries, m.order[i]))
    || ((forall n | n in m.entries :: Healthy(m.entries, n) ==> n == m.active)
        && (forall n | n in m.entries :: !Ends(m, pings, n)))
  }

  /** The outcome when it is settled: the active entry stays if it does not fall or
      nobody is left, and else the first healthy one takes over. */
  lemma SettledOutcome(m: Manager, names: seq<string>, pings: Pings)
    requires Coherent(m) && Iterates(names, m.entries.Keys) && Settled(m, pings)
    ensures Round(m, names, pings)
         == m.(entries := Observed(m, pings),
               active := if FallsIn(m, pings, m.active) then FailoverTo(Observed(m, pings), m.order, m.active)
                         else m.active)
  {
    RoundEntries(m, names, pings);
    RoundFrame(m, names, pings);
    var n := |names|;
    var ms := RoundSteps(m, names, pings);
    assert names[..n] == names;
    if !FallsIn(m, pings, m.active) {
      ActiveStands(m, names, pings, ms, n);
    } else if i: nat :| FirstAfter(m, pings, i) && Healthy(m.entries, m.order[i]) {
      StepsSettle(m, names, pings, i, ms, n);
      FirstHealthy(Observed(m, pings), m.order, i);
    } else {
      NoneHealthy(Observed(m, pings), m.order);
      AloneStands(m, names, pings, ms, n);
    }
  }

  /** With no other entry healthy before or after, a failover finds nobody. */
  lemma {:induction false} AloneStands(m: Manager, names: seq<string>, pings: Pings, ms: seq<Manager>, k: nat)
    requires Steps(m, names, pings, ms) && Distinct(names) && k <= |names| && Known(m.entries, m.order)
    requires forall n | n in m.entries :: Healthy(m.entries, n) ==> n == m.active
    requires forall n | n in m.entries :: !Ends(m, pings, n)
    ensures ms[k].active == m.active
  {
    if k == 0 {
    } else {
      var r := ms[k];
      assert StepAt(m, names, pings, ms, k - 1);
      AloneStands(m, names, pings, ms, k - 1);
      if names[k - 1] == m.active && r.active != m.active {
        forall j | 0 <= j < |r.order|
          ensures !Healthy(r.entries, r.order[j])
        {
          assert m.order[j] in m.entries;
        }
        NoneHealthy(r.entries, r.order);
      }
    }
  }

  // ---- orders that differ ----

  /** The active entry is visited last. */
  lemma ActiveVisitedLast(m: Manager, pings: Pings) returns (names: seq<string>)
    requires m.active in m.entries && FallsIn(m, pings, m.active)
    ensures Iterates(names, m.entries.Keys)
    ensures Round(m, names, pings).active == FailoverTo(Observed(m, pings), m.order, m.active)
  {
    var a, keys := m.active, m.entries.Keys;
    var others := Enumerate(keys - {a});
    Joined(others, [a], keys - {a}, {a});
    assert keys - {a} + {a} == keys;
    names := others + [a];
    ActiveLast(m, names, pings);
  }

  /** The entries that recover are visited after all others. */
  lemma RecoveriesVisitedLast(m: Manager, pings: Pings, x: string) returns (names: seq<string>)
    requires m.active != x && RisesIn(m, pings, x)
    ensures Iterates(names, m.entries.Keys) && Round(m, names, pings).active != x
  {
    var keys := m.entries.Keys;
    var up := set n | n in keys && RisesIn(m, pings, n);
    var first := Enumerate(keys - up);
    var last := Enumerate(up);
    Joined(first, last, keys - up, up);
    assert keys - up + up == keys;
    names := first + last;
    var ms := RoundSteps(m, names, pings);
    forall j: nat | j < |names|
      ensures BarredAt(m, names, pings, ms, j, x)
    {
      if j < |first| {
        assert names[..j + 1] == first[..j + 1];
        assert StepAt(m, names, pings, ms, j);
        NotYet(m, names, pings, j, ms[j], ms[j + 1], x);
      } else {
        assert names[j] == last[j - |first|];
      }
    }
    Avoids(m, names, pings, ms, 0, |names|, x);
  }

  lemma FirstVisitMoves(m: Manager, names: seq<string>, pings: Pings, r: Manager, b: string)
    requires Known(m.entries, m.order) && b in m.order
    requires names != [] && names[0] == m.active && Step(m, names, pings, 0, m, r)
    requires FallsIn(m, pings, m.active) && Healthy(m.entries, b) && b != m.active
    ensures r.active != m.active
  {
    assert names[..1] == [m.active];
    HealthyNamesIff(r.entries, m.order, b);
  }

  /** The active entry is visited first, while entry `b` is still healthy. */
  lemma ActiveVisitedFirst(m: Manager, pings: Pings, b: string) returns (names: seq<string>)
    requires Known(m.entries, m.order) && b in m.order
    requires FallsIn(m, pings, m.active) && Healthy(m.entries, b) && b != m.active
    ensures Iterates(names, m.entries.Keys) && Round(m, names, pings).active != m.active
  {
    var a, keys := m.active, m.entries.Keys;
    var others := Enumerate(keys - {a});
    Joined([a], others, {a}, keys - {a});
    assert {a} + (keys - {a}) == keys;
    names := [a] + others;
    var ms := RoundSteps(m, names, pings);
    assert StepAt(m, names, pings, ms, 0);
    FirstVisitMoves(m, names, pings, ms[1], b);
    forall j: nat | 1 <= j < |names|
      ensures BarredAt(m, names, pings, ms, j, a)
    {
      assert names[..j + 1][0] == a;
      assert StepAt(m, names, pings, ms, j);
      NotYet(m, names, pings, j, ms[j], ms[j + 1], a);
    }
    Avoids(m, names, pings, ms, 1, |names|, a);
  }

  /** The first entry healthy at the end recovers in this round: it takes over if it is
      visited before the active entry falls, and does not if it is visited after. */
  lemma RecoveryRaces(m: Manager, pings: Pings, i: nat)
    requires Coherent(m) && FallsIn(m, pings, m.active) && FirstAfter(m, pings, i) && RisesIn(m, pings, m.order[i])
    ensures !OrderFree(m, pings)
  {
    var ns := ActiveVisitedLast(m, pings);
    var ns' := RecoveriesVisitedLast(m, pings, m.order[i]);
    FirstHealthy(Observed(m, pings), m.order, i);
    assert Round(m, ns, pings) != Round(m, ns', pings);
  }

  /** Nobody is left at the end, but somebody else was healthy: the active name ends at
      an entry that fell after the active one, if there was any. */
  lemma CollapseRaces(m: Manager, pings: Pings, b: string)
    requires Coherent(m) && FallsIn(m, pings, m.active) && Healthy(m.entries, b) && b != m.active
    requires forall n | n in m.entries :: !Ends(m, pings, n)
    ensures !OrderFree(m, pings)
  {
    var ns := ActiveVisitedLast(m, pings);
    var ns' := ActiveVisitedFirst(m, pings, b);
    NoneHealthy(Observed(m, pings), m.order);
    assert Round(m, ns, pings) != Round(m, ns', pings);
  }

  lemma {:induction false} FirstEnding(m: Manager, pings: Pings, k: nat) returns (i: nat)
    requires k < |m.order| && Ends(m, pings, m.order[k])
    ensures FirstAfter(m, pings, i)
    decreases k
  {
    if j: nat :| j < k && Ends(m, pings, m.order[j]) {
      i := FirstEnding(m, pings, j);
    } else {
      i := k;
    }
  }

  /** Confluence, exactly: a health check has one outcome for every order of iteration
      if and only if it is settled. */
  lemma OrderFreeIff(m: Manager, pings: Pings)
    requires Coherent(m)
    ensures OrderFree(m, pings) <==> Settled(m, pings)
  {
    if Settled(m, pings) {
      forall ns, ns' | Iterates(ns, m.entries.Keys) && Iterates(ns', m.entries.Keys)
        ensures Round(m, ns, pings) == Round(m, ns', pings)
      {
        SettledOutcome(m, ns, pings);
        SettledOutcome(m, ns', pings);
      }
    } else if n :| n in m.entries && Ends(m, pings, n) {
      var k :| 0 <= k < |m.order| && m.order[k] == n;
      var i := FirstEnding(m, pings, k);
      RecoveryRaces(m, pings, i);
    } else {
      var b :| b in m.entries && Healthy(m.entries, b) && b != m.active;
      CollapseRaces(m, pings, b);
    }
  }

  /** In particular when nobody recovers and somebody is healthy at the end; then a
      fallen active entry is replaced by the first healthy one in order. */
  lemma NoRecoveryConfluent(m: Manager, names: seq<string>, pings: Pings)
    requires Coherent(m) && Iterates(names, m.entries.Keys)
    requires forall n | n in m.entries :: !RisesIn(m, pings, n)
    requires exists n :: n in m.entries && Ends(m, pings, n)
    ensures OrderFree(m, pings)
    ensures FallsIn(m, pings, m.active) ==>
              exists i: nat :: FirstAfter(m, pings, i) && Round(m, names, pings).active == m.order[i]
  {
    var n :| n in m.entries && Ends(m, pings, n);
    var k :| 0 <= k < |m.order| && m.order[k] == n;
    var i := FirstEnding(m, pings, k);
    assert Healthy(m.entries, m.order[i]);
    OrderFreeIff(m, pings);
    SettledOutcome(m, names, pings);
    FirstHealthy(Observed(m, pings), m.order, i);
  }

  /** A manager that has just been loaded with two servers, both of which fail: which of
      them ends up active depends on the order of the iteration. */
  lemma OrderWitness(a: Endpoint, b: Endpoint)
    requires a.name != b.name && a.name != "" && b.name != "" && a.weight >= 1 && b.weight >= 1 && Before(a, b)
    ensures Allowed(FRESH, Selection.TwoServers(a, b))
    ensures !OrderFree(Apply(FRESH, Selection.TwoServers(a, b)), n => Silent)
  {
    var pings: Pings := n => Silent;
    var m := Apply(FRESH, Selection.TwoServers(a, b));
    Selection.TwoServersLoad(a, b);
    CollapseRaces(m, pings, b.name);
  }

  // ---- what the flags mean in a run ----

  /** The pings of entry `x` since it was last reset. */
  function Since(ops: seq<Op>, x: string): Hysteresis.History {
    if ops == [] then []
    else
      var before := Since(ops[..|ops| - 1], x);
      match ops[|ops| - 1]
      case Check(_, pings) => before + [pings(x)]
      case Install(name, _) => if name == x then [] else before
      case Load(_, _, _, _) => []
      case Use(_) => before
      case CloseAll => before
  }

  lemma {:induction false} ReplaySince(ms: seq<Manager>, ops: seq<Op>, k: nat, x: string) returns (e: Entry)
    requires Selection.Trace(ms, ops) && ms[0] == FRESH && k < |ms| && x in ms[k].entries
    ensures Hysteresis.Reset(e) && ms[k].entries[x] == Hysteresis.Replay(e, Since(ops[..k], x), ms[k].health)
  {
    assert k > 0;
    var op := ops[k - 1];
    assert Selection.OpAt(ms, ops, k - 1);
    assert ms[k] == Apply(ms[k - 1], op) && ops[..k][..k - 1] == ops[..k - 1];
    match op
    case Load(_, _, _, _) => e := ms[k].entries[x];
    case Install(name, _) =>
      if name == x {
        e := ms[k].entries[x];
      } else {
        e := ReplaySince(ms, ops, k - 1, x);
      }
    case Check(names, pings) =>
      RoundEntries(ms[k - 1], names, pings);
      RoundFrame(ms[k - 1], names, pings);
      e := ReplaySince(ms, ops, k - 1, x);
      assert Since(ops[..k], x) == Since(ops[..k - 1], x) + [pings(x)];
    case Use(_) => e := ReplaySince(ms, ops, k - 1, x);
    case CloseAll =>
  }

  /** In every reachable state an entry is unhealthy if and only if its pings since its
      last reset contain a completed failure run without a completed recovery run after
      it; `failures` and `recovers` are the runs those pings end with. */
  lemma RunHysteresis(ms: seq<Manager>, ops: seq<Op>, k: nat, x: string)
    requires Selection.Trace(ms, ops) && ms[0] == FRESH && k < |ms| && x in ms[k].entries
    ensures var (e, h) := (ms[k].entries[x], Since(ops[..k], x));
            && e.failures == Hysteresis.Fails(h)
            && (!e.healthy ==> e.recovers == Hysteresis.Oks(h))
            && (!e.healthy <==> Hysteresis.Down(h, ms[k].health))
  {
    var e := ReplaySince(ms, ops, k, x);
    Selection.RunCoherent(ms, ops, k);
    Hysteresis.Refines(e, Since(ops[..k], x), ms[k].health);
  }

  // ---- what the latencies mean in a run ----

  /** The pings of entry `x` since the entries were last replaced. */
  function Heard(ops: seq<Op>, x: string): Hysteresis.History {
    if ops == [] then []
    else
      var before := Heard(ops[..|ops| - 1], x);
      match ops[|ops| - 1]
      case Check(_, pings) => before + [pings(x)]
      case Load(_, _, _, _) => []
      case Install(_, _) => before
      case Use(_) => before
      case CloseAll => before
  }

  /** The latency that a history of pings leaves. */
  ghost predicate Measures(h: Hysteresis.History, rtt: int) {
    && (Hysteresis.Unanswered(h) ==> rtt == 0)
    && forall i: nat :: Hysteresis.LastAnswer(h, i) ==> rtt == h[i].rtt
  }

  lemma MeasuresSnoc(h: Hysteresis.History, e: Entry, p: Ping, t: Thresholds)
    requires Measures(h, e.rtt)
    ensures Measures(h + [p], Observe(e, p, t).rtt)
  {
    var g := h + [p];
    assert g[|h|] == p;
    if Hysteresis.Unanswered(g) {
      forall j | 0 <= j < |h|
        ensures h[j].Silent?
      {
        assert g[j] == h[j];
      }
    }
    forall i: nat | Hysteresis.LastAnswer(g, i)
      ensures Observe(e, p, t).rtt == g[i].rtt
    {
      if i < |h| {
        assert p.Silent?;
        forall j | i < j < |h|
          ensures h[j].Silent?
        {
          assert g[j] == h[j];
        }
        assert Hysteresis.LastAnswer(h, i);
      }
    }
  }

  /** In every reachable state the latency of an entry is that of the last ping it answered
      since the entries were loaded, across its own reconnects, or zero if it answered
      none. */
  lemma {:induction false} RunLatency(ms: seq<Manager>, ops: seq<Op>, k: nat, x: string)
    requires Selection.Trace(ms, ops) && ms[0] == FRESH && k < |ms| && x in ms[k].entries
    ensures Measures(Heard(ops[..k], x), ms[k].entries[x].rtt)
  {
    assert k > 0;
    var op := ops[k - 1];
    assert Selection.OpAt(ms, ops, k - 1);
    assert ms[k] == Apply(ms[k - 1], op) && ops[..k][..k - 1] == ops[..k - 1];
    match op
    case Load(_, _, _, _) =>
    case Install(_, _) => RunLatency(ms, ops, k - 1, x);
    case Check(names, pings) =>
      RoundEntries(ms[k - 1], names, pings);
      RoundFrame(ms[k - 1], names, pings);
      RunLatency(ms, ops, k - 1, x);
      MeasuresSnoc(Heard(ops[..k - 1], x), ms[k - 1].entries[x], pings(x), ms[k - 1].health);
    case Use(_) => RunLatency(ms, ops, k - 1, x);
    case CloseAll =>
  }
}
