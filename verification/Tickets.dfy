/** Round-robin tickets: a uint32 counter that every pick advances by one
    (atomic.AddUint32(&ctr, 1) - 1), and what any run of consecutive tickets says
    about fairness, wrap-around included. */
module Tickets {

  const SPAN: nat := 0x1_0000_0000

  type Ticket = x: int | 0 <= x < 0x1_0000_0000

  /** The ticket drawn `k` picks after ticket `t`. */
  function After(t: Ticket, k: nat): Ticket {
    (t + k) % SPAN
  }

  predicate Within(x: nat, m: nat, lo: nat, hi: nat)
    requires m > 0
  {
    lo <= x % m < hi
  }

  /** How many of the `n` tickets from `t` leave a remainder in lo..hi modulo `m`. */
  function Hits(t: Ticket, n: nat, m: nat, lo: nat, hi: nat): nat
    requires m > 0
  {
    if n == 0 then 0
    else Hits(t, n - 1, m, lo, hi) + if Within(After(t, n - 1), m, lo, hi) then 1 else 0
  }

  /** The same count for the `n` integers from `a`, which never wrap. */
  function Count(a: nat, n: nat, m: nat, lo: nat, hi: nat): nat
    requires m > 0
  {
    if n == 0 then 0
    else Count(a, n - 1, m, lo, hi) + if Within(a + n - 1, m, lo, hi) then 1 else 0
  }

  // ---- remainders ----

  lemma MultipleFar(m: nat, d: int)
    ensures d == 0 || m * d >= m || m * d + m <= 0
  {
    if d >= 1 {
      assert m * d == m + m * (d - 1) && m * (d - 1) >= 0;
    } else if d <= -1 {
      assert m * d + m == m * (d + 1) && m * (-d - 1) >= 0;
    }
  }

  lemma DivModUnique(x: nat, q: nat, k: nat, m: nat)
    requires k < m && x == m * q + k
    ensures x % m == k && x / m == q
  {
    var d := x / m - q;
    assert m * d == k - x % m by {
      assert m * (x / m) + x % m == x;
      assert m * d == m * (x / m) - m * q;
    }
    MultipleFar(m, d);
  }

  lemma ModSum(a: nat, k: nat, m: nat)
    requires m > 0 && a % m == 0
    ensures (a + k) % m == k % m
  {
    assert a == m * (a / m) && k == m * (k / m) + k % m;
    assert a + k == m * (a / m + k / m) + k % m by {
      assert m * (a / m + k / m) == m * (a / m) + m * (k / m);
    }
    DivModUnique(a + k, a / m + k / m, k % m, m);
  }

  lemma ModShift(a: nat, m: nat)
    requires m > 0
    ensures (a + m) % m == a % m
  {
    assert m * (a / m) + a % m == a;
    assert m * (a / m + 1) == m * (a / m) + m;
    DivModUnique(a + m, a / m + 1, a % m, m);
  }

  lemma ModOffset(a: nat, k: nat, m: nat)
    requires m > 0 && a % m + k < m
    ensures (a + k) % m == a % m + k
  {
    assert m * (a / m) + a % m == a;
    DivModUnique(a + k, a / m, a % m + k, m);
  }

  // ---- windows of integers ----

  lemma {:induction false} CountSplit(a: nat, n: nat, k: nat, m: nat, lo: nat, hi: nat)
    requires m > 0
    ensures Count(a, n + k, m, lo, hi) == Count(a, n, m, lo, hi) + Count(a + n, k, m, lo, hi)
  {
    if k == 0 {
    } else {
      CountSplit(a, n, k - 1, m, lo, hi);
    }
  }

  lemma {:induction false} CountMonotone(a: nat, n: nat, n': nat, m: nat, lo: nat, hi: nat)
    requires m > 0 && n <= n'
    ensures Count(a, n, m, lo, hi) <= Count(a, n', m, lo, hi)
  {
    CountSplit(a, n, n' - n, m, lo, hi);
  }

  function Overlap(n: nat, lo: nat, hi: nat): nat {
    if n <= lo || hi <= lo then 0 else if n <= hi then n - lo else hi - lo
  }

  /** A window that stays inside one block of `m` integers. */
  lemma {:induction false} CountBlock(a: nat, n: nat, m: nat, lo: nat, hi: nat)
    requires m > 0 && a % m + n <= m
    ensures Count(a, n, m, lo, hi) == Overlap(a % m + n, lo, hi) - Overlap(a % m, lo, hi)
  {
    if n == 0 {
    } else {
      CountBlock(a, n - 1, m, lo, hi);
      ModOffset(a, n - 1, m);
    }
  }

  /** Any `m` consecutive integers meet every remainder exactly once. */
  lemma {:induction false} CountCycle(a: nat, m: nat, lo: nat, hi: nat)
    requires m > 0 && lo <= hi <= m
    ensures Count(a, m, m, lo, hi) == hi - lo
    decreases a
  {
    if a == 0 {
      CountBlock(0, m, m, lo, hi);
    } else {
      CountCycle(a - 1, m, lo, hi);
      CountSplit(a - 1, 1, m - 1, m, lo, hi);
      ModShift(a - 1, m);
      assert Count(a - 1, 0, m, lo, hi) == 0;
    }
  }

  /** Moving a window by a multiple of `m` changes nothing. */
  lemma {:induction false} CountPeriodic(a: nat, n: nat, m: nat, lo: nat, hi: nat)
    requires m > 0 && a % m == 0
    ensures Count(a, n, m, lo, hi) == Count(0, n, m, lo, hi)
  {
    if n == 0 {
    } else {
      CountPeriodic(a, n - 1, m, lo, hi);
      ModSum(a, n - 1, m);
      assert a + n - 1 == a + (n - 1);
    }
  }

  /** Any `n` consecutive integers meet a range of `w` remainders at least
      floor(n/m) * w and at most ceil(n/m) * w times. */
  lemma {:induction false} CountBounds(a: nat, q: nat, s: nat, m: nat, lo: nat, hi: nat)
    requires lo <= hi <= m && s < m
    ensures q * (hi - lo) <= Count(a, q * m + s, m, lo, hi)
    ensures Count(a, q * m + s, m, lo, hi) <= (if s == 0 then q else q + 1) * (hi - lo)
    decreases q
  {
    if q == 0 {
      CountCycle(a, m, lo, hi);
      CountMonotone(a, s, m, m, lo, hi);
    } else {
      CountCycle(a, m, lo, hi);
      CountBounds(a + m, q - 1, s, m, lo, hi);
      assert q * m + s == m + ((q - 1) * m + s);
      CountSplit(a, m, (q - 1) * m + s, m, lo, hi);
      assert q * (hi - lo) == (q - 1) * (hi - lo) + (hi - lo);
      assert (q + 1) * (hi - lo) == q * (hi - lo) + (hi - lo);
    }
  }

  // ---- windows of tickets ----

  lemma AfterIs(t: Ticket, k: nat)
    requires k < SPAN
    ensures After(t, k) == if t + k < SPAN then t + k else t + k - SPAN
  {
  }

  /** Tickets before the counter wraps are plain integers, those after it start
      again from zero. */
  lemma {:induction false} HitsSplit(t: Ticket, n: nat, m: nat, lo: nat, hi: nat)
    requires m > 0 && n <= SPAN
    ensures Hits(t, n, m, lo, hi)
         == if t + n <= SPAN then Count(t, n, m, lo, hi)
            else Count(t, SPAN - t, m, lo, hi) + Count(0, t + n - SPAN, m, lo, hi)
  {
    if n == 0 {
    } else {
      HitsSplit(t, n - 1, m, lo, hi);
      AfterIs(t, n - 1);
    }
  }

  /** The counter's window behaves as if it never wrapped. */
  predicate Seamless(t: Ticket, n: nat, m: nat)
    requires m > 0
  {
    t + n <= SPAN || SPAN % m == 0
  }

  lemma HitsSeamless(t: Ticket, n: nat, m: nat, lo: nat, hi: nat)
    requires m > 0 && n <= SPAN && Seamless(t, n, m)
    ensures Hits(t, n, m, lo, hi) == Count(t, n, m, lo, hi)
  {
    HitsSplit(t, n, m, lo, hi);
    if t + n > SPAN {
      CountPeriodic(SPAN, t + n - SPAN, m, lo, hi);
      CountSplit(t, SPAN - t, t + n - SPAN, m, lo, hi);
    }
  }

  /** The ceiling of the quotient, given the remainder. */
  function Ceiling(q: nat, s: nat): nat {
    if s == 0 then q else q + 1
  }

  /** So the bounds hold for tickets as well. */
  lemma HitsBounds(t: Ticket, n: nat, q: nat, s: nat, m: nat, lo: nat, w: nat)
    requires lo + w <= m && s < m && n == q * m + s <= SPAN && Seamless(t, n, m)
    ensures q * w <= Hits(t, n, m, lo, lo + w) <= Ceiling(q, s) * w
  {
    HitsSeamless(t, n, m, lo, lo + w);
    CountBounds(t, q, s, m, lo, lo + w);
    assert lo + w - lo == w;
  }

  /** How often a cycle of `m` tickets meets a range of remainders if the counter wraps
      on the way: it starts at remainder `a`, and the wrap comes at remainder `s`. */
  function WrappedHits(a: nat, s: nat, m: nat, lo: nat, hi: nat): int
    requires a < m && s < m && lo <= hi <= m
  {
    if a < s then Overlap(s, lo, hi) - Overlap(a, lo, hi) + Overlap(m - s + a, lo, hi)
    else (hi - lo) - Overlap(a, lo, hi) + Overlap(s, lo, hi) + Overlap(a - s, lo, hi)
  }

  /** The wrap comes in the block of remainders in which the cycle starts. */
  lemma WrapInBlock(t: Ticket, k: nat, m: nat, lo: nat, hi: nat)
    requires 0 < k < m && t + k == SPAN && t % m + k < m && lo <= hi <= m
    ensures SPAN % m == t % m + k
    ensures Count(t, k, m, lo, hi) == Overlap(SPAN % m, lo, hi) - Overlap(t % m, lo, hi)
  {
    ModOffset(t, k, m);
    CountBlock(t, k, m, lo, hi);
  }

  /** Or in the one after it. */
  lemma WrapBeyondBlock(t: Ticket, k: nat, m: nat, lo: nat, hi: nat)
    requires 0 < k < m && t + k == SPAN && t % m + k >= m && lo <= hi <= m
    ensures SPAN % m == t % m + k - m
    ensures Count(t, k, m, lo, hi) == (hi - lo) - Overlap(t % m, lo, hi) + Overlap(SPAN % m, lo, hi)
  {
    var a := t % m;
    WrapInNextBlock(t, k, m);
    CountSplit(t, m - a, k - (m - a), m, lo, hi);
    CountBlock(t, m - a, m, lo, hi);
    CountBlock(t + (m - a), k - (m - a), m, lo, hi);
  }

  lemma CycleHits(t: Ticket, m: nat, lo: nat, hi: nat)
    requires 0 < m <= SPAN && lo <= hi <= m && t + m > SPAN
    ensures Hits(t, m, m, lo, hi) == WrappedHits(t % m, SPAN % m, m, lo, hi)
  {
    var k := SPAN - t;
    HitsSplit(t, m, m, lo, hi);
    CountBlock(0, m - k, m, lo, hi);
    if t % m + k < m {
      WrapInBlock(t, k, m, lo, hi);
    } else {
      WrapBeyondBlock(t, k, m, lo, hi);
    }
  }

  lemma WrapInNextBlock(t: Ticket, k: nat, m: nat)
    requires 0 < k < m && t + k == SPAN && t % m + k >= m
    ensures SPAN % m == t % m + k - m && (t + (m - t % m)) % m == 0
  {
    var q, a := t / m, t % m;
    assert t == m * q + a;
    assert m * (q + 1) == m * q + m;
    DivModUnique(SPAN, q + 1, a + k - m, m);
    DivModUnique(t + (m - a), q + 1, 0, m);
  }

  // ---- cycles longer than the counter ----

  lemma {:induction false} HitsAdd(t: Ticket, n: nat, k: nat, m: nat, lo: nat, hi: nat)
    requires m > 0
    ensures Hits(t, n + k, m, lo, hi) == Hits(t, n, m, lo, hi) + Hits(After(t, n), k, m, lo, hi)
  {
    if k == 0 {
    } else {
      HitsAdd(t, n, k - 1, m, lo, hi);
      AfterAdds(t, n, k - 1);
      assert n + k - 1 == n + (k - 1);
    }
  }

  lemma AfterAdds(t: Ticket, n: nat, k: nat)
    ensures After(After(t, n), k) == After(t, n + k)
  {
  }

  /** `n` tickets, if no ticket reaches the number `m` and the counter wraps at most once. */
  function LowHits(t: Ticket, n: nat, lo: nat, hi: nat): int {
    if t + n <= SPAN then Overlap(t + n, lo, hi) - Overlap(t, lo, hi)
    else Overlap(SPAN, lo, hi) - Overlap(t, lo, hi) + Overlap(t + n - SPAN, lo, hi)
  }

  lemma HitsLow(t: Ticket, n: nat, m: nat, lo: nat, hi: nat)
    requires m > SPAN && n <= SPAN
    ensures Hits(t, n, m, lo, hi) == LowHits(t, n, lo, hi)
  {
    HitsSplit(t, n, m, lo, hi);
    DivModUnique(t, 0, t, m);
    DivModUnique(0, 0, 0, m);
    if t + n <= SPAN {
      CountBlock(t, n, m, lo, hi);
    } else {
      CountBlock(t, SPAN - t, m, lo, hi);
      CountBlock(0, t + n - SPAN, m, lo, hi);
    }
  }

  lemma AfterTurn(t: Ticket)
    ensures After(t, SPAN) == t
  {
  }

  /** Every full turn of the counter draws every ticket once. */
  lemma HitsTurn(t: Ticket, n: nat, m: nat, lo: nat, hi: nat)
    requires m > SPAN
    ensures Hits(t, SPAN + n, m, lo, hi) == Overlap(SPAN, lo, hi) + Hits(t, n, m, lo, hi)
  {
    var turn := SPAN;
    HitsLow(t, turn, m, lo, hi);
    HitsAdd(t, turn, n, m, lo, hi);
    AfterTurn(t);
  }

  lemma {:induction false} HitsTurns(t: Ticket, q: nat, r: nat, m: nat, lo: nat, hi: nat)
    requires m > SPAN && r < SPAN
    ensures Hits(t, q * SPAN + r, m, lo, hi) == q * Overlap(SPAN, lo, hi) + LowHits(t, r, lo, hi)
  {
    if q == 0 {
      HitsLow(t, r, m, lo, hi);
    } else {
      var n, c := (q - 1) * SPAN + r, Overlap(SPAN, lo, hi);
      HitsTurns(t, q - 1, r, m, lo, hi);
      HitsTurn(t, n, m, lo, hi);
      assert q * SPAN + r == SPAN + n;
      assert q * c == (q - 1) * c + c;
    }
  }

  /** A range of remainders gets its whole share of a cycle: the counter does not wrap on
      the way, or what the wrap leaves out it repeats. If a cycle takes more than one turn
      of the counter, its turns and the rest give the range just what is its due. */
  predicate ShareWhole(t: Ticket, m: nat, lo: nat, hi: nat)
    requires m > 0 && lo <= hi <= m
  {
    if m > SPAN then (m / SPAN) * Overlap(SPAN, lo, hi) + LowHits(t, m % SPAN, lo, hi) == hi - lo
    else
      var a, s := t % m, SPAN % m;
      || t + m <= SPAN
      || (if a < s then Overlap(s, lo, hi) + Overlap(m - s + a, lo, hi) == Overlap(a, lo, hi) + (hi - lo)
          else Overlap(s, lo, hi) + Overlap(a - s, lo, hi) == Overlap(a, lo, hi))
  }

  lemma ShareWholeIff(t: Ticket, m: nat, lo: nat, hi: nat)
    requires 0 < m && lo <= hi <= m
    ensures Hits(t, m, m, lo, hi) == hi - lo <==> ShareWhole(t, m, lo, hi)
  {
    if m > SPAN {
      HitsTurns(t, m / SPAN, m % SPAN, m, lo, hi);
      assert (m / SPAN) * SPAN + m % SPAN == m;
    } else if t + m <= SPAN {
      HitsSeamless(t, m, m, lo, hi);
      CountCycle(t, m, lo, hi);
    } else {
      CycleHits(t, m, lo, hi);
    }
  }

  /** Every remainder modulo `m` is met once by the `m` tickets from `t`. */
  ghost predicate CycleFair(t: Ticket, m: nat)
    requires m > 0
  {
    forall r: nat {:trigger HitsOf(t, m, r)} | r < m :: HitsOf(t, m, r) == 1
  }

  function HitsOf(t: Ticket, m: nat, r: nat): nat
    requires m > 0
  {
    Hits(t, m, m, r, r + 1)
  }

  /** Fairness of a full cycle, exactly: `m` consecutive tickets meet each remainder
      modulo `m` once if and only if the counter does not wrap on the way or `m`
      divides 2^32. */
  lemma CycleFairIff(t: Ticket, m: nat)
    requires 0 < m <= SPAN
    ensures CycleFair(t, m) <==> Seamless(t, m, m)
  {
    if Seamless(t, m, m) {
      forall r: nat | r < m
        ensures HitsOf(t, m, r) == 1
      {
        HitsSeamless(t, m, m, r, r + 1);
        CountCycle(t, m, r, r + 1);
      }
    } else {
      WrapUnfair(t, m);
    }
  }

  /** Three tickets from the last one before the wrap do not meet the three remainders
      once each, and the last remainder loses its share. */
  lemma WrapWitness()
    ensures !CycleFair(SPAN - 1, 3) && !ShareWhole(SPAN - 1, 3, 2, 3)
  {
    CycleFairIff(SPAN - 1, 3);
  }

  lemma WrapUnfair(t: Ticket, m: nat)
    requires 0 < m <= SPAN && !Seamless(t, m, m)
    ensures HitsOf(t, m, m - 1) == 0 || HitsOf(t, m, 0) >= 2
  {
    var s, k := SPAN % m, SPAN - t;
    if s >= k {
      // the remainder m-1 is never met
      HitsSplit(t, m, m, m - 1, m);
      BlockEnd(k, m);
      CountBlock(t, k, m, m - 1, m);
      CountBlock(0, m - k, m, m - 1, m);
    } else {
      // the remainder 0 is met on both sides of the wrap
      HitsSplit(t, m, m, 0, 1);
      CountBlock(0, m - k, m, 0, 1);
      CountSplit(t, k - s, s, m, 0, 1);
      BlockEnd(s, m);
      CountBlock(SPAN - s, s, m, 0, 1);
    }
  }

  /** The integer `k` below 2^32 lies `k` below it in its block as well. */
  lemma BlockEnd(k: nat, m: nat)
    requires m > 0 && k <= SPAN % m
    ensures (SPAN - k) % m == SPAN % m - k
  {
    var q := SPAN / m;
    assert m * q + SPAN % m == SPAN;
    DivModUnique(SPAN - k, q, SPAN % m - k, m);
  }
}
