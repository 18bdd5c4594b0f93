/** Who owns which tunnel pool: the pools installed in entries, those a goroutine holds
    in a local variable, and those that were closed. */
module Ledger {
  import opened Upstreams

  /** Stands for a goroutine. */
  type Tid = nat

  /** The slots are the local variables of a goroutine; a staged pool's is its name. */
  datatype Ledger = Ledger(installed: map<string, PoolId>, held: map<Tid, map<string, PoolId>>,
                           closed: multiset<PoolId>)

  datatype Home = InEntry(name: string) | InThread(t: Tid, slot: string) | Closed | Leaked

  function HeldBy(l: Ledger, t: Tid): map<string, PoolId> {
    if t in l.held then l.held[t] else map[]
  }

  predicate Has(l: Ledger, p: PoolId, h: Home) {
    match h
    case InEntry(n) => n in l.installed && l.installed[n] == p
    case InThread(t, k) => k in HeldBy(l, t) && HeldBy(l, t)[k] == p
    case Closed => p in l.closed
    case Leaked => false
  }

  type Homes = map<PoolId, Home>

  /** Every pool dialled so far has one home, which is where it is found, and nowhere
      else; a leaked one is found nowhere. Nothing was closed twice. */
  ghost predicate Housed(l: Ledger, w: Homes, dialled: set<PoolId>) {
    && w.Keys == dialled
    && (forall p, h | h != Leaked :: Has(l, p, h) <==> p in w && w[p] == h)
    && (forall p :: l.closed[p] <= 1)
  }

  datatype Move =
    | Stay
    | Take(t: Tid, slot: string, pool: PoolId)      // a dial succeeds
    | Dispose(t: Tid, slot: string)                 // a held pool is closed
    | Exchange(t: Tid, slot: string, name: string)  // a held pool and an installed one change places
    | Handover(t: Tid)                              // all held ones and all installed ones do

  predicate SameHeld(l: Ledger, r: Ledger, t: Tid) {
    HeldBy(r, t) == HeldBy(l, t)
  }

  ghost predicate OthersSame(l: Ledger, r: Ledger, t: Tid) {
    forall u: Tid :: u != t ==> SameHeld(l, r, u)
  }

  ghost predicate Moved(l: Ledger, mv: Move, r: Ledger) {
    match mv
    case Stay => r.installed == l.installed && r.closed == l.closed && forall u: Tid :: SameHeld(l, r, u)
    case Take(t, k, p) =>
      && r.installed == l.installed && r.closed == l.closed && OthersSame(l, r, t)
      && HeldBy(r, t) == HeldBy(l, t)[k := p]
    case Dispose(t, k) =>
      && k in HeldBy(l, t) && r.installed == l.installed && r.closed == l.closed + multiset{HeldBy(l, t)[k]}
      && OthersSame(l, r, t) && HeldBy(r, t) == HeldBy(l, t) - {k}
    case Exchange(t, k, n) =>
      && k in HeldBy(l, t) && n in l.installed && r.closed == l.closed && OthersSame(l, r, t)
      && r.installed == l.installed[n := HeldBy(l, t)[k]] && HeldBy(r, t) == HeldBy(l, t)[k := l.installed[n]]
    case Handover(t) =>
      && r.closed == l.closed && OthersSame(l, r, t)
      && r.installed == HeldBy(l, t) && HeldBy(r, t) == l.installed
  }

  predicate Fresh(mv: Move, dialled: set<PoolId>) {
    mv.Take? ==> mv.pool !in dialled
  }

  function Dialled(mv: Move, dialled: set<PoolId>): set<PoolId> {
    if mv.Take? then dialled + {mv.pool} else dialled
  }

  /** The pool that a dial for a slot already in use forgets. */
  predicate Forgets(l: Ledger, mv: Move) {
    mv.Take? && mv.slot in HeldBy(l, mv.t)
  }

  /** The homes after a move. */
  function Rehouse(l: Ledger, w: Homes, mv: Move): Homes {
    match mv
    case Stay => w
    case Take(t, k, p) =>
      (if k in HeldBy(l, t) then w[HeldBy(l, t)[k] := Leaked] else w)[p := InThread(t, k)]
    case Dispose(t, k) => if k in HeldBy(l, t) then w[HeldBy(l, t)[k] := Closed] else w
    case Exchange(t, k, n) =>
      if k in HeldBy(l, t) && n in l.installed
      then w[HeldBy(l, t)[k] := InEntry(n)][l.installed[n] := InThread(t, k)] else w
    case Handover(t) =>
      map p | p in w :: match w[p]
                        case InEntry(n) => InThread(t, n)
                        case InThread(u, k) => if u == t then InEntry(k) else w[p]
                        case Closed => Closed
                        case Leaked => Leaked
  }

  lemma StayHouses(l: Ledger, w: Homes, dialled: set<PoolId>, mv: Move, r: Ledger)
    requires Housed(l, w, dialled) && mv.Stay? && Moved(l, mv, r)
    ensures Housed(r, w, dialled)
  {
    forall p, h | h != Leaked
      ensures Has(r, p, h) <==> Has(l, p, h)
    {
      if h.InThread? {
        assert SameHeld(l, r, h.t);
      }
    }
  }

  lemma TakeHouses(l: Ledger, w: Homes, dialled: set<PoolId>, mv: Move, r: Ledger)
    requires Housed(l, w, dialled) && mv.Take? && Moved(l, mv, r) && Fresh(mv, dialled)
    ensures Housed(r, Rehouse(l, w, mv), dialled + {mv.pool})
  {
    var w' := Rehouse(l, w, mv);
    if mv.slot in HeldBy(l, mv.t) {
      assert Has(l, HeldBy(l, mv.t)[mv.slot], InThread(mv.t, mv.slot));
    }
    forall p, h | h != Leaked
      ensures Has(r, p, h) <==> p in w' && w'[p] == h
    {
      assert Has(l, p, h) <==> p in w && w[p] == h;
      if h.InThread? && h.t != mv.t {
        assert SameHeld(l, r, h.t);
      }
      assert Has(l, p, InThread(mv.t, mv.slot)) <==> p in w && w[p] == InThread(mv.t, mv.slot);
    }
  }

  lemma DisposeHouses(l: Ledger, w: Homes, dialled: set<PoolId>, mv: Move, r: Ledger)
    requires Housed(l, w, dialled) && mv.Dispose? && Moved(l, mv, r)
    ensures Housed(r, Rehouse(l, w, mv), dialled)
  {
    var w', x := Rehouse(l, w, mv), HeldBy(l, mv.t)[mv.slot];
    assert Has(l, x, InThread(mv.t, mv.slot));
    assert !Has(l, x, Closed);
    forall p, h | h != Leaked
      ensures Has(r, p, h) <==> p in w' && w'[p] == h
    {
      assert Has(l, p, h) <==> p in w && w[p] == h;
      if h.InThread? && h.t != mv.t {
        assert SameHeld(l, r, h.t);
      }
    }
  }

  lemma ExchangeHouses(l: Ledger, w: Homes, dialled: set<PoolId>, mv: Move, r: Ledger)
    requires Housed(l, w, dialled) && mv.Exchange? && Moved(l, mv, r)
    ensures Housed(r, Rehouse(l, w, mv), dialled)
  {
    var w', x, y := Rehouse(l, w, mv), HeldBy(l, mv.t)[mv.slot], l.installed[mv.name];
    assert Has(l, x, InThread(mv.t, mv.slot));
    assert Has(l, y, InEntry(mv.name));
    forall p, h | h != Leaked
      ensures Has(r, p, h) <==> p in w' && w'[p] == h
    {
      assert Has(l, p, h) <==> p in w && w[p] == h;
      if h.InThread? && h.t != mv.t {
        assert SameHeld(l, r, h.t);
      }
    }
  }

  /** Where the pools of `h` were before a handover by `t`. */
  function Before(h: Home, t: Tid): Home {
    match h
    case InEntry(n) => InThread(t, n)
    case InThread(u, k) => if u == t then InEntry(k) else h
    case Closed => Closed
    case Leaked => Leaked
  }

  lemma HandoverHouses(l: Ledger, w: Homes, dialled: set<PoolId>, mv: Move, r: Ledger)
    requires Housed(l, w, dialled) && mv.Handover? && Moved(l, mv, r)
    ensures Housed(r, Rehouse(l, w, mv), dialled)
  {
    var w' := Rehouse(l, w, mv);
    forall p, h | h != Leaked
      ensures Has(r, p, h) <==> p in w' && w'[p] == h
    {
      assert Has(l, p, Before(h, mv.t)) <==> p in w && w[p] == Before(h, mv.t);
      if h.InThread? && h.t != mv.t {
        assert SameHeld(l, r, h.t);
      }
    }
  }

  ghost predicate NoneLeaked(w: Homes) {
    forall p | p in w :: w[p] != Leaked
  }

  /** Conservation: each of these moves keeps every pool in exactly one place, and a pool
      leaks exactly when a dial reuses a slot. */
  lemma MoveHouses(l: Ledger, w: Homes, dialled: set<PoolId>, mv: Move, r: Ledger)
    requires Housed(l, w, dialled) && Moved(l, mv, r) && Fresh(mv, dialled)
    ensures Housed(r, Rehouse(l, w, mv), Dialled(mv, dialled))
    ensures NoneLeaked(w) ==> (NoneLeaked(Rehouse(l, w, mv)) <==> !Forgets(l, mv))
  {
    if Forgets(l, mv) {
      assert Has(l, HeldBy(l, mv.t)[mv.slot], InThread(mv.t, mv.slot));
    }
    match mv
    case Stay => StayHouses(l, w, dialled, mv, r);
    case Take(_, _, _) => TakeHouses(l, w, dialled, mv, r);
    case Dispose(_, _) => DisposeHouses(l, w, dialled, mv, r);
    case Exchange(_, _, _) => ExchangeHouses(l, w, dialled, mv, r);
    case Handover(_) => HandoverHouses(l, w, dialled, mv, r);
  }

  /** A leaked pool stays leaked. */
  lemma LeakedStays(l: Ledger, w: Homes, dialled: set<PoolId>, mv: Move, r: Ledger, p: PoolId)
    requires Housed(l, w, dialled) && Moved(l, mv, r) && Fresh(mv, dialled) && p in w && w[p] == Leaked
    ensures p in Rehouse(l, w, mv) && Rehouse(l, w, mv)[p] == Leaked
  {
    match mv
    case Stay =>
    case Take(t, k, _) =>
    case Dispose(t, k) => assert Has(l, HeldBy(l, t)[k], InThread(t, k));
    case Exchange(t, k, n) =>
      assert Has(l, HeldBy(l, t)[k], InThread(t, k));
      assert Has(l, l.installed[n], InEntry(n));
    case Handover(t) =>
  }

  /** The pool is found somewhere. */
  ghost predicate Located(l: Ledger, p: PoolId) {
    exists h :: h != Leaked && Has(l, p, h)
  }

  lemma LocatedIff(l: Ledger, w: Homes, dialled: set<PoolId>)
    requires Housed(l, w, dialled)
    ensures (forall p | p in dialled :: Located(l, p)) <==> NoneLeaked(w)
  {
    forall p | p in dialled
      ensures Located(l, p) <==> w[p] != Leaked
    {
      if w[p] != Leaked {
        assert Has(l, p, w[p]);
      }
    }
  }
}
