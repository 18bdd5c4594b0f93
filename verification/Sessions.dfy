/** How a tunnel pool chooses one of its sessions (tunnelpool/pool.go): cyclic
    search from a round-robin ticket, for datagrams and for streams. */
module Sessions {
  import opened Options
  import opened Tickets

  datatype Smux = Absent | Open | Closed

  /** A pool slot: Missing is a nil session. */
  datatype Session = Missing | Session(quic: bool, smux: Smux) {
    predicate Live() {
      Session? && smux == Open
    }

    predicate Usable() {
      Live() && quic
    }
  }

  function LiveSlots(ss: seq<Session>): (b: seq<bool>)
    ensures |b| == |ss|
  {
    seq(|ss|, i requires 0 <= i < |ss| => ss[i].Live())
  }

  function UsableSlots(ss: seq<Session>): (b: seq<bool>)
    ensures |b| == |ss|
  {
    seq(|ss|, i requires 0 <= i < |ss| => ss[i].Usable())
  }

  // ---- cyclic search ----

  /** Slot number `off` of the tour that starts at `start`. */
  function Slot(start: nat, off: nat, n: nat): (i: nat)
    requires n > 0
    ensures i < n
  {
    (start + off) % n
  }

  /** The first good slot of the tour, from its step `off` on. */
  function FirstFrom(good: seq<bool>, start: nat, off: nat): Option<nat>
    requires off <= |good|
    decreases |good| - off
  {
    if off == |good| then None
    else if good[Slot(start, off, |good|)] then Some(Slot(start, off, |good|))
    else FirstFrom(good, start, off + 1)
  }

  /** No slot comes twice in a tour and every slot comes once. */
  lemma SlotOnce(start: nat, n: nat, i: nat) returns (off: nat)
    requires i < n
    ensures off < n && Slot(start, off, n) == i
    ensures forall o: nat | o < n && Slot(start, o, n) == i :: o == off
  {
    var s := start % n;
    off := if s <= i then i - s else i + n - s;
    SlotAt(start, off, n);
    forall o: nat | o < n && Slot(start, o, n) == i
      ensures o == off
    {
      SlotAt(start, o, n);
    }
  }

  lemma SlotAt(start: nat, off: nat, n: nat)
    requires off < n
    ensures Slot(start, off, n) == if start % n + off < n then start % n + off else start % n + off - n
  {
    if start % n + off < n {
      ModOffset(start, off, n);
    } else {
      var q := start / n;
      assert start + off == n * (q + 1) + (start % n + off - n);
      DivModUnique(start + off, q + 1, start % n + off - n, n);
    }
  }

  /** Slot `i` is good and is met at step `o` of the tour, before any other good slot
      from step `off` on. */
  ghost predicate FirstGoodAt(good: seq<bool>, start: nat, off: nat, o: nat, i: nat) {
    && off <= o < |good| && i == Slot(start, o, |good|) && good[i]
    && forall o': nat | off <= o' < o :: !good[Slot(start, o', |good|)]
  }

  lemma {:induction false} FirstFromMeans(good: seq<bool>, start: nat, off: nat) returns (o: nat)
    requires off <= |good|
    ensures FirstFrom(good, start, off) == None ==>
              forall o': nat | off <= o' < |good| :: !good[Slot(start, o', |good|)]
    ensures FirstFrom(good, start, off).Some? ==> FirstGoodAt(good, start, off, o, FirstFrom(good, start, off).value)
    decreases |good| - off
  {
    o := off;
    if off < |good| && !good[Slot(start, off, |good|)] {
      o := FirstFromMeans(good, start, off + 1);
    }
  }

  /** The search finds nothing exactly when no slot of the whole pool is good. */
  lemma FirstNoneIff(good: seq<bool>, start: nat)
    ensures FirstFrom(good, start, 0) == None <==> true !in good
  {
    var _ := FirstFromMeans(good, start, 0);
    if i: nat :| i < |good| && good[i] {
      var o := SlotOnce(start, |good|, i);
    }
  }

  /** The search returns exactly the good slot met first on the tour. */
  lemma FirstInCyclicOrder(good: seq<bool>, start: nat, i: nat)
    ensures FirstFrom(good, start, 0) == Some(i) <==> exists o: nat :: FirstGoodAt(good, start, 0, o, i)
  {
    var _ := FirstFromMeans(good, start, 0);
    if o: nat :| FirstGoodAt(good, start, 0, o, i) {
      FirstFromSkips(good, start, o);
    }
  }

  lemma {:induction false} FirstFromSkips(good: seq<bool>, start: nat, o: nat)
    requires o <= |good| && forall o': nat | o' < o :: !good[Slot(start, o', |good|)]
    ensures FirstFrom(good, start, 0) == FirstFrom(good, start, o)
  {
    if o == 0 {
    } else {
      FirstFromSkips(good, start, o - 1);
    }
  }

  // ---- opening a stream ----

  datatype Failure = NoSessions | NoLiveSessions | OpenFailed(slot: nat)

  datatype Opening = Opening(stream: Option<nat>, failure: Option<Failure>, tried: seq<nat>)

  /** The rest of openStream's tour: `live` and `opens` say which sessions are live
      and on which an OpenStream call succeeds, `last` is the last error so far. */
  function OpenFrom(live: seq<bool>, opens: seq<bool>, start: nat, off: nat, last: Option<nat>): (r: Opening)
    requires |live| == |opens| && off <= |live|
    decreases |live| - off
  {
    if off == |live| then
      Opening(None, Some(if last.Some? then OpenFailed(last.value) else NoLiveSessions), [])
    else
      var i := Slot(start, off, |live|);
      if !live[i] then OpenFrom(live, opens, start, off + 1, last)
      else if opens[i] then Opening(Some(i), None, [i])
      else
        var r := OpenFrom(live, opens, start, off + 1, Some(i));
        r.(tried := [i] + r.tried)
  }

  /** The sessions tried come from the rest of the tour, are live, and none is tried
      twice; all but a successful last one refused. */
  ghost predicate FairTries(live: seq<bool>, opens: seq<bool>, start: nat, off: nat, r: Opening)
    requires |live| == |opens|
  {
    && (forall i | i in r.tried :: i < |live| && live[i] && (opens[i] ==> r.stream == Some(i)))
    && (forall i | i in r.tried :: exists o: nat :: off <= o < |live| && Slot(start, o, |live|) == i)
    && (forall a, b | 0 <= a < b < |r.tried| :: r.tried[a] != r.tried[b])
    && (r.stream.Some? <==> r.failure.None?)
    && (r.stream.Some? ==> r.stream.value in r.tried && opens[r.stream.value])
    && (r.stream.None? ==> forall o: nat | off <= o < |live| && live[Slot(start, o, |live|)]
                                         :: Slot(start, o, |live|) in r.tried)
  }

  lemma {:induction false} OpenFromTries(live: seq<bool>, opens: seq<bool>, start: nat, off: nat, last: Option<nat>)
    requires |live| == |opens| && off <= |live|
    ensures FairTries(live, opens, start, off, OpenFrom(live, opens, start, off, last))
    decreases |live| - off
  {
    if off < |live| {
      var i := Slot(start, off, |live|);
      if !live[i] {
        OpenFromTries(live, opens, start, off + 1, last);
      } else if !opens[i] {
        var t := OpenFrom(live, opens, start, off + 1, Some(i));
        OpenFromTries(live, opens, start, off + 1, Some(i));
        var o1 := SlotOnce(start, |live|, i);
        assert o1 == off;
        assert i !in t.tried;
      }
    }
  }

  /** The live slots among the steps `off` to `end` of the tour, in tour order. */
  function LiveTour(live: seq<bool>, start: nat, off: nat, end: nat): seq<nat>
    requires off <= end <= |live|
    decreases end - off
  {
    if off == end then []
    else (if live[Slot(start, off, |live|)] then [Slot(start, off, |live|)] else [])
         + LiveTour(live, start, off + 1, end)
  }

  /** The session at step `o` of the tour is live and opens a stream. */
  predicate OpensAt(live: seq<bool>, opens: seq<bool>, start: nat, o: nat)
    requires |live| == |opens| && o < |live|
  {
    live[Slot(start, o, |live|)] && opens[Slot(start, o, |live|)]
  }

  /** The rest of the tour goes up to step `o`, the first whose session is live and opens, or
      to the end: it hands out that session's stream, it has tried the live sessions up to
      there in tour order, and if it fails it reports the last one tried. */
  ghost predicate Toured(live: seq<bool>, opens: seq<bool>, start: nat, off: nat, last: Option<nat>,
                         o: nat, r: Opening)
    requires |live| == |opens| && off <= |live|
  {
    && off <= o <= |live| && (forall k: nat | off <= k < o :: !OpensAt(live, opens, start, k))
    && if o < |live|
       then OpensAt(live, opens, start, o) && r.stream == Some(Slot(start, o, |live|)) && r.failure == None
            && r.tried == LiveTour(live, start, off, o + 1)
       else r.stream == None && r.tried == LiveTour(live, start, off, |live|)
            && r.failure == Some(if r.tried != [] then OpenFailed(r.tried[|r.tried| - 1])
                                 else if last.Some? then OpenFailed(last.value) else NoLiveSessions)
  }

  lemma {:induction false} OpenFromMeans(live: seq<bool>, opens: seq<bool>, start: nat, off: nat, last: Option<nat>)
    returns (o: nat)
    requires |live| == |opens| && off <= |live|
    ensures Toured(live, opens, start, off, last, o, OpenFrom(live, opens, start, off, last))
    decreases |live| - off
  {
    if off == |live| {
      o := off;
    } else {
      var i := Slot(start, off, |live|);
      if live[i] && opens[i] {
        o := off;
        assert LiveTour(live, start, off + 1, off + 1) == [];
      } else {
        o := OpenFromMeans(live, opens, start, off + 1, if live[i] then Some(i) else last);
      }
    }
  }

  function Both(live: seq<bool>, opens: seq<bool>): (b: seq<bool>)
    requires |live| == |opens|
    ensures |b| == |live| && forall i | 0 <= i < |b| :: b[i] == (live[i] && opens[i])
  {
    seq(|live|, i requires 0 <= i < |live| => live[i] && opens[i])
  }

  /** So a stream is opened on the session that the cyclic search for live sessions that
      open would choose. */
  lemma StreamIsFirst(live: seq<bool>, opens: seq<bool>, start: nat)
    requires |live| == |opens|
    ensures OpenFrom(live, opens, start, 0, None).stream == FirstFrom(Both(live, opens), start, 0)
  {
    var o := OpenFromMeans(live, opens, start, 0, None);
    forall k: nat | k < o
      ensures !Both(live, opens)[Slot(start, k, |live|)]
    {
      assert !OpensAt(live, opens, start, k);
    }
    FirstFromSkips(Both(live, opens), start, o);
  }

  /** openStream fails exactly when no live session opens a stream; in particular it
      fails, without trying anything, on a pool that is not alive. */
  lemma OpenStreamOutcome(live: seq<bool>, opens: seq<bool>, start: nat)
    requires |live| == |opens|
    ensures var r := OpenFrom(live, opens, start, 0, None);
            && (r.stream.Some? <==> exists i :: 0 <= i < |live| && live[i] && opens[i])
            && (true !in live ==> r == Opening(None, Some(NoLiveSessions), []))
  {
    var r := OpenFrom(live, opens, start, 0, None);
    OpenFromTries(live, opens, start, 0, None);
    if i: nat :| i < |live| && live[i] && opens[i] {
      var o := SlotOnce(start, |live|, i);
    }
    if true !in live {
      OpenFromDead(live, opens, start, 0);
    }
  }

  lemma {:induction false} OpenFromDead(live: seq<bool>, opens: seq<bool>, start: nat, off: nat)
    requires |live| == |opens| && off <= |live| && true !in live
    ensures OpenFrom(live, opens, start, off, None) == Opening(None, Some(NoLiveSessions), [])
    decreases |live| - off
  {
    if off < |live| {
      OpenFromDead(live, opens, start, off + 1);
    }
  }

  // ---- fairness ----

  /** With every session good, the session picked by a ticket is the ticket's
      remainder. */
  lemma AllGoodPick(good: seq<bool>, t: Ticket)
    requires good != [] && false !in good
    ensures FirstFrom(good, t, 0) == Some(t % |good|)
  {
    assert good[Slot(t, 0, |good|)] in good;
  }

  /** How many of `k` picks from ticket `t` choose session `i`. */
  function Picks(good: seq<bool>, t: Ticket, k: nat, i: nat): nat {
    if k == 0 then 0
    else Picks(good, t, k - 1, i) + if FirstFrom(good, After(t, k - 1), 0) == Some(i) then 1 else 0
  }

  lemma {:induction false} PicksAreHits(good: seq<bool>, t: Ticket, k: nat, i: nat)
    requires good != [] && false !in good && i < |good|
    ensures Picks(good, t, k, i) == Hits(t, k, |good|, i, i + 1)
  {
    if k == 0 {
    } else {
      PicksAreHits(good, t, k - 1, i);
      AllGoodPick(good, After(t, k - 1));
    }
  }

  ghost predicate EachPicked(good: seq<bool>, t: Ticket) {
    forall i: nat | i < |good| :: Picks(good, t, |good|, i) == 1
  }

  /** A pool of `n` good sessions starts `n` consecutive picks at `n` different
      sessions, one pick each, exactly when the counter does not wrap on the way or
      `n` divides 2^32. */
  lemma SessionFairness(good: seq<bool>, t: Ticket)
    requires good != [] && false !in good && |good| <= SPAN
    ensures EachPicked(good, t) <==> Seamless(t, |good|, |good|)
  {
    forall i: nat | i < |good|
      ensures Picks(good, t, |good|, i) == HitsOf(t, |good|, i)
    {
      PicksAreHits(good, t, |good|, i);
    }
    CycleFairIff(t, |good|);
    if !CycleFair(t, |good|) {
      var r: nat :| r < |good| && HitsOf(t, |good|, r) != 1;
      assert Picks(good, t, |good|, r) != 1;
    }
  }

  /** How many of `k` streams opened from ticket `t` on are opened on session `i`. */
  function Streams(live: seq<bool>, opens: seq<bool>, t: Ticket, k: nat, i: nat): nat
    requires |live| == |opens|
  {
    if k == 0 then 0
    else Streams(live, opens, t, k - 1, i)
         + if OpenFrom(live, opens, After(t, k - 1), 0, None).stream == Some(i) then 1 else 0
  }

  lemma {:induction false} StreamsArePicks(live: seq<bool>, opens: seq<bool>, t: Ticket, k: nat, i: nat)
    requires |live| == |opens|
    ensures Streams(live, opens, t, k, i) == Picks(Both(live, opens), t, k, i)
  {
    if k == 0 {
    } else {
      StreamsArePicks(live, opens, t, k - 1, i);
      StreamIsFirst(live, opens, After(t, k - 1));
    }
  }

  ghost predicate EachOpened(live: seq<bool>, opens: seq<bool>, t: Ticket)
    requires |live| == |opens|
  {
    forall i: nat | i < |live| :: Streams(live, opens, t, |live|, i) == 1
  }

  lemma EachOpenedIff(live: seq<bool>, opens: seq<bool>, t: Ticket)
    requires |live| == |opens|
    ensures EachOpened(live, opens, t) <==> EachPicked(Both(live, opens), t)
  {
    var good, n := Both(live, opens), |live|;
    forall i: nat | i < n
      ensures Streams(live, opens, t, n, i) == Picks(good, t, n, i)
    {
      StreamsArePicks(live, opens, t, n, i);
    }
    if EachOpened(live, opens, t) {
      forall i: nat | i < n
        ensures Picks(good, t, n, i) == 1
      {
        assert Streams(live, opens, t, n, i) == 1;
      }
    }
  }

  /** A pool of `n` sessions that are all live and open spreads `n` consecutive streams over
      all of them exactly when the counter does not wrap on the way or `n` divides 2^32. */
  lemma StreamFairness(live: seq<bool>, opens: seq<bool>, t: Ticket)
    requires |live| == |opens| <= SPAN && live != [] && false !in Both(live, opens)
    ensures EachOpened(live, opens, t) <==> Seamless(t, |live|, |live|)
  {
    EachOpenedIff(live, opens, t);
    SessionFairness(Both(live, opens), t);
  }

  /** Three good sessions and a counter about to wrap: three picks miss one of them. */
  lemma UnfairWitness(good: seq<bool>, t: Ticket)
    requires good == [true, true, true] && t == SPAN - 1
    ensures !EachPicked(good, t)
  {
    SessionFairness(good, t);
  }

  // ---- the pool ----

  class Pool {
    var sessions: seq<Session>
    var idx: Ticket
    var dgIdx: Ticket

    constructor (sessions: seq<Session>)
      ensures this.sessions == sessions && idx == 0 && dgIdx == 0
    {
      this.sessions := sessions;
      idx, dgIdx := 0, 0;
    }

    method SupportsDatagrams() returns (r: bool)
      ensures r <==> true in UsableSlots(sessions)
      ensures r <==> exists i :: 0 <= i < |sessions| && sessions[i].Session? && sessions[i].quic
                                 && sessions[i].smux == Open
    {
      for i := 0 to |sessions|
        invariant true !in UsableSlots(sessions)[..i]
        invariant forall j | 0 <= j < i :: !sessions[j].Usable()
      {
        if sessions[i].Usable() {
          assert UsableSlots(sessions)[i];
          return true;
        }
      }
      assert UsableSlots(sessions)[..|sessions|] == UsableSlots(sessions);
      return false;
    }

    method Alive() returns (r: bool)
      ensures r <==> true in LiveSlots(sessions)
      ensures r <==> exists i :: 0 <= i < |sessions| && sessions[i].Session? && sessions[i].smux == Open
    {
      for i := 0 to |sessions|
        invariant true !in LiveSlots(sessions)[..i]
        invariant forall j | 0 <= j < i :: !sessions[j].Live()
      {
        if sessions[i].Live() {
          assert LiveSlots(sessions)[i];
          return true;
        }
      }
      assert LiveSlots(sessions)[..|sessions|] == LiveSlots(sessions);
      return false;
    }

    /** pickQUICSession: an empty pool draws no ticket. */
    method PickQUICSession() returns (r: Option<nat>)
      modifies this`dgIdx
      ensures dgIdx == if sessions == [] then old(dgIdx) else After(old(dgIdx), 1)
      ensures r == FirstFrom(UsableSlots(sessions), old(dgIdx), 0)
      ensures r == None <==> true !in UsableSlots(sessions)
      ensures r.Some? ==> r.value < |sessions| && sessions[r.value].Session? && sessions[r.value].quic
                          && sessions[r.value].smux == Open
    {
      var n := |sessions|;
      FirstNoneIff(UsableSlots(sessions), dgIdx);
      if n == 0 {
        return None;
      }
      var start := dgIdx;
      dgIdx := After(dgIdx, 1);
      for off := 0 to n
        invariant FirstFrom(UsableSlots(sessions), start, 0) == FirstFrom(UsableSlots(sessions), start, off)
      {
        var i := (start + off) % n;
        if sessions[i] == Missing || !sessions[i].quic {
          continue;
        }
        if sessions[i].smux == Absent || sessions[i].smux == Closed {
          continue;
        }
        return Some(i);
      }
      return None;
    }

    /** openStream: `opens[i]` is whether OpenStream on session `i` succeeds. */
    method OpenStream(opens: seq<bool>) returns (r: Opening)
      requires |opens| == |sessions|
      modifies this`idx
      ensures idx == if sessions == [] then old(idx) else After(old(idx), 1)
      ensures r == if sessions == [] then Opening(None, Some(NoSessions), [])
                   else OpenFrom(LiveSlots(sessions), opens, old(idx), 0, None)
      ensures r.stream.Some? ==> r.stream.value < |sessions| && sessions[r.stream.value].Session?
                                 && sessions[r.stream.value].smux == Open && opens[r.stream.value]
    {
      var n := |sessions|;
      if n == 0 {
        return Opening(None, Some(NoSessions), []);
      }
      var start := idx;
      idx := After(idx, 1);
      var lastErr: Option<nat> := None;
      var tried: seq<nat> := [];
      ghost var want := OpenFrom(LiveSlots(sessions), opens, start, 0, None);
      for off := 0 to n
        invariant want == var w := OpenFrom(LiveSlots(sessions), opens, start, off, lastErr);
                          w.(tried := tried + w.tried)
      {
        var i := (start + off) % n;
        if sessions[i] == Missing || sessions[i].smux == Absent || sessions[i].smux == Closed {
          continue;
        }
        ghost var w := OpenFrom(LiveSlots(sessions), opens, start, off, lastErr);
        ghost var before := tried;
        tried := tried + [i];
        if opens[i] {
          return Opening(Some(i), None, tried);
        }
        lastErr := Some(i);
        ghost var w' := OpenFrom(LiveSlots(sessions), opens, start, off + 1, lastErr);
        assert before + ([i] + w'.tried) == tried + w'.tried;
      }
      assert tried + [] == tried;
      return Opening(None, Some(if lastErr.Some? then OpenFailed(lastErr.value) else NoLiveSessions), tried);
    }
  }
}
