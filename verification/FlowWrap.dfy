/** How far the safety of the flow protocol reaches: exactly as far as flow
    identifiers are not reused. */
module FlowWrap {
  import opened Bytes
  import opened Options
  import opened FlowMux
  import opened FlowRuns
  import Hubs = DatagramHub
  import Pools = DatagramPool
  import Dgram

  lemma {:induction false} RunSnoc(s: Sys, acts: seq<Act>, t: Sys, a: Act)
    requires Runs(s, acts, t) && Can(t, a)
    ensures Runs(s, acts + [a], Do(t, a))
    decreases |acts|
  {
    if acts == [] {
      assert acts + [a] == [a] && [a][1..] == [];
    } else {
      assert (acts + [a])[1..] == acts[1..] + [a];
      RunSnoc(Do(s, acts[0]), acts[1..], t, a);
    }
  }

  /** Key "a" owns flow 1 of session 0, which the server has closed; `n` flows have
      been opened there in all, the others by handshakes that failed. */
  ghost predicate Aged(s: Sys, n: nat) {
    && s.lock.None? && s.hubs.Keys == {0} && s.hubs[0].flows == map[] && |s.hubs[0].openers| == n
    && "a" in s.pool.byKey && s.pool.byKey["a"] == Pools.Closure(Pools.Flow(0, 1), 0)
    && "b" !in s.pool.byKey
    && (forall st :: st in s.strms ==> st < n)
  }

  /** A run taken one step further. */
  lemma Then(acts: seq<Act>, s: Sys, a: Act) returns (more: seq<Act>, t: Sys)
    requires Runs(INIT, acts, s) && Can(s, a)
    ensures Runs(INIT, more, t) && t == Do(s, a)
  {
    more, t := acts + [a], Do(s, a);
    RunSnoc(INIT, acts, s, a);
  }

  /** A handshake for a new key gets as far as a flow identifier. */
  lemma OpenAlloc(acts: seq<Act>, s: Sys, key: string, target: string, deliver: nat, strm: Strm)
    returns (more: seq<Act>, t: Sys)
    requires Runs(INIT, acts, s) && Can(s, OpenStart(key, target, deliver, 0, strm))
    ensures Runs(INIT, more, t)
    ensures var n := |s.hubs[0].openers| + 1;
            && t.lock == Some(strm) && t.pool == s.pool
            && t.strms == s.strms[strm := Ctrl(0, key, target, deliver, Waiting, Allocated, n, Hubs.Id(n))]
            && t.hubs == s.hubs[0 := Hubs.Hub(s.hubs[0].flows, s.hubs[0].openers + [strm])]
  {
    more, t := Then(acts, s, OpenStart(key, target, deliver, 0, strm));
    more, t := Then(more, t, Alloc(strm));
  }

  /** ... and then as far as a listed socket. */
  lemma OpenListed(acts: seq<Act>, s: Sys, key: string, target: string, deliver: nat, strm: Strm)
    returns (more: seq<Act>, t: Sys)
    requires Runs(INIT, acts, s) && Can(s, OpenStart(key, target, deliver, 0, strm))
    ensures Runs(INIT, more, t)
    ensures var n := |s.hubs[0].openers| + 1;
            && t.lock == Some(strm) && t.pool == s.pool
            && t.strms == s.strms[strm := Ctrl(0, key, target, deliver, Waiting, Listed, n, Hubs.Id(n))]
            && t.hubs == s.hubs[0 := Hubs.Hub(s.hubs[0].flows[Hubs.Id(n) := Hubs.Socket(target, strm)],
                                              s.hubs[0].openers + [strm])]
  {
    more, t := OpenAlloc(acts, s, key, target, deliver, strm);
    more, t := Then(more, t, Enlist(strm));
  }

  /** A handshake that succeeds. */
  lemma OpenRegistered(acts: seq<Act>, s: Sys, key: string, target: string, deliver: nat, strm: Strm)
    returns (more: seq<Act>, t: Sys)
    requires Runs(INIT, acts, s) && Can(s, OpenStart(key, target, deliver, 0, strm))
    ensures Runs(INIT, more, t)
    ensures var n := |s.hubs[0].openers| + 1;
            && t.lock.None? && t.strms.Keys == s.strms.Keys + {strm}
            && t.pool == Pools.Register(s.pool, key, Pools.Flow(0, Hubs.Id(n)), deliver, strm)
            && t.strms[strm] == Ctrl(0, key, target, deliver, Registered, Replied, n, Hubs.Id(n))
            && t.hubs == s.hubs[0 := Hubs.Hub(s.hubs[0].flows[Hubs.Id(n) := Hubs.Socket(target, strm)],
                                              s.hubs[0].openers + [strm])]
  {
    more, t := OpenListed(acts, s, key, target, deliver, strm);
    more, t := Then(more, t, Reply(strm));
    more, t := Then(more, t, OpenDone);
  }

  lemma FirstFlowOpen() returns (acts: seq<Act>, s: Sys)
    ensures Runs(INIT, acts, s)
    ensures s.lock.None? && s.strms.Keys == {0} && s.strms[0].IsListed() && s.strms[0].sess == 0 && s.strms[0].id == 1
    ensures s.hubs.Keys == {0} && s.hubs[0].flows.Keys == {1} && |s.hubs[0].openers| == 1
    ensures s.pool == Pools.Register(Pools.EMPTY, "a", Pools.Flow(0, 1), 1, 0)
  {
    acts, s := Then([], INIT, Connect(0));
    acts, s := OpenRegistered(acts, s, "a", "x", 1, 0);
  }

  lemma FirstFlow() returns (acts: seq<Act>, s: Sys)
    ensures Runs(INIT, acts, s) && Aged(s, 1)
  {
    acts, s := FirstFlowOpen();
    acts, s := Then(acts, s, CloseFlow(0));
  }

  /** The state DeadKeyForever speaks of is reached: the first flow of a session is
      opened and then closed by the server, and the client still holds its key. */
  lemma DeadKeyWitness() returns (acts: seq<Act>, s: Sys)
    ensures Runs(INIT, acts, s) && Bounded(s)
    ensures "a" in s.pool.byKey && Reaped(s, s.pool.byKey["a"].strm)
  {
    acts, s := FirstFlowOpen();
    acts, s := Then(acts, s, CloseFlow(0));
  }

  /** One more flow is opened on the session by a handshake whose reply is lost. */
  lemma Age(acts: seq<Act>, s: Sys, n: nat) returns (more: seq<Act>, t: Sys)
    requires Runs(INIT, acts, s) && Aged(s, n)
    ensures Runs(INIT, more, t) && Aged(t, n + 1)
  {
    more, t := OpenAlloc(acts, s, "b", "y", 2, n);
    more, t := Then(more, t, OpenFail);
  }

  lemma {:induction false} AgeTo(n: nat) returns (acts: seq<Act>, s: Sys)
    requires n >= 1
    ensures Runs(INIT, acts, s) && Aged(s, n)
  {
    if n == 1 {
      acts, s := FirstFlow();
    } else {
      acts, s := AgeTo(n - 1);
      acts, s := Age(acts, s, n - 1);
    }
  }

  /** Flow number 2^64 + 1 of a session gets the identifier of flow number one. */
  lemma Reuse() returns (acts: seq<Act>, s: Sys)
    ensures Runs(INIT, acts, s) && s.hubs.Keys == {0} && |s.hubs[0].openers| == WORD + 1
    ensures s.hubs[0].flows == map[1 := Hubs.Socket("y", WORD)]
    ensures WORD in s.strms && s.strms[WORD].key == "b"
    ensures "a" in s.pool.byKey && s.pool.byKey["a"] == Pools.Closure(Pools.Flow(0, 1), 0)
  {
    acts, s := AgeTo(WORD);
    acts, s := OpenListed(acts, s, "b", "y", 2, WORD);
  }

  /** Key "a" still sends under that identifier, so what it sends is written to the
      socket that key "b" had dialled. */
  lemma CrossDelivery() returns (acts: seq<Act>, s: Sys, w: Written)
    ensures Runs(INIT, acts, s) && s.hubs.Keys == {0} && |s.hubs[0].openers| == WORD + 1
    ensures w in s.written && w.cause.Up? && w.cause.key == "a"
    ensures w.sock.strm in s.strms && s.strms[w.sock.strm].key == "b"
  {
    acts, s := Reuse();
    acts, s := Then(acts, s, Send("a", []));
    var d := Up(0, Dgram.Encode(1, []), 0, "a", []);
    Dgram.DecodeEncode(1, []);
    acts, s := Then(acts, s, HubRecv(d));
    w := Written(Hubs.Socket("y", WORD), [], d);
  }

  ghost predicate OpensAtMost(s: Sys, n: nat) {
    forall sess :: sess in s.hubs ==> |s.hubs[sess].openers| <= n
  }

  /** Every write so far went to a socket of the sender's own key. */
  ghost predicate WritesOwn(s: Sys) {
    forall w :: w in s.written ==>
      w.cause.Up? && w.sock.strm in s.strms && s.strms[w.sock.strm].key == w.cause.key
  }

  /** Every call of a deliver closure was made for a datagram of the handshake that the
      closure was passed to. */
  ghost predicate DeliversOwn(s: Sys) {
    forall d :: d in s.delivered ==>
      d.cause.Down? && d.cause.strm in s.strms && s.strms[d.cause.strm].deliver == d.deliver
  }

  ghost predicate SafeUpTo(n: nat) {
    forall acts, s :: Runs(INIT, acts, s) && OpensAtMost(s, n) ==> WritesOwn(s) && DeliversOwn(s)
  }

  /** The exact bound: runs that open at most `n` flows per session never deliver
      across keys, in either direction, if and only if `n` is at most 2^64. */
  lemma SafetyBound(n: nat)
    ensures SafeUpTo(n) <==> n <= WORD
  {
    if n <= WORD {
      forall acts, s | Runs(INIT, acts, s) && OpensAtMost(s, n)
        ensures WritesOwn(s) && DeliversOwn(s)
      {
        NoCrossDelivery(acts, s);
      }
    } else {
      var acts, s, w := CrossDelivery();
      assert OpensAtMost(s, n) && !WritesOwn(s);
    }
  }
}
