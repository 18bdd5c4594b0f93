/** What holds in every run of the datagram flow protocol. */
module FlowRuns {
  import opened Bytes
  import opened Options
  import opened FlowMux
  import Hubs = DatagramHub
  import Pools = DatagramPool
  import Dgram
  import Text

  /** `acts` can be taken one after the other from `s` and end in `t`. */
  ghost predicate Runs(s: Sys, acts: seq<Act>, t: Sys)
    decreases |acts|
  {
    if acts == [] then s == t
    else Can(s, acts[0]) && Runs(Do(s, acts[0]), acts[1..], t)
  }

  lemma StepIsBounded(s: Sys, a: Act)
    requires Can(s, a) && Bounded(Do(s, a))
    ensures Bounded(s)
  {
    var s' := Do(s, a);
    forall h | h in s.hubs
      ensures |s.hubs[h].openers| <= WORD
    {
      assert h in s'.hubs && |s.hubs[h].openers| <= |s'.hubs[h].openers|;
    }
  }

  lemma {:induction false} RunIsBounded(s: Sys, acts: seq<Act>, t: Sys)
    requires Runs(s, acts, t) && Bounded(t)
    ensures Bounded(s)
    decreases |acts|
  {
    if acts == [] {
    } else {
      RunIsBounded(Do(s, acts[0]), acts[1..], t);
      StepIsBounded(s, acts[0]);
    }
  }

  lemma {:induction false} RunKeepsInv(s: Sys, acts: seq<Act>, t: Sys)
    requires Inv(s) && Runs(s, acts, t) && Bounded(t)
    ensures Inv(t)
    decreases |acts|
  {
    if acts == [] {
    } else {
      RunIsBounded(s, acts, t);
      StepKeepsInv(s, acts[0]);
      RunKeepsInv(Do(s, acts[0]), acts[1..], t);
    }
  }

  // ---- safety ----

  /** No cross-delivery. In every run, over any number of sessions, handshakes and
      closes, and over a network that loses, reorders and repeats: what a hub writes
      goes to the socket dialled by the handshake of the sender's key, and what a
      deliver closure gets was read from the socket of the handshake it was passed to. */
  lemma NoCrossDelivery(acts: seq<Act>, s: Sys)
    requires Runs(INIT, acts, s) && Bounded(s)
    ensures forall w :: w in s.written ==>
              && w.cause.Up? && w.payload == w.cause.payload
              && w.sock.strm in s.strms && s.strms[w.sock.strm].key == w.cause.key
              && s.strms[w.sock.strm].target == w.sock.target
    ensures forall d :: d in s.delivered ==>
              && d.cause.Down? && d.payload == d.cause.payload
              && d.cause.strm in s.strms && s.strms[d.cause.strm].deliver == d.deliver
  {
    InitInv();
    RunKeepsInv(INIT, acts, s);
  }

  /** The handshake lock. When a receive loop of the pool gets to look up a datagram,
      the handshake of its flow is over: a closure is found exactly when that
      handshake succeeded, and it is the closure the handshake registered. */
  lemma HandshakeLock(acts: seq<Act>, s: Sys, dgm: Dgm)
    requires Runs(INIT, acts, s) && Bounded(s) && Can(s, ClientRecv(dgm))
    ensures dgm.strm in s.strms && s.strms[dgm.strm].client != Waiting
    ensures Pools.Dispatch(s.pool, dgm.sess, dgm.bytes).Some? <==> s.strms[dgm.strm].client == Registered
    ensures s.strms[dgm.strm].client == Registered ==>
              Pools.Dispatch(s.pool, dgm.sess, dgm.bytes).value
              == (Pools.Reg(s.strms[dgm.strm].deliver, dgm.strm), dgm.payload)
  {
    InitInv();
    RunKeepsInv(INIT, acts, s);
    PoolFindsOwnClosure(s, dgm);
  }

  /** `a` is the call that opened control stream `strm`. */
  predicate Opens(a: Act, strm: Strm, c: Ctrl) {
    a.OpenStart? && a.strm == strm && a.key == c.key && a.target == c.target && a.deliver == c.deliver
  }

  lemma {:induction false} StreamsComeFromOpens(s: Sys, acts: seq<Act>, t: Sys, strm: Strm)
    requires Runs(s, acts, t) && strm in t.strms
    ensures if strm in s.strms
            then var (b, c) := (s.strms[strm], t.strms[strm]);
                 c.key == b.key && c.target == b.target && c.deliver == b.deliver
            else exists a :: a in acts && Opens(a, strm, t.strms[strm])
    decreases |acts|
  {
    if acts == [] {
    } else {
      var m := Do(s, acts[0]);
      StreamsComeFromOpens(m, acts[1..], t, strm);
      if strm in s.strms {
        assert m.strms[strm].key == s.strms[strm].key && m.strms[strm].deliver == s.strms[strm].deliver;
      } else if strm in m.strms {
        assert Opens(acts[0], strm, t.strms[strm]);
      } else {
        var a :| a in acts[1..] && Opens(a, strm, t.strms[strm]);
        assert a in acts;
      }
    }
  }

  /** Whoever passes a deliver closure for a key that is known already is not heard:
      only closures passed to the call that opened a flow ever get anything. */
  lemma OnlyOpenersAreHeard(acts: seq<Act>, s: Sys, d: Delivered)
    requires Runs(INIT, acts, s) && Bounded(s) && d in s.delivered
    ensures exists a :: a in acts && a.OpenStart? && a.deliver == d.deliver && a.strm == d.cause.strm
  {
    NoCrossDelivery(acts, s);
    StreamsComeFromOpens(INIT, acts, s, d.cause.strm);
    var a :| a in acts && Opens(a, d.cause.strm, s.strms[d.cause.strm]);
  }

  // ---- the keys of UDP forwards ----

  /** serveUDP: the client's address and the rule's target. */
  function ForwardKey(client: string, target: string): string {
    client + "|" + target
  }

  lemma ForwardKeyInjective(c: string, t: string, c': string, t': string)
    requires '|' !in c && '|' !in c'
    ensures ForwardKey(c, t) == ForwardKey(c', t') <==> c == c' && t == t'
  {
    Text.FindFirst(c, t, '|');
    Text.FindFirst(c', t', '|');
    assert c + ['|'] + t == ForwardKey(c, t) && c' + ['|'] + t' == ForwardKey(c', t');
    assert ForwardKey(c, t)[..|c|] == c && ForwardKey(c, t)[|c| + 1..] == t;
    assert ForwardKey(c', t')[..|c'|] == c' && ForwardKey(c', t')[|c'| + 1..] == t';
  }

  /** The call uses the key of a client, whose address holds no bar, and its target. */
  ghost predicate Keyed(a: Act) {
    a.OpenStart? ==> exists client :: '|' !in client && a.key == ForwardKey(client, a.target)
  }

  /** So with the keys the forward listeners use, what a client sends for a target is
      never written to a socket dialled for another one. */
  lemma ReachesOwnTarget(acts: seq<Act>, s: Sys, w: Written, client: string, target: string)
    requires Runs(INIT, acts, s) && Bounded(s) && w in s.written
    requires forall a :: a in acts ==> Keyed(a)
    requires '|' !in client && w.cause.Up? && w.cause.key == ForwardKey(client, target)
    ensures w.sock.target == target
  {
    NoCrossDelivery(acts, s);
    StreamsComeFromOpens(INIT, acts, s, w.sock.strm);
    var a :| a in acts && Opens(a, w.sock.strm, s.strms[w.sock.strm]);
    assert Keyed(a);
    var owner :| '|' !in owner && a.key == ForwardKey(owner, a.target);
    ForwardKeyInjective(client, target, owner, a.target);
  }

  // ---- closed flows ----

  /** The flow of control stream `strm` was open and has been closed. */
  ghost predicate Reaped(s: Sys, strm: Strm) {
    && strm in s.strms && s.strms[strm].IsListed() && s.strms[strm].sess in s.hubs
    && s.strms[strm].id !in s.hubs[s.strms[strm].sess].flows
  }

  lemma StepKeepsReaped(s: Sys, a: Act, strm: Strm)
    requires HandlersOk(s) && Bounded(s) && Can(s, a) && Reaped(s, strm)
    ensures Reaped(Do(s, a), strm)
  {
    var c := s.strms[strm];
    if a.Enlist? && s.strms[a.strm].sess == c.sess && s.strms[a.strm].id == c.id {
      SameFlowSameStrm(s, a.strm, strm);
    }
  }

  lemma StepWritesNothing(s: Sys, a: Act, strm: Strm)
    requires FlowsOk(s) && Can(s, a) && Reaped(s, strm)
    ensures forall w :: w in Do(s, a).written && w.sock.strm == strm ==> w in s.written
  {
    if a.HubRecv? {
      HubNeverFindsReaped(s, a.dgm, strm);
    }
  }

  lemma HubNeverFindsReaped(s: Sys, dgm: Dgm, strm: Strm)
    requires FlowsOk(s) && Can(s, HubRecv(dgm)) && Reaped(s, strm)
    ensures var r := Hubs.Dispatch(s.hubs[dgm.sess], dgm.bytes);
            r.Some? ==> r.value.0.strm != strm
  {
  }

  /** A closed flow stays closed and its late datagrams are discarded: in no later
      state is there a write to its socket that was not there at its closing. */
  lemma {:induction false} ReapedForever(s: Sys, acts: seq<Act>, t: Sys, strm: Strm)
    requires Inv(s) && Runs(s, acts, t) && Bounded(t) && Reaped(s, strm)
    ensures Reaped(t, strm)
    ensures forall w :: w in t.written && w.sock.strm == strm ==> w in s.written
    decreases |acts|
  {
    if acts == [] {
    } else {
      RunIsBounded(s, acts, t);
      RunIsBounded(Do(s, acts[0]), acts[1..], t);
      StepKeepsInv(s, acts[0]);
      StepKeepsReaped(s, acts[0], strm);
      StepWritesNothing(s, acts[0], strm);
      ReapedForever(Do(s, acts[0]), acts[1..], t, strm);
    }
  }

  /** The flow of the control stream was listed. */
  predicate ListedIn(s: Sys, strm: Strm) {
    strm in s.strms && s.strms[strm].IsListed()
  }

  /** A listed flow is closed by its own CloseFlow and by nothing else. */
  lemma StepReapsIff(s: Sys, a: Act, strm: Strm)
    requires HandlersOk(s) && Bounded(s) && Can(s, a) && ListedIn(s, strm)
    ensures Reaped(Do(s, a), strm) <==> Reaped(s, strm) || a == CloseFlow(strm)
  {
    var c := s.strms[strm];
    if (a.Enlist? || a.CloseFlow?) && s.strms[a.strm].sess == c.sess && s.strms[a.strm].id == c.id {
      SameFlowSameStrm(s, a.strm, strm);
    }
  }

  /** A flow that is listed by a step is open after it. */
  lemma NewlyListed(s: Sys, a: Act, strm: Strm)
    requires Can(s, a) && !ListedIn(s, strm) && ListedIn(Do(s, a), strm)
    ensures !Reaped(Do(s, a), strm) && a != CloseFlow(strm)
  {
  }

  lemma StepReaps(s: Sys, a: Act, strm: Strm)
    requires HandlersOk(s) && Bounded(s) && Can(s, a)
    ensures Reaped(Do(s, a), strm) <==> Reaped(s, strm) || a == CloseFlow(strm)
  {
    if ListedIn(s, strm) {
      StepReapsIff(s, a, strm);
    } else if ListedIn(Do(s, a), strm) {
      NewlyListed(s, a, strm);
    }
  }

  /** A flow is closed exactly if its CloseFlow is in the history. */
  lemma {:induction false} ReapedIff(s: Sys, acts: seq<Act>, t: Sys, strm: Strm)
    requires Inv(s) && Runs(s, acts, t) && Bounded(t) && ListedIn(t, strm)
    ensures Reaped(t, strm) <==> Reaped(s, strm) || CloseFlow(strm) in acts
    decreases |acts|
  {
    if acts == [] {
    } else {
      var m := Do(s, acts[0]);
      RunIsBounded(s, acts, t);
      RunIsBounded(m, acts[1..], t);
      StepKeepsInv(s, acts[0]);
      ReapedIff(m, acts[1..], t, strm);
      StepReaps(s, acts[0], strm);
      assert CloseFlow(strm) in acts <==> acts[0] == CloseFlow(strm) || CloseFlow(strm) in acts[1..];
    }
  }

  /** Delivery, exactly: in every run, a datagram that reaches the hub is written to a
      socket if and only if its flow has not been closed in that run. */
  lemma HubFindsIff(acts: seq<Act>, s: Sys, dgm: Dgm)
    requires Runs(INIT, acts, s) && Bounded(s) && Can(s, HubRecv(dgm))
    ensures Hubs.Dispatch(s.hubs[dgm.sess], dgm.bytes).Some? <==> CloseFlow(dgm.strm) !in acts
    ensures Reaped(s, dgm.strm) <==> CloseFlow(dgm.strm) in acts
  {
    InitInv();
    RunKeepsInv(INIT, acts, s);
    Dgram.DecodeEncode(s.strms[dgm.strm].id, dgm.payload);
    ReapedIff(INIT, acts, s, dgm.strm);
  }

  /** What the client sends under a key it holds is written, when it arrives, to the
      socket dialled for that key if and only if the flow of that key's handshake has not
      been closed. */
  lemma KeyDeliversIff(acts: seq<Act>, s: Sys, key: string, dgm: Dgm)
    requires Runs(INIT, acts, s) && Bounded(s) && Can(s, HubRecv(dgm)) && dgm.key == key
    ensures key in s.pool.byKey
    ensures var strm := s.pool.byKey[key].strm;
            (exists sock: Hubs.Socket ::
               && sock.strm == strm && Hubs.Dispatch(s.hubs[dgm.sess], dgm.bytes) == Some((sock, dgm.payload)))
            <==> CloseFlow(strm) !in acts
  {
    InitInv();
    RunKeepsInv(INIT, acts, s);
    HubFindsIff(acts, s, dgm);
    HubFindsOwnSocket(s, dgm);
    var found := Hubs.Dispatch(s.hubs[dgm.sess], dgm.bytes);
    if found.Some? {
      assert WrittenRight(s, Written(found.value.0, found.value.1, dgm));
    }
  }

  /** What the arrival of a datagram at its hub adds to what was written. */
  lemma HubWrites(s: Sys, dgm: Dgm)
    requires Inv(s) && Bounded(s) && Can(s, HubRecv(dgm))
    ensures var sock := Hubs.Socket(s.strms[dgm.strm].target, dgm.strm);
            Do(s, HubRecv(dgm)).written
            == s.written + if Reaped(s, dgm.strm) then {} else {Written(sock, dgm.payload, dgm)}
  {
    Dgram.DecodeEncode(s.strms[dgm.strm].id, dgm.payload);
    HubFindsOwnSocket(s, dgm);
    var found := Hubs.Dispatch(s.hubs[dgm.sess], dgm.bytes);
    if found.Some? {
      assert WrittenRight(s, Written(found.value.0, found.value.1, dgm));
    }
  }

  /** From end to end, toward the target: in every run, what is sent under a known key can
      arrive at once, and is then written, whole and to that key's socket alone, unless the
      flow has been closed, in which case nothing is. */
  lemma SentArrives(acts: seq<Act>, s: Sys, key: string, payload: Payload) returns (dgm: Dgm)
    requires Runs(INIT, acts, s) && Bounded(s) && Can(s, Send(key, payload))
    ensures var t, strm := Do(s, Send(key, payload)), s.pool.byKey[key].strm;
            && strm in s.strms && Can(t, HubRecv(dgm)) && dgm.key == key && dgm.payload == payload
            && Do(t, HubRecv(dgm)).written
               == t.written + if CloseFlow(strm) in acts then {}
                              else {Written(Hubs.Socket(s.strms[strm].target, strm), payload, dgm)}
  {
    InitInv();
    RunKeepsInv(INIT, acts, s);
    var f := s.pool.byKey[key];
    dgm := Up(f.flow.sess, Dgram.Encode(f.flow.id, payload), f.strm, key, payload);
    SendRight(s, key, payload);
    ReapedIff(INIT, acts, s, f.strm);
    HubWrites(Do(s, Send(key, payload)), dgm);
  }

  /** And back: what the relay of a flow reads from its socket can arrive at once where the
      handshake has succeeded, unless another handshake holds the lock, and is then passed,
      whole, to the closure of that handshake alone; where it failed nobody gets anything. */
  lemma ReplyArrives(acts: seq<Act>, s: Sys, strm: Strm, payload: Payload) returns (dgm: Dgm)
    requires Runs(INIT, acts, s) && Bounded(s) && Can(s, TargetSays(strm, payload))
    ensures var t, c := Do(s, TargetSays(strm, payload)), s.strms[strm];
            && dgm.Down? && dgm in t.net && dgm.strm == strm && dgm.payload == payload
            && (c.client == Registered && s.lock.None? ==> Can(t, ClientRecv(dgm)))
            && (Can(t, ClientRecv(dgm)) ==>
                  Do(t, ClientRecv(dgm)).delivered
                  == t.delivered + if c.client == Registered then {Delivered(c.deliver, payload, dgm)} else {})
  {
    InitInv();
    RunKeepsInv(INIT, acts, s);
    var c := s.strms[strm];
    var t := Do(s, TargetSays(strm, payload));
    dgm := Down(c.sess, Dgram.Encode(c.id, payload), strm, payload);
    TargetSaysRight(s, strm, payload);
    if Can(t, ClientRecv(dgm)) {
      PoolFindsOwnClosure(t, dgm);
    }
  }

  lemma {:induction false} ClosuresStay(s: Sys, acts: seq<Act>, t: Sys, key: string)
    requires Inv(s) && Runs(s, acts, t) && Bounded(t) && key in s.pool.byKey
    ensures key in t.pool.byKey && t.pool.byKey[key] == s.pool.byKey[key]
    decreases |acts|
  {
    if acts == [] {
    } else {
      RunIsBounded(s, acts, t);
      StepKeepsInv(s, acts[0]);
      ClosuresStay(Do(s, acts[0]), acts[1..], t, key);
    }
  }

  /** The price of never forgetting a key: once the server has closed the flow behind
      a key, for instance because it was idle, the client is answered with the dead
      closure in every later call, can never open the key again, and nothing it sends
      under the key reaches a socket any more. */
  lemma DeadKeyForever(past: seq<Act>, s: Sys, future: seq<Act>, t: Sys, key: string)
    requires Runs(INIT, past, s) && Runs(s, future, t) && Bounded(t)
    requires key in s.pool.byKey && Reaped(s, s.pool.byKey[key].strm)
    ensures key in t.pool.byKey && t.pool.byKey[key] == s.pool.byKey[key]
    ensures forall a: Act :: a.OpenStart? && a.key == key ==> !Can(t, a)
    ensures forall w :: w in t.written && w.cause.Up? && w.cause.key == key ==> w in s.written
  {
    InitInv();
    RunIsBounded(s, future, t);
    RunKeepsInv(INIT, past, s);
    RunKeepsInv(s, future, t);
    ClosuresStay(s, future, t, key);
    ReapedForever(s, future, t, s.pool.byKey[key].strm);
    forall w | w in t.written && w.cause.Up? && w.cause.key == key
      ensures w in s.written
    {
      assert WrittenRight(t, w);
    }
  }

  // ---- one flow for each key ----

  /** Every handshake that succeeded still owns its key. */
  ghost predicate OwnersOk(s: Sys) {
    forall st :: st in s.strms && s.strms[st].client == Registered ==> Owns(s, st)
  }

  predicate Owns(s: Sys, st: Strm)
    requires st in s.strms
  {
    s.strms[st].key in s.pool.byKey && s.pool.byKey[s.strms[st].key].strm == st
  }

  lemma StepKeepsOwners(s: Sys, a: Act)
    requires OwnersOk(s) && LockOk(s) && Can(s, a)
    ensures OwnersOk(Do(s, a))
  {
    forall st | st in Do(s, a).strms && Do(s, a).strms[st].client == Registered
      ensures Owns(Do(s, a), st)
    {
      if a.OpenDone? && st != s.lock.value {
        assert Owns(s, st);
      } else if !a.OpenDone? {
        assert st in s.strms && s.strms[st].client == Registered && Owns(s, st);
      }
    }
  }

  lemma {:induction false} RunKeepsOwners(s: Sys, acts: seq<Act>, t: Sys)
    requires Inv(s) && OwnersOk(s) && Runs(s, acts, t) && Bounded(t)
    ensures OwnersOk(t)
    decreases |acts|
  {
    if acts == [] {
    } else {
      RunIsBounded(s, acts, t);
      RunIsBounded(Do(s, acts[0]), acts[1..], t);
      StepKeepsInv(s, acts[0]);
      StepKeepsOwners(s, acts[0]);
      RunKeepsOwners(Do(s, acts[0]), acts[1..], t);
    }
  }

  predicate Succeeded(s: Sys, st: Strm, key: string) {
    st in s.strms && s.strms[st].client == Registered && s.strms[st].key == key
  }

  /** In every run a key is known exactly when some handshake for it has succeeded, and no
      second one ever does: whoever comes with that key is handed the first one's closure. */
  lemma OneFlowPerKey(acts: seq<Act>, s: Sys, key: string)
    requires Runs(INIT, acts, s) && Bounded(s)
    ensures key in s.pool.byKey <==> exists st :: Succeeded(s, st, key)
    ensures forall st, st' :: Succeeded(s, st, key) && Succeeded(s, st', key) ==> st == st'
  {
    InitInv();
    RunKeepsInv(INIT, acts, s);
    RunKeepsOwners(INIT, acts, s);
    if key in s.pool.byKey {
      var st := s.pool.byKey[key].strm;
      assert Succeeded(s, st, key);
    }
    forall st | st in s.strms && s.strms[st].client == Registered
      ensures Owns(s, st)
    {
    }
  }
}
