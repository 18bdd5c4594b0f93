/** The datagram flow protocol between a client pool and the hubs of its sessions.

    A control stream carries the request and the flow identifier assigned to it;
    payloads then ride datagrams that the network may lose, reorder and repeat.
    Every lock region and every message is one step, and steps of all parties
    interleave freely. */
module FlowMux {
  import opened Bytes
  import opened Options
  import Dgram
  import Hubs = DatagramHub
  import Pools = DatagramPool

  type Sess = nat
  type Strm = nat
  type Payload = seq<Byte>

  // ---- state ----

  /** The client's end of a control stream: its call still waits for the reply, has
      registered the flow, or has given up. */
  datatype ClientEnd = Waiting | Registered | GaveUp

  /** How far the server's handler of a control stream has come. */
  datatype Phase = Pending | Allocated | Listed | Replied | Relaying

  /** A control stream: the call of OpenUDPDatagram that opened it and the handler
      that serves it, whose flow `id` is the `ord`-th of the session. */
  datatype Ctrl = Ctrl(sess: Sess, key: string, target: string, deliver: nat,
                       client: ClientEnd, phase: Phase, ord: nat, id: Word)
  {
    predicate HasFlow() {
      phase != Pending
    }

    predicate IsListed() {
      phase.Listed? || phase.Replied? || phase.Relaying?
    }

    predicate HasReply() {
      phase.Replied? || phase.Relaying?
    }
  }

  /** A datagram on its session. `strm`, `key` and `payload` record which flow's
      sender made it and are read by no step. */
  datatype Dgm =
    | Up(sess: Sess, bytes: seq<Byte>, strm: Strm, key: string, payload: Payload)
    | Down(sess: Sess, bytes: seq<Byte>, strm: Strm, payload: Payload)

  /** What a hub wrote to a socket, and what the pool handed to a deliver closure. */
  datatype Written = Written(sock: Hubs.Socket, payload: Payload, cause: Dgm)
  datatype Delivered = Delivered(deliver: nat, payload: Payload, cause: Dgm)

  /** `lock` is the control stream whose handshake holds dgMu. `net` holds every
      datagram ever sent: receiving does not consume, so loss, delay, reordering and
      repetition are all possible. */
  datatype Sys = Sys(
    pool: Pools.State,
    lock: Option<Strm>,
    hubs: map<Sess, Hubs.Hub>,
    strms: map<Strm, Ctrl>,
    net: set<Dgm>,
    written: set<Written>,
    delivered: set<Delivered>)

  const INIT := Sys(Pools.EMPTY, None, map[], map[], {}, {}, {})

  // ---- steps ----

  datatype Act =
    | Connect(sess: Sess)
    | OpenKnown(key: string, target: string, deliver: nat)
    | OpenStart(key: string, target: string, deliver: nat, sess: Sess, strm: Strm)
    | OpenFail
    | OpenDone
    | Send(key: string, payload: Payload)
    | ClientRecv(dgm: Dgm)
    | Alloc(strm: Strm)
    | Enlist(strm: Strm)
    | Reply(strm: Strm)
    | StartRelay(strm: Strm)
    | TargetSays(strm: Strm, payload: Payload)
    | HubRecv(dgm: Dgm)
    | CloseFlow(strm: Strm)

  predicate Can(s: Sys, a: Act) {
    match a
    case Connect(sess) => sess !in s.hubs
    case OpenKnown(key, _, _) => s.lock.None? && key in s.pool.byKey
    case OpenStart(key, _, _, sess, strm) =>
      s.lock.None? && key !in s.pool.byKey && sess in s.hubs && strm !in s.strms
    case OpenFail => s.lock.Some? && s.lock.value in s.strms
    case OpenDone => s.lock.Some? && s.lock.value in s.strms && s.strms[s.lock.value].HasReply()
    case Send(key, _) => key in s.pool.byKey
    case ClientRecv(dgm) => s.lock.None? && dgm in s.net && dgm.Down? && dgm.sess in s.pool.recv
    case Alloc(strm) => strm in s.strms && s.strms[strm].phase == Pending && s.strms[strm].sess in s.hubs
    case Enlist(strm) => strm in s.strms && s.strms[strm].phase == Allocated && s.strms[strm].sess in s.hubs
    case Reply(strm) => strm in s.strms && s.strms[strm].phase == Listed
    case StartRelay(strm) => strm in s.strms && s.strms[strm].phase == Replied
    case TargetSays(strm, _) => strm in s.strms && s.strms[strm].phase == Relaying
    case HubRecv(dgm) => dgm in s.net && dgm.Up? && dgm.sess in s.hubs
    case CloseFlow(strm) => strm in s.strms && s.strms[strm].IsListed() && s.strms[strm].sess in s.hubs
  }

  function SetStrm(s: Sys, strm: Strm, c: Ctrl): Sys {
    s.(strms := s.strms[strm := c])
  }

  function SetHub(s: Sys, sess: Sess, h: Hubs.Hub): Sys {
    s.(hubs := s.hubs[sess := h])
  }

  function Do(s: Sys, a: Act): Sys
    requires Can(s, a)
  {
    match a
    // a session comes up, with an empty hub
    case Connect(sess) => SetHub(s, sess, Hubs.NEW_HUB)
    // OpenUDPDatagram with a known key returns the closure it has
    case OpenKnown(_, _, _) => s
    // it takes dgMu, finds the key unknown and writes its request on a new stream
    case OpenStart(key, target, deliver, sess, strm) =>
      SetStrm(s.(lock := Some(strm)), strm, Ctrl(sess, key, target, deliver, Waiting, Pending, 0, 0))
    // its read of the flow identifier fails, whether or not a reply was sent
    case OpenFail =>
      SetStrm(s.(lock := None), s.lock.value, s.strms[s.lock.value].(client := GaveUp))
    // it reads the identifier, registers both closures and lets dgMu go
    case OpenDone =>
      var strm := s.lock.value;
      var c := s.strms[strm];
      SetStrm(s.(lock := None,
                 pool := Pools.Register(s.pool, c.key, Pools.Flow(c.sess, c.id), c.deliver, strm)),
              strm, c.(client := Registered))
    // a send closure frames a payload and sends it
    case Send(key, payload) =>
      var f := s.pool.byKey[key];
      s.(net := s.net + {Up(f.flow.sess, Dgram.Encode(f.flow.id, payload), f.strm, key, payload)})
    // a receive loop of the pool takes dgMu for its lookup
    case ClientRecv(dgm) =>
      (match Pools.Dispatch(s.pool, dgm.sess, dgm.bytes)
       case None => s
       case Some((reg, payload)) => s.(delivered := s.delivered + {Delivered(reg.deliver, payload, dgm)}))
    // openFlow draws the identifier, ...
    case Alloc(strm) =>
      var c := s.strms[strm];
      var h := Hubs.Allocate(s.hubs[c.sess], strm);
      SetStrm(SetHub(s, c.sess, h), strm, c.(phase := Allocated, ord := |h.openers|, id := Hubs.Id(|h.openers|)))
    // ... then lists the socket
    case Enlist(strm) =>
      var c := s.strms[strm];
      SetStrm(SetHub(s, c.sess, Hubs.List(s.hubs[c.sess], c.id, Hubs.Socket(c.target, strm))),
              strm, c.(phase := Listed))
    case Reply(strm) => SetStrm(s, strm, s.strms[strm].(phase := Replied))
    case StartRelay(strm) => SetStrm(s, strm, s.strms[strm].(phase := Relaying))
    // the flow's relay frames what its socket received; a late turn may come after the
    // flow was closed
    case TargetSays(strm, payload) =>
      var c := s.strms[strm];
      s.(net := s.net + {Down(c.sess, Dgram.Encode(c.id, payload), strm, payload)})
    case HubRecv(dgm) =>
      (match Hubs.Dispatch(s.hubs[dgm.sess], dgm.bytes)
       case None => s
       case Some((sock, payload)) => s.(written := s.written + {Written(sock, payload, dgm)}))
    // the relay's or the handler's deferred closeFlow; both may run
    case CloseFlow(strm) =>
      var c := s.strms[strm];
      SetHub(s, c.sess, Hubs.Remove(s.hubs[c.sess], c.id))
  }

  // ---- the invariant ----

  /** No session has opened more flows than there are identifiers. */
  ghost predicate Bounded(s: Sys) {
    forall sess :: sess in s.hubs ==> |s.hubs[sess].openers| <= WORD
  }

  /** Every flow of a handler stands at its place in the record of its session. */
  ghost predicate HandlersOk(s: Sys) {
    forall st :: st in s.strms ==>
      var c := s.strms[st];
      && c.sess in s.hubs
      && (c.HasFlow() ==> 1 <= c.ord <= |s.hubs[c.sess].openers|
                          && s.hubs[c.sess].openers[c.ord - 1] == st && c.id == Hubs.Id(c.ord))
  }

  ghost predicate FlowsOk(s: Sys) {
    forall sess, id :: sess in s.hubs && id in s.hubs[sess].flows ==>
      var sock := s.hubs[sess].flows[id];
      && sock.strm in s.strms && s.strms[sock.strm].sess == sess && s.strms[sock.strm].IsListed()
      && s.strms[sock.strm].id == id && s.strms[sock.strm].target == sock.target
  }

  ghost predicate LockOk(s: Sys) {
    && (s.lock.Some? ==> s.lock.value in s.strms && s.strms[s.lock.value].client == Waiting
                         && s.strms[s.lock.value].key !in s.pool.byKey)
    && (forall st :: st in s.strms && s.strms[st].client == Waiting ==> s.lock == Some(st))
  }

  /** The flow of control stream `st` has been announced to the client. */
  ghost predicate Announced(s: Sys, st: Strm, flow: Pools.Flow) {
    && st in s.strms && s.strms[st].HasReply()
    && flow == Pools.Flow(s.strms[st].sess, s.strms[st].id)
  }

  ghost predicate PoolOk(s: Sys) {
    && (forall key :: key in s.pool.byKey ==>
          && Announced(s, s.pool.byKey[key].strm, s.pool.byKey[key].flow)
          && s.strms[s.pool.byKey[key].strm].key == key
          && s.strms[s.pool.byKey[key].strm].client == Registered)
    && (forall f :: f in s.pool.deliver ==>
          && Announced(s, s.pool.deliver[f].strm, f)
          && s.strms[s.pool.deliver[f].strm].deliver == s.pool.deliver[f].deliver
          && s.strms[s.pool.deliver[f].strm].client == Registered)
    && (forall st :: st in s.strms && s.strms[st].client == Registered ==>
          var f := Pools.Flow(s.strms[st].sess, s.strms[st].id);
          f in s.pool.deliver && s.pool.deliver[f].strm == st && f.sess in s.pool.recv && s.strms[st].HasReply())
  }

  ghost predicate NetOk(s: Sys) {
    forall d :: d in s.net ==>
      && d.strm in s.strms && s.strms[d.strm].sess == d.sess && s.strms[d.strm].HasReply()
      && d.bytes == Dgram.Encode(s.strms[d.strm].id, d.payload)
      && (d.Up? ==> s.strms[d.strm].key == d.key && s.strms[d.strm].client == Registered
                    && d.key in s.pool.byKey && s.pool.byKey[d.key].strm == d.strm)
  }

  /** What a hub wrote went to the socket dialled by the handshake of the sender's own
      key, for the target that handshake asked for, with the payload sent. */
  ghost predicate WrittenRight(s: Sys, w: Written) {
    && w.cause.Up? && w.payload == w.cause.payload && w.sock.strm == w.cause.strm
    && w.sock.strm in s.strms && s.strms[w.sock.strm].key == w.cause.key
    && s.strms[w.sock.strm].target == w.sock.target
    && w.cause.key in s.pool.byKey && s.pool.byKey[w.cause.key].strm == w.sock.strm
  }

  /** What reached a deliver closure came from the socket of the handshake that
      registered this very closure, with the payload read there. */
  ghost predicate DeliveredRight(s: Sys, d: Delivered) {
    && d.cause.Down? && d.payload == d.cause.payload
    && d.cause.strm in s.strms && s.strms[d.cause.strm].deliver == d.deliver
  }

  ghost predicate HistoryOk(s: Sys) {
    && (forall w :: w in s.written ==> WrittenRight(s, w))
    && (forall d :: d in s.delivered ==> DeliveredRight(s, d))
  }

  ghost predicate Inv(s: Sys) {
    HandlersOk(s) && FlowsOk(s) && LockOk(s) && PoolOk(s) && NetOk(s) && HistoryOk(s)
  }

  // ---- every step keeps it ----

  lemma InitInv()
    ensures Inv(INIT)
  {
  }

  /** Within one session, an identifier names one control stream. */
  lemma SameFlowSameStrm(s: Sys, st: Strm, st': Strm)
    requires HandlersOk(s) && Bounded(s) && st in s.strms && st' in s.strms
    requires s.strms[st].HasFlow() && s.strms[st'].HasFlow() && s.strms[st].sess == s.strms[st'].sess
    requires s.strms[st].id == s.strms[st'].id
    ensures st == st'
  {
    Hubs.IdInjective(s.strms[st].ord, s.strms[st'].ord);
  }

  /** A hub's lookup finds the socket of the very flow the datagram was sent on. */
  lemma HubFindsOwnSocket(s: Sys, dgm: Dgm)
    requires HandlersOk(s) && FlowsOk(s) && NetOk(s) && Bounded(s) && Can(s, HubRecv(dgm))
    ensures var r := Hubs.Dispatch(s.hubs[dgm.sess], dgm.bytes);
            r.Some? ==> WrittenRight(s, Written(r.value.0, r.value.1, dgm))
  {
    var c := s.strms[dgm.strm];
    Dgram.DecodeEncode(c.id, dgm.payload);
    var h := s.hubs[dgm.sess];
    if c.id in h.flows {
      SameFlowSameStrm(s, h.flows[c.id].strm, dgm.strm);
    }
  }

  lemma OnlyRecordsChange(s: Sys, s': Sys)
    requires HandlersOk(s) && FlowsOk(s) && LockOk(s) && PoolOk(s) && NetOk(s)
    requires s'.pool == s.pool && s'.lock == s.lock && s'.hubs == s.hubs && s'.strms == s.strms && s'.net == s.net
    ensures HandlersOk(s') && FlowsOk(s') && LockOk(s') && PoolOk(s') && NetOk(s')
  {
    SamePool(s, s');
    SameNet(s, s');
  }

  lemma SamePool(s: Sys, s': Sys)
    requires PoolOk(s) && LockOk(s) && s'.pool == s.pool && s'.lock == s.lock && s'.strms == s.strms
    ensures PoolOk(s') && LockOk(s')
  {
  }

  lemma SameNet(s: Sys, s': Sys)
    requires NetOk(s) && s'.pool == s.pool && s'.strms == s.strms && s'.net == s.net
    ensures NetOk(s')
  {
  }

  lemma HubRecvRight(s: Sys, dgm: Dgm)
    requires Inv(s) && Bounded(s) && Can(s, HubRecv(dgm))
    ensures Inv(Do(s, HubRecv(dgm)))
  {
    HubFindsOwnSocket(s, dgm);
    var found := Hubs.Dispatch(s.hubs[dgm.sess], dgm.bytes);
    if found.Some? {
      WriteRecorded(s, Written(found.value.0, found.value.1, dgm));
    }
  }

  lemma WriteRecorded(s: Sys, w: Written)
    requires Inv(s) && WrittenRight(s, w)
    ensures Inv(s.(written := s.written + {w}))
  {
    OnlyRecordsChange(s, s.(written := s.written + {w}));
  }

  /** The pool's lookup finds the closure registered by the handshake of the flow the
      datagram was sent on, and finds one exactly when that handshake succeeded. */
  lemma PoolFindsOwnClosure(s: Sys, dgm: Dgm)
    requires HandlersOk(s) && LockOk(s) && PoolOk(s) && NetOk(s) && Bounded(s) && Can(s, ClientRecv(dgm))
    ensures var c := s.strms[dgm.strm];
            && c.client != Waiting
            && Pools.Dispatch(s.pool, dgm.sess, dgm.bytes)
               == if c.client == Registered then Some((Pools.Reg(c.deliver, dgm.strm), dgm.payload)) else None
  {
    var c := s.strms[dgm.strm];
    Dgram.DecodeEncode(c.id, dgm.payload);
    var f := Pools.Flow(dgm.sess, c.id);
    if f in s.pool.deliver {
      SameFlowSameStrm(s, s.pool.deliver[f].strm, dgm.strm);
    }
  }

  lemma ClientRecvRight(s: Sys, dgm: Dgm)
    requires Inv(s) && Bounded(s) && Can(s, ClientRecv(dgm))
    ensures Inv(Do(s, ClientRecv(dgm)))
  {
    PoolFindsOwnClosure(s, dgm);
    OnlyRecordsChange(s, Do(s, ClientRecv(dgm)));
  }

  /** Control streams are never forgotten and handlers never step back. */
  ghost predicate Grows(s: Sys, s': Sys) {
    forall st :: st in s.strms ==>
      && st in s'.strms
      && var c, c' := s.strms[st], s'.strms[st];
         && c'.sess == c.sess && c'.key == c.key && c'.target == c.target && c'.deliver == c.deliver
         && (c.HasFlow() ==> c'.HasFlow() && c'.ord == c.ord && c'.id == c.id)
         && (c.IsListed() ==> c'.IsListed()) && (c.HasReply() ==> c'.HasReply())
         && (c.client == Registered ==> c'.client == Registered)
  }

  lemma GrowsKeepsRecords(s: Sys, s': Sys)
    requires NetOk(s) && HistoryOk(s) && Grows(s, s')
    requires s'.net == s.net && s'.written == s.written && s'.delivered == s.delivered
    requires forall key :: key in s.pool.byKey ==> key in s'.pool.byKey && s'.pool.byKey[key] == s.pool.byKey[key]
    ensures NetOk(s') && HistoryOk(s')
  {
  }

  lemma GrowsKeepsFlows(s: Sys, s': Sys)
    requires FlowsOk(s) && Grows(s, s') && s'.hubs == s.hubs
    ensures FlowsOk(s')
  {
  }

  lemma GrowsKeepsPool(s: Sys, s': Sys)
    requires PoolOk(s) && Grows(s, s') && s'.pool == s.pool
    requires forall st :: st in s'.strms && s'.strms[st].client == Registered
                          ==> st in s.strms && s.strms[st].client == Registered
    ensures PoolOk(s')
  {
  }

  lemma SameHandlers(s: Sys, s': Sys)
    requires HandlersOk(s)
    requires s'.strms.Keys == s.strms.Keys && s'.hubs.Keys == s.hubs.Keys
    requires forall st :: st in s.strms ==>
               && s'.strms[st].sess == s.strms[st].sess && (s'.strms[st].HasFlow() <==> s.strms[st].HasFlow())
               && s'.strms[st].ord == s.strms[st].ord && s'.strms[st].id == s.strms[st].id
    requires forall h :: h in s.hubs ==> s'.hubs[h].openers == s.hubs[h].openers
    ensures HandlersOk(s')
  {
  }

  lemma OpenDoneRight(s: Sys)
    requires Inv(s) && Bounded(s) && Can(s, OpenDone)
    ensures Inv(Do(s, OpenDone))
  {
    var s' := Do(s, OpenDone);
    OpenDoneGrows(s);
    LockAfterOpenDone(s);
    GrowsKeepsRecords(s, s');
    SameHandlers(s, s');
    GrowsKeepsFlows(s, s');
    RegisteredAfterOpenDone(s);
    PoolAfterRegister(s, s.lock.value, s');
  }

  lemma OpenDoneGrows(s: Sys)
    requires Can(s, OpenDone)
    ensures Grows(s, Do(s, OpenDone))
  {
  }

  lemma LockAfterOpenDone(s: Sys)
    requires LockOk(s) && Can(s, OpenDone)
    ensures LockOk(Do(s, OpenDone))
    ensures forall key :: key in s.pool.byKey ==>
              key in Do(s, OpenDone).pool.byKey && Do(s, OpenDone).pool.byKey[key] == s.pool.byKey[key]
  {
  }

  lemma RegisteredAfterOpenDone(s: Sys)
    requires HandlersOk(s) && PoolOk(s) && Bounded(s) && Can(s, OpenDone)
    ensures var s' := Do(s, OpenDone);
            forall st :: st in s'.strms && s'.strms[st].client == Registered ==>
              var f := Pools.Flow(s'.strms[st].sess, s'.strms[st].id);
              && f in s'.pool.deliver && s'.pool.deliver[f].strm == st
              && f.sess in s'.pool.recv && s'.strms[st].HasReply()
  {
    var s', strm := Do(s, OpenDone), s.lock.value;
    var c := s.strms[strm];
    forall st | st in s'.strms && s'.strms[st].client == Registered && st != strm
      ensures s.strms[st].sess != c.sess || s.strms[st].id != c.id
    {
      if s.strms[st].sess == c.sess && s.strms[st].id == c.id {
        SameFlowSameStrm(s, st, strm);
      }
    }
  }

  lemma PoolAfterRegister(s: Sys, strm: Strm, s': Sys)
    requires PoolOk(s) && Grows(s, s') && strm in s.strms && s.strms[strm].HasReply()
    requires var c := s.strms[strm];
             s'.pool == Pools.Register(s.pool, c.key, Pools.Flow(c.sess, c.id), c.deliver, strm)
    requires s'.strms[strm].client == Registered
    requires forall st :: st in s'.strms && s'.strms[st].client == Registered ==>
               var f := Pools.Flow(s'.strms[st].sess, s'.strms[st].id);
               && f in s'.pool.deliver && s'.pool.deliver[f].strm == st
               && f.sess in s'.pool.recv && s'.strms[st].HasReply()
    ensures PoolOk(s')
  {
  }

  lemma OpenStartRight(s: Sys, a: Act)
    requires Inv(s) && Can(s, a) && a.OpenStart?
    ensures Inv(Do(s, a))
  {
    GrowsKeepsRecords(s, Do(s, a));
    GrowsKeepsFlows(s, Do(s, a));
    GrowsKeepsPool(s, Do(s, a));
  }

  lemma OpenFailRight(s: Sys)
    requires Inv(s) && Can(s, OpenFail)
    ensures Inv(Do(s, OpenFail))
  {
    var s' := Do(s, OpenFail);
    SameHandlers(s, s');
    GrowsKeepsRecords(s, s');
    GrowsKeepsFlows(s, s');
    GrowsKeepsPool(s, s');
    assert LockOk(s');
  }

  lemma SendRight(s: Sys, key: string, payload: Payload)
    requires Inv(s) && Can(s, Send(key, payload))
    ensures Inv(Do(s, Send(key, payload)))
  {
    var s' := Do(s, Send(key, payload));
    assert NetOk(s') by {
      assert forall d :: d in s'.net && d !in s.net ==> d.strm == s.pool.byKey[key].strm;
    }
  }

  lemma TargetSaysRight(s: Sys, strm: Strm, payload: Payload)
    requires Inv(s) && Can(s, TargetSays(strm, payload))
    ensures Inv(Do(s, TargetSays(strm, payload)))
  {
    assert NetOk(Do(s, TargetSays(strm, payload)));
  }

  lemma AllocRight(s: Sys, strm: Strm)
    requires Inv(s) && Can(s, Alloc(strm))
    ensures Inv(Do(s, Alloc(strm)))
  {
    var s' := Do(s, Alloc(strm));
    GrowsKeepsRecords(s, s');
    GrowsKeepsPool(s, s');
    assert LockOk(s');
    HandlersAfterAlloc(s, strm);
    FlowsAfterAlloc(s, strm);
  }

  lemma HandlersAfterAlloc(s: Sys, strm: Strm)
    requires HandlersOk(s) && Can(s, Alloc(strm))
    ensures HandlersOk(Do(s, Alloc(strm)))
  {
    var s' := Do(s, Alloc(strm));
    assert s'.hubs.Keys == s.hubs.Keys;
  }

  lemma FlowsAfterAlloc(s: Sys, strm: Strm)
    requires FlowsOk(s) && Can(s, Alloc(strm))
    ensures FlowsOk(Do(s, Alloc(strm)))
  {
    var s' := Do(s, Alloc(strm));
    forall sess, id | sess in s'.hubs && id in s'.hubs[sess].flows
      ensures id in s.hubs[sess].flows && s'.hubs[sess].flows[id] == s.hubs[sess].flows[id]
    {
    }
  }

  lemma EnlistRight(s: Sys, strm: Strm)
    requires Inv(s) && Can(s, Enlist(strm))
    ensures Inv(Do(s, Enlist(strm)))
  {
    var s' := Do(s, Enlist(strm));
    HandlersAfterEnlist(s, strm);
    LockAfterEnlist(s, strm);
    EnlistGrows(s, strm);
    GrowsKeepsRecords(s, s');
    GrowsKeepsPool(s, s');
    FlowsAfterEnlist(s, strm);
  }

  lemma HandlersAfterEnlist(s: Sys, strm: Strm)
    requires HandlersOk(s) && Can(s, Enlist(strm))
    ensures HandlersOk(Do(s, Enlist(strm)))
  {
    SameHandlers(s, Do(s, Enlist(strm)));
  }

  lemma LockAfterEnlist(s: Sys, strm: Strm)
    requires LockOk(s) && Can(s, Enlist(strm))
    ensures LockOk(Do(s, Enlist(strm)))
  {
  }

  lemma EnlistGrows(s: Sys, strm: Strm)
    requires Can(s, Enlist(strm))
    ensures Grows(s, Do(s, Enlist(strm)))
    ensures forall st :: st in Do(s, Enlist(strm)).strms && Do(s, Enlist(strm)).strms[st].client == Registered
                         ==> st in s.strms && s.strms[st].client == Registered
  {
  }

  lemma FlowsAfterEnlist(s: Sys, strm: Strm)
    requires FlowsOk(s) && Can(s, Enlist(strm))
    ensures FlowsOk(Do(s, Enlist(strm)))
  {
    var s' := Do(s, Enlist(strm));
    var c := s.strms[strm];
    forall sess, id | sess in s'.hubs && id in s'.hubs[sess].flows && (sess != c.sess || id != c.id)
      ensures id in s.hubs[sess].flows && s'.hubs[sess].flows[id] == s.hubs[sess].flows[id]
    {
    }
  }

  /** The handler of a stream moves on without touching the hub. */
  lemma HandlerMovesRight(s: Sys, strm: Strm, p: Phase)
    requires Inv(s) && strm in s.strms
    requires (s.strms[strm].phase == Listed && p == Replied) || (s.strms[strm].phase == Replied && p == Relaying)
    ensures Inv(SetStrm(s, strm, s.strms[strm].(phase := p)))
  {
    var s' := SetStrm(s, strm, s.strms[strm].(phase := p));
    PhaseGrows(s, strm, p);
    SameHandlers(s, s');
    GrowsKeepsRecords(s, s');
    GrowsKeepsFlows(s, s');
    GrowsKeepsPool(s, s');
  }

  lemma PhaseGrows(s: Sys, strm: Strm, p: Phase)
    requires strm in s.strms && LockOk(s)
    requires (s.strms[strm].phase == Listed && p == Replied) || (s.strms[strm].phase == Replied && p == Relaying)
    ensures var s' := SetStrm(s, strm, s.strms[strm].(phase := p));
            Grows(s, s') && LockOk(s')
  {
  }

  lemma ConnectRight(s: Sys, sess: Sess)
    requires Inv(s) && Can(s, Connect(sess))
    ensures Inv(Do(s, Connect(sess)))
  {
    var s' := Do(s, Connect(sess));
    GrowsKeepsRecords(s, s');
    GrowsKeepsPool(s, s');
    assert HandlersOk(s') && LockOk(s');
  }

  lemma CloseFlowRight(s: Sys, strm: Strm)
    requires Inv(s) && Can(s, CloseFlow(strm))
    ensures Inv(Do(s, CloseFlow(strm)))
  {
    var s' := Do(s, CloseFlow(strm));
    SameHandlers(s, s');
    GrowsKeepsRecords(s, s');
    GrowsKeepsPool(s, s');
    assert LockOk(s');
    assert FlowsOk(s') by {
      forall sess, id | sess in s'.hubs && id in s'.hubs[sess].flows
        ensures id in s.hubs[sess].flows && s'.hubs[sess].flows[id] == s.hubs[sess].flows[id]
      {
      }
    }
  }

  /** The invariant of the protocol: every step of every party keeps it, as long as
      no session has run out of flow identifiers. */
  lemma StepKeepsInv(s: Sys, a: Act)
    requires Inv(s) && Bounded(s) && Can(s, a)
    ensures Inv(Do(s, a))
  {
    match a
    case Connect(sess) => ConnectRight(s, sess);
    case CloseFlow(strm) => CloseFlowRight(s, strm);
    case OpenKnown(_, _, _) =>
    case OpenStart(_, _, _, _, _) => OpenStartRight(s, a);
    case OpenFail => OpenFailRight(s);
    case OpenDone => OpenDoneRight(s);
    case Send(key, payload) => SendRight(s, key, payload);
    case TargetSays(strm, payload) => TargetSaysRight(s, strm, payload);
    case ClientRecv(dgm) => ClientRecvRight(s, dgm);
    case HubRecv(dgm) => HubRecvRight(s, dgm);
    case Alloc(strm) => AllocRight(s, strm);
    case Enlist(strm) => EnlistRight(s, strm);
    case Reply(strm) => HandlerMovesRight(s, strm, Replied);
    case StartRelay(strm) => HandlerMovesRight(s, strm, Relaying);
  }
}
