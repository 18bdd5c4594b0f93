/** The client's half of a datagram session (OpenUDPDatagram and dgramRecvLoop in
    tunnelpool/pool.go): send closures by key, deliver closures by flow. */
module DatagramPool {
  import opened Bytes
  import opened Options
  import Dgram

  /** A flow is named by its session and an identifier the server assigned there. */
  datatype Flow = Flow(sess: nat, id: Word)

  /** A send closure captures a session and a flow identifier. `strm`, the control
      stream of the handshake that made it, is kept for the record. */
  datatype Closure = Closure(flow: Flow, strm: nat)

  /** A deliver closure, named by a number, and the handshake that registered it. */
  datatype Reg = Reg(deliver: nat, strm: nat)

  datatype State = State(byKey: map<string, Closure>, deliver: map<Flow, Reg>, recv: set<nat>)

  const EMPTY := State(map[], map[], {})

  function Register(p: State, key: string, flow: Flow, deliver: nat, strm: nat): State {
    State(p.byKey[key := Closure(flow, strm)], p.deliver[flow := Reg(deliver, strm)], p.recv + {flow.sess})
  }

  /** What the receive loop of `sess` does with one datagram: nothing, or one call of
      a deliver closure. */
  function Dispatch(p: State, sess: nat, b: seq<Byte>): Option<(Reg, seq<Byte>)> {
    match Dgram.Decode(b)
    case Short => None
    case Flow(id, payload) =>
      if Flow(sess, id) in p.deliver then Some((p.deliver[Flow(sess, id)], payload)) else None
  }

  /** How far the handshake of a new flow gets. */
  datatype Handshake =
    | NoSession | BadTarget | NoStream(sess: nat) | NotWritten(sess: nat) | NoReply(sess: nat)
    | Reply(sess: nat, id: Word, strm: nat)

  datatype Opened = Reused(send: Closure) | Fresh(send: Closure) | Failed

  class DgramPool {
    var byKey: map<string, Closure>
    var deliver: map<Flow, Reg>
    var recv: set<nat>

    ghost function Now(): State
      reads this
    {
      State(byKey, deliver, recv)
    }

    constructor ()
      ensures Now() == EMPTY
    {
      byKey, deliver, recv := map[], map[], {};
    }

    /** OpenUDPDatagram, with the lock held from the key check to the registration.
        For a known key the new target and closure are ignored. */
    method OpenUDPDatagram(key: string, closure: nat, hs: Handshake) returns (r: Opened)
      modifies this
      ensures key in old(byKey) ==> r == Reused(old(byKey)[key]) && Now() == old(Now())
      ensures key !in old(byKey) && hs.Reply? ==>
                r == Fresh(Closure(Flow(hs.sess, hs.id), hs.strm))
                && Now() == Register(old(Now()), key, Flow(hs.sess, hs.id), closure, hs.strm)
      ensures key !in old(byKey) && !hs.Reply? ==> r == Failed && Now() == old(Now())
    {
      if key in byKey {
        return Reused(byKey[key]);
      }
      if !hs.Reply? {
        return Failed;
      }
      var flow := Flow(hs.sess, hs.id);
      deliver := deliver[flow := Reg(closure, hs.strm)];
      if hs.sess !in recv {
        recv := recv + {hs.sess};
      }
      var send := Closure(flow, hs.strm);
      byKey := byKey[key := send];
      return Fresh(send);
    }

    /** One turn of dgramRecvLoop. */
    method Receive(sess: nat, b: seq<Byte>) returns (r: Option<(Reg, seq<Byte>)>)
      ensures r == Dispatch(Now(), sess, b)
    {
      var d := Dgram.Decode(b);
      if d.Short? || Flow(sess, d.id) !in deliver {
        return None;
      }
      return Some((deliver[Flow(sess, d.id)], d.payload));
    }
  }
}
