/** The server's half of a datagram session (tunnel/dgram.go): a table from flow
    identifiers to sockets dialled toward the targets. */
module DatagramHub {
  import opened Bytes
  import opened Options
  import Dgram

  /** A UDP socket toward `target`, dialled for the request on control stream `strm`. */
  datatype Socket = Socket(target: string, strm: nat)

  /** `openers` records the control streams whose flows were opened, in order; the
      counter nextID holds their number modulo 2^64. */
  datatype Hub = Hub(flows: map<Word, Socket>, openers: seq<nat>)

  const NEW_HUB := Hub(map[], [])

  /** The identifier of the `ord`-th flow of a session, counted from one. */
  function Id(ord: nat): Word {
    ord % WORD
  }

  /** Identifiers count from one and repeat only after 2^64 flows. */
  lemma IdInjective(a: nat, b: nat)
    requires a < b + WORD && b < a + WORD
    ensures Id(a) == Id(b) <==> a == b
    ensures a < WORD ==> Id(a) == a
  {
  }

  function Allocate(h: Hub, strm: nat): Hub {
    h.(openers := h.openers + [strm])
  }

  function List(h: Hub, id: Word, sock: Socket): Hub {
    h.(flows := h.flows[id := sock])
  }

  function Remove(h: Hub, id: Word): Hub {
    h.(flows := h.flows - {id})
  }

  /** What the receive loop does with one datagram: nothing, or one write. */
  function Dispatch(h: Hub, b: seq<Byte>): Option<(Socket, seq<Byte>)> {
    match Dgram.Decode(b)
    case Short => None
    case Flow(id, payload) => if id in h.flows then Some((h.flows[id], payload)) else None
  }

  class DgramHub {
    var flows: map<Word, Socket>
    var nextID: Word
    ghost var openers: seq<nat>

    ghost predicate Valid()
      reads this
    {
      nextID == Id(|openers|)
    }

    ghost function State(): Hub
      reads this
    {
      Hub(flows, openers)
    }

    constructor ()
      ensures Valid() && State() == NEW_HUB
    {
      flows, nextID, openers := map[], 0, [];
    }

    /** openFlow: a failed dial allocates nothing. */
    method OpenFlow(target: string, strm: nat, dialled: bool) returns (r: Option<Word>)
      requires Valid()
      modifies this
      ensures Valid()
      ensures !dialled ==> r == None && State() == old(State())
      ensures dialled ==> r == Some(Id(|openers|))
                          && State() == List(Allocate(old(State()), strm), Id(|openers|), Socket(target, strm))
    {
      if !dialled {
        return None;
      }
      nextID := (nextID + 1) % WORD;
      openers := openers + [strm];
      flows := flows[nextID := Socket(target, strm)];
      return Some(nextID);
    }

    /** One turn of recvLoop. */
    method Receive(b: seq<Byte>) returns (r: Option<(Socket, seq<Byte>)>)
      ensures r == Dispatch(State(), b)
    {
      var d := Dgram.Decode(b);
      if d.Short? || d.id !in flows {
        return None;
      }
      return Some((flows[d.id], d.payload));
    }

    /** closeFlow: closes the socket it removes, so a second call closes nothing. */
    method CloseFlow(id: Word) returns (closed: Option<Socket>)
      requires Valid()
      modifies this`flows
      ensures Valid() && State() == Remove(old(State()), id)
      ensures closed == if id in old(flows) then Some(old(flows)[id]) else None
    {
      closed := if id in flows then Some(flows[id]) else None;
      flows := flows - {id};
    }
  }
}
