/** The pool's table of UDP streams (OpenUDP and CloseUDP in tunnelpool/pool.go):
    it is keyed by a hash of (local address, target), and is compared here with the
    exact table keyed by the pair itself. */
module UdpTable {
  import opened Bytes
  import opened Options
  import Fnv

  type Stream = nat

  datatype Pair = Pair(local: seq<Byte>, target: seq<Byte>) {
    function Key(): Word {
      Fnv.PairKey(local, target)
    }
  }

  /** What happens when a new stream has to be opened: the target does not parse, no
      session opens a stream, the request cannot be written, or it can. */
  datatype Dial = BadTarget | NoStream | WriteFailed(strm: Stream) | Dialled(strm: Stream)

  datatype Opened = Reused(strm: Stream) | Fresh(strm: Stream) | Failed

  /** A call of OpenUDP, one of CloseUDP for a pair, and the call of CloseUDP with key 0
      that callers make after an OpenUDP that failed. */
  datatype Op = Open(pair: Pair, dial: Dial) | Close(pair: Pair) | CloseFailed

  /** What a caller observes: the stream handed out, or the stream closed. */
  datatype Seen = SawOpen(result: Opened) | SawClose(closed: Option<Stream>)

  // ---- one call, on the hashed table and on the exact one ----

  function Outcome(found: Option<Stream>, dial: Dial): Opened {
    match found
    case Some(strm) => Reused(strm)
    case None => if dial.Dialled? then Fresh(dial.strm) else Failed
  }

  function Find<K>(m: map<K, Stream>, k: K): Option<Stream> {
    if k in m then Some(m[k]) else None
  }

  /** OpenUDP on a table in which the pair is filed under `k`. */
  function Opening<K>(m: map<K, Stream>, k: K, dial: Dial): (map<K, Stream>, Seen) {
    var r := Outcome(Find(m, k), dial);
    (if r.Fresh? then m[k := r.strm] else m, SawOpen(r))
  }

  function Closing<K>(m: map<K, Stream>, k: K): (map<K, Stream>, Seen) {
    (m - {k}, SawClose(Find(m, k)))
  }

  function Hashed(udp: map<Word, Stream>, op: Op): (map<Word, Stream>, Seen) {
    match op
    case Open(p, dial) => Opening(udp, p.Key(), dial)
    case Close(p) => Closing(udp, p.Key())
    case CloseFailed => Closing(udp, 0)
  }

  /** On an exact table a call that failed has nothing to close. */
  function Exact(t: map<Pair, Stream>, op: Op): (map<Pair, Stream>, Seen) {
    match op
    case Open(p, dial) => Opening(t, p, dial)
    case Close(p) => Closing(t, p)
    case CloseFailed => (t, SawClose(None))
  }

  // ---- agreement ----

  /** No live pair other than `p` has the key of `p`. */
  predicate Alone(t: map<Pair, Stream>, p: Pair) {
    forall q :: q in t && q != p ==> q.Key() != p.Key()
  }

  /** No live pair has the key the call uses, other than the pair it is for. */
  predicate Unshared(t: map<Pair, Stream>, op: Op) {
    match op
    case Open(p, _) => Alone(t, p)
    case Close(p) => Alone(t, p)
    case CloseFailed => forall q :: q in t ==> q.Key() != 0
  }

  /** The hashed table holds exactly the streams of the exact one. */
  ghost predicate Represents(udp: map<Word, Stream>, t: map<Pair, Stream>) {
    && (forall p :: p in t ==> Alone(t, p) && p.Key() in udp && udp[p.Key()] == t[p])
    && (forall k :: k in udp ==> exists p :: p in t && p.Key() == k)
  }

  lemma PairAgreesIff(udp: map<Word, Stream>, t: map<Pair, Stream>, p: Pair)
    requires Represents(udp, t)
    ensures Find(udp, p.Key()) == Find(t, p) <==> Alone(t, p)
    ensures Find(t, p).Some? ==> Alone(t, p)
  {
    if p in t {
      assert Alone(t, p);
    } else if p.Key() in udp {
      var q :| q in t && q.Key() == p.Key();
      assert !Alone(t, p);
    } else {
      assert Alone(t, p);
    }
  }

  /** One call agrees with the exact table if and only if no other live pair shares the
      key it uses. */
  lemma AgreesIff(udp: map<Word, Stream>, t: map<Pair, Stream>, op: Op)
    requires Represents(udp, t)
    ensures Hashed(udp, op).1 == Exact(t, op).1 <==> Unshared(t, op)
  {
    match op
    case Open(p, _) => PairAgreesIff(udp, t, p);
    case Close(p) => PairAgreesIff(udp, t, p);
    case CloseFailed =>
      if 0 in udp {
        var q :| q in t && q.Key() == 0;
      }
  }

  lemma ApplyKeepsRepresents(udp: map<Word, Stream>, t: map<Pair, Stream>, op: Op)
    requires Represents(udp, t) && Unshared(t, op)
    ensures Represents(Hashed(udp, op).0, Exact(t, op).0)
  {
    match op
    case Open(p, dial) => OpenKeepsRepresents(udp, t, p, dial);
    case Close(p) => CloseKeepsRepresents(udp, t, p);
    case CloseFailed =>
      AgreesIff(udp, t, op);
      assert udp - {0} == udp;
  }

  lemma OpenKeepsRepresents(udp: map<Word, Stream>, t: map<Pair, Stream>, p: Pair, dial: Dial)
    requires Represents(udp, t) && Alone(t, p)
    ensures Represents(Opening(udp, p.Key(), dial).0, Opening(t, p, dial).0)
  {
    PairAgreesIff(udp, t, p);
    var udp', t' := Opening(udp, p.Key(), dial).0, Opening(t, p, dial).0;
    forall k | k in udp'
      ensures exists q :: q in t' && q.Key() == k
    {
      if k != p.Key() {
        var q :| q in t && q.Key() == k;
        assert q in t';
      } else {
        assert p in t';
      }
    }
  }

  lemma CloseKeepsRepresents(udp: map<Word, Stream>, t: map<Pair, Stream>, p: Pair)
    requires Represents(udp, t) && Alone(t, p)
    ensures Represents(udp - {p.Key()}, t - {p})
  {
    forall k | k in udp - {p.Key()}
      ensures exists q :: q in t - {p} && q.Key() == k
    {
      var q :| q in t && q.Key() == k;
      assert q in t - {p};
    }
  }

  // ---- whole runs ----

  function RunHashed(udp: map<Word, Stream>, ops: seq<Op>): seq<Seen>
    decreases |ops|
  {
    if ops == [] then []
    else [Hashed(udp, ops[0]).1] + RunHashed(Hashed(udp, ops[0]).0, ops[1..])
  }

  function RunExact(t: map<Pair, Stream>, ops: seq<Op>): seq<Seen>
    decreases |ops|
  {
    if ops == [] then []
    else [Exact(t, ops[0]).1] + RunExact(Exact(t, ops[0]).0, ops[1..])
  }

  /** In every state of the exact run, the next call's key is shared by no other live
      pair. */
  predicate Separated(t: map<Pair, Stream>, ops: seq<Op>)
    decreases |ops|
  {
    ops == [] || (Unshared(t, ops[0]) && Separated(Exact(t, ops[0]).0, ops[1..]))
  }

  /** A run of OpenUDP and CloseUDP is indistinguishable from one on a table keyed by
      the pairs themselves if and only if pairs in use never share a key, nor have the
      key 0 when a failed call is closed. */
  lemma {:induction false} RunAgreesIff(udp: map<Word, Stream>, t: map<Pair, Stream>, ops: seq<Op>)
    requires Represents(udp, t)
    ensures RunHashed(udp, ops) == RunExact(t, ops) <==> Separated(t, ops)
    decreases |ops|
  {
    if ops == [] {
    } else {
      AgreesIff(udp, t, ops[0]);
      var h, e := Hashed(udp, ops[0]), Exact(t, ops[0]);
      assert RunHashed(udp, ops)[0] == h.1 && RunExact(t, ops)[0] == e.1;
      assert RunHashed(udp, ops)[1..] == RunHashed(h.0, ops[1..]) && RunExact(t, ops)[1..] == RunExact(e.0, ops[1..]);
      if Unshared(t, ops[0]) {
        ApplyKeepsRepresents(udp, t, ops[0]);
        RunAgreesIff(h.0, e.0, ops[1..]);
      }
    }
  }

  /** The hypothesis is needed: two clients whose addresses and targets concatenate to
      the same text. The second one is handed the stream of the first. */
  lemma SharedStream()
    ensures var a := Pair(Ascii("1.2.3.4:12"), Ascii("34.1.1.1:80"));
            var b := Pair(Ascii("1.2.3.4:123"), Ascii("4.1.1.1:80"));
            && a != b
            && RunHashed(map[], [Open(a, Dialled(7)), Open(b, Dialled(8))]) == [SawOpen(Fresh(7)), SawOpen(Reused(7))]
            && RunExact(map[], [Open(a, Dialled(7)), Open(b, Dialled(8))]) == [SawOpen(Fresh(7)), SawOpen(Fresh(8))]
  {
    Fnv.PairKeyCollision();
    var a := Pair(Ascii("1.2.3.4:12"), Ascii("34.1.1.1:80"));
    var b := Pair(Ascii("1.2.3.4:123"), Ascii("4.1.1.1:80"));
    var ops := [Open(a, Dialled(7)), Open(b, Dialled(8))];
    assert ops[1..] == [ops[1]] && [ops[1]][1..] == [];
    var h, e := map[a.Key() := 7], map[a := 7];
    assert Hashed(map[], ops[0]) == (h, SawOpen(Fresh(7)));
    assert Exact(map[], ops[0]) == (e, SawOpen(Fresh(7)));
    assert RunHashed(h, [ops[1]]) == [SawOpen(Reused(7))];
    assert RunExact(e, [ops[1]]) == [SawOpen(Fresh(8))];
  }

  // ---- the table itself ----

  class Table {
    var udp: map<Word, Stream>
    var closed: seq<Stream>

    constructor ()
      ensures udp == map[] && closed == []
    {
      udp, closed := map[], [];
    }

    /** OpenUDP, by itself: calls that overlap are the subject of UdpRaces. A stream whose
        request cannot be written is closed at once; a failed call reports the key 0. */
    method OpenUDP(local: seq<Byte>, target: seq<Byte>, dial: Dial) returns (r: Opened, key: Word)
      modifies this
      ensures (udp, SawOpen(r)) == Hashed(old(udp), Open(Pair(local, target), dial))
      ensures key == if r.Failed? then 0 else Pair(local, target).Key()
      ensures var k := Pair(local, target).Key();
              if k in old(udp) then r == Reused(old(udp)[k]) && udp == old(udp)
              else if dial.Dialled? then r == Fresh(dial.strm) && udp == old(udp)[k := dial.strm]
              else r == Failed && udp == old(udp)
      ensures closed == old(closed) + (if r.Failed? && dial.WriteFailed? then [dial.strm] else [])
    {
      key := Fnv.AddrPairKey(local, target);
      if key in udp {
        return Reused(udp[key]), key;
      }
      match dial {
        case BadTarget => return Failed, 0;
        case NoStream => return Failed, 0;
        case WriteFailed(strm) =>
          closed := closed + [strm];
          return Failed, 0;
        case Dialled(strm) =>
          udp := udp[key := strm];
          return Fresh(strm), key;
      }
    }

    method CloseUDP(key: Word)
      modifies this
      ensures forall p: Pair | p.Key() == key :: udp == Hashed(old(udp), Close(p)).0
      ensures key == 0 ==> udp == Hashed(old(udp), CloseFailed).0
      ensures udp == old(udp) - {key}
      ensures closed == old(closed) + (if key in old(udp) then [old(udp)[key]] else [])
    {
      if key in udp {
        closed := closed + [udp[key]];
        udp := udp - {key};
      }
    }
  }
}
