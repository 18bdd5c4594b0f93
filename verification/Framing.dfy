/** Length-prefixed datagrams over a byte stream (protocol/datagram.go) and the
    two loops of the UDP relay that consume and produce them (tunnel/relay.go). */
module Framing {
  import opened Bytes
  import opened Options

  const MAX_DATAGRAM: nat := 65535
  const BUFFER_SIZE: nat := 64 * 1024

  /** EndOfStream is io.EOF; Fault stands for any other error of the stream. */
  datatype Error = EndOfStream | UnexpectedEnd | Fault | TooLarge | WriteFailed

  // ---- meaning of a byte stream ----

  type Payload = seq<Byte>

  /** One frame: a two-byte big-endian length, then the payload. */
  function Frame(p: Payload): seq<Byte> {
    PutBig(|p|, 2) + p
  }

  function Frames(ps: seq<Payload>): seq<Byte> {
    if ps == [] then [] else Frame(ps[0]) + Frames(ps[1..])
  }

  predicate Frameable(ps: seq<Payload>) {
    forall p :: p in ps ==> |p| <= MAX_DATAGRAM
  }

  datatype Read = Got(payload: Payload, rest: seq<Byte>) | Failed(error: Error, rest: seq<Byte>)

  /** io.ReadFull's error when the stream fails with `fault` after `got` bytes. */
  function ShortRead(got: nat, fault: Error): Error {
    if got > 0 && fault == EndOfStream then UnexpectedEnd else fault
  }

  /** What one ReadDatagram into a buffer of `cap` bytes makes of the bytes `bs`
      that a stream delivers before failing with `fault`. */
  function ReadFrame(bs: seq<Byte>, cap: nat, fault: Error): Read {
    if |bs| < 2 then Failed(ShortRead(|bs|, fault), [])
    else
      var n, body := Big(bs[..2]), bs[2..];
      if n == 0 then Got([], body)
      else if n > cap then Failed(TooLarge, body)
      else if |body| < n then Failed(ShortRead(|body|, fault), [])
      else Got(body[..n], body[n..])
  }

  datatype Parsed = Parsed(payloads: seq<Payload>, error: Error)

  function Prepend(ps: seq<Payload>, r: Parsed): Parsed {
    Parsed(ps + r.payloads, r.error)
  }

  lemma PrependCons(ps: seq<Payload>, r: Parsed)
    requires ps != []
    ensures Prepend([ps[0]], Prepend(ps[1..], r)) == Prepend(ps, r)
  {
    assert [ps[0]] + (ps[1..] + r.payloads) == ps + r.payloads;
  }

  /** Repeated ReadDatagram until the first error. */
  function Parse(bs: seq<Byte>, cap: nat, fault: Error): Parsed
    decreases |bs|
  {
    match ReadFrame(bs, cap, fault)
    case Failed(e, _) => Parsed([], e)
    case Got(p, rest) => Prepend([p], Parse(rest, cap, fault))
  }

  // ---- printing then parsing ----

  lemma TakeDrop(a: seq<Byte>, b: seq<Byte>)
    ensures (a + b)[..|a|] == a && (a + b)[|a|..] == b
  {
  }

  lemma Regroup(a: seq<Byte>, b: seq<Byte>, c: seq<Byte>)
    ensures a + b + c == a + (b + c)
  {
  }

  lemma ReadFrameOfFrame(p: Payload, rest: seq<Byte>, cap: nat, fault: Error)
    requires |p| <= MAX_DATAGRAM && |p| <= cap
    ensures ReadFrame(Frame(p) + rest, cap, fault) == Got(p, rest)
  {
    Pow256Values();
    BigPut(|p|, 2);
    var head := PutBig(|p|, 2);
    Regroup(head, p, rest);
    TakeDrop(head, p + rest);
    TakeDrop(p, rest);
  }

  /** A payload that does not fit the buffer is refused as too large once its length has
      been read, and stays in the stream. */
  lemma ReadOversized(p: Payload, rest: seq<Byte>, cap: nat, fault: Error)
    requires cap < |p| <= MAX_DATAGRAM
    ensures ReadFrame(Frame(p) + rest, cap, fault) == Failed(TooLarge, p + rest)
  {
    Pow256Values();
    BigPut(|p|, 2);
    Regroup(PutBig(|p|, 2), p, rest);
    TakeDrop(PutBig(|p|, 2), p + rest);
  }

  lemma ParseFrameThen(p: Payload, rest: seq<Byte>, cap: nat, fault: Error)
    requires |p| <= MAX_DATAGRAM && |p| <= cap
    ensures Parse(Frame(p) + rest, cap, fault) == Prepend([p], Parse(rest, cap, fault))
  {
    ReadFrameOfFrame(p, rest, cap, fault);
  }

  /** Whatever follows a list of frames is parsed as if it stood alone. */
  lemma {:induction false} ParseFramesThen(ps: seq<Payload>, tail: seq<Byte>, cap: nat, fault: Error)
    requires Frameable(ps) && MAX_DATAGRAM <= cap
    ensures Parse(Frames(ps) + tail, cap, fault) == Prepend(ps, Parse(tail, cap, fault))
  {
    if ps == [] {
      assert Frames(ps) + tail == tail;
    } else {
      var more := Frames(ps[1..]) + tail;
      assert Frames(ps) + tail == Frame(ps[0]) + more;
      ParseFrameThen(ps[0], more, cap, fault);
      ParseFramesThen(ps[1..], tail, cap, fault);
      PrependCons(ps, Parse(tail, cap, fault));
    }
  }

  /** The round trip: a list of payloads is read back whole and in order, and the
      reader then sees exactly the stream's own error. */
  lemma ParseFrames(ps: seq<Payload>, fault: Error)
    requires Frameable(ps)
    ensures Parse(Frames(ps), BUFFER_SIZE, fault) == Parsed(ps, fault)
  {
    ParseFramesThen(ps, [], BUFFER_SIZE, fault);
    assert Frames(ps) + [] == Frames(ps);
  }

  // ---- parsing then printing ----

  /** A tail that holds no whole frame. */
  predicate Incomplete(bs: seq<Byte>) {
    |bs| < 2 || |bs| - 2 < Big(bs[..2])
  }

  /** The error an incomplete tail ends in. A stream cut between a length and its
      payload ends like one cut at a frame boundary. */
  function TailError(tail: seq<Byte>, fault: Error): Error {
    ShortRead(if |tail| < 2 then |tail| else |tail| - 2, fault)
  }

  /** One read with the relay's buffer either takes a frame off the front or finds
      no whole frame there. */
  lemma ReadFrameCases(bs: seq<Byte>, fault: Error)
    ensures match ReadFrame(bs, BUFFER_SIZE, fault)
            case Got(p, rest) => |p| <= MAX_DATAGRAM && bs == Frame(p) + rest
            case Failed(e, _) => Incomplete(bs) && e == TailError(bs, fault)
  {
    Pow256Values();
    if |bs| >= 2 {
      PutBigOf(bs[..2]);
      assert bs == bs[..2] + bs[2..];
    }
  }

  lemma FramesCons(p: Payload, ps: seq<Payload>, tail: seq<Byte>)
    ensures Frames([p] + ps) + tail == Frame(p) + (Frames(ps) + tail)
    ensures |p| <= MAX_DATAGRAM && Frameable(ps) ==> Frameable([p] + ps)
  {
    assert ([p] + ps)[1..] == ps;
  }

  /** With the relay's buffer every byte string is some list of frames and an
      incomplete tail: the payloads are the frames, the error is the tail's, and no
      datagram is ever too large for the buffer. */
  lemma {:induction false} FramesOfParse(bs: seq<Byte>, fault: Error) returns (tail: seq<Byte>)
    ensures var r := Parse(bs, BUFFER_SIZE, fault);
            && Frameable(r.payloads) && Incomplete(tail)
            && bs == Frames(r.payloads) + tail
            && r.error == TailError(tail, fault)
    decreases |bs|
  {
    ReadFrameCases(bs, fault);
    match ReadFrame(bs, BUFFER_SIZE, fault)
    case Failed(e, _) => tail := bs;
    case Got(p, rest) =>
      tail := FramesOfParse(rest, fault);
      FramesCons(p, Parse(rest, BUFFER_SIZE, fault).payloads, tail);
  }

  /** Only one list of payloads and one incomplete tail make up a byte string. */
  lemma FramesUnique(ps: seq<Payload>, tail: seq<Byte>, fault: Error)
    requires Frameable(ps) && Incomplete(tail)
    ensures Parse(Frames(ps) + tail, BUFFER_SIZE, fault) == Parsed(ps, TailError(tail, fault))
  {
    ParseFramesThen(ps, tail, BUFFER_SIZE, fault);
    Pow256Values();
    if |tail| >= 2 {
      PutBigOf(tail[..2]);
    }
  }

  // ---- truncation ----

  /** The number of whole frames in the first `k` bytes of Frames(ps). */
  function Whole(ps: seq<Payload>, k: nat): (m: nat)
    ensures m <= |ps|
  {
    if ps == [] || k < |Frame(ps[0])| then 0 else 1 + Whole(ps[1..], k - |Frame(ps[0])|)
  }

  lemma CutFrame(p: Payload, k: nat)
    requires |p| <= MAX_DATAGRAM && k < |Frame(p)|
    ensures Incomplete(Frame(p)[..k])
  {
    Pow256Values();
    BigPut(|p|, 2);
    if k >= 2 {
      assert Frame(p)[..k][..2] == PutBig(|p|, 2);
    }
  }

  /** Cutting a concatenation inside its second part. */
  lemma CutBehind(a: seq<Byte>, b: seq<Byte>, k: nat)
    requires k <= |b|
    ensures (a + b)[..|a| + k] == a + b[..k]
  {
  }

  /** The first `k` bytes are `m` whole frames and an incomplete rest. */
  ghost predicate Cut(ps: seq<Payload>, k: nat, m: nat, tail: seq<Byte>)
    requires k <= |Frames(ps)| && m <= |ps|
  {
    && Frames(ps)[..k] == Frames(ps[..m]) + tail && Incomplete(tail)
    && (tail == [] <==> k == |Frames(ps[..m])|) && (m < |ps| ==> |tail| < |Frame(ps[m])|)
  }

  lemma CutFirst(ps: seq<Payload>, k: nat)
    requires Frameable(ps) && ps != [] && k < |Frame(ps[0])| && k <= |Frames(ps)|
    ensures Cut(ps, k, 0, Frame(ps[0])[..k])
  {
    CutFrame(ps[0], k);
    assert Frames(ps)[..k] == Frame(ps[0])[..k];
    assert Frames(ps[..0]) == [];
  }

  lemma FramesPrefix(ps: seq<Payload>, m: nat)
    requires m < |ps|
    ensures Frames(ps[..m + 1]) == Frame(ps[0]) + Frames(ps[1..][..m])
  {
    assert ps[..m + 1][1..] == ps[1..][..m];
  }

  lemma CutLater(ps: seq<Payload>, k: nat, m: nat, tail: seq<Byte>)
    requires ps != [] && m < |ps| && |Frame(ps[0])| <= k <= |Frames(ps)|
    requires Cut(ps[1..], k - |Frame(ps[0])|, m, tail)
    ensures Cut(ps, k, m + 1, tail)
  {
    var f := Frame(ps[0]);
    FramesPrefix(ps, m);
    CutJoined(f, Frames(ps[1..]), Frames(ps[1..][..m]), tail, k - |f|);
  }

  lemma CutJoined(f: seq<Byte>, rest: seq<Byte>, whole: seq<Byte>, tail: seq<Byte>, k: nat)
    requires k <= |rest| && rest[..k] == whole + tail
    ensures (f + rest)[..|f| + k] == f + whole + tail
  {
    CutBehind(f, rest, k);
    assert f + (whole + tail) == f + whole + tail;
  }

  lemma {:induction false} CutFrames(ps: seq<Payload>, k: nat) returns (tail: seq<Byte>)
    requires Frameable(ps) && k <= |Frames(ps)|
    ensures Cut(ps, k, Whole(ps, k), tail)
  {
    if ps == [] {
      tail := [];
    } else if k < |Frame(ps[0])| {
      tail := Frame(ps[0])[..k];
      CutFirst(ps, k);
    } else {
      tail := CutFrames(ps[1..], k - |Frame(ps[0])|);
      CutLater(ps, k, Whole(ps[1..], k - |Frame(ps[0])|), tail);
    }
  }

  /** A stream cut after `k` bytes yields the datagrams whose frames arrived whole
      and then an error. Nothing is invented and nothing is merged. A cut inside a
      frame is reported as UnexpectedEnd except right behind the two length bytes,
      where io.ReadFull reads no byte and reports a plain end of stream. */
  lemma ParseTruncated(ps: seq<Payload>, k: nat)
    requires Frameable(ps) && k <= |Frames(ps)|
    ensures var m := Whole(ps, k);
            && Parse(Frames(ps)[..k], BUFFER_SIZE, EndOfStream).payloads == ps[..m]
            && (Parse(Frames(ps)[..k], BUFFER_SIZE, EndOfStream).error == EndOfStream
                <==> k == |Frames(ps[..m])| || k == |Frames(ps[..m])| + 2)
            && Parse(Frames(ps)[..k], BUFFER_SIZE, EndOfStream).error in {EndOfStream, UnexpectedEnd}
  {
    var tail := CutFrames(ps, k);
    FramesUnique(ps[..Whole(ps, k)], tail, EndOfStream);
  }

  // ---- the stream and the socket ----

  function Flatten(chunks: seq<seq<Byte>>): seq<Byte> {
    if chunks == [] then [] else chunks[0] + Flatten(chunks[1..])
  }

  /** The receiving end of a smux stream. `chunks` is how the network happens to
      cut the bytes still to come; after them every read fails with `fault`. */
  class Stream {
    var chunks: seq<seq<Byte>>
    const fault: Error

    constructor (chunks: seq<seq<Byte>>, fault: Error)
      ensures this.chunks == chunks && this.fault == fault
    {
      this.chunks := chunks;
      this.fault := fault;
    }

    ghost function Pending(): seq<Byte>
      reads this
    {
      Flatten(chunks)
    }

    /** One Read into buf[lo..hi]: at most one chunk, possibly no byte at all. */
    method Read(buf: array<Byte>, lo: nat, hi: nat) returns (n: nat, err: Option<Error>)
      requires lo < hi <= buf.Length
      modifies this, buf
      ensures lo + n <= hi
      ensures buf[..lo] == old(buf[..lo]) && buf[lo + n..] == old(buf[lo + n..])
      ensures old(Pending()) == buf[lo..lo + n] + Pending()
      ensures err.Some? ==> err.value == fault && n == 0 && chunks == old(chunks) && Pending() == []
      ensures err.None? ==> n > 0 || |chunks| < old(|chunks|)
    {
      if chunks == [] {
        return 0, Some(fault);
      }
      var c := chunks[0];
      n := if |c| <= hi - lo then |c| else hi - lo;
      forall i | 0 <= i < n {
        buf[lo + i] := c[i];
      }
      assert buf[lo..lo + n] == c[..n];
      assert Flatten(chunks) == c[..n] + (c[n..] + Flatten(chunks[1..]));
      if n < |c| {
        chunks := chunks[0 := c[n..]];
        assert chunks[1..] == old(chunks)[1..];
      } else {
        chunks := chunks[1..];
        assert c[n..] == [];
      }
      err := None;
    }
  }

  /** io.ReadFull(r, buf[:n]). */
  method ReadFull(r: Stream, buf: array<Byte>, n: nat) returns (err: Option<Error>)
    requires n <= buf.Length
    modifies r, buf
    ensures var bs := old(r.Pending());
            if |bs| >= n
            then err == None && buf[..n] == bs[..n] && r.Pending() == bs[n..]
            else err == Some(ShortRead(|bs|, r.fault)) && r.Pending() == []
    ensures buf[n..] == old(buf[n..])
  {
    var got := 0;
    err := None;
    ghost var bs := r.Pending();
    while got < n && err.None?
      invariant got <= n
      invariant buf[n..] == old(buf[n..])
      invariant bs == buf[..got] + r.Pending()
      invariant err.Some? ==> err.value == r.fault && r.Pending() == [] && got < n
      decreases n - got, |r.chunks|, err.None?
    {
      ghost var head := buf[..got];
      var k, e := r.Read(buf, got, n);
      assert buf[..got + k] == head + buf[got..got + k];
      Regroup(head, buf[got..got + k], r.Pending());
      got := got + k;
      err := e;
    }
    TakeDrop(buf[..got], r.Pending());
    if err.Some? && got > 0 && err.value == EndOfStream {
      err := Some(UnexpectedEnd);
    }
  }

  /** ReadDatagram: the outcome depends on the bytes alone, not on their chunking. */
  method ReadDatagram(r: Stream, buf: array<Byte>) returns (n: nat, err: Option<Error>)
    modifies r, buf
    ensures n <= buf.Length
    ensures match ReadFrame(old(r.Pending()), buf.Length, r.fault)
            case Got(p, rest) => err == None && buf[..n] == p && r.Pending() == rest
            case Failed(e, rest) => err == Some(e) && n == 0 && r.Pending() == rest
  {
    ghost var bs := r.Pending();
    var hdr := new Byte[2];
    err := ReadFull(r, hdr, 2);
    if err.Some? {
      return 0, err;
    }
    assert hdr[..] == hdr[..2] == bs[..2];
    var len := Big(hdr[..]);
    if len == 0 {
      return 0, None;
    }
    if len > buf.Length {
      return 0, Some(TooLarge);
    }
    err := ReadFull(r, buf, len);
    if err.Some? {
      return 0, err;
    }
    return len, None;
  }

  /** The sending end of a stream: after `room` more bytes writes fail. */
  class Writer {
    var out: seq<Byte>
    var room: nat

    constructor (room: nat)
      ensures out == [] && this.room == room
    {
      out, this.room := [], room;
    }

    method Write(b: seq<Byte>) returns (ok: bool)
      modifies this
      ensures ok == (|b| <= old(room))
      ensures out == old(out) + (if ok then b else b[..old(room)])
      ensures room == if ok then old(room) - |b| else 0
    {
      ok := |b| <= room;
      var sent := if ok then b else b[..room];
      out, room := out + sent, room - |sent|;
    }
  }

  /** WriteDatagram: an oversized payload is refused before any byte is written. */
  method WriteDatagram(w: Writer, p: Payload) returns (err: Option<Error>)
    modifies w
    ensures |p| > MAX_DATAGRAM ==> err == Some(TooLarge) && w.out == old(w.out) && w.room == old(w.room)
    ensures |p| <= MAX_DATAGRAM && |Frame(p)| <= old(w.room)
            ==> err == None && w.out == old(w.out) + Frame(p) && w.room == old(w.room) - |Frame(p)|
    ensures |p| <= MAX_DATAGRAM && |Frame(p)| > old(w.room)
            ==> err == Some(WriteFailed) && w.out == old(w.out) + Frame(p)[..old(w.room)] && w.room == 0
  {
    if |p| > MAX_DATAGRAM {
      return Some(TooLarge);
    }
    var frame := PutBig(|p|, 2) + p;
    var ok := w.Write(frame);
    return if ok then None else Some(WriteFailed);
  }

  /** The UDP socket toward the target: after `left` more writes it fails. */
  class Socket {
    var sent: seq<Payload>
    var left: nat

    constructor (left: nat)
      ensures sent == [] && this.left == left
    {
      sent, this.left := [], left;
    }

    method Write(p: Payload) returns (ok: bool)
      modifies this
      ensures ok == (old(left) > 0)
      ensures sent == if ok then old(sent) + [p] else old(sent)
      ensures left == if ok then old(left) - 1 else 0
    {
      ok := left > 0;
      if ok {
        sent, left := sent + [p], left - 1;
      }
    }
  }

  function NonEmpty(ps: seq<Payload>): seq<Payload> {
    if ps == [] then []
    else (if ps[0] == [] then [] else [ps[0]]) + NonEmpty(ps[1..])
  }

  /** The non-empty datagrams of two lists in a row are those of the first and then those
      of the second, and of a single one it is itself unless it is empty. */
  lemma {:induction false} NonEmptyMeans(ps: seq<Payload>, qs: seq<Payload>)
    ensures NonEmpty(ps + qs) == NonEmpty(ps) + NonEmpty(qs)
    ensures |ps| == 1 ==> NonEmpty(ps) == if ps[0] == [] then [] else ps
  {
    if ps == [] {
      assert ps + qs == qs;
    } else {
      assert (ps + qs)[1..] == ps[1..] + qs;
      NonEmptyMeans(ps[1..], qs);
    }
  }

  /** What the relay hands to a socket that accepts `left` more datagrams, and the
      error it stops with. */
  function Relayed(r: Parsed, left: nat): (seq<Payload>, Error) {
    var ps := NonEmpty(r.payloads);
    if |ps| <= left then (ps, r.error) else (ps[..left], WriteFailed)
  }

  lemma RelayedAfter(p: Payload, tail: Parsed, left: nat)
    requires p == [] || left > 0
    ensures var r := Prepend([p], tail);
            if p == [] then Relayed(r, left) == Relayed(tail, left)
            else Relayed(r, left) == ([p] + Relayed(tail, left - 1).0, Relayed(tail, left - 1).1)
  {
    var ps, rest := [p] + tail.payloads, NonEmpty(tail.payloads);
    assert ps[1..] == tail.payloads;
    if p == [] {
      assert NonEmpty(ps) == [] + rest == rest;
    } else {
      assert NonEmpty(ps) == [p] + rest;
      if |rest| > left - 1 {
        assert ([p] + rest)[..left] == [p] + rest[..left - 1];
      }
    }
  }

  /** Forwarding one datagram moves it from what is still to come to what was sent. */
  lemma Forwarded(sent: seq<Payload>, p: Payload, tail: Parsed, left: nat)
    requires p != [] && left > 0
    ensures var r := Prepend([p], tail);
            && sent + Relayed(r, left).0 == sent + [p] + Relayed(tail, left - 1).0
            && Relayed(r, left).1 == Relayed(tail, left - 1).1
  {
    RelayedAfter(p, tail, left);
    assert sent + ([p] + Relayed(tail, left - 1).0) == sent + [p] + Relayed(tail, left - 1).0;
  }

  /** A socket that accepts nothing more stops the relay at the next datagram. */
  lemma Refused(p: Payload, tail: Parsed)
    requires p != []
    ensures Relayed(Prepend([p], tail), 0) == ([], WriteFailed)
  {
    assert ([p] + tail.payloads)[1..] == tail.payloads;
  }

  /** relayUDP, stream to target: forwards exactly the non-empty datagrams of the
      stream, in order, until the stream or the socket fails. */
  method RelayToTarget(strm: Stream, conn: Socket) returns (err: Error)
    modifies strm, conn
    ensures var want := Relayed(Parse(old(strm.Pending()), BUFFER_SIZE, strm.fault), old(conn.left));
            conn.sent == old(conn.sent) + want.0 && err == want.1
  {
    var buf := new Byte[BUFFER_SIZE];
    ghost var want := Relayed(Parse(strm.Pending(), BUFFER_SIZE, strm.fault), conn.left);
    ghost var r := Parse(strm.Pending(), BUFFER_SIZE, strm.fault);
    while true
      invariant fresh(buf) && buf.Length == BUFFER_SIZE
      invariant r == Parse(strm.Pending(), BUFFER_SIZE, strm.fault)
      invariant old(conn.sent) + want.0 == conn.sent + Relayed(r, conn.left).0
      invariant want.1 == Relayed(r, conn.left).1
      decreases |strm.Pending()|
    {
      var n, e := ReadDatagram(strm, buf);
      if e.Some? {
        return e.value;
      }
      ghost var tail := Parse(strm.Pending(), BUFFER_SIZE, strm.fault);
      var p := buf[..n];
      assert r == Prepend([p], tail);
      r := tail;
      if n == 0 {
        RelayedAfter(p, tail, conn.left);
        continue;
      }
      ghost var left, sent := conn.left, conn.sent;
      var ok := conn.Write(p);
      if !ok {
        Refused(p, tail);
        return WriteFailed;
      }
      Forwarded(sent, p, tail, left);
    }
  }

  /** A write that fails cuts the frames still to come. */
  lemma WriteCut(start: seq<Byte>, all: seq<Byte>, room0: nat, before: seq<Byte>,
                 f: seq<Byte>, rest: seq<Byte>, room: nat)
    requires start + all == before + (f + rest) && room <= |f| && room0 <= |all|
    requires |start| + room0 == |before| + room
    ensures start + all[..room0] == before + f[..room]
  {
    CutBehind(start, all, room0);
    CutBehind(before, f + rest, room);
    assert (f + rest)[..room] == f[..room];
  }

  lemma FramesFrom(ps: seq<Payload>, i: nat)
    requires i < |ps|
    ensures Frames(ps[i..]) == Frame(ps[i]) + Frames(ps[i + 1..])
  {
    assert ps[i..][1..] == ps[i + 1..];
  }

  /** relayUDP, target to stream: what arrives on the socket, until it reports an
      error or the stream refuses a write. The bytes written are a prefix of the
      frames, and all of them when nothing fails. */
  method RelayFromTarget(arrivals: seq<Payload>, w: Writer) returns (err: Error)
    requires Frameable(arrivals)
    modifies w
    ensures |Frames(arrivals)| <= old(w.room) ==> err == Fault && w.out == old(w.out) + Frames(arrivals)
    ensures |Frames(arrivals)| > old(w.room)
            ==> err == WriteFailed && w.out == old(w.out) + Frames(arrivals)[..old(w.room)]
  {
    var i := 0;
    ghost var all := Frames(arrivals);
    while i < |arrivals|
      invariant i <= |arrivals|
      invariant |all| == |Frames(arrivals[i..])| + (old(w.room) - w.room)
      invariant w.room <= old(w.room) && |w.out| == |old(w.out)| + old(w.room) - w.room
      invariant old(w.out) + all == w.out + Frames(arrivals[i..])
    {
      ghost var f, rest := Frame(arrivals[i]), Frames(arrivals[i + 1..]);
      FramesFrom(arrivals, i);
      ghost var before, room := w.out, w.room;
      assert Frameable(arrivals) && |arrivals[i]| <= MAX_DATAGRAM;
      var e := WriteDatagram(w, arrivals[i]);
      if e.Some? {
        WriteCut(old(w.out), all, old(w.room), before, f, rest, room);
        return WriteFailed;
      }
      Regroup(before, f, rest);
      i := i + 1;
    }
    assert arrivals[i..] == [];
    return Fault;
  }

  /** End to end: whatever the target side wrote before a failure, the reader at the
      other end gets datagrams that are a prefix of those the target sent. */
  lemma RelayedPrefix(arrivals: seq<Payload>, room: nat, fault: Error)
    requires Frameable(arrivals)
    ensures var bytes := if |Frames(arrivals)| <= room then Frames(arrivals) else Frames(arrivals)[..room];
            && Parse(bytes, BUFFER_SIZE, fault).payloads <= arrivals
            && (|Frames(arrivals)| <= room ==> Parse(bytes, BUFFER_SIZE, fault) == Parsed(arrivals, fault))
  {
    if |Frames(arrivals)| <= room {
      ParseFrames(arrivals, fault);
    } else {
      var tail := CutFrames(arrivals, room);
      FramesUnique(arrivals[..Whole(arrivals, room)], tail, fault);
    }
  }
}
