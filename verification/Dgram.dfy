/** The flow header of a QUIC datagram (protocol/dgram.go): an eight-byte
    big-endian flow identifier in front of the payload. */
module Dgram {
  import opened Bytes

  const HEADER_LEN: nat := 8

  datatype Decoded = Short | Flow(id: Word, payload: seq<Byte>)

  function Encode(id: Word, payload: seq<Byte>): seq<Byte> {
    PutBig(id, HEADER_LEN) + payload
  }

  function Decode(b: seq<Byte>): Decoded {
    if |b| < HEADER_LEN then Short
    else
      PutBigOf(b[..HEADER_LEN]);
      Pow256Values();
      Flow(Big(b[..HEADER_LEN]), b[HEADER_LEN..])
  }

  /** Every flow identifier and payload comes back from its encoding. */
  lemma DecodeEncode(id: Word, payload: seq<Byte>)
    ensures Decode(Encode(id, payload)) == Flow(id, payload)
  {
    Pow256Values();
    BigPut(id, HEADER_LEN);
    assert Encode(id, payload)[..HEADER_LEN] == PutBig(id, HEADER_LEN);
  }

  /** Every byte string long enough to hold a header is the encoding of exactly
      what is decoded from it; shorter ones are rejected. */
  lemma EncodeDecode(b: seq<Byte>)
    ensures Decode(b) == Short <==> |b| < HEADER_LEN
    ensures forall id: Word, payload :: Decode(b) == Flow(id, payload) <==> b == Encode(id, payload)
  {
    forall id: Word, payload | b == Encode(id, payload)
      ensures Decode(b) == Flow(id, payload)
    {
      DecodeEncode(id, payload);
    }
    if |b| >= HEADER_LEN {
      PutBigOf(b[..HEADER_LEN]);
      assert b == b[..HEADER_LEN] + b[HEADER_LEN..];
    }
  }

  /** EncodeDatagram: allocate, put the identifier, copy the payload. */
  method EncodeDatagram(id: Word, payload: array<Byte>, n: nat) returns (out: array<Byte>)
    requires n <= payload.Length
    ensures fresh(out) && out[..] == Encode(id, payload[..n])
  {
    out := new Byte[HEADER_LEN + n];
    var v: nat := id;
    var i: nat := HEADER_LEN;
    while i > 0
      invariant i <= HEADER_LEN && out.Length == HEADER_LEN + n
      invariant PutBig(v, i) + out[i..HEADER_LEN] == PutBig(id, HEADER_LEN)
    {
      assert PutBig(v, i) == PutBig(v / 256, i - 1) + [v % 256];
      i := i - 1;
      out[i] := v % 256;
      v := v / 256;
      assert out[i..HEADER_LEN] == [out[i]] + out[i + 1..HEADER_LEN];
    }
    for k := 0 to n
      invariant out.Length == HEADER_LEN + n
      invariant out[..HEADER_LEN] == PutBig(id, HEADER_LEN)
      invariant out[HEADER_LEN..HEADER_LEN + k] == payload[..k]
    {
      out[HEADER_LEN + k] := payload[k];
    }
    assert out[..] == out[..HEADER_LEN] + out[HEADER_LEN..HEADER_LEN + n];
  }
}
