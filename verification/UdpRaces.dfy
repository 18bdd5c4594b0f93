/** Overlapping calls on the pool's table of UDP streams (tunnelpool/pool.go): OpenUDP
    looks its key up under a read lock, dials, and stores the stream under a later write
    lock without looking again. */
module UdpRaces {
  import opened Bytes

  type Stream = nat

  /** Stands for a call of OpenUDP. */
  type Call = nat

  /** `pending` are the calls that found their key unused and are dialling, `handed` and
      `closed` the streams that were stored and those that were closed. */
  datatype Sys = Sys(udp: map<Word, Stream>, pending: map<Call, Word>, handed: set<Stream>, closed: set<Stream>)

  const START := Sys(map[], map[], {}, {})

  datatype Act =
    | LookUp(c: Call, key: Word)
    | GiveUp(c: Call)
    | Store(c: Call, strm: Stream)
    | CloseKey(key: Word)

  predicate Can(s: Sys, a: Act) {
    match a
    case LookUp(c, _) => c !in s.pending
    case GiveUp(c) => c in s.pending
    case Store(c, strm) => c in s.pending && strm !in s.handed
    case CloseKey(_) => true
  }

  function Do(s: Sys, a: Act): Sys
    requires Can(s, a)
  {
    match a
    // a key in use is answered with its stream
    case LookUp(c, key) => if key in s.udp then s else s.(pending := s.pending[c := key])
    case GiveUp(c) => s.(pending := s.pending - {c})
    case Store(c, strm) =>
      s.(udp := s.udp[s.pending[c] := strm], pending := s.pending - {c}, handed := s.handed + {strm})
    case CloseKey(key) =>
      if key in s.udp then s.(udp := s.udp - {key}, closed := s.closed + {s.udp[key]}) else s
  }

  ghost predicate StepAt(ss: seq<Sys>, acts: seq<Act>, i: nat)
    requires |ss| == |acts| + 1 && i < |acts|
  {
    Can(ss[i], acts[i]) && ss[i + 1] == Do(ss[i], acts[i])
  }

  ghost predicate Runs(ss: seq<Sys>, acts: seq<Act>) {
    && |ss| == |acts| + 1 && ss[0] == START
    && forall i: nat {:trigger StepAt(ss, acts, i)} | i < |acts| :: StepAt(ss, acts, i)
  }

  // ---- lost streams ----

  /** The stream was handed out, is not closed, and no CloseUDP can close it any more. */
  predicate Lost(s: Sys, x: Stream) {
    x in s.handed && x !in s.closed && forall k :: k in s.udp ==> s.udp[k] != x
  }

  /** The table holds open streams that were handed out, each under one key. */
  ghost predicate TableOk(s: Sys) {
    && (forall k :: k in s.udp ==> s.udp[k] in s.handed && s.udp[k] !in s.closed)
    && (forall k, l :: k in s.udp && l in s.udp && s.udp[k] == s.udp[l] ==> k == l)
    && s.closed <= s.handed
  }

  /** A call stores its stream under a key that is in use by now. */
  predicate Overwrites(s: Sys, a: Act) {
    a.Store? && a.c in s.pending && s.pending[a.c] in s.udp
  }

  lemma StepKeepsTable(s: Sys, a: Act)
    requires TableOk(s) && Can(s, a)
    ensures TableOk(Do(s, a))
  {
  }

  lemma LostStaysLost(s: Sys, a: Act, x: Stream)
    requires TableOk(s) && Can(s, a) && Lost(s, x)
    ensures Lost(Do(s, a), x)
  {
  }

  lemma OverwrittenIsLost(s: Sys, a: Act)
    requires TableOk(s) && Can(s, a) && Overwrites(s, a)
    ensures Lost(Do(s, a), s.udp[s.pending[a.c]])
  {
  }

  lemma OnlyOverwrittenIsLost(s: Sys, a: Act, x: Stream)
    requires TableOk(s) && Can(s, a) && !Overwrites(s, a) && Lost(Do(s, a), x)
    ensures Lost(s, x)
  {
    var r := Do(s, a);
    forall k | k in s.udp
      ensures s.udp[k] != x
    {
      assert k in r.udp ==> r.udp[k] == s.udp[k];
    }
    if a.Store? {
      assert r.udp[s.pending[a.c]] == a.strm;
    }
  }

  lemma {:induction false} RunTableOk(ss: seq<Sys>, acts: seq<Act>, n: nat)
    requires Runs(ss, acts) && n < |ss|
    ensures TableOk(ss[n])
  {
    if n == 0 {
    } else {
      RunTableOk(ss, acts, n - 1);
      assert StepAt(ss, acts, n - 1);
      StepKeepsTable(ss[n - 1], acts[n - 1]);
    }
  }

  // ---- what the table holds ----

  /** Step `j` stores a stream under `key`. */
  predicate Stores(ss: seq<Sys>, acts: seq<Act>, j: nat, key: Word)
    requires |ss| == |acts| + 1 && j < |acts|
  {
    acts[j].Store? && acts[j].c in ss[j].pending && ss[j].pending[acts[j].c] == key
  }

  /** No CloseUDP of `key` between steps `j` and `i`. */
  ghost predicate Unclosed(acts: seq<Act>, key: Word, j: nat, i: nat)
    requires i <= |acts|
  {
    forall l | j < l < i :: acts[l] != CloseKey(key)
  }

  /** A key is in use if and only if a stream was stored under it and none of its closes
      came since. */
  lemma {:induction false} InUseIff(ss: seq<Sys>, acts: seq<Act>, i: nat, key: Word)
    requires Runs(ss, acts) && i < |ss|
    ensures key in ss[i].udp <==> exists j: nat :: j < i && Stores(ss, acts, j, key) && Unclosed(acts, key, j, i)
  {
    if i == 0 {
    } else {
      var k := i - 1;
      InUseIff(ss, acts, k, key);
      assert StepAt(ss, acts, k);
      if key in ss[i].udp {
        if Stores(ss, acts, k, key) {
          assert Unclosed(acts, key, k, i);
        } else {
          var j: nat :| j < k && Stores(ss, acts, j, key) && Unclosed(acts, key, j, k);
          assert Unclosed(acts, key, j, i);
        }
      }
      if j: nat :| j < i && Stores(ss, acts, j, key) && Unclosed(acts, key, j, i) {
        if j < k {
          assert Unclosed(acts, key, j, k);
        }
      }
    }
  }

  // ---- when a stream is lost ----

  /** Two calls for `key` store a stream, at steps `j` and `i`, and nobody closes the key
      in between. */
  ghost predicate StoredTwice(ss: seq<Sys>, acts: seq<Act>, j: nat, i: nat, key: Word)
    requires |ss| == |acts| + 1 && i < |acts|
  {
    j < i && Stores(ss, acts, j, key) && Stores(ss, acts, i, key) && Unclosed(acts, key, j, i)
  }

  ghost predicate Races(ss: seq<Sys>, acts: seq<Act>, n: nat)
    requires |ss| == |acts| + 1 && n < |ss|
  {
    exists j: nat, i: nat, key :: i < n && StoredTwice(ss, acts, j, i, key)
  }

  lemma OverwritesIff(ss: seq<Sys>, acts: seq<Act>, i: nat)
    requires Runs(ss, acts) && i < |acts|
    ensures Overwrites(ss[i], acts[i]) <==> exists j: nat, key :: StoredTwice(ss, acts, j, i, key)
  {
    assert StepAt(ss, acts, i);
    if acts[i].Store? {
      var key := ss[i].pending[acts[i].c];
      InUseIff(ss, acts, i, key);
      if key in ss[i].udp {
        var j: nat :| j < i && Stores(ss, acts, j, key) && Unclosed(acts, key, j, i);
        assert StoredTwice(ss, acts, j, i, key);
      }
    }
  }

  /** When interleaved calls lose a stream, exactly: by state `n` one is lost if and only
      if two calls for one key have stored their streams with no CloseUDP of the key in
      between. */
  lemma {:induction false} LossIff(ss: seq<Sys>, acts: seq<Act>, n: nat)
    requires Runs(ss, acts) && n < |ss|
    ensures (exists x :: Lost(ss[n], x)) <==> Races(ss, acts, n)
  {
    if n == 0 {
    } else {
      var i := n - 1;
      LossIff(ss, acts, i);
      RunTableOk(ss, acts, i);
      OverwritesIff(ss, acts, i);
      assert StepAt(ss, acts, i);
      if x :| Lost(ss[i], x) {
        LostStaysLost(ss[i], acts[i], x);
        var j: nat, l: nat, key :| l < i && StoredTwice(ss, acts, j, l, key);
        assert l < n;
      } else if Overwrites(ss[i], acts[i]) {
        OverwrittenIsLost(ss[i], acts[i]);
        var j: nat, key :| StoredTwice(ss, acts, j, i, key);
        assert i < n;
      } else {
        if x :| Lost(ss[n], x) {
          OnlyOverwrittenIsLost(ss[i], acts[i], x);
        }
        forall j: nat, l: nat, key | l < n && StoredTwice(ss, acts, j, l, key)
          ensures l < i
        {
        }
      }
    }
  }

  /** Such calls overlap: the later one had found the key unused, and was dialling, when
      the earlier one stored its stream. So calls for one key that do not overlap lose
      nothing. */
  lemma {:induction false} RaceOverlaps(ss: seq<Sys>, acts: seq<Act>, j: nat, i: nat, key: Word, c: Call)
    requires Runs(ss, acts) && j < i < |ss| && Stores(ss, acts, j, key) && Unclosed(acts, key, j, i)
    requires c in ss[i].pending && ss[i].pending[c] == key
    ensures c in ss[j].pending && ss[j].pending[c] == key && c != acts[j].c
    decreases i
  {
    assert StepAt(ss, acts, i - 1);
    if i - 1 > j {
      assert Unclosed(acts, key, j, i - 1);
      InUseIff(ss, acts, i - 1, key);
      RaceOverlaps(ss, acts, j, i - 1, key, c);
    }
  }

  /** The shortest such run. The first call's stream is lost, and the CloseUDP with which
      its reader ends closes the stream of the second. */
  lemma TwoOpensWitness(key: Word) returns (ss: seq<Sys>, acts: seq<Act>)
    ensures Runs(ss, acts) && acts == [LookUp(1, key), LookUp(2, key), Store(1, 7), Store(2, 8), CloseKey(key)]
    ensures Lost(ss[5], 7) && ss[5].closed == {8} && ss[5].handed == {7, 8}
  {
    acts := [LookUp(1, key), LookUp(2, key), Store(1, 7), Store(2, 8), CloseKey(key)];
    var s1 := Do(START, acts[0]);
    var s2 := Do(s1, acts[1]);
    var s3 := Do(s2, acts[2]);
    var s4 := Do(s3, acts[3]);
    ss := [START, s1, s2, s3, s4, Do(s4, acts[4])];
    assert forall i: nat {:trigger StepAt(ss, acts, i)} | i < 5 :: StepAt(ss, acts, i);
  }
}
