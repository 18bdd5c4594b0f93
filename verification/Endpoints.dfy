/** From a configuration to the list of upstream endpoints (UpstreamEndpoints in
    config/upstream.go). */
module Endpoints {
  import opened Options
  import opened Text
  import opened Config

  datatype Addr = Addr(ip: string, port: int)

  /** netutil.ParseUDPAddr, whose address syntax is the standard library's. */
  type AddrParser = string -> Option<Addr>

  datatype Endpoint = Endpoint(name: string, addr: Addr, key: string, weight: Int, priority: Int,
                               transport: Transport)

  datatype Resolution = Endpoints(eps: seq<Endpoint>) | Fails(error: Error)

  /** The key of a server's endpoint: its own, trimmed, or the global one. */
  function ServerKey(c: Config, s: Server): string {
    if Blank(s.key) then c.transport.kcp.key else Trim(s.key)
  }

  function EndpointOf(c: Config, s: Server, i: nat, addr: Addr): Endpoint {
    var merged := MergeTransport(c.transport, s.transport);
    Endpoint(ServerName(s, i), addr, ServerKey(c, s), if s.weight < 1 then 1 else s.weight,
             if s.priority < 1 then PositionPriority(i) else s.priority,
             merged.(kcp := merged.kcp.(key := ServerKey(c, s))))
  }

  /** A server without priority ranks by its position. */
  function PositionPriority(i: nat): Int {
    if i < MAX_INT64 then i + 1 else MAX_INT64
  }

  /** The endpoint of server number `i`, if there is one and its address parses. */
  function EndpointAt(c: Config, parse: AddrParser, ss: seq<Server>, i: nat): Option<Endpoint> {
    if i < |ss| && parse(ss[i].addr).Some? then Some(EndpointOf(c, ss[i], i, parse(ss[i].addr).value))
    else None
  }

  type Maker = nat -> Option<Endpoint>

  function MakerOf(c: Config, parse: AddrParser, ss: seq<Server>): Maker {
    (i: nat) => EndpointAt(c, parse, ss, i)
  }

  /** The endpoints `make` yields for the first `n` servers, in order, or the first
      server for which it yields none. */
  function Resolve(make: Maker, n: nat): Resolution {
    if n == 0 then Endpoints([])
    else match Resolve(make, n - 1)
         case Fails(e) => Fails(e)
         case Endpoints(eps) =>
           match make(n - 1)
           case None => Fails(BadAddr(n - 1))
           case Some(ep) => Endpoints(eps + [ep])
  }

  // ---- sort.SliceStable ----

  predicate Before(a: Endpoint, b: Endpoint) {
    if a.priority == b.priority then Less(a.name, b.name) else a.priority < b.priority
  }

  function Insert(ys: seq<Endpoint>, x: Endpoint): seq<Endpoint> {
    if ys == [] || !Before(x, ys[|ys| - 1]) then ys + [x]
    else Insert(ys[..|ys| - 1], x) + [ys[|ys| - 1]]
  }

  function SortStable(xs: seq<Endpoint>): seq<Endpoint> {
    if xs == [] then [] else Insert(SortStable(xs[..|xs| - 1]), xs[|xs| - 1])
  }

  predicate Sorted(xs: seq<Endpoint>) {
    forall i, j | 0 <= i < j < |xs| :: !Before(xs[j], xs[i])
  }

  lemma BeforeOrder(a: Endpoint, b: Endpoint, c: Endpoint)
    ensures !(Before(a, b) && Before(b, a))
    ensures Before(a, b) && !Before(c, b) ==> Before(a, c)
    ensures !Before(a, b) && !Before(b, a) <==> a.priority == b.priority && a.name == b.name
  {
    LessTotal(a.name, b.name);
    LessTotal(c.name, b.name);
    if Before(a, b) && !Before(c, b) && a.priority == b.priority == c.priority {
      if c.name != b.name {
        LessTransitive(a.name, b.name, c.name);
      }
    }
  }

  lemma {:induction false} InsertSorted(ys: seq<Endpoint>, x: Endpoint)
    requires Sorted(ys)
    ensures Sorted(Insert(ys, x)) && multiset(Insert(ys, x)) == multiset(ys) + multiset{x}
    ensures |Insert(ys, x)| == |ys| + 1
  {
    if ys == [] {
    } else if !Before(x, ys[|ys| - 1]) {
      var last := ys[|ys| - 1];
      forall i | 0 <= i < |ys|
        ensures !Before(x, ys[i])
      {
        if i < |ys| - 1 {
          BeforeOrder(x, ys[i], last);
        }
      }
    } else {
      var n := |ys| - 1;
      var zs := Insert(ys[..n], x);
      InsertSorted(ys[..n], x);
      assert ys == ys[..n] + [ys[n]];
      forall i | 0 <= i < |zs|
        ensures !Before(ys[n], zs[i])
      {
        assert zs[i] in multiset(zs);
        if zs[i] == x {
          BeforeOrder(x, ys[n], x);
        } else {
          assert zs[i] in ys[..n];
        }
      }
    }
  }

  /** The sort really sorts, and only permutes. */
  lemma {:induction false} SortStableSorts(xs: seq<Endpoint>)
    ensures Sorted(SortStable(xs)) && multiset(SortStable(xs)) == multiset(xs) && |SortStable(xs)| == |xs|
  {
    if xs == [] {
    } else {
      var n := |xs| - 1;
      SortStableSorts(xs[..n]);
      InsertSorted(SortStable(xs[..n]), xs[n]);
      assert xs == xs[..n] + [xs[n]];
    }
  }

  /** `x`, if it has the rank of `e`. */
  function OfRank(x: Endpoint, e: Endpoint): seq<Endpoint> {
    if x.priority == e.priority && x.name == e.name then [x] else []
  }

  /** The endpoints with the rank of `e`, in order. */
  function Ranked(xs: seq<Endpoint>, e: Endpoint): seq<Endpoint> {
    if xs == [] then [] else Ranked(xs[..|xs| - 1], e) + OfRank(xs[|xs| - 1], e)
  }

  lemma RankedSnoc(ys: seq<Endpoint>, x: Endpoint, e: Endpoint)
    ensures Ranked(ys + [x], e) == Ranked(ys, e) + OfRank(x, e)
  {
    assert (ys + [x])[..|ys|] == ys;
  }

  lemma BeforeDiffers(x: Endpoint, y: Endpoint, e: Endpoint)
    requires Before(x, y)
    ensures OfRank(x, e) == [] || OfRank(y, e) == []
  {
    BeforeOrder(x, y, x);
  }

  lemma EitherEmpty(r: seq<Endpoint>, p: seq<Endpoint>, q: seq<Endpoint>)
    requires p == [] || q == []
    ensures r + p + q == r + q + p
  {
    assert r + p + q == r + q + p;
  }

  lemma {:induction false} InsertKeepsRank(ys: seq<Endpoint>, x: Endpoint, e: Endpoint)
    ensures Ranked(Insert(ys, x), e) == Ranked(ys, e) + OfRank(x, e)
  {
    if ys == [] || !Before(x, ys[|ys| - 1]) {
      RankedSnoc(ys, x, e);
    } else {
      var n := |ys| - 1;
      InsertKeepsRank(ys[..n], x, e);
      RankedSnoc(Insert(ys[..n], x), ys[n], e);
      BeforeDiffers(x, ys[n], e);
      EitherEmpty(Ranked(ys[..n], e), OfRank(x, e), OfRank(ys[n], e));
    }
  }

  /** Servers with one name and priority stay in configuration order. */
  lemma {:induction false} SortStableIsStable(xs: seq<Endpoint>, e: Endpoint)
    ensures Ranked(SortStable(xs), e) == Ranked(xs, e)
  {
    if xs == [] {
    } else {
      var n := |xs| - 1;
      SortStableIsStable(xs[..n], e);
      InsertKeepsRank(SortStable(xs[..n]), xs[n], e);
    }
  }

  // ---- UpstreamEndpoints ----

  function ServersOf(c: Config): seq<Server> {
    if c.upstream.Some? then c.upstream.value.servers else []
  }

  function UpstreamEndpoints(c: Config, parse: AddrParser): Resolution {
    if HasServers(c) then
      match Resolve(MakerOf(c, parse, ServersOf(c)), |ServersOf(c)|)
      case Fails(e) => Fails(e)
      case Endpoints(eps) => Endpoints(SortStable(eps))
    else if HasServerAddr(c) then
      match parse(c.server.value)
      case None => Fails(BadAddr(0))
      case Some(a) => Endpoints([Endpoint("default", a, c.transport.kcp.key, 1, 1, c.transport)])
    else Fails(NoUpstream)
  }

  function Names(eps: seq<Endpoint>): set<string> {
    set i | 0 <= i < |eps| :: eps[i].name
  }

  /** `eps` is what `make` yields for the first servers, one each, in order. */
  ghost predicate InOrder(make: Maker, eps: seq<Endpoint>) {
    forall k: nat | k < |eps| :: make(k) == Some(eps[k])
  }

  lemma {:induction false} ResolveInOrder(make: Maker, n: nat)
    requires Resolve(make, n).Endpoints?
    ensures |Resolve(make, n).eps| == n && InOrder(make, Resolve(make, n).eps)
  {
    if n == 0 {
    } else {
      ResolveInOrder(make, n - 1);
    }
  }

  lemma {:induction false} ResolveFails(make: Maker, n: nat)
    requires Resolve(make, n).Fails?
    ensures exists i: nat :: i < n && make(i) == None
  {
    if n > 0 && Resolve(make, n - 1).Fails? {
      ResolveFails(make, n - 1);
    }
  }

  /** The endpoints resolved are those of all servers, permuted, in order of priority
      and then name, and stable among equals; none are, exactly when some server has
      none. */
  lemma SortedResolve(make: Maker, n: nat) returns (eps: seq<Endpoint>)
    ensures Resolve(make, n).Fails? <==> exists i: nat :: i < n && make(i) == None
    ensures Resolve(make, n).Endpoints? ==>
              var out := SortStable(Resolve(make, n).eps);
              && |eps| == n && InOrder(make, eps)
              && multiset(out) == multiset(eps) && |out| == n && Sorted(out)
              && forall e :: Ranked(out, e) == Ranked(eps, e)
  {
    if Resolve(make, n).Fails? {
      ResolveFails(make, n);
      eps := [];
    } else {
      eps := Resolve(make, n).eps;
      ResolveInOrder(make, n);
      SortStableSorts(eps);
      forall e
        ensures Ranked(SortStable(eps), e) == Ranked(eps, e)
      {
        SortStableIsStable(eps, e);
      }
      forall i: nat | i < n
        ensures make(i) != None
      {
        assert make(i) == Some(eps[i]);
      }
    }
  }

  lemma SameMembers(xs: seq<Endpoint>, ys: seq<Endpoint>, k: nat) returns (i: nat)
    requires multiset(xs) == multiset(ys) && k < |xs|
    ensures i < |ys| && ys[i] == xs[k]
  {
    assert xs[k] in multiset(ys);
    i :| i < |ys| && ys[i] == xs[k];
  }

  /** The server of an endpoint of the result. */
  lemma OriginOf(make: Maker, n: nat, k: nat) returns (i: nat)
    requires Resolve(make, n).Endpoints? && k < |SortStable(Resolve(make, n).eps)|
    ensures i < n && make(i) == Some(SortStable(Resolve(make, n).eps)[k])
  {
    var eps := SortedResolve(make, n);
    i := SameMembers(SortStable(Resolve(make, n).eps), eps, k);
  }

  /** The endpoint of a server in the result. */
  lemma EndpointFor(make: Maker, n: nat, i: nat) returns (k: nat)
    requires Resolve(make, n).Endpoints? && i < n
    ensures k < |SortStable(Resolve(make, n).eps)| && make(i) == Some(SortStable(Resolve(make, n).eps)[k])
  {
    var eps := SortedResolve(make, n);
    k := SameMembers(eps, SortStable(Resolve(make, n).eps), i);
  }

  lemma EndpointAtName(c: Config, parse: AddrParser, ss: seq<Server>, i: nat)
    ensures EndpointAt(c, parse, ss, i).Some? ==>
              i < |ss| && EndpointAt(c, parse, ss, i).value.name == ServerName(ss[i], i)
  {
  }

  /** The names of the endpoints are exactly the names bind_upstream is checked
      against, although the two are computed apart. */
  lemma EndpointNames(c: Config, parse: AddrParser)
    requires UpstreamEndpoints(c, parse).Endpoints?
    ensures Names(UpstreamEndpoints(c, parse).eps) == NameSet(c)
    ensures UpstreamEndpoints(c, parse).eps != []
  {
    var out := UpstreamEndpoints(c, parse).eps;
    if HasServers(c) {
      var ss := ServersOf(c);
      var make := MakerOf(c, parse, ss);
      NamesWithin(c, parse);
      NamesCover(c, parse);
      var k := EndpointFor(make, |ss|, 0);
    } else {
      assert out[0].name == "default";
    }
  }

  lemma NamesWithin(c: Config, parse: AddrParser)
    requires HasServers(c) && UpstreamEndpoints(c, parse).Endpoints?
    ensures Names(UpstreamEndpoints(c, parse).eps) <= NameSet(c)
  {
    var out, ss := UpstreamEndpoints(c, parse).eps, ServersOf(c);
    forall name | name in Names(out)
      ensures name in NameSet(c)
    {
      var k: nat :| k < |out| && out[k].name == name;
      var i := OriginOf(MakerOf(c, parse, ss), |ss|, k);
      EndpointAtName(c, parse, ss, i);
    }
  }

  lemma NamesCover(c: Config, parse: AddrParser)
    requires HasServers(c) && UpstreamEndpoints(c, parse).Endpoints?
    ensures NameSet(c) <= Names(UpstreamEndpoints(c, parse).eps)
  {
    var out, ss := UpstreamEndpoints(c, parse).eps, ServersOf(c);
    forall name | name in NameSet(c)
      ensures name in Names(out)
    {
      var i: nat :| i < |ss| && ServerName(ss[i], i) == name;
      var k := EndpointFor(MakerOf(c, parse, ss), |ss|, i);
      EndpointAtName(c, parse, ss, i);
    }
  }
}
