/** What a server's texts and numbers make of its endpoint, for every configuration that
    resolves and in particular for every one that Validate accepts. */
module EndpointFacts {
  import opened Options
  import opened Text
  import opened Config
  import opened Endpoints
  import ConfigFacts
  import ResolvedFacts

  // ---- overrides ----

  /** A text of a transport block: set in the override, or else the global one. */
  predicate TextOf(base: string, over: string, r: string) {
    if over == "" then r == base else r == over
  }

  predicate NumberOf(base: int, over: int, r: int) {
    if over > 0 then r == over else r == base
  }

  /** Field by field, what a server overrides wins and the rest is the global block's. The
      key is the endpoint's own. */
  predicate Overlay(base: Transport, o: Transport, r: Transport) {
    && TextOf(base.protocol, o.protocol, r.protocol) && NumberOf(base.conn, o.conn, r.conn)
    && TextOf(base.kcp.mode, o.kcp.mode, r.kcp.mode) && TextOf(base.kcp.block, o.kcp.block, r.kcp.block)
    && NumberOf(base.kcp.mtu, o.kcp.mtu, r.kcp.mtu) && NumberOf(base.kcp.dataShard, o.kcp.dataShard, r.kcp.dataShard)
    && NumberOf(base.kcp.parityShard, o.kcp.parityShard, r.kcp.parityShard)
    && NumberOf(base.kcp.sndWnd, o.kcp.sndWnd, r.kcp.sndWnd) && NumberOf(base.kcp.rcvWnd, o.kcp.rcvWnd, r.kcp.rcvWnd)
    && TextOf(base.quic.alpn, o.quic.alpn, r.quic.alpn)
    && TextOf(base.quic.idleTimeout, o.quic.idleTimeout, r.quic.idleTimeout)
    && TextOf(base.quic.maxIdleTimeout, o.quic.maxIdleTimeout, r.quic.maxIdleTimeout)
  }

  /** A transport block in which nothing is set. */
  const UNSET := Transport("", 0, Kcp("", "", "", 0, 0, 0, 0, 0), Quic("", "", ""))

  /** Overriding is idempotent, and its unit is the unset block. */
  lemma MergeLaws(base: Transport, o: Transport)
    ensures MergeTransport(MergeTransport(base, Some(o)), Some(o)) == MergeTransport(base, Some(o))
    ensures MergeTransport(base, Some(UNSET)) == base == MergeTransport(base, None)
    ensures Overlay(base, o, MergeTransport(base, Some(o)))
    ensures TextOf(base.kcp.key, o.kcp.key, MergeTransport(base, Some(o)).kcp.key)
  {
  }

  // ---- endpoints ----

  /** `ep` is the endpoint of server `s`, the `i`-th. */
  ghost predicate Describes(c: Config, s: Server, i: nat, parse: AddrParser, ep: Endpoint) {
    && parse(s.addr) == Some(ep.addr)
    && ep.name == (if Blank(s.name) then "upstream-" + Itoa(i + 1) else Trim(s.name))
    && ep.key == (if Blank(s.key) then c.transport.kcp.key else Trim(s.key))
    && ep.transport.kcp.key == ep.key
    && ep.weight == (if s.weight >= 1 then s.weight else 1)
    && (s.priority >= 1 ==> ep.priority == s.priority)
    && (s.priority < 1 && i < MAX_INT64 ==> ep.priority == i + 1)
    && if s.transport.None?
       then ep.transport.(kcp := ep.transport.kcp.(key := c.transport.kcp.key)) == c.transport
       else Overlay(c.transport, s.transport.value, ep.transport)
  }

  lemma EndpointDescribed(c: Config, parse: AddrParser, ss: seq<Server>, i: nat)
    requires i < |ss| && EndpointAt(c, parse, ss, i).Some?
    ensures Describes(c, ss[i], i, parse, EndpointAt(c, parse, ss, i).value)
  {
    if ss[i].transport.Some? {
      MergeLaws(c.transport, ss[i].transport.value);
    }
  }

  /** Every endpoint that a configuration with servers resolves to is that of one of its
      servers. */
  lemma EndpointFields(c: Config, parse: AddrParser, k: nat) returns (i: nat)
    requires HasServers(c) && UpstreamEndpoints(c, parse).Endpoints? && k < |UpstreamEndpoints(c, parse).eps|
    ensures i < |ServersOf(c)| && Describes(c, ServersOf(c)[i], i, parse, UpstreamEndpoints(c, parse).eps[k])
  {
    i := OriginOf(MakerOf(c, parse, ServersOf(c)), |ServersOf(c)|, k);
    EndpointDescribed(c, parse, ServersOf(c), i);
  }

  /** And every one of its servers has one. */
  lemma ServerResolved(c: Config, parse: AddrParser, i: nat) returns (k: nat)
    requires HasServers(c) && UpstreamEndpoints(c, parse).Endpoints? && i < |ServersOf(c)|
    ensures k < |UpstreamEndpoints(c, parse).eps|
    ensures Describes(c, ServersOf(c)[i], i, parse, UpstreamEndpoints(c, parse).eps[k])
  {
    k := EndpointFor(MakerOf(c, parse, ServersOf(c)), |ServersOf(c)|, i);
    EndpointDescribed(c, parse, ServersOf(c), i);
  }

  /** If the configuration was accepted by Validate the secret that the client shares with
      a server is always that server's own. */
  lemma AcceptedEndpointFields(c0: Config, parse: AddrParser, k: nat) returns (i: nat)
    requires Validate(c0).1 == None && HasServers(c0) && UpstreamEndpoints(Validate(c0).0, parse).Endpoints?
    requires k < |UpstreamEndpoints(Validate(c0).0, parse).eps|
    ensures i < |ServersOf(c0)|
    ensures var (c, s, ep) := (Validate(c0).0, ServersOf(c0)[i], UpstreamEndpoints(Validate(c0).0, parse).eps[k]);
            && Describes(c, s, i, parse, ep) && !Blank(s.key) && ep.key == ep.transport.kcp.key == Trim(s.key)
  {
    var c := Validate(c0).0;
    ResolvedFacts.ValidateKeeps(c0);
    ConfigFacts.ValidateIdempotent(c0);
    i := EndpointFields(c, parse, k);
    ResolvedFacts.AcceptedServers(c, i);
  }

  /** The older form with a single server address. */
  lemma DefaultEndpoint(c: Config, parse: AddrParser)
    requires !HasServers(c)
    ensures UpstreamEndpoints(c, parse).Endpoints? <==> HasServerAddr(c) && parse(c.server.value).Some?
    ensures UpstreamEndpoints(c, parse).Endpoints? ==>
              var eps := UpstreamEndpoints(c, parse).eps;
              && |eps| == 1 && eps[0].name == "default" && parse(c.server.value) == Some(eps[0].addr)
              && eps[0].weight == eps[0].priority == 1 && eps[0].transport == c.transport
              && eps[0].key == eps[0].transport.kcp.key
    ensures UpstreamEndpoints(c, parse) == Fails(NoUpstream) <==> !HasServerAddr(c)
  {
  }

  /** Endpoints come in order of priority, the smallest number first, and among equals in
      order of name. */
  lemma RankMeans(c: Config, parse: AddrParser, i: nat, j: nat)
    requires UpstreamEndpoints(c, parse).Endpoints? && i < j < |UpstreamEndpoints(c, parse).eps|
    ensures var (a, b) := (UpstreamEndpoints(c, parse).eps[i], UpstreamEndpoints(c, parse).eps[j]);
            a.priority < b.priority || (a.priority == b.priority && (a.name == b.name || Less(a.name, b.name)))
  {
    var eps := UpstreamEndpoints(c, parse).eps;
    if HasServers(c) {
      SortStableSorts(Resolve(MakerOf(c, parse, ServersOf(c)), |ServersOf(c)|).eps);
      LessTotal(eps[i].name, eps[j].name);
    }
  }

  lemma {:induction false} FirstFailure(make: Maker, n: nat, i: nat)
    requires i < n
    ensures Resolve(make, n) == Fails(BadAddr(i)) <==> make(i) == None && forall k: nat | k < i :: make(k).Some?
    decreases n
  {
    if i < n - 1 {
      FirstFailure(make, n - 1, i);
      if Resolve(make, n - 1).Endpoints? {
        ResolveInOrder(make, n - 1);
        assert make(i) == Some(Resolve(make, n - 1).eps[i]);
      }
    } else {
      if Resolve(make, i).Endpoints? {
        ResolveInOrder(make, i);
        forall k: nat | k < i
          ensures make(k).Some?
        {
          assert make(k) == Some(Resolve(make, i).eps[k]);
        }
      } else {
        ResolveFails(make, i);
        FailsEarlier(make, i);
      }
    }
  }

  lemma {:induction false} FailsEarlier(make: Maker, n: nat)
    requires Resolve(make, n).Fails?
    ensures exists i: nat :: i < n && Resolve(make, n) == Fails(BadAddr(i))
  {
    if n > 0 && Resolve(make, n - 1).Fails? {
      FailsEarlier(make, n - 1);
    }
  }

  /** The address that is reported is the first that does not parse. */
  lemma FirstBadAddr(c: Config, parse: AddrParser, i: nat)
    requires HasServers(c) && i < |ServersOf(c)|
    ensures UpstreamEndpoints(c, parse) == Fails(BadAddr(i)) <==>
              parse(ServersOf(c)[i].addr) == None && forall k: nat | k < i :: parse(ServersOf(c)[k].addr).Some?
  {
    var ss := ServersOf(c);
    FirstFailure(MakerOf(c, parse, ss), |ss|, i);
    forall k: nat | k <= i
      ensures MakerOf(c, parse, ss)(k).Some? <==> parse(ss[k].addr).Some?
    {
    }
  }
}
