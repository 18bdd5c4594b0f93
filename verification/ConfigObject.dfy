/** The configuration as the program holds it: one object, normalised in place by
    Validate and read by UpstreamEndpoints. */
module ConfigObject {
  import opened Options
  import opened Text
  import C = Config
  import E = Endpoints
  import Ports

  /** validateTransport on a transport block. */
  method ValidateTransport(t0: C.Transport) returns (t: C.Transport, err: Option<C.Error>)
    ensures (t, err) == C.ValidateTransport(t0)
  {
    t := t0;
    var proto := Lower(Trim(t.protocol));
    TrimMeans(t.protocol);
    if proto == "" {
      proto := "kcp";
      t := t.(protocol := proto);
    }
    if proto != "kcp" && proto != "quic" {
      return t, Some(C.BadProtocol);
    }
    if t.conn < 1 {
      t := t.(conn := 6);
    }
    if Blank(t.kcp.key) {
      return t, Some(C.NoKey);
    }
    if proto == "kcp" {
      var k := t.kcp;
      if Blank(k.mode) {
        k := k.(mode := "fast");
      }
      if Blank(k.block) {
        k := k.(block := "aes-128-gcm");
      }
      if k.mtu <= 0 {
        k := k.(mtu := 1150);
      }
      t := t.(kcp := k);
      if k.dataShard < 0 || k.parityShard < 0 {
        return t, Some(C.NegativeShards);
      }
      if k.parityShard > 0 && k.dataShard == 0 {
        return t, Some(C.ParityWithoutData);
      }
      if C.Add(k.dataShard, k.parityShard) > 255 {
        return t, Some(C.TooManyShards);
      }
      if k.sndWnd < 0 || k.rcvWnd < 0 {
        return t, Some(C.NegativeWindow);
      }
    }
    if proto == "quic" && Blank(t.quic.alpn) {
      t := t.(quic := t.quic.(alpn := "paqetpremium"));
    }
    return t, None;
  }

  class ConfigObject {
    var role: string
    var upstream: Option<C.Upstream>
    var forward: seq<C.Forward>
    var socks5: seq<C.Socks>
    var range: Option<C.RangeMode>
    var listen: Option<string>
    var network: C.Network
    var server: Option<string>
    var transport: C.Transport
    var admin: Option<C.Admin>
    var logLevel: string

    function Value(): C.Config
      reads this
    {
      C.Config(role, upstream, forward, socks5, range, listen, network, server, transport, admin, logLevel)
    }

    constructor (c: C.Config)
      ensures Value() == c
    {
      role, upstream, forward, socks5, range := c.role, c.upstream, c.forward, c.socks5, c.range;
      listen, network, server, transport := c.listen, c.network, c.server, c.transport;
      admin, logLevel := c.admin, c.logLevel;
    }

    /** upstreamNameSet */
    method UpstreamNameSet() returns (names: set<string>)
      ensures names == C.NameSet(Value())
    {
      names := {};
      if upstream.Some? && upstream.value.servers != [] {
        var ss := upstream.value.servers;
        for i := 0 to |ss|
          invariant names == set k: nat | k < i :: C.ServerName(ss[k], k)
        {
          names := names + {C.ServerName(ss[i], i)};
        }
      } else if server.Some? && !Blank(server.value) {
        names := {"default"};
      }
    }

    /** The part of Validate about an enabled range mode. */
    method ValidateRange() returns (err: Option<C.Error>)
      requires C.Enabled(range)
      modifies this`range
      ensures range == Some(C.RangeDefaults(old(range).value))
      ensures err == C.RangeError(range.value)
    {
      var r := range.value;
      if Blank(r.protocol) {
        r := r.(protocol := "tcp");
      }
      range := Some(r);
      if r.protocol != "tcp" {
        return Some(C.BadRangeProtocol);
      }
      r := FillRange(r);
      range := Some(r);
      err := CheckRange(r);
    }

    method FillRange(given: C.RangeMode) returns (r: C.RangeMode)
      requires given.protocol == "tcp"
      ensures r == C.RangeDefaults(given) && r.protocol == "tcp"
    {
      r := given;
      if r.redirectPort <= 0 {
        r := r.(redirectPort := 47999);
      }
      if Blank(r.targetHost) {
        r := r.(targetHost := "127.0.0.1");
      }
      if Blank(r.ports) {
        r := r.(ports := "1-65535");
      }
      if Blank(r.exclude) {
        r := r.(exclude := "22");
      }
    }

    method CheckRange(r: C.RangeMode) returns (err: Option<C.Error>)
      ensures err == if Ports.ParseRanges(r.ports).None? then Some(C.BadPorts)
                     else if Ports.ParseExclude(r.exclude).None? then Some(C.BadExclude)
                     else None
    {
      var ranges := Ports.ParsePortRanges(r.ports);
      if ranges == None {
        return Some(C.BadPorts);
      }
      var excluded := Ports.ExcludePorts(r.exclude);
      if excluded == None {
        return Some(C.BadExclude);
      }
      return None;
    }

    /** The part of Validate about the bindings of forward rules. */
    method CheckForwards(names: set<string>) returns (err: Option<C.Error>)
      ensures err == C.ForwardError(forward, names)
    {
      for i := 0 to |forward|
        invariant C.ForwardError(forward, names) == C.ForwardError(forward[i..], names)
      {
        var bind := Trim(forward[i].bindUpstream);
        TrimMeans(forward[i].bindUpstream);
        if bind != "" && bind !in names {
          return Some(C.UnknownBind(forward[i].bindUpstream));
        }
        assert forward[i..][1..] == forward[i + 1..];
      }
      return None;
    }

    /** The part of Validate about what a client serves and over which upstreams. */
    method CheckRules() returns (err: Option<C.Error>)
      requires C.Enabled(range) ==> C.RangeError(range.value) == None
      ensures err == C.ClientError(true, range, forward, socks5, C.NameSet(Value()))
    {
      if forward == [] && socks5 == [] && (range == None || !range.value.enabled) {
        return Some(C.NoRules);
      }
      var names := UpstreamNameSet();
      err := CheckForwards(names);
      if err.Some? {
        return;
      }
      if range.Some? && range.value.enabled {
        var bind := Trim(range.value.bindUpstream);
        TrimMeans(range.value.bindUpstream);
        if bind != "" && bind !in names {
          return Some(C.UnknownBind(range.value.bindUpstream));
        }
      }
      return None;
    }

    /** The part of Validate about the client role. */
    method ValidateClient() returns (err: Option<C.Error>)
      modifies this`range
      ensures (Value(), err) == C.ValidateClient(old(Value()))
    {
      if (upstream == None || upstream.value.servers == []) && (server == None || Blank(server.value)) {
        return Some(C.NoServers);
      }
      if range.Some? && range.value.enabled {
        err := ValidateRange();
        assert Value() == C.ClientDefaults(old(Value()));
        if err.Some? {
          return;
        }
      }
      assert Value() == C.ClientDefaults(old(Value()));
      err := CheckRules();
    }

    /** The part of Validate about the upstream servers. What is merged for the check
        of a server is not kept. */
    method CheckServers(ss: seq<C.Server>) returns (err: Option<C.Error>)
      ensures err == C.ServersError(transport, ss, 0)
    {
      for i := 0 to |ss|
        invariant C.ServersError(transport, ss, 0) == C.ServersError(transport, ss, i)
      {
        var s := ss[i];
        if Blank(s.addr) {
          err := Some(C.NoAddr(i));
        } else if Blank(s.key) {
          err := Some(C.NoServerKey(i));
        } else if s.transport.Some? {
          var merged := C.MergeTransport(transport, s.transport);
          merged := merged.(kcp := merged.kcp.(key := s.key));
          merged, err := ValidateTransport(merged);
        } else {
          err := None;
        }
        assert err == C.ServerError(transport, s, i);
        if err.Some? {
          return;
        }
      }
      return None;
    }

    method ValidateUpstream() returns (err: Option<C.Error>)
      modifies this`upstream
      ensures (Value(), err) == C.ValidateUpstream(old(Value()))
    {
      if upstream == None {
        return None;
      }
      if Blank(upstream.value.strategy) {
        upstream := Some(upstream.value.(strategy := "failover"));
      }
      err := CheckServers(upstream.value.servers);
    }

    method Validate() returns (err: Option<C.Error>)
      modifies this
      ensures (Value(), err) == C.Validate(old(Value()))
    {
      var r := Lower(Trim(role));
      if r != "client" && r != "server" {
        return Some(C.BadRole);
      }
      role := r;
      err := C.NetworkError(network);
      if err.Some? {
        return;
      }
      transport, err := ValidateTransport(transport);
      if err.Some? {
        return;
      }
      if role == "server" {
        if listen == None || Blank(listen.value) {
          return Some(C.NoListen);
        }
      } else {
        err := ValidateClient();
        if err.Some? {
          return;
        }
      }
      err := ValidateUpstream();
      if err.Some? {
        return;
      }
      if Blank(logLevel) {
        logLevel := "info";
      }
      return None;
    }

    method ResolveServers(parse: E.AddrParser) returns (r: E.Resolution)
      requires upstream.Some?
      ensures r == E.Resolve(E.MakerOf(Value(), parse, upstream.value.servers), |upstream.value.servers|)
    {
      var c, ss := Value(), upstream.value.servers;
      var out: seq<E.Endpoint> := [];
      ghost var make := E.MakerOf(c, parse, ss);
      for i := 0 to |ss|
        invariant E.Resolve(make, i) == E.Endpoints(out)
      {
        var addr := parse(ss[i].addr);
        if addr == None {
          ResolveFailsAt(make, i, |ss|);
          return E.Fails(C.BadAddr(i));
        }
        var ep := E.EndpointOf(c, ss[i], i, addr.value);
        ResolveGrows(make, i, out, ep);
        out := out + [ep];
      }
      return E.Endpoints(out);
    }

    method UpstreamEndpoints(parse: E.AddrParser) returns (r: E.Resolution)
      ensures r == E.UpstreamEndpoints(Value(), parse)
    {
      if upstream.Some? && upstream.value.servers != [] {
        r := ResolveServers(parse);
        if r.Endpoints? {
          r := E.Endpoints(E.SortStable(r.eps));
        }
        return r;
      }
      if server.Some? && !Blank(server.value) {
        var addr := parse(server.value);
        if addr == None {
          return E.Fails(C.BadAddr(0));
        }
        return E.Endpoints([E.Endpoint("default", addr.value, transport.kcp.key, 1, 1, transport)]);
      }
      return E.Fails(C.NoUpstream);
    }
  }

  lemma ResolveGrows(make: E.Maker, i: nat, out: seq<E.Endpoint>, ep: E.Endpoint)
    requires E.Resolve(make, i) == E.Endpoints(out) && make(i) == Some(ep)
    ensures E.Resolve(make, i + 1) == E.Endpoints(out + [ep])
  {
  }

  lemma {:induction false} ResolveFailsAt(make: E.Maker, i: nat, n: nat)
    requires i < n && E.Resolve(make, i).Endpoints? && make(i) == None
    ensures E.Resolve(make, n) == E.Fails(C.BadAddr(i))
  {
    if i == n - 1 {
    } else {
      ResolveFailsAt(make, i, n - 1);
    }
  }
}
