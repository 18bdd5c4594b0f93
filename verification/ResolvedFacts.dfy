/** What a configuration accepted by Validate guarantees about the endpoints that are
    resolved from it afterwards, although resolution merges the transports anew. */
module ResolvedFacts {
  import opened Options
  import opened Text
  import opened Config
  import opened Endpoints
  import opened ConfigFacts
  import Ports
  import Redirect

  // ---- the numbers of a kcp transport ----

  /** The bounds the documentation of validateTransport promises, as far as Go's
      wrapping addition can tell. */
  ghost predicate KcpBounds(k: Kcp) {
    && k.dataShard >= 0 && k.parityShard >= 0 && k.sndWnd >= 0 && k.rcvWnd >= 0
    && (k.parityShard > 0 ==> k.dataShard > 0)
    && Add(k.dataShard, k.parityShard) <= 255
  }

  /** The wrapping sum is the sum exactly when the sum fits. */
  lemma ShardSum(k: Kcp)
    requires KcpBounds(k)
    ensures k.dataShard + k.parityShard <= 255 <==> k.dataShard + k.parityShard <= MAX_INT64
  {
  }

  /** A configuration with 2^63 - 1 data shards and one parity shard is accepted. */
  lemma ShardOverflow(t: Transport)
    requires Settled(t) && Resolved(t) == "kcp"
    ensures var huge := t.(kcp := t.kcp.(dataShard := MAX_INT64, parityShard := 1));
            ValidateTransport(huge) == (huge, None) && huge.kcp.dataShard + huge.kcp.parityShard > 255
  {
    var huge := t.(kcp := t.kcp.(dataShard := MAX_INT64, parityShard := 1));
    SettledIff(huge);
  }

  lemma {:induction false} EveryServerChecked(base: Transport, ss: seq<Server>, i: nat, k: nat)
    requires i <= k < |ss| && ServersError(base, ss, i) == None
    ensures ServerError(base, ss[k], k) == None
    decreases k - i
  {
    if i < k {
      EveryServerChecked(base, ss, i + 1, k);
    }
  }

  /** Only the key differs between the transport that was checked and the one that is
      used, and validation changes neither the numbers nor the protocol. */
  lemma ValidatedNumbers(t: Transport, key: string)
    requires ValidateTransport(t).1 == None
    ensures Resolved(t.(kcp := t.kcp.(key := key))) == Resolved(t)
    ensures Resolved(t) == "kcp" ==> KcpBounds(t.kcp)
  {
  }

  lemma ServerEndpointBounds(c: Config, s: Server, i: nat, addr: Addr)
    requires ValidateTransport(c.transport).1 == None && ServerError(c.transport, s, i) == None
    ensures var t := EndpointOf(c, s, i, addr).transport;
            Resolved(t) == "kcp" ==> KcpBounds(t.kcp)
  {
    var merged := MergeTransport(c.transport, s.transport);
    if s.transport.None? {
      ValidatedNumbers(c.transport, ServerKey(c, s));
    } else {
      ValidatedNumbers(merged.(kcp := merged.kcp.(key := s.key)), ServerKey(c, s));
    }
  }

  lemma AcceptedServers(c: Config, i: nat)
    requires Fixed(c) && i < |ServersOf(c)|
    ensures ServerError(c.transport, ServersOf(c)[i], i) == None
  {
    EveryServerChecked(c.transport, ServersOf(c), 0, i);
  }

  /** Every endpoint of an accepted configuration that runs kcp keeps the bounds. */
  lemma ResolvedBounds(c0: Config, parse: AddrParser, k: nat)
    requires Validate(c0).1 == None && UpstreamEndpoints(Validate(c0).0, parse).Endpoints?
    requires k < |UpstreamEndpoints(Validate(c0).0, parse).eps|
    ensures var t := UpstreamEndpoints(Validate(c0).0, parse).eps[k].transport;
            Resolved(t) == "kcp" ==> KcpBounds(t.kcp)
  {
    var c := Validate(c0).0;
    ValidateIdempotent(c0);
    if HasServers(c) {
      var ss := ServersOf(c);
      var i := OriginOf(MakerOf(c, parse, ss), |ss|, k);
      AcceptedServers(c, i);
      ServerEndpointBounds(c, ss[i], i, parse(ss[i].addr).value);
    } else {
      ValidatedNumbers(c.transport, c.transport.kcp.key);
    }
  }

  // ---- the block cipher of a kcp transport ----

  /** The protocol of a server's endpoint, from the texts of the configuration. */
  function ServerProtocol(c: Config, s: Server): string {
    if s.transport.Some? && s.transport.value.protocol != "" then Resolved(s.transport.value)
    else Resolved(c.transport)
  }

  /** No block cipher is written where the server's endpoint takes it from: the server's
      own is white space, or it has none and the global one is blank and not defaulted,
      the global protocol being quic. */
  predicate NoCipher(c: Config, s: Server) {
    if s.transport.Some? && s.transport.value.kcp.block != "" then Blank(s.transport.value.kcp.block)
    else Resolved(c.transport) == "quic" && Blank(c.transport.kcp.block)
  }

  /** What validation leaves of the global transport's protocol and block. */
  lemma ValidatedBlock(t: Transport)
    requires ValidateTransport(t).1 == None
    ensures Resolved(ValidateTransport(t).0) == Resolved(t)
    ensures Blank(ValidateTransport(t).0.kcp.block) <==> Resolved(t) == "quic" && Blank(t.kcp.block)
  {
    ProtocolStays(t);
    DefaultsStay(t);
  }

  /** Validate keeps the servers, and its transport is that of validateTransport. */
  lemma ValidateKeeps(c0: Config)
    requires Validate(c0).1 == None
    ensures var c := Validate(c0).0;
            && ValidateTransport(c0.transport).1 == None && c.transport == ValidateTransport(c0.transport).0
            && c.server == c0.server && ServersOf(c) == ServersOf(c0) && (HasServers(c) <==> HasServers(c0))
  {
    var c3 := Stages(c0);
    ClientKeeps(Prepared(c0));
    UpstreamKeeps(c3, ValidateUpstream(c3).0);
  }

  lemma ServerCipher(c0: Config, c: Config, s: Server, i: nat, addr: Addr)
    requires ValidateTransport(c0.transport).1 == None && c.transport == ValidateTransport(c0.transport).0
    ensures var t := EndpointOf(c, s, i, addr).transport;
            && Resolved(t) == ServerProtocol(c0, s)
            && (Blank(t.kcp.block) <==> NoCipher(c0, s))
  {
    ValidatedBlock(c0.transport);
  }

  /** Some server of the configuration runs kcp and has no block cipher. */
  ghost predicate LacksCipher(c: Config) {
    exists i: nat :: i < |ServersOf(c)| && ServerLacks(c, ServersOf(c)[i])
  }

  predicate ServerLacks(c: Config, s: Server) {
    ServerProtocol(c, s) == "kcp" && NoCipher(c, s)
  }

  predicate EndpointLacks(ep: Endpoint) {
    Resolved(ep.transport) == "kcp" && Blank(ep.transport.kcp.block)
  }

  /** Endpoint number `k` of an accepted configuration with servers comes from server
      number `i`, whose texts say which protocol it runs and whether its block cipher is
      blank. */
  lemma EndpointCipher(c0: Config, parse: AddrParser, k: nat) returns (i: nat)
    requires Validate(c0).1 == None && HasServers(c0) && UpstreamEndpoints(Validate(c0).0, parse).Endpoints?
    requires k < |UpstreamEndpoints(Validate(c0).0, parse).eps|
    ensures i < |ServersOf(c0)|
    ensures var (ep, s) := (UpstreamEndpoints(Validate(c0).0, parse).eps[k], ServersOf(c0)[i]);
            && EndpointAt(Validate(c0).0, parse, ServersOf(c0), i) == Some(ep)
            && Resolved(ep.transport) == ServerProtocol(c0, s)
            && (Blank(ep.transport.kcp.block) <==> NoCipher(c0, s))
  {
    var c := Validate(c0).0;
    ValidateKeeps(c0);
    i := OriginOf(MakerOf(c, parse, ServersOf(c)), |ServersOf(c)|, k);
    ServerCipher(c0, c, ServersOf(c)[i], i, parse(ServersOf(c)[i].addr).value);
  }

  /** And every server of it has an endpoint. */
  lemma CipherEndpoint(c0: Config, parse: AddrParser, i: nat) returns (k: nat)
    requires Validate(c0).1 == None && HasServers(c0) && UpstreamEndpoints(Validate(c0).0, parse).Endpoints?
    requires i < |ServersOf(c0)|
    ensures k < |UpstreamEndpoints(Validate(c0).0, parse).eps|
    ensures EndpointLacks(UpstreamEndpoints(Validate(c0).0, parse).eps[k]) <==> ServerLacks(c0, ServersOf(c0)[i])
  {
    var c := Validate(c0).0;
    ValidateKeeps(c0);
    k := EndpointFor(MakerOf(c, parse, ServersOf(c)), |ServersOf(c)|, i);
    ServerCipher(c0, c, ServersOf(c)[i], i, parse(ServersOf(c)[i].addr).value);
  }

  /** The single server of the older form never lacks a cipher. */
  lemma DefaultCipher(c0: Config, parse: AddrParser, k: nat)
    requires Validate(c0).1 == None && !HasServers(c0) && UpstreamEndpoints(Validate(c0).0, parse).Endpoints?
    requires k < |UpstreamEndpoints(Validate(c0).0, parse).eps|
    ensures !EndpointLacks(UpstreamEndpoints(Validate(c0).0, parse).eps[k])
  {
    ValidateKeeps(c0);
    ValidatedBlock(c0.transport);
  }

  /** The missing cipher, exactly: an accepted configuration resolves to an endpoint that
      runs kcp without a block cipher if and only if one of its servers runs kcp and
      writes no cipher where the endpoint looks for it. Acceptance fills in the global
      block under a global kcp transport only, and what it fills in for the merged
      transport of a server is thrown away. */
  lemma MissingCipherIff(c0: Config, parse: AddrParser)
    requires Validate(c0).1 == None && UpstreamEndpoints(Validate(c0).0, parse).Endpoints?
    ensures (exists k: nat :: k < |UpstreamEndpoints(Validate(c0).0, parse).eps|
                              && EndpointLacks(UpstreamEndpoints(Validate(c0).0, parse).eps[k]))
            <==> LacksCipher(c0)
  {
    var eps := UpstreamEndpoints(Validate(c0).0, parse).eps;
    if k: nat :| k < |eps| && EndpointLacks(eps[k]) {
      if HasServers(c0) {
        var i := EndpointCipher(c0, parse, k);
        assert ServerLacks(c0, ServersOf(c0)[i]);
      } else {
        DefaultCipher(c0, parse, k);
      }
    }
    if i: nat :| i < |ServersOf(c0)| && ServerLacks(c0, ServersOf(c0)[i]) {
      var k := CipherEndpoint(c0, parse, i);
    }
  }

  /** Under a global kcp transport this leaves one way: a server overrides the block with
      white space. */
  lemma CipherUnderKcpIff(c0: Config, parse: AddrParser)
    requires Validate(c0).1 == None && UpstreamEndpoints(Validate(c0).0, parse).Endpoints?
    requires Resolved(c0.transport) == "kcp"
    ensures (exists k: nat :: k < |UpstreamEndpoints(Validate(c0).0, parse).eps|
                              && EndpointLacks(UpstreamEndpoints(Validate(c0).0, parse).eps[k]))
            <==> exists i: nat :: i < |ServersOf(c0)| && BlankOverride(c0, ServersOf(c0)[i])
  {
    MissingCipherIff(c0, parse);
    forall i: nat | i < |ServersOf(c0)|
      ensures ServerLacks(c0, ServersOf(c0)[i]) <==> BlankOverride(c0, ServersOf(c0)[i])
    {
    }
    if i: nat :| i < |ServersOf(c0)| && BlankOverride(c0, ServersOf(c0)[i]) {
      assert ServerLacks(c0, ServersOf(c0)[i]);
    }
    if i: nat :| i < |ServersOf(c0)| && ServerLacks(c0, ServersOf(c0)[i]) {
      assert BlankOverride(c0, ServersOf(c0)[i]);
    }
  }

  predicate BlankOverride(c: Config, s: Server) {
    && ServerProtocol(c, s) == "kcp"
    && s.transport.Some? && s.transport.value.kcp.block != "" && Blank(s.transport.value.kcp.block)
  }

  // ---- the sum of the shards ----

  /** The shards of a server's endpoint, from the numbers of the configuration. */
  function ServerShards(c: Config, s: Server): int {
    var k := MergeTransport(c.transport, s.transport).kcp;
    k.dataShard + k.parityShard
  }

  predicate ServerOverflows(c: Config, s: Server) {
    ServerProtocol(c, s) == "kcp" && ServerShards(c, s) > MAX_INT64
  }

  predicate TooManyAt(ep: Endpoint) {
    Resolved(ep.transport) == "kcp" && ep.transport.kcp.dataShard + ep.transport.kcp.parityShard > 255
  }

  lemma ShardsStay(t: Transport)
    ensures var k := ValidateTransport(t).0.kcp;
            k.dataShard == t.kcp.dataShard && k.parityShard == t.kcp.parityShard
  {
  }

  lemma ServerShardsStay(c0: Config, c: Config, s: Server, i: nat, addr: Addr)
    requires ValidateTransport(c0.transport).1 == None && c.transport == ValidateTransport(c0.transport).0
    ensures var k := EndpointOf(c, s, i, addr).transport.kcp;
            k.dataShard + k.parityShard == ServerShards(c0, s)
  {
    ShardsStay(c0.transport);
  }

  /** An endpoint has too many shards exactly if the server it comes from makes the sum
      overflow. */
  lemma EndpointShardsIff(c0: Config, parse: AddrParser, i: nat, k: nat)
    requires Validate(c0).1 == None && HasServers(c0) && UpstreamEndpoints(Validate(c0).0, parse).Endpoints?
    requires k < |UpstreamEndpoints(Validate(c0).0, parse).eps| && i < |ServersOf(c0)|
    requires EndpointAt(Validate(c0).0, parse, ServersOf(c0), i)
          == Some(UpstreamEndpoints(Validate(c0).0, parse).eps[k])
    ensures TooManyAt(UpstreamEndpoints(Validate(c0).0, parse).eps[k]) <==> ServerOverflows(c0, ServersOf(c0)[i])
  {
    var c, s := Validate(c0).0, ServersOf(c0)[i];
    ValidateKeeps(c0);
    ServerCipher(c0, c, s, i, parse(s.addr).value);
    ServerShardsStay(c0, c, s, i, parse(s.addr).value);
    ResolvedBounds(c0, parse, k);
    var t := UpstreamEndpoints(c, parse).eps[k].transport;
    if Resolved(t) == "kcp" {
      ShardSum(t.kcp);
    }
  }

  /** The bound on the shards, exactly: an accepted configuration with servers resolves to
      a kcp endpoint of more than 255 shards if and only if some server runs kcp with
      numbers of shards whose sum does not fit an int. */
  lemma ShardOverflowIff(c0: Config, parse: AddrParser)
    requires Validate(c0).1 == None && HasServers(c0) && UpstreamEndpoints(Validate(c0).0, parse).Endpoints?
    ensures (exists k: nat :: k < |UpstreamEndpoints(Validate(c0).0, parse).eps|
                              && TooManyAt(UpstreamEndpoints(Validate(c0).0, parse).eps[k]))
            <==> exists i: nat :: i < |ServersOf(c0)| && ServerOverflows(c0, ServersOf(c0)[i])
  {
    var c := Validate(c0).0;
    var eps := UpstreamEndpoints(c, parse).eps;
    ValidateKeeps(c0);
    if k: nat :| k < |eps| && TooManyAt(eps[k]) {
      var i := OriginOf(MakerOf(c, parse, ServersOf(c)), |ServersOf(c)|, k);
      EndpointShardsIff(c0, parse, i, k);
    }
    if i: nat :| i < |ServersOf(c0)| && ServerOverflows(c0, ServersOf(c0)[i]) {
      var k := EndpointFor(MakerOf(c, parse, ServersOf(c)), |ServersOf(c)|, i);
      EndpointShardsIff(c0, parse, i, k);
    }
  }

  /** Likewise for the single server of the older form. */
  lemma DefaultShardOverflowIff(c0: Config, parse: AddrParser)
    requires Validate(c0).1 == None && !HasServers(c0) && UpstreamEndpoints(Validate(c0).0, parse).Endpoints?
    ensures |UpstreamEndpoints(Validate(c0).0, parse).eps| == 1
    ensures TooManyAt(UpstreamEndpoints(Validate(c0).0, parse).eps[0])
       <==> Resolved(c0.transport) == "kcp" && c0.transport.kcp.dataShard + c0.transport.kcp.parityShard > MAX_INT64
  {
    ValidateKeeps(c0);
    ValidatedBlock(c0.transport);
    ShardsStay(c0.transport);
    ResolvedBounds(c0, parse, 0);
    var t := UpstreamEndpoints(Validate(c0).0, parse).eps[0].transport;
    if Resolved(t) == "kcp" {
      ShardSum(t.kcp);
    }
  }

  // ---- bind_upstream ----

  lemma UpstreamNameTrimmed(s: Server, i: nat)
    ensures Trimmed(ServerName(s, i)) && ServerName(s, i) != ""
  {
    TrimMeans(s.name);
    if Blank(s.name) {
      var n := Itoa(i + 1);
      var name := "upstream-" + n;
      assert IsDigit(n[|n| - 1]) && name[|name| - 1] == n[|n| - 1] && name[0] == 'u';
    }
  }

  lemma NamesTrimmed(c: Config, name: string)
    requires name in NameSet(c)
    ensures Trimmed(name) && name != ""
  {
    if HasServers(c) {
      var ss := c.upstream.value.servers;
      var i: nat :| i < |ss| && ServerName(ss[i], i) == name;
      UpstreamNameTrimmed(ss[i], i);
    } else {
      assert name == "default";
    }
  }

  lemma {:induction false} EveryForwardChecked(fs: seq<Forward>, names: set<string>, k: nat)
    requires ForwardError(fs, names) == None && k < |fs|
    ensures BindKnown(fs[k].bindUpstream, names)
  {
    if k == 0 {
    } else {
      EveryForwardChecked(fs[1..], names, k - 1);
    }
  }

  /** The bind_upstream of a rule that is in force. */
  ghost predicate InForce(c: Config, bind: string) {
    || (exists k :: 0 <= k < |c.forward| && c.forward[k].bindUpstream == bind)
    || (RangeOn(c) && c.range.value.bindUpstream == bind)
  }

  lemma InForceKnown(c: Config, bind: string)
    requires ValidateClient(c).1 == None && ValidateClient(c).0 == c && InForce(c, bind)
    ensures BindKnown(bind, NameSet(c))
  {
    if k :| 0 <= k < |c.forward| && c.forward[k].bindUpstream == bind {
      EveryForwardChecked(c.forward, NameSet(c), k);
    }
  }

  lemma KnownIsNameIff(c: Config, bind: string)
    requires BindKnown(bind, NameSet(c)) && bind != ""
    ensures bind in NameSet(c) <==> Trim(bind) == bind
  {
    TrimMeans(bind);
    if bind in NameSet(c) {
      NamesTrimmed(c, bind);
    }
  }

  /** Validate compares bind_upstream trimmed, routing compares it as written. So a
      binding of an accepted client names one of the manager's endpoints exactly when
      it is written without surrounding white space; any other one that is not empty
      names none, and its rule takes the default route. */
  lemma BindNamesEndpointIff(c0: Config, parse: AddrParser, bind: string)
    requires Validate(c0).1 == None && Validate(c0).0.role == "client"
    requires UpstreamEndpoints(Validate(c0).0, parse).Endpoints?
    requires InForce(Validate(c0).0, bind) && bind != ""
    ensures bind in Names(UpstreamEndpoints(Validate(c0).0, parse).eps) <==> Trim(bind) == bind
  {
    var c := Validate(c0).0;
    ValidateIdempotent(c0);
    EndpointNames(c, parse);
    InForceKnown(c, bind);
    KnownIsNameIff(c, bind);
  }

  /** Resolved weights are positive. */
  lemma WeightsPositive(c: Config, parse: AddrParser, k: nat)
    requires UpstreamEndpoints(c, parse).Endpoints? && k < |UpstreamEndpoints(c, parse).eps|
    ensures UpstreamEndpoints(c, parse).eps[k].weight >= 1
  {
    if HasServers(c) {
      var i := OriginOf(MakerOf(c, parse, ServersOf(c)), |ServersOf(c)|, k);
    }
  }

  // ---- range mode ----

  /** Range mode from the accepted configuration to the packet: with the chain that is
      built from it hooked in, the destination ports redirected are exactly those of its
      ports text that its exclude text does not name, other than the redirect port. */
  lemma AcceptedRangeMode(c0: Config, hooks: seq<Redirect.Hook>, p: int)
    requires Validate(c0).1 == None && Validate(c0).0.role == "client" && RangeOn(Validate(c0).0)
    requires Redirect.Jump in hooks
    ensures var r := Validate(c0).0.range.value;
            && Ports.ParseRanges(r.ports).Some? && Ports.ParseExclude(r.exclude).Some?
            && var (ranges, exclude) := (Ports.ParseRanges(r.ports).value, Ports.ParseExclude(r.exclude).value);
               Redirect.Traverse(hooks, Redirect.Chain(Redirect.Config(r.redirectPort, ranges, exclude)), p)
               == if Redirect.Covered(ranges, p) && p !in exclude && p != r.redirectPort
                  then Redirect.Redirected(r.redirectPort) else Redirect.Pass
  {
    ValidateIdempotent(c0);
    var r := Validate(c0).0.range.value;
    AcceptedRange(Validate(c0).0);
    Redirect.RangeModeMeaning(r.ports, r.exclude, r.redirectPort, hooks, p);
  }

  lemma AcceptedRange(c: Config)
    requires ValidateClient(c).1 == None && ValidateClient(c).0 == c && RangeOn(c)
    ensures RangeError(c.range.value) == None
  {
  }

  /** Validate puts no upper bound on the redirect port. So iptables takes all rules of an
      accepted configuration if and only if its redirect port is a port at all. */
  lemma AcceptedChainIff(c0: Config)
    requires Validate(c0).1 == None && Validate(c0).0.role == "client" && RangeOn(Validate(c0).0)
    ensures var r := Validate(c0).0.range.value;
            && Ports.ParseRanges(r.ports).Some? && Ports.ParseExclude(r.exclude).Some?
            && (Redirect.AllAcceptable(Redirect.Chain(Redirect.Config(r.redirectPort, Ports.ParseRanges(r.ports).value,
                                                                      Ports.ParseExclude(r.exclude).value)))
                <==> r.redirectPort <= Ports.MAX_PORT)
  {
    var c := Validate(c0).0;
    var r := c.range.value;
    ValidateIdempotent(c0);
    AcceptedRange(c);
    PositivePort(c);
    Ports.AcceptedOk(r.ports);
    Ports.AcceptedOk(r.exclude);
    Redirect.ChainAcceptableIff(r.redirectPort, Ports.ParseRanges(r.ports).value, Ports.ParseExclude(r.exclude).value);
  }

  lemma PositivePort(c: Config)
    requires ValidateClient(c).1 == None && ValidateClient(c).0 == c && RangeOn(c)
    ensures c.range.value.redirectPort > 0
  {
    var r := c.range.value;
    assert RangeDefaults(r) == r;
  }
}
