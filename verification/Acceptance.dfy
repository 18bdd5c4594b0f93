/** Which configurations Validate accepts, what it says of the others, and what it makes of
    those it accepts, read off the configuration as it was written (config/config.go). */
module Acceptance {
  import opened Options
  import opened Text
  import opened Config
  import opened Endpoints
  import opened ConfigFacts
  import ResolvedFacts
  import Ports
  import Redirect

  // ---- checks ----

  /** A check in the order of the source: what is wrong, and the error that says so. */
  datatype Check = Check(wrong: bool, error: Error)

  /** The error of the first check that finds something wrong. */
  function First(checks: seq<Check>): Option<Error> {
    if checks == [] then None else if checks[0].wrong then Some(checks[0].error) else First(checks[1..])
  }

  lemma {:induction false} FirstMeans(checks: seq<Check>)
    ensures First(checks) == None <==> forall i | 0 <= i < |checks| :: !checks[i].wrong
    ensures forall e :: First(checks) == Some(e) <==> exists i: nat :: FailsAt(checks, i, e)
  {
    if checks == [] {
    } else {
      var rest := checks[1..];
      FirstMeans(rest);
      forall e
        ensures First(checks) == Some(e) <==> exists i: nat :: FailsAt(checks, i, e)
      {
        FirstMeansCons(checks, e);
      }
    }
  }

  predicate FailsAt(checks: seq<Check>, i: nat, e: Error) {
    i < |checks| && checks[i] == Check(true, e) && forall j | 0 <= j < i :: !checks[j].wrong
  }

  lemma FirstMeansCons(checks: seq<Check>, e: Error)
    requires checks != []
    requires First(checks[1..]) == Some(e) <==> exists i: nat :: FailsAt(checks[1..], i, e)
    ensures First(checks) == Some(e) <==> exists i: nat :: FailsAt(checks, i, e)
  {
    if i: nat :| FailsAt(checks[1..], i, e) {
      if !checks[0].wrong {
        assert FailsAt(checks, i + 1, e);
      }
    }
    if i: nat :| FailsAt(checks, i, e) {
      if i > 0 {
        assert FailsAt(checks[1..], i - 1, e);
      }
    }
    if checks[0] == Check(true, e) {
      assert FailsAt(checks, 0, e);
    }
  }

  lemma {:induction false} FirstAppend(a: seq<Check>, b: seq<Check>)
    ensures First(a + b) == if First(a).Some? then First(a) else First(b)
  {
    if a == [] {
      assert a + b == b;
    } else {
      assert (a + b)[1..] == a[1..] + b;
      FirstAppend(a[1..], b);
    }
  }

  lemma FirstTwo(a: Check, b: Check)
    ensures First([a, b]) == if a.wrong then Some(a.error) else if b.wrong then Some(b.error) else None
  {
    assert [a, b][1..] == [b] && [b][1..] == [];
    assert First([b]) == if b.wrong then Some(b.error) else None;
  }

  lemma FirstThree(a: Check, b: Check, c: Check)
    ensures First([a, b, c])
         == if a.wrong then Some(a.error) else if b.wrong then Some(b.error)
            else if c.wrong then Some(c.error) else None
  {
    assert [a, b, c][1..] == [b, c];
    FirstTwo(b, c);
  }

  function Or(a: Option<Error>, b: Option<Error>): Option<Error> {
    if a.Some? then a else b
  }

  lemma FirstOfFive(a: seq<Check>, b: seq<Check>, c: seq<Check>, d: seq<Check>, e: seq<Check>)
    ensures First(a + b + c + d + e) == Or(First(a), Or(First(b), Or(First(c), Or(First(d), First(e)))))
  {
    FirstAppend(a, b);
    FirstAppend(a + b, c);
    FirstAppend(a + b + c, d);
    FirstAppend(a + b + c + d, e);
  }

  // ---- transports ----

  predicate RunsKcp(protocol: string) {
    Blank(protocol) || Spells(protocol, "kcp")
  }

  predicate RunsQuic(protocol: string) {
    Spells(protocol, "quic")
  }

  function KcpChecks(kcp: bool, k: Kcp): seq<Check> {
    [ Check(kcp && (k.dataShard < 0 || k.parityShard < 0), NegativeShards),
      Check(kcp && k.parityShard > 0 && k.dataShard == 0, ParityWithoutData) ]
    + [ Check(kcp && Add(k.dataShard, k.parityShard) > 255, TooManyShards),
        Check(kcp && (k.sndWnd < 0 || k.rcvWnd < 0), NegativeWindow) ]
  }

  function TransportChecks(protocol: string, key: string, k: Kcp): seq<Check> {
    [ Check(!RunsKcp(protocol) && !RunsQuic(protocol), BadProtocol), Check(Blank(key), NoKey) ]
    + KcpChecks(RunsKcp(protocol), k)
  }

  lemma ResolvedIff(t: Transport)
    ensures Resolved(t) == "kcp" <==> RunsKcp(t.protocol)
    ensures Resolved(t) == "quic" <==> RunsQuic(t.protocol)
  {
    SpellsIff(t.protocol, "kcp");
    SpellsIff(t.protocol, "quic");
    TrimMeans(t.protocol);
  }

  lemma KcpErrorIs(k: Kcp)
    ensures First(KcpChecks(true, k)) == KcpError(k)
    ensures First(KcpChecks(false, k)) == None
  {
    forall kcp: bool
      ensures First(KcpChecks(kcp, k)) == if kcp then KcpError(k) else None
    {
      var a := Check(kcp && (k.dataShard < 0 || k.parityShard < 0), NegativeShards);
      var b := Check(kcp && k.parityShard > 0 && k.dataShard == 0, ParityWithoutData);
      var c := Check(kcp && Add(k.dataShard, k.parityShard) > 255, TooManyShards);
      var d := Check(kcp && (k.sndWnd < 0 || k.rcvWnd < 0), NegativeWindow);
      FirstTwo(a, b);
      FirstTwo(c, d);
      FirstAppend([a, b], [c, d]);
    }
  }

  lemma TransportErrorIs(t: Transport)
    ensures ValidateTransport(t).1 == First(TransportChecks(t.protocol, t.kcp.key, t.kcp))
  {
    ResolvedIff(t);
    var kcp := RunsKcp(t.protocol);
    var a, b := Check(!kcp && !RunsQuic(t.protocol), BadProtocol), Check(Blank(t.kcp.key), NoKey);
    FirstTwo(a, b);
    FirstAppend([a, b], KcpChecks(kcp, t.kcp));
    KcpErrorIs(t.kcp);
  }

  // ---- servers ----

  /** The protocol text that a server's endpoint runs by. */
  function ProtocolText(c: Config, s: Server): string {
    if s.transport.Some? && s.transport.value.protocol != "" then s.transport.value.protocol
    else c.transport.protocol
  }

  /** The numbers that it runs by. */
  function Numbers(c: Config, s: Server): Kcp {
    MergeTransport(c.transport, s.transport).kcp
  }

  function OverrideChecks(c: Config, s: Server): seq<Check> {
    if s.transport.Some? then TransportChecks(ProtocolText(c, s), s.key, Numbers(c, s)) else []
  }

  function ServerChecks(c: Config, s: Server, i: nat): seq<Check> {
    [ Check(Blank(s.addr), NoAddr(i)), Check(Blank(s.key), NoServerKey(i)) ] + OverrideChecks(c, s)
  }

  function AllServerChecks(c: Config, ss: seq<Server>, i: nat): seq<Check>
    requires i <= |ss|
    decreases |ss| - i
  {
    if i == |ss| then [] else ServerChecks(c, ss[i], i) + AllServerChecks(c, ss, i + 1)
  }

  /** Only the shards and windows are looked at. */
  lemma SameNumbers(kcp: bool, k: Kcp, l: Kcp)
    requires k.dataShard == l.dataShard && k.parityShard == l.parityShard
    requires k.sndWnd == l.sndWnd && k.rcvWnd == l.rcvWnd
    ensures KcpChecks(kcp, k) == KcpChecks(kcp, l)
  {
  }

  lemma MergedNumbers(t: Transport, o: Option<Transport>)
    ensures var (k, l) := (MergeTransport(ValidateTransport(t).0, o).kcp, MergeTransport(t, o).kcp);
            && k.dataShard == l.dataShard && k.parityShard == l.parityShard
            && k.sndWnd == l.sndWnd && k.rcvWnd == l.rcvWnd
  {
  }

  /** The check of a server's transport, which is merged from the validated global one. */
  lemma OverrideErrorIs(c: Config, s: Server)
    requires ValidateTransport(c.transport).1 == None && s.transport.Some?
    ensures var merged := MergeTransport(ValidateTransport(c.transport).0, s.transport);
            ValidateTransport(merged.(kcp := merged.kcp.(key := s.key))).1 == First(OverrideChecks(c, s))
  {
    var base := ValidateTransport(c.transport).0;
    var merged := MergeTransport(base, s.transport);
    var t := merged.(kcp := merged.kcp.(key := s.key));
    TransportErrorIs(t);
    ProtocolStays(c.transport);
    ResolvedIff(c.transport);
    ResolvedIff(base);
    MergedNumbers(c.transport, s.transport);
    SameNumbers(RunsKcp(t.protocol), t.kcp, Numbers(c, s));
    assert RunsKcp(t.protocol) == RunsKcp(ProtocolText(c, s)) && RunsQuic(t.protocol) == RunsQuic(ProtocolText(c, s));
  }

  lemma ServerErrorIs(c: Config, s: Server, i: nat)
    requires ValidateTransport(c.transport).1 == None
    ensures ServerError(ValidateTransport(c.transport).0, s, i) == First(ServerChecks(c, s, i))
  {
    var a, b := Check(Blank(s.addr), NoAddr(i)), Check(Blank(s.key), NoServerKey(i));
    FirstTwo(a, b);
    FirstAppend([a, b], OverrideChecks(c, s));
    if s.transport.Some? {
      OverrideErrorIs(c, s);
    }
  }

  lemma {:induction false} ServersErrorIs(c: Config, ss: seq<Server>, i: nat)
    requires ValidateTransport(c.transport).1 == None && i <= |ss|
    ensures ServersError(ValidateTransport(c.transport).0, ss, i) == First(AllServerChecks(c, ss, i))
    decreases |ss| - i
  {
    if i == |ss| {
    } else {
      ServerErrorIs(c, ss[i], i);
      ServersErrorIs(c, ss, i + 1);
      FirstAppend(ServerChecks(c, ss[i], i), AllServerChecks(c, ss, i + 1));
    }
  }

  // ---- clients ----

  function BindChecks(fs: seq<Forward>, names: set<string>): seq<Check> {
    if fs == [] then []
    else [Check(!BindKnown(fs[0].bindUpstream, names), UnknownBind(fs[0].bindUpstream))] + BindChecks(fs[1..], names)
  }

  lemma {:induction false} ForwardErrorIs(fs: seq<Forward>, names: set<string>)
    ensures ForwardError(fs, names) == First(BindChecks(fs, names))
  {
    if fs == [] {
    } else {
      ForwardErrorIs(fs[1..], names);
      assert BindChecks(fs, names)[1..] == BindChecks(fs[1..], names);
    }
  }

  /** Range mode's texts, where blank ones have good defaults. */
  function RangeChecks(c: Config): seq<Check> {
    if !RangeOn(c) then []
    else
      var r := c.range.value;
      [ Check(!Blank(r.protocol) && r.protocol != "tcp", BadRangeProtocol),
        Check(!Blank(r.ports) && Ports.ParseRanges(r.ports) == None, BadPorts),
        Check(!Blank(r.exclude) && Ports.ParseExclude(r.exclude) == None, BadExclude) ]
  }

  function RangeBindChecks(c: Config): seq<Check> {
    if !RangeOn(c) then []
    else [Check(!BindKnown(c.range.value.bindUpstream, NameSet(c)), UnknownBind(c.range.value.bindUpstream))]
  }

  function ClientChecks(c: Config): seq<Check> {
    [Check(!HasServers(c) && !HasServerAddr(c), NoServers)] + RangeChecks(c)
    + [Check(c.forward == [] && c.socks5 == [] && !RangeOn(c), NoRules)]
    + BindChecks(c.forward, NameSet(c)) + RangeBindChecks(c)
  }

  lemma RenderedRange(r: Ports.Range, text: string)
    requires r.Ok() && text == Ports.RenderRange(r)
    ensures Ports.ParseRanges(text) == Some([r])
  {
    assert Ports.RenderRanges([r]) == [text];
    Ports.ParseRangesOfRender([r]);
  }

  lemma DefaultPorts(text: string)
    requires text == "1-65535"
    ensures Ports.ParseRanges(text) == Some([Ports.Range(1, 65535)])
  {
    assert Itoa(1) == "1" && Itoa(65) == "65";
    assert Itoa(6553) == "6553";
    assert Itoa(65535) == "65535";
    RenderedRange(Ports.Range(1, 65535), text);
  }

  lemma DefaultExclude(text: string)
    requires text == "22"
    ensures Ports.ParseExclude(text) == Some([22])
  {
    assert Itoa(22) == "22";
    assert Ports.RenderPorts([22]) == [text];
    Ports.ParseExcludeOfRender([22]);
  }

  lemma PortsAccepted(r: RangeMode, d: RangeMode)
    requires d == RangeDefaults(r) && d.protocol == "tcp"
    ensures Ports.ParseRanges(d.ports) == None <==> !Blank(r.ports) && Ports.ParseRanges(r.ports) == None
    ensures Ports.ParseExclude(d.exclude) == None <==> !Blank(r.exclude) && Ports.ParseExclude(r.exclude) == None
  {
    if Blank(r.ports) {
      DefaultPorts(d.ports);
    } else {
      assert d.ports == r.ports;
    }
    if Blank(r.exclude) {
      DefaultExclude(d.exclude);
    } else {
      assert d.exclude == r.exclude;
    }
  }

  lemma RangeErrorIs(c: Config, d: RangeMode)
    requires RangeOn(c) && d == RangeDefaults(c.range.value)
    ensures RangeError(d) == First(RangeChecks(c))
  {
    var r := c.range.value;
    FirstThree(Check(!Blank(r.protocol) && r.protocol != "tcp", BadRangeProtocol),
               Check(!Blank(r.ports) && Ports.ParseRanges(r.ports) == None, BadPorts),
               Check(!Blank(r.exclude) && Ports.ParseExclude(r.exclude) == None, BadExclude));
    assert d.protocol != "tcp" <==> !Blank(r.protocol) && r.protocol != "tcp";
    if d.protocol == "tcp" {
      PortsAccepted(r, d);
    }
  }

  function When(wrong: bool, error: Error): Option<Error> {
    if wrong then Some(error) else None
  }

  lemma ClientChain(c: Config)
    ensures First(ClientChecks(c))
         == Or(When(!HasServers(c) && !HasServerAddr(c), NoServers),
               Or(First(RangeChecks(c)),
                  Or(When(c.forward == [] && c.socks5 == [] && !RangeOn(c), NoRules),
                     Or(ForwardError(c.forward, NameSet(c)), First(RangeBindChecks(c))))))
  {
    var a, e := Check(!HasServers(c) && !HasServerAddr(c), NoServers),
                Check(c.forward == [] && c.socks5 == [] && !RangeOn(c), NoRules);
    FirstOfFive([a], RangeChecks(c), [e], BindChecks(c.forward, NameSet(c)), RangeBindChecks(c));
    ForwardErrorIs(c.forward, NameSet(c));
  }

  /** The defaults change nothing that the other checks look at. */
  lemma DefaultsApart(c: Config, d: Config)
    requires d == ClientDefaults(c)
    ensures NameSet(d) == NameSet(c) && d.forward == c.forward && d.socks5 == c.socks5 && RangeOn(d) == RangeOn(c)
    ensures HasServers(d) == HasServers(c) && HasServerAddr(d) == HasServerAddr(c)
    ensures RangeOn(c) ==> d.range.value.bindUpstream == c.range.value.bindUpstream
    ensures RangeOn(c) && (HasServers(c) || HasServerAddr(c)) ==> d.range.value == RangeDefaults(c.range.value)
  {
  }

  lemma ClientErrorIs(c: Config)
    ensures ValidateClient(c).1 == First(ClientChecks(c))
  {
    var d := ClientDefaults(c);
    DefaultsApart(c, d);
    ClientChain(c);
    if RangeOn(c) && (HasServers(c) || HasServerAddr(c)) {
      RangeErrorIs(c, d.range.value);
    }
  }

  // ---- the whole configuration ----

  function NetworkChecks(n: Network): seq<Check> {
    [ Check(Blank(n.iface), NoInterface), Check(Blank(n.ipv4.addr), NoIpv4) ]
    + [ Check(Blank(n.ipv4.routerMac), NoIpv4Mac),
        Check(n.ipv6.Some? && !Blank(n.ipv6.value.addr) && Blank(n.ipv6.value.routerMac), NoIpv6Mac) ]
  }

  predicate SaysServer(c: Config) {
    Spells(c.role, "server")
  }

  function RoleChecks(c: Config): seq<Check> {
    if SaysServer(c) then [Check(c.listen.None? || Blank(c.listen.value), NoListen)] else ClientChecks(c)
  }

  function UpstreamChecks(c: Config): seq<Check> {
    if c.upstream.Some? then AllServerChecks(c, c.upstream.value.servers, 0) else []
  }

  /** Everything that Validate checks, in order, on the configuration as it was written. */
  function Checks(c: Config): seq<Check> {
    [Check(!Spells(c.role, "client") && !SaysServer(c), BadRole)] + NetworkChecks(c.network)
    + TransportChecks(c.transport.protocol, c.transport.kcp.key, c.transport.kcp)
    + RoleChecks(c) + UpstreamChecks(c)
  }

  lemma NetworkErrorIs(n: Network)
    ensures NetworkError(n) == First(NetworkChecks(n))
  {
    var a, b := Check(Blank(n.iface), NoInterface), Check(Blank(n.ipv4.addr), NoIpv4);
    var c := Check(Blank(n.ipv4.routerMac), NoIpv4Mac);
    var d := Check(n.ipv6.Some? && !Blank(n.ipv6.value.addr) && Blank(n.ipv6.value.routerMac), NoIpv6Mac);
    FirstTwo(a, b);
    FirstTwo(c, d);
    FirstAppend([a, b], [c, d]);
  }

  /** The stages of Validate, each on what the ones before it left. */
  function StageErrors(c: Config): Option<Error> {
    var role := Lower(Trim(c.role));
    var c2 := Prepared(c);
    if role != "client" && role != "server" then Some(BadRole)
    else if NetworkError(c.network).Some? then NetworkError(c.network)
    else if ValidateTransport(c.transport).1.Some? then ValidateTransport(c.transport).1
    else if role == "server" && (c.listen.None? || Blank(c.listen.value)) then Some(NoListen)
    else if role == "client" && ValidateClient(c2).1.Some? then ValidateClient(c2).1
    else if c.upstream.Some? then ServersError(c2.transport, c.upstream.value.servers, 0)
    else None
  }

  lemma StageErrorsAre(c: Config)
    ensures Validate(c).1 == StageErrors(c)
  {
    var c2 := Prepared(c);
    assert c.(role := c2.role).(transport := c2.transport) == c2;
    ClientKeeps(c2);
  }

  lemma ClientChecksAgree(c: Config)
    ensures ClientChecks(Prepared(c)) == ClientChecks(c)
  {
    assert NameSet(Prepared(c)) == NameSet(c);
  }

  lemma ChecksChain(c: Config)
    ensures var role := Lower(Trim(c.role));
            First(Checks(c))
            == Or(When(role != "client" && role != "server", BadRole),
                  Or(NetworkError(c.network),
                     Or(ValidateTransport(c.transport).1, Or(First(RoleChecks(c)), First(UpstreamChecks(c))))))
  {
    var r := [Check(!Spells(c.role, "client") && !SaysServer(c), BadRole)];
    var n, t := NetworkChecks(c.network), TransportChecks(c.transport.protocol, c.transport.kcp.key, c.transport.kcp);
    SpellsIff(c.role, "client");
    SpellsIff(c.role, "server");
    FirstOfFive(r, n, t, RoleChecks(c), UpstreamChecks(c));
    NetworkErrorIs(c.network);
    TransportErrorIs(c.transport);
  }

  lemma ValidateErrorIs(c: Config)
    ensures Validate(c).1 == First(Checks(c))
  {
    ChecksChain(c);
    LaterStages(c);
    StageErrorsAre(c);
  }

  /** Validate, exactly: what it reports is the error of the first check that fails, each
      of them on the configuration as it was written, and it accepts exactly those in which
      none does. */
  lemma ValidateIff(c: Config)
    ensures Validate(c).1 == None <==> forall i | 0 <= i < |Checks(c)| :: !Checks(c)[i].wrong
    ensures forall e :: Validate(c).1 == Some(e) <==> exists i: nat :: FailsAt(Checks(c), i, e)
  {
    ValidateErrorIs(c);
    FirstMeans(Checks(c));
  }

  lemma LaterStages(c: Config)
    ensures Lower(Trim(c.role)) == "server" ==>
              First(RoleChecks(c)) == if c.listen.None? || Blank(c.listen.value) then Some(NoListen) else None
    ensures Lower(Trim(c.role)) == "client" ==> First(RoleChecks(c)) == ValidateClient(Prepared(c)).1
    ensures ValidateTransport(c.transport).1 == None ==>
              First(UpstreamChecks(c))
              == if c.upstream.Some? then ServersError(Prepared(c).transport, c.upstream.value.servers, 0) else None
  {
    SpellsIff(c.role, "server");
    if Lower(Trim(c.role)) == "client" {
      ClientChecksAgree(c);
      ClientErrorIs(Prepared(c));
    }
    if ValidateTransport(c.transport).1 == None && c.upstream.Some? {
      ServersErrorIs(c, c.upstream.value.servers, 0);
    }
  }

  // ---- what Validate leaves ----

  /** A text that is written, or else its default. */
  predicate Filled(written: string, default: string, r: string) {
    if Blank(written) then r == default else r == written
  }

  predicate FilledTransport(t: Transport, r: Transport) {
    && Filled(t.protocol, "kcp", r.protocol) && r.conn == (if t.conn < 1 then 6 else t.conn)
    && (if RunsKcp(t.protocol)
        then Filled(t.kcp.mode, "fast", r.kcp.mode) && Filled(t.kcp.block, "aes-128-gcm", r.kcp.block)
             && r.kcp.mtu == if t.kcp.mtu <= 0 then 1150 else t.kcp.mtu
        else r.kcp == t.kcp)
    && (if RunsQuic(t.protocol) then Filled(t.quic.alpn, "paqetpremium", r.quic.alpn) else r.quic == t.quic)
    && r.kcp.(mode := t.kcp.mode, block := t.kcp.block, mtu := t.kcp.mtu) == t.kcp
    && r.quic.(alpn := t.quic.alpn) == t.quic
  }

  predicate FilledRange(r0: RangeMode, r: RangeMode) {
    && Filled(r0.protocol, "tcp", r.protocol)
    && r.redirectPort == (if r0.redirectPort <= 0 then 47999 else r0.redirectPort)
    && Filled(r0.targetHost, "127.0.0.1", r.targetHost) && Filled(r0.ports, "1-65535", r.ports)
    && Filled(r0.exclude, "22", r.exclude) && r.enabled == r0.enabled && r.bindUpstream == r0.bindUpstream
  }

  /** `r` is `c` with every blank setting at its default and nothing else changed. */
  ghost predicate Completed(c: Config, r: Config) {
    && r.role == (if SaysServer(c) then "server" else "client")
    && FilledTransport(c.transport, r.transport) && Filled(c.logLevel, "info", r.logLevel)
    && (if r.role == "client" && RangeOn(c)
        then r.range.Some? && FilledRange(c.range.value, r.range.value) else r.range == c.range)
    && (if c.upstream.Some?
        then r.upstream.Some? && Filled(c.upstream.value.strategy, "failover", r.upstream.value.strategy)
             && r.upstream.value.(strategy := c.upstream.value.strategy) == c.upstream.value
        else r.upstream == None)
    && r.(role := c.role, transport := c.transport, logLevel := c.logLevel, range := c.range,
          upstream := c.upstream) == c
  }

  lemma TransportFilled(t: Transport)
    requires ValidateTransport(t).1 == None
    ensures FilledTransport(t, ValidateTransport(t).0)
  {
    ResolvedIff(t);
  }

  lemma RangeFilled(r: RangeMode)
    requires RangeError(RangeDefaults(r)) == None
    ensures FilledRange(r, RangeDefaults(r))
  {
  }

  lemma ClientFilled(c: Config)
    requires ValidateClient(c).1 == None
    ensures var d := ValidateClient(c).0;
            if RangeOn(c) then d.range.Some? && FilledRange(c.range.value, d.range.value) else d.range == c.range
  {
    if RangeOn(c) {
      RangeFilled(c.range.value);
    }
  }

  lemma RoleWord(role: string)
    requires Lower(Trim(role)) == "client" || Lower(Trim(role)) == "server"
    ensures Lower(Trim(role)) == if Spells(role, "server") then "server" else "client"
  {
    SpellsIff(role, "server");
  }

  /** The checks of network and transport. */
  lemma PreparedCompleted(c: Config)
    requires ValidateTransport(c.transport).1 == None
    requires Prepared(c).role == "client" || Prepared(c).role == "server"
    ensures var d := Prepared(c);
            && d.role == (if SaysServer(c) then "server" else "client") && FilledTransport(c.transport, d.transport)
            && d.(role := c.role, transport := c.transport) == c
  {
    RoleWord(c.role);
    TransportFilled(c.transport);
  }

  /** After the checks of the role nothing but role, transport and range mode has changed. */
  lemma RoleCompleted(c: Config) returns (c3: Config)
    requires Validate(c).1 == None
    ensures var c4 := ValidateUpstream(c3).0; Validate(c).0 == c4.(logLevel := OrText(c4.logLevel, "info"))
    ensures c3.role == (if SaysServer(c) then "server" else "client") && FilledTransport(c.transport, c3.transport)
    ensures if c3.role == "client" && RangeOn(c)
            then c3.range.Some? && FilledRange(c.range.value, c3.range.value) else c3.range == c.range
    ensures c3.(role := c.role, transport := c.transport, range := c.range) == c
  {
    var c2 := Prepared(c);
    c3 := Stages(c);
    PreparedCompleted(c);
    if c2.role == "client" {
      ClientKeeps(c2);
      ClientFilled(c2);
      assert c3 == c2.(range := c3.range);
    } else {
      assert c3 == c2;
    }
  }

  /** What an accepted configuration becomes: every setting that is written stays as it is
      written, but for the role, and every one that is blank takes its default. */
  lemma AcceptedCompleted(c: Config)
    requires Validate(c).1 == None
    ensures Completed(c, Validate(c).0)
  {
    var c3 := RoleCompleted(c);
    UpstreamKeeps(c3, ValidateUpstream(c3).0);
    UpstreamFilled(c3);
  }

  lemma UpstreamFilled(c: Config)
    ensures var r := ValidateUpstream(c).0;
            if c.upstream.Some?
            then r.upstream.Some? && Filled(c.upstream.value.strategy, "failover", r.upstream.value.strategy)
                 && r.upstream.value.(strategy := c.upstream.value.strategy) == c.upstream.value
            else r.upstream == None
  {
  }

  // ---- range mode with its defaults ----

  /** Range mode switched on and nothing else said of it: all ports are redirected but
      port 22, on which one would log in, and the redirect port itself, which is 47999. */
  lemma DefaultRangeMode(c0: Config, hooks: seq<Redirect.Hook>, p: int)
    requires Validate(c0).1 == None && Validate(c0).0.role == "client" && RangeOn(c0)
    requires Blank(c0.range.value.ports) && Blank(c0.range.value.exclude) && c0.range.value.redirectPort <= 0
    requires Redirect.Jump in hooks
    ensures RangeOn(Validate(c0).0)
    ensures var r := Validate(c0).0.range.value;
            && Ports.ParseRanges(r.ports).Some? && Ports.ParseExclude(r.exclude).Some?
            && var chain := Redirect.Chain(Redirect.Config(r.redirectPort, Ports.ParseRanges(r.ports).value,
                                                           Ports.ParseExclude(r.exclude).value));
               Redirect.Traverse(hooks, chain, p)
               == if 1 <= p <= 65535 && p != 22 && p != 47999 then Redirect.Redirected(47999) else Redirect.Pass
  {
    AcceptedCompleted(c0);
    var r := Validate(c0).0.range.value;
    DefaultPorts(r.ports);
    DefaultExclude(r.exclude);
    ResolvedFacts.AcceptedRangeMode(c0, hooks, p);
    CoveredByAll(p);
  }

  lemma CoveredByAll(p: int)
    ensures Redirect.Covered([Ports.Range(1, 65535)], p) <==> 1 <= p <= 65535
  {
    if 1 <= p <= 65535 {
      assert [Ports.Range(1, 65535)][0].Has(p);
    }
  }

  /** In particular an accepted range mode without an exclude text leaves port 22 alone,
      whatever its ports and its redirect port. */
  lemma LoginPortSpared(c0: Config, hooks: seq<Redirect.Hook>)
    requires Validate(c0).1 == None && Validate(c0).0.role == "client" && RangeOn(c0)
    requires Blank(c0.range.value.exclude) && Redirect.Jump in hooks
    ensures RangeOn(Validate(c0).0)
    ensures var r := Validate(c0).0.range.value;
            && Ports.ParseRanges(r.ports).Some? && Ports.ParseExclude(r.exclude).Some?
            && Redirect.Traverse(hooks, Redirect.Chain(Redirect.Config(r.redirectPort, Ports.ParseRanges(r.ports).value,
                                                                       Ports.ParseExclude(r.exclude).value)), 22)
               == Redirect.Pass
  {
    AcceptedCompleted(c0);
    DefaultExclude(Validate(c0).0.range.value.exclude);
    ResolvedFacts.AcceptedRangeMode(c0, hooks, 22);
  }
}
