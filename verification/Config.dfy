/** The client configuration as far as it decides about upstreams, transports and
    range mode (config/config.go and config/upstream.go). */
module Config {
  import opened Options
  import opened Text
  import Ports

  /** Go's int on the supported platforms. */
  type Int = x: int | -0x8000_0000_0000_0000 <= x <= 0x7fff_ffff_ffff_ffff

  /** Addition of two of them, wrapping around. */
  function Add(a: Int, b: Int): Int {
    if a + b > MAX_INT64 then a + b - 0x1_0000_0000_0000_0000
    else if a + b < -MAX_INT64 - 1 then a + b + 0x1_0000_0000_0000_0000
    else a + b
  }

  // ---- entities ----

  datatype Kcp = Kcp(mode: string, block: string, key: string, mtu: Int,
                     dataShard: Int, parityShard: Int, sndWnd: Int, rcvWnd: Int)

  datatype Quic = Quic(alpn: string, idleTimeout: string, maxIdleTimeout: string)

  datatype Transport = Transport(protocol: string, conn: Int, kcp: Kcp, quic: Quic)

  datatype Server = Server(name: string, addr: string, key: string, weight: Int, priority: Int,
                           transport: Option<Transport>)

  datatype Upstream = Upstream(strategy: string, failThreshold: Int, recoverThreshold: Int, servers: seq<Server>)

  datatype Forward = Forward(listen: string, target: string, bindUpstream: string)

  datatype Auth = Auth(user: string, pass: string)

  datatype Socks = Socks(listen: string, auth: Option<Auth>)

  datatype RangeMode = RangeMode(enabled: bool, protocol: string, redirectPort: Int, targetHost: string,
                                 ports: string, exclude: string, bindUpstream: string)

  datatype Link = Link(addr: string, routerMac: string)

  datatype Network = Network(iface: string, ipv4: Link, ipv6: Option<Link>)

  datatype Admin = Admin(listen: string, token: string)

  datatype Config = Config(
    role: string, upstream: Option<Upstream>, forward: seq<Forward>, socks5: seq<Socks>,
    range: Option<RangeMode>, listen: Option<string>, network: Network, server: Option<string>,
    transport: Transport, admin: Option<Admin>, logLevel: string)

  datatype Error =
    | BadRole | NoInterface | NoIpv4 | NoIpv4Mac | NoIpv6Mac
    | BadProtocol | NoKey | NegativeShards | ParityWithoutData | TooManyShards | NegativeWindow
    | NoListen | NoServers | BadRangeProtocol | BadPorts | BadExclude | NoRules
    | UnknownBind(bind: string) | NoAddr(i: nat) | NoServerKey(i: nat)
    | BadAddr(i: nat) | NoUpstream

  // ---- transports ----

  function Protocol(t: Transport): string {
    Lower(Trim(t.protocol))
  }

  /** The protocol a transport runs: options.go and validateTransport alike fall back
      to kcp when it is blank. */
  function Resolved(t: Transport): string {
    if Blank(t.protocol) then "kcp" else Protocol(t)
  }

  function OrText(s: string, default: string): string {
    if Blank(s) then default else s
  }

  /** validateTransport: the transport with its defaults, and the error if any. */
  function ValidateTransport(t0: Transport): (Transport, Option<Error>) {
    var proto := Resolved(t0);
    var t1 := if Blank(t0.protocol) then t0.(protocol := "kcp") else t0;
    if proto != "kcp" && proto != "quic" then (t1, Some(BadProtocol))
    else
      var t2 := if t1.conn < 1 then t1.(conn := 6) else t1;
      if Blank(t2.kcp.key) then (t2, Some(NoKey))
      else if proto == "kcp" then
        var k := t2.kcp.(mode := OrText(t2.kcp.mode, "fast"), block := OrText(t2.kcp.block, "aes-128-gcm"),
                         mtu := if t2.kcp.mtu <= 0 then 1150 else t2.kcp.mtu);
        (t2.(kcp := k), KcpError(k))
      else (t2.(quic := t2.quic.(alpn := OrText(t2.quic.alpn, "paqetpremium"))), None)
  }

  function KcpError(k: Kcp): Option<Error> {
    if k.dataShard < 0 || k.parityShard < 0 then Some(NegativeShards)
    else if k.parityShard > 0 && k.dataShard == 0 then Some(ParityWithoutData)
    else if Add(k.dataShard, k.parityShard) > 255 then Some(TooManyShards)
    else if k.sndWnd < 0 || k.rcvWnd < 0 then Some(NegativeWindow)
    else None
  }

  function Over(base: string, over: string): string {
    if over != "" then over else base
  }

  function OverInt(base: Int, over: Int): Int {
    if over > 0 then over else base
  }

  /** mergeTransport: the set fields of the override win. */
  function MergeTransport(base: Transport, override: Option<Transport>): Transport {
    match override
    case None => base
    case Some(o) =>
      Transport(
        Over(base.protocol, o.protocol),
        OverInt(base.conn, o.conn),
        Kcp(Over(base.kcp.mode, o.kcp.mode), Over(base.kcp.block, o.kcp.block), Over(base.kcp.key, o.kcp.key),
            OverInt(base.kcp.mtu, o.kcp.mtu), OverInt(base.kcp.dataShard, o.kcp.dataShard),
            OverInt(base.kcp.parityShard, o.kcp.parityShard), OverInt(base.kcp.sndWnd, o.kcp.sndWnd),
            OverInt(base.kcp.rcvWnd, o.kcp.rcvWnd)),
        Quic(Over(base.quic.alpn, o.quic.alpn), Over(base.quic.idleTimeout, o.quic.idleTimeout),
             Over(base.quic.maxIdleTimeout, o.quic.maxIdleTimeout)))
  }

  // ---- names ----

  /** The name of server number `i`: its own, or one made up from its position. */
  function ServerName(s: Server, i: nat): string {
    if Blank(s.name) then "upstream-" + Itoa(i + 1) else Trim(s.name)
  }

  predicate HasServers(c: Config) {
    c.upstream.Some? && c.upstream.value.servers != []
  }

  predicate HasServerAddr(c: Config) {
    c.server.Some? && !Blank(c.server.value)
  }

  /** upstreamNameSet */
  function NameSet(c: Config): set<string> {
    if HasServers(c) then
      set i: nat | i < |c.upstream.value.servers| :: ServerName(c.upstream.value.servers[i], i)
    else if HasServerAddr(c) then {"default"}
    else {}
  }

  // ---- Validate ----

  function NetworkError(n: Network): Option<Error> {
    if Blank(n.iface) then Some(NoInterface)
    else if Blank(n.ipv4.addr) then Some(NoIpv4)
    else if Blank(n.ipv4.routerMac) then Some(NoIpv4Mac)
    else if n.ipv6.Some? && !Blank(n.ipv6.value.addr) && Blank(n.ipv6.value.routerMac) then Some(NoIpv6Mac)
    else None
  }

  predicate Enabled(r: Option<RangeMode>) {
    r.Some? && r.value.enabled
  }

  predicate RangeOn(c: Config) {
    Enabled(c.range)
  }

  /** The defaults of an enabled range mode; a protocol other than tcp ends them. */
  function RangeDefaults(r: RangeMode): RangeMode {
    var r1 := r.(protocol := OrText(r.protocol, "tcp"));
    if r1.protocol != "tcp" then r1
    else r1.(redirectPort := if r1.redirectPort <= 0 then 47999 else r1.redirectPort,
             targetHost := OrText(r1.targetHost, "127.0.0.1"),
             ports := OrText(r1.ports, "1-65535"), exclude := OrText(r1.exclude, "22"))
  }

  function RangeError(r: RangeMode): Option<Error> {
    if r.protocol != "tcp" then Some(BadRangeProtocol)
    else if Ports.ParseRanges(r.ports).None? then Some(BadPorts)
    else if Ports.ParseExclude(r.exclude).None? then Some(BadExclude)
    else None
  }

  predicate BindKnown(bind: string, names: set<string>) {
    Blank(bind) || Trim(bind) in names
  }

  function ForwardError(fs: seq<Forward>, names: set<string>): Option<Error> {
    if fs == [] then None
    else if !BindKnown(fs[0].bindUpstream, names) then Some(UnknownBind(fs[0].bindUpstream))
    else ForwardError(fs[1..], names)
  }

  /** The client's defaults: those of an enabled range mode, if it has a server at all. */
  function ClientDefaults(c: Config): Config {
    if (HasServers(c) || HasServerAddr(c)) && RangeOn(c) then c.(range := Some(RangeDefaults(c.range.value)))
    else c
  }

  /** What is wrong with a client, its defaults applied. */
  function ClientError(reachable: bool, range: Option<RangeMode>, forward: seq<Forward>, socks5: seq<Socks>,
                       names: set<string>): Option<Error>
  {
    if !reachable then Some(NoServers)
    else if Enabled(range) && RangeError(range.value).Some? then RangeError(range.value)
    else if forward == [] && socks5 == [] && !Enabled(range) then Some(NoRules)
    else if ForwardError(forward, names).Some? then ForwardError(forward, names)
    else if Enabled(range) && !BindKnown(range.value.bindUpstream, names) then
      Some(UnknownBind(range.value.bindUpstream))
    else None
  }

  function ClientErrorOf(c: Config): Option<Error> {
    ClientError(HasServers(c) || HasServerAddr(c), c.range, c.forward, c.socks5, NameSet(c))
  }

  function ValidateClient(c: Config): (Config, Option<Error>) {
    (ClientDefaults(c), ClientErrorOf(ClientDefaults(c)))
  }

  /** What Validate finds wrong with server number `i`, given the checked transport.
      The transport it merges for the check is thrown away. */
  function ServerError(base: Transport, s: Server, i: nat): Option<Error> {
    if Blank(s.addr) then Some(NoAddr(i))
    else if Blank(s.key) then Some(NoServerKey(i))
    else if s.transport.None? then None
    else
      var merged := MergeTransport(base, s.transport);
      ValidateTransport(merged.(kcp := merged.kcp.(key := s.key))).1
  }

  function ServersError(base: Transport, ss: seq<Server>, i: nat): Option<Error>
    requires i <= |ss|
    decreases |ss| - i
  {
    if i == |ss| then None
    else match ServerError(base, ss[i], i)
         case Some(e) => Some(e)
         case None => ServersError(base, ss, i + 1)
  }

  function ValidateUpstream(c: Config): (Config, Option<Error>) {
    match c.upstream
    case None => (c, None)
    case Some(u) =>
      (c.(upstream := Some(u.(strategy := OrText(u.strategy, "failover")))), ServersError(c.transport, u.servers, 0))
  }

  /** Validate: the configuration with its defaults, and the error if any. */
  function Validate(c: Config): (Config, Option<Error>) {
    var role := Lower(Trim(c.role));
    if role != "client" && role != "server" then (c, Some(BadRole))
    else
      var c1 := c.(role := role);
      var ne := NetworkError(c1.network);
      if ne.Some? then (c1, ne)
      else
        var (t, te) := ValidateTransport(c1.transport);
        var c2 := c1.(transport := t);
        if te.Some? then (c2, te)
        else
          var (c3, re) :=
            if role == "server" then (c2, if c2.listen.None? || Blank(c2.listen.value) then Some(NoListen) else None)
            else ValidateClient(c2);
          if re.Some? then (c3, re)
          else
            var (c4, ue) := ValidateUpstream(c3);
            if ue.Some? then (c4, ue)
            else (c4.(logLevel := OrText(c4.logLevel, "info")), None)
  }
}
