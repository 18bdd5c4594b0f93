/** What acceptance by Validate means for the endpoints resolved later. */
module ConfigFacts {
  import opened Options
  import opened Text
  import opened Config

  // ---- defaults stay put ----

  lemma SolidNotBlank(s: string)
    requires s != "" && !IsSpace(s[0]) && !IsSpace(s[|s| - 1])
    ensures !Blank(s) && Trim(s) == s
  {
    TrimMeans(s);
  }

  /** The words Validate writes are not blank, so it never writes them twice. */
  lemma OrTextStays(s: string, d: string)
    requires d != "" && !IsSpace(d[0]) && !IsSpace(d[|d| - 1])
    ensures !Blank(OrText(s, d)) && (OrText(s, d) == s <==> !Blank(s))
  {
    SolidNotBlank(d);
  }

  predicate LowerWord(s: string) {
    s != "" && forall i | 0 <= i < |s| :: 'a' <= s[i] <= 'z'
  }

  /** A word of lower-case letters is its own normal form. */
  lemma WordStays(s: string)
    requires LowerWord(s)
    ensures Lower(Trim(s)) == s && Trim(s) == s
  {
    SolidNotBlank(s);
  }

  /** The transport defaults: nothing an accepted transport lacks. */
  ghost predicate Settled(t: Transport) {
    && !Blank(t.protocol) && (Resolved(t) == "kcp" || Resolved(t) == "quic")
    && t.conn >= 1 && !Blank(t.kcp.key)
    && (Resolved(t) == "kcp" ==> !Blank(t.kcp.mode) && !Blank(t.kcp.block) && t.kcp.mtu > 0 && KcpError(t.kcp) == None)
    && (Resolved(t) == "quic" ==> !Blank(t.quic.alpn))
  }

  lemma DefaultsStay(t: Transport)
    ensures OrText(t.kcp.mode, "fast") == t.kcp.mode <==> !Blank(t.kcp.mode)
    ensures OrText(t.kcp.block, "aes-128-gcm") == t.kcp.block <==> !Blank(t.kcp.block)
    ensures OrText(t.quic.alpn, "paqetpremium") == t.quic.alpn <==> !Blank(t.quic.alpn)
    ensures !Blank(OrText(t.kcp.mode, "fast")) && !Blank(OrText(t.kcp.block, "aes-128-gcm"))
    ensures !Blank(OrText(t.quic.alpn, "paqetpremium"))
  {
    OrTextStays(t.kcp.mode, "fast");
    OrTextStays(t.kcp.block, "aes-128-gcm");
    OrTextStays(t.quic.alpn, "paqetpremium");
  }

  /** A transport is accepted without change exactly when it is settled. */
  lemma SettledIff(t: Transport)
    ensures ValidateTransport(t) == (t, None) <==> Settled(t)
  {
    DefaultsStay(t);
    WordStays("kcp");
    SolidNotBlank("kcp");
  }

  /** Validation does not change what protocol a transport runs. */
  lemma ProtocolStays(t: Transport)
    ensures Resolved(ValidateTransport(t).0) == Resolved(t) && !Blank(ValidateTransport(t).0.protocol)
  {
    WordStays("kcp");
    SolidNotBlank("kcp");
  }

  lemma KcpComesOutSettled(t: Transport)
    requires ValidateTransport(t).1 == None && Resolved(t) == "kcp"
    ensures Settled(ValidateTransport(t).0)
  {
    ProtocolStays(t);
    DefaultsStay(t);
  }

  lemma QuicComesOutSettled(t: Transport)
    requires ValidateTransport(t).1 == None && Resolved(t) == "quic"
    ensures Settled(ValidateTransport(t).0)
  {
    ProtocolStays(t);
    DefaultsStay(t);
  }

  /** Accepted transports come out settled, with the protocol they went in with. */
  lemma AcceptedIsSettled(t: Transport)
    requires ValidateTransport(t).1 == None
    ensures Settled(ValidateTransport(t).0) && Resolved(ValidateTransport(t).0) == Resolved(t)
  {
    ProtocolStays(t);
    if Resolved(t) == "kcp" {
      KcpComesOutSettled(t);
    } else {
      QuicComesOutSettled(t);
    }
  }

  // ---- Validate is idempotent ----

  lemma RangeDefaultsStay(r: RangeMode)
    ensures RangeDefaults(RangeDefaults(r)) == RangeDefaults(r)
  {
    OrTextStays(r.protocol, "tcp");
    OrTextStays(r.targetHost, "127.0.0.1");
    OrTextStays(r.ports, "1-65535");
    OrTextStays(r.exclude, "22");
  }

  lemma ClientDefaultsStay(c: Config)
    ensures ValidateClient(ClientDefaults(c)) == ValidateClient(c)
  {
    if c.range.Some? {
      RangeDefaultsStay(c.range.value);
    }
    assert ClientDefaults(ClientDefaults(c)) == ClientDefaults(c);
  }

  lemma UpstreamDefaults(c: Config)
    requires ValidateUpstream(c).1 == None
    ensures ValidateUpstream(ValidateUpstream(c).0) == (ValidateUpstream(c).0, None)
  {
    if c.upstream.Some? {
      OrTextStays(c.upstream.value.strategy, "failover");
    }
  }

  /** The configuration Validate accepts: what comes out goes through unchanged. */
  ghost predicate Accepted(c: Config) {
    Validate(c) == (c, None)
  }

  /** Every stage of Validate leaves the configuration alone. */
  ghost predicate Fixed(c: Config) {
    && (c.role == "client" || c.role == "server")
    && NetworkError(c.network) == None
    && ValidateTransport(c.transport) == (c.transport, None)
    && (c.role == "server" ==> c.listen.Some? && !Blank(c.listen.value))
    && (c.role == "client" ==> ValidateClient(c) == (c, None))
    && ValidateUpstream(c) == (c, None)
    && !Blank(c.logLevel)
  }

  lemma RoleStays(role: string)
    requires role == "client" || role == "server"
    ensures Lower(Trim(role)) == role
  {
    WordStays(role);
  }

  lemma FixedIsAccepted(c: Config)
    requires Fixed(c)
    ensures Accepted(c)
  {
    RoleStays(c.role);
    assert c.(role := c.role) == c && c.(transport := c.transport) == c;
    assert c.(logLevel := OrText(c.logLevel, "info")) == c;
  }

  /** The last two stages, after the checks of the role. */
  lemma LastStages(c3: Config)
    requires (c3.role == "client" || c3.role == "server") && NetworkError(c3.network) == None
    requires ValidateTransport(c3.transport) == (c3.transport, None)
    requires c3.role == "server" ==> c3.listen.Some? && !Blank(c3.listen.value)
    requires c3.role == "client" ==> ValidateClient(c3) == (c3, None)
    requires ValidateUpstream(c3).1 == None
    ensures var c4 := ValidateUpstream(c3).0;
            Fixed(c4.(logLevel := OrText(c4.logLevel, "info")))
  {
    var c4 := ValidateUpstream(c3).0;
    var c5 := c4.(logLevel := OrText(c4.logLevel, "info"));
    OrTextStays(c4.logLevel, "info");
    UpstreamDefaults(c3);
    UpstreamKeeps(c3, c4);
    if c3.role == "client" {
      ClientIgnores(c3, c5);
    }
    assert ValidateUpstream(c5) == (c5, None);
  }

  /** The configuration after the checks of role, network and transport. */
  function Prepared(c: Config): Config {
    c.(role := Lower(Trim(c.role)), transport := ValidateTransport(c.transport).0)
  }

  /** What an accepted configuration has passed, and what has become of it: `c3` is the
      configuration after the checks of its role. */
  lemma Stages(c: Config) returns (c3: Config)
    requires Validate(c).1 == None
    ensures var c2 := Prepared(c);
            && (c2.role == "client" || c2.role == "server") && NetworkError(c2.network) == None
            && ValidateTransport(c.transport).1 == None
            && (c2.role == "server" ==> c3 == c2 && c2.listen.Some? && !Blank(c2.listen.value))
            && (c2.role == "client" ==> ValidateClient(c2) == (c3, None))
    ensures ValidateUpstream(c3).1 == None
    ensures var c4 := ValidateUpstream(c3).0; Validate(c).0 == c4.(logLevel := OrText(c4.logLevel, "info"))
  {
    var c2 := Prepared(c);
    assert c.(role := c2.role).(transport := c2.transport) == c2;
    c3 := if c2.role == "server" then c2 else ValidateClient(c2).0;
  }

  /** The checks of the client role leave the rest alone. */
  lemma ClientKeeps(c: Config)
    ensures var d := ValidateClient(c).0; d.(range := c.range) == c
  {
  }

  /** Validate is idempotent on what it accepts. */
  lemma ValidateIdempotent(c: Config)
    requires Validate(c).1 == None
    ensures Fixed(Validate(c).0) && Accepted(Validate(c).0)
  {
    var c3 := Stages(c);
    var c2 := Prepared(c);
    AcceptedIsSettled(c.transport);
    SettledIff(c2.transport);
    ClientKeeps(c2);
    if c2.role == "client" {
      ClientDefaultsStay(c2);
    }
    LastStages(c3);
    FixedIsAccepted(Validate(c).0);
  }

  lemma UpstreamKeeps(c: Config, d: Config)
    requires d == ValidateUpstream(c).0
    ensures d == c.(upstream := d.upstream)
    ensures c.upstream.Some? <==> d.upstream.Some?
    ensures c.upstream.Some? ==> d.upstream.value.servers == c.upstream.value.servers
  {
  }

  /** The client checks read neither the strategy nor the log level. */
  lemma ClientIgnores(c: Config, d: Config)
    requires ValidateClient(c) == (c, None)
    requires d == c.(upstream := d.upstream, logLevel := d.logLevel)
    requires c.upstream.Some? <==> d.upstream.Some?
    requires c.upstream.Some? ==> d.upstream.value.servers == c.upstream.value.servers
    ensures ValidateClient(d) == (d, None)
  {
    assert NameSet(d) == NameSet(c);
    assert ClientDefaults(d) == d;
    assert ClientErrorOf(d) == ClientErrorOf(c);
  }
}
