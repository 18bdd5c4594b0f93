/** Accepted configurations that show where the promises of the configuration end. */
module ConfigWitness {
  import opened Options
  import opened Text
  import opened Config
  import opened Endpoints
  import opened ConfigFacts
  import opened ResolvedFacts
  import Ports
  import Redirect
  import Secrets

  // ---- an accepted configuration without a cipher ----

  const EMPTY_KCP := Kcp("", "", "", 0, 0, 0, 0, 0)
  const EMPTY_QUIC := Quic("", "", "")
  const QUIC := Transport("quic", 6, EMPTY_KCP.(key := "k"), EMPTY_QUIC.(alpn := "a"))
  const KCP_SERVER := Server("s", "a", "k", 1, 1, Some(Transport("kcp", 0, EMPTY_KCP, EMPTY_QUIC)))

  /** A client over a global quic transport with one server that only says `protocol: kcp`
      and one SOCKS5 rule. */
  const CIPHERLESS := Config("client", Some(Upstream("f", 0, 0, [KCP_SERVER])), [], [Socks("l", None)], None, None,
                             Network("i", Link("a", "m"), None), None, QUIC, None, "i")

  lemma LettersSolid()
    ensures !Blank("k") && !Blank("a") && !Blank("f") && !Blank("i") && !Blank("m")
  {
    SolidNotBlank("k");
    SolidNotBlank("a");
    SolidNotBlank("f");
    SolidNotBlank("i");
    SolidNotBlank("m");
  }

  lemma WordsResolve()
    ensures Resolved(QUIC) == "quic" && Resolved(KCP_SERVER.transport.value) == "kcp" && !Blank("kcp") && !Blank("quic")
  {
    WordStays("quic");
    WordStays("kcp");
    SolidNotBlank("quic");
    SolidNotBlank("kcp");
  }

  lemma QuicAccepted()
    ensures ValidateTransport(QUIC) == (QUIC, None)
  {
    WordsResolve();
    LettersSolid();
    SettledIff(QUIC);
  }

  lemma KcpServerAccepted()
    ensures ServerError(QUIC, KCP_SERVER, 0) == None
  {
    WordsResolve();
    LettersSolid();
  }

  lemma CipherlessUpstream()
    ensures ValidateUpstream(CIPHERLESS) == (CIPHERLESS, None)
  {
    KcpServerAccepted();
    LettersSolid();
    assert ServersError(QUIC, [KCP_SERVER], 1) == None;
    assert ServersError(QUIC, [KCP_SERVER], 0) == None;
  }

  lemma CipherlessClient()
    ensures ValidateClient(CIPHERLESS) == (CIPHERLESS, None)
  {
  }

  lemma CipherlessAccepted()
    ensures Validate(CIPHERLESS) == (CIPHERLESS, None)
  {
    CipherlessUpstream();
    CipherlessClient();
    QuicAccepted();
    LettersSolid();
    FixedIsAccepted(CIPHERLESS);
  }

  lemma CipherlessLacks()
    ensures ServersOf(CIPHERLESS) == [KCP_SERVER] && ServerLacks(CIPHERLESS, KCP_SERVER)
  {
    WordsResolve();
  }

  /** A configuration with one server resolves if that server's address parses. */
  lemma OneServerResolves(c: Config, s: Server, parse: AddrParser)
    requires ServersOf(c) == [s] && parse(s.addr).Some?
    ensures UpstreamEndpoints(c, parse).Endpoints?
  {
    var eps := SortedResolve(MakerOf(c, parse, [s]), 1);
  }

  lemma OneServerLacks(c: Config, s: Server, parse: AddrParser)
    requires Validate(c) == (c, None) && ServersOf(c) == [s] && parse(s.addr).Some? && ServerLacks(c, s)
    ensures UpstreamEndpoints(c, parse).Endpoints?
    ensures exists k: nat :: k < |UpstreamEndpoints(c, parse).eps| && EndpointLacks(UpstreamEndpoints(c, parse).eps[k])
  {
    OneServerResolves(c, s, parse);
    assert ServerLacks(c, ServersOf(c)[0]);
    MissingCipherIff(c, parse);
  }

  lemma OneServerOverflows(c: Config, s: Server, parse: AddrParser)
    requires Validate(c) == (c, None) && ServersOf(c) == [s] && parse(s.addr).Some? && ServerOverflows(c, s)
    ensures UpstreamEndpoints(c, parse).Endpoints?
    ensures exists k: nat :: k < |UpstreamEndpoints(c, parse).eps| && TooManyAt(UpstreamEndpoints(c, parse).eps[k])
  {
    OneServerResolves(c, s, parse);
    assert ServerOverflows(c, ServersOf(c)[0]);
    ShardOverflowIff(c, parse);
  }

  /** It is accepted as it is, and its endpoint runs kcp with a blank block cipher. */
  lemma BlankBlockWitness(parse: AddrParser)
    requires parse("a").Some?
    ensures Validate(CIPHERLESS) == (CIPHERLESS, None) && UpstreamEndpoints(CIPHERLESS, parse).Endpoints?
    ensures exists k: nat :: k < |UpstreamEndpoints(CIPHERLESS, parse).eps|
                             && EndpointLacks(UpstreamEndpoints(CIPHERLESS, parse).eps[k])
  {
    CipherlessAccepted();
    CipherlessLacks();
    OneServerLacks(CIPHERLESS, KCP_SERVER, parse);
  }

  // ---- an accepted configuration with too many shards ----

  const HUGE := Transport("kcp", 6, Kcp("f", "a", "k", 1150, MAX_INT64, 1, 0, 0), EMPTY_QUIC)
  const PLAIN_SERVER := Server("s", "a", "k", 1, 1, None)
  const OVERFLOWING := CIPHERLESS.(transport := HUGE, upstream := Some(Upstream("f", 0, 0, [PLAIN_SERVER])))

  lemma HugeAccepted()
    ensures ValidateTransport(HUGE) == (HUGE, None) && Resolved(HUGE) == "kcp"
  {
    WordsResolve();
    WordStays("kcp");
    LettersSolid();
    SettledIff(HUGE);
  }

  lemma HugeOverflows()
    ensures ServersOf(OVERFLOWING) == [PLAIN_SERVER] && ServerOverflows(OVERFLOWING, PLAIN_SERVER)
  {
    HugeAccepted();
  }

  lemma OverflowingUpstream()
    ensures ValidateUpstream(OVERFLOWING) == (OVERFLOWING, None)
  {
    LettersSolid();
    assert ServersError(HUGE, [PLAIN_SERVER], 1) == None;
    assert ServersError(HUGE, [PLAIN_SERVER], 0) == None;
  }

  lemma OverflowingAccepted()
    ensures Validate(OVERFLOWING) == (OVERFLOWING, None)
  {
    HugeAccepted();
    OverflowingUpstream();
    LettersSolid();
    assert ValidateClient(OVERFLOWING) == (OVERFLOWING, None);
    FixedIsAccepted(OVERFLOWING);
  }

  /** 2^63 - 1 data shards and one parity shard are accepted as they are. */
  lemma OverflowWitness(parse: AddrParser)
    requires parse("a").Some?
    ensures Validate(OVERFLOWING) == (OVERFLOWING, None) && UpstreamEndpoints(OVERFLOWING, parse).Endpoints?
    ensures exists k: nat :: k < |UpstreamEndpoints(OVERFLOWING, parse).eps|
                             && TooManyAt(UpstreamEndpoints(OVERFLOWING, parse).eps[k])
  {
    OverflowingAccepted();
    HugeOverflows();
    OneServerOverflows(OVERFLOWING, PLAIN_SERVER, parse);
  }

  // ---- a binding written with white space ----

  const UNTRIMMED := CIPHERLESS.(forward := [Forward("l", "t", " s")])

  lemma LeadingSpace(s: string)
    requires Trimmed(s) && s != ""
    ensures Trim(" " + s) == s && " " + s != s && !Blank(" " + s)
  {
    var t := " " + s;
    assert t[1..] == s && t[|t| - 1] == s[|s| - 1];
    TrimMeans(s);
    TrimMeans(t);
  }

  lemma FirstName(c: Config)
    requires HasServers(c)
    ensures ServerName(ServersOf(c)[0], 0) in NameSet(c)
  {
  }

  lemma UntrimmedClient()
    ensures ValidateClient(UNTRIMMED) == (UNTRIMMED, None)
  {
    SolidNotBlank("s");
    LeadingSpace("s");
    assert " " + "s" == " s";
    FirstName(UNTRIMMED);
    assert ForwardError([], NameSet(UNTRIMMED)) == None;
    assert UNTRIMMED.forward[1..] == [];
  }

  lemma UntrimmedAccepted()
    ensures Validate(UNTRIMMED) == (UNTRIMMED, None)
  {
    CipherlessUpstream();
    UntrimmedClient();
    QuicAccepted();
    LettersSolid();
    FixedIsAccepted(UNTRIMMED);
  }

  /** A binding that is accepted as it is and names no endpoint. */
  lemma UntrimmedWitness(parse: AddrParser)
    requires parse("a").Some?
    ensures Validate(UNTRIMMED) == (UNTRIMMED, None) && InForce(UNTRIMMED, " s")
    ensures UpstreamEndpoints(UNTRIMMED, parse).Endpoints? && " s" !in Names(UpstreamEndpoints(UNTRIMMED, parse).eps)
  {
    UntrimmedAccepted();
    OneServerResolves(UNTRIMMED, KCP_SERVER, parse);
    assert UNTRIMMED.forward[0].bindUpstream == " s";
    SolidNotBlank("s");
    LeadingSpace("s");
    assert " " + "s" == " s";
    BindNamesEndpointIff(UNTRIMMED, parse, " s");
  }

  // ---- two servers of one name ----

  const NAMESAKE := KCP_SERVER.(key := "m")
  const NAMESAKES := CIPHERLESS.(upstream := Some(Upstream("f", 0, 0, [KCP_SERVER, NAMESAKE])))

  lemma NamesakeAccepted()
    ensures ServerError(QUIC, NAMESAKE, 1) == None
  {
    WordsResolve();
    LettersSolid();
  }

  lemma NamesakesUpstream()
    ensures ValidateUpstream(NAMESAKES) == (NAMESAKES, None)
  {
    KcpServerAccepted();
    NamesakeAccepted();
    LettersSolid();
    assert ServersError(QUIC, [KCP_SERVER, NAMESAKE], 2) == None;
    assert ServersError(QUIC, [KCP_SERVER, NAMESAKE], 1) == None;
    assert ServersError(QUIC, [KCP_SERVER, NAMESAKE], 0) == None;
  }

  lemma NamesakesClient()
    ensures ValidateClient(NAMESAKES) == (NAMESAKES, None)
  {
  }

  lemma NamesakesAccepted()
    ensures Validate(NAMESAKES) == (NAMESAKES, None)
  {
    NamesakesUpstream();
    NamesakesClient();
    QuicAccepted();
    LettersSolid();
    FixedIsAccepted(NAMESAKES);
  }

  lemma OtherKeysUnshared(ss: seq<Server>)
    requires |ss| == 2 && ss[0].name == ss[1].name != "" && ss[0].key != ss[1].key && ss[0].key != ""
    ensures !Secrets.SharedKeys(ss)
  {
    assert Secrets.FirstOfName(ss, 0);
  }

  /** An accepted configuration that does not survive being shown and saved. */
  lemma NamesakesWitness()
    ensures Validate(NAMESAKES) == (NAMESAKES, None)
    ensures Secrets.Restore(Secrets.Redact(NAMESAKES), Some(NAMESAKES)) != NAMESAKES
  {
    NamesakesAccepted();
    OtherKeysUnshared([KCP_SERVER, NAMESAKE]);
    Secrets.RestoreRedactIff(NAMESAKES);
  }

  // ---- a redirect port that is none ----

  /** A client that redirects port `p` except port `x`, to a port 70000. */
  function Redirecting(p: nat, x: nat): Config {
    CIPHERLESS.(range := Some(RangeMode(true, "tcp", 70000, "h", Join(Ports.RenderPorts([p]), ','),
                                        Join(Ports.RenderPorts([x]), ','), "")))
  }

  lemma PortTexts(p: nat)
    requires 1 <= p <= Ports.MAX_PORT
    ensures var text := Join(Ports.RenderPorts([p]), ',');
            !Blank(text) && Ports.ParseExclude(text) == Some([p])
            && Ports.ParseRanges(text) == Some([Ports.Range(p, p)])
  {
    var text := Join(Ports.RenderPorts([p]), ',');
    assert Ports.RenderPorts([p]) == [Itoa(p)] && text == Itoa(p);
    Ports.ParseExcludeOfRender([p]);
    assert Ports.RenderRanges([Ports.Range(p, p)]) == [Itoa(p)];
    Ports.ParseRangesOfRender([Ports.Range(p, p)]);
    Ports.NumeralTrimmed(text);
    TrimMeans(text);
  }

  lemma RedirectingClient(p: nat, x: nat)
    requires 1 <= p <= Ports.MAX_PORT && 1 <= x <= Ports.MAX_PORT
    ensures ValidateClient(Redirecting(p, x)) == (Redirecting(p, x), None)
  {
    var c := Redirecting(p, x);
    var r := c.range.value;
    PortTexts(p);
    PortTexts(x);
    RangeStands(r);
    assert RangeError(r) == None;
    assert c.(range := Some(r)) == c;
  }

  lemma RangeStands(r: RangeMode)
    requires r.protocol == "tcp" && r.redirectPort > 0 && r.targetHost == "h" && !Blank(r.ports) && !Blank(r.exclude)
    ensures RangeDefaults(r) == r
  {
    SolidNotBlank("tcp");
    SolidNotBlank("h");
  }

  lemma RedirectingAccepted(p: nat, x: nat)
    requires 1 <= p <= Ports.MAX_PORT && 1 <= x <= Ports.MAX_PORT
    ensures Validate(Redirecting(p, x)) == (Redirecting(p, x), None)
  {
    var c := Redirecting(p, x);
    RedirectingClient(p, x);
    KcpServerAccepted();
    LettersSolid();
    assert ServersError(QUIC, [KCP_SERVER], 1) == None;
    assert ServersError(QUIC, [KCP_SERVER], 0) == None;
    assert ValidateUpstream(c) == (c, None);
    QuicAccepted();
    FixedIsAccepted(c);
  }

  /** It is accepted, but its chain cannot be built: of its rules only those before the
      first one that names the redirect port get there. */
  lemma NoPortWitness(p: nat, x: nat)
    requires 1 <= p <= Ports.MAX_PORT && 1 <= x <= Ports.MAX_PORT
    ensures Validate(Redirecting(p, x)) == (Redirecting(p, x), None)
    ensures var r := Redirecting(p, x).range.value;
            && Ports.ParseRanges(r.ports) == Some([Ports.Range(p, p)]) && Ports.ParseExclude(r.exclude) == Some([x])
            && var chain := Redirect.Chain(Redirect.Config(r.redirectPort, [Ports.Range(p, p)], [x]));
               !Redirect.AllAcceptable(chain) && Redirect.Built(chain) == [Redirect.Return(x)]
  {
    RedirectingAccepted(p, x);
    PortTexts(p);
    PortTexts(x);
    var chain := Redirect.Chain(Redirect.Config(70000, [Ports.Range(p, p)], [x]));
    assert chain[0] == Redirect.Return(x) && chain[1] == Redirect.Return(70000);
    assert Redirect.AllAcceptable(chain[..1]) && chain[..1] == [Redirect.Return(x)];
    Redirect.BuiltUpTo(chain, 1);
  }
}
