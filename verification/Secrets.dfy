/** Hiding secrets from the configuration editor and putting them back when an edited
    configuration is saved (redactConfig and restoreSecrets in admin/config.go). */
module Secrets {
  import opened Options
  import opened Text
  import opened Config
  import ConfigObject

  const MARK := "***REDACTED***"

  predicate IsRedacted(v: string) {
    Blank(v) || Trim(v) == MARK
  }

  lemma MarkIsRedacted()
    ensures Trim(MARK) == MARK && !Blank(MARK) && IsRedacted(MARK)
  {
    TrimMeans(MARK);
  }

  /** A secret counts as hidden if it is blank or the mark, white space around it or not. */
  lemma HiddenIff(v: string)
    ensures IsRedacted(v) <==> Blank(v) || exists l: string, r: string :: Padded(v, l, r)
  {
    MarkIsRedacted();
    var x, y := TrimCuts(v);
    if Trim(v) == MARK {
      assert Padded(v, x, y);
    }
    if l: string, r: string :| Padded(v, l, r) {
      TrimPadded(l, MARK, r);
    }
  }

  predicate Padded(v: string, l: string, r: string) {
    Blank(l) && Blank(r) && v == l + "***REDACTED***" + r
  }

  // ---- redactConfig ----

  function Hide(v: string): string {
    if Blank(v) then v else MARK
  }

  function HideServer(s: Server): Server {
    s.(key := Hide(s.key))
  }

  function HideServers(ss: seq<Server>): (r: seq<Server>)
    ensures |r| == |ss| && forall i | 0 <= i < |ss| :: r[i] == HideServer(ss[i])
  {
    seq(|ss|, i requires 0 <= i < |ss| => HideServer(ss[i]))
  }

  /** A password is hidden as soon as it is not empty, white space included. */
  function HideSocks(s: Socks): Socks {
    if s.auth.Some? && s.auth.value.pass != "" then s.(auth := Some(s.auth.value.(pass := MARK))) else s
  }

  function HideAllSocks(ss: seq<Socks>): (r: seq<Socks>)
    ensures |r| == |ss| && forall i | 0 <= i < |ss| :: r[i] == HideSocks(ss[i])
  {
    seq(|ss|, i requires 0 <= i < |ss| => HideSocks(ss[i]))
  }

  function Redact(c: Config): Config {
    c.(transport := c.transport.(kcp := c.transport.kcp.(key := Hide(c.transport.kcp.key))),
       admin := match c.admin case None => None case Some(a) => Some(a.(token := Hide(a.token))),
       upstream := match c.upstream case None => None case Some(u) => Some(u.(servers := HideServers(u.servers))),
       socks5 := HideAllSocks(c.socks5))
  }

  // ---- what redaction shows ----

  /** Two values of which redaction shows the same: both are hidden, or neither and they
      are equal. */
  predicate Alike(a: string, b: string) {
    if Blank(a) || Blank(b) then a == b else true
  }

  lemma HideIff(a: string, b: string)
    ensures Hide(a) == Hide(b) <==> Alike(a, b)
  {
    MarkIsRedacted();
  }

  predicate AlikeServers(s: Server, t: Server) {
    s.(key := t.key) == t && Alike(s.key, t.key)
  }

  /** Passwords are alike if both are empty or neither is. */
  predicate AlikeSocks(s: Socks, t: Socks) {
    if s.auth.Some? && t.auth.Some?
    then s.(auth := t.auth) == t && s.auth.value.user == t.auth.value.user
         && (s.auth.value.pass == "" <==> t.auth.value.pass == "")
    else s == t
  }

  lemma HideServerIff(s: Server, t: Server)
    ensures HideServer(s) == HideServer(t) <==> AlikeServers(s, t)
  {
    HideIff(s.key, t.key);
    assert s.(key := t.key) == t <==> s.(key := "") == t.(key := "");
  }

  lemma HideSocksIff(s: Socks, t: Socks)
    ensures HideSocks(s) == HideSocks(t) <==> AlikeSocks(s, t)
  {
    MarkIsRedacted();
  }

  ghost predicate AlikeTransports(t: Transport, u: Transport) {
    t.(kcp := t.kcp.(key := u.kcp.key)) == u && Alike(t.kcp.key, u.kcp.key)
  }

  ghost predicate AlikeAdmins(a: Option<Admin>, b: Option<Admin>) {
    if a.Some? && b.Some? then a.value.(token := b.value.token) == b.value && Alike(a.value.token, b.value.token)
    else a == b
  }

  ghost predicate AlikeUpstreams(a: Option<Upstream>, b: Option<Upstream>) {
    if a.Some? && b.Some?
    then a.value.(servers := b.value.servers) == b.value && |a.value.servers| == |b.value.servers|
         && forall i | 0 <= i < |a.value.servers| :: AlikeServers(a.value.servers[i], b.value.servers[i])
    else a == b
  }

  /** Two configurations that differ in secrets only: in the global key, the admin token,
      the keys of servers and the passwords of SOCKS5 rules, and there only where both
      have one. */
  ghost predicate AlikeConfigs(c: Config, d: Config) {
    && c.(transport := d.transport, admin := d.admin, upstream := d.upstream, socks5 := d.socks5) == d
    && AlikeTransports(c.transport, d.transport) && AlikeAdmins(c.admin, d.admin)
    && AlikeUpstreams(c.upstream, d.upstream)
    && |c.socks5| == |d.socks5| && forall i | 0 <= i < |c.socks5| :: AlikeSocks(c.socks5[i], d.socks5[i])
  }

  lemma HideServersIff(ss: seq<Server>, ts: seq<Server>)
    ensures HideServers(ss) == HideServers(ts) <==>
              |ss| == |ts| && forall i | 0 <= i < |ss| :: AlikeServers(ss[i], ts[i])
  {
    forall i | 0 <= i < |ss| && i < |ts|
      ensures HideServers(ss)[i] == HideServers(ts)[i] <==> AlikeServers(ss[i], ts[i])
    {
      HideServerIff(ss[i], ts[i]);
    }
    if HideServers(ss) == HideServers(ts) {
      assert |ss| == |HideServers(ss)| == |ts|;
    }
  }

  lemma HideAllSocksIff(ss: seq<Socks>, ts: seq<Socks>)
    ensures HideAllSocks(ss) == HideAllSocks(ts) <==>
              |ss| == |ts| && forall i | 0 <= i < |ss| :: AlikeSocks(ss[i], ts[i])
  {
    forall i | 0 <= i < |ss| && i < |ts|
      ensures HideAllSocks(ss)[i] == HideAllSocks(ts)[i] <==> AlikeSocks(ss[i], ts[i])
    {
      HideSocksIff(ss[i], ts[i]);
    }
    if HideAllSocks(ss) == HideAllSocks(ts) {
      assert |ss| == |HideAllSocks(ss)| == |ts|;
    }
  }

  lemma RedactTransportsIff(t: Transport, u: Transport)
    ensures t.(kcp := t.kcp.(key := Hide(t.kcp.key))) == u.(kcp := u.kcp.(key := Hide(u.kcp.key)))
       <==> AlikeTransports(t, u)
  {
    HideIff(t.kcp.key, u.kcp.key);
  }

  lemma RedactUpstreamsIff(c: Config, d: Config)
    ensures Redact(c).upstream == Redact(d).upstream <==> AlikeUpstreams(c.upstream, d.upstream)
  {
    if c.upstream.Some? && d.upstream.Some? {
      HideServersIff(c.upstream.value.servers, d.upstream.value.servers);
    }
  }

  lemma RedactAdminsIff(c: Config, d: Config)
    ensures Redact(c).admin == Redact(d).admin <==> AlikeAdmins(c.admin, d.admin)
  {
    if c.admin.Some? && d.admin.Some? {
      HideIff(c.admin.value.token, d.admin.value.token);
    }
  }

  /** What redaction hides, exactly: two configurations look the same redacted if and only
      if they differ in those secrets only. */
  lemma RedactHidesIff(c: Config, d: Config)
    ensures Redact(c) == Redact(d) <==> AlikeConfigs(c, d)
  {
    RedactTransportsIff(c.transport, d.transport);
    RedactAdminsIff(c, d);
    RedactUpstreamsIff(c, d);
    HideAllSocksIff(c.socks5, d.socks5);
  }

  /** What is shown in place of a secret: the mark, or nothing at all where there was
      nothing to hide. The mark is taken for hidden when it comes back. */
  lemma RedactShows(c: Config)
    ensures var r := Redact(c);
            && SameButSecrets(r, c) && Masks(c.transport.kcp.key, r.transport.kcp.key)
            && (c.admin.Some? ==> Masks(c.admin.value.token, r.admin.value.token))
            && (c.upstream.Some? ==> forall i | 0 <= i < |c.upstream.value.servers| ::
                  Masks(c.upstream.value.servers[i].key, r.upstream.value.servers[i].key))
            && forall i | 0 <= i < |c.socks5| && c.socks5[i].auth.Some? ::
                 var pass := r.socks5[i].auth.value.pass;
                 if c.socks5[i].auth.value.pass == "" then pass == "" else pass == "***REDACTED***"
    ensures IsRedacted("***REDACTED***")
  {
    MarkIsRedacted();
    forall i | 0 <= i < |c.socks5|
      ensures SameRule(Redact(c).socks5[i], c.socks5[i])
    {
    }
  }

  predicate Masks(secret: string, shown: string) {
    if Blank(secret) then shown == secret else shown == "***REDACTED***"
  }

  /** One secret is not among them: the key in a server's own transport block is shown,
      so changing it alone changes the redacted configuration. */
  lemma OverrideKeyShows(c: Config, u: Upstream, i: nat, t: Transport, key: string)
    requires c.upstream == Some(u) && i < |u.servers| && u.servers[i].transport == Some(t) && key != t.kcp.key
    ensures var s := u.servers[i].(transport := Some(t.(kcp := t.kcp.(key := key))));
            Redact(c.(upstream := Some(u.(servers := u.servers[i := s])))) != Redact(c)
  {
    var s := u.servers[i].(transport := Some(t.(kcp := t.kcp.(key := key))));
    var d := c.(upstream := Some(u.(servers := u.servers[i := s])));
    RedactUpstreamsIff(d, c);
    assert !AlikeServers(d.upstream.value.servers[i], u.servers[i]);
  }

  // ---- restoreSecrets ----

  /** The first server of that name from position `from` on. */
  function FindName(ss: seq<Server>, name: string, from: nat): (r: Option<nat>)
    requires from <= |ss|
    ensures r.Some? ==> from <= r.value < |ss|
    decreases |ss| - from
  {
    if from == |ss| then None
    else if ss[from].name == name then Some(from)
    else FindName(ss, name, from + 1)
  }

  /** lookupUpstreamKey: by name if there is one, else by position. */
  function LookupKey(ss: seq<Server>, name: string, i: nat): string {
    if name != "" && FindName(ss, name, 0).Some? then ss[FindName(ss, name, 0).value].key
    else if i < |ss| then ss[i].key
    else ""
  }

  function RestoreServer(s: Server, cur: seq<Server>, i: nat): Server {
    if IsRedacted(s.key) && LookupKey(cur, s.name, i) != "" then s.(key := LookupKey(cur, s.name, i)) else s
  }

  function RestoreServers(ss: seq<Server>, cur: seq<Server>): (r: seq<Server>)
    ensures |r| == |ss| && forall i | 0 <= i < |ss| :: r[i] == RestoreServer(ss[i], cur, i)
  {
    seq(|ss|, i requires 0 <= i < |ss| => RestoreServer(ss[i], cur, i))
  }

  function RestoreSocks(s: Socks, cur: seq<Socks>, i: nat): Socks {
    if s.auth.Some? && IsRedacted(s.auth.value.pass) && i < |cur| && cur[i].auth.Some?
    then s.(auth := Some(s.auth.value.(pass := cur[i].auth.value.pass)))
    else s
  }

  function RestoreAllSocks(ss: seq<Socks>, cur: seq<Socks>): (r: seq<Socks>)
    ensures |r| == |ss| && forall i | 0 <= i < |ss| :: r[i] == RestoreSocks(ss[i], cur, i)
  {
    seq(|ss|, i requires 0 <= i < |ss| => RestoreSocks(ss[i], cur, i))
  }

  function Restore(c: Config, running: Option<Config>): Config {
    match running
    case None => c
    case Some(cur) =>
      c.(transport := if IsRedacted(c.transport.kcp.key)
                      then c.transport.(kcp := c.transport.kcp.(key := cur.transport.kcp.key)) else c.transport,
         admin := if c.admin.Some? && cur.admin.Some? && IsRedacted(c.admin.value.token)
                  then Some(c.admin.value.(token := cur.admin.value.token)) else c.admin,
         upstream := if c.upstream.Some? && cur.upstream.Some?
                     then Some(c.upstream.value.(servers := RestoreServers(c.upstream.value.servers,
                                                                           cur.upstream.value.servers)))
                     else c.upstream,
         socks5 := RestoreAllSocks(c.socks5, cur.socks5))
  }

  // ---- by name ----

  lemma {:induction false} FindNameFirst(ss: seq<Server>, name: string, from: nat)
    requires from <= |ss|
    ensures match FindName(ss, name, from)
            case None => (forall k | from <= k < |ss| :: ss[k].name != name)
            case Some(i) => (from <= i < |ss| && ss[i].name == name && forall k | from <= k < i :: ss[k].name != name)
    decreases |ss| - from
  {
    if from < |ss| && ss[from].name != name {
      FindNameFirst(ss, name, from + 1);
    }
  }

  /** Servers that have names have different ones. */
  ghost predicate DistinctNames(ss: seq<Server>) {
    forall i, j | 0 <= i < j < |ss| :: ss[i].name != "" ==> ss[i].name != ss[j].name
  }

  lemma LookupOwnKey(ss: seq<Server>, i: nat)
    requires DistinctNames(ss) && i < |ss|
    ensures LookupKey(ss, ss[i].name, i) == ss[i].key
  {
    FindNameFirst(ss, ss[i].name, 0);
  }

  /** A hidden server gets its key back, given where that key is found. */
  lemma HiddenComesBack(s: Server, cur: seq<Server>, i: nat)
    requires LookupKey(cur, s.name, i) == s.key
    ensures RestoreServer(HideServer(s), cur, i) == s
  {
    MarkIsRedacted();
  }

  lemma SocksComeBack(ss: seq<Socks>)
    ensures RestoreAllSocks(HideAllSocks(ss), ss) == ss
  {
    MarkIsRedacted();
  }

  lemma OthersComeBack(c: Config)
    ensures var r := Restore(Redact(c), Some(c));
            r.(upstream := c.upstream) == c && (c.upstream.None? ==> r.upstream.None?)
  {
    MarkIsRedacted();
    SocksComeBack(c.socks5);
  }

  /** The round trip of the configuration editor: a redacted configuration saved as it
      is is the running one, as long as no two servers share a name. */
  lemma RestoreRedact(c: Config)
    requires c.upstream.Some? ==> DistinctNames(c.upstream.value.servers)
    ensures Restore(Redact(c), Some(c)) == c
  {
    OthersComeBack(c);
    if c.upstream.Some? {
      var ss := c.upstream.value.servers;
      forall i | 0 <= i < |ss|
        ensures RestoreServer(HideServer(ss[i]), ss, i) == ss[i]
      {
        LookupOwnKey(ss, i);
        HiddenComesBack(ss[i], ss, i);
      }
      assert RestoreServers(HideServers(ss), ss) == ss;
    }
  }

  /** No server before `i` has its name. */
  ghost predicate FirstOfName(ss: seq<Server>, i: nat)
    requires i < |ss|
  {
    forall k | 0 <= k < i :: ss[k].name != ss[i].name
  }

  /** A key that hiding leaves as it is. */
  predicate Shown(key: string) {
    Blank(key) || key == MARK
  }

  /** Servers that share a name share the key of the first of them, unless that one is
      empty and theirs was never hidden. */
  ghost predicate SharedKeys(ss: seq<Server>) {
    forall i, j | 0 <= i < j < |ss| && ss[i].name != "" && ss[i].name == ss[j].name && FirstOfName(ss, i)
      :: ss[j].key == ss[i].key || (ss[i].key == "" && Shown(ss[j].key))
  }

  /** What a server's hidden key comes back as. */
  lemma HiddenKey(ss: seq<Server>, i: nat) returns (f: nat)
    requires i < |ss|
    ensures f <= i && (ss[i].name == "" ==> f == i) && ss[f].name == ss[i].name
    ensures ss[i].name != "" ==> FirstOfName(ss, f)
    ensures RestoreServer(HideServer(ss[i]), ss, i) == ss[i] <==>
              ss[i].key == ss[f].key || (ss[f].key == "" && Shown(ss[i].key))
  {
    MarkIsRedacted();
    FindNameFirst(ss, ss[i].name, 0);
    f := if ss[i].name == "" then i else FindName(ss, ss[i].name, 0).value;
  }

  lemma LookupIsOwnIff(ss: seq<Server>)
    ensures RestoreServers(HideServers(ss), ss) == ss <==> SharedKeys(ss)
  {
    var rs := RestoreServers(HideServers(ss), ss);
    if SharedKeys(ss) {
      forall i | 0 <= i < |ss|
        ensures rs[i] == ss[i]
      {
        var f := HiddenKey(ss, i);
      }
    }
    if rs == ss {
      forall i, j | 0 <= i < j < |ss| && ss[i].name != "" && ss[i].name == ss[j].name && FirstOfName(ss, i)
        ensures ss[j].key == ss[i].key || (ss[i].key == "" && Shown(ss[j].key))
      {
        var f := HiddenKey(ss, j);
        assert f == i && rs[j] == ss[j];
      }
    }
  }

  /** Without the distinctness of names, which Validate does not demand, exactly: the
      round trip holds if and only if servers of one name have one key. */
  lemma RestoreRedactIff(c: Config)
    ensures Restore(Redact(c), Some(c)) == c <==> (c.upstream.Some? ==> SharedKeys(c.upstream.value.servers))
  {
    OthersComeBack(c);
    if c.upstream.Some? {
      LookupIsOwnIff(c.upstream.value.servers);
    }
  }

  // ---- edited server lists ----

  /** However a list of named servers was reordered, shortened, extended or edited
      (`i` and `j` are any two positions): a hidden server comes back as it was, one
      edited in other fields gets the key of its own name back, and a key that was
      typed in stays as typed. */
  lemma EditedServers(c: Config, cur: Config, i: nat, j: nat)
    requires c.upstream.Some? && cur.upstream.Some?
    requires i < |c.upstream.value.servers| && j < |cur.upstream.value.servers|
    requires DistinctNames(cur.upstream.value.servers)
    ensures var s, was, rs := c.upstream.value.servers[i], cur.upstream.value.servers[j],
                               Restore(c, Some(cur)).upstream.value.servers;
            && |rs| == |c.upstream.value.servers|
            && rs[i].(key := s.key) == s
            && (!IsRedacted(s.key) ==> rs[i] == s)
            && (s.name == was.name != "" && s == HideServer(was) ==> rs[i] == was)
            && (s.name == was.name != "" && IsRedacted(s.key) && was.key != "" ==> rs[i].key == was.key)
  {
    MarkIsRedacted();
    FindNameFirst(cur.upstream.value.servers, c.upstream.value.servers[i].name, 0);
  }

  /** When a hidden server comes back, exactly. `k` is the key its name, or else its
      position, leads to among the running servers. */
  lemma ServerBackIff(was: Server, cur: seq<Server>, i: nat)
    ensures var k := LookupKey(cur, was.name, i);
            RestoreServer(HideServer(was), cur, i) == was <==> was.key == k || (k == "" && Shown(was.key))
  {
    MarkIsRedacted();
  }

  /** The server's key is the one it is looked up as, or was never hidden and is not
      looked up. */
  predicate KeyInPlace(was: Server, cur: seq<Server>, i: nat) {
    was.key == LookupKey(cur, was.name, i) || (LookupKey(cur, was.name, i) == "" && Shown(was.key))
  }

  /** So however a list of servers was edited while its keys were hidden, it comes back as
      meant if and only if every server's key is the one its name or position leads to. */
  lemma EditedServersIff(servers: seq<Server>, cur: seq<Server>)
    ensures RestoreServers(HideServers(servers), cur) == servers <==>
              forall i | 0 <= i < |servers| :: KeyInPlace(servers[i], cur, i)
  {
    var back := RestoreServers(HideServers(servers), cur);
    forall i | 0 <= i < |servers|
      ensures back[i] == servers[i] <==> KeyInPlace(servers[i], cur, i)
    {
      ServerBackIff(servers[i], cur, i);
    }
    if back == servers {
      forall i | 0 <= i < |servers|
        ensures KeyInPlace(servers[i], cur, i)
      {
        assert back[i] == servers[i];
      }
    }
  }

  /** A server that is new or renamed, and whose key is left blank or hidden, is given the
      key of whichever running server stands at its position. */
  lemma NewServerTakesKey(s: Server, cur: seq<Server>, i: nat)
    requires IsRedacted(s.key) && i < |cur| && cur[i].key != ""
    requires forall k | 0 <= k < |cur| :: cur[k].name != s.name
    ensures RestoreServer(s, cur, i) == s.(key := cur[i].key)
  {
    FindNameFirst(cur, s.name, 0);
  }

  // ---- any edit at all ----

  ghost predicate SameAdmin(a: Option<Admin>, b: Option<Admin>) {
    if a.Some? && b.Some? then a.value.(token := b.value.token) == b.value else a == b
  }

  ghost predicate SameUpstream(a: Option<Upstream>, b: Option<Upstream>) {
    if a.Some? && b.Some?
    then a.value.(servers := b.value.servers) == b.value && |a.value.servers| == |b.value.servers|
         && forall i | 0 <= i < |a.value.servers| ::
              a.value.servers[i].(key := b.value.servers[i].key) == b.value.servers[i]
    else a == b
  }

  ghost predicate SameRule(s: Socks, t: Socks) {
    if s.auth.Some? && t.auth.Some? then s.(auth := t.auth) == t && s.auth.value.user == t.auth.value.user
    else s == t
  }

  /** Two configurations that agree in everything but the values of their secrets. */
  ghost predicate SameButSecrets(c: Config, d: Config) {
    && c.(transport := d.transport, admin := d.admin, upstream := d.upstream, socks5 := d.socks5) == d
    && c.transport.(kcp := c.transport.kcp.(key := d.transport.kcp.key)) == d.transport
    && SameAdmin(c.admin, d.admin) && SameUpstream(c.upstream, d.upstream)
    && |c.socks5| == |d.socks5| && forall i | 0 <= i < |c.socks5| :: SameRule(c.socks5[i], d.socks5[i])
  }

  /** Saving keeps every edit: whatever is running, nothing but secrets differs between
      the configuration that was edited and the one that is saved. */
  lemma EditsAreKept(c: Config, cur: Config)
    ensures SameButSecrets(Restore(c, Some(cur)), c) && Restore(c, None) == c
  {
    var r := Restore(c, Some(cur));
    forall i | 0 <= i < |c.socks5|
      ensures SameRule(r.socks5[i], c.socks5[i])
    {
    }
    if c.upstream.Some? && cur.upstream.Some? {
      var ss := c.upstream.value.servers;
      forall i | 0 <= i < |ss|
        ensures r.upstream.value.servers[i].(key := ss[i].key) == ss[i]
      {
      }
    }
  }

  /** The running server whose key a hidden one is given: the first of its name, or if
      there is none the one at its position. */
  ghost predicate Holder(cur: seq<Server>, name: string, i: nat, j: nat) {
    && j < |cur|
    && if name != "" && exists k :: 0 <= k < |cur| && cur[k].name == name
       then cur[j].name == name && forall k | 0 <= k < j :: cur[k].name != name
       else j == i
  }

  lemma OneHolder(cur: seq<Server>, name: string, i: nat, j: nat)
    requires Holder(cur, name, i, j)
    ensures LookupKey(cur, name, i) == cur[j].key
  {
    FindNameFirst(cur, name, 0);
  }

  lemma FindHolder(cur: seq<Server>, name: string, i: nat) returns (j: nat)
    ensures LookupKey(cur, name, i) != "" ==> Holder(cur, name, i, j) && LookupKey(cur, name, i) == cur[j].key
  {
    FindNameFirst(cur, name, 0);
    j := if name != "" && FindName(cur, name, 0).Some? then FindName(cur, name, 0).value else i;
  }

  /** And what becomes of the secrets, whatever else was edited: a hidden global key or
      token becomes the running one, a hidden key of a server the one its holder runs
      with, a hidden password the one of the running rule at its position, each if there
      is one; everything else stays as it is. */
  lemma SecretsSaved(c: Config, cur: Config)
    ensures Restore(c, Some(cur)).transport.kcp.key == Saved(c.transport.kcp.key, Some(cur.transport.kcp.key))
    ensures c.admin.Some? ==>
              var (a, running) := (Restore(c, Some(cur)).admin, cur.admin);
              a.Some? && a.value.token
                         == Saved(c.admin.value.token, if running.Some? then Some(running.value.token) else None)
    ensures var rs := Restore(c, Some(cur)).socks5;
            && |rs| == |c.socks5|
            && forall i: nat | i < |rs| && c.socks5[i].auth.Some? ::
                 rs[i].auth.Some? && rs[i].auth.value.pass
                 == Saved(c.socks5[i].auth.value.pass,
                          if HasPassword(cur.socks5, i) then Some(cur.socks5[i].auth.value.pass) else None)
    ensures c.upstream.Some? ==>
              var (r, ss) := (Restore(c, Some(cur)).upstream, c.upstream.value.servers);
              r.Some? && |r.value.servers| == |ss|
              && forall i: nat | i < |ss| :: KeySaved(ss[i], cur.upstream, i, r.value.servers[i].key)
  {
    if c.upstream.Some? && cur.upstream.Some? {
      var ss, rs := c.upstream.value.servers, cur.upstream.value.servers;
      forall i: nat | i < |ss|
        ensures KeySaved(ss[i], cur.upstream, i, RestoreServer(ss[i], rs, i).key)
      {
        ServerKeySaved(ss[i], rs, cur.upstream, i);
      }
    }
  }

  /** A secret that is hidden is saved as the running one, if there is one. */
  function Saved(given: string, running: Option<string>): string {
    if IsRedacted(given) && running.Some? then running.value else given
  }

  /** What server `s` at position `i` is saved with. */
  ghost predicate KeySaved(s: Server, running: Option<Upstream>, i: nat, key: string) {
    if IsRedacted(s.key) && running.Some? && exists j: nat :: Gives(running.value.servers, s.name, i, j)
    then exists j: nat :: Gives(running.value.servers, s.name, i, j) && key == running.value.servers[j].key
    else key == s.key
  }

  ghost predicate Gives(cur: seq<Server>, name: string, i: nat, j: nat) {
    Holder(cur, name, i, j) && cur[j].key != ""
  }

  lemma ServerKeySaved(s: Server, cur: seq<Server>, running: Option<Upstream>, i: nat)
    requires running.Some? && running.value.servers == cur
    ensures KeySaved(s, running, i, RestoreServer(s, cur, i).key)
  {
    var h := FindHolder(cur, s.name, i);
    if LookupKey(cur, s.name, i) != "" {
      assert Gives(cur, s.name, i, h);
    }
    forall j: nat | Gives(cur, s.name, i, j)
      ensures cur[j].key == LookupKey(cur, s.name, i)
    {
      OneHolder(cur, s.name, i, j);
    }
  }

  /** Each secret that was typed in stays as typed, whatever becomes of the others. */
  lemma TypedSecretsStay(c: Config, cur: Config)
    ensures var r := Restore(c, Some(cur));
            && (!IsRedacted(c.transport.kcp.key) ==> r.transport == c.transport)
            && (c.admin.Some? && !IsRedacted(c.admin.value.token) ==> r.admin == c.admin)
            && |r.socks5| == |c.socks5|
            && forall i | 0 <= i < |c.socks5| && c.socks5[i].auth.Some? && !IsRedacted(c.socks5[i].auth.value.pass)
                 :: r.socks5[i] == c.socks5[i]
  {
  }

  /** No secret of the configuration is hidden. */
  ghost predicate AllTyped(c: Config) {
    && !IsRedacted(c.transport.kcp.key)
    && (c.admin.Some? ==> !IsRedacted(c.admin.value.token))
    && (c.upstream.Some? ==>
          forall i | 0 <= i < |c.upstream.value.servers| :: !IsRedacted(c.upstream.value.servers[i].key))
    && (forall i | 0 <= i < |c.socks5| && c.socks5[i].auth.Some? :: !IsRedacted(c.socks5[i].auth.value.pass))
  }

  /** A configuration whose secrets are all typed in is saved as it is, whatever is
      running. */
  lemma TypedConfigStays(c: Config, running: Option<Config>)
    requires AllTyped(c)
    ensures Restore(c, running) == c
  {
    if running.Some? {
      var cur := running.value;
      TypedSecretsStay(c, cur);
      if c.upstream.Some? && cur.upstream.Some? {
        assert RestoreServers(c.upstream.value.servers, cur.upstream.value.servers) == c.upstream.value.servers;
      }
      assert RestoreAllSocks(c.socks5, cur.socks5) == c.socks5;
    }
  }

  // ---- passwords ----

  /** The running rule at position `i` has a password to restore. */
  predicate HasPassword(cur: seq<Socks>, i: nat) {
    i < |cur| && cur[i].auth.Some?
  }

  /** The running rule at the position of rule `i` has the password of rule `i`; where it
      has none, that password was never hidden. */
  ghost predicate InPlace(was: Socks, cur: seq<Socks>, i: nat) {
    was.auth.Some? ==>
      if HasPassword(cur, i) then cur[i].auth.value.pass == was.auth.value.pass
      else was.auth.value.pass == "" || was.auth.value.pass == MARK
  }

  /** When a rule's password comes back, exactly. For a password that is hidden at all the
      running rule at its position must have one, and the same. */
  lemma PasswordBackIff(was: Socks, cur: seq<Socks>, i: nat)
    ensures RestoreSocks(HideSocks(was), cur, i) == was <==> InPlace(was, cur, i)
    ensures was.auth.Some? && was.auth.value.pass != "" && was.auth.value.pass != MARK ==>
              (RestoreSocks(HideSocks(was), cur, i) == was
               <==> HasPassword(cur, i) && cur[i].auth.value.pass == was.auth.value.pass)
  {
    MarkIsRedacted();
  }

  /** Passwords have no names and are put back by position. So however the list of rules
      was edited while its passwords were hidden, it comes back as meant if and only if
      every rule stands where its password stood. */
  lemma EditedPasswordsIff(rules: seq<Socks>, cur: seq<Socks>)
    ensures RestoreAllSocks(HideAllSocks(rules), cur) == rules <==>
              forall i | 0 <= i < |rules| :: InPlace(rules[i], cur, i)
  {
    var back := RestoreAllSocks(HideAllSocks(rules), cur);
    forall i | 0 <= i < |rules|
      ensures back[i] == rules[i] <==> InPlace(rules[i], cur, i)
    {
      PasswordBackIff(rules[i], cur, i);
    }
    if back == rules {
      forall i | 0 <= i < |rules|
        ensures InPlace(rules[i], cur, i)
      {
        assert back[i] == rules[i];
      }
    }
  }

  /** In a list of rules that all have passwords to hide, exchanging two of them is
      undone by nothing: the list comes back as meant only if they share the password. */
  lemma SwappedPasswords(cur: seq<Socks>, i: nat, j: nat)
    requires i < j < |cur| && forall k | 0 <= k < |cur| :: cur[k].auth.Some? && cur[k].auth.value.pass != ""
    ensures var edited := cur[i := cur[j]][j := cur[i]];
            RestoreAllSocks(HideAllSocks(edited), cur) == edited <==> cur[i].auth.value.pass == cur[j].auth.value.pass
  {
    var edited := cur[i := cur[j]][j := cur[i]];
    EditedPasswordsIff(edited, cur);
    assert InPlace(edited[i], cur, i) <==> cur[i].auth.value.pass == cur[j].auth.value.pass;
    forall k | 0 <= k < |edited| && k != i && k != j
      ensures InPlace(edited[k], cur, k)
    {
      assert edited[k] == cur[k];
    }
  }

  // ---- in place ----

  method HideKeys(servers: seq<Server>) returns (ss: seq<Server>)
    ensures ss == HideServers(servers)
  {
    ss := servers;
    for i := 0 to |ss|
      invariant |ss| == |servers|
      invariant forall k | 0 <= k < |ss| :: ss[k] == if k < i then HideServer(servers[k]) else servers[k]
    {
      if !Blank(ss[i].key) {
        ss := ss[i := ss[i].(key := MARK)];
      }
    }
  }

  method HidePasswords(rules: seq<Socks>) returns (ss: seq<Socks>)
    ensures ss == HideAllSocks(rules)
  {
    ss := rules;
    for i := 0 to |ss|
      invariant |ss| == |rules|
      invariant forall k | 0 <= k < |ss| :: ss[k] == if k < i then HideSocks(rules[k]) else rules[k]
    {
      if ss[i].auth.Some? && ss[i].auth.value.pass != "" {
        ss := ss[i := ss[i].(auth := Some(ss[i].auth.value.(pass := MARK)))];
      }
    }
  }

  /** redactConfig works on a copy; the running configuration is left alone. */
  method RedactConfig(c: ConfigObject.ConfigObject) returns (cp: ConfigObject.ConfigObject)
    ensures fresh(cp) && cp.Value() == Redact(c.Value()) && c.Value() == old(c.Value())
  {
    cp := new ConfigObject.ConfigObject(c.Value());
    if !Blank(cp.transport.kcp.key) {
      cp.transport := cp.transport.(kcp := cp.transport.kcp.(key := MARK));
    }
    if cp.admin.Some? && !Blank(cp.admin.value.token) {
      cp.admin := Some(cp.admin.value.(token := MARK));
    }
    if cp.upstream.Some? {
      var ss := HideKeys(cp.upstream.value.servers);
      cp.upstream := Some(cp.upstream.value.(servers := ss));
    }
    var rules := HidePasswords(cp.socks5);
    cp.socks5 := rules;
  }

  method LookupUpstreamKey(ss: seq<Server>, name: string, i: nat) returns (key: string)
    ensures key == LookupKey(ss, name, i)
  {
    if name != "" {
      for k := 0 to |ss|
        invariant FindName(ss, name, 0) == FindName(ss, name, k)
      {
        if ss[k].name == name {
          return ss[k].key;
        }
      }
    }
    if i < |ss| {
      return ss[i].key;
    }
    return "";
  }

  method RestoreKeys(servers: seq<Server>, cur: seq<Server>) returns (ss: seq<Server>)
    ensures ss == RestoreServers(servers, cur)
  {
    ss := servers;
    for i := 0 to |ss|
      invariant |ss| == |servers|
      invariant forall k | 0 <= k < |ss| :: ss[k] == if k < i then RestoreServer(servers[k], cur, k) else servers[k]
    {
      if IsRedacted(ss[i].key) {
        var key := LookupUpstreamKey(cur, ss[i].name, i);
        if key != "" {
          ss := ss[i := ss[i].(key := key)];
        }
      }
    }
  }

  method RestorePasswords(rules: seq<Socks>, cur: seq<Socks>) returns (ss: seq<Socks>)
    ensures ss == RestoreAllSocks(rules, cur)
  {
    ss := rules;
    for i := 0 to |ss|
      invariant |ss| == |rules|
      invariant forall k | 0 <= k < |ss| :: ss[k] == if k < i then RestoreSocks(rules[k], cur, k) else rules[k]
    {
      if ss[i].auth.Some? && IsRedacted(ss[i].auth.value.pass) {
        if i < |cur| && cur[i].auth.Some? {
          ss := ss[i := ss[i].(auth := Some(ss[i].auth.value.(pass := cur[i].auth.value.pass)))];
        }
      }
    }
  }

  /** restoreSecrets overwrites the incoming configuration. */
  method RestoreSecrets(c: ConfigObject.ConfigObject, running: Option<Config>)
    modifies c
    ensures c.Value() == Restore(old(c.Value()), running)
  {
    if running == None {
      return;
    }
    var cur := running.value;
    if IsRedacted(c.transport.kcp.key) {
      c.transport := c.transport.(kcp := c.transport.kcp.(key := cur.transport.kcp.key));
    }
    if c.admin.Some? && cur.admin.Some? && IsRedacted(c.admin.value.token) {
      c.admin := Some(c.admin.value.(token := cur.admin.value.token));
    }
    if c.upstream.Some? && cur.upstream.Some? {
      var ss := RestoreKeys(c.upstream.value.servers, cur.upstream.value.servers);
      c.upstream := Some(c.upstream.value.(servers := ss));
    }
    var rules := RestorePasswords(c.socks5, cur.socks5);
    c.socks5 := rules;
  }
}
