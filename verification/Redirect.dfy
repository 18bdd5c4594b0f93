/** Range mode's iptables rules (applyRules and removeRules in
    redirect/redirect_linux.go): the chain they build and what it does to a packet. */
module Redirect {
  import opened Options
  import opened Ports

  datatype Rule = Return(port: int) | RedirectTo(range: Range, to: int)

  /** A rule of PREROUTING: the jump to our chain, or a rule of somebody else. */
  datatype Hook = Jump | Foreign(id: nat)

  /** The nat table as far as this program touches it. */
  datatype Nat = Nat(chain: Option<seq<Rule>>, hooks: seq<Hook>)

  datatype Cmd = NewChain | Flush | Append(rule: Rule) | Unhook | Hook | DropChain

  predicate Acceptable(r: Rule) {
    match r
    case Return(p) => 0 <= p <= MAX_PORT
    case RedirectTo(g, to) => 0 <= g.lo <= g.hi <= MAX_PORT && 0 <= to <= MAX_PORT
  }

  function RemoveFirst(hs: seq<Hook>): seq<Hook> {
    if hs == [] then [] else if hs[0] == Jump then hs[1..] else [hs[0]] + RemoveFirst(hs[1..])
  }

  /** The exit status of an iptables command that does run. */
  predicate Succeeds(n: Nat, c: Cmd) {
    match c
    case NewChain => n.chain.None?
    case Flush => n.chain.Some?
    case Append(r) => n.chain.Some? && Acceptable(r)
    case Unhook => Jump in n.hooks
    case Hook => n.chain.Some?
    case DropChain => n.chain == Some([]) && Jump !in n.hooks
  }

  function Effect(n: Nat, c: Cmd): Nat
    requires Succeeds(n, c)
  {
    match c
    case NewChain => n.(chain := Some([]))
    case Flush => n.(chain := Some([]))
    case Append(r) => n.(chain := Some(n.chain.value + [r]))
    case Unhook => n.(hooks := RemoveFirst(n.hooks))
    case Hook => n.(hooks := n.hooks + [Jump])
    case DropChain => n.(chain := None)
  }

  // ---- what a chain does to a TCP packet for port `p` ----

  datatype Verdict = Pass | Redirected(to: int)

  /** First match: RETURN and the end of the chain go back to PREROUTING. */
  function Eval(chain: seq<Rule>, p: int): Verdict {
    if chain == [] then Pass
    else match chain[0]
         case Return(q) => if p == q then Pass else Eval(chain[1..], p)
         case RedirectTo(g, to) => if g.Has(p) then Redirected(to) else Eval(chain[1..], p)
  }

  /** PREROUTING, for a packet that no foreign rule matches. */
  function Traverse(hooks: seq<Hook>, chain: seq<Rule>, p: int): Verdict {
    if hooks == [] then Pass
    else if hooks[0] == Jump && Eval(chain, p).Redirected? then Eval(chain, p)
    else Traverse(hooks[1..], chain, p)
  }

  // ---- the chain of a configuration ----

  datatype Config = Config(redirectPort: int, ranges: seq<Range>, exclude: seq<int>)

  function Returns(ps: seq<int>): (rs: seq<Rule>)
    ensures |rs| == |ps| && forall i | 0 <= i < |ps| :: rs[i] == Return(ps[i])
  {
    seq(|ps|, i requires 0 <= i < |ps| => Return(ps[i]))
  }

  function Redirects(gs: seq<Range>, to: int): (rs: seq<Rule>)
    ensures |rs| == |gs| && forall i | 0 <= i < |gs| :: rs[i] == RedirectTo(gs[i], to)
  {
    seq(|gs|, i requires 0 <= i < |gs| => RedirectTo(gs[i], to))
  }

  function Chain(c: Config): seq<Rule> {
    Returns(c.exclude + [c.redirectPort]) + Redirects(c.ranges, c.redirectPort)
  }

  /** No port of the configuration is outside the range iptables takes. */
  predicate AllAcceptable(rs: seq<Rule>) {
    forall i | 0 <= i < |rs| :: Acceptable(rs[i])
  }

  ghost predicate Covered(gs: seq<Range>, p: int) {
    exists i :: 0 <= i < |gs| && gs[i].Has(p)
  }

  lemma {:induction false} EvalReturns(ps: seq<int>, rest: seq<Rule>, p: int)
    ensures Eval(Returns(ps) + rest, p) == if p in ps then Pass else Eval(rest, p)
  {
    var chain := Returns(ps) + rest;
    if ps == [] {
      assert chain == rest;
    } else {
      assert chain[1..] == Returns(ps[1..]) + rest;
      EvalReturns(ps[1..], rest, p);
    }
  }

  lemma {:induction false} EvalRedirects(gs: seq<Range>, to: int, p: int)
    ensures Eval(Redirects(gs, to), p) == if Covered(gs, p) then Redirected(to) else Pass
  {
    if gs == [] {
    } else {
      assert Redirects(gs, to)[1..] == Redirects(gs[1..], to);
      EvalRedirects(gs[1..], to, p);
      if Covered(gs[1..], p) {
        var i :| 0 <= i < |gs[1..]| && gs[1..][i].Has(p);
        assert gs[i + 1].Has(p);
      }
      if i :| 0 <= i < |gs| && gs[i].Has(p) && i > 0 {
        assert gs[1..][i - 1].Has(p);
      }
    }
  }

  /** The meaning of range mode: a connection to port `p` is redirected if and only if
      some range covers `p`, it is not excluded and it is not the redirect port. */
  lemma ChainMeaning(c: Config, p: int)
    ensures Eval(Chain(c), p)
         == if Covered(c.ranges, p) && p !in c.exclude && p != c.redirectPort
            then Redirected(c.redirectPort) else Pass
  {
    EvalReturns(c.exclude + [c.redirectPort], Redirects(c.ranges, c.redirectPort), p);
    EvalRedirects(c.ranges, c.redirectPort, p);
  }

  /** From the configuration text to the packet. */
  lemma RangeModeMeaning(ports: string, exclude: string, redirectPort: int, hooks: seq<Hook>, p: int)
    requires ParseRanges(ports).Some? && ParseExclude(exclude).Some? && Jump in hooks
    ensures var c := Config(redirectPort, ParseRanges(ports).value, ParseExclude(exclude).value);
            Traverse(hooks, Chain(c), p)
            == if Covered(c.ranges, p) && p !in c.exclude && p != redirectPort
               then Redirected(redirectPort) else Pass
  {
    var c := Config(redirectPort, ParseRanges(ports).value, ParseExclude(exclude).value);
    ChainMeaning(c, p);
    JumpsDoNotAddUp(hooks, Chain(c), p);
  }

  /** One jump or several: PREROUTING decides what the chain decides. */
  lemma {:induction false} JumpsDoNotAddUp(hooks: seq<Hook>, chain: seq<Rule>, p: int)
    ensures Traverse(hooks, chain, p) == if Jump in hooks then Eval(chain, p) else Pass
  {
    if hooks == [] {
    } else {
      JumpsDoNotAddUp(hooks[1..], chain, p);
    }
  }

  // ---- jumps ----

  function Jumps(hs: seq<Hook>): nat {
    if hs == [] then 0 else (if hs[0] == Jump then 1 else 0) + Jumps(hs[1..])
  }

  /** The rules of others, in order. */
  function Foreigners(hs: seq<Hook>): seq<Hook> {
    if hs == [] then [] else (if hs[0] == Jump then [] else [hs[0]]) + Foreigners(hs[1..])
  }

  lemma {:induction false} RemoveFirstEffect(hs: seq<Hook>)
    ensures Jumps(RemoveFirst(hs)) == if Jump in hs then Jumps(hs) - 1 else 0
    ensures Jump in hs <==> Jumps(hs) > 0
    ensures Foreigners(RemoveFirst(hs)) == Foreigners(hs)
  {
    if hs == [] {
    } else {
      RemoveFirstEffect(hs[1..]);
      if hs[0] != Jump {
        var r := [hs[0]] + RemoveFirst(hs[1..]);
        assert r[1..] == RemoveFirst(hs[1..]);
      }
    }
  }

  lemma {:induction false} AddJumpEffect(hs: seq<Hook>)
    ensures Jumps(hs + [Jump]) == Jumps(hs) + 1
    ensures Foreigners(hs + [Jump]) == Foreigners(hs)
  {
    if hs == [] {
      assert hs + [Jump] == [Jump] && [Jump][1..] == [];
    } else {
      assert (hs + [Jump])[1..] == hs[1..] + [Jump];
      AddJumpEffect(hs[1..]);
    }
  }

  lemma {:induction false} RemoveFirstNone(hs: seq<Hook>)
    ensures Jump !in hs ==> RemoveFirst(hs) == hs
  {
    if hs == [] {
    } else {
      RemoveFirstNone(hs[1..]);
    }
  }

  lemma AcceptableSplit(a: seq<Rule>, b: seq<Rule>)
    ensures AllAcceptable(a + b) <==> AllAcceptable(a) && AllAcceptable(b)
  {
    forall i | 0 <= i < |b|
      ensures (a + b)[|a| + i] == b[i]
    {
    }
    if AllAcceptable(a + b) {
      forall i | 0 <= i < |a|
        ensures Acceptable(a[i])
      {
        assert (a + b)[i] == a[i];
      }
      forall i | 0 <= i < |b|
        ensures Acceptable(b[i])
      {
        assert Acceptable((a + b)[|a| + i]);
      }
    }
  }

  /** The rules that are in the chain when the first unacceptable one stops the loop. */
  function Built(rs: seq<Rule>): seq<Rule> {
    if rs == [] || !Acceptable(rs[0]) then [] else [rs[0]] + Built(rs[1..])
  }

  lemma {:induction false} BuiltAll(rs: seq<Rule>)
    requires AllAcceptable(rs)
    ensures Built(rs) == rs
  {
    if rs == [] {
    } else {
      BuiltAll(rs[1..]);
    }
  }

  lemma {:induction false} BuiltUpTo(rs: seq<Rule>, i: nat)
    requires i < |rs| && AllAcceptable(rs[..i]) && !Acceptable(rs[i])
    ensures Built(rs) == rs[..i]
  {
    if i == 0 {
    } else {
      assert rs[..i][0] == rs[0] && rs[1..][..i - 1] == rs[..i][1..];
      BuiltUpTo(rs[1..], i - 1);
      assert rs[..i] == [rs[0]] + rs[1..][..i - 1];
    }
  }

  lemma {:induction false} BuiltConcat(a: seq<Rule>, b: seq<Rule>)
    ensures Built(a + b) == if AllAcceptable(a) then a + Built(b) else Built(a)
  {
    if a == [] {
      assert a + b == b;
    } else {
      assert (a + b)[1..] == a[1..] + b;
      BuiltConcat(a[1..], b);
      if AllAcceptable(a) {
        assert a == [a[0]] + a[1..];
      } else if Acceptable(a[0]) {
        assert !AllAcceptable(a[1..]);
      }
    }
  }

  /** With valid ranges and exclusions, all rules are acceptable if and only if the
      redirect port is. */
  lemma ChainAcceptableIff(redirectPort: int, ranges: seq<Range>, exclude: seq<int>)
    requires AllOk(ranges) && forall i | 0 <= i < |exclude| :: 1 <= exclude[i] <= MAX_PORT
    ensures AllAcceptable(Chain(Config(redirectPort, ranges, exclude))) <==> 0 <= redirectPort <= MAX_PORT
  {
    var excl := exclude + [redirectPort];
    AcceptableSplit(Returns(excl), Redirects(ranges, redirectPort));
    if AllAcceptable(Returns(excl)) {
      assert Acceptable(Returns(excl)[|exclude|]);
    }
  }

  // ---- the program ----

  /** `glitch[i]` says that the i-th command from now on fails to run at all. */
  class Manager {
    var nft: Nat
    var glitch: seq<bool>
    var cfg: Config
    var applied: bool

    constructor (nft: Nat, glitch: seq<bool>, cfg: Config)
      ensures this.nft == nft && this.glitch == glitch && this.cfg == cfg && !applied
    {
      this.nft, this.glitch, this.cfg, applied := nft, glitch, cfg, false;
    }

    method Run(c: Cmd) returns (ok: bool)
      modifies this`nft, this`glitch
      ensures ok ==> Succeeds(old(nft), c) && nft == Effect(old(nft), c)
      ensures !ok ==> nft == old(nft)
      ensures old(glitch) == [] ==> glitch == [] && (ok <==> Succeeds(old(nft), c))
    {
      var broken := glitch != [] && glitch[0];
      if glitch != [] {
        glitch := glitch[1..];
      }
      ok := !broken && Succeeds(nft, c);
      if ok {
        nft := Effect(nft, c);
      }
    }

    /** applyRules, the exclusions: one RETURN rule each, up to the first failure. */
    method AppendReturns(excl: seq<int>) returns (ok: bool)
      requires nft.chain.Some?
      modifies this`nft, this`glitch
      ensures nft.hooks == old(nft).hooks && nft.chain.Some?
      ensures ok ==> nft.chain.value == old(nft).chain.value + Returns(excl)
      ensures old(glitch) == [] ==> glitch == [] && (ok <==> AllAcceptable(Returns(excl)))
      ensures old(glitch) == [] ==> nft.chain.value == old(nft).chain.value + Built(Returns(excl))
    {
      ghost var rs, before := Returns(excl), nft.chain.value;
      ok := true;
      for i := 0 to |excl|
        invariant ok && nft.chain.Some? && nft.chain.value == before + rs[..i] && nft.hooks == old(nft).hooks
        invariant old(glitch) == [] ==> glitch == []
        invariant AllAcceptable(rs[..i])
      {
        ok := Run(Append(Return(excl[i])));
        if !ok {
          assert rs[i] == Return(excl[i]);
          if old(glitch) == [] {
            BuiltUpTo(rs, i);
          }
          return;
        }
        assert rs[..i + 1] == rs[..i] + [Return(excl[i])];
      }
      assert rs[..|excl|] == rs;
      BuiltAll(rs);
    }

    /** applyRules, the ranges: one REDIRECT rule each, up to the first failure. */
    method AppendRedirects() returns (ok: bool)
      requires nft.chain.Some?
      modifies this`nft, this`glitch
      ensures nft.hooks == old(nft).hooks && nft.chain.Some?
      ensures ok ==> nft.chain.value == old(nft).chain.value + Redirects(cfg.ranges, cfg.redirectPort)
      ensures old(glitch) == [] ==>
                glitch == [] && (ok <==> AllAcceptable(Redirects(cfg.ranges, cfg.redirectPort)))
      ensures old(glitch) == [] ==>
                nft.chain.value == old(nft).chain.value + Built(Redirects(cfg.ranges, cfg.redirectPort))
    {
      ghost var gs, before := Redirects(cfg.ranges, cfg.redirectPort), nft.chain.value;
      ok := true;
      for i := 0 to |cfg.ranges|
        invariant ok && nft.chain.Some? && nft.chain.value == before + gs[..i] && nft.hooks == old(nft).hooks
        invariant old(glitch) == [] ==> glitch == []
        invariant AllAcceptable(gs[..i])
      {
        var r := RedirectTo(cfg.ranges[i], cfg.redirectPort);
        ok := Run(Append(r));
        if !ok {
          assert gs[i] == r;
          if old(glitch) == [] {
            BuiltUpTo(gs, i);
          }
          return;
        }
        assert gs[..i + 1] == gs[..i] + [r];
      }
      assert gs[..|cfg.ranges|] == gs;
      BuiltAll(gs);
    }

    /** applyRules, the chain: emptied and filled anew. */
    method FillChain() returns (ok: bool)
      modifies this`nft, this`glitch
      ensures nft.hooks == old(nft).hooks
      ensures ok ==> nft.chain == Some(Chain(cfg))
      ensures old(glitch) == [] ==>
                glitch == [] && (ok <==> AllAcceptable(Chain(cfg))) && nft.chain == Some(Built(Chain(cfg)))
    {
      ok := Run(NewChain);
      ok := Run(Flush);
      if !ok {
        return;
      }
      var excl := cfg.exclude + [cfg.redirectPort];
      ghost var rs, gs := Returns(excl), Redirects(cfg.ranges, cfg.redirectPort);
      AcceptableSplit(rs, gs);
      BuiltConcat(rs, gs);
      ok := AppendReturns(excl);
      if !ok {
        assert [] + Built(rs) == Built(rs);
        return;
      }
      assert nft.chain.value == rs;
      ok := AppendRedirects();
    }

    /** applyRules. Success means: exactly the chain of the configuration, the rules of
        others untouched and in order, and our jump last. Failure never adds a jump. */
    method ApplyRules() returns (ok: bool)
      modifies this`nft, this`glitch
      ensures Foreigners(nft.hooks) == Foreigners(old(nft).hooks)
      ensures ok ==> nft.hooks != [] && nft.hooks[|nft.hooks| - 1] == Jump
      ensures ok ==> nft.chain == Some(Chain(cfg)) && Jump in nft.hooks
                     && Jumps(nft.hooks) <= Jumps(old(nft).hooks) + 1
      ensures ok && old(glitch) == [] ==>
                Jumps(nft.hooks) == if Jumps(old(nft).hooks) == 0 then 1 else Jumps(old(nft).hooks)
      ensures !ok ==> Jumps(nft.hooks) <= Jumps(old(nft).hooks)
      ensures old(glitch) == [] ==> (ok <==> AllAcceptable(Chain(cfg))) && nft.chain == Some(Built(Chain(cfg)))
      ensures old(glitch) == [] && !ok ==> nft.hooks == old(nft).hooks
    {
      RemoveFirstEffect(nft.hooks);
      AddJumpEffect(nft.hooks);
      AddJumpEffect(RemoveFirst(nft.hooks));
      ok := FillChain();
      if !ok {
        return;
      }
      ok := Run(Unhook);
      ok := Run(Hook);
    }

    /** removeRules does nothing before a first success. Afterwards it takes out one
        jump and, if that was the last one, the chain. */
    method RemoveRules()
      modifies this
      ensures cfg == old(cfg) && !applied
      ensures !old(applied) ==> nft == old(nft)
      ensures Foreigners(nft.hooks) == Foreigners(old(nft).hooks)
      ensures old(applied) && old(glitch) == [] ==> nft.hooks == RemoveFirst(old(nft).hooks)
      ensures old(applied) && old(glitch) == [] && Jumps(old(nft).hooks) <= 1 ==>
                nft.chain == None && Jumps(nft.hooks) == 0
    {
      if !applied {
        return;
      }
      RemoveFirstEffect(nft.hooks);
      RemoveFirstEffect(RemoveFirst(nft.hooks));
      RemoveFirstNone(nft.hooks);
      var ok := Run(Unhook);
      ok := Run(Flush);
      ok := Run(DropChain);
      applied := false;
    }

    /** The part of Start before the listener: a failed application is not undone,
        since removeRules still thinks that nothing was applied. If every command runs,
        the rules before the first unacceptable one stay in the chain, and a jump that
        was there before leads to them. */
    method Install() returns (ok: bool)
      modifies this
      ensures applied == ok
      ensures ok ==> nft.chain == Some(Chain(cfg)) && Jump in nft.hooks && cfg == old(cfg)
      ensures !old(applied) && !ok ==> Jumps(nft.hooks) <= Jumps(old(nft).hooks)
      ensures !old(applied) && old(glitch) == [] ==>
                && cfg == old(cfg) && (ok <==> AllAcceptable(Chain(cfg)))
                && nft.chain == Some(Built(Chain(cfg))) && (!ok ==> nft.hooks == old(nft).hooks)
    {
      ok := ApplyRules();
      if !ok {
        RemoveRules();
      } else {
        applied := true;
      }
    }
  }
}
