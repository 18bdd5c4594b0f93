/** A restart of range mode: the old manager's removeRules runs in a goroutine nobody waits
    for, beside the new manager's applyRules, on one nat table (redirect_linux.go and
    startServices in tunnel/client.go). Every iptables command is one step. */
module RedirectRaces {
  import opened Options
  import opened Redirect

  /** A start in progress: the table, and whether applyRules has gone on so far. */
  datatype Start = Start(nft: Nat, ok: bool)

  function End(rs: seq<Rule>): nat {
    |rs| + 4
  }

  /** The commands of applyRules. */
  function Command(rs: seq<Rule>, q: nat): Cmd
    requires q < End(rs)
  {
    if q == 0 then NewChain
    else if q == 1 then Flush
    else if q < |rs| + 2 then Append(rs[q - 2])
    else if q == |rs| + 2 then Unhook
    else Hook
  }

  /** Its errors are fatal but for these. */
  predicate Ignored(c: Cmd) {
    c.NewChain? || c.Unhook?
  }

  function Next(s: Start, c: Cmd): Start {
    if !s.ok then s
    else if Succeeds(s.nft, c) then s.(nft := Effect(s.nft, c))
    else s.(ok := Ignored(c))
  }

  /** The start goes on from its command `p` to before command `q`. */
  function Ran(s: Start, rs: seq<Rule>, p: nat, q: nat): Start
    requires p <= q <= End(rs)
  {
    if p == q then s else Next(Ran(s, rs, p, q - 1), Command(rs, q - 1))
  }

  /** A command of removeRules, whose errors are all ignored. */
  function Removed(s: Start, c: Cmd): Start {
    if Succeeds(s.nft, c) then s.(nft := Effect(s.nft, c)) else s
  }

  /** The three commands of removeRules come when the start has issued `p1`, `p2` and `p3`
      of its own. */
  function Race(n: Nat, rs: seq<Rule>, p1: nat, p2: nat, p3: nat): Start
    requires p1 <= p2 <= p3 <= End(rs)
  {
    var s1 := Removed(Ran(Start(n, true), rs, 0, p1), Unhook);
    var s2 := Removed(Ran(s1, rs, p1, p2), Flush);
    var s3 := Removed(Ran(s2, rs, p2, p3), DropChain);
    Ran(s3, rs, p3, End(rs))
  }

  /** The start reports success and its chain is the one that packets meet. */
  predicate InForce(s: Start, rs: seq<Rule>) {
    s.ok && s.nft.chain == Some(rs) && Jump in s.nft.hooks
  }

  // ---- a stretch of the start's commands ----

  lemma {:induction false} RanSplit(s: Start, rs: seq<Rule>, p: nat, q: nat, e: nat)
    requires p <= q <= e <= End(rs)
    ensures Ran(s, rs, p, e) == Ran(Ran(s, rs, p, q), rs, q, e)
    decreases e
  {
    if q == e {
    } else {
      RanSplit(s, rs, p, q, e - 1);
    }
  }

  /** How many rules are appended by the first `p` commands. */
  function Rules(rs: seq<Rule>, p: nat): (k: nat)
    ensures k <= |rs|
  {
    if p <= 2 then 0 else if p <= |rs| + 2 then p - 2 else |rs|
  }

  function Fewer(jumps: nat): nat {
    if jumps == 0 then 0 else jumps - 1
  }

  /** The jumps after commands `p` to `q`. */
  function JumpsAfter(rs: seq<Rule>, jumps: nat, p: nat, q: nat): nat {
    var n := |rs| + 2;
    (if p <= n < q then Fewer(jumps) else jumps) + if p <= n + 1 < q then 1 else 0
  }

  function ChainAfter(rs: seq<Rule>, chain: seq<Rule>, p: nat, q: nat): seq<Rule>
    requires p <= q
  {
    if p <= 1 < q then rs[..Rules(rs, q)] else chain + rs[Rules(rs, p)..Rules(rs, q)]
  }

  /** A start that goes on, with this chain and so many jumps. */
  predicate Stands(s: Start, chain: seq<Rule>, jumps: nat) {
    s.ok && s.nft.chain == Some(chain) && Jumps(s.nft.hooks) == jumps
  }

  lemma AppendStep(s: Start, rs: seq<Rule>, q: nat, chain: seq<Rule>, jumps: nat)
    requires 2 <= q < |rs| + 2 && Stands(s, chain, jumps) && AllAcceptable(rs)
    ensures Stands(Next(s, Command(rs, q)), ChainAfter(rs, chain, q, q + 1), JumpsAfter(rs, jumps, q, q + 1))
  {
    assert Command(rs, q) == Append(rs[q - 2]) && Acceptable(rs[q - 2]);
    assert rs[q - 2..q - 1] == [rs[q - 2]];
  }

  lemma OneCommand(s: Start, rs: seq<Rule>, q: nat, chain: seq<Rule>, jumps: nat)
    requires q < End(rs) && Stands(s, chain, jumps) && AllAcceptable(rs)
    ensures Stands(Next(s, Command(rs, q)), ChainAfter(rs, chain, q, q + 1), JumpsAfter(rs, jumps, q, q + 1))
  {
    if 2 <= q < |rs| + 2 {
      AppendStep(s, rs, q, chain, jumps);
    } else {
      RemoveFirstEffect(s.nft.hooks);
      AddJumpEffect(s.nft.hooks);
      assert chain + rs[Rules(rs, q)..Rules(rs, q + 1)] == chain;
    }
  }

  lemma ChainSnoc(rs: seq<Rule>, chain: seq<Rule>, p: nat, q: nat)
    requires p < q <= End(rs)
    ensures ChainAfter(rs, ChainAfter(rs, chain, p, q - 1), q - 1, q) == ChainAfter(rs, chain, p, q)
  {
    var i, j, k := Rules(rs, p), Rules(rs, q - 1), Rules(rs, q);
    assert rs[..j] + rs[j..k] == rs[..k] && rs[i..j] + rs[j..k] == rs[i..k];
    assert (chain + rs[i..j]) + rs[j..k] == chain + rs[i..k];
  }

  lemma JumpsSnoc(rs: seq<Rule>, jumps: nat, p: nat, q: nat)
    requires p < q
    ensures JumpsAfter(rs, JumpsAfter(rs, jumps, p, q - 1), q - 1, q) == JumpsAfter(rs, jumps, p, q)
  {
  }

  lemma {:induction false} Stretch(s: Start, rs: seq<Rule>, p: nat, q: nat, chain: seq<Rule>, jumps: nat)
    requires p <= q <= End(rs) && Stands(s, chain, jumps) && AllAcceptable(rs)
    ensures Stands(Ran(s, rs, p, q), ChainAfter(rs, chain, p, q), JumpsAfter(rs, jumps, p, q))
    decreases q
  {
    if p == q {
      assert chain + rs[Rules(rs, p)..Rules(rs, p)] == chain;
    } else {
      var l := q - 1;
      Stretch(s, rs, p, l, chain, jumps);
      OneCommand(Ran(s, rs, p, l), rs, l, ChainAfter(rs, chain, p, l), JumpsAfter(rs, jumps, p, l));
      ChainSnoc(rs, chain, p, q);
      JumpsSnoc(rs, jumps, p, q);
    }
  }

  /** Without its chain a start that is past NewChain does not succeed. */
  lemma {:induction false} NoChainFails(s: Start, rs: seq<Rule>, p: nat, q: nat)
    requires 1 <= p <= q <= End(rs) && s.nft.chain.None?
    ensures Ran(s, rs, p, q).nft.chain.None?
    ensures q == End(rs) && p < q ==> !Ran(s, rs, p, q).ok
    decreases q
  {
    if p == q {
    } else {
      NoChainFails(s, rs, p, q - 1);
      assert Command(rs, q - 1) != NewChain;
    }
  }

  /** Nor does one that has failed, or fails on a rule on the way. */
  lemma {:induction false} FailedStays(s: Start, rs: seq<Rule>, p: nat, q: nat, j: nat)
    requires p <= q <= End(rs) && j < |rs| && !Acceptable(rs[j])
    requires s.ok ==> p <= j + 2
    ensures q > j + 2 ==> !Ran(s, rs, p, q).ok
    decreases q
  {
    if p == q {
    } else {
      FailedStays(s, rs, p, q - 1, j);
      assert Command(rs, j + 2) == Append(rs[j]);
    }
  }

  // ---- the whole race ----

  lemma UnacceptableFails(n: Nat, rs: seq<Rule>, p1: nat, p2: nat, p3: nat)
    requires p1 <= p2 <= p3 <= End(rs) && !AllAcceptable(rs)
    ensures !Race(n, rs, p1, p2, p3).ok
  {
    var j: nat :| j < |rs| && !Acceptable(rs[j]);
    var s1 := Removed(Ran(Start(n, true), rs, 0, p1), Unhook);
    var s2 := Removed(Ran(s1, rs, p1, p2), Flush);
    var s3 := Removed(Ran(s2, rs, p2, p3), DropChain);
    FailedStays(Start(n, true), rs, 0, p1, j);
    FailedStays(s1, rs, p1, p2, j);
    FailedStays(s2, rs, p2, p3, j);
    FailedStays(s3, rs, p3, End(rs), j);
  }

  /** The jumps when the removal is about to drop the chain. */
  function JumpsLeft(rs: seq<Rule>, p1: nat, p3: nat): nat {
    if p3 == End(rs) && p1 < p3 then 1 else 0
  }

  lemma JumpsBeforeDrop(rs: seq<Rule>, p1: nat, p2: nat, p3: nat)
    requires p1 <= p2 <= p3 <= End(rs)
    ensures JumpsAfter(rs, JumpsAfter(rs, Fewer(JumpsAfter(rs, 1, 0, p1)), p1, p2), p2, p3) == JumpsLeft(rs, p1, p3)
  {
  }

  lemma UnhookRemoved(s: Start, chain: seq<Rule>, jumps: nat)
    requires Stands(s, chain, jumps)
    ensures Stands(Removed(s, Unhook), chain, Fewer(jumps))
  {
    RemoveFirstEffect(s.nft.hooks);
  }

  /** By then the chain holds what was appended since the removal flushed it. */
  lemma BeforeDrop(n: Nat, rs: seq<Rule>, p1: nat, p2: nat, p3: nat) returns (s: Start)
    requires p1 <= p2 <= p3 <= End(rs) && AllAcceptable(rs) && n.chain.Some? && Jumps(n.hooks) == 1
    ensures Race(n, rs, p1, p2, p3) == Ran(Removed(s, DropChain), rs, p3, End(rs))
    ensures Stands(s, rs[Rules(rs, p2)..Rules(rs, p3)], JumpsLeft(rs, p1, p3))
  {
    var s0, c0 := Start(n, true), n.chain.value;
    Stretch(s0, rs, 0, p1, c0, 1);
    var c1, j1 := ChainAfter(rs, c0, 0, p1), JumpsAfter(rs, 1, 0, p1);
    UnhookRemoved(Ran(s0, rs, 0, p1), c1, j1);
    var s1 := Removed(Ran(s0, rs, 0, p1), Unhook);
    Stretch(s1, rs, p1, p2, c1, Fewer(j1));
    var j2 := JumpsAfter(rs, Fewer(j1), p1, p2);
    var s2 := Removed(Ran(s1, rs, p1, p2), Flush);
    assert Stands(s2, [], j2);
    Stretch(s2, rs, p2, p3, [], j2);
    s := Ran(s2, rs, p2, p3);
    JumpsBeforeDrop(rs, p1, p2, p3);
    assert ChainAfter(rs, [], p2, p3) == rs[Rules(rs, p2)..Rules(rs, p3)];
  }

  /** The removal finds the chain empty and without a jump. */
  predicate Drops(rs: seq<Rule>, p1: nat, p2: nat, p3: nat) {
    Rules(rs, p2) == Rules(rs, p3) && JumpsLeft(rs, p1, p3) == 0
  }

  lemma DropIff(s: Start, rs: seq<Rule>, p1: nat, p2: nat, p3: nat)
    requires p2 <= p3 && Stands(s, rs[Rules(rs, p2)..Rules(rs, p3)], JumpsLeft(rs, p1, p3))
    ensures Removed(s, DropChain) == if Drops(rs, p1, p2, p3) then s.(nft := s.nft.(chain := None)) else s
  {
    RemoveFirstEffect(s.nft.hooks);
    assert |s.nft.chain.value| == Rules(rs, p3) - Rules(rs, p2);
  }

  /** What a race leaves, if all rules are acceptable. */
  lemma Outcome(n: Nat, rs: seq<Rule>, p1: nat, p2: nat, p3: nat)
    requires p1 <= p2 <= p3 <= End(rs) && AllAcceptable(rs) && n.chain.Some? && Jumps(n.hooks) == 1
    ensures var r := Race(n, rs, p1, p2, p3);
            && (r.ok <==> !Drops(rs, p1, p2, p3) || p3 == 0 || p3 == End(rs))
            && (r.ok && p3 == 0 ==> r.nft.chain == Some(rs))
            && (r.ok && p3 > 0 ==>
                  r.nft.chain == if Drops(rs, p1, p2, p3) then None else Some(rs[Rules(rs, p2)..]))
            && (r.ok ==> Jumps(r.nft.hooks) == if p1 == End(rs) then 0 else 1)
  {
    var end := End(rs);
    var s := BeforeDrop(n, rs, p1, p2, p3);
    DropIff(s, rs, p1, p2, p3);
    var d := Removed(s, DropChain);
    if !Drops(rs, p1, p2, p3) {
      var c := rs[Rules(rs, p2)..Rules(rs, p3)];
      Stretch(d, rs, p3, end, c, JumpsLeft(rs, p1, p3));
      assert rs[Rules(rs, p2)..Rules(rs, p3)] + rs[Rules(rs, p3)..|rs|] == rs[Rules(rs, p2)..];
    } else if p3 == 0 {
      FromNothing(d, rs);
    } else {
      NoChainFails(d, rs, p3, end);
    }
  }

  lemma FromNothing(s: Start, rs: seq<Rule>)
    requires s.ok && s.nft.chain.None? && AllAcceptable(rs)
    ensures var r := Ran(s, rs, 0, End(rs));
            r.ok && r.nft.chain == Some(rs) && Jumps(r.nft.hooks) == Fewer(Jumps(s.nft.hooks)) + 1
  {
    var r := Ran(s, rs, 0, 1);
    assert Ran(s, rs, 0, 0) == s && r == Next(s, NewChain);
    RanSplit(s, rs, 0, 1, End(rs));
    Stretch(r, rs, 1, End(rs), [], Jumps(s.nft.hooks));
    assert rs[..|rs|] == rs;
  }

  /** A start that nothing disturbs, from any table: the commands do what applyRules is
      proved to do. */
  lemma Alone(n: Nat, rs: seq<Rule>)
    ensures var r := Ran(Start(n, true), rs, 0, End(rs));
            && (r.ok <==> AllAcceptable(rs))
            && (r.ok ==> r.nft.chain == Some(rs) && Jumps(r.nft.hooks) == Fewer(Jumps(n.hooks)) + 1)
  {
    var end := End(rs);
    if AllAcceptable(rs) {
      if n.chain.None? {
        FromNothing(Start(n, true), rs);
      } else {
        Stretch(Start(n, true), rs, 0, end, n.chain.value, Jumps(n.hooks));
        assert rs[..|rs|] == rs;
      }
    } else {
      var j: nat :| j < |rs| && !Acceptable(rs[j]);
      FailedStays(Start(n, true), rs, 0, end, j);
    }
  }

  /** A restart, exactly: with the old chain hooked once and its removal running beside
      it, the new start succeeds and its chain is in force afterwards if and only if all
      its rules are acceptable and the removal is over before it begins, or has flushed
      the chain before the first rule is appended and drops it, in vain, later than that. */
  lemma InForceIff(n: Nat, rs: seq<Rule>, p1: nat, p2: nat, p3: nat)
    requires p1 <= p2 <= p3 <= End(rs) && rs != [] && n.chain.Some? && Jumps(n.hooks) == 1
    ensures InForce(Race(n, rs, p1, p2, p3), rs) <==> AllAcceptable(rs) && (p3 == 0 || p2 <= 2 < p3)
  {
    var r := Race(n, rs, p1, p2, p3);
    if AllAcceptable(rs) {
      Outcome(n, rs, p1, p2, p3);
      RemoveFirstEffect(r.nft.hooks);
      assert |rs[Rules(rs, p2)..]| == |rs| - Rules(rs, p2);
    } else {
      UnacceptableFails(n, rs, p1, p2, p3);
    }
  }

  /** What a start that reports success can be left with otherwise: a chain without its
      first rules or without any, or no chain at all. */
  lemma SucceedsInVain(n: Nat, rs: seq<Rule>, p1: nat, p2: nat, p3: nat)
    requires p1 <= p2 <= p3 <= End(rs) && rs != [] && n.chain.Some? && Jumps(n.hooks) == 1
    requires Race(n, rs, p1, p2, p3).ok && !InForce(Race(n, rs, p1, p2, p3), rs)
    ensures p2 >= 3
    ensures var r := Race(n, rs, p1, p2, p3).nft;
            if p1 == End(rs) then r.chain == None && Jump !in r.hooks
            else r.chain == Some(rs[Rules(rs, p2)..]) && Jump in r.hooks
  {
    if !AllAcceptable(rs) {
      UnacceptableFails(n, rs, p1, p2, p3);
    }
    Outcome(n, rs, p1, p2, p3);
    InForceIff(n, rs, p1, p2, p3);
    RemoveFirstEffect(Race(n, rs, p1, p2, p3).nft.hooks);
  }

  /** A restart with an unchanged configuration whose old removal flushes the chain last
      thing: the start has reported success, a jump leads to the chain, and no port is
      redirected. */
  lemma EmptiedWitness(c: Config, n: Nat, p: int)
    requires AllAcceptable(Chain(c)) && n == Nat(Some(Chain(c)), [Jump])
    ensures var end := End(Chain(c)); var r := Race(n, Chain(c), 0, end, end);
            && r.ok && r.nft.chain == Some([]) && Jump in r.nft.hooks
            && Traverse(r.nft.hooks, r.nft.chain.value, p) == Pass
  {
    var rs := Chain(c);
    var end := End(rs);
    assert Jumps([Jump]) == 1 by {
      assert [Jump][1..] == [];
    }
    Outcome(n, rs, 0, end, end);
    RemoveFirstEffect(Race(n, rs, 0, end, end).nft.hooks);
    JumpsDoNotAddUp(Race(n, rs, 0, end, end).nft.hooks, [], p);
  }
}
