// The firewall rules an agent installs and later undoes (uno/agent/uvn_net.py).
module Iptables {
  import opened Prelude

  // Chains of the filter table, and POSTROUTING of the nat table.
  datatype Chain = Forward | DockerUser | Postrouting | ForwardNic(nic: string) | OtherChain(name: string)

  datatype Rule =
    | ClampMss
    | Jump(nic: string)                          // -j FORWARD_<nic>
    | AcceptEstablished(out: string)
    | AcceptFrom(subnet: int, nic: string)
    | AcceptBetween(nic: string, out: string)
    | DropFrom(nic: string)
    | Return
    | Masquerade(subnet: int, out: string)
    | Foreign(text: string)                      // any rule that is not one of the agent's

  // Installing commands, and the ones that undo them.
  datatype Command =
    | New(chain: Chain)                          // -N
    | Append(chain: Chain, rule: Rule)           // -A
    | InsertFirst(chain: Chain, rule: Rule)      // -I
    | Delete(chain: Chain, rule: Rule)           // -D
    | Remove(chain: Chain)                       // -X

  type Chains = map<Chain, seq<Rule>>

  function Invert(c: Command): (r: Command) {
    match c
    case New(chain) => Remove(chain)
    case Append(chain, rule) => Delete(chain, rule)
    case InsertFirst(chain, rule) => Delete(chain, rule)
    case Delete(_, _) => c
    case Remove(_) => c
  }

  predicate TargetExists(t: Chains, r: Rule) {
    r.Jump? ==> ForwardNic(r.nic) in t
  }

  predicate Referenced(t: Chains, chain: Chain) {
    chain.ForwardNic? && exists c :: c in t && Jump(chain.nic) in t[c]
  }

  function RemoveFirst(s: seq<Rule>, r: Rule): (q: seq<Rule>) {
    if s == [] then [] else if s[0] == r then s[1..] else [s[0]] + RemoveFirst(s[1..], r)
  }

  // What the kernel accepts, and what it makes of it.
  function Exec(t: Chains, c: Command): (r: Result<Chains>) {
    match c
    case New(chain) => if chain in t then Err(CommandFailed) else Ok(t[chain := []])
    case Append(chain, rule) =>
      if chain in t && TargetExists(t, rule) then Ok(t[chain := t[chain] + [rule]]) else Err(CommandFailed)
    case InsertFirst(chain, rule) =>
      if chain in t && TargetExists(t, rule) then Ok(t[chain := [rule] + t[chain]]) else Err(CommandFailed)
    case Delete(chain, rule) =>
      if chain in t && rule in t[chain] then Ok(t[chain := RemoveFirst(t[chain], rule)]) else Err(CommandFailed)
    case Remove(chain) =>
      if chain in t && t[chain] == [] && !Referenced(t, chain) then Ok(t - {chain}) else Err(CommandFailed)
  }

  function ExecAll(t: Chains, cs: seq<Command>): (r: Result<Chains>)
    decreases |cs|
  {
    if cs == [] then Ok(t)
    else
      var r := Exec(t, cs[0]);
      if r.Err? then r else ExecAll(r.value, cs[1..])
  }

  // The undo of one group: its commands inverted, in reverse order.
  function Undo(g: seq<Command>): (r: seq<Command>) {
    if g == [] then [] else Undo(g[1..]) + [Invert(g[0])]
  }

  function Flat(groups: seq<seq<Command>>): (r: seq<Command>) {
    if groups == [] then [] else groups[0] + Flat(groups[1..])
  }

  // _stop walks the groups in the order of installation.
  function UndoAll(groups: seq<seq<Command>>): (r: seq<Command>) {
    if groups == [] then [] else Undo(groups[0]) + UndoAll(groups[1..])
  }

  lemma {:induction false} ExecAllSplit(t: Chains, a: seq<Command>, b: seq<Command>)
    ensures ExecAll(t, a + b) ==
              var r := ExecAll(t, a);
              if r.Err? then r else ExecAll(r.value, b)
    decreases |a|
  {
    if a == [] {
      assert a + b == b;
    } else {
      assert (a + b)[0] == a[0] && (a + b)[1..] == a[1..] + b;
      var r := Exec(t, a[0]);
      if r.Ok? {
        ExecAllSplit(r.value, a[1..], b);
      }
    }
  }

  // ----- The rules of the agent -----

  // _iptables_forward and _vpn_masquerade for one interface.
  function NicGroup(nic: string, subnets: seq<int>, docker: bool, others: seq<string>, masquerade: seq<(int, string)>)
    : (r: seq<Command>)
  {
    [New(ForwardNic(nic)), Append(Forward, Jump(nic)), Append(ForwardNic(nic), AcceptEstablished(nic))]
    + seq(|subnets|, i requires 0 <= i < |subnets| => Append(ForwardNic(nic), AcceptFrom(subnets[i], nic)))
    + (if docker then
         seq(|others|, i requires 0 <= i < |others| => InsertFirst(DockerUser, AcceptBetween(nic, others[i])))
       else [])
    + [Append(ForwardNic(nic), DropFrom(nic)), Append(ForwardNic(nic), Return)]
    + seq(|masquerade|, i requires 0 <= i < |masquerade| =>
            Append(Postrouting, Masquerade(masquerade[i].0, masquerade[i].1)))
  }

  const CLAMP_GROUP: seq<Command> := [Append(Forward, ClampMss)]

  // ----- Invariant: the table is the base plus the outstanding commands -----

  // Rules installed by the agent.
  predicate Ours(r: Rule) {
    !r.Foreign?
  }

  ghost function Strip(s: seq<Rule>): (r: seq<Rule>) {
    if s == [] then [] else (if Ours(s[0]) then [] else [s[0]]) + Strip(s[1..])
  }

  ghost function Base(base: Chains, c: Chain): (r: seq<Rule>) {
    if c in base then base[c] else []
  }

  ghost function Outstanding(m: multiset<Command>, c: Chain, r: Rule): (n: nat) {
    m[Append(c, r)] + m[InsertFirst(c, r)]
  }

  ghost predicate ChainInv(t: Chains, base: Chains, m: multiset<Command>, c: Chain)
    requires c in t
  {
    && Strip(t[c]) == Base(base, c)
    && forall r :: Ours(r) ==> multiset(t[c])[r] == Outstanding(m, c, r)
  }

  ghost predicate TableInv(t: Chains, base: Chains, m: multiset<Command>) {
    && (forall c :: c in t <==> c in base || New(c) in m)
    && (forall c :: c in t ==> ChainInv(t, base, m, c))
  }

  // The table before the agent starts: the built-in chains, none of the agent's
  // rules, and none of its chains.
  ghost predicate Pristine(base: Chains) {
    && Forward in base && Postrouting in base
    && forall c :: c in base ==> !c.ForwardNic? && forall r :: r in base[c] ==> r.Foreign?
  }

  lemma {:induction false} StripForeign(s: seq<Rule>)
    requires forall r :: r in s ==> r.Foreign?
    ensures Strip(s) == s
  {
    if s != [] {
      StripForeign(s[1..]);
    }
  }

  lemma PristineInv(base: Chains)
    requires Pristine(base)
    ensures TableInv(base, base, multiset{})
  {
    forall c | c in base
      ensures ChainInv(base, base, multiset{}, c)
    {
      StripForeign(base[c]);
      forall r | Ours(r)
        ensures multiset(base[c])[r] == 0
      {
        assert r !in base[c];
      }
    }
  }

  lemma StripIsBase(s: seq<Rule>)
    requires forall r :: Ours(r) ==> multiset(s)[r] == 0
    ensures Strip(s) == s
  {
    forall r | r in s
      ensures r.Foreign?
    {
      assert r in multiset(s);
    }
    StripForeign(s);
  }

  // Nothing outstanding: the table is the base again.
  lemma NothingOutstanding(t: Chains, base: Chains)
    requires TableInv(t, base, multiset{})
    ensures t == base
  {
    forall c | c in t
      ensures c in base && t[c] == base[c]
    {
      assert ChainInv(t, base, multiset{}, c);
      StripIsBase(t[c]);
    }
  }

  lemma {:induction false} StripAppend(s: seq<Rule>, q: seq<Rule>)
    ensures Strip(s + q) == Strip(s) + Strip(q)
  {
    if s == [] {
      assert s + q == q;
    } else {
      assert (s + q)[0] == s[0] && (s + q)[1..] == s[1..] + q;
      StripAppend(s[1..], q);
    }
  }

  lemma {:induction false} RemoveFirstKeeps(s: seq<Rule>, r: Rule)
    requires r in s && Ours(r)
    ensures Strip(RemoveFirst(s, r)) == Strip(s)
    ensures multiset(RemoveFirst(s, r)) == multiset(s) - multiset{r}
    decreases |s|
  {
    assert s == [s[0]] + s[1..];
    if s[0] != r {
      RemoveFirstKeeps(s[1..], r);
      var q := RemoveFirst(s[1..], r);
      assert ([s[0]] + q)[1..] == q;
      assert multiset([s[0]] + q) == multiset{s[0]} + multiset(q);
    }
  }

  // ----- One command -----

  predicate Installs(c: Command) {
    c.New? || ((c.Append? || c.InsertFirst?) && Ours(c.rule))
  }

  predicate Places(c: Command, d: Chain, r: Rule) {
    (c.Append? || c.InsertFirst?) && c.chain == d && c.rule == r
  }

  lemma OneMore(m: multiset<Command>, c: Command, d: Chain, r: Rule)
    requires Installs(c)
    ensures Outstanding(m + multiset{c}, d, r) == Outstanding(m, d, r) + (if Places(c, d, r) then 1 else 0)
  {
  }

  lemma OneLess(m: multiset<Command>, c: Command, d: Chain, r: Rule)
    requires Installs(c) && c in m
    ensures Outstanding(m - multiset{c}, d, r) == Outstanding(m, d, r) - (if Places(c, d, r) then 1 else 0)
  {
  }

  lemma Untouched(t: Chains, u: Chains, base: Chains, m: multiset<Command>, n: multiset<Command>, d: Chain)
    requires d in t && d in u && u[d] == t[d] && ChainInv(t, base, m, d)
    requires forall r :: Outstanding(n, d, r) == Outstanding(m, d, r)
    ensures ChainInv(u, base, n, d)
  {
    hide Strip, Outstanding;
  }

  lemma OneRuleMore(before: seq<Rule>, r: Rule, after: seq<Rule>)
    requires Ours(r) && (after == before + [r] || after == [r] + before)
    ensures Strip(after) == Strip(before)
    ensures multiset(after) == multiset(before) + multiset{r}
  {
    StripAppend(before, [r]);
    StripAppend([r], before);
    assert Strip([r]) == [];
  }

  lemma Added(t: Chains, u: Chains, base: Chains, m: multiset<Command>, c: Command)
    requires Installs(c) && !c.New? && c.chain in t && c.chain in u && ChainInv(t, base, m, c.chain)
    requires u[c.chain] == if c.Append? then t[c.chain] + [c.rule] else [c.rule] + t[c.chain]
    ensures ChainInv(u, base, m + multiset{c}, c.chain)
  {
    hide Strip, Outstanding;
    var before, after := t[c.chain], u[c.chain];
    OneRuleMore(before, c.rule, after);
    var n := m + multiset{c};
    forall r | Ours(r)
      ensures multiset(after)[r] == Outstanding(n, c.chain, r)
    {
      OneMore(m, c, c.chain, r);
      assert multiset(after)[r] == multiset(before)[r] + (if r == c.rule then 1 else 0);
    }
  }

  lemma Removed(t: Chains, u: Chains, base: Chains, m: multiset<Command>, c: Command)
    requires Installs(c) && !c.New? && c in m && c.chain in t && c.chain in u && ChainInv(t, base, m, c.chain)
    requires u[c.chain] == RemoveFirst(t[c.chain], c.rule)
    ensures c.rule in t[c.chain] && ChainInv(u, base, m - multiset{c}, c.chain)
  {
    var before, after := t[c.chain], u[c.chain];
    assert multiset(before)[c.rule] == Outstanding(m, c.chain, c.rule) > 0;
    assert c.rule in multiset(before);
    RemoveFirstKeeps(before, c.rule);
    hide Strip, Outstanding, RemoveFirst;
    var n := m - multiset{c};
    forall r | Ours(r)
      ensures multiset(after)[r] == Outstanding(n, c.chain, r)
    {
      OneLess(m, c, c.chain, r);
      assert multiset(after)[r] == multiset(before)[r] - (if r == c.rule then 1 else 0);
    }
  }

  lemma AddedAnywhere(t: Chains, u: Chains, base: Chains, m: multiset<Command>, c: Command, d: Chain)
    requires Installs(c) && !c.New? && c.chain in t && d in t && ChainInv(t, base, m, d)
    requires u == t[c.chain := if c.Append? then t[c.chain] + [c.rule] else [c.rule] + t[c.chain]]
    ensures ChainInv(u, base, m + multiset{c}, d)
  {
    hide ChainInv, Outstanding;
    if d == c.chain {
      Added(t, u, base, m, c);
    } else {
      forall r
        ensures Outstanding(m + multiset{c}, d, r) == Outstanding(m, d, r)
      {
        OneMore(m, c, d, r);
      }
      Untouched(t, u, base, m, m + multiset{c}, d);
    }
  }

  lemma RemovedAnywhere(t: Chains, u: Chains, base: Chains, m: multiset<Command>, c: Command, d: Chain)
    requires Installs(c) && !c.New? && c in m && c.chain in t && d in t && ChainInv(t, base, m, d)
    requires u == t[c.chain := RemoveFirst(t[c.chain], c.rule)]
    ensures ChainInv(u, base, m - multiset{c}, d)
  {
    hide ChainInv, Outstanding, RemoveFirst;
    if d == c.chain {
      Removed(t, u, base, m, c);
    } else {
      forall r
        ensures Outstanding(m - multiset{c}, d, r) == Outstanding(m, d, r)
      {
        OneLess(m, c, d, r);
      }
      Untouched(t, u, base, m, m - multiset{c}, d);
    }
  }

  lemma SameNews(m: multiset<Command>, c: Command)
    requires !c.New?
    ensures forall d :: New(d) in m + multiset{c} <==> New(d) in m
    ensures forall d :: New(d) in m - multiset{c} <==> New(d) in m
  {
  }

  lemma TableFrom(t: Chains, u: Chains, base: Chains, m: multiset<Command>, n: multiset<Command>)
    requires TableInv(t, base, m) && u.Keys == t.Keys
    requires forall d :: New(d) in n <==> New(d) in m
    requires forall d :: d in u ==> ChainInv(u, base, n, d)
    ensures TableInv(u, base, n)
  {
    hide ChainInv;
  }

  lemma RuleAdded(t: Chains, base: Chains, m: multiset<Command>, c: Command)
    requires TableInv(t, base, m) && Installs(c) && !c.New? && c.chain in t && TargetExists(t, c.rule)
    ensures Exec(t, c).Ok? && TableInv(Exec(t, c).value, base, m + multiset{c})
    ensures Exec(t, c).value.Keys == t.Keys
  {
    assert c.Append? || c.InsertFirst?;
    var u := t[c.chain := if c.Append? then t[c.chain] + [c.rule] else [c.rule] + t[c.chain]];
    assert Exec(t, c) == Ok(u);
    hide *;
    var n := m + multiset{c};
    forall d | d in u
      ensures ChainInv(u, base, n, d)
    {
      ChainOf(t, base, m, d);
      AddedAnywhere(t, u, base, m, c, d);
    }
    SameNews(m, c);
    TableFrom(t, u, base, m, n);
  }

  lemma ChainOf(t: Chains, base: Chains, m: multiset<Command>, d: Chain)
    requires TableInv(t, base, m) && d in t
    ensures ChainInv(t, base, m, d)
  {
  }

  lemma RemovalWorks(t: Chains, base: Chains, m: multiset<Command>, c: Command)
    requires Installs(c) && !c.New? && c in m && c.chain in t && ChainInv(t, base, m, c.chain)
    ensures Exec(t, Invert(c)) == Ok(t[c.chain := RemoveFirst(t[c.chain], c.rule)])
  {
    hide ChainInv, RemoveFirst;
    Removed(t, t[c.chain := RemoveFirst(t[c.chain], c.rule)], base, m, c);
  }

  lemma RuleRemoved(t: Chains, base: Chains, m: multiset<Command>, c: Command)
    requires TableInv(t, base, m) && c in m && Installs(c) && !c.New? && c.chain in t
    ensures Exec(t, Invert(c)).Ok? && TableInv(Exec(t, Invert(c)).value, base, m - multiset{c})
    ensures Exec(t, Invert(c)).value.Keys == t.Keys
  {
    assert c.Append? || c.InsertFirst?;
    hide *;
    var u := t[c.chain := RemoveFirst(t[c.chain], c.rule)];
    ChainOf(t, base, m, c.chain);
    RemovalWorks(t, base, m, c);
    forall d | d in u
      ensures ChainInv(u, base, m - multiset{c}, d)
    {
      ChainOf(t, base, m, d);
      RemovedAnywhere(t, u, base, m, c, d);
    }
    SameNews(m, c);
    TableFrom(t, u, base, m, m - multiset{c});
  }

  lemma EmptyChain(u: Chains, base: Chains, m: multiset<Command>, chain: Chain)
    requires chain in u && u[chain] == [] && chain !in base
    requires forall d :: d in m ==> d.New? || ((d.Append? || d.InsertFirst?) && d.chain != chain)
    ensures ChainInv(u, base, m + multiset{New(chain)}, chain)
  {
    forall r
      ensures Outstanding(m + multiset{New(chain)}, chain, r) == 0
    {
      OneMore(m, New(chain), chain, r);
      assert Append(chain, r) !in m && InsertFirst(chain, r) !in m;
    }
  }

  lemma OtherChains(t: Chains, u: Chains, base: Chains, m: multiset<Command>, chain: Chain, d: Chain)
    requires d in t && d in u && u[d] == t[d] && ChainInv(t, base, m, d)
    ensures ChainInv(u, base, m + multiset{New(chain)}, d)
  {
    hide ChainInv, Outstanding;
    forall r
      ensures Outstanding(m + multiset{New(chain)}, d, r) == Outstanding(m, d, r)
    {
      OneMore(m, New(chain), d, r);
    }
    Untouched(t, u, base, m, m + multiset{New(chain)}, d);
  }

  lemma OneNewMore(m: multiset<Command>, chain: Chain, d: Chain)
    ensures New(d) in m + multiset{New(chain)} <==> New(d) in m || d == chain
  {
  }

  lemma TableGrown(t: Chains, u: Chains, base: Chains, m: multiset<Command>, n: multiset<Command>, chain: Chain)
    requires TableInv(t, base, m) && u.Keys == t.Keys + {chain}
    requires forall d :: New(d) in n <==> New(d) in m || d == chain
    requires forall d :: d in u ==> ChainInv(u, base, n, d)
    ensures TableInv(u, base, n)
  {
    hide ChainInv;
  }

  lemma ChainAdded(t: Chains, base: Chains, m: multiset<Command>, chain: Chain)
    requires TableInv(t, base, m) && chain !in t
    requires forall d :: d in m ==> d.New? || ((d.Append? || d.InsertFirst?) && d.chain != chain)
    ensures Exec(t, New(chain)).Ok? && TableInv(Exec(t, New(chain)).value, base, m + multiset{New(chain)})
    ensures Exec(t, New(chain)).value.Keys == t.Keys + {chain}
  {
    InBase(t, base, m);
    var u := t[chain := []];
    assert Exec(t, New(chain)) == Ok(u);
    hide *;
    var n := m + multiset{New(chain)};
    forall d | d in u
      ensures ChainInv(u, base, n, d)
    {
      if d == chain {
        EmptyChain(u, base, m, chain);
      } else {
        ChainOf(t, base, m, d);
        OtherChains(t, u, base, m, chain, d);
      }
    }
    forall d
      ensures New(d) in n <==> New(d) in m || d == chain
    {
      OneNewMore(m, chain, d);
    }
    TableGrown(t, u, base, m, n, chain);
  }

  // Commands that fill, or jump to, the chain of an interface.
  predicate Mentions(c: Command, nic: string) {
    c.chain == ForwardNic(nic) || ((c.Append? || c.InsertFirst? || c.Delete?) && c.rule == Jump(nic))
  }

  ghost predicate NoMention(m: multiset<Command>, nic: string) {
    forall c :: c in m ==> !Mentions(c, nic)
  }

  // A chain that no outstanding command mentions is empty and unreferenced.
  lemma ChainIsFree(t: Chains, base: Chains, all: multiset<Command>, nic: string)
    requires Pristine(base) && TableInv(t, base, all) && New(ForwardNic(nic)) in all
    requires NoMention(all - multiset{New(ForwardNic(nic))}, nic)
    ensures ForwardNic(nic) in t && t[ForwardNic(nic)] == [] && !Referenced(t, ForwardNic(nic))
  {
    var chain := ForwardNic(nic);
    var m := all - multiset{New(chain)};
    assert ChainInv(t, base, all, chain);
    forall r | Ours(r)
      ensures multiset(t[chain])[r] == 0
    {
      Unmentioned(all, nic, chain, r);
    }
    StripIsBase(t[chain]);
    hide Strip, Outstanding;
    forall c | c in t
      ensures Jump(nic) !in t[c]
    {
      assert ChainInv(t, base, all, c);
      Unmentioned(all, nic, c, Jump(nic));
      assert multiset(t[c])[Jump(nic)] == 0;
      assert Jump(nic) !in multiset(t[c]);
    }
  }

  lemma Unmentioned(all: multiset<Command>, nic: string, c: Chain, r: Rule)
    requires NoMention(all - multiset{New(ForwardNic(nic))}, nic)
    requires c == ForwardNic(nic) || r == Jump(nic)
    ensures Outstanding(all, c, r) == 0
  {
    var m := all - multiset{New(ForwardNic(nic))};
    assert Mentions(Append(c, r), nic) && Mentions(InsertFirst(c, r), nic);
    assert Append(c, r) !in m && InsertFirst(c, r) !in m;
  }

  lemma SameElsewhere(t: Chains, u: Chains, base: Chains, all: multiset<Command>, chain: Chain, d: Chain)
    requires New(chain) in all && d in t && d in u && u[d] == t[d] && ChainInv(t, base, all, d)
    ensures ChainInv(u, base, all - multiset{New(chain)}, d)
  {
    hide ChainInv, Outstanding;
    forall r
      ensures Outstanding(all - multiset{New(chain)}, d, r) == Outstanding(all, d, r)
    {
      OneLess(all, New(chain), d, r);
    }
    Untouched(t, u, base, all, all - multiset{New(chain)}, d);
  }

  lemma TableShrunk(t: Chains, u: Chains, base: Chains, all: multiset<Command>, m: multiset<Command>, chain: Chain)
    requires TableInv(t, base, all) && u == t - {chain} && chain !in base && New(chain) !in m
    requires forall d :: d != chain ==> (New(d) in m <==> New(d) in all)
    requires forall d :: d in u ==> ChainInv(u, base, m, d)
    ensures TableInv(u, base, m)
  {
    hide ChainInv;
  }

  lemma OneNewLess(all: multiset<Command>, chain: Chain)
    ensures forall d :: d != chain ==> (New(d) in all - multiset{New(chain)} <==> New(d) in all)
  {
  }

  lemma NotMentioned(m: multiset<Command>, nic: string)
    requires NoMention(m, nic)
    ensures New(ForwardNic(nic)) !in m
  {
    assert Mentions(New(ForwardNic(nic)), nic);
  }

  lemma ChainRemoved(t: Chains, base: Chains, all: multiset<Command>, nic: string)
    requires Pristine(base) && TableInv(t, base, all) && New(ForwardNic(nic)) in all
    requires NoMention(all - multiset{New(ForwardNic(nic))}, nic)
    ensures Exec(t, Remove(ForwardNic(nic))).Ok?
    ensures TableInv(Exec(t, Remove(ForwardNic(nic))).value, base, all - multiset{New(ForwardNic(nic))})
  {
    var chain := ForwardNic(nic);
    var u := t - {chain};
    assert chain !in base;
    hide Pristine, TableInv, NoMention;
    ChainIsFree(t, base, all, nic);
    assert Exec(t, Remove(chain)) == Ok(u);
    hide *;
    var m := all - multiset{New(chain)};
    forall d | d in u
      ensures ChainInv(u, base, m, d)
    {
      ChainOf(t, base, all, d);
      SameElsewhere(t, u, base, all, chain, d);
    }
    NotMentioned(m, nic);
    OneNewLess(all, chain);
    TableShrunk(t, u, base, all, m, chain);
  }

  // ----- One group -----

  // A command of the group of an interface, after the chain was created; without
  // an interface, a command on the existing chains only.
  predicate Local(c: Command, base: set<Chain>, nic: Option<string>) {
    && (c.Append? || c.InsertFirst?) && Ours(c.rule)
    && (c.chain in base || (nic.Some? && c.chain == ForwardNic(nic.value)))
    && (c.rule.Jump? ==> nic == Some(c.rule.nic))
  }

  ghost predicate Shaped(g: seq<Command>, base: set<Chain>, nic: Option<string>) {
    if nic.None? then forall i :: 0 <= i < |g| ==> Local(g[i], base, nic)
    else
      && |g| > 0 && g[0] == New(ForwardNic(nic.value))
      && forall i :: 1 <= i < |g| ==> Local(g[i], base, nic)
  }

  lemma Nil(m: multiset<Command>)
    ensures m + multiset([]) == m
  {
  }

  lemma Cons(m: multiset<Command>, g: seq<Command>)
    requires g != []
    ensures m + multiset(g) == m + multiset{g[0]} + multiset(g[1..])
  {
    assert g == [g[0]] + g[1..];
  }

  lemma AddSub(m: multiset<Command>, c: Command)
    ensures m + multiset{c} - multiset{c} == m
    ensures c in m + multiset{c}
  {
  }

  lemma FlatSwap(groups: seq<seq<Command>>)
    requires groups != []
    ensures multiset(Flat(groups)) == multiset(Flat(groups[1..])) + multiset(groups[0])
  {
    assert Flat(groups) == groups[0] + Flat(groups[1..]);
  }

  lemma FlatCons(m: multiset<Command>, groups: seq<seq<Command>>)
    requires groups != []
    ensures m + multiset(Flat(groups)) == m + multiset(groups[0]) + multiset(Flat(groups[1..]))
  {
    assert Flat(groups) == groups[0] + Flat(groups[1..]);
  }

  lemma LocalFits(t: Chains, base: set<Chain>, c: Command, nic: Option<string>)
    requires Local(c, base, nic) && base <= t.Keys && (nic.Some? ==> ForwardNic(nic.value) in t)
    ensures Installs(c) && !c.New? && !c.Remove? && !c.Delete? && c.chain in t && TargetExists(t, c.rule)
  {
  }

  lemma {:induction false} InstallRest(t: Chains, base: Chains, m: multiset<Command>, g: seq<Command>,
                                       nic: Option<string>)
    requires TableInv(t, base, m) && (nic.Some? ==> ForwardNic(nic.value) in t)
    requires forall i :: 0 <= i < |g| ==> Local(g[i], base.Keys, nic)
    ensures ExecAll(t, g).Ok? && TableInv(ExecAll(t, g).value, base, m + multiset(g))
    ensures ExecAll(t, g).value.Keys == t.Keys
    decreases |g|
  {
    InBase(t, base, m);
    hide *;
    if g == [] {
      Nil(m);
      ExecNone(t);
    } else {
      var c, rest := g[0], g[1..];
      LocalFits(t, base.Keys, c, nic);
      RuleAdded(t, base, m, c);
      var u := Exec(t, c).value;
      var n := m + multiset{c};
      forall i | 0 <= i < |rest|
        ensures Local(rest[i], base.Keys, nic)
      {
        assert rest[i] == g[i + 1];
      }
      InstallRest(u, base, n, rest, nic);
      Cons(m, g);
      ExecFirst(t, g);
    }
  }

  lemma {:induction false} UndoRest(t: Chains, base: Chains, m: multiset<Command>, g: seq<Command>, nic: Option<string>)
    requires TableInv(t, base, m + multiset(g)) && (nic.Some? ==> ForwardNic(nic.value) in t)
    requires forall i :: 0 <= i < |g| ==> Local(g[i], base.Keys, nic)
    ensures ExecAll(t, Undo(g)).Ok? && TableInv(ExecAll(t, Undo(g)).value, base, m)
    ensures ExecAll(t, Undo(g)).value.Keys == t.Keys
    decreases |g|
  {
    if g == [] {
      Nil(m);
    } else {
      InBase(t, base, m + multiset(g));
      hide TableInv, Exec;
      Cons(m, g);
      UndoRest(t, base, m + multiset{g[0]}, g[1..], nic);
      var u := ExecAll(t, Undo(g[1..])).value;
      assert Local(g[0], base.Keys, nic);
      RuleRemoved(u, base, m + multiset{g[0]}, g[0]);
      AddSub(m, g[0]);
      ExecAllSplit(t, Undo(g[1..]), [Invert(g[0])]);
      ExecOne(u, Invert(g[0]));
    }
  }

  lemma InBase(t: Chains, base: Chains, m: multiset<Command>)
    requires TableInv(t, base, m)
    ensures base.Keys <= t.Keys
  {
  }

  lemma ExecNone(t: Chains)
    ensures ExecAll(t, []) == Ok(t)
  {
  }

  lemma ExecFirst(t: Chains, g: seq<Command>)
    requires g != [] && Exec(t, g[0]).Ok?
    ensures ExecAll(t, g) == ExecAll(Exec(t, g[0]).value, g[1..])
  {
    hide Exec;
  }

  lemma ExecOne(t: Chains, c: Command)
    ensures ExecAll(t, [c]) == Exec(t, c)
  {
    assert [c][1..] == [];
    hide Exec;
    var r := Exec(t, c);
    if r.Ok? {
      assert ExecAll(r.value, []) == Ok(r.value);
    }
  }

  lemma InstallGroup(t: Chains, base: Chains, m: multiset<Command>, g: seq<Command>, nic: Option<string>)
    requires TableInv(t, base, m) && Shaped(g, base.Keys, nic)
    requires nic.Some? ==> ForwardNic(nic.value) !in t && ForwardNic(nic.value) !in base && NoMention(m, nic.value)
    requires forall c :: c in m ==> Installs(c)
    ensures ExecAll(t, g).Ok? && TableInv(ExecAll(t, g).value, base, m + multiset(g))
    ensures ExecAll(t, g).value.Keys == t.Keys + (if nic.Some? then {ForwardNic(nic.value)} else {})
  {
    hide ChainInv;
    if nic.None? {
      InstallRest(t, base, m, g, nic);
    } else {
      forall d | d in m
        ensures d.New? || ((d.Append? || d.InsertFirst?) && d.chain != g[0].chain)
      {
        assert !Mentions(d, nic.value);
      }
      hide TableInv, Exec;
      ChainAdded(t, base, m, ForwardNic(nic.value));
      var u := Exec(t, g[0]).value;
      InstallRest(u, base, m + multiset{g[0]}, g[1..], nic);
      Cons(m, g);
    }
  }

  lemma UndoGroup(t: Chains, base: Chains, m: multiset<Command>, g: seq<Command>, nic: Option<string>)
    requires Pristine(base) && TableInv(t, base, m + multiset(g)) && Shaped(g, base.Keys, nic)
    requires nic.Some? ==> NoMention(m, nic.value)
    ensures ExecAll(t, Undo(g)).Ok? && TableInv(ExecAll(t, Undo(g)).value, base, m)
  {
    hide ChainInv, Exec;
    if nic.None? {
      UndoRest(t, base, m, g, nic);
    } else {
      Cons(m, g);
      assert New(ForwardNic(nic.value)) in m + multiset(g);
      UndoRest(t, base, m + multiset{g[0]}, g[1..], nic);
      var u := ExecAll(t, Undo(g[1..])).value;
      AddSub(m, g[0]);
      ChainRemoved(u, base, m + multiset{g[0]}, nic.value);
      ExecAllSplit(t, Undo(g[1..]), [Invert(g[0])]);
      ExecOne(u, Invert(g[0]));
    }
  }

  // ----- All groups -----

  ghost predicate AllShaped(groups: seq<seq<Command>>, nics: seq<Option<string>>, base: set<Chain>) {
    && |groups| == |nics|
    && (forall i :: 0 <= i < |groups| ==> Shaped(groups[i], base, nics[i]))
    && (forall i, j :: 0 <= i < j < |nics| && nics[i].Some? ==> nics[i] != nics[j])
  }

  // A group only mentions its own interface.
  lemma GroupMentions(g: seq<Command>, base: set<Chain>, own: Option<string>, nic: string)
    requires Shaped(g, base, own) && own != Some(nic) && ForwardNic(nic) !in base
    ensures NoMention(multiset(g), nic)
    ensures forall c :: c in multiset(g) ==> Installs(c)
  {
    forall c | c in multiset(g)
      ensures !Mentions(c, nic) && Installs(c)
    {
      assert c in g;
      var i :| 0 <= i < |g| && g[i] == c;
      assert i >= 1 || own.None? ==> Local(c, base, own);
    }
  }

  lemma {:induction false} GroupsMention(groups: seq<seq<Command>>, nics: seq<Option<string>>, base: set<Chain>,
                                         nic: string)
    requires AllShaped(groups, nics, base) && Some(nic) !in nics && ForwardNic(nic) !in base
    ensures NoMention(multiset(Flat(groups)), nic)
    decreases |groups|
  {
    if groups != [] {
      GroupMentions(groups[0], base, nics[0], nic);
      GroupsMention(groups[1..], nics[1..], base, nic);
      assert multiset(Flat(groups)) == multiset(groups[0]) + multiset(Flat(groups[1..]));
    }
  }

  lemma GroupInstalls(g: seq<Command>, base: set<Chain>, own: Option<string>)
    requires Shaped(g, base, own)
    ensures forall c :: c in multiset(g) ==> Installs(c)
  {
    forall c | c in multiset(g)
      ensures Installs(c)
    {
      assert c in g;
      var i :| 0 <= i < |g| && g[i] == c;
      assert i >= 1 || own.None? ==> Local(c, base, own);
    }
  }

  lemma NotInBase(base: Chains, nic: Option<string>)
    requires Pristine(base)
    ensures nic.Some? ==> ForwardNic(nic.value) !in base
  {
  }

  lemma NoMentionSum(a: multiset<Command>, b: multiset<Command>, nic: string)
    requires NoMention(a, nic) && NoMention(b, nic)
    ensures NoMention(a + b, nic)
  {
  }

  lemma {:induction false} InstallAll(t: Chains, base: Chains, m: multiset<Command>, groups: seq<seq<Command>>,
                                      nics: seq<Option<string>>)
    requires TableInv(t, base, m) && AllShaped(groups, nics, base.Keys) && Pristine(base)
    requires forall c :: c in m ==> Installs(c)
    requires forall i :: 0 <= i < |nics| && nics[i].Some? ==>
               ForwardNic(nics[i].value) !in t && NoMention(m, nics[i].value)
    ensures ExecAll(t, Flat(groups)).Ok? && TableInv(ExecAll(t, Flat(groups)).value, base, m + multiset(Flat(groups)))
    decreases |groups|
  {
    hide TableInv, Exec, Shaped, NoMention, Installs;
    if groups == [] {
      Nil(m);
    } else {
      var g, nic := groups[0], nics[0];
      assert nic.Some? ==> ForwardNic(nic.value) !in base by { NotInBase(base, nic); }
      InstallGroup(t, base, m, g, nic);
      var u := ExecAll(t, g).value;
      GroupInstalls(g, base.Keys, nic);
      forall i | 0 <= i < |nics[1..]| && nics[1..][i].Some?
        ensures ForwardNic(nics[1..][i].value) !in u && NoMention(m + multiset(g), nics[1..][i].value)
      {
        assert nics[i + 1] != nics[0];
        NotInBase(base, nics[i + 1]);
        GroupMentions(g, base.Keys, nic, nics[i + 1].value);
        NoMentionSum(m, multiset(g), nics[i + 1].value);
      }
      InstallAll(u, base, m + multiset(g), groups[1..], nics[1..]);
      ExecAllSplit(t, g, Flat(groups[1..]));
      FlatCons(m, groups);
    }
  }

  lemma {:induction false} UndoAllGroups(t: Chains, base: Chains, groups: seq<seq<Command>>, nics: seq<Option<string>>)
    requires TableInv(t, base, multiset(Flat(groups))) && AllShaped(groups, nics, base.Keys) && Pristine(base)
    ensures ExecAll(t, UndoAll(groups)) == Ok(base)
    decreases |groups|
  {
    hide TableInv, Exec, Shaped, NoMention, Pristine;
    if groups == [] {
      NothingOutstanding(t, base);
    } else {
      var g, nic := groups[0], nics[0];
      var rest := multiset(Flat(groups[1..]));
      FlatSwap(groups);
      if nic.Some? {
        NotInBase(base, nic);
        GroupsMention(groups[1..], nics[1..], base.Keys, nic.value);
      }
      UndoGroup(t, base, rest, g, nic);
      UndoAllGroups(ExecAll(t, Undo(g)).value, base, groups[1..], nics[1..]);
      ExecAllSplit(t, Undo(g), UndoAll(groups[1..]));
    }
  }

  // Whatever an agent installs on a table without its rules is accepted, and
  // undoing it group by group is accepted too and restores every chain.
  lemma InstallThenUndo(base: Chains, groups: seq<seq<Command>>, nics: seq<Option<string>>)
    requires Pristine(base) && AllShaped(groups, nics, base.Keys)
    ensures ExecAll(base, Flat(groups)).Ok?
    ensures ExecAll(ExecAll(base, Flat(groups)).value, UndoAll(groups)) == Ok(base)
  {
    PristineInv(base);
    InstallAll(base, base, multiset{}, groups, nics);
    assert multiset{} + multiset(Flat(groups)) == multiset(Flat(groups));
    UndoAllGroups(ExecAll(base, Flat(groups)).value, base, groups, nics);
  }

  // ----- The service -----

  // An interface to route: its name, its subnet, and whether it masquerades.
  datatype Nic = Nic(name: string, subnet: int, masquerade: bool)

  function Names(nics: seq<Nic>): (r: seq<string>)
    ensures |r| == |nics| && forall i :: 0 <= i < |nics| ==> r[i] == nics[i].name
  {
    seq(|nics|, i requires 0 <= i < |nics| => nics[i].name)
  }

  // A masquerading interface does so towards every other one.
  function MasqueradePairs(nic: Nic, others: seq<Nic>): (r: seq<(int, string)>) {
    if nic.masquerade then seq(|others|, i requires 0 <= i < |others| => (nic.subnet, others[i].name)) else []
  }

  function NicCommands(nics: seq<Nic>, i: int, subnets: seq<int>, docker: bool): (r: seq<Command>)
    requires 0 <= i < |nics|
  {
    NicGroup(nics[i].name, subnets, docker, Names(nics), MasqueradePairs(nics[i], nics[..i] + nics[i + 1..]))
  }

  function Groups(nics: seq<Nic>, subnets: seq<int>, docker: bool): (r: seq<seq<Command>>)
    ensures |r| == |nics| + 1 && r[0] == CLAMP_GROUP
    ensures forall i :: 0 <= i < |nics| ==> r[i + 1] == NicCommands(nics, i, subnets, docker)
  {
    [CLAMP_GROUP] + seq(|nics|, i requires 0 <= i < |nics| => NicCommands(nics, i, subnets, docker))
  }

  ghost function Owners(nics: seq<Nic>): (r: seq<Option<string>>)
    ensures |r| == |nics| + 1 && r[0] == None && forall i :: 0 <= i < |nics| ==> r[i + 1] == Some(nics[i].name)
  {
    [None] + seq(|nics|, i requires 0 <= i < |nics| => Some(nics[i].name))
  }

  lemma NicGroupShaped(base: set<Chain>, n: string, subnets: seq<int>, docker: bool, others: seq<string>,
                       masquerade: seq<(int, string)>)
    requires Forward in base && Postrouting in base && (docker ==> DockerUser in base)
    ensures Shaped(NicGroup(n, subnets, docker, others, masquerade), base, Some(n))
  {
    var head := [New(ForwardNic(n)), Append(Forward, Jump(n)), Append(ForwardNic(n), AcceptEstablished(n))];
    var from := seq(|subnets|, i requires 0 <= i < |subnets| => Append(ForwardNic(n), AcceptFrom(subnets[i], n)));
    var between :=
      if docker then
        seq(|others|, i requires 0 <= i < |others| => InsertFirst(DockerUser, AcceptBetween(n, others[i])))
      else [];
    var tail := [Append(ForwardNic(n), DropFrom(n)), Append(ForwardNic(n), Return)];
    var masq := seq(|masquerade|, i requires 0 <= i < |masquerade| =>
                      Append(Postrouting, Masquerade(masquerade[i].0, masquerade[i].1)));
    var rest := head[1..] + from + between + tail + masq;
    assert NicGroup(n, subnets, docker, others, masquerade) == [head[0]] + rest;
    assert forall c :: c in rest ==> Local(c, base, Some(n));
    hide *;
    ShapedFrom(rest, base, n);
  }

  lemma ShapedFrom(rest: seq<Command>, base: set<Chain>, nic: string)
    requires forall c :: c in rest ==> Local(c, base, Some(nic))
    ensures Shaped([New(ForwardNic(nic))] + rest, base, Some(nic))
  {
    hide Local;
    var g := [New(ForwardNic(nic))] + rest;
    forall i | 1 <= i < |g|
      ensures Local(g[i], base, Some(nic))
    {
      assert g[i] == rest[i - 1];
    }
  }

  lemma GroupsShaped(base: Chains, nics: seq<Nic>, subnets: seq<int>, docker: bool)
    requires Pristine(base) && Distinct(Names(nics)) && (docker ==> DockerUser in base)
    ensures AllShaped(Groups(nics, subnets, docker), Owners(nics), base.Keys)
  {
    hide NicGroup, Groups, Owners;
    var groups, owners := Groups(nics, subnets, docker), Owners(nics);
    forall i | 0 <= i < |groups|
      ensures Shaped(groups[i], base.Keys, owners[i])
    {
      if i > 0 {
        var k := i - 1;
        NicGroupShaped(base.Keys, nics[k].name, subnets, docker, Names(nics),
                       MasqueradePairs(nics[k], nics[..k] + nics[k + 1..]));
        assert groups[k + 1] == NicCommands(nics, k, subnets, docker);
        assert owners[k + 1] == Some(nics[k].name);
      } else {
        assert groups[0] == CLAMP_GROUP && owners[0] == None;
      }
    }
    forall i, j | 0 <= i < j < |owners| && owners[i].Some?
      ensures owners[i] != owners[j]
    {
      assert Names(nics)[i - 1] != Names(nics)[j - 1];
      assert owners[i - 1 + 1] == owners[i] && owners[j - 1 + 1] == owners[j];
    }
  }
}
