// What the rules of an agent do to packets (uno/agent/uvn_net.py).
module Filtering {
  import opened Prelude
  import opened Iptables

  // A packet on its way through the host: the interfaces it enters and leaves by, the
  // subnets that its source belongs to, and whether its connection is established.
  datatype Packet = Packet(inNic: string, outNic: string, nets: set<int>, established: bool)

  datatype Verdict = Accept | Drop | Pass

  // Rules that are not the agent's decide as they like.
  type Others = string -> Verdict

  function Judge(r: Rule, p: Packet, own: Others): (v: Verdict) {
    match r
    case AcceptEstablished(out) => if p.outNic == out && p.established then Accept else Pass
    case AcceptFrom(subnet, nic) => if p.inNic == nic && subnet in p.nets then Accept else Pass
    case AcceptBetween(nic, out) => if p.inNic == nic && p.outNic == out then Accept else Pass
    case DropFrom(nic) => if p.inNic == nic then Drop else Pass
    case Foreign(text) => own(text)
    case ClampMss => Pass
    case Jump(_) => Pass
    case Return => Pass
    case Masquerade(_, _) => Pass
  }

  // The first rule that decides; a return ends the chain.
  function ChainVerdict(rules: seq<Rule>, p: Packet, own: Others): (v: Verdict) {
    if rules == [] || rules[0].Return? then Pass
    else
      var v := Judge(rules[0], p, own);
      if v.Pass? then ChainVerdict(rules[1..], p, own) else v
  }

  // The FORWARD chain, which jumps to the chains of the interfaces.
  function ForwardVerdict(t: Chains, rules: seq<Rule>, p: Packet, own: Others): (v: Verdict) {
    if rules == [] || rules[0].Return? then Pass
    else
      var v := if rules[0].Jump? && ForwardNic(rules[0].nic) in t then ChainVerdict(t[ForwardNic(rules[0].nic)], p, own)
               else Judge(rules[0], p, own);
      if v.Pass? then ForwardVerdict(t, rules[1..], p, own) else v
  }

  // Whether the packet is forwarded, under the policy of the FORWARD chain.
  predicate Forwarded(policyAccepts: bool, t: Chains, p: Packet, own: Others)
    requires Forward in t
  {
    match ForwardVerdict(t, t[Forward], p, own)
    case Accept => true
    case Drop => false
    case Pass => policyAccepts
  }

  // What POSTROUTING does: a foreign rule may end the chain without masquerading.
  datatype Nat = Masqueraded | Kept | Undecided

  function NatVerdict(rules: seq<Rule>, p: Packet, own: Others): (v: Nat) {
    if rules == [] then Undecided
    else if rules[0].Masquerade? && rules[0].subnet in p.nets && rules[0].out == p.outNic then Masqueraded
    else if rules[0].Foreign? && !own(rules[0].text).Pass? then Kept
    else NatVerdict(rules[1..], p, own)
  }

  // ----- What one expects -----

  predicate Knows(subnets: seq<int>, p: Packet) {
    exists s :: s in subnets && s in p.nets
  }

  // Packets of an established connection are let out through an interface of the agent,
  // unless they entered through one that comes before it.
  ghost predicate LetOut(names: seq<string>, p: Packet) {
    && p.established
    && exists j :: 0 <= j < |names| && names[j] == p.outNic && forall k :: 0 <= k < j ==> names[k] != p.inNic
  }

  // The agent forwards what enters one of its interfaces from a known subnet, and
  // established connections.
  ghost predicate Allowed(names: seq<string>, subnets: seq<int>, p: Packet) {
    (p.inNic in names && Knows(subnets, p)) || LetOut(names, p)
  }

  // Masquerading goes from the subnet of a masquerading interface to any other interface.
  ghost predicate ShouldMasquerade(nics: seq<Nic>, p: Packet) {
    exists i, j :: 0 <= i < |nics| && 0 <= j < |nics| && i != j &&
      nics[i].masquerade && nics[i].subnet in p.nets && nics[j].name == p.outNic
  }

  // A started agent adds exactly that to the table it found: whatever the table's own
  // rules decide stands; what they leave open is forwarded if and only if it is allowed,
  // and everything else is dropped.
  ghost predicate Filters(base: Chains, t: Chains, nics: seq<Nic>, subnets: seq<int>, p: Packet, own: Others)
    requires Forward in base && Postrouting in base && Forward in t && Postrouting in t
    requires DockerUser in base ==> DockerUser in t
  {
    var names := Names(nics);
    && (match ForwardVerdict(base, base[Forward], p, own)
        case Accept => Forwarded(false, t, p, own)
        case Drop => !Forwarded(false, t, p, own)
        case Pass => Forwarded(false, t, p, own) <==> Allowed(names, subnets, p))
    && NatVerdict(t[Postrouting], p, own) ==
         (if NatVerdict(base[Postrouting], p, own).Undecided? && ShouldMasquerade(nics, p) then Masqueraded
          else NatVerdict(base[Postrouting], p, own))
    && (DockerUser in base ==>
          ChainVerdict(t[DockerUser], p, own) ==
          if p.inNic in names && p.outNic in names then Accept else ChainVerdict(base[DockerUser], p, own))
  }

  ghost predicate Routes(base: Chains, t: Chains, nics: seq<Nic>, subnets: seq<int>) {
    && Forward in base && Postrouting in base && Forward in t && Postrouting in t
    && (DockerUser in base ==> DockerUser in t)
    && (forall c :: c in base && c != Forward && c != Postrouting && c != DockerUser ==> c in t && t[c] == base[c])
    && base[Forward] + [ClampMss] <= t[Forward]
    && forall p: Packet, own: Others :: Filters(base, t, nics, subnets, p, own)
  }

  // ----- The contents of a chain after installing -----

  function Effect(s: seq<Rule>, cmd: Command, c: Chain): (r: seq<Rule>) {
    if cmd.chain != c then s
    else match cmd
      case New(_) => []
      case Append(_, rule) => s + [rule]
      case InsertFirst(_, rule) => [rule] + s
      case Delete(_, _) => s
      case Remove(_) => s
  }

  function Content(s: seq<Rule>, cs: seq<Command>, c: Chain): (r: seq<Rule>)
    decreases |cs|
  {
    if cs == [] then s else Content(Effect(s, cs[0], c), cs[1..], c)
  }

  lemma EffectIs(t: Chains, cmd: Command, c: Chain)
    requires Installs(cmd) && Exec(t, cmd).Ok?
    ensures Base(Exec(t, cmd).value, c) == Effect(Base(t, c), cmd, c)
    ensures t.Keys <= Exec(t, cmd).value.Keys
  {
  }

  lemma {:induction false} ContentIs(t: Chains, cs: seq<Command>, c: Chain)
    requires ExecAll(t, cs).Ok? && forall cmd :: cmd in cs ==> Installs(cmd)
    ensures Base(ExecAll(t, cs).value, c) == Content(Base(t, c), cs, c)
    ensures t.Keys <= ExecAll(t, cs).value.Keys
    decreases |cs|
  {
    hide Exec, Base, Effect, Installs;
    if cs != [] {
      EffectIs(t, cs[0], c);
      ContentIs(Exec(t, cs[0]).value, cs[1..], c);
    }
  }

  lemma {:induction false} ContentSplit(s: seq<Rule>, a: seq<Command>, b: seq<Command>, c: Chain)
    ensures Content(s, a + b, c) == Content(Content(s, a, c), b, c)
    decreases |a|
  {
    if a == [] {
      assert a + b == b;
    } else {
      assert (a + b)[0] == a[0] && (a + b)[1..] == a[1..] + b;
      ContentSplit(Effect(s, a[0], c), a[1..], b, c);
    }
  }

  lemma {:induction false} Elsewhere(s: seq<Rule>, cs: seq<Command>, c: Chain)
    requires forall i :: 0 <= i < |cs| ==> cs[i].chain != c
    ensures Content(s, cs, c) == s
    decreases |cs|
  {
    if cs != [] {
      Elsewhere(s, cs[1..], c);
    }
  }

  lemma {:induction false} Appended(s: seq<Rule>, cs: seq<Command>, c: Chain, rs: seq<Rule>)
    requires |cs| == |rs| && forall i :: 0 <= i < |cs| ==> cs[i] == Append(c, rs[i])
    ensures Content(s, cs, c) == s + rs
    decreases |cs|
  {
    if cs != [] {
      Appended(s + [rs[0]], cs[1..], c, rs[1..]);
      assert s + [rs[0]] + rs[1..] == s + rs;
    } else {
      assert s + rs == s;
    }
  }

  // ----- One group -----

  function FromRules(nic: string, subnets: seq<int>): (r: seq<Rule>) {
    seq(|subnets|, i requires 0 <= i < |subnets| => AcceptFrom(subnets[i], nic))
  }

  function NicRules(nic: string, subnets: seq<int>): (r: seq<Rule>) {
    [AcceptEstablished(nic)] + FromRules(nic, subnets) + [DropFrom(nic), Return]
  }

  function MasqueradeRules(pairs: seq<(int, string)>): (r: seq<Rule>) {
    seq(|pairs|, i requires 0 <= i < |pairs| => Masquerade(pairs[i].0, pairs[i].1))
  }

  // A group in the parts that concern different chains.
  ghost function Head(n: string): (r: seq<Command>) {
    [New(ForwardNic(n)), Append(Forward, Jump(n)), Append(ForwardNic(n), AcceptEstablished(n))]
  }

  ghost function From(n: string, subnets: seq<int>): (r: seq<Command>) {
    seq(|subnets|, i requires 0 <= i < |subnets| => Append(ForwardNic(n), AcceptFrom(subnets[i], n)))
  }

  ghost function Between(n: string, docker: bool, others: seq<string>): (r: seq<Command>) {
    if docker then seq(|others|, i requires 0 <= i < |others| => InsertFirst(DockerUser, AcceptBetween(n, others[i])))
    else []
  }

  ghost function Tail(n: string): (r: seq<Command>) {
    [Append(ForwardNic(n), DropFrom(n)), Append(ForwardNic(n), Return)]
  }

  ghost function Masq(pairs: seq<(int, string)>): (r: seq<Command>) {
    seq(|pairs|, i requires 0 <= i < |pairs| => Append(Postrouting, Masquerade(pairs[i].0, pairs[i].1)))
  }

  lemma GroupParts(n: string, subnets: seq<int>, docker: bool, others: seq<string>, pairs: seq<(int, string)>)
    ensures NicGroup(n, subnets, docker, others, pairs) ==
              Head(n) + From(n, subnets) + Between(n, docker, others) + Tail(n) + Masq(pairs)
  {
  }

  lemma GroupContent(s: seq<Rule>, n: string, subnets: seq<int>, docker: bool, others: seq<string>,
                     pairs: seq<(int, string)>, c: Chain)
    ensures Content(s, NicGroup(n, subnets, docker, others, pairs), c) ==
              Content(Content(Content(Content(Content(s, Head(n), c), From(n, subnets), c),
                      Between(n, docker, others), c), Tail(n), c), Masq(pairs), c)
  {
    GroupParts(n, subnets, docker, others, pairs);
    var h, f, b, t, m := Head(n), From(n, subnets), Between(n, docker, others), Tail(n), Masq(pairs);
    hide *;
    ContentSplit(s, h + f + b + t, m, c);
    ContentSplit(s, h + f + b, t, c);
    ContentSplit(s, h + f, b, c);
    ContentSplit(s, h, f, c);
  }

  lemma HeadContent(s: seq<Rule>, n: string, c: Chain)
    ensures Content(s, Head(n), c) ==
              if c == Forward then s + [Jump(n)] else if c == ForwardNic(n) then [AcceptEstablished(n)] else s
  {
    var a, b, d := New(ForwardNic(n)), Append(Forward, Jump(n)), Append(ForwardNic(n), AcceptEstablished(n));
    assert Head(n) == [a] + [b] + [d];
    ContentSplit(s, [a] + [b], [d], c);
    ContentSplit(s, [a], [b], c);
    OneContent(s, a, c);
    OneContent(Effect(s, a, c), b, c);
    OneContent(Effect(Effect(s, a, c), b, c), d, c);
    assert [] + [AcceptEstablished(n)] == [AcceptEstablished(n)];
  }

  lemma OneContent(s: seq<Rule>, cmd: Command, c: Chain)
    ensures Content(s, [cmd], c) == Effect(s, cmd, c)
  {
    assert [cmd][1..] == [];
  }

  lemma TailContent(s: seq<Rule>, n: string, c: Chain)
    ensures Content(s, Tail(n), c) == if c == ForwardNic(n) then s + [DropFrom(n), Return] else s
  {
    var a, b := Append(ForwardNic(n), DropFrom(n)), Append(ForwardNic(n), Return);
    assert Tail(n) == [a] + [b];
    ContentSplit(s, [a], [b], c);
    OneContent(s, a, c);
    OneContent(Effect(s, a, c), b, c);
    assert s + [DropFrom(n)] + [Return] == s + [DropFrom(n), Return];
  }

  lemma GroupForward(s: seq<Rule>, n: string, subnets: seq<int>, docker: bool, others: seq<string>,
                     pairs: seq<(int, string)>)
    ensures Content(s, NicGroup(n, subnets, docker, others, pairs), Forward) == s + [Jump(n)]
  {
    GroupContent(s, n, subnets, docker, others, pairs, Forward);
    HeadContent(s, n, Forward);
    var u := s + [Jump(n)];
    Elsewhere(u, From(n, subnets), Forward);
    Elsewhere(u, Between(n, docker, others), Forward);
    TailContent(u, n, Forward);
    Elsewhere(u, Masq(pairs), Forward);
  }

  lemma GroupOwn(s: seq<Rule>, n: string, subnets: seq<int>, docker: bool, others: seq<string>,
                 pairs: seq<(int, string)>)
    ensures Content(s, NicGroup(n, subnets, docker, others, pairs), ForwardNic(n)) == NicRules(n, subnets)
  {
    var c := ForwardNic(n);
    GroupContent(s, n, subnets, docker, others, pairs, c);
    HeadContent(s, n, c);
    Appended([AcceptEstablished(n)], From(n, subnets), c, FromRules(n, subnets));
    var u := [AcceptEstablished(n)] + FromRules(n, subnets);
    Elsewhere(u, Between(n, docker, others), c);
    TailContent(u, n, c);
    Elsewhere(u + [DropFrom(n), Return], Masq(pairs), c);
  }

  lemma GroupNat(s: seq<Rule>, n: string, subnets: seq<int>, docker: bool, others: seq<string>,
                 pairs: seq<(int, string)>)
    ensures Content(s, NicGroup(n, subnets, docker, others, pairs), Postrouting) == s + MasqueradeRules(pairs)
  {
    GroupContent(s, n, subnets, docker, others, pairs, Postrouting);
    HeadContent(s, n, Postrouting);
    Elsewhere(s, From(n, subnets), Postrouting);
    Elsewhere(s, Between(n, docker, others), Postrouting);
    TailContent(s, n, Postrouting);
    Appended(s, Masq(pairs), Postrouting, MasqueradeRules(pairs));
  }

  lemma GroupDocker(s: seq<Rule>, n: string, subnets: seq<int>, docker: bool, others: seq<string>,
                    pairs: seq<(int, string)>)
    ensures Content(s, NicGroup(n, subnets, docker, others, pairs), DockerUser) ==
              Content(s, Between(n, docker, others), DockerUser)
  {
    GroupContent(s, n, subnets, docker, others, pairs, DockerUser);
    HeadContent(s, n, DockerUser);
    Elsewhere(s, From(n, subnets), DockerUser);
    var u := Content(s, Between(n, docker, others), DockerUser);
    TailContent(u, n, DockerUser);
    Elsewhere(u, Masq(pairs), DockerUser);
  }

  lemma GroupElsewhere(s: seq<Rule>, n: string, subnets: seq<int>, docker: bool, others: seq<string>,
                       pairs: seq<(int, string)>, c: Chain)
    requires c != Forward && c != Postrouting && c != DockerUser && c != ForwardNic(n)
    ensures Content(s, NicGroup(n, subnets, docker, others, pairs), c) == s
  {
    GroupContent(s, n, subnets, docker, others, pairs, c);
    HeadContent(s, n, c);
    Elsewhere(s, From(n, subnets), c);
    Elsewhere(s, Between(n, docker, others), c);
    TailContent(s, n, c);
    Elsewhere(s, Masq(pairs), c);
  }

  // ----- All groups -----

  // The commands of the interfaces from the k-th on.
  ghost function Rest(nics: seq<Nic>, subnets: seq<int>, docker: bool, k: nat): (r: seq<Command>)
    requires k <= |nics|
    decreases |nics| - k
  {
    if k == |nics| then [] else NicCommands(nics, k, subnets, docker) + Rest(nics, subnets, docker, k + 1)
  }

  lemma {:induction false} FlatRest(nics: seq<Nic>, subnets: seq<int>, docker: bool, k: nat)
    requires k <= |nics|
    ensures Flat(Groups(nics, subnets, docker)[k + 1..]) == Rest(nics, subnets, docker, k)
    decreases |nics| - k
  {
    hide NicCommands;
    var gs := Groups(nics, subnets, docker);
    if k < |nics| {
      FlatRest(nics, subnets, docker, k + 1);
      assert gs[k + 1..][0] == gs[k + 1] && gs[k + 1..][1..] == gs[k + 2..];
    }
  }

  lemma AllCommands(nics: seq<Nic>, subnets: seq<int>, docker: bool)
    ensures Flat(Groups(nics, subnets, docker)) == CLAMP_GROUP + Rest(nics, subnets, docker, 0)
  {
    FlatRest(nics, subnets, docker, 0);
    assert Groups(nics, subnets, docker)[0 + 1..] == Groups(nics, subnets, docker)[1..];
  }

  lemma AllContent(s: seq<Rule>, nics: seq<Nic>, subnets: seq<int>, docker: bool, c: Chain)
    ensures Content(s, Flat(Groups(nics, subnets, docker)), c) ==
              Content(if c == Forward then s + [ClampMss] else s, Rest(nics, subnets, docker, 0), c)
  {
    AllCommands(nics, subnets, docker);
    ContentSplit(s, CLAMP_GROUP, Rest(nics, subnets, docker, 0), c);
    assert CLAMP_GROUP[1..] == [];
    assert Content(s, CLAMP_GROUP, c) == Effect(s, CLAMP_GROUP[0], c);
  }

  lemma RestStep(s: seq<Rule>, nics: seq<Nic>, subnets: seq<int>, docker: bool, k: nat, c: Chain)
    requires k < |nics|
    ensures Content(s, Rest(nics, subnets, docker, k), c) ==
              Content(Content(s, NicCommands(nics, k, subnets, docker), c), Rest(nics, subnets, docker, k + 1), c)
  {
    hide NicCommands, Content;
    ContentSplit(s, NicCommands(nics, k, subnets, docker), Rest(nics, subnets, docker, k + 1), c);
  }

  lemma RestEnds(nics: seq<Nic>, subnets: seq<int>, docker: bool, s: seq<Rule>, c: Chain)
    ensures Content(s, Rest(nics, subnets, docker, |nics|), c) == s
  {
  }

  function Jumps(nics: seq<Nic>, k: nat): (r: seq<Rule>)
    requires k <= |nics|
    decreases |nics| - k
  {
    if k == |nics| then [] else [Jump(nics[k].name)] + Jumps(nics, k + 1)
  }

  function AllMasquerade(nics: seq<Nic>, k: nat): (r: seq<Rule>)
    requires k <= |nics|
    decreases |nics| - k
  {
    if k == |nics| then []
    else MasqueradeRules(MasqueradePairs(nics[k], nics[..k] + nics[k + 1..])) + AllMasquerade(nics, k + 1)
  }

  lemma {:induction false} RestForward(s: seq<Rule>, nics: seq<Nic>, subnets: seq<int>, docker: bool, k: nat)
    requires k <= |nics|
    ensures Content(s, Rest(nics, subnets, docker, k), Forward) == s + Jumps(nics, k)
    decreases |nics| - k
  {
    hide NicGroup, Rest, Content;
    RestEnds(nics, subnets, docker, s, Forward);
    if k < |nics| {
      var pairs := MasqueradePairs(nics[k], nics[..k] + nics[k + 1..]);
      GroupForward(s, nics[k].name, subnets, docker, Names(nics), pairs);
      RestStep(s, nics, subnets, docker, k, Forward);
      RestForward(s + [Jump(nics[k].name)], nics, subnets, docker, k + 1);
      assert s + [Jump(nics[k].name)] + Jumps(nics, k + 1) == s + Jumps(nics, k);
    }
  }

  lemma {:induction false} RestNat(s: seq<Rule>, nics: seq<Nic>, subnets: seq<int>, docker: bool, k: nat)
    requires k <= |nics|
    ensures Content(s, Rest(nics, subnets, docker, k), Postrouting) == s + AllMasquerade(nics, k)
    decreases |nics| - k
  {
    hide NicGroup, Rest, Content, MasqueradeRules, MasqueradePairs;
    RestEnds(nics, subnets, docker, s, Postrouting);
    if k < |nics| {
      var pairs := MasqueradePairs(nics[k], nics[..k] + nics[k + 1..]);
      GroupNat(s, nics[k].name, subnets, docker, Names(nics), pairs);
      RestStep(s, nics, subnets, docker, k, Postrouting);
      RestNat(s + MasqueradeRules(pairs), nics, subnets, docker, k + 1);
      assert s + MasqueradeRules(pairs) + AllMasquerade(nics, k + 1) == s + AllMasquerade(nics, k);
    }
  }

  lemma {:induction false} RestOwn(s: seq<Rule>, nics: seq<Nic>, subnets: seq<int>, docker: bool, k: nat, i: nat)
    requires k <= |nics| && i < |nics| && Distinct(Names(nics))
    ensures Content(s, Rest(nics, subnets, docker, k), ForwardNic(nics[i].name)) ==
              if k <= i then NicRules(nics[i].name, subnets) else s
    decreases |nics| - k
  {
    hide NicGroup, Rest, Content, NicRules;
    RestEnds(nics, subnets, docker, s, ForwardNic(nics[i].name));
    if k < |nics| {
      var c := ForwardNic(nics[i].name);
      var pairs := MasqueradePairs(nics[k], nics[..k] + nics[k + 1..]);
      RestStep(s, nics, subnets, docker, k, c);
      if k == i {
        GroupOwn(s, nics[k].name, subnets, docker, Names(nics), pairs);
        RestOwn(NicRules(nics[i].name, subnets), nics, subnets, docker, k + 1, i);
      } else {
        assert Names(nics)[k] != Names(nics)[i];
        GroupElsewhere(s, nics[k].name, subnets, docker, Names(nics), pairs, c);
        RestOwn(s, nics, subnets, docker, k + 1, i);
      }
    }
  }

  lemma {:induction false} RestElsewhere(s: seq<Rule>, nics: seq<Nic>, subnets: seq<int>, docker: bool, k: nat,
                                         c: Chain)
    requires k <= |nics| && c != Forward && c != Postrouting && c != DockerUser && !c.ForwardNic?
    ensures Content(s, Rest(nics, subnets, docker, k), c) == s
    decreases |nics| - k
  {
    hide NicGroup, Rest, Content;
    RestEnds(nics, subnets, docker, s, c);
    if k < |nics| {
      var pairs := MasqueradePairs(nics[k], nics[..k] + nics[k + 1..]);
      GroupElsewhere(s, nics[k].name, subnets, docker, Names(nics), pairs, c);
      RestStep(s, nics, subnets, docker, k, c);
      RestElsewhere(s, nics, subnets, docker, k + 1, c);
    }
  }

  // ----- Verdicts -----

  // One interface's chain decides about packets that enter or leave by it.
  function NicVerdict(nic: string, subnets: seq<int>, p: Packet): (v: Verdict) {
    if p.outNic == nic && p.established then Accept
    else if p.inNic != nic then Pass
    else if Knows(subnets, p) then Accept
    else Drop
  }

  lemma {:induction false} FromVerdict(nic: string, subnets: seq<int>, rest: seq<Rule>, p: Packet, own: Others)
    ensures ChainVerdict(FromRules(nic, subnets) + rest, p, own) ==
              if p.inNic == nic && Knows(subnets, p) then Accept else ChainVerdict(rest, p, own)
    decreases |subnets|
  {
    var rules := FromRules(nic, subnets) + rest;
    if subnets == [] {
      assert rules == rest;
    } else {
      FromVerdict(nic, subnets[1..], rest, p, own);
      assert rules[0] == AcceptFrom(subnets[0], nic);
      assert rules[1..] == FromRules(nic, subnets[1..]) + rest;
      assert Knows(subnets, p) <==> subnets[0] in p.nets || Knows(subnets[1..], p);
    }
  }

  lemma NicRulesVerdict(nic: string, subnets: seq<int>, p: Packet, own: Others)
    ensures ChainVerdict(NicRules(nic, subnets), p, own) == NicVerdict(nic, subnets, p)
  {
    var end := [DropFrom(nic), Return];
    FromVerdict(nic, subnets, end, p, own);
    assert end[1..] == [Return];
    hide Knows, FromRules;
    var rules := NicRules(nic, subnets);
    assert rules[0] == AcceptEstablished(nic) && rules[1..] == FromRules(nic, subnets) + end;
  }

  lemma {:induction false} ForwardSplit(t: Chains, a: seq<Rule>, b: seq<Rule>, p: Packet, own: Others)
    requires forall r :: r in a ==> !r.Return?
    ensures ForwardVerdict(t, a + b, p, own) ==
              if ForwardVerdict(t, a, p, own).Pass? then ForwardVerdict(t, b, p, own) else ForwardVerdict(t, a, p, own)
    decreases |a|
  {
    hide Judge;
    if a == [] {
      assert a + b == b;
    } else {
      assert (a + b)[0] == a[0] && (a + b)[1..] == a[1..] + b;
      ForwardSplit(t, a[1..], b, p, own);
    }
  }

  // Foreign rules do not look at other chains.
  lemma {:induction false} ForeignVerdict(t: Chains, u: Chains, rules: seq<Rule>, p: Packet, own: Others)
    requires forall r :: r in rules ==> r.Foreign?
    ensures ForwardVerdict(t, rules, p, own) == ForwardVerdict(u, rules, p, own)
    decreases |rules|
  {
    if rules != [] {
      assert rules[0] in rules;
      ForeignVerdict(t, u, rules[1..], p, own);
    }
  }

  // The first interface whose chain decides.
  function FirstVerdict(nics: seq<Nic>, subnets: seq<int>, p: Packet, k: nat): (v: Verdict)
    requires k <= |nics|
    decreases |nics| - k
  {
    if k == |nics| then Pass
    else
      var v := NicVerdict(nics[k].name, subnets, p);
      if v.Pass? then FirstVerdict(nics, subnets, p, k + 1) else v
  }

  lemma {:induction false} JumpsVerdict(t: Chains, nics: seq<Nic>, subnets: seq<int>, p: Packet, own: Others, k: nat)
    requires k <= |nics|
    requires forall i :: 0 <= i < |nics| ==>
               ForwardNic(nics[i].name) in t && t[ForwardNic(nics[i].name)] == NicRules(nics[i].name, subnets)
    ensures ForwardVerdict(t, Jumps(nics, k), p, own) == FirstVerdict(nics, subnets, p, k)
    decreases |nics| - k
  {
    hide NicRules, NicVerdict, ChainVerdict;
    if k < |nics| {
      NicRulesVerdict(nics[k].name, subnets, p, own);
      JumpsVerdict(t, nics, subnets, p, own, k + 1);
      assert Jumps(nics, k)[1..] == Jumps(nics, k + 1);
    }
  }

  // Let out by an interface from the k-th on.
  ghost predicate LetOutFrom(nics: seq<Nic>, p: Packet, k: nat) {
    && p.established
    && exists j :: k <= j < |nics| && nics[j].name == p.outNic && forall i :: k <= i < j ==> nics[i].name != p.inNic
  }

  lemma {:induction false} FirstVerdictIs(nics: seq<Nic>, subnets: seq<int>, p: Packet, k: nat)
    requires k <= |nics|
    ensures var entered := exists i :: k <= i < |nics| && nics[i].name == p.inNic;
            FirstVerdict(nics, subnets, p, k) ==
              if (entered && Knows(subnets, p)) || LetOutFrom(nics, p, k) then Accept
              else if entered then Drop else Pass
    decreases |nics| - k
  {
    hide Knows;
    if k < |nics| {
      FirstVerdictIs(nics, subnets, p, k + 1);
      LetOutStep(nics, p, k);
    }
  }

  lemma LetOutStep(nics: seq<Nic>, p: Packet, k: nat)
    requires k < |nics|
    ensures LetOutFrom(nics, p, k) <==>
              p.established && (nics[k].name == p.outNic || (nics[k].name != p.inNic && LetOutFrom(nics, p, k + 1)))
  {
    if LetOutFrom(nics, p, k) && nics[k].name != p.outNic {
      var j :| k <= j < |nics| && nics[j].name == p.outNic && forall i :: k <= i < j ==> nics[i].name != p.inNic;
      assert nics[k].name != p.inNic;
    }
  }

  lemma NicsVerdict(nics: seq<Nic>, subnets: seq<int>, p: Packet)
    ensures FirstVerdict(nics, subnets, p, 0).Accept? <==> Allowed(Names(nics), subnets, p)
  {
    FirstVerdictIs(nics, subnets, p, 0);
    hide Knows;
    var names := Names(nics);
    assert p.inNic in names <==> exists i :: 0 <= i < |nics| && nics[i].name == p.inNic by {
      forall i | 0 <= i < |nics|
        ensures names[i] == nics[i].name
      {
      }
    }
    assert LetOutFrom(nics, p, 0) <==> LetOut(names, p) by { LetOutNames(nics, p); }
  }

  lemma LetOutNames(nics: seq<Nic>, p: Packet)
    ensures LetOutFrom(nics, p, 0) <==> LetOut(Names(nics), p)
  {
    var names := Names(nics);
    if LetOutFrom(nics, p, 0) {
      var j :| 0 <= j < |nics| && nics[j].name == p.outNic && forall i :: 0 <= i < j ==> nics[i].name != p.inNic;
      assert names[j] == p.outNic && forall i :: 0 <= i < j ==> names[i] != p.inNic;
    }
    if LetOut(names, p) {
      var j :| 0 <= j < |names| && names[j] == p.outNic && forall i :: 0 <= i < j ==> names[i] != p.inNic;
      assert nics[j].name == p.outNic && forall i :: 0 <= i < j ==> nics[i].name != p.inNic by {
        forall i | 0 <= i < j
          ensures nics[i].name != p.inNic
        {
          assert names[i] != p.inNic;
        }
      }
    }
  }

  // ----- Masquerading -----

  lemma {:induction false} NatSplit(a: seq<Rule>, b: seq<Rule>, p: Packet, own: Others)
    ensures NatVerdict(a + b, p, own) ==
              if NatVerdict(a, p, own).Undecided? then NatVerdict(b, p, own) else NatVerdict(a, p, own)
    decreases |a|
  {
    if a == [] {
      assert a + b == b;
    } else {
      assert (a + b)[0] == a[0] && (a + b)[1..] == a[1..] + b;
      NatSplit(a[1..], b, p, own);
    }
  }

  ghost predicate Hits(pairs: seq<(int, string)>, p: Packet) {
    exists i :: 0 <= i < |pairs| && pairs[i].0 in p.nets && pairs[i].1 == p.outNic
  }

  lemma {:induction false} MasqueradeVerdict(pairs: seq<(int, string)>, p: Packet, own: Others)
    ensures NatVerdict(MasqueradeRules(pairs), p, own) == if Hits(pairs, p) then Masqueraded else Undecided
    decreases |pairs|
  {
    if pairs != [] {
      MasqueradeVerdict(pairs[1..], p, own);
      assert MasqueradeRules(pairs)[1..] == MasqueradeRules(pairs[1..]);
      assert Hits(pairs, p) <==> (pairs[0].0 in p.nets && pairs[0].1 == p.outNic) || Hits(pairs[1..], p) by {
        HitsStep(pairs, p);
      }
    }
  }

  lemma HitsStep(pairs: seq<(int, string)>, p: Packet)
    requires pairs != []
    ensures Hits(pairs, p) <==> (pairs[0].0 in p.nets && pairs[0].1 == p.outNic) || Hits(pairs[1..], p)
  {
    if Hits(pairs[1..], p) {
      var i :| 0 <= i < |pairs[1..]| && pairs[1..][i].0 in p.nets && pairs[1..][i].1 == p.outNic;
      assert pairs[i + 1] == pairs[1..][i];
    }
    if Hits(pairs, p) {
      var i :| 0 <= i < |pairs| && pairs[i].0 in p.nets && pairs[i].1 == p.outNic;
      if i > 0 {
        assert pairs[1..][i - 1] == pairs[i];
      }
    }
  }

  ghost predicate MasqueradesTo(nics: seq<Nic>, i: int, p: Packet)
    requires 0 <= i < |nics|
  {
    nics[i].masquerade && nics[i].subnet in p.nets && exists j :: 0 <= j < |nics| && j != i && nics[j].name == p.outNic
  }

  lemma PairsHit(nics: seq<Nic>, i: int, p: Packet)
    requires 0 <= i < |nics|
    ensures Hits(MasqueradePairs(nics[i], nics[..i] + nics[i + 1..]), p) <==> MasqueradesTo(nics, i, p)
  {
    var others := nics[..i] + nics[i + 1..];
    var pairs := MasqueradePairs(nics[i], others);
    if MasqueradesTo(nics, i, p) {
      var j :| 0 <= j < |nics| && j != i && nics[j].name == p.outNic;
      var k := if j < i then j else j - 1;
      assert others[k] == nics[j];
      assert pairs[k] == (nics[i].subnet, nics[j].name);
    }
    if Hits(pairs, p) {
      var k :| 0 <= k < |pairs| && pairs[k].0 in p.nets && pairs[k].1 == p.outNic;
      var j := if k < i then k else k + 1;
      assert others[k] == nics[j];
    }
  }

  lemma {:induction false} AllMasqueradeVerdict(nics: seq<Nic>, p: Packet, own: Others, k: nat)
    requires k <= |nics|
    ensures NatVerdict(AllMasquerade(nics, k), p, own) ==
              if exists i :: k <= i < |nics| && MasqueradesTo(nics, i, p) then Masqueraded else Undecided
    decreases |nics| - k
  {
    hide MasqueradeRules, MasqueradePairs, Hits, MasqueradesTo;
    if k < |nics| {
      var pairs := MasqueradePairs(nics[k], nics[..k] + nics[k + 1..]);
      AllMasqueradeVerdict(nics, p, own, k + 1);
      MasqueradeVerdict(pairs, p, own);
      PairsHit(nics, k, p);
      NatSplit(MasqueradeRules(pairs), AllMasquerade(nics, k + 1), p, own);
    }
  }

  lemma MasqueradeIs(nics: seq<Nic>, p: Packet, own: Others)
    ensures NatVerdict(AllMasquerade(nics, 0), p, own) == if ShouldMasquerade(nics, p) then Masqueraded else Undecided
  {
    AllMasqueradeVerdict(nics, p, own, 0);
    hide AllMasquerade;
    if ShouldMasquerade(nics, p) {
      var i, j :| 0 <= i < |nics| && 0 <= j < |nics| && i != j &&
                  nics[i].masquerade && nics[i].subnet in p.nets && nics[j].name == p.outNic;
      assert MasqueradesTo(nics, i, p);
    }
  }

  // ----- DOCKER-USER -----

  lemma {:induction false} BetweenVerdict(s: seq<Rule>, cs: seq<Command>, n: string, others: seq<string>, p: Packet,
                                          own: Others)
    requires |cs| == |others|
    requires forall i :: 0 <= i < |cs| ==> cs[i] == InsertFirst(DockerUser, AcceptBetween(n, others[i]))
    ensures ChainVerdict(Content(s, cs, DockerUser), p, own) ==
              if p.inNic == n && p.outNic in others then Accept else ChainVerdict(s, p, own)
    decreases |cs|
  {
    if cs != [] {
      var u := [AcceptBetween(n, others[0])] + s;
      assert u[1..] == s;
      BetweenVerdict(u, cs[1..], n, others[1..], p, own);
      assert others == [others[0]] + others[1..];
    }
  }

  lemma BetweenAccepts(s: seq<Rule>, n: string, others: seq<string>, p: Packet, own: Others)
    ensures ChainVerdict(Content(s, Between(n, true, others), DockerUser), p, own) ==
              if p.inNic == n && p.outNic in others then Accept else ChainVerdict(s, p, own)
  {
    BetweenVerdict(s, Between(n, true, others), n, others, p, own);
  }

  lemma {:induction false} RestDocker(s: seq<Rule>, nics: seq<Nic>, subnets: seq<int>, k: nat, p: Packet, own: Others)
    requires k <= |nics|
    ensures ChainVerdict(Content(s, Rest(nics, subnets, true, k), DockerUser), p, own) ==
              if (exists i :: k <= i < |nics| && nics[i].name == p.inNic) && p.outNic in Names(nics) then Accept
              else ChainVerdict(s, p, own)
    decreases |nics| - k
  {
    hide NicGroup, Rest, Content, Between, ChainVerdict;
    RestEnds(nics, subnets, true, s, DockerUser);
    if k < |nics| {
      var n, others := nics[k].name, Names(nics);
      var pairs := MasqueradePairs(nics[k], nics[..k] + nics[k + 1..]);
      GroupDocker(s, n, subnets, true, others, pairs);
      RestStep(s, nics, subnets, true, k, DockerUser);
      BetweenAccepts(s, n, others, p, own);
      RestDocker(Content(s, Between(n, true, others), DockerUser), nics, subnets, k + 1, p, own);
    }
  }

  // ----- The whole table -----

  lemma {:induction false} GroupsInstall(nics: seq<Nic>, subnets: seq<int>, base: Chains)
    requires Pristine(base) && Distinct(Names(nics))
    ensures forall cmd :: cmd in Flat(Groups(nics, subnets, DockerUser in base)) ==> Installs(cmd)
  {
    var groups, owners := Groups(nics, subnets, DockerUser in base), Owners(nics);
    GroupsShaped(base, nics, subnets, DockerUser in base);
    hide Groups, Owners, Pristine;
    FlatInstalls(groups, owners, base.Keys);
  }

  lemma {:induction false} FlatInstalls(groups: seq<seq<Command>>, nics: seq<Option<string>>, base: set<Chain>)
    requires AllShaped(groups, nics, base)
    ensures forall cmd :: cmd in Flat(groups) ==> Installs(cmd)
    decreases |groups|
  {
    hide Shaped, Installs;
    if groups != [] {
      GroupInstalls(groups[0], base, nics[0]);
      FlatInstalls(groups[1..], nics[1..], base);
      forall cmd | cmd in Flat(groups)
        ensures Installs(cmd)
      {
        assert cmd in groups[0] || cmd in Flat(groups[1..]);
        assert cmd in groups[0] ==> cmd in multiset(groups[0]);
      }
    }
  }

  // The chains of a started agent.
  ghost predicate Contents(base: Chains, t: Chains, nics: seq<Nic>, subnets: seq<int>)
    requires Forward in base && Postrouting in base
  {
    && Forward in t && t[Forward] == base[Forward] + [ClampMss] + Jumps(nics, 0)
    && Postrouting in t && t[Postrouting] == base[Postrouting] + AllMasquerade(nics, 0)
    && (forall i :: 0 <= i < |nics| ==>
          ForwardNic(nics[i].name) in t && t[ForwardNic(nics[i].name)] == NicRules(nics[i].name, subnets))
    && (DockerUser in base ==>
          DockerUser in t && t[DockerUser] == Content(base[DockerUser], Rest(nics, subnets, true, 0), DockerUser))
    && forall c :: c in base && c != Forward && c != Postrouting && c != DockerUser ==> c in t && t[c] == base[c]
  }

  lemma StartedContent(base: Chains, t: Chains, nics: seq<Nic>, subnets: seq<int>, c: Chain)
    requires Pristine(base) && Distinct(Names(nics))
    requires ExecAll(base, Flat(Groups(nics, subnets, DockerUser in base))) == Ok(t)
    ensures base.Keys <= t.Keys
    ensures Base(t, c) == Content(if c == Forward then Base(base, c) + [ClampMss] else Base(base, c),
                                  Rest(nics, subnets, DockerUser in base, 0), c)
  {
    hide Pristine, Groups, Rest, ExecAll, Base;
    GroupsInstall(nics, subnets, base);
    ContentIs(base, Flat(Groups(nics, subnets, DockerUser in base)), c);
    AllContent(Base(base, c), nics, subnets, DockerUser in base, c);
  }

  lemma OwnIsThere(base: Chains, t: Chains, nics: seq<Nic>, subnets: seq<int>, i: int)
    requires Pristine(base) && Distinct(Names(nics)) && 0 <= i < |nics|
    requires ExecAll(base, Flat(Groups(nics, subnets, DockerUser in base))) == Ok(t)
    ensures ForwardNic(nics[i].name) in t && t[ForwardNic(nics[i].name)] == NicRules(nics[i].name, subnets)
  {
    var c := ForwardNic(nics[i].name);
    StartedContent(base, t, nics, subnets, c);
    RestOwn(Base(base, c), nics, subnets, DockerUser in base, 0, i);
    assert |NicRules(nics[i].name, subnets)| > 0;
  }

  lemma StartedContents(base: Chains, t: Chains, nics: seq<Nic>, subnets: seq<int>)
    requires Pristine(base) && Distinct(Names(nics))
    requires ExecAll(base, Flat(Groups(nics, subnets, DockerUser in base))) == Ok(t)
    ensures Forward in base && Postrouting in base && Contents(base, t, nics, subnets)
  {
    assert Forward in base && Postrouting in base && forall c :: c in base ==> !c.ForwardNic?;
    hide Pristine, Groups, Rest, ExecAll, Content, Jumps, AllMasquerade, NicRules, Flat;
    var docker := DockerUser in base;
    StartedContent(base, t, nics, subnets, Forward);
    RestForward(base[Forward] + [ClampMss], nics, subnets, docker, 0);
    StartedContent(base, t, nics, subnets, Postrouting);
    RestNat(base[Postrouting], nics, subnets, docker, 0);
    StartedContent(base, t, nics, subnets, DockerUser);
    forall i | 0 <= i < |nics|
      ensures ForwardNic(nics[i].name) in t && t[ForwardNic(nics[i].name)] == NicRules(nics[i].name, subnets)
    {
      OwnIsThere(base, t, nics, subnets, i);
    }
    forall c | c in base && c != Forward && c != Postrouting && c != DockerUser
      ensures c in t && t[c] == base[c]
    {
      StartedContent(base, t, nics, subnets, c);
      RestElsewhere(base[c], nics, subnets, docker, 0, c);
    }
  }

  lemma ForwardFilters(base: Chains, t: Chains, nics: seq<Nic>, subnets: seq<int>, p: Packet, own: Others)
    requires Forward in base && Postrouting in base && Contents(base, t, nics, subnets)
    requires forall r :: r in base[Forward] ==> r.Foreign?
    ensures ForwardVerdict(t, t[Forward], p, own) ==
              if ForwardVerdict(base, base[Forward], p, own).Pass? then FirstVerdict(nics, subnets, p, 0)
              else ForwardVerdict(base, base[Forward], p, own)
  {
    var head := base[Forward] + [ClampMss];
    ForwardSplit(t, head, Jumps(nics, 0), p, own);
    ForwardSplit(t, base[Forward], [ClampMss], p, own);
    assert [ClampMss][1..] == [];
    ForeignVerdict(t, base, base[Forward], p, own);
    JumpsVerdict(t, nics, subnets, p, own, 0);
  }

  lemma TableFilters(base: Chains, t: Chains, nics: seq<Nic>, subnets: seq<int>, p: Packet, own: Others)
    requires Forward in base && Postrouting in base && Contents(base, t, nics, subnets)
    requires forall r :: r in base[Forward] ==> r.Foreign?
    ensures Filters(base, t, nics, subnets, p, own)
  {
    ForwardFilters(base, t, nics, subnets, p, own);
    NicsVerdict(nics, subnets, p);
    NatSplit(base[Postrouting], AllMasquerade(nics, 0), p, own);
    MasqueradeIs(nics, p, own);
    if DockerUser in base {
      RestDocker(base[DockerUser], nics, subnets, 0, p, own);
      NamesHave(nics, p.inNic);
    }
    hide ForwardVerdict, NatVerdict, ChainVerdict, FirstVerdict, Jumps, AllMasquerade, NicRules, Rest, Content, Allowed,
         ShouldMasquerade;
  }

  lemma NamesHave(nics: seq<Nic>, name: string)
    ensures name in Names(nics) <==> exists i :: 0 <= i < |nics| && nics[i].name == name
  {
    var names := Names(nics);
    forall i | 0 <= i < |nics|
      ensures names[i] == nics[i].name && nics[i].name in names
    {
    }
  }

  // Starting an agent on a table without its rules makes the host filter, masquerade and
  // pass docker's chain exactly as expected, for every packet and whatever the rules of
  // others decide.
  lemma StartedRoutes(base: Chains, t: Chains, nics: seq<Nic>, subnets: seq<int>)
    requires Pristine(base) && Distinct(Names(nics))
    requires ExecAll(base, Flat(Groups(nics, subnets, DockerUser in base))) == Ok(t)
    ensures Routes(base, t, nics, subnets)
  {
    StartedContents(base, t, nics, subnets);
    assert forall r :: r in base[Forward] ==> r.Foreign?;
    hide Pristine, Groups, ExecAll, Flat, Contents, Filters;
    forall p: Packet, own: Others
      ensures Filters(base, t, nics, subnets, p, own)
    {
      TableFilters(base, t, nics, subnets, p, own);
    }
  }
}
