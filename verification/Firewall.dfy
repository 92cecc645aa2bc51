// The service that starts and stops forwarding on an agent (uno/agent/uvn_net.py).
module Firewall {
  import opened Prelude
  import opened Iptables
  import opened Filtering

  // The rules recorded after one more command under a rule id.
  function Recorded(rules: seq<seq<Command>>, id: nat, c: Command): (r: seq<seq<Command>>)
    requires id == |rules| || id == |rules| - 1
  {
    if id == |rules| then rules + [[c]] else rules[id := rules[id] + [c]]
  }

  // The first i groups, and the first j commands of the next one.
  ghost function Begun(groups: seq<seq<Command>>, i: nat, j: nat): (r: seq<seq<Command>>)
    requires i < |groups| && j <= |groups[i]|
    ensures j == 0 ==> r == groups[..i]
    ensures j > 0 ==> |r| == i + 1 && r[..i] == groups[..i] && r[i] == groups[i][..j]
  {
    if j == 0 then groups[..i] else groups[..i] + [groups[i][..j]]
  }

  // Some proper beginning of the groups was installed.
  ghost predicate Installed(rules: seq<seq<Command>>, groups: seq<seq<Command>>) {
    exists i: nat, j: nat :: i < |groups| && j < |groups[i]| && rules == Begun(groups, i, j)
  }

  lemma {:induction false} FlatPush(gs: seq<seq<Command>>, g: seq<Command>)
    ensures Flat(gs + [g]) == Flat(gs) + g
    decreases |gs|
  {
    if gs == [] {
      assert gs + [g] == [g];
      assert Flat([g]) == g + Flat([g][1..]) == g;
    } else {
      assert (gs + [g])[0] == gs[0] && (gs + [g])[1..] == gs[1..] + [g];
      FlatPush(gs[1..], g);
    }
  }

  lemma {:induction false} FlatSplit(gs: seq<seq<Command>>, i: nat)
    requires i <= |gs|
    ensures Flat(gs) == Flat(gs[..i]) + Flat(gs[i..])
    decreases i
  {
    if i == 0 {
      assert gs[0..] == gs && gs[..0] == [];
    } else {
      FlatSplit(gs, i - 1);
      assert gs[..i] == gs[..i - 1] + [gs[i - 1]];
      FlatPush(gs[..i - 1], gs[i - 1]);
      assert gs[i - 1..][0] == gs[i - 1] && gs[i - 1..][1..] == gs[i..];
    }
  }

  lemma FlatBegun(groups: seq<seq<Command>>, i: nat, j: nat)
    requires i < |groups| && j <= |groups[i]|
    ensures Flat(Begun(groups, i, j)) == Flat(groups[..i]) + groups[i][..j]
  {
    FlatPush(groups[..i], groups[i][..j]);
    assert j == 0 ==> groups[i][..j] == [];
  }

  lemma NothingRun(start: Chains, groups: seq<seq<Command>>)
    ensures groups[..0] == [] && ExecAll(start, Flat([])) == Ok(start)
  {
  }

  lemma RecordedNext(groups: seq<seq<Command>>, i: nat, j: nat)
    requires i < |groups| && j < |groups[i]|
    ensures |Begun(groups, i, j)| == (if j == 0 then i else i + 1)
    ensures Recorded(Begun(groups, i, j), i, groups[i][j]) == Begun(groups, i, j + 1)
  {
    var g := groups[i];
    assert g[..j + 1] == g[..j] + [g[j]];
    if j == 0 {
      assert g[..1] == [g[0]];
    } else {
      var rules := groups[..i] + [g[..j]];
      assert rules[i := rules[i] + [g[j]]] == groups[..i] + [g[..j + 1]];
    }
  }

  // Recording the next command records what running it adds.
  lemma OneMoreRecorded(groups: seq<seq<Command>>, i: nat, j: nat, start: Chains, now: Chains)
    requires i < |groups| && j < |groups[i]| && ExecAll(start, Flat(Begun(groups, i, j))) == Ok(now)
    ensures |Begun(groups, i, j)| == (if j == 0 then i else i + 1)
    ensures Recorded(Begun(groups, i, j), i, groups[i][j]) == Begun(groups, i, j + 1)
    ensures ExecAll(start, Flat(Begun(groups, i, j + 1))) == Exec(now, groups[i][j])
  {
    hide Exec, ExecAll;
    var c := groups[i][j];
    RecordedNext(groups, i, j);
    hide Begun, Flat, Recorded;
    FlatBegun(groups, i, j);
    FlatBegun(groups, i, j + 1);
    assert groups[i][..j + 1] == groups[i][..j] + [c];
    var done := Flat(Begun(groups, i, j));
    assert Flat(Begun(groups, i, j + 1)) == done + [c];
    ExecAllSplit(start, done, [c]);
    ExecOne(now, c);
  }

  lemma FlatAround(groups: seq<seq<Command>>, i: nat, j: nat)
    requires i < |groups| && j <= |groups[i]|
    ensures Flat(groups) == Flat(Begun(groups, i, j)) + (groups[i][j..] + Flat(groups[i + 1..]))
  {
    hide Begun;
    FlatBegun(groups, i, j);
    FlatSplit(groups, i);
    assert groups[i..][0] == groups[i] && groups[i..][1..] == groups[i + 1..];
    assert Flat(groups[i..]) == groups[i] + Flat(groups[i + 1..]);
    hide Flat;
    CutInside(Flat(groups[..i]), groups[i], Flat(groups[i + 1..]), j);
  }

  lemma CutInside(head: seq<Command>, g: seq<Command>, tail: seq<Command>, j: nat)
    requires j <= |g|
    ensures head + (g + tail) == head + g[..j] + (g[j..] + tail)
  {
    assert g == g[..j] + g[j..];
  }

  // A refused command makes the whole sequence fail.
  lemma RefusedAt(groups: seq<seq<Command>>, i: nat, j: nat, start: Chains, now: Chains)
    requires i < |groups| && j < |groups[i]| && ExecAll(start, Flat(Begun(groups, i, j))) == Ok(now)
    requires Exec(now, groups[i][j]).Err?
    ensures ExecAll(start, Flat(groups)).Err? && Installed(Begun(groups, i, j), groups)
  {
    hide Exec, ExecAll, Flat, Begun;
    OneMoreRecorded(groups, i, j, start, now);
    FlatAround(groups, i, j + 1);
    ExecAllSplit(start, Flat(Begun(groups, i, j + 1)), groups[i][j + 1..] + Flat(groups[i + 1..]));
  }

  lemma GroupsNonEmpty(nics: seq<Nic>, subnets: seq<int>, docker: bool, i: nat)
    requires i < |nics| + 1
    ensures i < |Groups(nics, subnets, docker)| && |Groups(nics, subnets, docker)[i]| > 0
  {
    if i > 0 {
      assert Groups(nics, subnets, docker)[i - 1 + 1] == NicCommands(nics, i - 1, subnets, docker);
    }
  }

  class UvnNet {
    // Kernel state.
    var forwardAccepts: bool
    var chains: Chains
    // _iptables_rules without the policy, which is the first entry.
    var rules: seq<seq<Command>>

    constructor (forwardAccepts: bool, chains: Chains)
      ensures this.forwardAccepts == forwardAccepts && this.chains == chains && rules == []
    {
      this.forwardAccepts, this.chains, rules := forwardAccepts, chains, [];
    }

    // Runs commands one by one; the first refusal raises.
    method RunAll(cs: seq<Command>) returns (r: Result<()>)
      modifies this`chains
      ensures r.Ok? <==> ExecAll(old(chains), cs).Ok?
      ensures r.Ok? ==> chains == ExecAll(old(chains), cs).value
    {
      hide Exec;
      var i := 0;
      assert cs[0..] == cs;
      while i < |cs|
        invariant 0 <= i <= |cs|
        invariant ExecAll(chains, cs[i..]) == ExecAll(old(chains), cs)
      {
        assert cs[i..][0] == cs[i] && cs[i..][1..] == cs[i + 1..];
        var next := Exec(chains, cs[i]);
        if next.Err? {
          return Err(next.error);
        }
        chains := next.value;
        i := i + 1;
      }
      return Ok(());
    }

    // _iptables_install: a command that was accepted is recorded under its rule id,
    // here the position of its group.
    method Install(id: nat, c: Command) returns (r: Result<()>)
      requires id == |rules| || id == |rules| - 1
      modifies this`chains, this`rules
      ensures r.Ok? <==> Exec(old(chains), c).Ok?
      ensures r.Ok? ==> chains == Exec(old(chains), c).value && rules == Recorded(old(rules), id, c)
      ensures r.Err? ==> chains == old(chains) && rules == old(rules)
    {
      hide Exec;
      var next := Exec(chains, c);
      if next.Err? {
        return Err(next.error);
      }
      chains := next.value;
      rules := Recorded(rules, id, c);
      return Ok(());
    }

    // _start installs the commands of all interfaces.  Whether or not it succeeds,
    // what it recorded is what was executed; on a table without the agent's rules,
    // and with distinct interface names, no command is refused and the host filters and
    // masquerades as expected.
    method Start(nics: seq<Nic>, subnets: seq<int>) returns (r: Result<()>)
      requires rules == []
      modifies this
      ensures !forwardAccepts && ExecAll(old(chains), Flat(rules)) == Ok(chains)
      ensures old(Pristine(chains)) && Distinct(Names(nics)) ==> r.Ok? && Routes(old(chains), chains, nics, subnets)
      ensures r.Ok? ==> rules == Groups(nics, subnets, DockerUser in old(chains))
      ensures r.Ok? <==> ExecAll(old(chains), Flat(Groups(nics, subnets, DockerUser in old(chains)))).Ok?
      ensures r.Err? ==>
                Installed(rules, Groups(nics, subnets, DockerUser in old(chains)))
    {
      hide Exec, Pristine, AllShaped, Groups, ExecAll, Installed, Flat, Recorded, Routes;
      var docker := DockerUser in chains;
      var groups := Groups(nics, subnets, docker);
      if Pristine(chains) && Distinct(Names(nics)) {
        GroupsShaped(chains, nics, subnets, docker);
        InstallThenUndo(chains, groups, Owners(nics));
      }
      ghost var start := chains;
      forwardAccepts := false;
      NothingRun(start, groups);
      var i := 0;
      while i < |groups|
        invariant 0 <= i <= |groups| && !forwardAccepts
        invariant rules == groups[..i] && ExecAll(start, Flat(rules)) == Ok(chains)
      {
        var j := 0;
        while j < |groups[i]|
          invariant 0 <= j <= |groups[i]| && !forwardAccepts
          invariant rules == Begun(groups, i, j) && ExecAll(start, Flat(rules)) == Ok(chains)
        {
          ghost var done, before := rules, chains;
          OneMoreRecorded(groups, i, j, start, before);
          r := Install(i, groups[i][j]);
          if r.Err? {
            RefusedAt(groups, i, j, start, before);
            return;
          }
          j := j + 1;
        }
        GroupsNonEmpty(nics, subnets, docker, i);
        assert groups[i][..j] == groups[i] && groups[..i + 1] == groups[..i] + [groups[i]];
        i := i + 1;
      }
      assert groups[..i] == groups;
      if Pristine(start) && Distinct(Names(nics)) {
        StartedRoutes(start, chains, nics, subnets);
      }
      return Ok(());
    }

    // _stop undoes what one _start recorded: every command is accepted, every
    // chain is what it was, and forwarding is allowed again.
    method Stop(ghost base: Chains, ghost nics: seq<Nic>, ghost subnets: seq<int>) returns (r: Result<()>)
      modifies this`forwardAccepts, this`chains
      ensures forwardAccepts && (r.Ok? <==> ExecAll(old(chains), UndoAll(rules)).Ok?)
      ensures Pristine(base) && Distinct(Names(nics)) && rules == Groups(nics, subnets, DockerUser in base) &&
              ExecAll(base, Flat(rules)) == Ok(old(chains)) ==>
                r.Ok? && chains == base
    {
      hide Exec, Pristine, AllShaped, Groups, ExecAll;
      if Pristine(base) && Distinct(Names(nics)) && rules == Groups(nics, subnets, DockerUser in base) {
        GroupsShaped(base, nics, subnets, DockerUser in base);
        InstallThenUndo(base, rules, Owners(nics));
      }
      forwardAccepts := true;
      r := RunAll(UndoAll(rules));
    }
  }
}
