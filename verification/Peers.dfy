// UvnPeersList: the agents' picture of all peers, with global flags that are
// updated only when a relevant change was recorded (uno/agent/uvn_peers_list.py).
module Peers {
  import opened Prelude

  datatype Status = Declared | Online | Offline

  datatype Owner = Uvn | Cell(id: int, excluded: bool) | Particle(id: int)

  // A LAN descriptor: its subnet and the rest of its identity.
  datatype Lan = Lan(subnet: int, nic: int)

  datatype Peer = Peer(
    owner: Owner, status: Status, registryId: Option<int>, routed: set<Lan>, instance: Option<int>, writer: Option<int>)

  // The properties passed to configure(); None leaves a property alone.
  datatype Fields = Fields(
    status: Option<Status>, registryId: Option<int>, routed: Option<set<Lan>>,
    instance: Option<int>, writer: Option<int>)

  // The value that the last write of a property replaced, if there was one since the
  // last save.
  datatype Previous = Previous(status: Option<Status>, registryId: Option<Option<int>>, routed: Option<set<Lan>>)

  const UNCHANGED := Previous(None, None, None)

  datatype Flags = Flags(allCells: bool, consistent: bool, discovered: bool, registry: bool)

  predicate ActiveCell(p: Peer) {
    p.owner.Cell? && !p.owner.excluded
  }

  function Configured(p: Peer, f: Fields): (r: Peer) {
    p.(status := if f.status.Some? then f.status.value else p.status,
       registryId := if f.registryId.Some? then f.registryId else p.registryId,
       routed := if f.routed.Some? then f.routed.value else p.routed,
       instance := if f.instance.Some? then f.instance else p.instance,
       writer := if f.writer.Some? then f.writer else p.writer)
  }

  function ConfiguredAll(peers: seq<Peer>, targets: set<int>, f: Fields): (r: seq<Peer>)
    ensures |r| == |peers|
  {
    seq(|peers|, i requires 0 <= i < |peers| => if i in targets then Configured(peers[i], f) else peers[i])
  }

  // ----- The flags recomputed from scratch -----

  ghost predicate AllCellsConnected(peers: seq<Peer>) {
    forall i :: 0 <= i < |peers| && peers[i].owner.Cell? && !peers[i].owner.excluded ==> peers[i].status.Online?
  }

  ghost predicate ConsistentConfig(peers: seq<Peer>, registryId: int) {
    forall i :: 0 <= i < |peers| && peers[i].owner.Cell? && !peers[i].owner.excluded ==>
      peers[i].registryId == Some(registryId)
  }

  ghost function RoutedSubnets(peers: seq<Peer>): (r: set<int>) {
    set i, lan | 0 <= i < |peers| && ActiveCell(peers[i]) && lan in peers[i].routed :: lan.subnet
  }

  ghost function Recomputed(peers: seq<Peer>, registryId: int, expected: set<int>): (r: Flags)
    requires |peers| > 0
  {
    Flags(AllCellsConnected(peers), ConsistentConfig(peers, registryId),
          RoutedSubnets(peers) == expected, peers[0].status.Online?)
  }

  // ----- The incremental update -----

  // Positions of the active cells with a property: the lists whose lengths are compared.
  function Cells(peers: seq<Peer>): (r: set<int>) {
    set i | 0 <= i < |peers| && ActiveCell(peers[i])
  }

  function OnlineCells(peers: seq<Peer>): (r: set<int>) {
    set i | 0 <= i < |peers| && ActiveCell(peers[i]) && peers[i].status.Online?
  }

  function ConsistentCells(peers: seq<Peer>, registryId: int): (r: set<int>) {
    set i | 0 <= i < |peers| && ActiveCell(peers[i]) && peers[i].registryId == Some(registryId)
  }

  lemma CountIsAll(peers: seq<Peer>, registryId: int)
    ensures |OnlineCells(peers)| == |Cells(peers)| <==> AllCellsConnected(peers)
    ensures |ConsistentCells(peers, registryId)| == |Cells(peers)| <==> ConsistentConfig(peers, registryId)
  {
    SubsetSize(OnlineCells(peers), Cells(peers));
    SubsetSize(ConsistentCells(peers, registryId), Cells(peers));
    assert OnlineCells(peers) == Cells(peers) ==>
             forall i :: 0 <= i < |peers| && ActiveCell(peers[i]) ==> i in OnlineCells(peers);
    assert ConsistentCells(peers, registryId) == Cells(peers) ==>
             forall i :: 0 <= i < |peers| && ActiveCell(peers[i]) ==> i in ConsistentCells(peers, registryId);
    assert AllCellsConnected(peers) ==> OnlineCells(peers) == Cells(peers);
    assert ConsistentConfig(peers, registryId) ==> ConsistentCells(peers, registryId) == Cells(peers);
  }

  // The same peers, each with the same owner; the registry's peer comes first.
  ghost predicate SameOwners(before: seq<Peer>, after: seq<Peer>) {
    |before| == |after| && forall i :: 0 <= i < |before| ==> before[i].owner == after[i].owner
  }

  // Writing a property records the value it replaces, unless nothing changes.
  function Recorded(p: Peer, previous: Previous, f: Fields): (r: Previous) {
    var q := Configured(p, f);
    Previous(if q.status != p.status then Some(p.status) else previous.status,
             if q.registryId != p.registryId then Some(p.registryId) else previous.registryId,
             if q.routed != p.routed then Some(p.routed) else previous.routed)
  }

  // Whatever changed from one state to the other was recorded with the value it had.
  ghost predicate Tracks(before: seq<Peer>, after: seq<Peer>, previous: seq<Previous>) {
    && |before| == |after| == |previous|
    && forall i :: 0 <= i < |after| ==> TracksOne(before[i], after[i], previous[i])
  }

  ghost predicate TracksOne(p: Peer, q: Peer, previous: Previous) {
    && (p.status != q.status ==> previous.status == Some(p.status))
    && (p.registryId != q.registryId ==> previous.registryId == Some(p.registryId))
    && (p.routed != q.routed ==> previous.routed == Some(p.routed))
  }

  // Cells with a recorded status that came online or went offline.
  function ChangedCells(previous: seq<Previous>, after: seq<Peer>): (r: set<int>)
    requires |previous| == |after|
  {
    set i | 0 <= i < |after| && after[i].owner.Cell? && previous[i].status.Some? && !after[i].status.Declared?
  }

  // Non-registry peers that attached or detached a network.
  function ChangedRouted(previous: seq<Previous>, after: seq<Peer>): (r: set<int>)
    requires |previous| == |after|
  {
    set i | 0 <= i < |after| && !after[i].owner.Uvn? &&
            previous[i].routed.Some? && previous[i].routed.value != after[i].routed
  }

  // Non-registry peers whose configuration became consistent or inconsistent.
  function ChangedConsistency(previous: seq<Previous>, after: seq<Peer>, registryId: int): (r: set<int>)
    requires |previous| == |after|
  {
    set i | 0 <= i < |after| && !after[i].owner.Uvn? && previous[i].registryId.Some? &&
            (previous[i].registryId.value == Some(registryId)) != (after[i].registryId == Some(registryId))
  }

  lemma NoCellChanged(before: seq<Peer>, after: seq<Peer>, previous: seq<Previous>)
    requires SameOwners(before, after) && Tracks(before, after, previous) && ChangedCells(previous, after) == {}
    requires forall i :: 0 <= i < |after| && after[i].status.Declared? ==> before[i].status.Declared?
    ensures AllCellsConnected(before) <==> AllCellsConnected(after)
  {
    forall i | 0 <= i < |after| && ActiveCell(after[i])
      ensures before[i].status == after[i].status
    {
      assert i !in ChangedCells(previous, after);
      assert TracksOne(before[i], after[i], previous[i]);
    }
  }

  lemma NoConsistencyChanged(before: seq<Peer>, after: seq<Peer>, previous: seq<Previous>, registryId: int)
    requires SameOwners(before, after) && Tracks(before, after, previous)
    requires ChangedConsistency(previous, after, registryId) == {}
    ensures ConsistentConfig(before, registryId) <==> ConsistentConfig(after, registryId)
  {
    forall i | 0 <= i < |after| && ActiveCell(after[i])
      ensures before[i].registryId == Some(registryId) <==> after[i].registryId == Some(registryId)
    {
      assert i !in ChangedConsistency(previous, after, registryId);
      assert TracksOne(before[i], after[i], previous[i]);
    }
  }

  lemma NoRoutedChanged(before: seq<Peer>, after: seq<Peer>, previous: seq<Previous>)
    requires SameOwners(before, after) && Tracks(before, after, previous) && ChangedRouted(previous, after) == {}
    ensures RoutedSubnets(before) == RoutedSubnets(after)
  {
    forall i | 0 <= i < |after| && ActiveCell(after[i])
      ensures before[i].routed == after[i].routed
    {
      assert i !in ChangedRouted(previous, after);
      assert TracksOne(before[i], after[i], previous[i]);
    }
  }

  class PeersList {
    const registryId: int
    const expected: set<int>
    const local: nat             // position of the agent's own peer
    var peers: seq<Peer>
    var previous: seq<Previous>  // what was recorded since the last save
    var flags: Flags

    ghost predicate Valid()
      reads this
    {
      && |peers| > 0 && peers[0].owner.Uvn?
      && (forall i :: 0 < i < |peers| ==> !peers[i].owner.Uvn?)
      && local < |peers| == |previous|
      && flags == Recomputed(peers, registryId, expected)
    }

    // All peers start as declared, with all flags down: right exactly when there is
    // an active cell and a network to discover.  Peers stored by an earlier session were
    // reset, which left some records.
    constructor (registryId: int, expected: set<int>, owners: seq<Owner>, local: nat, records: seq<Previous>)
      requires local < |owners| == |records|
      requires |owners| > 0 && owners[0].Uvn? && forall i :: 0 < i < |owners| ==> !owners[i].Uvn?
      ensures this.registryId == registryId && this.expected == expected && this.local == local
      ensures |peers| == |owners|
      ensures forall i :: 0 <= i < |owners| ==> peers[i] == Peer(owners[i], Declared, None, {}, None, None)
      ensures Valid() <==> (exists i :: 0 <= i < |owners| && owners[i].Cell? && !owners[i].excluded) && expected != {}
    {
      this.registryId, this.expected, this.local := registryId, expected, local;
      previous := records;
      peers := seq(|owners|, i requires 0 <= i < |owners| => Peer(owners[i], Declared, None, {}, None, None));
      flags := Flags(false, false, false, false);
    }

    method ComputeRouted() returns (r: set<int>)
      ensures r == RoutedSubnets(peers)
    {
      r := {};
      var i := 0;
      while i < |peers|
        invariant 0 <= i <= |peers|
        invariant r == RoutedSubnets(peers[..i])
      {
        RoutedStep(peers, i);
        if ActiveCell(peers[i]) {
          r := r + set lan | lan in peers[i].routed :: lan.subnet;
        }
        i := i + 1;
      }
      assert peers[..i] == peers;
    }

    ghost predicate Comparable(before: seq<Peer>)
      reads this
    {
      && |peers| > 0 && peers[0].owner.Uvn? && SameOwners(before, peers) && local < |peers|
      && Tracks(before, peers, previous)
      && (forall i :: 0 < i < |peers| ==> !peers[i].owner.Uvn?)
      && (forall i :: 0 <= i < |peers| && peers[i].status.Declared? ==> before[i].status.Declared?)
    }

    method CheckCells(ghost before: seq<Peer>) returns (event: bool)
      requires Comparable(before) && flags.allCells == AllCellsConnected(before)
      modifies this`flags
      ensures flags == old(flags).(allCells := AllCellsConnected(peers))
      ensures event <==> AllCellsConnected(before) != AllCellsConnected(peers) && peers[local].status.Online?
    {
      event := false;
      if ChangedCells(previous, peers) != {} {
        CountIsAll(peers, registryId);
        hide AllCellsConnected, Cells, OnlineCells;
        var allCells := |OnlineCells(peers)| == |Cells(peers)|;
        if allCells != flags.allCells {
          flags := flags.(allCells := allCells);
          event := peers[local].status.Online?;
        }
      } else {
        NoCellChanged(before, peers, previous);
      }
    }

    method CheckRegistry(ghost before: seq<Peer>)
      requires Comparable(before) && flags.registry == before[0].status.Online?
      modifies this`flags
      ensures flags == old(flags).(registry := peers[0].status.Online?)
    {
      assert TracksOne(before[0], peers[0], previous[0]);
      if previous[0].status.Some? {
        if peers[0].status.Offline? {
          flags := flags.(registry := false);
        } else if peers[0].status.Online? {
          flags := flags.(registry := true);
        }
      }
    }

    method CheckRouted(ghost before: seq<Peer>)
      requires Comparable(before) && flags.discovered == (RoutedSubnets(before) == expected)
      modifies this`flags
      ensures flags == old(flags).(discovered := RoutedSubnets(peers) == expected)
    {
      if ChangedRouted(previous, peers) != {} {
        hide RoutedSubnets;
        var routed := ComputeRouted();
        if (routed == expected) != flags.discovered {
          flags := flags.(discovered := routed == expected);
        }
      } else {
        NoRoutedChanged(before, peers, previous);
      }
    }

    method CheckConfig(ghost before: seq<Peer>)
      requires Comparable(before) && flags.consistent == ConsistentConfig(before, registryId)
      modifies this`flags
      ensures flags == old(flags).(consistent := ConsistentConfig(peers, registryId))
    {
      if ChangedConsistency(previous, peers, registryId) != {} {
        CountIsAll(peers, registryId);
        hide ConsistentConfig, Cells, ConsistentCells;
        var consistent := |ConsistentCells(peers, registryId)| == |Cells(peers)|;
        if consistent != flags.consistent {
          flags := flags.(consistent := consistent);
        }
      } else {
        NoConsistencyChanged(before, peers, previous, registryId);
      }
    }

    // Each flag is recomputed only if a change of the matching kind was recorded;
    // saving then clears the records.  Returns whether the all-cells-connected event
    // is notified: only while the agent's own peer is online.
    method ProcessUpdates(ghost before: seq<Peer>) returns (allCellsEvent: bool)
      requires Comparable(before) && flags == Recomputed(before, registryId, expected)
      modifies this`flags, this`previous
      ensures flags == Recomputed(peers, registryId, expected) && previous == seq(|peers|, i => UNCHANGED)
      ensures allCellsEvent <==> AllCellsConnected(before) != AllCellsConnected(peers) && peers[local].status.Online?
    {
      hide AllCellsConnected, ConsistentConfig, RoutedSubnets, Tracks;
      allCellsEvent := CheckCells(before);
      CheckRegistry(before);
      CheckRouted(before);
      CheckConfig(before);
      previous := seq(|peers|, i => UNCHANGED);
    }

    method Configure(i: int, fields: Fields)
      requires 0 <= i < |peers| == |previous|
      modifies this`peers, this`previous
      ensures peers == old(peers)[i := Configured(old(peers)[i], fields)]
      ensures previous == old(previous)[i := Recorded(old(peers)[i], old(previous)[i], fields)]
    {
      previous := previous[i := Recorded(peers[i], previous[i], fields)];
      peers := peers[i := Configured(peers[i], fields)];
    }

    // update_all: no caller sets a peer back to DECLARED.
    method UpdateAll(targets: set<int>, fields: Fields) returns (allCellsEvent: bool)
      requires Valid() && fields.status != Some(Declared)
      requires forall i :: i in targets ==> 0 <= i < |peers|
      modifies this
      ensures Valid() && peers == ConfiguredAll(old(peers), targets, fields)
      ensures allCellsEvent <==>
                AllCellsConnected(old(peers)) != AllCellsConnected(peers) && peers[local].status.Online?
    {
      hide AllCellsConnected, ConsistentConfig, RoutedSubnets, Configured, Recorded, TracksOne;
      ghost var before := peers;
      NothingTracked(peers, previous);
      var todo := targets;
      while todo != {}
        invariant todo <= targets && |peers| == |before| == |previous|
        invariant flags == old(flags)
        invariant forall i :: 0 <= i < |peers| && i in targets - todo ==> peers[i] == Configured(before[i], fields)
        invariant forall i :: 0 <= i < |peers| && i !in targets - todo ==> peers[i] == before[i]
        invariant Tracks(before, peers, previous)
        decreases todo
      {
        var i := PickRandom(todo);
        TracksWrite(before[i], previous[i], fields);
        Configure(i, fields);
        todo := todo - {i};
      }
      assert peers == ConfiguredAll(before, targets, fields);
      OwnersKept(before, targets, fields);
      allCellsEvent := ProcessUpdates(before);
    }
  }

  lemma NothingTracked(peers: seq<Peer>, previous: seq<Previous>)
    requires |peers| == |previous|
    ensures Tracks(peers, peers, previous)
  {
  }

  // A write records what it changes, whatever was recorded before.
  lemma TracksWrite(p: Peer, previous: Previous, fields: Fields)
    ensures TracksOne(p, Configured(p, fields), Recorded(p, previous, fields))
  {
  }

  lemma OwnersKept(peers: seq<Peer>, targets: set<int>, fields: Fields)
    requires fields.status != Some(Declared)
    ensures SameOwners(peers, ConfiguredAll(peers, targets, fields))
    ensures forall i :: 0 <= i < |peers| && ConfiguredAll(peers, targets, fields)[i].status.Declared? ==>
              peers[i].status.Declared?
  {
  }

  lemma RoutedStep(peers: seq<Peer>, i: int)
    requires 0 <= i < |peers|
    ensures RoutedSubnets(peers[..i + 1]) == RoutedSubnets(peers[..i]) +
              (if ActiveCell(peers[i]) then set lan | lan in peers[i].routed :: lan.subnet else {})
  {
    var a, b := peers[..i + 1], peers[..i];
    assert forall j :: 0 <= j < i ==> a[j] == b[j];
    forall x | x in RoutedSubnets(b)
      ensures x in RoutedSubnets(a)
    {
      var j, lan :| 0 <= j < |b| && ActiveCell(b[j]) && lan in b[j].routed && lan.subnet == x;
      assert ActiveCell(a[j]) && lan in a[j].routed;
    }
    if ActiveCell(peers[i]) {
      forall lan | lan in peers[i].routed
        ensures lan.subnet in RoutedSubnets(a)
      {
        assert ActiveCell(a[i]) && lan in a[i].routed;
      }
    }
  }
}
