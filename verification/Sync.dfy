// The registry agent while it pushes a rekeyed root VPN to the cells
// (uno/agent/agent.py: spin_until_consistent and the event handlers).  The
// registry only subscribes to the cells' topic, and its own peer is online for
// the whole run.
module Sync {
  import opened Prelude
  import opened Peers
  import opened Rekey
  import opened KeyMaterial

  // What the middleware can deliver.
  datatype Event =
    | CellInfo(foreign: bool, cell: int, registryId: int, routed: set<Lan>, instance: int, writer: int)
    | WritersOnline(writers: set<int>)
    | InstanceOffline(gone: int)

  const STATUS_ONLINE := Fields(Some(Online), None, None, None, None)
  const STATUS_OFFLINE := Fields(Some(Offline), None, None, None, None)

  // peers[cell]: the first active cell with this id.
  function CellAt(peers: seq<Peer>, cell: int): (r: Option<nat>)
    ensures r.Some? ==> r.value < |peers| && ActiveCell(peers[r.value]) && peers[r.value].owner.id == cell
    ensures r.Some? ==> forall i :: 0 <= i < r.value && ActiveCell(peers[i]) ==> peers[i].owner.id != cell
    ensures r.None? ==> forall i :: 0 <= i < |peers| && ActiveCell(peers[i]) ==> peers[i].owner.id != cell
  {
    if peers == [] then None
    else
      var last := |peers| - 1;
      var before := CellAt(peers[..last], cell);
      if before.Some? then before
      else if ActiveCell(peers[last]) && peers[last].owner.id == cell then Some(last)
      else None
  }

  // peers[instance]: the first peer with this instance handle.
  function InstanceAt(peers: seq<Peer>, instance: int): (r: Option<nat>)
    ensures r.Some? ==> r.value < |peers| && peers[r.value].instance == Some(instance)
    ensures r.Some? ==> forall i :: 0 <= i < r.value ==> peers[i].instance != Some(instance)
    ensures r.None? ==> forall i :: 0 <= i < |peers| ==> peers[i].instance != Some(instance)
  {
    if peers == [] then None
    else
      var last := |peers| - 1;
      var before := InstanceAt(peers[..last], instance);
      if before.Some? then before
      else if peers[last].instance == Some(instance) then Some(last)
      else None
  }

  // An offline peer whose writer is alive again.
  predicate ComesBack(p: Peer, writers: set<int>) {
    p.status.Offline? && p.writer.Some? && p.writer.value in writers
  }

  // What an event makes of the peers: an announcement of one of the UVN's own active
  // cells brings that cell online with what it announced, and nothing else is touched.
  function Heard(peers: seq<Peer>, e: Event): (r: seq<Peer>)
    ensures |r| == |peers|
  {
    match e
    case CellInfo(foreign, cell, registryId, routed, instance, writer) =>
      var i := CellAt(peers, cell);
      if foreign || i.None? then peers
      else peers[i.value := Peer(peers[i.value].owner, Online, Some(registryId), routed, Some(instance), Some(writer))]
    case WritersOnline(writers) =>
      seq(|peers|, i requires 0 <= i < |peers| =>
            if ComesBack(peers[i], writers) then peers[i].(status := Online) else peers[i])
    case InstanceOffline(gone) =>
      var i := InstanceAt(peers, gone);
      if i.None? then peers else peers[i.value := peers[i.value].(status := Offline)]
  }

  function PeersAfter(peers: seq<Peer>, events: seq<Event>): (r: seq<Peer>)
    ensures |r| == |peers|
    decreases |events|
  {
    if events == [] then peers
    else Heard(PeersAfter(peers, events[..|events| - 1]), events[|events| - 1])
  }

  function Concat(batches: seq<seq<Event>>): (r: seq<Event>)
    decreases |batches|
  {
    if batches == [] then [] else Concat(batches[..|batches| - 1]) + batches[|batches| - 1]
  }

  // The peers at the test after the first n batches.
  function AtTest(peers: seq<Peer>, batches: seq<seq<Event>>, n: nat): (r: seq<Peer>)
    requires n <= |batches|
  {
    PeersAfter(peers, Concat(batches[..n]))
  }

  // Some event brought all cells online at once.
  ghost predicate EverConnected(peers: seq<Peer>, events: seq<Event>) {
    exists j :: 1 <= j <= |events| && AllCellsConnected(PeersAfter(peers, events[..j]))
  }

  // The n-th test, or an earlier one, found all cells online.
  ghost predicate FoundConnected(peers: seq<Peer>, batches: seq<seq<Event>>, n: nat)
    requires n <= |batches|
  {
    exists k :: 1 <= k <= n && AllCellsConnected(AtTest(peers, batches, k))
  }

  // The n-th test finds the rekeyed cells, and only those, offline after all cells were
  // found online.
  ghost predicate Pushed(peers: seq<Peer>, batches: seq<seq<Event>>, rekeyed: set<int>, n: nat)
    requires n <= |batches|
  {
    FoundConnected(peers, batches, n) && OfflineCells(AtTest(peers, batches, n)) == rekeyed
  }

  // The moment at which the old keys may go: every rekeyed cell has gone offline
  // to restart with its new keys, every other cell is online.
  ghost predicate SafeToDrop(peers: seq<Peer>, rekeyed: set<int>, everOnline: set<int>) {
    forall i :: 0 <= i < |peers| && ActiveCell(peers[i]) ==>
      i in everOnline && peers[i].status == if i in rekeyed then Offline else Online
  }

  function OfflineCells(peers: seq<Peer>): (r: set<int>) {
    set i | 0 <= i < |peers| && ActiveCell(peers[i]) && peers[i].status.Offline?
  }

  // A cell that was once seen never counts as unseen again, and only seen cells
  // have middleware handles or go offline.
  ghost predicate History(peers: seq<Peer>, everOnline: set<int>) {
    forall i :: 0 <= i < |peers| && peers[i].owner.Cell? ==>
      && (i in everOnline <==> !peers[i].status.Declared?)
      && (peers[i].instance.Some? || peers[i].writer.Some? ==> i in everOnline)
  }

  ghost predicate OnlyCellsHaveHandles(peers: seq<Peer>) {
    forall i :: 0 <= i < |peers| && !peers[i].owner.Cell? ==> peers[i].instance.None? && peers[i].writer.None?
  }

  // The rekeyed cells are those whose key has a dropped generation.
  ghost predicate RekeyedAre(peers: seq<Peer>, rekeyed: set<int>, db: KeyDb) {
    forall i :: 0 <= i < |peers| && ActiveCell(peers[i]) ==>
      (i in rekeyed <==> PeerSlot(peers[i].owner.id) in db.dropped)
  }

  // The key tables, with the old generation gone if it was dropped.
  function AfterDrop(db: KeyDb, dropped: bool): (r: KeyDb) {
    if dropped then DropRekeyed(db) else db
  }

  class SyncAgent {
    const list: PeersList
    const registry: RootRegistry
    const rekeyed: set<int>   // positions of the rekeyed cells
    var stage: int
    var published: bool       // configurations were published while all cells were online
    var dropped: bool
    ghost var everOnline: set<int>

    ghost predicate KeysValid()
      reads registry, registry.keymat
    {
      registry.keymat.Loaded() && Consistent(registry.keymat.Db(), registry.keymat.peerIds)
    }

    ghost predicate Valid()
      reads this, list, registry, registry.keymat
    {
      && KeysValid()
      && (if dropped then registry.keymat.dropped == map[] else RekeyedAre(list.peers, rekeyed, registry.keymat.Db()))
      && list.Valid() && list.local == 0
      && list.peers[0].status.Online?
      && rekeyed != {} && (forall i :: i in rekeyed ==> 0 <= i < |list.peers| && ActiveCell(list.peers[i]))
      && History(list.peers, everOnline)
      && OnlyCellsHaveHandles(list.peers)
      && (list.flags.allCells ==> published)
      && (stage == 0 || stage == 1)
      && (stage == 1 ==> published && Cells(list.peers) <= everOnline)
      && (dropped ==> stage == 1)
    }

    constructor (list: PeersList, registry: RootRegistry, rekeyed: set<int>)
      requires registry.keymat.Loaded() && Consistent(registry.keymat.Db(), registry.keymat.peerIds)
      requires RekeyedAre(list.peers, rekeyed, registry.keymat.Db())
      requires list.Valid() && list.local == 0 && list.peers[0].status.Online?
      requires rekeyed != {} && forall i :: i in rekeyed ==> 0 <= i < |list.peers| && ActiveCell(list.peers[i])
      requires forall i :: 0 < i < |list.peers| && list.peers[i].owner.Cell? ==> list.peers[i].status.Declared?
      requires forall i :: 0 <= i < |list.peers| ==> list.peers[i].instance.None? && list.peers[i].writer.None?
      ensures Valid() && this.list == list && this.registry == registry && this.rekeyed == rekeyed
      ensures stage == 0 && !published && !dropped
    {
      this.list, this.registry, this.rekeyed := list, registry, rekeyed;
      stage, published, dropped := 0, false, false;
      everOnline := {};
      new;
      ghost var r := Witness(rekeyed);
      assert !list.peers[r].status.Online?;
      assert !list.flags.allCells;
    }

    // _write_agent_configs, reached only while all cells are online at once.
    method PublishConfigs()
      requires AllCellsConnected(list.peers)
      modifies this`published
      ensures published
    {
      published := true;
    }

    // registry.drop_rekeyed, reached only when it is safe.
    method DropOldKeys()
      requires published && SafeToDrop(list.peers, rekeyed, everOnline) && KeysValid()
      modifies this`dropped, registry, registry.keymat
      ensures dropped && KeysValid() && registry.rekeyedConfig == None
      ensures registry.keymat.Db() == DropRekeyed(old(registry.keymat.Db()))
    {
      registry.DropOldKeys();
      dropped := true;
    }

    // Applies one status update and reacts to the all-cells-connected event.
    method Update(targets: set<int>, fields: Fields)
      requires Valid() && fields.status.Some? && !fields.status.value.Declared?
      requires forall i :: i in targets ==> 0 < i < |list.peers| && list.peers[i].owner.Cell?
      requires fields.status.value.Offline? ==> targets <= everOnline
      modifies this`published, this`everOnline, list
      ensures Valid() && list.peers == ConfiguredAll(old(list.peers), targets, fields)
      ensures everOnline == old(everOnline) + targets
      ensures published <==> old(published) || AllCellsConnected(list.peers)
    {
      hide AllCellsConnected, PeersList.Valid;
      ghost var before := list.peers;
      FlagIs(list);
      var event := list.UpdateAll(targets, fields);
      FlagIs(list);
      everOnline := everOnline + targets;
      if event && list.flags.allCells {
        PublishConfigs();
      }
      HistoryKept(before, old(everOnline), targets, fields);
    }

    // on_data, on_remote_writers_status and on_instance_offline.
    method HandleEvent(e: Event)
      requires Valid()
      modifies this`published, this`everOnline, list
      ensures Valid() && list.peers == Heard(old(list.peers), e) && everOnline >= old(everOnline)
      ensures published <==> old(published) || AllCellsConnected(list.peers)
      ensures e.CellInfo? && (e.foreign || CellAt(old(list.peers), e.cell).None?) ==> list.peers == old(list.peers)
      ensures e.CellInfo? && !e.foreign && CellAt(old(list.peers), e.cell).Some? ==>
                var i := CellAt(old(list.peers), e.cell).value;
                && list.peers[i].owner == old(list.peers)[i].owner && list.peers[i].status.Online?
                && list.peers[i].registryId == Some(e.registryId) && list.peers[i].routed == e.routed
                && list.peers[i].instance == Some(e.instance) && list.peers[i].writer == Some(e.writer)
                && forall j :: 0 <= j < |list.peers| && j != i ==> list.peers[j] == old(list.peers)[j]
      ensures e.WritersOnline? ==> forall i :: 0 <= i < |list.peers| ==>
                if ComesBack(old(list.peers)[i], e.writers) then
                  list.peers[i].status.Online? && list.peers[i].(status := Offline) == old(list.peers)[i]
                else list.peers[i] == old(list.peers)[i]
      ensures e.InstanceOffline? ==>
                var i := InstanceAt(old(list.peers), e.gone);
                if i.None? then list.peers == old(list.peers)
                else
                  && i.value < |list.peers|
                  && list.peers == old(list.peers)[i.value := old(list.peers)[i.value].(status := Offline)]
      ensures forall i :: 0 <= i < |list.peers| && list.peers[i].owner.Cell? ==>
                && (!old(list.peers)[i].status.Declared? ==> !list.peers[i].status.Declared?)
                && (list.peers[i].status.Offline? ==> i in old(everOnline))
    {
      hide AllCellsConnected, PeersList.Valid;
      FlagIs(list);
      match e {
        case CellInfo(foreign, cell, registryId, routed, instance, writer) =>
          if foreign {
            return;
          }
          var i := CellAt(list.peers, cell);
          if i.None? {
            return;
          }
          Update({i.value}, Fields(Some(Online), Some(registryId), Some(routed), Some(instance), Some(writer)));
        case WritersOnline(writers) =>
          var matched := set i | 0 <= i < |list.peers| && ComesBack(list.peers[i], writers);
          WritersBack(list.peers, writers, matched);
          if matched != {} {
            Update(matched, STATUS_ONLINE);
          }
        case InstanceOffline(instance) =>
          var i := InstanceAt(list.peers, instance);
          if i.None? {
            return;
          }
          Update({i.value}, STATUS_OFFLINE);
      }
    }

    // _until_rekeyed_config_pushed
    method UntilPushed()
      requires Valid() && !dropped
      modifies this`stage, this`dropped, registry, registry.keymat
      ensures Valid()
      ensures registry.keymat.Db() == AfterDrop(old(registry.keymat.Db()), dropped)
      ensures stage == if old(stage) == 1 || AllCellsConnected(list.peers) then 1 else 0
      ensures dropped <==> stage == 1 && OfflineCells(list.peers) == rekeyed
      ensures dropped ==> published && SafeToDrop(list.peers, rekeyed, everOnline)
    {
      FlagIs(list);
      if stage == 0 && list.flags.allCells {
        AllSeen(list.peers, everOnline);
        stage := 1;
      }
      if stage == 1 {
        var offline := OfflineCells(list.peers);
        if offline == rekeyed {
          ReadyToDrop(list.peers, rekeyed, everOnline, offline);
          DropOldKeys();
        }
      }
    }

    // A whole run: any batches of events between the tests of the exit condition.  The
    // old keys are dropped if and only if some test found all cells online, and then
    // one found exactly the rekeyed cells offline; the first such test ends the run.
    method Spin(batches: seq<seq<Event>>) returns (n: nat)
      requires Valid() && !dropped && stage == 0 && !published
      modifies this, list, registry, registry.keymat
      ensures Valid() && n <= |batches| && list.peers == AtTest(old(list.peers), batches, n)
      ensures dropped <==> exists m :: 0 <= m <= |batches| && Pushed(old(list.peers), batches, rekeyed, m)
      ensures dropped ==> Pushed(old(list.peers), batches, rekeyed, n)
      ensures !dropped ==> n == |batches|
      ensures published <==> EverConnected(old(list.peers), Concat(batches[..n]))
      ensures dropped ==> published && SafeToDrop(list.peers, rekeyed, everOnline)
      ensures registry.keymat.Db() == AfterDrop(old(registry.keymat.Db()), dropped)
    {
      hide SyncAgent.Valid, SafeToDrop, AllCellsConnected, Concat, PeersAfter, Heard, FoundConnected,
           EverConnected, Pushed;
      ghost var start := list.peers;
      n := 0;
      BeforeTests(start, batches, rekeyed);
      while n < |batches| && !dropped
        invariant 0 <= n <= |batches| && Valid()
        invariant list.peers == AtTest(start, batches, n)
        invariant stage == if FoundConnected(start, batches, n) then 1 else 0
        invariant published <==> EverConnected(start, Concat(batches[..n]))
        invariant dropped ==> Pushed(start, batches, rekeyed, n)
        invariant !dropped ==> forall m :: 0 <= m <= n ==> !Pushed(start, batches, rekeyed, m)
        invariant dropped ==> published && SafeToDrop(list.peers, rekeyed, everOnline)
        invariant registry.keymat.Db() == AfterDrop(old(registry.keymat.Db()), dropped)
      {
        ghost var done := Concat(batches[..n]);
        var k := 0;
        assert batches[n][..0] == [] && done + [] == done;
        while k < |batches[n]|
          invariant 0 <= k <= |batches[n]| && Valid() && !dropped
          invariant stage == if FoundConnected(start, batches, n) then 1 else 0
          invariant list.peers == PeersAfter(start, done + batches[n][..k])
          invariant published <==> EverConnected(start, done + batches[n][..k])
          invariant registry.keymat.Db() == old(registry.keymat.Db())
        {
          OneMoreEvent(start, done, batches[n], k);
          HandleEvent(batches[n][k]);
          k := k + 1;
        }
        OneMoreBatch(start, batches, n);
        TestStep(start, batches, rekeyed, n + 1);
        UntilPushed();
        n := n + 1;
      }
    }
  }

  lemma BeforeTests(peers: seq<Peer>, batches: seq<seq<Event>>, rekeyed: set<int>)
    ensures AtTest(peers, batches, 0) == peers
    ensures !FoundConnected(peers, batches, 0) && !Pushed(peers, batches, rekeyed, 0)
    ensures !EverConnected(peers, Concat(batches[..0]))
  {
  }

  lemma OneMoreEvent(peers: seq<Peer>, done: seq<Event>, batch: seq<Event>, k: nat)
    requires k < |batch|
    ensures var more := done + batch[..k + 1];
            && PeersAfter(peers, more) == Heard(PeersAfter(peers, done + batch[..k]), batch[k])
            && (EverConnected(peers, more) <==>
                EverConnected(peers, done + batch[..k]) || AllCellsConnected(PeersAfter(peers, more)))
  {
    hide Heard, AllCellsConnected;
    var less, more := done + batch[..k], done + batch[..k + 1];
    assert more[..|more| - 1] == less && more[|more| - 1] == batch[k];
    assert more[..|more|] == more;
    assert forall j :: 1 <= j <= |less| ==> more[..j] == less[..j];
    if EverConnected(peers, less) {
      var j :| 1 <= j <= |less| && AllCellsConnected(PeersAfter(peers, less[..j]));
      assert AllCellsConnected(PeersAfter(peers, more[..j]));
    }
  }

  lemma OneMoreBatch(peers: seq<Peer>, batches: seq<seq<Event>>, n: nat)
    requires n < |batches|
    ensures Concat(batches[..n + 1]) == Concat(batches[..n]) + batches[n][..|batches[n]|]
  {
    assert batches[..n + 1][..n] == batches[..n];
    assert batches[n][..|batches[n]|] == batches[n];
  }

  lemma TestStep(peers: seq<Peer>, batches: seq<seq<Event>>, rekeyed: set<int>, n: nat)
    requires 1 <= n <= |batches|
    ensures FoundConnected(peers, batches, n) <==>
              FoundConnected(peers, batches, n - 1) || AllCellsConnected(AtTest(peers, batches, n))
    ensures Pushed(peers, batches, rekeyed, n) <==>
              FoundConnected(peers, batches, n) && OfflineCells(AtTest(peers, batches, n)) == rekeyed
  {
    hide AllCellsConnected, AtTest;
  }

  // Bringing the matched peers online is what one expects of live writers.
  lemma WritersBack(peers: seq<Peer>, writers: set<int>, matched: set<int>)
    requires matched == set i | 0 <= i < |peers| && ComesBack(peers[i], writers)
    ensures Heard(peers, WritersOnline(writers)) == ConfiguredAll(peers, matched, STATUS_ONLINE)
    ensures matched == {} ==> Heard(peers, WritersOnline(writers)) == peers
  {
    var heard := Heard(peers, WritersOnline(writers));
    forall i | 0 <= i < |peers|
      ensures heard[i] == ConfiguredAll(peers, matched, STATUS_ONLINE)[i]
      ensures matched == {} ==> heard[i] == peers[i]
    {
      assert i in matched <==> ComesBack(peers[i], writers);
    }
  }

  lemma FlagIs(list: PeersList)
    requires list.Valid()
    ensures |list.peers| > 0 && list.peers[0].owner.Uvn?
    ensures forall i :: 0 < i < |list.peers| ==> !list.peers[i].owner.Uvn?
    ensures list.flags.allCells == AllCellsConnected(list.peers)
  {
  }

  lemma HistoryKept(peers: seq<Peer>, everOnline: set<int>, targets: set<int>, fields: Fields)
    requires History(peers, everOnline) && OnlyCellsHaveHandles(peers)
    requires fields.status.Some? && !fields.status.value.Declared?
    requires forall i :: i in targets ==> 0 < i < |peers| && peers[i].owner.Cell?
    ensures History(ConfiguredAll(peers, targets, fields), everOnline + targets)
    ensures OnlyCellsHaveHandles(ConfiguredAll(peers, targets, fields))
    ensures Cells(ConfiguredAll(peers, targets, fields)) == Cells(peers)
    ensures forall i :: 0 <= i < |peers| ==> ConfiguredAll(peers, targets, fields)[i].owner == peers[i].owner
  {
  }

  lemma AllSeen(peers: seq<Peer>, everOnline: set<int>)
    requires AllCellsConnected(peers) && History(peers, everOnline)
    ensures Cells(peers) <= everOnline
  {
  }

  lemma ReadyToDrop(peers: seq<Peer>, rekeyed: set<int>, everOnline: set<int>, offline: set<int>)
    requires History(peers, everOnline) && Cells(peers) <= everOnline
    requires offline == OfflineCells(peers) && offline == rekeyed
    ensures SafeToDrop(peers, rekeyed, everOnline)
  {
    forall i | 0 <= i < |peers| && ActiveCell(peers[i])
      ensures i in everOnline && peers[i].status == if i in rekeyed then Offline else Online
    {
      assert i in Cells(peers);
    }
  }
}
