// CentralizedVpnKeyMaterial and the registry commands that rekey the root VPN,
// step by step on the key tables (uno/registry/vpn_keymat.py, uno/registry/registry.py).
module KeyMaterial {
  import opened Prelude
  import opened VpnConfig
  import opened Rekey

  // delete_map.get(id, False)
  predicate Flag(flags: map<int, bool>, id: int) {
    id in flags && flags[id]
  }

  // Whether a key is deleted outright: by its own entry, for preshared keys also
  // by the entry of the root end of the pair.
  predicate Deletes(flags: map<int, bool>, s: Slot) {
    match s
    case RootSlot => Flag(flags, 0)
    case PeerSlot(id) => Flag(flags, id)
    case PskSlot(id) => Flag(flags, 0) || Flag(flags, id)
  }

  // The keys held in memory, and those released since the last save.
  datatype Memory = Memory(keys: map<Slot, Key>, toDrop: map<Slot, Key>, toDelete: set<Slot>)

  ghost function Dropping(keys: map<Slot, Key>, gone: set<Slot>, flags: map<int, bool>): (r: map<Slot, Key>)
    requires gone <= keys.Keys
  {
    map s | s in gone && !Deletes(flags, s) :: keys[s]
  }

  ghost function Deleting(gone: set<Slot>, flags: map<int, bool>): (r: set<Slot>) {
    set s | s in gone && Deletes(flags, s)
  }

  // Releasing a set of keys: each is marked for dropping or for deletion.
  ghost function Release(m: Memory, gone: set<Slot>, flags: map<int, bool>): (r: Memory)
    requires gone <= m.keys.Keys
  {
    Memory(m.keys - gone, m.toDrop + Dropping(m.keys, gone, flags), m.toDelete + Deleting(gone, flags))
  }

  lemma DroppingOneMore(m: Memory, gone: set<Slot>, flags: map<int, bool>, s: Slot)
    requires gone <= m.keys.Keys && s in m.keys && s !in gone
    ensures m.toDrop + Dropping(m.keys, gone + {s}, flags) ==
            m.toDrop + Dropping(m.keys, gone, flags) + Dropping(m.keys - gone, {s}, flags)
  {
    hide Deletes;
    var all := Dropping(m.keys, gone + {s}, flags);
    var one := Dropping(m.keys - gone, {s}, flags);
    assert all == Dropping(m.keys, gone, flags) + one;
  }

  lemma ReleaseOneMore(m: Memory, gone: set<Slot>, flags: map<int, bool>, s: Slot)
    requires gone <= m.keys.Keys && s in m.keys && s !in gone
    ensures Release(m, gone + {s}, flags) == Release(Release(m, gone, flags), {s}, flags)
  {
    hide Deletes, Dropping;
    DroppingOneMore(m, gone, flags, s);
    assert m.keys - (gone + {s}) == m.keys - gone - {s};
    assert Deleting(gone + {s}, flags) == Deleting(gone, flags) + Deleting({s}, flags);
  }

  lemma ReleaseNothing(m: Memory, flags: map<int, bool>)
    ensures Release(m, {}, flags) == m
  {
    assert m.keys - {} == m.keys;
    assert Dropping(m.keys, {}, flags) == map[];
  }

  class RootKeyMaterial {
    const peerIds: set<int>
    const publicOf: int -> int
    // Rows of the key tables.
    var live: map<Slot, Key>
    var dropped: map<Slot, Key>
    // Every key generated so far.
    var issued: set<Key>
    // root_key, peer_keys and preshared_keys; the dropped and deleted sets.
    var keys: map<Slot, Key>
    var toDrop: map<Slot, Key>
    var toDelete: set<Slot>

    constructor (peerIds: set<int>, publicOf: int -> int, db: KeyDb)
      ensures this.peerIds == peerIds && this.publicOf == publicOf && Db() == db && Loaded()
    {
      this.peerIds, this.publicOf := peerIds, publicOf;
      live, dropped, issued := db.live, db.dropped, db.issued;
      keys, toDrop, toDelete := db.live, map[], {};
    }

    ghost function Db(): (db: KeyDb)
      reads this
    {
      KeyDb(live, dropped, issued)
    }

    ghost function InMemory(): (m: Memory)
      reads this
    {
      Memory(keys, toDrop, toDelete)
    }

    // Nothing is pending: the object holds what the live rows say.
    ghost predicate Loaded()
      reads this
    {
      keys == live && toDrop == map[] && toDelete == {}
    }

    method DropKey(s: Slot, flags: map<int, bool>)
      requires s in keys
      modifies this`keys, this`toDrop, this`toDelete
      ensures InMemory() == Release(old(InMemory()), {s}, flags)
    {
      ghost var before := InMemory();
      if Deletes(flags, s) {
        toDelete := toDelete + {s};
      } else {
        toDrop := toDrop[s := keys[s]];
      }
      keys := keys - {s};
      assert toDrop == Release(before, {s}, flags).toDrop;
    }

    // purge_gone_peers: releases the keys of all peers that are not kept.
    method PurgeGonePeers(keep: set<int>, flags: map<int, bool>)
      modifies this`keys, this`toDrop, this`toDelete
      ensures InMemory() == Release(old(InMemory()), GoneSlots(old(keys), keep), flags)
    {
      hide Release, Deletes;
      ReleaseNothing(InMemory(), flags);
      var todo := set s | s in keys && s.PeerSlot? && s.id !in keep;
      ghost var gone: set<Slot> := {};
      while todo != {}
        invariant todo <= old(keys).Keys
        invariant forall s :: s in todo ==> s.PeerSlot? && s.id !in keep
        invariant gone <= old(keys).Keys
        invariant InMemory() == Release(old(InMemory()), gone, flags)
        invariant keys.Keys == old(keys).Keys - gone
        invariant forall s :: s in gone <==>
                    && s in old(keys) && s != RootSlot && PeerSlot(s.id) in old(keys)
                    && s.id !in keep && PeerSlot(s.id) !in todo
        decreases todo
      {
        var s := PickRandom(todo);
        ReleaseOneMore(old(InMemory()), gone, flags, s);
        DropKey(s, flags);
        gone := gone + {s};
        ReleasedKeys(old(InMemory()), gone, flags);
        if PskSlot(s.id) in keys {
          ReleaseOneMore(old(InMemory()), gone, flags, PskSlot(s.id));
          DropKey(PskSlot(s.id), flags);
          gone := gone + {PskSlot(s.id)};
          ReleasedKeys(old(InMemory()), gone, flags);
        }
        todo := todo - {s};
      }
      assert gone == GoneSlots(old(keys), keep);
    }

    // drop_keys: releases everything.
    method DropKeys(flags: map<int, bool>)
      modifies this`keys, this`toDrop, this`toDelete
      ensures InMemory() == Release(old(InMemory()), old(keys).Keys, flags)
    {
      hide Release, Deletes;
      ReleaseNothing(InMemory(), flags);
      var todo := keys.Keys;
      assert keys.Keys - todo == {};
      while todo != {}
        invariant todo <= old(keys).Keys && keys.Keys == todo
        invariant InMemory() == Release(old(InMemory()), old(keys).Keys - todo, flags)
        decreases todo
      {
        var s := PickRandom(todo);
        ReleaseOneMore(old(InMemory()), old(keys).Keys - todo, flags, s);
        ReleasedKeys(InMemory(), {s}, flags);
        DropKey(s, flags);
        assert old(keys).Keys - todo + {s} == old(keys).Keys - (todo - {s});
        todo := todo - {s};
      }
      assert old(keys).Keys - todo == old(keys).Keys;
    }

    // save: dropped keys keep their row under dropped = True, deleted keys lose it.
    method Save() returns (r: Result<()>)
      modifies this`live, this`dropped, this`toDrop, this`toDelete
      ensures r.Ok? <==> ToDropFits(old(toDrop), old(dropped))
      ensures r.Ok? ==> dropped == old(dropped) + old(toDrop) && live == old(live) - old(toDrop).Keys - old(toDelete)
      ensures r.Ok? ==> toDrop == map[] && toDelete == {}
      ensures r.Err? ==> r.error == IntegrityError && Db() == old(Db())
    {
      if exists s :: s in toDrop && s in dropped {
        return Err(IntegrityError);
      }
      dropped := dropped + toDrop;
      live := live - toDrop.Keys - toDelete;
      toDrop, toDelete := map[], {};
      return Ok(());
    }

    // A key of the slot's kind that was never issued before.
    method GenerateKey(s: Slot) returns (k: Key)
      modifies this`issued
      ensures OfKind(publicOf, s, k) && k !in old(issued) && issued == old(issued) + {k}
    {
      if s.PskSlot? {
        var used := set k | k in issued && k.Preshared? :: k.psk;
        var psk := DrawUnused(used);
        k := Preshared(psk);
      } else {
        var used := set k | k in issued && k.Asymmetric? && k.pair.private.Some? :: k.pair.private.value;
        var private := DrawUnused(used);
        k := Asymmetric(KeyPair(Some(private), publicOf(private)));
      }
      issued := issued + {k};
    }

    method GenerateMissing(s: Slot, ghost rows: map<Slot, Key>, ghost before: set<Key>)
      requires rows.Keys <= keys.Keys && Generated(publicOf, keys, keys.Keys - rows.Keys, before, issued)
      modifies this`keys, this`issued
      ensures keys.Keys == old(keys).Keys + {s}
      ensures forall t :: t in old(keys) ==> keys[t] == old(keys)[t]
      ensures Generated(publicOf, keys, keys.Keys - rows.Keys, before, issued)
    {
      if s !in keys {
        ghost var had, used := keys, issued;
        var k := GenerateKey(s);
        keys := keys[s := k];
        OneMoreGenerated(publicOf, had, had.Keys - rows.Keys, before, used, s, k);
        assert keys.Keys - rows.Keys == had.Keys - rows.Keys + {s};
      }
    }

    // assert_keys: generates what is missing and stores it at once.
    method AssertKeys()
      requires keys == live
      modifies this`keys, this`live, this`issued
      ensures keys == live
      ensures live.Keys == old(live).Keys + SlotsOf(peerIds)
      ensures forall s :: s in old(live) ==> live[s] == old(live)[s]
      ensures Generated(publicOf, live, live.Keys - old(live).Keys, old(issued), issued)
    {
      SlotsOfNone();
      hide SlotsOf, Generated;
      NothingGenerated(publicOf, keys, issued);
      assert keys.Keys - live.Keys == {};
      GenerateMissing(RootSlot, live, issued);
      var todo := peerIds;
      assert peerIds - todo == {};
      while todo != {}
        invariant todo <= peerIds
        invariant keys.Keys == old(live).Keys + SlotsOf(peerIds - todo)
        invariant forall s :: s in old(live) ==> keys[s] == old(live)[s]
        invariant Generated(publicOf, keys, keys.Keys - old(live).Keys, old(issued), issued)
        decreases todo
      {
        var c := PickRandom(todo);
        GenerateMissing(PeerSlot(c), old(live), old(issued));
        GenerateMissing(PskSlot(c), old(live), old(issued));
        SlotsGrow(peerIds - todo, c);
        assert peerIds - todo + {c} == peerIds - (todo - {c});
        todo := todo - {c};
      }
      assert peerIds - todo == peerIds;
      live := keys;
    }

    // rekeyed_cells: cells whose key the prefer-dropped view finds dropped.
    method RekeyedCells() returns (r: Result<set<int>>)
      ensures r.Ok? <==> forall s :: s in dropped && s.PeerSlot? ==> s.id in peerIds
      ensures r.Ok? ==> forall c :: c in r.value <==> PeerSlot(c) in dropped
    {
      var ids := set s | s in dropped && s.PeerSlot? :: s.id;
      assert forall c :: c in ids <==> PeerSlot(c) in dropped;
      if !(ids <= peerIds) {
        assert exists s :: s in dropped && s.PeerSlot? && s.id !in peerIds;
        return Err(UnknownCell);
      }
      return Ok(ids);
    }

    // clean_dropped_keys
    method CleanDroppedKeys()
      modifies this`dropped
      ensures Db() == DropRekeyed(old(Db()))
    {
      dropped := map[];
    }
  }

  lemma NothingGenerated(publicOf: int -> int, keys: map<Slot, Key>, issued: set<Key>)
    ensures Generated(publicOf, keys, {}, issued, issued)
  {
  }

  lemma OneMoreGenerated(publicOf: int -> int, keys: map<Slot, Key>, slots: set<Slot>, before: set<Key>,
                         after: set<Key>, s: Slot, k: Key)
    requires Generated(publicOf, keys, slots, before, after) && s !in keys && OfKind(publicOf, s, k) && k !in after
    ensures Generated(publicOf, keys[s := k], slots + {s}, before, after + {k})
  {
    hide OfKind;
    var more := keys[s := k];
    forall x | x in after + {k}
      ensures x in before || exists t :: t in slots + {s} && more[t] == x
    {
      if x == k {
        assert more[s] == x;
      } else if x !in before {
        var t :| t in slots && keys[t] == x;
        assert more[t] == x;
      }
    }
  }

  ghost predicate ToDropFits(toDrop: map<Slot, Key>, dropped: map<Slot, Key>) {
    forall s :: s in toDrop ==> s !in dropped
  }

  ghost function GoneSlots(keys: map<Slot, Key>, keep: set<int>): (r: set<Slot>) {
    set s | s in keys && s != RootSlot && PeerSlot(s.id) in keys && s.id !in keep
  }

  lemma ReleasedKeys(m: Memory, gone: set<Slot>, flags: map<int, bool>)
    requires gone <= m.keys.Keys
    ensures Release(m, gone, flags).keys.Keys == m.keys.Keys - gone
  {
  }

  lemma SlotsOfNone()
    ensures SlotsOf({}) == {RootSlot}
  {
  }

  lemma SlotsGrow(cells: set<int>, c: int)
    ensures SlotsOf(cells + {c}) == SlotsOf(cells) + {PeerSlot(c), PskSlot(c)}
  {
  }

  // ----- Registry commands -----

  // drop_or_delete: keys of cells that already have a dropped generation are deleted.
  ghost predicate DropOrDelete(flags: map<int, bool>, db: KeyDb, cells: set<int>) {
    flags.Keys == cells && forall c :: c in cells ==> (flags[c] <==> PeerSlot(c) in db.dropped)
  }

  ghost function Gone(cmd: Command, db: KeyDb, cells: set<int>): (r: set<Slot>) {
    match cmd
    case RekeyCell(c) => GoneSlots(db.live, cells - {c})
    case RekeyUvn => db.live.Keys
  }

  lemma GoneIsTarget(cmd: Command, db: KeyDb, cells: set<int>)
    requires Consistent(db, cells)
    ensures Gone(cmd, db, cells) <= db.live.Keys
    ensures Gone(cmd, db, cells) == if cmd.RekeyCell? && cmd.cell !in cells then {} else Target(cmd, cells)
  {
  }

  lemma DeletesIsAlreadyDropped(flags: map<int, bool>, db: KeyDb, cells: set<int>, s: Slot)
    requires Consistent(db, cells) && DropOrDelete(flags, db, cells) && s in SlotsOf(cells)
    ensures Deletes(flags, s) <==> AlreadyDropped(db, s)
  {
  }

  // The save succeeds exactly unless a second dropped root key would be needed.
  lemma SaveFits(cmd: Command, flags: map<int, bool>, db: KeyDb, cells: set<int>)
    requires Consistent(db, cells) && DropOrDelete(flags, db, cells)
    ensures Gone(cmd, db, cells) <= db.live.Keys
    ensures ToDropFits(Dropping(db.live, Gone(cmd, db, cells), flags), db.dropped) <==>
              !(cmd.RekeyUvn? && RootSlot in db.dropped)
  {
    GoneIsTarget(cmd, db, cells);
    hide DropOrDelete;
    var gone := Gone(cmd, db, cells);
    hide Gone;
    var drops := Dropping(db.live, gone, flags);
    forall s | s in gone
      ensures s in drops <==> !AlreadyDropped(db, s)
    {
      DeletesIsAlreadyDropped(flags, db, cells, s);
    }
    if cmd.RekeyUvn? {
      assert RootSlot in drops;
    }
    hide Dropping;
    forall s | s in drops && s != RootSlot
      ensures s !in db.dropped
    {
      assert s in gone;
    }
  }

  // The keys that become dropped are the targeted ones without a dropped generation.
  lemma DroppedOf(flags: map<int, bool>, db: KeyDb, cells: set<int>, target: set<Slot>)
    requires Consistent(db, cells) && DropOrDelete(flags, db, cells)
    requires target <= db.live.Keys && target <= SlotsOf(cells)
    ensures Dropping(db.live, target, flags).Keys == set s | s in target && !AlreadyDropped(db, s)
    ensures forall s :: s in target && !AlreadyDropped(db, s) ==> Dropping(db.live, target, flags)[s] == db.live[s]
  {
    hide DropOrDelete, Consistent, SlotsOf, AlreadyDropped, Deletes;
    forall s | s in target
      ensures Deletes(flags, s) <==> AlreadyDropped(db, s)
    {
      DeletesIsAlreadyDropped(flags, db, cells, s);
    }
  }

  lemma TargetFits(cmd: Command, cells: set<int>)
    requires cmd.RekeyCell? ==> cmd.cell in cells
    ensures Target(cmd, cells) <= SlotsOf(cells)
  {
  }

  // Saving and regenerating is exactly a rekey of the command's targets.
  lemma SavedIsRekeyed(publicOf: int -> int, cmd: Command, flags: map<int, bool>, before: KeyDb, after: KeyDb,
                    cells: set<int>)
    requires Consistent(before, cells) && DropOrDelete(flags, before, cells) && Accepted(before, cells, cmd)
    requires Gone(cmd, before, cells) <= before.live.Keys
    requires after.dropped == before.dropped + Dropping(before.live, Gone(cmd, before, cells), flags)
    requires after.live.Keys == before.live.Keys
    requires forall s :: s in before.live && s !in Gone(cmd, before, cells) ==> after.live[s] == before.live[s]
    requires Generated(publicOf, after.live, Gone(cmd, before, cells), before.issued, after.issued)
    ensures Rekeyed(publicOf, before, after, Target(cmd, cells))
  {
    hide Gone, DropOrDelete, Target, SlotsOf, Consistent, Dropping, AlreadyDropped, ToDropFits, Generated;
    SaveFits(cmd, flags, before, cells);
    GoneIsTarget(cmd, before, cells);
    var target := Target(cmd, cells);
    TargetFits(cmd, cells);
    DroppedOf(flags, before, cells, target);
    var drops := Dropping(before.live, target, flags);
    assert forall s :: s in drops ==> s !in before.dropped by { FitsDef(drops, before.dropped); }
  }

  lemma FitsDef(toDrop: map<Slot, Key>, dropped: map<Slot, Key>)
    ensures ToDropFits(toDrop, dropped) <==> forall s :: s in toDrop ==> s !in dropped
  {
  }

  class RootRegistry {
    const keymat: RootKeyMaterial
    var configId: int
    var rekeyedConfig: Option<int>

    constructor (keymat: RootKeyMaterial, configId: int)
      ensures this.keymat == keymat && this.configId == configId && rekeyedConfig == None
    {
      this.keymat, this.configId, rekeyedConfig := keymat, configId, None;
    }

    // What the key tables always satisfy between two commands.
    ghost predicate Sound()
      reads this, keymat
    {
      keymat.Loaded() && Consistent(keymat.Db(), keymat.peerIds) && Proper(keymat.publicOf, keymat.Db())
    }

    // rekey_cell or rekey_uvn with root_vpn, followed by generate_artifacts.
    method Rekey(cmd: Command) returns (r: Result<()>)
      requires Sound()
      modifies this, keymat
      ensures Sound()
      ensures CommandStep(keymat.publicOf, old(keymat.Db()), keymat.Db(), keymat.peerIds, cmd)
      ensures PreferDropped(keymat.Db()) == old(PreferDropped(keymat.Db()))
      ensures r.Err? <==> cmd.RekeyUvn? && RootSlot in old(keymat.dropped)
      ensures r.Ok? ==> forall s :: s in old(keymat.live) ==>
                (s in keymat.live && (keymat.live[s] != old(keymat.live)[s] <==> Replaces(cmd, s)))
      ensures r.Ok? ==> rekeyedConfig == if old(rekeyedConfig).None? then Some(old(configId)) else old(rekeyedConfig)
      ensures r.Err? ==> rekeyedConfig == old(rekeyedConfig) && configId == old(configId)
    {
      hide Rekeyed, PreferDropped, Release, Dropping, Deleting, Gone, GoneSlots, DropOrDelete, Consistent, Proper,
           Generated, SlotsOf, CommandStep, Target, ToDropFits, Replaces;
      ghost var before := keymat.Db();
      ghost var cells := keymat.peerIds;
      // Transaction begin.
      var live := keymat.live;
      var already := keymat.RekeyedCells();
      assert already.Ok? by { AllKnown(before, cells); }
      var flags := map c | c in keymat.peerIds :: c in already.value;
      assert DropOrDelete(flags, before, cells) by { FlagsAre(flags, before, cells, already.value); }
      GoneIsTarget(cmd, before, cells);
      SaveFits(cmd, flags, before, cells);
      ghost var gone := Gone(cmd, before, cells);
      match cmd {
        case RekeyCell(c) =>
          keymat.PurgeGonePeers(keymat.peerIds - {c}, flags);
        case RekeyUvn =>
          keymat.DropKeys(flags);
      }
      assert keymat.InMemory() == Release(Memory(before.live, map[], {}), gone, flags) by {
        GoneDef(cmd, before, cells);
      }
      Released(before.live, gone, flags);
      var saved := keymat.Save();
      if saved.Err? {
        // Rollback.
        RefusedStep(keymat.publicOf, cmd, before, cells);
        keymat.keys, keymat.toDrop, keymat.toDelete := live, map[], {};
        return Err(saved.error);
      }
      AfterSave(before.live, gone, flags);
      keymat.AssertKeys();
      var newId: int := *;
      if rekeyedConfig.None? {
        rekeyedConfig := Some(configId);
      }
      configId := newId;
      FinishRekey(keymat.publicOf, cmd, flags, before, keymat.Db(), cells);
      r := Ok(());
    }

    // drop_rekeyed
    method DropOldKeys()
      requires keymat.Loaded() && Consistent(keymat.Db(), keymat.peerIds)
      modifies this`rekeyedConfig, keymat
      ensures keymat.Loaded() && Consistent(keymat.Db(), keymat.peerIds)
      ensures old(Sound()) ==> Sound()
      ensures keymat.Db() == DropRekeyed(old(keymat.Db())) && PreferDropped(keymat.Db()) == keymat.live
      ensures rekeyedConfig == None
    {
      DropRekeyedSettles(keymat.Db(), keymat.peerIds);
      keymat.CleanDroppedKeys();
      rekeyedConfig := None;
    }
  }

  // The keys that a command is about, without reference to the tables.
  predicate Replaces(cmd: Command, s: Slot) {
    match cmd
    case RekeyCell(c) => s == PeerSlot(c) || s == PskSlot(c)
    case RekeyUvn => true
  }

  lemma RefusedStep(publicOf: int -> int, cmd: Command, db: KeyDb, cells: set<int>)
    requires cmd.RekeyUvn? && RootSlot in db.dropped
    ensures CommandStep(publicOf, db, db, cells, cmd)
  {
  }

  lemma AllKnown(db: KeyDb, cells: set<int>)
    requires Consistent(db, cells)
    ensures forall s :: s in db.dropped && s.PeerSlot? ==> s.id in cells
  {
  }

  lemma FlagsAre(flags: map<int, bool>, db: KeyDb, cells: set<int>, already: set<int>)
    requires flags == map c | c in cells :: c in already
    requires forall c :: c in already <==> PeerSlot(c) in db.dropped
    ensures DropOrDelete(flags, db, cells)
  {
  }

  lemma GoneDef(cmd: Command, db: KeyDb, cells: set<int>)
    ensures cmd.RekeyCell? ==> Gone(cmd, db, cells) == GoneSlots(db.live, cells - {cmd.cell})
    ensures cmd.RekeyUvn? ==> Gone(cmd, db, cells) == db.live.Keys
  {
  }

  lemma Released(live: map<Slot, Key>, gone: set<Slot>, flags: map<int, bool>)
    requires gone <= live.Keys
    ensures var m := Release(Memory(live, map[], {}), gone, flags);
            m.keys == live - gone && m.toDrop == Dropping(live, gone, flags) && m.toDelete == Deleting(gone, flags)
  {
    assert map[] + Dropping(live, gone, flags) == Dropping(live, gone, flags);
  }

  lemma AfterSave(live: map<Slot, Key>, gone: set<Slot>, flags: map<int, bool>)
    requires gone <= live.Keys
    ensures live - Dropping(live, gone, flags).Keys - Deleting(gone, flags) == live - gone
  {
    hide Deletes;
    assert Dropping(live, gone, flags).Keys + Deleting(gone, flags) == gone;
  }

  lemma CommandDone(publicOf: int -> int, cmd: Command, flags: map<int, bool>, before: KeyDb, after: KeyDb,
                    cells: set<int>)
    requires Consistent(before, cells) && DropOrDelete(flags, before, cells)
    requires !(cmd.RekeyUvn? && RootSlot in before.dropped)
    requires Gone(cmd, before, cells) <= before.live.Keys
    requires after.dropped == before.dropped + Dropping(before.live, Gone(cmd, before, cells), flags)
    requires after.live.Keys == (before.live - Gone(cmd, before, cells)).Keys + SlotsOf(cells)
    requires forall s :: s in before.live && s !in Gone(cmd, before, cells) ==>
               s in after.live && after.live[s] == before.live[s]
    requires Generated(publicOf, after.live, after.live.Keys - (before.live - Gone(cmd, before, cells)).Keys,
                       before.issued, after.issued)
    ensures CommandStep(publicOf, before, after, cells, cmd)
  {
    GoneIsTarget(cmd, before, cells);
    LiveSlots(before, cells);
    hide Consistent, Proper, SlotsOf, Gone, Target, DropOrDelete, Dropping, Generated, CommandStep, Accepted, Replaces;
    var gone := Gone(cmd, before, cells);
    SameRows(before.live, after.live, gone);
    if Accepted(before, cells, cmd) {
      SavedIsRekeyed(publicOf, cmd, flags, before, after, cells);
      AcceptedStep(publicOf, cmd, before, after, cells);
    } else {
      SkippedStep(publicOf, cmd, flags, before, after, cells);
    }
  }

  lemma FinishRekey(publicOf: int -> int, cmd: Command, flags: map<int, bool>, before: KeyDb, after: KeyDb,
                    cells: set<int>)
    requires Consistent(before, cells) && Proper(publicOf, before) && DropOrDelete(flags, before, cells)
    requires !(cmd.RekeyUvn? && RootSlot in before.dropped)
    requires Gone(cmd, before, cells) <= before.live.Keys
    requires after.dropped == before.dropped + Dropping(before.live, Gone(cmd, before, cells), flags)
    requires after.live.Keys == (before.live - Gone(cmd, before, cells)).Keys + SlotsOf(cells)
    requires forall s :: s in before.live && s !in Gone(cmd, before, cells) ==>
               s in after.live && after.live[s] == before.live[s]
    requires Generated(publicOf, after.live, after.live.Keys - (before.live - Gone(cmd, before, cells)).Keys,
                       before.issued, after.issued)
    ensures CommandStep(publicOf, before, after, cells, cmd)
    ensures Consistent(after, cells) && PreferDropped(after) == PreferDropped(before) && Proper(publicOf, after)
    ensures forall s :: s in before.live ==>
              s in after.live && (after.live[s] != before.live[s] <==> Replaces(cmd, s))
  {
    hide *;
    CommandDone(publicOf, cmd, flags, before, after, cells);
    StepKeepsView(publicOf, before, after, cells, cmd);
    StepKeepsProper(publicOf, before, after, cells, cmd);
    AllReplaced(publicOf, cmd, before, after, cells);
  }

  lemma SameRows(before: map<Slot, Key>, after: map<Slot, Key>, gone: set<Slot>)
    requires gone <= before.Keys && after.Keys == (before - gone).Keys + before.Keys
    ensures after.Keys == before.Keys && after.Keys - (before - gone).Keys == gone
  {
  }

  lemma LiveSlots(db: KeyDb, cells: set<int>)
    requires Consistent(db, cells)
    ensures db.live.Keys == SlotsOf(cells)
  {
  }

  lemma AcceptedStep(publicOf: int -> int, cmd: Command, before: KeyDb, after: KeyDb, cells: set<int>)
    requires Accepted(before, cells, cmd) && Rekeyed(publicOf, before, after, Target(cmd, cells))
    ensures CommandStep(publicOf, before, after, cells, cmd)
  {
    hide Accepted, Rekeyed;
  }

  // Rekeying a cell that is not active releases and generates nothing.
  lemma SkippedStep(publicOf: int -> int, cmd: Command, flags: map<int, bool>, before: KeyDb, after: KeyDb,
                    cells: set<int>)
    requires Consistent(before, cells) && !Accepted(before, cells, cmd)
    requires !(cmd.RekeyUvn? && RootSlot in before.dropped)
    requires Gone(cmd, before, cells) <= before.live.Keys && after.live.Keys == before.live.Keys
    requires after.dropped == before.dropped + Dropping(before.live, Gone(cmd, before, cells), flags)
    requires forall s :: s in before.live && s !in Gone(cmd, before, cells) ==> after.live[s] == before.live[s]
    requires Generated(publicOf, after.live, Gone(cmd, before, cells), before.issued, after.issued)
    ensures CommandStep(publicOf, before, after, cells, cmd)
  {
    GoneIsTarget(cmd, before, cells);
    assert Gone(cmd, before, cells) == {};
    hide Consistent, Generated, Gone;
    assert Dropping(before.live, {}, flags) == map[];
    assert after.live == before.live;
    assert after.dropped == before.dropped;
    NothingIssued(publicOf, after.live, before.issued, after.issued);
  }

  lemma NothingIssued(publicOf: int -> int, keys: map<Slot, Key>, before: set<Key>, after: set<Key>)
    requires Generated(publicOf, keys, {}, before, after)
    ensures after == before
  {
  }

  lemma AllReplaced(publicOf: int -> int, cmd: Command, before: KeyDb, after: KeyDb, cells: set<int>)
    requires Consistent(before, cells) && Proper(publicOf, before) && CommandStep(publicOf, before, after, cells, cmd)
    requires !(cmd.RekeyUvn? && RootSlot in before.dropped)
    ensures forall s :: s in before.live ==>
              s in after.live && (after.live[s] != before.live[s] <==> Replaces(cmd, s))
  {
    forall s | s in before.live
      ensures s in after.live && (after.live[s] != before.live[s] <==> Replaces(cmd, s))
    {
      SlotIsTarget(cmd, cells, s);
      if Accepted(before, cells, cmd) && s in Target(cmd, cells) {
        hide Consistent, Proper, CommandStep, Accepted, Target;
        ReplacedIsRetired(publicOf, before, after, cells, cmd, s);
        assert s in after.live && after.live[s] in after.live.Values;
      }
    }
  }

  lemma SlotIsTarget(cmd: Command, cells: set<int>, s: Slot)
    requires s in SlotsOf(cells)
    ensures s in Target(cmd, cells) <==> Replaces(cmd, s)
    ensures cmd.RekeyCell? && Replaces(cmd, s) ==> cmd.cell in cells
  {
  }
}
