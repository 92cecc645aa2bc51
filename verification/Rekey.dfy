// Rekeying of the root VPN (uno/registry/registry.py, uno/registry/vpn_keymat.py).
// The key tables hold at most one live and one dropped row per key id
// (UNIQUE (key_id, dropped)); a failing command rolls its transaction back.
module Rekey {
  import opened Prelude
  import opened VpnConfig
  import opened RootVpn

  // Key ids "<prefix>:root", "<prefix>:peer:<id>" and "<prefix>:psks:[0, <id>]".
  datatype Slot = RootSlot | PeerSlot(id: int) | PskSlot(id: int)

  datatype Key = Asymmetric(pair: KeyPair) | Preshared(psk: int)

  // The live and the dropped rows, and every key that was ever generated.
  datatype KeyDb = KeyDb(live: map<Slot, Key>, dropped: map<Slot, Key>, issued: set<Key>)

  // Every key the root VPN of these cells needs.
  ghost function SlotsOf(cells: set<int>): (r: set<Slot>) {
    {RootSlot} + (set c | c in cells :: PeerSlot(c)) + (set c | c in cells :: PskSlot(c))
  }

  // What a key material object with prefer_dropped loads.
  function PreferDropped(db: KeyDb): (r: map<Slot, Key>) {
    db.live + db.dropped
  }

  // A key that fits its slot: a preshared key, or a pair with both halves.
  ghost predicate OfKind(publicOf: int -> int, s: Slot, k: Key) {
    if s.PskSlot? then k.Preshared?
    else k.Asymmetric? && k.pair.private.Some? && Matching(publicOf, k.pair)
  }

  // Every row holds a key of its kind, and no key is stored twice.
  ghost predicate Proper(publicOf: int -> int, db: KeyDb) {
    && (forall s :: s in db.live ==> OfKind(publicOf, s, db.live[s]) && db.live[s] in db.issued)
    && (forall s :: s in db.dropped ==> OfKind(publicOf, s, db.dropped[s]) && db.dropped[s] in db.issued)
    && (forall s, t :: s in db.live && t in db.live && s != t ==> db.live[s] != db.live[t])
    && (forall s, t :: s in db.dropped && t in db.dropped && s != t ==> db.dropped[s] != db.dropped[t])
    && (forall s, t :: s in db.live && t in db.dropped ==> db.live[s] != db.dropped[t])
  }

  // Keys were generated for the given slots: of their kind, never issued before, and
  // all different.
  ghost predicate Generated(publicOf: int -> int, keys: map<Slot, Key>, slots: set<Slot>, before: set<Key>,
                            after: set<Key>) {
    && slots <= keys.Keys
    && (forall s :: s in slots ==> OfKind(publicOf, s, keys[s]) && keys[s] !in before)
    && (forall s, t :: s in slots && t in slots && s != t ==> keys[s] != keys[t])
    && before <= after
    && (forall s :: s in slots ==> keys[s] in after)
    && (forall k :: k in after ==> k in before || exists s :: s in slots && keys[s] == k)
  }

  // ----- Specification of one rekey -----

  // Slots of peers whose key already has a dropped generation.
  ghost predicate AlreadyDropped(db: KeyDb, s: Slot) {
    s != RootSlot && PeerSlot(s.id) in db.dropped
  }

  // The live generation of the targeted slots is replaced by new keys.  It becomes the
  // dropped generation where there is none yet, and is deleted otherwise.
  ghost predicate Rekeyed(publicOf: int -> int, before: KeyDb, after: KeyDb, target: set<Slot>) {
    && after.live.Keys == before.live.Keys
    && Generated(publicOf, after.live, target, before.issued, after.issued)
    && (forall s :: s in before.live && s !in target ==> after.live[s] == before.live[s])
    && after.dropped.Keys == before.dropped.Keys + (set s | s in target && !AlreadyDropped(before, s))
    && (forall s :: s in before.dropped ==> after.dropped[s] == before.dropped[s])
    && (forall s :: s in target && !AlreadyDropped(before, s) ==>
          s in before.live && after.dropped[s] == before.live[s])
  }

  // Live keys for exactly the cells, and a peer key and its preshared key are
  // always dropped together.
  ghost predicate Consistent(db: KeyDb, cells: set<int>) {
    && 0 !in cells
    && db.live.Keys == SlotsOf(cells)
    && db.dropped.Keys <= SlotsOf(cells)
    && (forall c :: c in cells ==> (PeerSlot(c) in db.dropped <==> PskSlot(c) in db.dropped))
  }

  // The slots a rekey command replaces.
  datatype Command = RekeyCell(cell: int) | RekeyUvn

  ghost function Target(cmd: Command, cells: set<int>): (r: set<Slot>) {
    match cmd
    case RekeyCell(c) => {PeerSlot(c), PskSlot(c)}
    case RekeyUvn => SlotsOf(cells)
  }

  // A second uvn-wide rekey before the first was synchronised would need a second
  // dropped root key, which the database refuses.
  ghost predicate Accepted(db: KeyDb, cells: set<int>, cmd: Command) {
    match cmd
    case RekeyCell(c) => c in cells
    case RekeyUvn => RootSlot !in db.dropped
  }

  // One command: it rekeys, or it fails and changes nothing.
  ghost predicate CommandStep(publicOf: int -> int, before: KeyDb, after: KeyDb, cells: set<int>, cmd: Command) {
    if Accepted(before, cells, cmd) then Rekeyed(publicOf, before, after, Target(cmd, cells))
    else after == before
  }

  lemma RekeyedIsConsistent(publicOf: int -> int, before: KeyDb, after: KeyDb, cells: set<int>, cmd: Command)
    requires Consistent(before, cells) && Accepted(before, cells, cmd)
    requires Rekeyed(publicOf, before, after, Target(cmd, cells))
    ensures Consistent(after, cells)
  {
    hide Generated;
    var target := Target(cmd, cells);
    assert target <= SlotsOf(cells);
    forall c | c in cells
      ensures PeerSlot(c) in after.dropped <==> PskSlot(c) in after.dropped
    {
      assert PeerSlot(c) in target <==> PskSlot(c) in target;
    }
  }

  lemma StepKeepsView(publicOf: int -> int, before: KeyDb, after: KeyDb, cells: set<int>, cmd: Command)
    requires Consistent(before, cells) && CommandStep(publicOf, before, after, cells, cmd)
    ensures Consistent(after, cells)
    ensures PreferDropped(after) == PreferDropped(before)
  {
    hide SlotsOf, Target, Accepted, Rekeyed, AlreadyDropped, Generated;
    if Accepted(before, cells, cmd) {
      RekeyedIsConsistent(publicOf, before, after, cells, cmd);
      forall s | s in SlotsOf(cells)
        ensures PreferDropped(after)[s] == PreferDropped(before)[s]
      {
        ViewAt(publicOf, before, after, cells, cmd, s);
      }
      assert PreferDropped(after).Keys == SlotsOf(cells) == PreferDropped(before).Keys;
    }
  }

  lemma ViewAt(publicOf: int -> int, before: KeyDb, after: KeyDb, cells: set<int>, cmd: Command, s: Slot)
    requires Consistent(before, cells) && Accepted(before, cells, cmd)
    requires Rekeyed(publicOf, before, after, Target(cmd, cells))
    requires s in SlotsOf(cells)
    ensures s in PreferDropped(after) && s in PreferDropped(before)
    ensures PreferDropped(after)[s] == PreferDropped(before)[s]
  {
    hide Generated;
    var target := Target(cmd, cells);
    assert target <= SlotsOf(cells);
    hide Target, SlotsOf;
    if s in before.dropped {
      assert after.dropped[s] == before.dropped[s];
    } else if s in target {
      assert !AlreadyDropped(before, s);
    }
  }

  // Over every run of rekey commands, in any order and number, the prefer-dropped
  // view stays what it was before the first of them.
  lemma {:induction false} RunKeepsView(publicOf: int -> int, dbs: seq<KeyDb>, cmds: seq<Command>, cells: set<int>)
    requires |dbs| == |cmds| + 1 && Consistent(dbs[0], cells)
    requires forall i :: 0 <= i < |cmds| ==> CommandStep(publicOf, dbs[i], dbs[i + 1], cells, cmds[i])
    ensures Consistent(dbs[|cmds|], cells)
    ensures PreferDropped(dbs[|cmds|]) == PreferDropped(dbs[0])
    decreases |cmds|
  {
    hide Consistent, CommandStep, PreferDropped;
    if |cmds| > 0 {
      var n := |cmds| - 1;
      RunKeepsView(publicOf, dbs[..n + 1], cmds[..n], cells);
      assert dbs[..n + 1][n] == dbs[n];
      StepKeepsView(publicOf, dbs[n], dbs[n + 1], cells, cmds[n]);
    }
  }

  // Key rows as the key material of the root VPN.
  function MaterialOf(rows: map<Slot, Key>): (r: RootKeys) {
    RootKeys(
      if RootSlot in rows && rows[RootSlot].Asymmetric? then Some(rows[RootSlot].pair) else None,
      map s | s in rows && s.PeerSlot? && rows[s].Asymmetric? :: s.id := rows[s].pair,
      map s | s in rows && s.PskSlot? && rows[s].Preshared? :: s.id := rows[s].psk)
  }

  lemma ViewIsOld(publicOf: int -> int, dbs: seq<KeyDb>, cmds: seq<Command>, cells: set<int>)
    requires |dbs| == |cmds| + 1 && Consistent(dbs[0], cells) && dbs[0].dropped == map[]
    requires forall i :: 0 <= i < |cmds| ==> CommandStep(publicOf, dbs[i], dbs[i + 1], cells, cmds[i])
    ensures PreferDropped(dbs[|cmds|]) == dbs[0].live
  {
    hide Consistent, CommandStep;
    RunKeepsView(publicOf, dbs, cmds, cells);
    assert PreferDropped(dbs[0]) == dbs[0].live;
  }

  // ----- New keys -----

  lemma StepKeepsProper(publicOf: int -> int, before: KeyDb, after: KeyDb, cells: set<int>, cmd: Command)
    requires Consistent(before, cells) && Proper(publicOf, before) && CommandStep(publicOf, before, after, cells, cmd)
    ensures Proper(publicOf, after) && before.issued <= after.issued
  {
    if Accepted(before, cells, cmd) {
      var target := Target(cmd, cells);
      hide Target, Consistent, Accepted, AlreadyDropped;
      forall s | s in after.live
        ensures OfKind(publicOf, s, after.live[s]) && after.live[s] in after.issued
        ensures s in target ==> after.live[s] !in before.issued
        ensures s !in target ==> after.live[s] == before.live[s]
      {
      }
      forall s | s in after.dropped
        ensures (s in before.dropped && after.dropped[s] == before.dropped[s]) ||
                (s in target && s in before.live && after.dropped[s] == before.live[s])
      {
      }
      hide Rekeyed, Generated, OfKind;
      ProperAfter(publicOf, before, after, target);
    }
  }

  // The bookkeeping of StepKeepsProper: where the rows of after come from.
  lemma ProperAfter(publicOf: int -> int, before: KeyDb, after: KeyDb, target: set<Slot>)
    requires Proper(publicOf, before) && Rekeyed(publicOf, before, after, target)
    requires forall s :: s in after.dropped ==>
               (s in before.dropped && after.dropped[s] == before.dropped[s]) ||
               (s in target && s in before.live && after.dropped[s] == before.live[s])
    ensures Proper(publicOf, after)
  {
    hide OfKind, AlreadyDropped;
  }

  lemma {:induction false} RunKeepsProper(publicOf: int -> int, dbs: seq<KeyDb>, cmds: seq<Command>, cells: set<int>)
    requires |dbs| == |cmds| + 1 && Consistent(dbs[0], cells) && Proper(publicOf, dbs[0])
    requires forall i :: 0 <= i < |cmds| ==> CommandStep(publicOf, dbs[i], dbs[i + 1], cells, cmds[i])
    ensures Consistent(dbs[|cmds|], cells) && Proper(publicOf, dbs[|cmds|])
    decreases |cmds|
  {
    hide Consistent, CommandStep, Proper;
    if |cmds| > 0 {
      var n := |cmds| - 1;
      RunKeepsProper(publicOf, dbs[..n + 1], cmds[..n], cells);
      assert dbs[..n + 1][n] == dbs[n];
      StepKeepsView(publicOf, dbs[n], dbs[n + 1], cells, cmds[n]);
      StepKeepsProper(publicOf, dbs[n], dbs[n + 1], cells, cmds[n]);
    }
  }

  // An accepted command takes the old key of every target out of use.
  lemma ReplacedIsRetired(publicOf: int -> int, before: KeyDb, after: KeyDb, cells: set<int>, cmd: Command, s: Slot)
    requires Consistent(before, cells) && Proper(publicOf, before) && Accepted(before, cells, cmd)
    requires CommandStep(publicOf, before, after, cells, cmd) && s in Target(cmd, cells)
    ensures s in before.live && s in after.live && after.live[s] !in before.issued
    ensures before.live[s] in after.issued && before.live[s] !in after.live.Values
  {
    var target := Target(cmd, cells);
    assert target <= SlotsOf(cells);
    hide Target, SlotsOf;
    forall t | t in after.live
      ensures after.live[t] != before.live[s]
    {
      if t !in target {
        assert after.live[t] == before.live[t];
      }
    }
  }

  // One rekey command, or the end of a synchronisation.
  ghost predicate AnyStep(publicOf: int -> int, before: KeyDb, after: KeyDb, cells: set<int>) {
    after == DropRekeyed(before) || exists cmd :: CommandStep(publicOf, before, after, cells, cmd)
  }

  lemma RetiredStep(publicOf: int -> int, before: KeyDb, after: KeyDb, cells: set<int>, k: Key)
    requires AnyStep(publicOf, before, after, cells) && k in before.issued && k !in before.live.Values
    ensures k in after.issued && k !in after.live.Values
  {
    if after != DropRekeyed(before) {
      var cmd :| CommandStep(publicOf, before, after, cells, cmd);
      if Accepted(before, cells, cmd) {
        var target := Target(cmd, cells);
        hide Target, Accepted, OfKind, AlreadyDropped;
        forall t | t in after.live
          ensures after.live[t] != k
        {
          if t !in target {
            assert after.live[t] == before.live[t];
          }
        }
      }
    }
  }

  // A key that went out of use never comes back, whatever is rekeyed or synchronised
  // afterwards.
  lemma {:induction false} RetiredForGood(publicOf: int -> int, dbs: seq<KeyDb>, cells: set<int>, k: Key, n: nat)
    requires |dbs| > n && k in dbs[0].issued && k !in dbs[0].live.Values
    requires forall i :: 0 <= i < |dbs| - 1 ==> AnyStep(publicOf, dbs[i], dbs[i + 1], cells)
    ensures k in dbs[n].issued && k !in dbs[n].live.Values
    decreases n
  {
    hide AnyStep;
    if n > 0 {
      RetiredForGood(publicOf, dbs, cells, k, n - 1);
      assert AnyStep(publicOf, dbs[n - 1], dbs[n - 1 + 1], cells);
      RetiredStep(publicOf, dbs[n - 1], dbs[n], cells, k);
    }
  }

  // ----- The configurations before, during and after -----

  // The root VPN addresses of the registry and of all cells exist.
  ghost predicate AddressesFit(s: RootSettings, cells: set<int>) {
    Fits(RootIp(s)) && forall p :: p in cells ==> Fits(PeerIp(s, p))
  }

  lemma MaterialIsFull(publicOf: int -> int, rows: map<Slot, Key>, cells: set<int>)
    requires rows.Keys == SlotsOf(cells) && forall s :: s in rows ==> OfKind(publicOf, s, rows[s])
    ensures var m := MaterialOf(rows);
            Full(publicOf, m) && m.root.Some? && m.peers.Keys == cells && m.psks.Keys == cells
  {
    var m := MaterialOf(rows);
    forall p
      ensures p in m.peers <==> p in cells
      ensures p in m.psks <==> p in cells
    {
      assert PeerSlot(p) in SlotsOf(cells) <==> p in cells;
      assert PskSlot(p) in SlotsOf(cells) <==> p in cells;
    }
  }

  // Complete material gives linked configurations for the registry and every cell.
  lemma MaterialServes(publicOf: int -> int, rows: map<Slot, Key>, cells: set<int>, s: RootSettings,
                       rootAddress: Option<string>, addresses: map<int, Option<string>>, peer: int)
    requires rows.Keys == SlotsOf(cells) && forall s :: s in rows ==> OfKind(publicOf, s, rows[s])
    requires AddressesFit(s, cells) && ProperAddresses(addresses) && peer in cells
    ensures var root := RootConfig(s, rootAddress, addresses, cells, MaterialOf(rows));
            var cell := CellConfig(s, rootAddress, addresses, MaterialOf(rows), peer);
            root.Ok? && cell.Ok? && RootVpn.Linked(publicOf, root.value, cell.value, peer)
  {
    MaterialIsFull(publicOf, rows, cells);
    var m := MaterialOf(rows);
    hide MaterialOf, SlotsOf, OfKind, Full, ProperAddresses, CellConfig, RootVpn.Linked, Fits, PeerIp, RootIp;
    assert RootConfig(s, rootAddress, addresses, cells, m).Ok?;
    hide RootConfig;
    RootLinksMirror(s, rootAddress, addresses, cells, m, publicOf, peer);
  }

  // Until the old generation is dropped, the registry's own root VPN
  // configuration still matches the configuration that every cell had before the
  // first rekey, whatever was rekeyed in between.
  lemma RekeyedRootServesOldCells(publicOf: int -> int, dbs: seq<KeyDb>, cmds: seq<Command>, cells: set<int>,
                                  s: RootSettings, rootAddress: Option<string>, addresses: map<int, Option<string>>,
                                  peer: int)
    requires |dbs| == |cmds| + 1 && Consistent(dbs[0], cells) && Proper(publicOf, dbs[0]) && dbs[0].dropped == map[]
    requires forall i :: 0 <= i < |cmds| ==> CommandStep(publicOf, dbs[i], dbs[i + 1], cells, cmds[i])
    requires AddressesFit(s, cells) && ProperAddresses(addresses) && peer in cells
    ensures var root := RootConfig(s, rootAddress, addresses, cells, MaterialOf(PreferDropped(dbs[|cmds|])));
            var cell := CellConfig(s, rootAddress, addresses, MaterialOf(dbs[0].live), peer);
            root.Ok? && cell.Ok? && RootVpn.Linked(publicOf, root.value, cell.value, peer)
  {
    LiveRows(publicOf, dbs[0], cells);
    hide *;
    ViewIsOld(publicOf, dbs, cmds, cells);
    MaterialServes(publicOf, dbs[0].live, cells, s, rootAddress, addresses, peer);
  }

  lemma LiveRows(publicOf: int -> int, db: KeyDb, cells: set<int>)
    requires Consistent(db, cells) && Proper(publicOf, db)
    ensures db.live.Keys == SlotsOf(cells) && forall s :: s in db.live ==> OfKind(publicOf, s, db.live[s])
  {
  }

  // Once the old generation is dropped, the registry matches the configuration that
  // every cell has with its new keys.
  lemma NewKeysServe(publicOf: int -> int, dbs: seq<KeyDb>, cmds: seq<Command>, cells: set<int>,
                     s: RootSettings, rootAddress: Option<string>, addresses: map<int, Option<string>>, peer: int)
    requires |dbs| == |cmds| + 1 && Consistent(dbs[0], cells) && Proper(publicOf, dbs[0])
    requires forall i :: 0 <= i < |cmds| ==> CommandStep(publicOf, dbs[i], dbs[i + 1], cells, cmds[i])
    requires AddressesFit(s, cells) && ProperAddresses(addresses) && peer in cells
    ensures var end := DropRekeyed(dbs[|cmds|]);
            var root := RootConfig(s, rootAddress, addresses, cells, MaterialOf(PreferDropped(end)));
            var cell := CellConfig(s, rootAddress, addresses, MaterialOf(dbs[|cmds|].live), peer);
            root.Ok? && cell.Ok? && RootVpn.Linked(publicOf, root.value, cell.value, peer)
  {
    var n := |cmds|;
    RunKeepsProper(publicOf, dbs, cmds, cells);
    LiveRows(publicOf, dbs[n], cells);
    DropRekeyedSettles(dbs[n], cells);
    hide *;
    MaterialServes(publicOf, dbs[n].live, cells, s, rootAddress, addresses, peer);
  }

  // drop_rekeyed: the dropped generation disappears and the view becomes the live one.
  function DropRekeyed(db: KeyDb): (r: KeyDb) {
    KeyDb(db.live, map[], db.issued)
  }

  lemma DropRekeyedSettles(db: KeyDb, cells: set<int>)
    requires Consistent(db, cells)
    ensures Consistent(DropRekeyed(db), cells) && PreferDropped(DropRekeyed(db)) == db.live
  {
    assert db.live + map[] == db.live;
  }
}
