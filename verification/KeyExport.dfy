// A cell only receives its own private keys, its preshared keys and the public
// halves of its neighbours' keys (uno/registry/registry.py: cell_key_material,
// generate_cell_database).  It rebuilds its configurations from those rows alone.
module KeyExport {
  import opened Prelude
  import opened PairedMap
  import opened Deploy
  import opened VpnConfig
  import opened Pipeline
  import opened RootVpn

  // One row of the asymmetric key table of the backbone: key_id is the pair
  // followed by the position of the key within the pair.
  datatype KeyRow = KeyRow(pair: Pair, index: int, key: KeyPair)

  function PublicHalf(key: KeyPair): (r: KeyPair) {
    KeyPair(None, key.public)
  }

  // get_peer_material: which of the two keys of a pair is exported whole.
  function ExportPair(cell: int, pair: Pair, keys: (KeyPair, KeyPair)): (r: (KeyPair, KeyPair)) {
    if pair.0 == cell then (keys.0, PublicHalf(keys.1)) else (PublicHalf(keys.0), keys.1)
  }

  predicate Concerns(cell: int, pair: Pair) {
    pair.0 == cell || pair.1 == cell
  }

  ghost function ExportedRows(keys: PairKeys, cell: int): (r: set<KeyRow>) {
    (set p | p in keys.pairs && Concerns(cell, p) :: KeyRow(p, 0, ExportPair(cell, p, keys.pairs[p]).0)) +
    (set p | p in keys.pairs && Concerns(cell, p) :: KeyRow(p, 1, ExportPair(cell, p, keys.pairs[p]).1))
  }

  function ExportedPsks(keys: PairKeys, cell: int): (r: map<Pair, int>) {
    map p | p in keys.psks && Concerns(cell, p) :: keys.psks[p]
  }

  // list.insert: positions beyond the end append.
  function Insert<T>(s: seq<T>, i: int, x: T): (r: seq<T>)
    requires 0 <= i
  {
    if i <= |s| then s[..i] + [x] + s[i..] else s + [x]
  }

  // _load_content of PairedVpnKeysMap, over the rows in the order the database yields them.
  function LoadAll(rows: seq<KeyRow>): (r: map<Pair, seq<KeyPair>>)
    requires forall n :: 0 <= n < |rows| ==> 0 <= rows[n].index
  {
    if rows == [] then map[]
    else
      var last := rows[|rows| - 1];
      var loaded := LoadAll(rows[..|rows| - 1]);
      var had := if last.pair in loaded then loaded[last.pair] else [];
      loaded[last.pair := Insert(had, last.index, last.key)]
  }

  ghost function Part(rows: seq<KeyRow>, p: Pair, i: int, key: KeyPair): (r: seq<KeyPair>)
    ensures |r| <= 1
  {
    if KeyRow(p, i, key) in rows then [key] else []
  }

  ghost predicate FromExport(rows: seq<KeyRow>, keys: PairKeys, cell: int) {
    Distinct(rows) && forall n :: 0 <= n < |rows| ==> rows[n] in ExportedRows(keys, cell)
  }

  lemma ExportedRow(row: KeyRow, keys: PairKeys, cell: int)
    requires row in ExportedRows(keys, cell)
    ensures row.pair in keys.pairs && (row.index == 0 || row.index == 1)
    ensures var e := ExportPair(cell, row.pair, keys.pairs[row.pair]);
            row == KeyRow(row.pair, row.index, if row.index == 0 then e.0 else e.1)
  {
    hide ExportPair;
  }

  lemma PartStep(rows: seq<KeyRow>, p: Pair, i: int, key: KeyPair)
    requires rows != [] && Distinct(rows)
    ensures var k := |rows| - 1;
            Part(rows, p, i, key) == if rows[k] == KeyRow(p, i, key) then [key] else Part(rows[..k], p, i, key)
    ensures var k := |rows| - 1;
            rows[k] == KeyRow(p, i, key) ==> Part(rows[..k], p, i, key) == []
  {
    var k := |rows| - 1;
    assert rows == rows[..k] + [rows[k]];
  }

  // Whatever the order of the rows, each pair ends up with its keys in position.
  lemma {:induction false} LoadInAnyOrder(rows: seq<KeyRow>, keys: PairKeys, cell: int, p: Pair)
    requires FromExport(rows, keys, cell) && p in keys.pairs
    ensures forall n :: 0 <= n < |rows| ==> 0 <= rows[n].index
    ensures var e := ExportPair(cell, p, keys.pairs[p]);
            (if p in LoadAll(rows) then LoadAll(rows)[p] else []) == Part(rows, p, 0, e.0) + Part(rows, p, 1, e.1)
    decreases |rows|
  {
    hide ExportPair, ExportedRows, Part;
    var e := ExportPair(cell, p, keys.pairs[p]);
    forall n | 0 <= n < |rows|
      ensures 0 <= rows[n].index
    {
      ExportedRow(rows[n], keys, cell);
    }
    if rows == [] {
      NoParts(p, e.0);
      NoParts(p, e.1);
    } else {
      var k := |rows| - 1;
      PartStep(rows, p, 0, e.0);
      PartStep(rows, p, 1, e.1);
      ExportedRow(rows[k], keys, cell);
      assert FromExport(rows[..k], keys, cell);
      LoadInAnyOrder(rows[..k], keys, cell, p);
      var p0, p1 := Part(rows[..k], p, 0, e.0), Part(rows[..k], p, 1, e.1);
      Inserted(p0, p1, rows[k].key);
    }
  }

  lemma Inserted(p0: seq<KeyPair>, p1: seq<KeyPair>, key: KeyPair)
    requires |p0| <= 1
    ensures p0 == [] ==> Insert(p0 + p1, 0, key) == [key] + p1
    ensures p1 == [] ==> Insert(p0 + p1, 1, key) == p0 + [key]
  {
    if p0 == [] {
      assert p0 + p1 == p1;
    }
    if p1 == [] {
      assert p0 + p1 == p0;
    }
  }

  lemma NoParts(p: Pair, key: KeyPair)
    ensures Part([], p, 0, key) == [] && Part([], p, 1, key) == []
  {
  }

  // The key material an agent holds after loading its database in some row order.
  ghost predicate LoadedFrom(rows: seq<KeyRow>, agent: PairKeys, keys: PairKeys, cell: int) {
    && FromExport(rows, keys, cell)
    && (forall row :: row in ExportedRows(keys, cell) ==> row in rows)
    && (forall n :: 0 <= n < |rows| ==> 0 <= rows[n].index)
    && agent.psks == ExportedPsks(keys, cell)
    && agent.pairs.Keys == (set p | p in LoadAll(rows) && |LoadAll(rows)[p]| == 2)
    && forall p :: p in agent.pairs ==> agent.pairs[p] == (LoadAll(rows)[p][0], LoadAll(rows)[p][1])
  }

  ghost predicate Loaded(agent: PairKeys, keys: PairKeys, cell: int) {
    exists rows :: LoadedFrom(rows, agent, keys, cell)
  }

  lemma LoadedPair(agent: PairKeys, keys: PairKeys, cell: int, p: Pair)
    requires Loaded(agent, keys, cell) && p in keys.pairs && Concerns(cell, p)
    ensures p in agent.pairs && agent.pairs[p] == ExportPair(cell, p, keys.pairs[p])
  {
    var rows :| LoadedFrom(rows, agent, keys, cell);
    var e := ExportPair(cell, p, keys.pairs[p]);
    assert KeyRow(p, 0, e.0) in ExportedRows(keys, cell) && KeyRow(p, 1, e.1) in ExportedRows(keys, cell);
    hide ExportPair, ExportedRows, FromExport;
    LoadInAnyOrder(rows, keys, cell, p);
    assert LoadAll(rows)[p] == [e.0, e.1];
  }

  // The agent's read-only view compiles to exactly the configuration the registry
  // computes, with no missing key material.
  lemma AgentRebuildsBackbone(settings: Settings, dep: LinksMap, addresses: map<int, Option<string>>,
                              keys: PairKeys, agent: PairKeys, cell: int, b: int)
    requires Loaded(agent, keys, cell) && cell in dep && b in dep[cell].peers && cell != b
    requires LinkConfig(settings, dep, addresses, keys, cell, b).Ok?
    ensures LinkConfig(settings, dep, addresses, agent, cell, b) == LinkConfig(settings, dep, addresses, keys, cell, b)
  {
    var k := PairKey(cell, b);
    assert k in keys.pairs && k in keys.psks && Concerns(cell, k);
    LoadedPair(agent, keys, cell, k);
    assert agent.psks == ExportedPsks(keys, cell);
    hide Loaded;
  }

  // The root and backbone configurations of an agent, which only has the exported
  // material: no key is missing, and both are what the registry computes with all keys.
  method AgentConfigs(vpn: P2pVpnConfig, central: Option<Central>, cell: int,
                      ghost keys: PairKeys, ghost computed: map<int, WireGuardConfig>, ghost full: Option<Central>)
    returns (root: Result<CentralConfig>, backbone: Result<map<int, WireGuardConfig>>)
    requires vpn.keymat.readonly && vpn.keymat.Valid() && Loaded(vpn.keymat.View(), keys, cell)
    requires vpn.Resolvable(cell) && (cell in vpn.deployment ==> cell !in vpn.deployment[cell].peers)
    requires Computed(vpn.settings, vpn.deployment, vpn.addresses, keys, cell, computed)
    requires central == Exported(full, cell)
    modifies vpn.keymat`pairs, vpn.keymat`psks, vpn.keymat`drawn
    ensures root == CellRoot(full, cell)
    ensures backbone == Ok(computed) && vpn.keymat.View() == old(vpn.keymat.View())
  {
    hide Loaded, LinkConfig, PairKey, P2pKeyMaterial.Valid, KeysExtend;
    ghost var agent := vpn.keymat.View();
    forall b | b in computed
      ensures PairKey(cell, b) in agent.pairs && PairKey(cell, b) in agent.psks
      ensures LinkConfig(vpn.settings, vpn.deployment, vpn.addresses, agent, cell, b) == Ok(computed[b])
    {
      AgentRebuildsBackbone(vpn.settings, vpn.deployment, vpn.addresses, keys, agent, cell, b);
      HasKeys(vpn.settings, vpn.deployment, vpn.addresses, agent, cell, b);
    }
    root := CellRoot(central, cell);
    backbone := vpn.PeerConfig(cell);
    assert vpn.keymat.View() == agent && backbone.value.Keys == computed.Keys;
    forall b | b in computed
      ensures backbone.value[b] == computed[b]
    {
      assert Ok(backbone.value[b]) == Ok(computed[b]);
    }
    assert backbone.value == computed;
  }

  lemma HasKeys(settings: Settings, dep: LinksMap, addresses: map<int, Option<string>>, keys: PairKeys, a: int, b: int)
    requires a in dep && b in dep[a].peers && LinkConfig(settings, dep, addresses, keys, a, b).Ok?
    ensures PairKey(a, b) in keys.pairs && PairKey(a, b) in keys.psks
  {
  }

  // Every loaded pair stems from an exported row.
  lemma {:induction false} LoadedFromRows(rows: seq<KeyRow>, p: Pair)
    requires forall n :: 0 <= n < |rows| ==> 0 <= rows[n].index
    requires p in LoadAll(rows)
    ensures exists n :: 0 <= n < |rows| && rows[n].pair == p
    decreases |rows|
  {
    var k := |rows| - 1;
    if rows[k].pair != p {
      LoadedFromRows(rows[..k], p);
      var n :| 0 <= n < k && rows[..k][n].pair == p;
      assert rows[n].pair == p;
    }
  }

  lemma LoadedKeys(agent: PairKeys, keys: PairKeys, cell: int)
    requires Loaded(agent, keys, cell)
    ensures agent.pairs.Keys == set q | q in keys.pairs && Concerns(cell, q)
    ensures agent.psks.Keys == set q | q in keys.psks && Concerns(cell, q)
  {
    var rows: seq<KeyRow> :| LoadedFrom(rows, agent, keys, cell);
    forall q | q in keys.pairs && Concerns(cell, q)
      ensures q in agent.pairs
    {
      LoadedPair(agent, keys, cell, q);
    }
    hide ExportPair;
    forall q | q in agent.pairs
      ensures q in keys.pairs && Concerns(cell, q)
    {
      LoadedFromRows(rows, q);
      var n :| 0 <= n < |rows| && rows[n].pair == q;
      assert rows[n] in ExportedRows(keys, cell);
    }
  }

  // The own key of a pair is exported whole, of the other one only the public half.
  ghost predicate OwnHalfOnly(cell: int, p: Pair, held: (KeyPair, KeyPair), full: (KeyPair, KeyPair)) {
    if p.0 == cell then held.0 == full.0 && held.1.private.None? && held.1.public == full.1.public
    else held.1 == full.1 && held.0.private.None? && held.0.public == full.0.public
  }

  // Everything an agent holds: of the backbone, the keys of exactly its own links,
  // without the other side's private keys; of the root VPN, its own key and preshared key,
  // and the public half of the root key.
  lemma AgentHoldsOnlyItsOwn(agent: PairKeys, keys: PairKeys, full: Option<Central>, cell: int)
    requires Loaded(agent, keys, cell)
    ensures agent.pairs.Keys == set q | q in keys.pairs && (q.0 == cell || q.1 == cell)
    ensures agent.psks.Keys == set q | q in keys.psks && (q.0 == cell || q.1 == cell)
    ensures forall p :: p in agent.pairs ==> OwnHalfOnly(cell, p, agent.pairs[p], keys.pairs[p])
    ensures forall p :: p in agent.psks ==> agent.psks[p] == keys.psks[p]
    ensures Exported(full, cell).Some? <==> full.Some?
    ensures full.Some? ==>
              var held, all := Exported(full, cell).value.keys, full.value.keys;
              && (held.root.Some? <==> all.root.Some?)
              && (held.root.Some? ==> held.root.value.private.None? && held.root.value.public == all.root.value.public)
              && held.peers.Keys == all.peers.Keys * {cell} && held.psks.Keys == all.psks.Keys * {cell}
              && (cell in held.peers ==> held.peers[cell] == all.peers[cell])
              && (cell in held.psks ==> held.psks[cell] == all.psks[cell])
  {
    LoadedKeys(agent, keys, cell);
    forall p | p in agent.pairs
      ensures OwnHalfOnly(cell, p, agent.pairs[p], keys.pairs[p])
    {
      LoadedPair(agent, keys, cell, p);
    }
    assert agent.psks == ExportedPsks(keys, cell);
  }
}
