// CentralizedVpnConfig of the root VPN: the registry's own configuration and the
// one of every cell (uno/registry/vpn_config.py).
module RootVpn {
  import opened Prelude
  import opened LinkAllocation
  import opened VpnConfig

  // Root key, peer keys and preshared keys of the root VPN.
  datatype RootKeys = RootKeys(root: Option<KeyPair>, peers: map<int, KeyPair>, psks: map<int, int>)

  datatype RootSettings = RootSettings(base: int, port: int, peerPort: Option<int>, keepalive: int)

  datatype Side = Side(privkey: Option<int>, address: int, port: Option<int>, endpoint: Option<Endpoint>)

  // The root's configuration lists all cells; a cell's lists the root only.
  datatype CentralConfig = CentralConfig(intf: Side, peers: map<int, Remote>)

  function RootIp(s: RootSettings): (r: int) {
    s.base + 1
  }

  function PeerIp(s: RootSettings, peer: int): (r: int) {
    RootIp(s) + peer
  }

  // settings.peer_port if it is set and non-zero, else settings.port
  function PeerPort(s: RootSettings): (r: int) {
    if s.peerPort.Some? && s.peerPort.value != 0 then s.peerPort.value else s.port
  }

  // ipaddress refuses a sum beyond the address space.
  predicate Fits(ip: int) {
    ip < ADDRESS_SPACE
  }

  function AddressOf(addresses: map<int, Option<string>>, peer: int): (r: Option<string>) {
    if peer in addresses then addresses[peer] else None
  }

  function RemoteOf(s: RootSettings, addresses: map<int, Option<string>>, keys: RootKeys, peer: int): (r: Remote)
    requires peer in keys.peers && peer in keys.psks
  {
    var address := AddressOf(addresses, peer);
    Remote(peer, keys.peers[peer].public, keys.psks[peer], PeerIp(s, peer),
           if address.None? then None else Some(Endpoint(address.value, PeerPort(s))),
           if HasAddress(address) then Some(s.keepalive) else None)
  }

  function RootConfig(s: RootSettings, rootAddress: Option<string>, addresses: map<int, Option<string>>,
                      cells: set<int>, keys: RootKeys): (r: Result<CentralConfig>) {
    if keys.root.None? || !(cells <= keys.peers.Keys) || !(cells <= keys.psks.Keys) then Err(MissingKeyMaterial)
    else if !Fits(RootIp(s)) || exists p :: p in cells && !Fits(PeerIp(s, p)) then Err(AddressOverflow)
    else
      Ok(CentralConfig(
           Side(keys.root.value.private, RootIp(s),
                if rootAddress.None? then None else Some(s.port),
                if rootAddress.None? then None else Some(Endpoint(rootAddress.value, s.port))),
           map p | p in cells :: RemoteOf(s, addresses, keys, p)))
  }

  function CellConfig(s: RootSettings, rootAddress: Option<string>, addresses: map<int, Option<string>>,
                      keys: RootKeys, peer: int): (r: Result<CentralConfig>) {
    if peer !in keys.peers || peer !in keys.psks || keys.root.None? then Err(MissingKeyMaterial)
    else if !Fits(RootIp(s)) || !Fits(PeerIp(s, peer)) then Err(AddressOverflow)
    else
      var address := AddressOf(addresses, peer);
      Ok(CentralConfig(
           Side(keys.peers[peer].private, PeerIp(s, peer),
                if HasAddress(address) then Some(PeerPort(s)) else None,
                if HasAddress(address) then Some(Endpoint(address.value, PeerPort(s))) else None),
           map[0 := Remote(0, keys.root.value.public, keys.psks[peer], RootIp(s),
                           if rootAddress.None? || HasAddress(address) then None
                           else Some(Endpoint(rootAddress.value, s.port)),
                           if HasAddress(address) then None else Some(s.keepalive))]))
  }

  // What a side dials and addresses is what the other side is.
  ghost predicate Meets(publicOf: int -> int, near: Side, remote: Remote) {
    && remote.address == near.address
    && near.privkey.Some? && remote.pubkey == publicOf(near.privkey.value)
    && (remote.endpoint.Some? ==> remote.endpoint == near.endpoint && near.port == Some(remote.endpoint.value.port))
  }

  ghost predicate Linked(publicOf: int -> int, root: CentralConfig, cell: CentralConfig, peer: int) {
    && peer in root.peers && 0 in cell.peers
    && Meets(publicOf, cell.intf, root.peers[peer])
    && Meets(publicOf, root.intf, cell.peers[0])
    && root.peers[peer].psk == cell.peers[0].psk
    && (peer != 0 ==> root.intf.address != cell.intf.address)
  }

  // What the two ends of one cell's link are besides mirroring each other: who dials whom
  // and where, who keeps the connection open, and that no two ends share an address.
  ghost predicate EndsProper(s: RootSettings, rootAddress: Option<string>, addresses: map<int, Option<string>>,
                             cells: set<int>, root: CentralConfig, cell: CentralConfig, peer: int)
    requires root.peers.Keys == cells && peer in cells && 0 in cell.peers
  {
    var address := if peer in addresses then addresses[peer] else None;
    var down, up := root.peers[peer], cell.peers[0];
    && cell.peers.Keys == {0} && down.id == peer && up.id == 0
    && s.base < root.intf.address < ADDRESS_SPACE && cell.intf.address - root.intf.address == peer
    && (forall q :: q in cells && q != peer ==> root.peers[q].address != down.address)
    && (down.endpoint.Some? <==> HasAddress(address))
    && (down.endpoint.Some? ==> down.endpoint.value.host == address.value)
    && (down.endpoint.Some? ==>
          down.endpoint.value.port == if s.peerPort in {None, Some(0)} then s.port else s.peerPort.value)
    && (up.endpoint.Some? <==> !HasAddress(address) && rootAddress.Some?)
    && (up.endpoint.Some? ==> up.endpoint.value.host == rootAddress.value && up.endpoint.value.port == s.port)
    && (down.keepalive == if HasAddress(address) then Some(s.keepalive) else None)
    && (up.keepalive == if HasAddress(address) then None else Some(s.keepalive))
  }

  ghost predicate Full(publicOf: int -> int, keys: RootKeys) {
    && (keys.root.Some? ==> keys.root.value.private.Some? && Matching(publicOf, keys.root.value))
    && forall p :: p in keys.peers ==> keys.peers[p].private.Some? && Matching(publicOf, keys.peers[p])
  }

  // Addresses are stored as NULL or as a non-empty string.
  predicate ProperAddresses(addresses: map<int, Option<string>>) {
    forall p :: p in addresses ==> addresses[p].Some? ==> addresses[p].value != ""
  }

  // The root's entry for a cell and the cell's own configuration agree, and one
  // side can dial the other exactly when the cell or the registry has an address.
  lemma RootLinksMirror(s: RootSettings, rootAddress: Option<string>, addresses: map<int, Option<string>>,
                        cells: set<int>, keys: RootKeys, publicOf: int -> int, peer: int)
    requires RootConfig(s, rootAddress, addresses, cells, keys).Ok? && peer in cells
    requires Full(publicOf, keys) && ProperAddresses(addresses)
    ensures CellConfig(s, rootAddress, addresses, keys, peer).Ok?
    ensures var root := RootConfig(s, rootAddress, addresses, cells, keys).value;
            var cell := CellConfig(s, rootAddress, addresses, keys, peer).value;
            && Linked(publicOf, root, cell, peer)
            && root.peers.Keys == cells && EndsProper(s, rootAddress, addresses, cells, root, cell, peer)
            && (root.peers[peer].endpoint.Some? || cell.peers[0].endpoint.Some? <==>
                HasAddress(AddressOf(addresses, peer)) || rootAddress.Some?)
  {
    assert peer in keys.peers;
  }

  // The root VPN as a CentralizedVpnConfig sees it.
  datatype Central = Central(settings: RootSettings, address: Option<string>, addresses: map<int, Option<string>>,
                             keys: RootKeys)

  // Registry.root_vpn_config for a cell: without a root VPN the result is never assigned.
  function CellRoot(central: Option<Central>, cell: int): (r: Result<CentralConfig>) {
    match central
    case None => Err(UnboundLocal)
    case Some(c) => CellConfig(c.settings, c.address, c.addresses, c.keys, cell)
  }

  // What a cell's database holds of the root VPN: its own key, its preshared key
  // and the public half of the root key.
  function ExportRoot(keys: RootKeys, cell: int): (r: RootKeys) {
    RootKeys(
      if keys.root.Some? then Some(KeyPair(None, keys.root.value.public)) else None,
      map p | p in keys.peers && p == cell :: keys.peers[p],
      map p | p in keys.psks && p == cell :: keys.psks[p])
  }

  function Exported(central: Option<Central>, cell: int): (r: Option<Central>) {
    match central
    case None => None
    case Some(c) => Some(c.(keys := ExportRoot(c.keys, cell)))
  }
}
