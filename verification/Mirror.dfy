// The two configurations compiled for one link are mirror images.
module Mirror {
  import opened Prelude
  import opened PairedMap
  import opened LinkAllocation
  import opened Plans
  import opened Deploy
  import opened VpnConfig

  // What one side dials and addresses is what the other side is.
  ghost predicate Faces(publicOf: int -> int, ca: WireGuardConfig, cb: WireGuardConfig) {
    && ca.peer.address == cb.intf.address
    && cb.intf.privkey.Some? && ca.peer.pubkey == publicOf(cb.intf.privkey.value)
    && ca.peer.psk == cb.peer.psk
    && ca.intf.netmask == 31
    && Block31(ca.intf.address) == Block31(ca.peer.address) && ca.intf.address != ca.peer.address
    && ca.peer.endpoint == cb.intf.endpoint
    && (ca.peer.endpoint.Some? ==> ca.peer.endpoint.value.port == cb.intf.port)
  }

  ghost predicate Mirrored(publicOf: int -> int, ca: WireGuardConfig, cb: WireGuardConfig) {
    && Faces(publicOf, ca, cb)
    && Faces(publicOf, cb, ca)
    && (ca.peer.endpoint.Some? || cb.peer.endpoint.Some?)
  }

  lemma FacesOf(settings: Settings, dep: LinksMap, links: map<Pair, Link>, addresses: map<int, Option<string>>,
                keys: PairKeys, publicOf: int -> int, a: int, b: int, i: int, j: int)
    requires EndsOf(dep, links, a, b, i, j)
    requires var l := links[PairKey(a, b)];
             l.addresses.0 % 2 == 0 && l.addresses.1 == l.addresses.0 + 1 && l.net == Network(l.addresses.0, 31)
    requires AllMatching(publicOf, keys) && AllPrivate(keys)
    requires PairKey(a, b) in keys.pairs && PairKey(a, b) in keys.psks
    requires a in addresses && b in addresses
    ensures var ra := LinkConfig(settings, dep, addresses, keys, a, b);
            var rb := LinkConfig(settings, dep, addresses, keys, b, a);
            ra.Ok? && rb.Ok? && Faces(publicOf, ra.value, rb.value)
    ensures LinkConfig(settings, dep, addresses, keys, a, b).value.peer.endpoint.Some? <==> HasAddress(addresses[b])
  {
    assert PairKey(a, b) == PairKey(b, a);
    PickAgrees(a, b, links[PairKey(a, b)].addresses);
    PickAgrees(a, b, keys.pairs[PairKey(a, b)]);
    assert keys.pairs[PairKey(a, b)].0.private.Some?;
  }

  // Every deployed link with at least one addressed end compiles, without any
  // failing lookup, to two mirrored configurations.
  lemma LinkMirrors(settings: Settings, dep: LinksMap, links: map<Pair, Link>, addresses: map<int, Option<string>>,
                    keys: PairKeys, publicOf: int -> int, a: int, b: int, i: int, j: int)
    requires EndsOf(dep, links, a, b, i, j)
    requires var l := links[PairKey(a, b)];
             l.addresses.0 % 2 == 0 && l.addresses.1 == l.addresses.0 + 1 && l.net == Network(l.addresses.0, 31)
    requires AllMatching(publicOf, keys) && AllPrivate(keys)
    requires PairKey(a, b) in keys.pairs && PairKey(a, b) in keys.psks
    requires a in addresses && b in addresses && (HasAddress(addresses[a]) || HasAddress(addresses[b]))
    ensures var ra := LinkConfig(settings, dep, addresses, keys, a, b);
            var rb := LinkConfig(settings, dep, addresses, keys, b, a);
            ra.Ok? && rb.Ok? && Mirrored(publicOf, ra.value, rb.value)
  {
    assert PairKey(a, b) == PairKey(b, a);
    FacesOf(settings, dep, links, addresses, keys, publicOf, a, b, i, j);
    FacesOf(settings, dep, links, addresses, keys, publicOf, b, a, j, i);
  }

  // What the configuration of one end is, apart from what it shares with the other end:
  // own is its own address, other that of the cell b at the other end.
  ghost predicate EndProper(settings: Settings, subnet: Network, own: Option<string>, other: Option<string>,
                            b: int, degree: int, c: WireGuardConfig)
    requires subnet.prefix <= 32
  {
    && c.peer.id == b
    && 0 <= c.intf.index < degree
    && c.intf.port == (if HasAddress(own) then settings.port + c.intf.index else 0)
    && c.intf.endpoint == (if HasAddress(own) then Some(Endpoint(own.value, c.intf.port)) else None)
    && (c.peer.endpoint.Some? <==> HasAddress(other))
    && (c.peer.endpoint.Some? ==> c.peer.endpoint.value.host == other.value != "")
    && c.peer.keepalive == (if own.None? then Some(settings.keepalive) else None)
    && subnet.Contains(c.intf.address)
  }

  lemma ConfigProper(settings: Settings, subnet: Network, dep: LinksMap, addresses: map<int, Option<string>>,
                     keys: PairKeys, a: int, b: int, degree: int)
    requires a in dep && b in dep[a].peers && LinkConfig(settings, dep, addresses, keys, a, b).Ok?
    requires 0 <= dep[a].peers[b].index < degree && subnet.prefix <= 32 && subnet.Contains(dep[a].peers[b].local)
    ensures a in addresses && b in addresses
    ensures EndProper(settings, subnet, addresses[a], addresses[b], b, degree,
                      LinkConfig(settings, dep, addresses, keys, a, b).value)
  {
  }

  // Addresses of different cells are different, on the same and on different links.
  lemma CellsShareNoAddress(al: Allocation, a: int, b: int, c: int, d: int)
    requires Inv(al) && PairKey(a, b) in al.links && PairKey(c, d) in al.links
    requires a != c && a != b && c != d
    ensures Pick(a, b, a, al.links[PairKey(a, b)].addresses) != Pick(c, d, c, al.links[PairKey(c, d)].addresses)
  {
    PairKeyIdentifies(a, b, c, d);
    hide Capacity, Network.Valid;
    var k, m := PairKey(a, b), PairKey(c, d);
    assert al.links[k].addresses.0 % 2 == 0 && al.links[m].addresses.0 % 2 == 0;
    if k != m {
      assert al.links[k].addresses.0 != al.links[m].addresses.0;
    }
  }

  // On one cell, two links never share an address or a listening port.
  lemma PortsAreDistinct(rows: seq<Row>, links: map<Pair, Link>, al: Allocation, n: int, b: int, c: int)
    requires Simple(rows) && Inv(al) && al.links == links && LinkPairs(rows) <= links.Keys && 0 <= n < |rows|
    requires b in Values(rows[n].ports) && c in Values(rows[n].ports) && b != c
    ensures var dep := Table(rows, links); var a := rows[n].id;
            && a in dep && b in dep[a].peers && c in dep[a].peers
            && dep[a].peers[b].index != dep[a].peers[c].index
            && dep[a].peers[b].local != dep[a].peers[c].local
  {
    SimpleIsListed(rows, n);
    DeployRefinesPlan(rows, links, n);
    var dep := Table(rows, links);
    var a := rows[n].id;
    assert RowSimple(rows, rows[n]);
    TableAt(rows, links);
    RowPortsAt(a, rows[n].ports, links);
    var i := PortOf(rows[n].ports, b);
    var j := PortOf(rows[n].ports, c);
    hide Table, RowPorts, RowPairs, LinkPairs, Simple, RowSimple, Values;
    AddressesApart(al, a, b, c);
  }

  lemma AddressesApart(al: Allocation, a: int, b: int, c: int)
    requires Inv(al) && PairKey(a, b) in al.links && PairKey(a, c) in al.links && b != c
    ensures Pick(a, b, a, al.links[PairKey(a, b)].addresses) != Pick(a, c, a, al.links[PairKey(a, c)].addresses)
  {
    PairKeyIdentifies(a, b, a, c);
    hide Capacity, Network.Valid;
    assert b in {a, b} && c in {a, c};
    var k, m := PairKey(a, b), PairKey(a, c);
    assert k != m;
    assert al.links[k].addresses.0 != al.links[m].addresses.0;
    assert al.links[k].addresses.0 % 2 == 0 && al.links[m].addresses.0 % 2 == 0;
  }
}
