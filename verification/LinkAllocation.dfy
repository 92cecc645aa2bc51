// uno/registry/deployment.py: the allocator that hands one /31 block to every
// unordered pair of peers (point-to-point prefixes, section 2.1 of RFC 3021).
module LinkAllocation {
  import opened Prelude
  import opened PairedMap

  const ADDRESS_SPACE: int := 0x1_0000_0000

  function Pow2(k: nat): (r: nat)
    ensures r > 0
    ensures k > 0 ==> r % 2 == 0
  {
    if k == 0 then 1 else 2 * Pow2(k - 1)
  }

  // The low k bits of an address are zero.
  predicate HostBitsClear(ip: int, k: nat)
    decreases k
  {
    k == 0 || (ip % 2 == 0 && HostBitsClear(ip / 2, k - 1))
  }

  // An IPv4 network: base address and prefix length.
  datatype Network = Network(base: int, prefix: int) {
    predicate Valid() {
      && 0 <= prefix <= 32
      && 0 <= base
      && HostBitsClear(base, 32 - prefix)
      && base + Size() <= ADDRESS_SPACE
    }

    function Size(): (r: nat)
      requires prefix <= 32
      ensures r > 0
    {
      Pow2(32 - prefix)
    }

    predicate Contains(ip: int)
      requires prefix <= 32
    {
      base <= ip < base + Size()
    }
  }

  // The /31 around an address.
  function Block31(ip: int): (r: Network) {
    Network(ip - ip % 2, 31)
  }

  // Addresses of the lower and of the higher peer id, and their block.
  datatype Link = Link(addresses: (int, int), net: Network)

  // The state of a P2pLinkAllocationMap as a value.
  datatype Allocation = Allocation(subnet: Network, next: int, links: map<Pair, Link>)

  // Number of links a subnet can serve.
  function Capacity(subnet: Network): (r: nat)
    requires subnet.Valid()
  {
    if subnet.Size() < 4 then 0
    else if subnet.base + subnet.Size() < ADDRESS_SPACE then (subnet.Size() - 2) / 2
    else (subnet.Size() - 4) / 2
  }

  // One would expect (S - 2) / 2 links from a subnet of S addresses.  That holds except
  // where the subnet ends the address space: there the last pair is lost.
  lemma CapacityIsHalfIff(subnet: Network)
    requires subnet.Valid() && subnet.prefix <= 31
    ensures Capacity(subnet) == (subnet.Size() - 2) / 2 <==>
              subnet.prefix == 31 || subnet.base + subnet.Size() < ADDRESS_SPACE
    ensures subnet.prefix <= 30 && subnet.base + subnet.Size() == ADDRESS_SPACE ==>
              Capacity(subnet) == (subnet.Size() - 2) / 2 - 1
  {
    SmallSubnet(subnet);
    SizeIsEven(subnet);
  }

  // 255.255.255.252/30 serves no link, any other /30 serves one.
  lemma LastSlash30(subnet: Network)
    requires subnet.Valid() && subnet.prefix == 30
    ensures Capacity(subnet) == if subnet.base == 0xFFFF_FFFC then 0 else 1
  {
    assert Pow2(2) == 2 * Pow2(1) && Pow2(1) == 2 * Pow2(0);
  }

  ghost predicate LinksInBlocks(al: Allocation)
    requires al.subnet.prefix <= 32
  {
    forall k :: k in al.links ==>
      var l := al.links[k];
      && al.subnet.base + 2 <= l.addresses.0
      && l.addresses.1 == l.addresses.0 + 1
      && l.addresses.1 < al.subnet.base + 2 + 2 * |al.links|
      && l.addresses.0 % 2 == 0
      && l.net == Network(l.addresses.0, 31)
  }

  ghost predicate LinksApart(al: Allocation) {
    forall k, m :: k in al.links && m in al.links && k != m ==>
      al.links[k].addresses.0 != al.links[m].addresses.0
  }

  // What every reachable allocator satisfies.  The counter only stands past its
  // regular position after a request has failed.
  ghost predicate Inv(al: Allocation) {
    && al.subnet.Valid()
    && al.next >= al.subnet.base + 2 + 2 * |al.links|
    && |al.links| <= Capacity(al.subnet)
    && LinksInBlocks(al)
    && LinksApart(al)
    && (al.next != al.subnet.base + 2 + 2 * |al.links| ==> |al.links| == Capacity(al.subnet))
  }

  ghost predicate Regular(al: Allocation) {
    Inv(al) && al.next == al.subnet.base + 2 + 2 * |al.links|
  }

  lemma SizeIsEven(subnet: Network)
    requires subnet.Valid() && subnet.prefix <= 31
    ensures subnet.Size() % 2 == 0 && subnet.base % 2 == 0
  {
  }

  lemma SmallSubnet(subnet: Network)
    requires subnet.Valid()
    ensures subnet.Size() < 4 <==> subnet.prefix >= 31
    ensures subnet.Size() == 1 <==> subnet.prefix == 32
  {
    if subnet.prefix <= 30 {
      assert Pow2(32 - subnet.prefix) == 2 * Pow2(31 - subnet.prefix);
      assert Pow2(31 - subnet.prefix) == 2 * Pow2(30 - subnet.prefix);
    } else if subnet.prefix == 31 {
      assert Pow2(1) == 2;
    }
  }

  // A request for a new pair is served exactly while fewer links than the
  // capacity are taken, and only from a regular position.
  lemma RoomForOneMore(al: Allocation)
    requires Inv(al)
    ensures |al.links| < Capacity(al.subnet) <==>
              al.subnet.Contains(al.next) && al.subnet.Contains(al.next + 1) && al.next + 2 < ADDRESS_SPACE
    ensures |al.links| < Capacity(al.subnet) ==> Regular(al) && al.next % 2 == 0
  {
    SmallSubnet(al.subnet);
    if al.subnet.prefix <= 31 {
      SizeIsEven(al.subnet);
    }
  }

  // Serving a new pair from the next block keeps everything an allocator promises.
  lemma ServedInv(al: Allocation, k: Pair)
    requires Regular(al) && k !in al.links && |al.links| < Capacity(al.subnet)
    ensures var end := Allocation(al.subnet, al.next + 2,
                    al.links[k := Link((al.next, al.next + 1), Network(al.next, 31))]);
            Inv(end) && Regular(end)
  {
    RoomForOneMore(al);
    assert (al.links[k := Link((al.next, al.next + 1), Network(al.next, 31))]).Keys == al.links.Keys + {k};
  }

  // One request against an allocator, as a value: the stored link again, or the
  // next free block while the capacity lasts.
  function Serve(al: Allocation, a: int, b: int): (r: Result<Allocation>)
    requires al.subnet.Valid()
  {
    if PairKey(a, b) in al.links then Ok(al)
    else if |al.links| < Capacity(al.subnet) then
      Ok(Allocation(al.subnet, al.next + 2,
                    al.links[PairKey(a, b) := Link((al.next, al.next + 1), Network(al.next, 31))]))
    else Err(SubnetExhausted)
  }

  // A whole run of requests; the first failure ends it.
  function ServeAll(al: Allocation, requests: seq<(int, int)>): (r: Result<Allocation>)
    requires al.subnet.Valid()
    ensures r.Ok? ==> r.value.subnet == al.subnet
    decreases |requests|
  {
    if requests == [] then Ok(al)
    else
      var r := Serve(al, requests[0].0, requests[0].1);
      if r.Err? then r else ServeAll(r.value, requests[1..])
  }

  function PairsOf(requests: seq<(int, int)>): (r: set<Pair>) {
    set q | q in requests :: PairKey(q.0, q.1)
  }

  lemma PairsOfSplit(requests: seq<(int, int)>)
    ensures requests == [] ==> PairsOf(requests) == {}
    ensures requests != [] ==>
              PairsOf(requests) == {PairKey(requests[0].0, requests[0].1)} + PairsOf(requests[1..])
  {
    if requests != [] {
      assert requests == [requests[0]] + requests[1..];
    }
  }

  function Fresh(subnet: Network): (al: Allocation) {
    Allocation(subnet, subnet.base + 2, map[])
  }

  lemma RegularFits(al: Allocation)
    requires Regular(al)
    ensures Inv(al) && al.subnet.Valid() && |al.links| <= Capacity(al.subnet)
  {
  }

  lemma ServeStep(al: Allocation, a: int, b: int)
    requires al.subnet.Valid() && Regular(al)
    ensures |al.links| <= Capacity(al.subnet)
    ensures Serve(al, a, b).Err? <==> PairKey(a, b) !in al.links && |al.links| == Capacity(al.subnet)
    ensures var r := Serve(al, a, b);
            r.Ok? ==>
              && r.value.subnet == al.subnet && Inv(r.value) && Regular(r.value)
              && r.value.links.Keys == al.links.Keys + {PairKey(a, b)}
    ensures var r := Serve(al, a, b);
            r.Ok? ==> forall k :: k in al.links ==> r.value.links[k] == al.links[k]
  {
    hide Inv, Regular, Capacity, HostBitsClear, Network.Valid;
    RegularFits(al);
    if PairKey(a, b) !in al.links && |al.links| < Capacity(al.subnet) {
      ServedInv(al, PairKey(a, b));
    }
  }

  // Over any run: stored links never change, exactly the requested pairs are
  // added, and the run succeeds exactly when all pairs together fit.
  lemma {:induction false} RunOfRequests(al: Allocation, requests: seq<(int, int)>)
    requires al.subnet.Valid() && Regular(al)
    ensures ServeAll(al, requests).Ok? <==> |al.links.Keys + PairsOf(requests)| <= Capacity(al.subnet)
    ensures ServeAll(al, requests).Ok? ==>
              var end := ServeAll(al, requests).value;
              && Regular(end)
              && end.links.Keys == al.links.Keys + PairsOf(requests)
              && forall k :: k in al.links ==> end.links[k] == al.links[k]
    decreases |requests|
  {
    hide Inv, Regular, Capacity, Serve, PairsOf, PairKey, Network.Valid, HostBitsClear, Pow2;
    if requests == [] {
      ServeStep(al, 0, 0);
      PairsOfSplit(requests);
      assert al.links.Keys + PairsOf(requests) == al.links.Keys;
    } else {
      var k := PairKey(requests[0].0, requests[0].1);
      PairsOfSplit(requests);
      var r := Serve(al, requests[0].0, requests[0].1);
      ServeStep(al, requests[0].0, requests[0].1);
      if r.Err? {
        assert al.links.Keys + {k} <= al.links.Keys + PairsOf(requests);
        SubsetSize(al.links.Keys + {k}, al.links.Keys + PairsOf(requests));
      } else {
        RunOfRequests(r.value, requests[1..]);
        assert al.links.Keys + PairsOf(requests) == r.value.links.Keys + PairsOf(requests[1..]);
      }
    }
  }

  lemma LinkInside(al: Allocation, k: Pair)
    requires Inv(al) && k in al.links
    ensures var l := al.links[k];
            && l.net == Network(l.addresses.0, 31) && l.addresses.1 == l.addresses.0 + 1 && l.addresses.0 % 2 == 0
            && al.subnet.base + 2 <= l.addresses.0 < l.addresses.1 < al.subnet.base + al.subnet.Size() <= ADDRESS_SPACE
  {
    SmallSubnet(al.subnet);
  }

  lemma BlockIsValid(ip: int)
    requires 0 <= ip < ADDRESS_SPACE - 1 && ip % 2 == 0
    ensures Network(ip, 31).Valid() && Network(ip, 31).Size() == 2
  {
    assert Pow2(1) == 2 * Pow2(0);
    assert HostBitsClear(ip, 1) == HostBitsClear(ip / 2, 0);
  }

  lemma BlocksApart(x: int, y: int, ip: int)
    requires x % 2 == 0 && y % 2 == 0 && x != y
    ensures !(Network(x, 31).Contains(ip) && Network(y, 31).Contains(ip))
  {
    assert Pow2(1) == 2 * Pow2(0);
  }

  // In any reachable allocator the blocks of two different pairs share no
  // address, and all addresses lie strictly inside the subnet, above its first two.
  lemma LinksAreDisjoint(al: Allocation, k: Pair, m: Pair)
    requires Inv(al) && k in al.links && m in al.links
    ensures var l := al.links[k];
            && l.net.Valid() && l.net.Contains(l.addresses.0) && l.net.Contains(l.addresses.1)
            && al.subnet.base + 2 <= l.addresses.0 < l.addresses.1 < al.subnet.base + al.subnet.Size()
    ensures k != m ==> forall ip :: !(al.links[k].net.Contains(ip) && al.links[m].net.Contains(ip))
  {
    LinkInside(al, k);
    LinkInside(al, m);
    assert k != m ==> al.links[k].addresses.0 != al.links[m].addresses.0;
    hide LinksInBlocks, LinksApart, Capacity, Pow2, HostBitsClear;
    BlockIsValid(al.links[k].addresses.0);
    hide Network.Valid;
    if k != m {
      forall ip
        ensures !(al.links[k].net.Contains(ip) && al.links[m].net.Contains(ip))
      {
        BlocksApart(al.links[k].addresses.0, al.links[m].addresses.0, ip);
      }
    }
  }

  lemma PairBlock(ip: int)
    ensures ip % 2 == 0 ==> Block31(ip) == Block31(ip + 1) == Network(ip, 31)
  {
  }

  class LinkAllocator {
    const subnet: Network
    var nextIp: int
    var links: map<Pair, Link>

    constructor (subnet: Network)
      requires subnet.Valid()
      requires subnet.base + 2 < ADDRESS_SPACE
      ensures this.subnet == subnet && links == map[] && nextIp == subnet.base + 2
      ensures Regular(View())
    {
      this.subnet := subnet;
      nextIp := subnet.base + 2;
      links := map[];
    }

    // Building the allocator fails when even its first address does not exist.
    static method New(subnet: Network) returns (r: Result<LinkAllocator>)
      requires subnet.Valid()
      ensures r.Ok? <==> subnet.base + 2 < ADDRESS_SPACE
      ensures r.Ok? ==> fresh(r.value) && r.value.View() == Fresh(subnet) && Regular(r.value.View())
      ensures r.Err? ==> Capacity(subnet) == 0 && r.error == AddressOverflow
    {
      SmallSubnet(subnet);
      if subnet.base + 2 >= ADDRESS_SPACE {
        return Err(AddressOverflow);
      }
      var al := new LinkAllocator(subnet);
      return Ok(al);
    }

    ghost function View(): (al: Allocation)
      reads this
    {
      Allocation(subnet, nextIp, links)
    }

    method AllocateIp() returns (r: Result<int>)
      requires subnet.Valid()
      modifies this`nextIp
      ensures r == if !subnet.Contains(old(nextIp)) then Err(SubnetExhausted)
                   else if old(nextIp) + 1 < ADDRESS_SPACE then Ok(old(nextIp))
                   else Err(AddressOverflow)
      ensures nextIp == if r.Ok? then old(nextIp) + 1 else old(nextIp)
    {
      var result := nextIp;
      if !subnet.Contains(result) {
        return Err(SubnetExhausted);
      }
      if nextIp + 1 >= ADDRESS_SPACE {
        return Err(AddressOverflow);
      }
      nextIp := nextIp + 1;
      return Ok(result);
    }

    method GenerateVal() returns (r: Result<Link>)
      requires Inv(View())
      modifies this`nextIp
      ensures r.Ok? <==> |links| < Capacity(subnet)
      ensures r.Ok? ==> Regular(old(View())) && nextIp == old(nextIp) + 2
      ensures r.Ok? ==> r.value == Link((old(nextIp), old(nextIp) + 1), Network(old(nextIp), 31))
      ensures r.Ok? ==> old(nextIp) % 2 == 0
      ensures r.Err? ==> r.error in {SubnetExhausted, AddressOverflow} && Inv(View())
    {
      RoomForOneMore(View());
      PairBlock(nextIp);
      hide Inv, Regular, Capacity, Pow2, HostBitsClear, Network.Valid, Block31;
      var a := AllocateIp();
      if a.Err? {
        return Err(a.error);
      }
      var b := AllocateIp();
      if b.Err? {
        return Err(b.error);
      }
      if a.value % 2 != 0 || Block31(a.value) != Block31(b.value) {
        return Err(Misaligned);
      }
      return Ok(Link((a.value, b.value), Block31(a.value)));
    }

    // Repeated and swapped requests return the stored link.
    method AssertPair(a: int, b: int) returns (r: Result<Link>)
      requires subnet.Valid() && Inv(View())
      modifies this
      ensures Inv(View())
      ensures r.Ok? <==> Serve(old(View()), a, b).Ok?
      ensures r.Ok? ==> View() == Serve(old(View()), a, b).value
      ensures r.Ok? ==> PairKey(a, b) in links && r.value == links[PairKey(a, b)]
      ensures r.Ok? && old(Regular(View())) ==> Regular(View())
      ensures r.Err? ==> links == old(links) && r.error in {SubnetExhausted, AddressOverflow}
    {
      hide Inv, Regular, Capacity, HostBitsClear, Network.Valid;
      var k := PairKey(a, b);
      if k in links {
        return Ok(links[k]);
      }
      r := GenerateVal();
      if r.Ok? {
        ServeStep(old(View()), a, b);
        links := links[k := r.value];
      }
    }
  }
}
