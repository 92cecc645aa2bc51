// P2pVpnConfig: the deployed backbone is compiled into one WireGuard
// configuration per link end (uno/registry/vpn_config.py), drawing key material
// from P2pVpnKeyMaterial (uno/registry/vpn_keymat.py).
module VpnConfig {
  import opened Prelude
  import opened PairedMap
  import opened LinkAllocation
  import opened Deploy

  // The private half is missing from keys exported with public=True.
  datatype KeyPair = KeyPair(private: Option<int>, public: int)

  // Key pairs and preshared keys by pair of peers.
  datatype PairKeys = PairKeys(pairs: map<Pair, (KeyPair, KeyPair)>, psks: map<Pair, int>)

  datatype Settings = Settings(port: int, keepalive: int)

  datatype Endpoint = Endpoint(host: string, port: int)

  datatype Interface = Interface(
    index: int, port: int, privkey: Option<int>, endpoint: Option<Endpoint>, address: int, netmask: int)

  datatype Remote = Remote(
    id: int, pubkey: int, psk: int, address: int, endpoint: Option<Endpoint>, keepalive: Option<int>)

  datatype WireGuardConfig = WireGuardConfig(intf: Interface, peer: Remote)

  // Truth value of an optional address.
  predicate HasAddress(address: Option<string>) {
    address.Some? && address.value != ""
  }

  // The configuration of a's end of its link to b, or the lookup that fails.
  function LinkConfig(settings: Settings, dep: LinksMap, addresses: map<int, Option<string>>,
                      keys: PairKeys, a: int, b: int): (r: Result<WireGuardConfig>)
    requires a in dep && b in dep[a].peers
  {
    var here := dep[a].peers[b];
    var k := PairKey(a, b);
    if b !in dep || a !in dep[b].peers then Err(MissingKey)
    else if k !in keys.pairs || k !in keys.psks then Err(MissingKeyMaterial)
    else if a !in addresses || b !in addresses then Err(MissingKey)
    else
      var there := dep[b].peers[a];
      Ok(WireGuardConfig(
           Interface(here.index,
                     if HasAddress(addresses[a]) then settings.port + here.index else 0,
                     Pick(a, b, a, keys.pairs[k]).private,
                     if HasAddress(addresses[a]) then Some(Endpoint(addresses[a].value, settings.port + here.index))
                     else None,
                     here.local,
                     here.net.prefix),
           Remote(b,
                  Pick(a, b, b, keys.pairs[k]).public,
                  keys.psks[k],
                  here.remote,
                  if HasAddress(addresses[b]) then Some(Endpoint(addresses[b].value, settings.port + there.index))
                  else None,
                  if addresses[a].Some? then None else Some(settings.keepalive))))
  }

  ghost predicate KeysExtend(more: PairKeys, less: PairKeys) {
    && (forall k :: k in less.pairs ==> k in more.pairs && more.pairs[k] == less.pairs[k])
    && (forall k :: k in less.psks ==> k in more.psks && more.psks[k] == less.psks[k])
  }

  // A key pair whose private half is known derives its public half from it.
  ghost predicate Matching(publicOf: int -> int, key: KeyPair) {
    key.private.Some? ==> key.public == publicOf(key.private.value)
  }

  ghost predicate AllMatching(publicOf: int -> int, keys: PairKeys) {
    forall k :: k in keys.pairs ==> Matching(publicOf, keys.pairs[k].0) && Matching(publicOf, keys.pairs[k].1)
  }

  // The registry holds both halves of every key it generated.
  ghost predicate AllPrivate(keys: PairKeys) {
    forall k :: k in keys.pairs ==> keys.pairs[k].0.private.Some? && keys.pairs[k].1.private.Some?
  }

  function HalfAt(keys: PairKeys, k: Pair, second: bool): (r: KeyPair)
    requires k in keys.pairs
  {
    if second then keys.pairs[k].1 else keys.pairs[k].0
  }

  // No secret is used twice, and all were drawn; the key tables refuse a row whose
  // private key or preshared key is stored already.
  ghost predicate Unreused(keys: PairKeys, drawn: set<int>) {
    && (forall k, i :: k in keys.pairs && HalfAt(keys, k, i).private.Some? ==>
          HalfAt(keys, k, i).private.value in drawn)
    && (forall k, m, i, j ::
          k in keys.pairs && m in keys.pairs && (k, i) != (m, j) && HalfAt(keys, k, i).private.Some? ==>
          HalfAt(keys, k, i).private != HalfAt(keys, m, j).private)
    && (forall k :: k in keys.psks ==> keys.psks[k] in drawn)
    && (forall k, m :: k in keys.psks && m in keys.psks && k != m ==> keys.psks[k] != keys.psks[m])
  }

  class P2pKeyMaterial {
    const readonly: bool
    const publicOf: int -> int
    var pairs: map<Pair, (KeyPair, KeyPair)>
    var psks: map<Pair, int>
    var drawn: set<int>          // every secret generated so far

    constructor (readonly: bool, publicOf: int -> int, keys: PairKeys, drawn: set<int>)
      requires AllMatching(publicOf, keys) && (!readonly ==> AllPrivate(keys) && Unreused(keys, drawn))
      ensures this.readonly == readonly && this.publicOf == publicOf && View() == keys && this.drawn == drawn && Valid()
    {
      this.readonly, this.publicOf := readonly, publicOf;
      pairs, psks, this.drawn := keys.pairs, keys.psks, drawn;
    }

    ghost function View(): (keys: PairKeys)
      reads this
    {
      PairKeys(pairs, psks)
    }

    ghost predicate Valid()
      reads this
    {
      AllMatching(publicOf, View()) && (!readonly ==> AllPrivate(View()) && Unreused(View(), drawn))
    }

    // wg genkey and wg pubkey: any private key not drawn before, with its public key.
    method GenerateKeyPair() returns (key: KeyPair)
      modifies this`drawn
      ensures key.private.Some? && Matching(publicOf, key)
      ensures key.private.value !in old(drawn) && drawn == old(drawn) + {key.private.value}
    {
      var private := DrawUnused(drawn);
      drawn := drawn + {private};
      key := KeyPair(Some(private), publicOf(private));
    }

    // Finds the material of a link, generating what is missing unless the
    // registry is read-only.
    method AssertPair(a: int, b: int) returns (r: Result<()>)
      requires Valid()
      modifies this`pairs, this`psks, this`drawn
      ensures Valid() && KeysExtend(View(), old(View()))
      ensures r.Ok? <==> PairKey(a, b) in pairs && PairKey(a, b) in psks
      ensures r.Err? ==> readonly && r.error == MissingKeyMaterial
      ensures readonly ==> View() == old(View())
      ensures pairs.Keys <= old(pairs).Keys + {PairKey(a, b)} && psks.Keys <= old(psks).Keys + {PairKey(a, b)}
    {
      var k := PairKey(a, b);
      if readonly {
        if k in pairs && k in psks {
          return Ok(());
        }
        return Err(MissingKeyMaterial);
      }
      if k !in pairs {
        ghost var keys, before := View(), drawn;
        var first := GenerateKeyPair();
        var second := GenerateKeyPair();
        pairs := pairs[k := (first, second)];
        PairAdded(publicOf, keys, before, k, first, second);
      }
      if k !in psks {
        ghost var keys := View();
        var psk := DrawUnused(drawn);
        PskAdded(publicOf, keys, drawn, k, psk);
        drawn := drawn + {psk};
        psks := psks[k := psk];
      }
      return Ok(());
    }
  }

  lemma PairAdded(publicOf: int -> int, keys: PairKeys, drawn: set<int>, k: Pair, first: KeyPair, second: KeyPair)
    requires AllMatching(publicOf, keys) && AllPrivate(keys) && Unreused(keys, drawn) && k !in keys.pairs
    requires first.private.Some? && second.private.Some? && first.private != second.private
    requires first.private.value !in drawn && second.private.value !in drawn
    requires Matching(publicOf, first) && Matching(publicOf, second)
    ensures var more := PairKeys(keys.pairs[k := (first, second)], keys.psks);
            && AllMatching(publicOf, more) && AllPrivate(more)
            && Unreused(more, drawn + {first.private.value} + {second.private.value})
            && KeysExtend(more, keys)
  {
    var more := PairKeys(keys.pairs[k := (first, second)], keys.psks);
    forall m, i | m in more.pairs && m != k
      ensures m in keys.pairs && HalfAt(more, m, i) == HalfAt(keys, m, i)
    {
    }
  }

  lemma PskAdded(publicOf: int -> int, keys: PairKeys, drawn: set<int>, k: Pair, psk: int)
    requires AllMatching(publicOf, keys) && AllPrivate(keys) && Unreused(keys, drawn)
    requires k !in keys.psks && psk !in drawn
    ensures var more := PairKeys(keys.pairs, keys.psks[k := psk]);
            && AllMatching(publicOf, more) && AllPrivate(more) && Unreused(more, drawn + {psk})
            && KeysExtend(more, keys)
  {
    var more := PairKeys(keys.pairs, keys.psks[k := psk]);
    forall m, i | m in more.pairs
      ensures HalfAt(more, m, i) == HalfAt(keys, m, i)
    {
    }
  }

  lemma ConfigStable(settings: Settings, dep: LinksMap, addresses: map<int, Option<string>>,
                     less: PairKeys, more: PairKeys, a: int, b: int)
    requires a in dep && b in dep[a].peers && KeysExtend(more, less)
    requires LinkConfig(settings, dep, addresses, less, a, b).Ok?
    ensures LinkConfig(settings, dep, addresses, more, a, b) == LinkConfig(settings, dep, addresses, less, a, b)
  {
    assert PairKey(a, b) in less.pairs && PairKey(a, b) in less.psks;
  }

  lemma KeysExtendChain(c: PairKeys, b: PairKeys, a: PairKeys)
    ensures KeysExtend(a, a)
    ensures KeysExtend(c, b) && KeysExtend(b, a) ==> KeysExtend(c, a)
  {
  }

  class P2pVpnConfig {
    const settings: Settings
    const deployment: LinksMap
    const addresses: map<int, Option<string>>
    const keymat: P2pKeyMaterial

    constructor (settings: Settings, deployment: LinksMap, addresses: map<int, Option<string>>, keymat: P2pKeyMaterial)
      ensures this.settings == settings && this.deployment == deployment
      ensures this.addresses == addresses && this.keymat == keymat
    {
      this.settings, this.deployment, this.addresses, this.keymat := settings, deployment, addresses, keymat;
    }

    // No unguarded lookup of peer_config() can fail for this peer.
    ghost predicate Resolvable(peer: int) {
      peer in deployment ==>
        peer in addresses &&
        forall b :: b in deployment[peer].peers ==>
          b in deployment && peer in deployment[b].peers && b in addresses
    }

    // The key material of all links of this peer is at hand.
    ghost predicate HasMaterial(peer: int)
      reads keymat
    {
      peer in deployment ==>
        forall b :: b in deployment[peer].peers ==> PairKey(peer, b) in keymat.pairs && PairKey(peer, b) in keymat.psks
    }

    // One configuration per link of the peer; an undeployed peer has none.
    method PeerConfig(peer: int) returns (r: Result<map<int, WireGuardConfig>>)
      requires keymat.Valid()
      modifies keymat`pairs, keymat`psks, keymat`drawn
      ensures keymat.Valid() && KeysExtend(keymat.View(), old(keymat.View()))
      ensures keymat.readonly ==> keymat.View() == old(keymat.View())
      ensures r.Ok? ==> r.value.Keys == if peer in deployment then deployment[peer].peers.Keys else {}
      ensures r.Ok? ==> forall b :: b in r.value ==>
                LinkConfig(settings, deployment, addresses, keymat.View(), peer, b) == Ok(r.value[b])
      ensures Resolvable(peer) && (!keymat.readonly || old(HasMaterial(peer))) ==> r.Ok?
      ensures Resolvable(peer) && r.Err? ==> r.error == MissingKeyMaterial
    {
      hide AllMatching, AllPrivate, Unreused, LinkConfig, PairKey, KeysExtend;
      KeysExtendChain(keymat.View(), keymat.View(), keymat.View());
      if peer !in deployment {
        return Ok(map[]);
      }
      var links := deployment[peer].peers;
      var rest := links.Keys;
      var configs: map<int, WireGuardConfig> := map[];
      while rest != {}
        invariant rest <= links.Keys && configs.Keys == links.Keys - rest
        invariant keymat.Valid() && KeysExtend(keymat.View(), old(keymat.View()))
        invariant keymat.readonly ==> keymat.View() == old(keymat.View())
        invariant forall b :: b in configs ==>
                    LinkConfig(settings, deployment, addresses, keymat.View(), peer, b) == Ok(configs[b])
        decreases rest
      {
        var b := PickRandom(rest);
        if b !in deployment || peer !in deployment[b].peers {
          return Err(MissingKey);
        }
        ghost var before := keymat.View();
        var material := keymat.AssertPair(peer, b);
        KeysExtendChain(keymat.View(), before, old(keymat.View()));
        forall c | c in configs
          ensures LinkConfig(settings, deployment, addresses, keymat.View(), peer, c) == Ok(configs[c])
        {
          ConfigStable(settings, deployment, addresses, before, keymat.View(), peer, c);
        }
        if material.Err? {
          return Err(material.error);
        }
        if peer !in addresses || b !in addresses {
          return Err(MissingKey);
        }
        Resolved(settings, deployment, addresses, PairKeys(keymat.pairs, keymat.psks), peer, b);
        var config := LinkConfig(settings, deployment, addresses, PairKeys(keymat.pairs, keymat.psks), peer, b);
        configs := configs[b := config.value];
        rest := rest - {b};
      }
      return Ok(configs);
    }
  }

  lemma Resolved(settings: Settings, dep: LinksMap, addresses: map<int, Option<string>>,
                 keys: PairKeys, a: int, b: int)
    requires a in dep && b in dep[a].peers && b in dep && a in dep[b].peers
    requires PairKey(a, b) in keys.pairs && PairKey(a, b) in keys.psks && a in addresses && b in addresses
    ensures LinkConfig(settings, dep, addresses, keys, a, b).Ok?
  {
  }
}
