# uno: a verified model of the backbone, its keys and its agents

`uno` links the cells of a "UVN" through WireGuard tunnels. A registry turns the
cells and their public addresses into a *backbone*: a deployment strategy chooses
the links, every link gets a /31 block and a port at either end, and the result is
compiled into one WireGuard configuration per link end. The registry also keeps a
star-shaped root VPN to every cell, which can be rekeyed while the cells still use
their old keys. Agents track each other's status, wake worker threads, and install
and remove firewall rules.

The project follows that pipeline. Values (networks, plans, graphs, tables,
configurations) are datatypes and functions; what the program updates in place
(allocator, random graph builder, key material, registry, peers list, sync loop,
firewall) are classes and loops proved against those functions. Shuffles, samples,
set iteration order, generated keys and the order of middleware events are
arbitrary, so every statement holds for all of them.

The main results:

- **Backbone, end to end** (`Pipeline.BackboneConfigs`): for the crossed, circular,
  full-mesh and random strategies, from the cells' addresses to the configurations
  of all link ends, no lookup fails, only too small a subnet or a random graph that is
  not found can stop it, with the exact counts of cells that fit; the configurations are exactly the links of one
  graph, the two of every link mirror each other, and no two links of a cell share an
  interface or an address. The crossed, circular and full-mesh graphs are connected;
  crossed and circular ones have the documented shape and survive the loss of any
  public link or public cell.
- **Random graphs** (`Strategies.RandomConnectsIff`): whatever is drawn, every normal
  return of the random strategy connects all cells if and only if not
  3 <= public <= private <= public + 1. Both directions are about whole runs of the
  search (`RandomRuns.Run`), which `RandomGraph.Builder.GenerateEdges` refines.
- **Allocator** (`LinkAllocation.RunOfRequests`, `LinksAreDisjoint`): which runs of
  requests succeed, and why no address is ever given out twice.
- **Rekeying** (`Rekey.RunKeepsView`, `KeyMaterial.RootRegistry.Rekey`,
  `Sync.SyncAgent.Spin`): over any run of rekey commands the view that prefers dropped
  keys does not change, every replaced key is gone for good afterwards, and a sync run only
  discards the dropped keys when every cell
  was online at once, the new configurations were published, and exactly the rekeyed
  cells have gone offline.
- **Agents** (`KeyExport.AgentConfigs`, `Peers.PeersList.UpdateAll`,
  `KeyExport.AgentHoldsOnlyItsOwn`, `Trigger.NothingIsLost`, `Clashes.Validate`).
- **Firewall** (`Filtering.StartedRoutes`, `Iptables.InstallThenUndo`): what a started agent
  forwards, drops and masquerades, for every packet; and stopping restores every chain.

Where the code does something other than one would expect, the model follows the
code:

- Advancing the allocator past 255.255.255.255 raises before the address is returned,
  so a subnet that ends there serves one link less than (S - 2) / 2, and an allocator
  for a /31 or /32 at the very end cannot be built (`LinkAllocation.CapacityIsHalfIff`,
  `LinkAllocation.LastSlash30`, `LinkAllocator.New`).
- A second UVN-wide rekey before the first was synchronised needs a second dropped
  root key. The key tables allow one row per key id and dropped flag
  (uno/data/database/initialize_registry.sql:139), so the command fails and its
  transaction is rolled back. With that, the rekeying theorem also covers the root key.
- A worker that times out and clears the flag before the release of the same trigger
  arrives leaves a stray permit, and the bounded semaphore can then be released once
  too often (`Trigger.OverReleaseHappens`). `Trigger.FirstTheftIsExact` says that this
  step is exactly what makes it possible.
- With three or more public cells and as many private cells, or one more, a random
  graph whose tries are used up can leave a private cell without links: stuck walks
  fill one public cell, and every later walk starts with the edge that this cell
  refuses (`Isolation.IsolationHappens`, for every such count and any number of tries
  from the degree cap on).
- The chains of the interfaces are tried in the order of installation, and each drops what
  enters its interface from an unknown subnet. So a packet of an established connection
  is only let out by an interface that comes before the one it entered by, or is the same
  (`Filtering.LetOut`).
- With the root VPN disabled, asking for a cell's root VPN configuration reads a variable
  that was never assigned (uno/registry/registry.py:311-322), so it fails
  (`RootVpn.CellRoot`).
- The branch of the random strategy that reports failure uses a logger the graph
  object does not have, so the exception raised is another one; either way the
  generation fails.

## Model

| member | source | states |
|---|---|---|
| PairedMap.PairKeyIdentifies | uno/core/paired_map.py:20-25 | two requests meet in one slot if and only if they name the same two peers |
| PairedMap.PickAgrees | uno/core/paired_map.py:57-61 | both ends pick the same component for the same peer, and the two peers pick the two components |
| LinkAllocation.LinkAllocator.New | uno/registry/deployment.py:23-25 | building an allocator fails only where no link could be served |
| LinkAllocation.LinkAllocator.AllocateIp | uno/registry/deployment.py:27-32 | the next address, or which of the two failures, and the new position |
| LinkAllocation.LinkAllocator.GenerateVal | uno/registry/deployment.py:34-45 | succeeds if and only if fewer links than the capacity exist; the block is aligned, so the misalignment error is never raised |
| LinkAllocation.LinkAllocator.AssertPair | uno/core/paired_map.py:30-42 | refines `Serve`; repeated and swapped requests return the stored link; a failure leaves all links |
| LinkAllocation.RoomForOneMore | uno/registry/deployment.py:27-45 | the tests on the position are equivalent to comparing the number of links with the capacity |
| LinkAllocation.CapacityIsHalfIff | uno/registry/deployment.py:27-32 | a subnet of S addresses serves (S - 2) / 2 links if and only if it does not end the address space; there it serves one less |
| LinkAllocation.LastSlash30 | uno/registry/deployment.py:27-32 | 255.255.255.252/30 serves no link, every other /30 one |
| LinkAllocation.RunOfRequests | uno/registry/deployment.py:22-45 | over any run: stored links never change, exactly the requested pairs are added, and the run succeeds if and only if all pairs fit |
| LinkAllocation.LinksAreDisjoint | uno/registry/deployment.py:34-45 | all addresses lie inside the subnet in valid /31 blocks, and blocks of different pairs share no address |
| Ring.PeersAreSimple | uno/registry/deployment_strategy/crossed_deployment_strategy.py:28-83 | a ring peer's neighbours are in range, distinct and never itself |
| Ring.PeersAreLinked | uno/registry/deployment_strategy/crossed_deployment_strategy.py:28-83 | the port functions compute exactly the ring edges plus, from four peers on, the links between opposite peers |
| Ring.PeersAreSymmetric | uno/registry/deployment_strategy/circular_deployment_strategy.py:28-53 | the neighbour relation of both shapes is symmetric |
| Ring.Degrees | uno/registry/deployment_strategy/crossed_deployment_strategy.py:61-70 | the documented degrees, counted as sets of neighbours |
| Ring.LinkCount | uno/registry/deployment_strategy/crossed_deployment_strategy.py:52-83 | n + n / 2 undirected links for a crossed ring of n >= 4, n for a circular one, 1 for two peers |
| Plans.IndexOf | uno/registry/deployment_strategy/static_deployment_strategy.py:57-60 | the first position of an id, or none exactly if it is unknown |
| Plans.StaticRow | uno/registry/deployment_strategy/static_deployment_strategy.py:37-65 | the neighbour functions give back the adjacency list, unknown ids left out |
| Plans.StaticIsSimple | uno/registry/deployment_strategy/static_deployment_strategy.py:30-65 | a mutual adjacency list becomes a plan without unknown, repeated or one-sided links |
| Plans.RingIsSimple | uno/registry/deployment_strategy/crossed_deployment_strategy.py:52-83 | so does a ring over distinct ids |
| Deploy.DeployPeer | uno/registry/deployment_strategy/deployment_strategy.py:114-126 | the inner dictionary of one peer over the final allocation; fails only if its links do not fit |
| Deploy.DeployRows | uno/registry/deployment_strategy/deployment_strategy.py:111-130 | succeeds if and only if all links of the plan fit, and asks the allocator for exactly those |
| Deploy.TableStable | uno/registry/deployment_strategy/deployment_strategy.py:111-129 | entries written early do not change when later links are allocated |
| Deploy.DeployedEnds | uno/registry/deployment_strategy/deployment_strategy.py:111-129 | both ends of a link exist and carry the two addresses of one stored link |
| Deploy.DeployRefinesPlan | uno/registry/deployment_strategy/deployment_strategy.py:111-129 | same peers, same neighbours, port indices exactly 0..degree-1 in plan order |
| Deploy.DeployRefinesAdjacency | uno/registry/deployment_strategy/static_deployment_strategy.py:37-65 | an adjacency list with distinct ids and known, unrepeated neighbours comes out as the link sets and port indices of the deployment |
| Partition.PartitionSizes | uno/registry/deployment_strategy/crossed_deployment_strategy.py:101-117 | both branches compute the even shares |
| Partition.SharesAreEven | uno/registry/deployment_strategy/crossed_deployment_strategy.py:101-117 | shares differ by at most one |
| Partition.StartTotal | uno/registry/deployment_strategy/crossed_deployment_strategy.py:101-117 | shares add up to the number of private peers |
| Partition.Owner | uno/registry/deployment_strategy/crossed_deployment_strategy.py:140-148 | every private peer falls into the slice of exactly one public peer |
| CrossedStrategy.PublicPorts | uno/registry/deployment_strategy/crossed_deployment_strategy.py:125-138 | the loop over port functions collects the ring neighbours |
| CrossedStrategy.AttachShare | uno/registry/deployment_strategy/crossed_deployment_strategy.py:140-146 | one slice of private peers is linked both ways, everything else stays |
| CrossedStrategy.AssignPorts | uno/registry/deployment_strategy/crossed_deployment_strategy.py:119-150 | the loops build the documented graph for any order of the peers |
| Backbone.PrivateEdge | uno/registry/deployment_strategy/crossed_deployment_strategy.py:140-148 | each private peer has exactly one link, to the public peer that owns it |
| Backbone.BuiltIsMutual | uno/registry/deployment_strategy/crossed_deployment_strategy.py:119-150 | links are mutual, loop-free and never between two private peers |
| Backbone.BuiltDegrees | uno/registry/deployment_strategy/crossed_deployment_strategy.py:119-150 | degree of a private peer is one, of a public peer its ring degree plus its share |
| Backbone.BuiltLinkCount | uno/registry/deployment_strategy/crossed_deployment_strategy.py:85-151 | number of undirected links: the ring's plus one per private peer |
| Backbone.AllConnected | uno/registry/deployment_strategy/crossed_deployment_strategy.py:85-151 | one public cell suffices to connect all cells |
| Backbone.SurvivesLinkLoss | README.md:364-372 | with three public cells, any public link can fail without splitting the public cells |
| Backbone.SurvivesCellLoss | README.md:364-372 | with three public cells, any public cell can fail without splitting the others |
| Backbone.RingPresents | uno/registry/deployment_strategy/crossed_deployment_strategy.py:88-93 | the ring handed over directly presents the same graph as the loops would |
| RandomRuns.ThresholdsAreOrdered | uno/registry/deployment_strategy/random_deployment_strategy.py:176-203 | the threshold checks never raise, and two links always fit on a peer |
| RandomRuns.StoredWhole | uno/registry/deployment_strategy/random_deployment_strategy.py:64-70 | storing a trail keeps the graph mutual, loop-free, capped and free of private pairs, removes nothing, and touches no other peer |
| RandomRuns.FirstTrailIsLine | uno/registry/deployment_strategy/random_deployment_strategy.py:66-70 | the degree cap never refuses an edge of the first trail that is stored |
| RandomRuns.RoomyTrailIsLine | uno/registry/deployment_strategy/random_deployment_strategy.py:66-70 | nor of any trail if it leaves room for links to all other peers |
| RandomRuns.StuckTrail | uno/registry/deployment_strategy/random_deployment_strategy.py:93-99 | a walk only gets stuck at a private peer, after all public ones |
| RandomRuns.CompleteNeedsPublic | uno/registry/deployment_strategy/random_deployment_strategy.py:93-99 | a complete walk needs all but one private peer to be matched by a public one |
| RandomRuns.TryKeeps | uno/registry/deployment_strategy/random_deployment_strategy.py:115-135 | one try keeps the graph sound and growing; if it stores its trail, all public peers reach each other afterwards |
| RandomRuns.JoinedConnects | uno/registry/deployment_strategy/random_deployment_strategy.py:113-167 | then the graph is connected if and only if no peer is isolated |
| RandomRuns.LastIsComplete | uno/registry/deployment_strategy/random_deployment_strategy.py:115-140 | tries are only used up after a complete trail, so not with two private peers more than public ones |
| RandomRuns.RunConnects | uno/registry/deployment_strategy/random_deployment_strategy.py:113-167 | every run that returns normally: connected if and only if no peer is isolated; connected after an early stop and wherever complete trails are unneeded, impossible or never cut |
| RandomGraph.Builder.UpdatePeerStatus | uno/registry/deployment_strategy/random_deployment_strategy.py:50-62 | restores the exact degree classes after one peer gained a link |
| RandomGraph.Builder.StoreEdge | uno/registry/deployment_strategy/random_deployment_strategy.py:49-70 | refines `Stored` and keeps full, ok and min exactly the degree classes |
| RandomGraph.Builder.GenerateSpanningTree | uno/registry/deployment_strategy/random_deployment_strategy.py:72-111 | draws one of the complete or stuck trails, with its edges |
| RandomGraph.Builder.StoreTree | uno/registry/deployment_strategy/random_deployment_strategy.py:118-119 | the fold of storing the trail's edges |
| RandomGraph.Builder.EnoughCounted | uno/registry/deployment_strategy/random_deployment_strategy.py:121-123 | the size test holds if and only if every peer has at least ok links |
| RandomGraph.Builder.MinimalCounted | uno/registry/deployment_strategy/random_deployment_strategy.py:126-127 | the size test holds if and only if every peer has at least min links |
| RandomGraph.Builder.GenerateEdges | uno/registry/deployment_strategy/random_deployment_strategy.py:113-167 | the search is a run of `RandomRuns.Run` with exactly its result and graph, with the degrees and the connectivity that runs guarantee |
| Isolation.IsolationHappens | uno/registry/deployment_strategy/random_deployment_strategy.py:113-167 | for all counts at risk, a whole run that draws possible trails, meets no early stop, returns normally and leaves a disconnected graph |
| Isolation.SmallestCase | uno/registry/deployment_strategy/random_deployment_strategy.py:113-167 | such a run for three public and three private cells and three tries |
| Isolation.ConnectsIff | uno/registry/deployment_strategy/random_deployment_strategy.py:173-212 | with the strategy's thresholds and at least four tries, all normal returns are connected if and only if the counts are not at risk |
| Isolation.CanFailIff | uno/registry/deployment_strategy/random_deployment_strategy.py:137-162 | some run fails to find a graph if and only if there are at least two private cells |
| Isolation.DrawnDegrees | uno/registry/deployment_strategy/random_deployment_strategy.py:176-203 | the degrees that the strategy's thresholds guarantee at both early stops, and the cap |
| FullMesh.MeshIsMutual | uno/registry/deployment_strategy/fullmesh_deployment_strategy.py:25-41 | the mesh is mutual, loop-free and without private pairs |
| FullMesh.MeshIsConnected | uno/registry/deployment_strategy/fullmesh_deployment_strategy.py:25-41 | one public cell connects the mesh |
| FullMesh.MeshLinks | uno/registry/deployment_strategy/fullmesh_deployment_strategy.py:28-37 | its links are all pairs minus the private pairs, counted |
| FullMesh.MeshFitsDefault | uno/registry/vpn_settings.py:97-97 | an all-public mesh fits in the default /20 if and only if it has at most 64 cells |
| Strategies.ListGraph | uno/registry/deployment_strategy/random_deployment_strategy.py:214-214 | the adjacency tuple lists every peer once with its neighbours, in any order |
| Strategies.CrossedPlan | uno/registry/deployment_strategy/crossed_deployment_strategy.py:85-151 | any shuffle gives a plan of the documented, connected graph |
| Strategies.MeshPlan | uno/registry/deployment_strategy/fullmesh_deployment_strategy.py:25-41 | a plan of exactly the mesh |
| Strategies.RandomConnectsIff | uno/registry/deployment_strategy/random_deployment_strategy.py:173-215 | the exact counts for which every graph the strategy can return connects all cells |
| Strategies.RandomPlan | uno/registry/deployment_strategy/random_deployment_strategy.py:173-215 | a plan of a sound graph that some run returns, connected unless the counts are at risk; fails only with two or more private cells |
| Strategies.GeneratePlan | uno/registry/deployment_strategy/deployment_strategy.py:108-110 | the guarantees of all strategies behind one dispatch; only the random one can fail |
| Strategies.PromisedLinks | uno/registry/deployment_strategy/deployment_strategy.py:111-129 | the number of links of a crossed, circular or full-mesh deployment is known from the counts of cells |
| Strategies.DeployStrategy | uno/registry/deployment_strategy/deployment_strategy.py:95-131 | empty without public peers; otherwise the table of the promised graph; succeeds if and only if the links fit, by the counts alone unless random; a random failure is a search that can fail or a drawn graph with too many links |
| Strategies.RingBackboneGuarantees | README.md:364-372 | the documented shape: links between public cells, one public neighbour per private cell, an even division of the private cells, the number of links, and survival of single failures |
| VpnConfig.P2pKeyMaterial.AssertPair | uno/registry/vpn_keymat.py:659-686 | generates what is missing, never replaces a key and never uses a secret twice; a read-only registry changes nothing and fails only on missing material |
| VpnConfig.ConfigStable | uno/registry/vpn_config.py:204-252 | configurations stay valid while further keys are generated |
| VpnConfig.P2pVpnConfig.PeerConfig | uno/registry/vpn_config.py:204-252 | one configuration per link end; succeeds on every symmetric deployment whose keys exist or can be generated |
| Mirror.LinkMirrors | uno/registry/vpn_config.py:211-252 | the two configurations of a link agree on addresses, keys, preshared key, endpoints and ports, and one end can dial |
| Mirror.PortsAreDistinct | uno/registry/vpn_config.py:213-219 | links of one cell share neither address nor port index |
| Mirror.ConfigProper | uno/registry/vpn_config.py:211-240 | an end is configured from the two cells' own addresses: id, interface, listening port, own and dialled host, keepalive, address in the subnet |
| Pipeline.ConfigureAll | uno/registry/vpn_config.py:199-202 | all cells' configurations over one final key table, without a failing lookup |
| Pipeline.MirrorsAll | uno/registry/vpn_config.py:204-252 | configurations exist for exactly the links of the graph and mirror each other |
| Pipeline.EndsProperAll | uno/registry/vpn_config.py:211-240 | so are all ends of a deployment, with interfaces 0..degree-1 and the listening port that belongs to them |
| Pipeline.EndsApartAll | uno/registry/vpn_config.py:211-240 | no two ends anywhere share an address or a private key, only the two of a link a preshared key, and no two of a cell an interface or, if it listens, a port |
| Pipeline.Redeploy | uno/registry/registry.py:800-818 | the deployed table of the promised graph; succeeds if and only if the subnet has room for the counts of cells, a random one also fails if no graph is found |
| Pipeline.BackboneConfigs | uno/registry/vpn_config.py:332-354 | the whole pipeline: fails only where the deployment does, by the same exact condition; otherwise, as soon as one cell has an address, properly configured, mirrored and non-clashing ends for exactly the links of the promised graph over all cells |
| Pipeline.DefaultMesh | uno/registry/vpn_settings.py:97-97 | the default subnet has room for a full mesh of public cells if and only if there are at most 64 |
| Pipeline.DefaultRings | uno/registry/vpn_settings.py:97-97 | and for a crossed ring up to 1365, a circular one up to 2047 public cells |
| Mirror.CellsShareNoAddress | uno/registry/deployment.py:27-45 | backbone addresses of different cells differ |
| Discovery.DiscoveryComplete | uno/middleware/participant.py:83-96 | initial peers hold an address of every linked cell, every neighbour's end of the shared link and the root's address, and only first-port or shared-link addresses of other cells; no own address, unless the root VPN uses one |
| Discovery.SortedPeersAreRow | uno/registry/uvn.py:310-323 | sorted by port, the i-th peer is the one at port i, so enumerating gives the port index |
| Discovery.AgentPorts | uno/registry/uvn.py:325-334 | exactly the ports of the enabled VPNs and one per cell from the backbone port on |
| Discovery.ListenPortsAreOpen | uno/registry/uvn.py:325-334 | every backbone listen port is an agent port |
| Discovery.CompiledPortsAreOpen | uno/registry/uvn.py:325-334 | every port that a compiled configuration listens on or dials is an agent port |
| KeyExport.LoadInAnyOrder | uno/registry/vpn_keymat.py:301-306 | whatever the row order, inserting by position rebuilds the keys of each pair |
| KeyExport.LoadedPair | uno/registry/vpn_keymat.py:78-108 | an agent holds both keys of each of its links as exported |
| KeyExport.AgentRebuildsBackbone | uno/registry/registry.py:1052-1103 | with the exported rows alone, a link compiles to the registry's configuration |
| KeyExport.AgentConfigs | uno/agent/agent.py:418-444 | on the agent no key material is missing, and its root and backbone configurations equal the registry's |
| KeyExport.AgentHoldsOnlyItsOwn | uno/registry/registry.py:1052-1103 | everything an agent holds: keys of exactly its own links without the other side's private keys, its own root VPN key and preshared key, and the public half of the root key |
| RootVpn.RootLinksMirror | uno/registry/vpn_config.py:94-168 | where no root VPN address overflows, the root's entry and the cell's configuration agree, all addresses differ, and who dials whom, where, and who sends keepalives follows from the two addresses |
| Rekey.StepKeepsView | uno/registry/registry.py:938-1045 | one rekey command keeps the tables consistent and the prefer-dropped view unchanged |
| Rekey.StepKeepsProper | uno/registry/vpn_keymat.py:468-482 | one command keeps every key of its kind, complete, and stored only once |
| Rekey.RunKeepsView | uno/registry/registry.py:932-1045 | so does every run of commands |
| Rekey.RekeyedRootServesOldCells | uno/registry/vpn_config.py:303-308 | during any such run the registry's rekeyed root configuration still matches what the cells had before |
| Rekey.ReplacedIsRetired | uno/registry/registry.py:1032-1040 | an accepted command takes the old key of every target out of use, for one never issued before |
| Rekey.RetiredForGood | uno/registry/registry.py:932-1045 | a key out of use never comes back, whatever is rekeyed or synchronised later |
| Rekey.NewKeysServe | uno/registry/registry.py:456-459 | once the old generation is dropped, the registry's root configuration matches every cell's new one |
| KeyMaterial.RootKeyMaterial.DropKey | uno/registry/vpn_keymat.py:458-466 | the key leaves memory and is marked dropped or deleted |
| KeyMaterial.RootKeyMaterial.PurgeGonePeers | uno/registry/vpn_keymat.py:484-511 | releases exactly the peer and preshared keys of peers not kept |
| KeyMaterial.RootKeyMaterial.DropKeys | uno/registry/vpn_keymat.py:513-556 | releases every key |
| KeyMaterial.RootKeyMaterial.Save | uno/registry/vpn_keymat.py:443-452 | moves dropped rows, removes deleted ones; refused if and only if a dropped row exists already |
| KeyMaterial.RootKeyMaterial.AssertKeys | uno/registry/vpn_keymat.py:468-482 | afterwards every needed key exists; those that existed are untouched, the others are of their kind and new |
| KeyMaterial.RootKeyMaterial.RekeyedCells | uno/registry/registry.py:931-936 | the cells with a dropped key, or a failure on an unknown one |
| KeyMaterial.RootKeyMaterial.CleanDroppedKeys | uno/registry/vpn_keymat.py:558-568 | removes exactly the dropped generation |
| KeyMaterial.SaveFits | uno/registry/registry.py:966-975 | dropping or deleting per cell makes the save succeed unless a second dropped root key is needed |
| KeyMaterial.SavedIsRekeyed | uno/registry/registry.py:1032-1040 | releasing, saving and regenerating is exactly the specified rekey of the command's targets |
| KeyMaterial.RootRegistry.Rekey | uno/registry/registry.py:938-1045 | the step-by-step command refines the specified step, keeps the view and the key tables sound, replaces exactly the keys that the command names, remembers the first configuration id, and fails if and only if a second dropped root key is needed |
| KeyMaterial.RootRegistry.DropOldKeys | uno/registry/registry.py:456-459 | discards the dropped generation and the pending configuration id |
| Peers.CountIsAll | uno/agent/uvn_peers_list.py:376-376 | comparing counts is the same as asking all cells |
| Peers.NoCellChanged | uno/agent/uvn_peers_list.py:353-379 | without a recorded status change the flag needs no recomputation |
| Peers.NoConsistencyChanged | uno/agent/uvn_peers_list.py:467-488 | nor without a recorded change of consistency |
| Peers.NoRoutedChanged | uno/agent/uvn_peers_list.py:442-462 | nor without a recorded change of networks |
| Peers.PeersList.constructor | uno/agent/uvn_peers_list.py:111-153 | the initial flags are right if and only if there is an active cell and a network to discover, whatever records resetting stored peers left |
| Peers.PeersList.ComputeRouted | uno/agent/uvn_peers_list.py:457-457 | the subnets routed by active cells |
| Peers.PeersList.Configure | uno/registry/versioned.py:272-294 | writing a property records the value it replaces, if it differs |
| Peers.PeersList.CheckCells | uno/agent/uvn_peers_list.py:353-379 | all-cells-connected equals its definition; the event fires exactly when it changes while the agent's own peer is online |
| Peers.PeersList.CheckRegistry | uno/agent/uvn_peers_list.py:406-437 | registry-connected equals its definition |
| Peers.PeersList.CheckRouted | uno/agent/uvn_peers_list.py:442-462 | networks-discovered equals its definition |
| Peers.PeersList.CheckConfig | uno/agent/uvn_peers_list.py:467-488 | consistent-config equals its definition |
| Peers.PeersList.ProcessUpdates | uno/agent/uvn_peers_list.py:330-488 | from the recorded changes alone: all four flags equal a recomputation from scratch, and the records are cleared |
| Peers.PeersList.UpdateAll | uno/agent/uvn_peers_list.py:317-322 | the peers are configured and the flags stay right, so over every run |
| Sync.SyncAgent.Update | uno/agent/agent.py:977-991 | one update keeps the sync invariant; it has published afterwards if and only if it had before, or all cells are online now |
| Sync.SyncAgent.HandleEvent | uno/agent/agent.py:819-893 | the effect of each event: an own active cell's announcement brings that peer online with what it announced, live writers bring back exactly their offline peers, a lost instance takes one peer offline, all else is unchanged; no seen cell becomes unseen, no unseen one offline |
| Sync.SyncAgent.PublishConfigs | uno/agent/agent.py:990-991 | only called while all cells are online at once |
| Sync.SyncAgent.UntilPushed | uno/agent/agent.py:683-704 | enters stage 1 exactly with all cells online, drops the old keys exactly when the offline cells are the rekeyed ones, which is safe, and otherwise leaves the key tables alone |
| Sync.SyncAgent.DropOldKeys | uno/agent/agent.py:691-696 | only called after publishing, with every rekeyed cell offline and every other online |
| Sync.SyncAgent.Spin | uno/agent/agent.py:654-719 | over a whole run of any events: ends with the old keys dropped if and only if some test found all cells online and that or a later one exactly the rekeyed cells offline; published if and only if some event brought all cells online |
| Sync.HistoryKept | uno/agent/agent.py:826-834 | only cells once seen have handles or are offline |
| Sync.ReadyToDrop | uno/agent/agent.py:689-691 | equal offline and rekeyed sets mean all others are online |
| Trigger.NothingIsLost | uno/agent/triggerable.py:39-66 | in every interleaving a set flag has a wake-up on its way, and each accepted trigger is handled, pending or discarded |
| Trigger.NothingIsDiscarded | uno/agent/triggerable.py:57-59 | in runs without deactivation and failing handlers, no accepted trigger is discarded |
| Trigger.TriggerIsPending | uno/agent/triggerable.py:39-47 | trigger() leaves the flag set and is accepted exactly if it was not |
| Trigger.PendingIsHandled | uno/agent/triggerable.py:49-63 | from every state with a pending trigger of a running service, the worker's own steps and the releases under way lead to its handling |
| Trigger.BalanceKeptIff | uno/agent/triggerable.py:53-56 | wake-ups equal pending triggers after a step if and only if the step is not a stealing time-out |
| Trigger.NeverOverReleased | uno/agent/triggerable.py:39-56 | without stealing the bounded semaphore is never over-released |
| Trigger.NoTimeOutNoTheft | uno/agent/triggerable.py:53-53 | runs without time-outs never steal |
| Trigger.OverReleaseIff | uno/agent/triggerable.py:39-56 | from a balanced state, calls of trigger() after a step can over-release if and only if the step steals |
| Trigger.FirstTheftIsExact | uno/agent/triggerable.py:39-56 | so in every run up to its first theft |
| Trigger.OverReleaseHappens | uno/agent/triggerable.py:46-56 | a run with one time-out that over-releases |
| Clashes.OverlapsMeansShared | uno/registry/uvn.py:117-117 | overlapping is sharing an address, and symmetric |
| Clashes.NetworksNest | uno/registry/uvn.py:117-117 | of two overlapping networks the longer prefix lies inside the other |
| Clashes.FileNetwork | uno/registry/uvn.py:114-118 | a network is filed under itself and every overlapped target, and nowhere else |
| Clashes.FileRecord | uno/registry/uvn.py:113-119 | filing all networks of a record keeps the index exact |
| Clashes.DetectClashes | uno/registry/uvn.py:101-124 | with networks to check, exactly the overlapping pairs of each; without, every overlap is reported at one of its two networks |
| Clashes.ValidateCell | uno/registry/uvn.py:214-233 | accepted if and only if disjoint from all other active cells and, if private, with a network and a way to be reached |
| Clashes.Validate | uno/registry/uvn.py:208-212 | accepted if and only if every cell is |
| Clashes.ValidatedLansAreDisjoint | uno/registry/uvn.py:208-225 | then no address belongs to LANs of two active cells |
| Iptables.ExecAllSplit | uno/agent/uvn_net.py:302-306 | running commands in two parts is running them in one |
| Iptables.RuleAdded | uno/agent/uvn_net.py:302-306 | installing a rule is accepted and adds exactly that rule to what is outstanding |
| Iptables.RuleRemoved | uno/agent/uvn_net.py:119-132 | the inverted command is accepted and removes exactly that rule, wherever it sits |
| Iptables.ChainAdded | uno/agent/uvn_net.py:149-156 | a new chain starts empty and changes no other |
| Iptables.ChainRemoved | uno/agent/uvn_net.py:126-132 | a chain that nothing outstanding mentions is empty, unreferenced and removable |
| Iptables.NicGroupShaped | uno/agent/uvn_net.py:141-298 | all commands of an interface concern its own chain, built-in chains and jumps to its own chain, so that they can be undone |
| Iptables.InstallGroup | uno/agent/uvn_net.py:141-298 | installing the rules of one interface is accepted |
| Iptables.UndoGroup | uno/agent/uvn_net.py:119-132 | undoing one interface in reverse is accepted while others are still installed |
| Iptables.InstallThenUndo | uno/agent/uvn_net.py:58-139 | install all, undo group by group in installation order: every command is accepted and every chain is restored |
| Filtering.ContentIs | uno/agent/uvn_net.py:302-306 | what installing commands leaves in a chain |
| Filtering.NicRulesVerdict | uno/agent/uvn_net.py:168-258 | one interface's chain: established packets out, known subnets in, everything else that enters is dropped |
| Filtering.NicsVerdict | uno/agent/uvn_net.py:88-94 | the chains of all interfaces in their order decide exactly as allowed |
| Filtering.MasqueradeIs | uno/agent/uvn_net.py:260-298 | exactly the packets from a masquerading interface's subnet to another interface are masqueraded |
| Filtering.StartedRoutes | uno/agent/uvn_net.py:58-96 | for every packet, and whatever the rules of others decide: the table's own verdict stands, what it leaves open is forwarded if and only if it is allowed, masqueraded if and only if it should be, and accepted in docker's chain between the agent's interfaces |
| Firewall.UvnNet.RunAll | uno/agent/uvn_net.py:302-306 | command by command equals the whole sequence; stops at the first refusal |
| Firewall.UvnNet.Install | uno/agent/uvn_net.py:302-306 | a command is recorded if and only if it was accepted |
| Firewall.UvnNet.Start | uno/agent/uvn_net.py:58-96 | the policy is DROP; what is recorded is what was executed, even if a command is refused; on a table without the agent's rules none is, and the host then routes as `Filtering.Routes` says |
| Firewall.UvnNet.Stop | uno/agent/uvn_net.py:98-139 | after one start: succeeds, restores every chain and sets the policy to ACCEPT |

## Left out

- SQLite, the object cache, cursors and change tracking: the key tables are maps from key id and dropped flag to a key, and a command that fails is rolled back as a whole. Each rekey command starts from freshly loaded tables, so the caching of `rekeyed_cells` within one process is not modelled.
- Key generation and randomness: a generated secret is any value that was not drawn before, with a public half derived from it; that a generator never repeats itself, and that the key tables hold no secret twice, is assumed.
- DDS, WireGuard, `ip`, systemd, routing daemons, web UI, cloud storage, packaging and the command line: input and output.
- Formatting of addresses and interface names, MTU, allowed addresses, masquerade, forward and tunnel fields of the configurations: copied from settings without further logic.
- VpnConfig.P2pVpnConfig.PeerConfig: the configurations are a map keyed by the peer, so the order of the returned list is not captured.
- RootVpn.RootLinksMirror: the addresses of the root VPN may lie outside its subnet, as in the code; which error comes first, if several lookups fail, is not captured.
- The static strategy reading its adjacency list from strategy arguments: it is read at construction, before `deploy` sets the arguments.
- Particle VPNs and their keys; rekeying with banned or deleted cells: only active cells' root VPN keys are modelled.
- Peers.PeersList.UpdateAll: listeners that update peers again from within a notification, the fully-routed flag, reachable networks, VPN connection and particle events are left out, and so are resets of single properties and the reset at `offline()`, which ends a run.
- Sync.SyncAgent.Spin: a run cut short by the time limit is one with fewer batches; the exit condition used when nothing was rekeyed is left out.
- Discovery.DiscoveryComplete: the peers of the registry's own participant, one root VPN address per cell, are left out.
- Isolation.ConnectsIff: fewer than four tries are not covered; the strategy always makes 100000.
- Trigger.NothingIsLost: `StartThread` may happen whenever no worker runs, and trigger delays are an arbitrary choice; wall-clock time is not modelled.
- Filtering.StartedRoutes: which subnets are known is an argument; chains that other software adds beside docker's, and rewriting of packets by rules that do not decide, are left out.
- Firewall.UvnNet.Start: enabling kernel forwarding, saving the old rules and starting the VPN interfaces are left out.
- Firewall.UvnNet.Stop: the branch that restores a backup file, and the undo of rules that were never started (`assert_stopped`), are left out.
- Time stamps, rate limits and timers: wall-clock behaviour.
