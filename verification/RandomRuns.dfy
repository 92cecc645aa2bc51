// Runs of RandomDeploymentGraph.generate_edges: links are drawn as random trails
// over the peers until the peers have enough of them
// (uno/registry/deployment_strategy/random_deployment_strategy.py).
// random.sample is an arbitrary choice, so a run is any sequence of trails that the
// code can draw, and what is proved of a run holds for every outcome.
module RandomRuns {
  import opened Prelude
  import opened Graphs

  datatype Thresholds = Thresholds(min: nat, ok: nat, max: nat)

  // The degree limits that RandomDeploymentStrategy derives from the peer counts.
  function ChooseThresholds(public: nat, private: nat): (r: Thresholds) {
    var peers := public + private;
    if peers <= 1 then Thresholds(0, 0, 0)
    else if peers <= 3 then Thresholds(1, peers - 1, peers)
    else Thresholds(1, 2, if public < private then 3 + private - public else 3)
  }

  // The sanity checks that follow the choice never fail, and two links fit on
  // every peer as soon as there are two peers.
  lemma ThresholdsAreOrdered(public: nat, private: nat)
    ensures var t := ChooseThresholds(public, private);
            && t.min <= t.ok <= t.max
            && (public + private >= 2 ==> t.min == 1 && t.max >= 2)
  {
  }

  // How the search for links ended.
  datatype Stop = EnoughLinks | MinimalLinks | TriesUsedUp

  // ----- Storing edges -----

  // A sequence of distinct peers, consecutive ones not both private.
  ghost predicate Trail(peers: set<int>, private: set<int>, t: seq<int>) {
    && |t| > 0
    && Distinct(t)
    && Elements(t) <= peers
    && forall i :: 0 <= i < |t| - 1 ==> t[i] !in private || t[i + 1] !in private
  }

  // What storing one edge does to the graph.
  ghost function Stored(g: Graph, max: nat, a: int, b: int): (h: Graph) {
    if a in g && b in g && |g[a]| < max && |g[b]| < max then g[a := g[a] + {b}][b := g[b] + {a}] else g
  }

  // A whole trail stored edge by edge.
  ghost function StoredTrail(g: Graph, max: nat, t: seq<int>): (h: Graph)
    decreases |t|
  {
    if |t| < 2 then g else StoredTrail(Stored(g, max, t[0], t[1]), max, t[1..])
  }

  ghost predicate Capped(g: Graph, max: nat) {
    forall p :: p in g ==> |g[p]| <= max
  }

  ghost predicate Sound(g: Graph, peers: set<int>, private: set<int>, max: nat) {
    g.Keys == peers && Mutual(g) && NoPrivateEdges(g, private) && Capped(g, max)
  }

  ghost predicate Grows(g: Graph, h: Graph) {
    forall x, y :: Step(g, x, y) ==> Step(h, x, y)
  }

  lemma GrowsChain(g: Graph, h: Graph, k: Graph)
    ensures Grows(g, g)
    ensures Grows(g, h) && Grows(h, k) ==> Grows(g, k)
  {
  }

  lemma StoredIsSound(g: Graph, peers: set<int>, private: set<int>, max: nat, a: int, b: int)
    requires Sound(g, peers, private, max) && a in peers && b in peers && a != b
    requires a !in private || b !in private
    ensures Sound(Stored(g, max, a, b), peers, private, max)
    ensures Grows(g, Stored(g, max, a, b))
    ensures forall v :: v in g && v != a && v != b ==> v in Stored(g, max, a, b) && Stored(g, max, a, b)[v] == g[v]
  {
  }

  lemma InPeers(peers: set<int>, t: seq<int>, j: int)
    requires Elements(t) <= peers && 0 <= j < |t|
    ensures t[j] in peers
  {
    assert t[j] in Elements(t);
  }

  lemma TrailStep(peers: set<int>, private: set<int>, t: seq<int>, i: int)
    requires Trail(peers, private, t) && 0 <= i < |t| - 1
    ensures t[i] in peers && t[i + 1] in peers && t[i] != t[i + 1] && |peers| > 1
    ensures t[i] !in private || t[i + 1] !in private
  {
    InPeers(peers, t, i);
    InPeers(peers, t, i + 1);
    SubsetSize({t[i], t[i + 1]}, peers);
  }

  lemma StoredFirst(g: Graph, max: nat, t: seq<int>, i: int)
    requires 0 <= i < |t| - 1
    ensures StoredTrail(g, max, t[i..]) == StoredTrail(Stored(g, max, t[i], t[i + 1]), max, t[i + 1..])
  {
    assert t[i..][1..] == t[i + 1..];
  }

  lemma StoredLast(g: Graph, max: nat, t: seq<int>)
    requires |t| <= 1
    ensures StoredTrail(g, max, t) == g
  {
  }

  // Storing what is left of a trail keeps the graph sound, removes no link, and
  // touches no peer that is not on it.
  lemma {:induction false} StoredRest(g: Graph, peers: set<int>, private: set<int>, max: nat, t: seq<int>, i: int)
    requires Sound(g, peers, private, max) && Trail(peers, private, t) && 0 <= i < |t|
    ensures var h := StoredTrail(g, max, t[i..]);
            && Sound(h, peers, private, max)
            && Grows(g, h)
            && forall v :: v in g && v !in t[i..] ==> v in h && h[v] == g[v]
    decreases |t| - i
  {
    hide Sound, Trail, Grows, Stored, StoredTrail;
    if i == |t| - 1 {
      StoredLast(g, max, t[i..]);
      GrowsChain(g, g, g);
    } else {
      TrailStep(peers, private, t, i);
      StoredIsSound(g, peers, private, max, t[i], t[i + 1]);
      StoredFirst(g, max, t, i);
      var m := Stored(g, max, t[i], t[i + 1]);
      StoredRest(m, peers, private, max, t, i + 1);
      GrowsChain(g, m, StoredTrail(m, max, t[i + 1..]));
      assert t[i..] == [t[i]] + t[i + 1..];
      assert t[i + 1..][0] == t[i + 1];
    }
  }

  lemma StoredWhole(g: Graph, peers: set<int>, private: set<int>, max: nat, t: seq<int>)
    requires Sound(g, peers, private, max) && Trail(peers, private, t)
    ensures var h := StoredTrail(g, max, t);
            && Sound(h, peers, private, max)
            && Grows(g, h)
            && forall v :: v in g && v !in t ==> v in h && h[v] == g[v]
  {
    assert t[0..] == t;
    StoredRest(g, peers, private, max, t, 0);
  }

  // ----- Trails that are stored completely -----

  // The first i edges of the trail are in the graph, nothing lies beyond them,
  // and the end of the laid part has at most one link.
  ghost predicate Laid(g: Graph, peers: set<int>, t: seq<int>, i: int) {
    && 0 <= i < |t|
    && g.Keys == peers && Elements(t) <= peers
    && (forall j :: 0 <= j < |t| ==> t[j] in g)
    && (forall j :: 0 <= j < i ==> Step(g, t[j], t[j + 1]) && Step(g, t[j + 1], t[j]))
    && (forall j :: i < j < |t| ==> g[t[j]] == {})
    && |g[t[i]]| <= 1
  }

  // The degree cap never refuses an edge of the first trail that is stored.
  lemma LaidOneMore(g: Graph, peers: set<int>, private: set<int>, max: nat, t: seq<int>, i: int)
    requires Trail(peers, private, t) && Laid(g, peers, t, i) && i + 1 < |t| && max >= 2
    ensures Laid(Stored(g, max, t[i], t[i + 1]), peers, t, i + 1)
  {
    var h := Stored(g, max, t[i], t[i + 1]);
    assert |g[t[i + 1]]| == 0;
    assert h == g[t[i] := g[t[i]] + {t[i + 1]}][t[i + 1] := {t[i]}];
    hide Stored, Elements;
    forall j | 0 <= j < i + 1
      ensures Step(h, t[j], t[j + 1]) && Step(h, t[j + 1], t[j])
    {
      if j < i {
        assert Step(g, t[j], t[j + 1]) && Step(g, t[j + 1], t[j]);
      }
    }
  }

  lemma {:induction false} LaidAll(g: Graph, peers: set<int>, private: set<int>, max: nat, t: seq<int>, i: int)
    requires Trail(peers, private, t) && Laid(g, peers, t, i) && (|t| > 1 ==> max >= 2)
    ensures Laid(StoredTrail(g, max, t[i..]), peers, t, |t| - 1)
    decreases |t| - i
  {
    hide Trail, Laid, Stored, StoredTrail;
    assert 0 <= i < |t| by { LaidWithin(g, peers, t, i); }
    if i == |t| - 1 {
      StoredLast(g, max, t[i..]);
    } else {
      LaidOneMore(g, peers, private, max, t, i);
      StoredFirst(g, max, t, i);
      LaidAll(Stored(g, max, t[i], t[i + 1]), peers, private, max, t, i + 1);
    }
  }

  lemma LaidWithin(g: Graph, peers: set<int>, t: seq<int>, i: int)
    requires Laid(g, peers, t, i)
    ensures 0 <= i < |t|
  {
  }

  function Blank(peers: set<int>): (g: Graph) {
    map p | p in peers :: {}
  }

  lemma BlankIsSound(peers: set<int>, private: set<int>, max: nat)
    ensures Sound(Blank(peers), peers, private, max)
  {
  }

  lemma FirstTrailIsLine(peers: set<int>, private: set<int>, max: nat, t: seq<int>)
    requires Trail(peers, private, t) && (|peers| > 1 ==> max >= 2)
    ensures Line(StoredTrail(Blank(peers), max, t), peers, t)
  {
    assert t[0..] == t;
    TrailFits(peers, private, t);
    assert Laid(Blank(peers), peers, t, 0) by {
      forall j | 0 <= j < |t|
        ensures t[j] in Blank(peers)
      {
        InPeers(peers, t, j);
      }
    }
    LaidAll(Blank(peers), peers, private, max, t, 0);
    hide Trail, StoredTrail, Step;
    forall j | 0 <= j < |t|
      ensures t[j] in peers
    {
      InPeers(peers, t, j);
    }
  }

  lemma TrailFits(peers: set<int>, private: set<int>, t: seq<int>)
    requires Trail(peers, private, t)
    ensures |t| <= |peers|
  {
    DistinctSize(t);
    SubsetSize(Elements(t), peers);
  }

  // With room for links to all other peers an edge is never refused.
  lemma NeverRefused(g: Graph, peers: set<int>, private: set<int>, max: nat, a: int, b: int)
    requires Sound(g, peers, private, max) && a in peers && b in peers && a != b && max >= |peers| - 1
    ensures Step(Stored(g, max, a, b), a, b) && Step(Stored(g, max, a, b), b, a)
  {
    hide NoPrivateEdges, Capped;
    if b !in g[a] {
      assert a !in g[b];
      Room(g, peers, a, b);
      Room(g, peers, b, a);
    }
  }

  lemma Room(g: Graph, peers: set<int>, a: int, b: int)
    requires g.Keys == peers && Mutual(g) && a in peers && b in peers && a != b && b !in g[a]
    ensures |g[a]| < |peers| - 1
  {
    assert |peers - {a, b}| == |peers| - 2 by {
      assert peers == (peers - {a, b}) + {a, b};
    }
    forall c | c in g[a]
      ensures c in peers - {a, b}
    {
      assert c in g;
    }
    SubsetSize(g[a], peers - {a, b});
  }

  ghost predicate LineFrom(g: Graph, t: seq<int>, i: nat) {
    forall j :: i <= j < |t| - 1 ==> Step(g, t[j], t[j + 1]) && Step(g, t[j + 1], t[j])
  }

  lemma {:induction false} RoomyRest(g: Graph, peers: set<int>, private: set<int>, max: nat, t: seq<int>, i: int)
    requires Sound(g, peers, private, max) && Trail(peers, private, t) && 0 <= i < |t| && max >= |peers| - 1
    ensures LineFrom(StoredTrail(g, max, t[i..]), t, i)
    decreases |t| - i
  {
    hide Sound, Trail, Stored, StoredTrail, Step, Grows;
    if i < |t| - 1 {
      TrailStep(peers, private, t, i);
      StoredIsSound(g, peers, private, max, t[i], t[i + 1]);
      NeverRefused(g, peers, private, max, t[i], t[i + 1]);
      StoredFirst(g, max, t, i);
      var m := Stored(g, max, t[i], t[i + 1]);
      RoomyRest(m, peers, private, max, t, i + 1);
      StoredRest(m, peers, private, max, t, i + 1);
      GrowsAt(m, StoredTrail(m, max, t[i + 1..]), t[i], t[i + 1]);
      GrowsAt(m, StoredTrail(m, max, t[i + 1..]), t[i + 1], t[i]);
    }
  }

  lemma GrowsAt(g: Graph, h: Graph, x: int, y: int)
    requires Grows(g, h) && Step(g, x, y)
    ensures Step(h, x, y)
  {
  }

  lemma RoomyTrailIsLine(g: Graph, peers: set<int>, private: set<int>, max: nat, t: seq<int>)
    requires Sound(g, peers, private, max) && Trail(peers, private, t) && max >= |peers| - 1
    ensures Line(StoredTrail(g, max, t), peers, t)
  {
    assert t[0..] == t;
    RoomyRest(g, peers, private, max, t, 0);
    hide StoredTrail, Step, Sound;
    forall j | 0 <= j < |t|
      ensures t[j] in peers
    {
      InPeers(peers, t, j);
    }
  }

  // A trail has at most one private peer more than public ones.
  lemma {:induction false} TrailAlternates(private: set<int>, t: seq<int>)
    requires Distinct(t) && forall i :: 0 <= i < |t| - 1 ==> t[i] !in private || t[i + 1] !in private
    ensures |Elements(t) * private| <= |Elements(t) - private| + (if t != [] && t[|t| - 1] in private then 1 else 0)
    decreases |t|
  {
    if t == [] {
      assert Elements(t) * private == {};
    } else {
      var k := |t| - 1;
      TrailAlternates(private, t[..k]);
      assert t == t[..k] + [t[k]];
      assert Elements(t) == Elements(t[..k]) + {t[k]};
      OneMore(Elements(t[..k]), private, t[k]);
    }
  }

  lemma OneMore(rest: set<int>, private: set<int>, x: int)
    requires x !in rest
    ensures |(rest + {x}) * private| == |rest * private| + (if x in private then 1 else 0)
    ensures |(rest + {x}) - private| == |rest - private| + (if x in private then 0 else 1)
  {
    if x in private {
      assert (rest + {x}) * private == rest * private + {x};
      assert (rest + {x}) - private == rest - private;
    } else {
      assert (rest + {x}) * private == rest * private;
      assert (rest + {x}) - private == rest - private + {x};
    }
  }

  lemma CompleteNeedsPublic(peers: set<int>, private: set<int>, t: seq<int>)
    requires Trail(peers, private, t) && Elements(t) == peers && private <= peers
    ensures |private| <= |peers - private| + 1
  {
    TrailAlternates(private, t);
    assert peers * private == private;
  }

  // ----- Runs -----

  datatype Setup = Setup(peers: set<int>, private: set<int>, limits: Thresholds) {
    ghost predicate Valid() {
      && private <= peers && peers != {}
      && limits.min <= limits.ok <= limits.max
      && (limits.min == 0 ==> |peers| <= 1)
    }

    function Public(): (r: set<int>) {
      peers - private
    }

    // There is a public peer, and every peer has room for two links.
    ghost predicate Fits() {
      peers - private != {} && (|peers| > 1 ==> limits.max >= 2)
    }

    // Complete trails cannot be needed, cannot occur, or are never cut by the cap.
    predicate AlwaysConnects() {
      || |private| < |Public()|
      || |private| > |Public()| + 1
      || limits.max >= |peers| - 1
    }
  }

  // Where the walk can go from a peer.
  function Neighbors(s: Setup, visited: set<int>, current: int): (r: set<int>) {
    if current in s.private then s.Public() - visited else s.peers - visited
  }

  ghost predicate Complete(s: Setup, t: seq<int>) {
    Elements(t) == s.peers
  }

  // The trails that the walk can draw: complete ones and stuck ones.
  ghost predicate Draws(s: Setup, t: seq<int>) {
    && Trail(s.peers, s.private, t)
    && (Complete(s, t) || Neighbors(s, Elements(t), t[|t| - 1]) == {})
  }

  // The graph after one try, and after all tries so far.
  ghost function AfterTry(s: Setup, g: Graph, t: seq<int>): (h: Graph) {
    if Complete(s, t) || |s.private| >= |s.Public()| then StoredTrail(g, s.limits.max, t) else g
  }

  ghost function After(s: Setup, trails: seq<seq<int>>): (g: Graph)
    decreases |trails|
  {
    if trails == [] then Blank(s.peers)
    else AfterTry(s, After(s, trails[..|trails| - 1]), trails[|trails| - 1])
  }

  // With a single peer the code never records any degree.
  ghost predicate AllHave(s: Setup, g: Graph, least: nat) {
    s.limits.min >= 1 && forall p :: p in s.peers ==> p in g && |g[p]| >= least
  }

  // How a try ends the search, if it does: g is the graph after the try.
  ghost function Verdict(s: Setup, g: Graph, t: seq<int>, last: bool): (v: Option<Result<Stop>>) {
    if Complete(s, t) then
      if AllHave(s, g, s.limits.ok) then Some(Ok(EnoughLinks)) else None
    else if |s.private| >= |s.Public()| && AllHave(s, g, s.limits.min) then Some(Ok(MinimalLinks))
    else if !last then None
    else if AllHave(s, g, s.limits.min) then Some(Ok(MinimalLinks))
    else Some(Err(GenerationFailed))
  }

  ghost function LastVerdict(s: Setup, tries: nat, trails: seq<seq<int>>): (v: Option<Result<Stop>>)
    requires trails != []
  {
    Verdict(s, After(s, trails), trails[|trails| - 1], |trails| == tries)
  }

  // The search goes on after these tries.
  ghost predicate Going(s: Setup, tries: nat, trails: seq<seq<int>>)
    decreases |trails|
  {
    trails == [] ||
    (&& |trails| <= tries
     && Going(s, tries, trails[..|trails| - 1])
     && Draws(s, trails[|trails| - 1])
     && LastVerdict(s, tries, trails).None?)
  }

  // The search ends with these tries and this result.
  ghost predicate Run(s: Setup, tries: nat, trails: seq<seq<int>>, r: Result<Stop>) {
    || (Going(s, tries, trails) && |trails| == tries && r == Ok(TriesUsedUp))
    || (&& 0 < |trails| <= tries
        && Going(s, tries, trails[..|trails| - 1])
        && Draws(s, trails[|trails| - 1])
        && LastVerdict(s, tries, trails) == Some(r))
  }

  lemma StuckTrail(s: Setup, t: seq<int>)
    requires s.Valid() && Draws(s, t) && !Complete(s, t)
    ensures Elements(t) < s.peers && t[|t| - 1] in s.private && s.Public() <= Elements(t)
  {
    var last := t[|t| - 1];
    var visited := Elements(t);
    forall p | p in s.peers && (last in s.private ==> p !in s.private)
      ensures p in visited
    {
      assert p !in Neighbors(s, visited, last);
    }
    assert last !in s.private ==> s.peers <= visited;
  }

  // Whether complete or stuck, a trail passes all public peers.
  lemma PassesPublic(s: Setup, t: seq<int>)
    requires s.Valid() && Draws(s, t)
    ensures s.Public() <= Elements(t)
  {
    if !Complete(s, t) {
      StuckTrail(s, t);
    }
  }

  // ----- Connectivity -----

  ghost predicate NoneIsolated(g: Graph, peers: set<int>) {
    |peers| <= 1 || forall p :: p in peers ==> p in g && g[p] != {}
  }

  // All public peers can reach each other.
  ghost predicate Joined(g: Graph, s: Setup) {
    forall a, b :: a in s.Public() && b in s.Public() ==> Reach(g, s.peers, a, b)
  }

  lemma GrownReach(g: Graph, h: Graph, peers: set<int>, a: int, b: int)
    requires Grows(g, h) && Reach(g, peers, a, b)
    ensures Reach(h, peers, a, b)
  {
    ReachWider(g, h, peers, peers, a, b);
  }

  lemma OnLine(g: Graph, peers: set<int>, t: seq<int>, a: int, b: int)
    requires Line(g, peers, t) && a in Elements(t) && b in Elements(t)
    ensures Reach(g, peers, a, b)
  {
    hide Reach, Line;
    var i :| 0 <= i < |t| && t[i] == a;
    var j :| 0 <= j < |t| && t[j] == b;
    if i <= j {
      LineReach(g, peers, t, i, j);
    } else {
      LineReach(g, peers, t, j, i);
    }
  }

  // What is known of the graph of any run: public peers are joined as soon as a
  // trail was stored, and with few private peers everything is.
  ghost predicate Reached(s: Setup, g: Graph) {
    Joined(g, s) && (|s.private| < |s.Public()| ==> Connected(g, s.peers))
  }

  lemma LineReaches(s: Setup, g: Graph, t: seq<int>)
    requires s.Valid() && Line(g, s.peers, t) && Draws(s, t) && (Complete(s, t) || |s.private| >= |s.Public()|)
    ensures Reached(s, g)
    ensures Complete(s, t) ==> Connected(g, s.peers)
  {
    PassesPublic(s, t);
    hide Reach, Line, Draws;
    forall a, b | a in Elements(t) && b in Elements(t)
      ensures Reach(g, s.peers, a, b)
    {
      OnLine(g, s.peers, t, a, b);
    }
  }

  lemma GrownReached(s: Setup, g: Graph, h: Graph)
    requires Grows(g, h) && Reached(s, g)
    ensures Reached(s, h)
  {
    hide Reach, Grows;
    forall a, b | Reach(g, s.peers, a, b)
      ensures Reach(h, s.peers, a, b)
    {
      GrownReach(g, h, s.peers, a, b);
    }
  }

  // One try keeps the graph sound and growing; if it stores its trail the public
  // peers are joined afterwards.
  lemma TryKeeps(s: Setup, g: Graph, t: seq<int>)
    requires s.Valid() && s.Fits() && Draws(s, t)
    requires Sound(g, s.peers, s.private, s.limits.max) && (g == Blank(s.peers) || Reached(s, g))
    ensures var h := AfterTry(s, g, t);
            && Sound(h, s.peers, s.private, s.limits.max)
            && Grows(g, h)
            && (h == Blank(s.peers) || Reached(s, h))
            && (Complete(s, t) || |s.private| >= |s.Public()| ==> Reached(s, h))
  {
    hide Sound, Grows, Reached, StoredTrail, Blank;
    GrowsChain(g, g, g);
    if Complete(s, t) || |s.private| >= |s.Public()| {
      StoredWhole(g, s.peers, s.private, s.limits.max, t);
      if g == Blank(s.peers) {
        FirstTrailIsLine(s.peers, s.private, s.limits.max, t);
        LineReaches(s, AfterTry(s, g, t), t);
      } else {
        GrownReached(s, g, AfterTry(s, g, t));
      }
    }
  }

  lemma {:induction false} GoingKeeps(s: Setup, tries: nat, trails: seq<seq<int>>)
    requires s.Valid() && s.Fits() && Going(s, tries, trails)
    ensures var g := After(s, trails);
            && Sound(g, s.peers, s.private, s.limits.max)
            && (g == Blank(s.peers) || Reached(s, g))
            && (|trails| == tries > 0 ==> Reached(s, g) && Complete(s, trails[|trails| - 1]))
    decreases |trails|
  {
    hide Sound, Reached, Draws, AfterTry, Grows, AllHave, Setup.Valid, Setup.Fits;
    if trails == [] {
      BlankIsSound(s.peers, s.private, s.limits.max);
    } else {
      var k := |trails| - 1;
      GoingKeeps(s, tries, trails[..k]);
      TryKeeps(s, After(s, trails[..k]), trails[k]);
    }
  }

  // A linked private peer is linked to a public one.
  lemma PublicHub(g: Graph, s: Setup, a: int) returns (h: int)
    requires Sound(g, s.peers, s.private, s.limits.max) && a in s.peers && (a in s.private ==> g[a] != {})
    ensures h in s.Public() && Reach(g, s.peers, a, h) && Reach(g, s.peers, h, a)
  {
    hide Capped, Reach;
    h := a;
    if a in s.private {
      h := Witness(g[a]);
      assert h in g && a in g[h];
    }
    HubReach(g, s.peers, a, h);
  }

  lemma Leaves(g: Graph, peers: set<int>, p: int)
    requires Connected(g, peers) && p in peers && |peers| > 1
    ensures p in g && g[p] != {}
  {
    assert peers - {p} != {} by {
      if peers - {p} == {} {
        SubsetSize(peers, {p});
      }
    }
    var q := Witness(peers - {p});
    assert Reach(g, peers, p, q);
    var t :| Path(g, peers, t) && t[0] == p && t[|t| - 1] == q;
    assert Step(g, t[0], t[0 + 1]);
  }

  lemma JoinedConnects(s: Setup, g: Graph)
    requires Sound(g, s.peers, s.private, s.limits.max) && Joined(g, s)
    ensures Connected(g, s.peers) <==> NoneIsolated(g, s.peers)
  {
    if Connected(g, s.peers) && |s.peers| > 1 {
      forall p | p in s.peers
        ensures p in g && g[p] != {}
      {
        Leaves(g, s.peers, p);
      }
    }
    if NoneIsolated(g, s.peers) {
      hide Reach;
      forall a, b | a in s.peers && b in s.peers
        ensures Reach(g, s.peers, a, b)
      {
        if |s.peers| <= 1 {
          SubsetSize({a, b}, s.peers);
          assert a == b;
          ReachSelf(g, s.peers, a);
        } else {
          var h := PublicHub(g, s, a);
          var k := PublicHub(g, s, b);
          ReachTrans(g, s.peers, a, h, k);
          ReachTrans(g, s.peers, a, k, b);
        }
      }
    }
  }

  lemma LinkedIsNotBlank(s: Setup, g: Graph, least: nat)
    requires s.Valid() && AllHave(s, g, least) && least >= s.limits.min
    ensures g != Blank(s.peers) && NoneIsolated(g, s.peers)
  {
    var p := Witness(s.peers);
    assert g[p] != {};
  }

  // What every run guarantees.  A run that returns normally leaves a graph that is
  // connected exactly when no peer is isolated.  It is connected after both early
  // stops, with fewer private than public peers, with at least two private peers
  // more than public ones (no trail is complete, so the last try decides), and
  // whenever the cap leaves room for links to all other peers.
  lemma RunConnects(s: Setup, tries: nat, trails: seq<seq<int>>, r: Result<Stop>)
    requires s.Valid() && s.Fits() && Run(s, tries, trails, r) && tries > 0 && r.Ok?
    ensures var g := After(s, trails);
            && (Connected(g, s.peers) <==> NoneIsolated(g, s.peers))
            && (r.value != TriesUsedUp || s.AlwaysConnects() ==> Connected(g, s.peers))
  {
    hide Sound, Reached, Draws, Grows, AllHave, Connected, NoneIsolated, After, Blank;
    var g := After(s, trails);
    var k := |trails| - 1;
    if Going(s, tries, trails) && |trails| == tries && r == Ok(TriesUsedUp) {
      GoingKeeps(s, tries, trails);
      Finished(s, g);
      LastIsComplete(s, tries, trails);
    } else {
      GoingKeeps(s, tries, trails[..k]);
      AfterLast(s, trails);
      TryKeeps(s, After(s, trails[..k]), trails[k]);
      LinkedIsNotBlank(s, g, if r == Ok(EnoughLinks) then s.limits.ok else s.limits.min);
      Finished(s, g);
    }
  }

  lemma AfterLast(s: Setup, trails: seq<seq<int>>)
    requires trails != []
    ensures After(s, trails) == AfterTry(s, After(s, trails[..|trails| - 1]), trails[|trails| - 1])
  {
  }

  lemma Finished(s: Setup, g: Graph)
    requires Sound(g, s.peers, s.private, s.limits.max) && Reached(s, g)
    ensures Connected(g, s.peers) <==> NoneIsolated(g, s.peers)
    ensures |s.private| < |s.Public()| ==> Connected(g, s.peers)
  {
    hide Connected, NoneIsolated, Sound, Joined;
    JoinedConnects(s, g);
  }

  // When the tries are used up, the last trail was complete.
  lemma LastIsComplete(s: Setup, tries: nat, trails: seq<seq<int>>)
    requires s.Valid() && s.Fits() && Going(s, tries, trails) && |trails| == tries > 0
    ensures |s.private| <= |s.Public()| + 1
    ensures s.limits.max >= |s.peers| - 1 ==> Connected(After(s, trails), s.peers)
  {
    var k := |trails| - 1;
    var t := trails[k];
    GoingKeeps(s, tries, trails);
    assert Draws(s, t) && Complete(s, t);
    assert Going(s, tries, trails[..k]);
    CompleteNeedsPublic(s.peers, s.private, t);
    if s.limits.max >= |s.peers| - 1 {
      hide Going, Draws, Sound, Reached, LastVerdict, Connected, Line, Trail, StoredTrail;
      GoingKeeps(s, tries, trails[..k]);
      AfterLast(s, trails);
      RoomyTrailIsLine(After(s, trails[..k]), s.peers, s.private, s.limits.max, t);
      LineConnects(After(s, trails), s.peers, t);
    }
  }

  // The degrees that the early stops promise.
  lemma RunDegrees(s: Setup, tries: nat, trails: seq<seq<int>>, r: Result<Stop>)
    requires Run(s, tries, trails, r)
    ensures r == Ok(EnoughLinks) ==> AllHave(s, After(s, trails), s.limits.ok)
    ensures r == Ok(MinimalLinks) ==> AllHave(s, After(s, trails), s.limits.min)
    ensures r.Err? ==> r.error == GenerationFailed
  {
    hide AllHave, After, Draws, Going;
  }
}
