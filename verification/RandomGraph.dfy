// RandomDeploymentGraph, step by step
// (uno/registry/deployment_strategy/random_deployment_strategy.py).
module RandomGraph {
  import opened Prelude
  import opened Graphs
  import opened RandomRuns

  ghost predicate TrailEdges(t: seq<int>, edges: seq<(int, int)>) {
    |edges| == |t| - 1 && forall i :: 0 <= i < |edges| ==> edges[i] == (t[i], t[i + 1])
  }

  // Membership of one peer in the three degree classes.
  ghost predicate Classified(d: nat, t: Thresholds, full: bool, ok: bool, min: bool) {
    && (full <==> d >= t.max)
    && (ok <==> t.ok <= d < t.max)
    && (min <==> t.min <= d < t.ok)
  }

  class Builder {
    const peers: set<int>
    const private: set<int>
    const limits: Thresholds
    var edges: Graph
    var full: set<int>
    var ok: set<int>
    var min: set<int>

    ghost predicate ClassOf(p: int, d: nat)
      reads this
    {
      Classified(d, limits, p in full, p in ok, p in min)
    }

    ghost predicate Exact()
      requires edges.Keys == peers
      reads this
    {
      && full <= peers && ok <= peers && min <= peers
      && forall p :: p in peers ==> ClassOf(p, |edges[p]|)
    }

    ghost predicate Valid()
      reads this
    {
      && private <= peers
      && limits.min <= limits.ok <= limits.max
      && (limits.min == 0 ==> |peers| <= 1)
      && Sound(edges, peers, private, limits.max)
      && (limits.min >= 1 ==> Exact())
      && (limits.min == 0 ==> full == {} && ok == {} && min == {})
    }

    constructor (peers: set<int>, private: set<int>, limits: Thresholds)
      requires private <= peers
      requires limits.min <= limits.ok <= limits.max && (limits.min == 0 ==> |peers| <= 1)
      ensures Valid() && this.peers == peers && this.private == private && this.limits == limits
      ensures edges == Blank(peers)
    {
      this.peers, this.private, this.limits := peers, private, limits;
      edges := Blank(peers);
      full, ok, min := {}, {}, {};
    }

    function Config(): (s: Setup) {
      Setup(peers, private, limits)
    }

    method UpdatePeerStatus(p: int, ghost before: nat)
      requires edges.Keys == peers && p in peers && limits.min <= limits.ok <= limits.max
      requires before < limits.max && before <= |edges[p]| && ClassOf(p, before)
      requires full <= peers && ok <= peers && min <= peers
      requires forall q :: q in peers && q != p ==> ClassOf(q, |edges[q]|)
      modifies this`full, this`ok, this`min
      ensures Exact()
    {
      var degree := |edges[p]|;
      if degree >= limits.max {
        ok := ok - {p};
        min := min - {p};
        full := full + {p};
      } else if degree >= limits.ok {
        ok := ok + {p};
        min := min - {p};
      } else if degree >= limits.min {
        min := min + {p};
      }
    }

    method StoreEdge(a: int, b: int)
      requires Valid() && limits.min >= 1
      requires a in peers && b in peers && a != b && (a !in private || b !in private)
      modifies this`edges, this`full, this`ok, this`min
      ensures Valid()
      ensures edges == Stored(old(edges), limits.max, a, b)
    {
      StoredIsSound(edges, peers, private, limits.max, a, b);
      if |edges[a]| < limits.max && |edges[b]| < limits.max {
        hide Sound;
        ghost var before := edges;
        SubsetSize(before[a], before[a] + {b});
        SubsetSize(before[b], before[b] + {a});
        edges := edges[a := edges[a] + {b}];
        UpdatePeerStatus(a, |before[a]|);
        edges := edges[b := edges[b] + {a}];
        UpdatePeerStatus(b, |before[b]|);
        assert edges == Stored(before, limits.max, a, b);
      }
    }

    // A random walk that never visits a peer twice and never follows a private
    // peer by a private one.  It either visits all peers or gets stuck.
    method GenerateSpanningTree() returns (complete: bool, tree: seq<(int, int)>, ghost trail: seq<int>)
      requires peers != {} && private <= peers
      ensures Draws(Config(), trail) && TrailEdges(trail, tree)
      ensures complete <==> Complete(Config(), trail)
      ensures complete <==> |tree| == |peers| - 1
    {
      hide Trail, TrailEdges, Elements;
      var current := PickRandom(peers);
      var visited := {current};
      tree, trail := [], [current];
      TrailStart(peers, private, current);
      while |visited| < |peers|
        invariant visited <= peers && current in visited
        invariant |trail| > 0 && trail[|trail| - 1] == current && Elements(trail) == visited
        invariant Trail(peers, private, trail) && TrailEdges(trail, tree)
        decreases |peers| - |visited|
      {
        var neighbors := Neighbors(Config(), visited, current);
        if neighbors == {} {
          TrailSize(peers, private, trail, tree);
          return false, tree, trail;
        }
        var other := PickRandom(neighbors);
        TrailGrows(peers, private, trail, tree, other);
        visited := visited + {other};
        tree := tree + [(current, other)];
        trail := trail + [other];
        current := other;
      }
      SubsetSize(visited, peers);
      TrailSize(peers, private, trail, tree);
      complete := true;
    }

    method StoreTree(tree: seq<(int, int)>, ghost trail: seq<int>)
      requires Valid() && Trail(peers, private, trail) && TrailEdges(trail, tree)
      modifies this`edges, this`full, this`ok, this`min
      ensures Valid() && edges == StoredTrail(old(edges), limits.max, trail)
    {
      hide Trail, TrailEdges, Sound, Builder.Exact, Stored, StoredTrail;
      TrailLength(trail, tree);
      var i := 0;
      while i < |tree|
        invariant 0 <= i <= |tree|
        invariant Valid()
        invariant StoredTrail(edges, limits.max, trail[i..]) == StoredTrail(old(edges), limits.max, trail)
      {
        TrailEdge(peers, private, trail, tree, i);
        StoredFirst(edges, limits.max, trail, i);
        StoreEdge(tree[i].0, tree[i].1);
        i := i + 1;
      }
      StoredLast(edges, limits.max, trail[i..]);
    }

    // The search is one of the runs described by its trails.  A normal return leaves a
    // connected graph after both early stops and wherever the setup always connects;
    // in any case it is connected exactly when no peer is isolated.
    method GenerateEdges(maxTries: nat) returns (r: Result<Stop>, ghost trails: seq<seq<int>>)
      requires Valid() && edges == Blank(peers) && peers != {}
      modifies this`edges, this`full, this`ok, this`min
      ensures Valid()
      ensures Run(Config(), maxTries, trails, r) && edges == After(Config(), trails)
      ensures r == Ok(EnoughLinks) ==> AllHave(Config(), edges, limits.ok)
      ensures r == Ok(MinimalLinks) ==> AllHave(Config(), edges, limits.min)
      ensures r.Ok? && maxTries > 0 && Config().Fits() ==>
                && (Connected(edges, peers) <==> NoneIsolated(edges, peers))
                && (r.value != TriesUsedUp || Config().AlwaysConnects() ==> Connected(edges, peers))
    {
      hide Trail, TrailEdges, Sound, Builder.Exact, AllHave, StoredTrail, After, AfterTry, Going, Draws, Complete,
           LastVerdict, Run, Connected, NoneIsolated, Setup.Fits, Setup.AlwaysConnects;
      trails := [];
      NoTries(Config(), maxTries);
      var i := 0;
      while i < maxTries
        invariant 0 <= i <= maxTries && |trails| == i
        invariant Valid() && Going(Config(), maxTries, trails) && edges == After(Config(), trails)
      {
        ghost var before := edges;
        ghost var done := trails;
        var complete, tree, trail := GenerateSpanningTree();
        trails := trails + [trail];
        OneMoreTry(Config(), maxTries, done, trail);
        if complete {
          TreeOf(Config(), trail);
          StoreTree(tree, trail);
          Stores(Config(), before, trail);
          EnoughCounted();
          if |ok| + |full| >= |peers| {
            Concluded(Config(), maxTries, trails, Ok(EnoughLinks));
            return Ok(EnoughLinks), trails;
          }
        } else {
          if |private| >= |peers - private| {
            TreeOf(Config(), trail);
            StoreTree(tree, trail);
          }
          Stores(Config(), before, trail);
          MinimalCounted();
          if |private| >= |peers - private| {
            if |ok| + |full| + |min| >= |peers| {
              Concluded(Config(), maxTries, trails, Ok(MinimalLinks));
              return Ok(MinimalLinks), trails;
            }
          }
          if i >= maxTries - 1 {
            if |ok| + |full| + |min| >= |peers| {
              Concluded(Config(), maxTries, trails, Ok(MinimalLinks));
              return Ok(MinimalLinks), trails;
            }
            Concluded(Config(), maxTries, trails, Err(GenerationFailed));
            return Err(GenerationFailed), trails;
          }
        }
        i := i + 1;
      }
      RunsOut(Config(), maxTries, trails);
      Concluded(Config(), maxTries, trails, Ok(TriesUsedUp));
      return Ok(TriesUsedUp), trails;
    }

    // The early-stop tests compare sizes only; the classes being disjoint, they
    // say that every peer has enough links.
    lemma EnoughCounted()
      requires Valid() && peers != {}
      ensures |ok| + |full| >= |peers| <==> AllHave(Config(), edges, limits.ok)
    {
      hide Mutual, NoPrivateEdges, Capped;
      if limits.min >= 1 {
        ClassesApart();
        TwoParts(ok, full, peers);
        forall p | p in peers
          ensures p in ok + full <==> |edges[p]| >= limits.ok
        {
          assert ClassOf(p, |edges[p]|);
        }
        Covers(Config(), edges, ok + full, limits.ok);
      }
    }

    lemma MinimalCounted()
      requires Valid() && peers != {}
      ensures |ok| + |full| + |min| >= |peers| <==> AllHave(Config(), edges, limits.min)
    {
      hide Mutual, NoPrivateEdges, Capped;
      if limits.min >= 1 {
        ClassesApart();
        ThreeParts(ok, full, min, peers);
        forall p | p in peers
          ensures p in ok + full + min <==> |edges[p]| >= limits.min
        {
          assert ClassOf(p, |edges[p]|);
        }
        Covers(Config(), edges, ok + full + min, limits.min);
      }
    }

    lemma ClassesApart()
      requires Valid() && limits.min >= 1
      ensures full !! ok && full !! min && ok !! min && full <= peers && ok <= peers && min <= peers
    {
      hide Mutual, NoPrivateEdges, Capped;
      forall p | p in full || p in ok || p in min
        ensures (p in full ==> p !in ok && p !in min) && (p in ok ==> p !in min)
      {
        assert ClassOf(p, |edges[p]|);
      }
    }
  }

  lemma Covers(s: Setup, g: Graph, xs: set<int>, least: nat)
    requires s.limits.min >= 1 && g.Keys == s.peers && xs <= s.peers
    requires forall p :: p in s.peers ==> (p in xs <==> |g[p]| >= least)
    ensures xs == s.peers <==> AllHave(s, g, least)
  {
    if AllHave(s, g, least) {
      forall p | p in s.peers
        ensures p in xs
      {
        assert |g[p]| >= least;
      }
      assert xs == s.peers;
    }
  }

  lemma TwoParts(a: set<int>, b: set<int>, all: set<int>)
    requires a !! b && a <= all && b <= all
    ensures |a| + |b| >= |all| <==> a + b == all
  {
    assert |a + b| == |a| + |b|;
    SubsetSize(a + b, all);
  }

  lemma ThreeParts(a: set<int>, b: set<int>, c: set<int>, all: set<int>)
    requires a !! b && a !! c && b !! c && a <= all && b <= all && c <= all
    ensures |a| + |b| + |c| >= |all| <==> a + b + c == all
  {
    assert |a + b| == |a| + |b|;
    assert |a + b + c| == |a + b| + |c|;
    SubsetSize(a + b + c, all);
  }

  // ----- The run so far -----

  lemma NoTries(s: Setup, tries: nat)
    ensures Going(s, tries, []) && After(s, []) == Blank(s.peers)
  {
  }

  lemma Concluded(s: Setup, tries: nat, trails: seq<seq<int>>, r: Result<Stop>)
    requires s.Valid() && Run(s, tries, trails, r)
    ensures r == Ok(EnoughLinks) ==> AllHave(s, After(s, trails), s.limits.ok)
    ensures r == Ok(MinimalLinks) ==> AllHave(s, After(s, trails), s.limits.min)
    ensures r.Ok? && tries > 0 && s.Fits() ==>
              && (Connected(After(s, trails), s.peers) <==> NoneIsolated(After(s, trails), s.peers))
              && (r.value != TriesUsedUp || s.AlwaysConnects() ==> Connected(After(s, trails), s.peers))
  {
    hide *;
    RunDegrees(s, tries, trails, r);
    if r.Ok? && tries > 0 && s.Fits() {
      RunConnects(s, tries, trails, r);
    }
  }

  lemma RunsOut(s: Setup, tries: nat, trails: seq<seq<int>>)
    requires Going(s, tries, trails) && |trails| == tries
    ensures Run(s, tries, trails, Ok(TriesUsedUp))
  {
    hide Going;
  }

  // One more try either lets the search go on or ends it with its verdict.
  lemma OneMoreTry(s: Setup, tries: nat, done: seq<seq<int>>, t: seq<int>)
    requires Going(s, tries, done) && Draws(s, t) && |done| < tries
    ensures After(s, done + [t]) == AfterTry(s, After(s, done), t)
    ensures var v := Verdict(s, AfterTry(s, After(s, done), t), t, |done| + 1 == tries);
            && (v.None? ==> Going(s, tries, done + [t]))
            && (v.Some? ==> Run(s, tries, done + [t], v.value))
  {
    hide AfterTry, Draws, Verdict;
    var more := done + [t];
    assert more[..|more| - 1] == done;
  }

  lemma TreeOf(s: Setup, t: seq<int>)
    requires Draws(s, t)
    ensures Trail(s.peers, s.private, t)
  {
  }

  lemma Stores(s: Setup, g: Graph, t: seq<int>)
    ensures AfterTry(s, g, t) ==
              if Complete(s, t) || |s.private| >= |s.Public()| then StoredTrail(g, s.limits.max, t) else g
  {
  }

  // ----- Trails under construction -----

  lemma TrailEdge(peers: set<int>, private: set<int>, t: seq<int>, edges: seq<(int, int)>, i: int)
    requires Trail(peers, private, t) && TrailEdges(t, edges) && 0 <= i < |edges|
    ensures i + 1 < |t| && edges[i] == (t[i], t[i + 1])
    ensures t[i] in peers && t[i + 1] in peers && t[i] != t[i + 1] && |peers| > 1
    ensures t[i] !in private || t[i + 1] !in private
  {
    TrailStep(peers, private, t, i);
  }

  lemma TrailLength(t: seq<int>, edges: seq<(int, int)>)
    requires TrailEdges(t, edges)
    ensures |edges| == |t| - 1 && t[0..] == t
  {
  }

  lemma TrailSize(peers: set<int>, private: set<int>, t: seq<int>, edges: seq<(int, int)>)
    requires Trail(peers, private, t) && TrailEdges(t, edges)
    ensures |edges| == |Elements(t)| - 1
  {
    DistinctSize(t);
  }

  lemma TrailStart(peers: set<int>, private: set<int>, a: int)
    requires a in peers
    ensures Trail(peers, private, [a]) && TrailEdges([a], []) && Elements([a]) == {a}
  {
  }

  lemma TrailGrows(peers: set<int>, private: set<int>, t: seq<int>, edges: seq<(int, int)>, b: int)
    requires Trail(peers, private, t) && TrailEdges(t, edges) && b in peers && b !in Elements(t)
    requires t[|t| - 1] !in private || b !in private
    ensures Trail(peers, private, t + [b]) && TrailEdges(t + [b], edges + [(t[|t| - 1], b)])
    ensures Elements(t + [b]) == Elements(t) + {b}
  {
  }
}
