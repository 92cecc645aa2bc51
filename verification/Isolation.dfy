// When the random strategy can leave cells isolated although it returns normally
// (uno/registry/deployment_strategy/random_deployment_strategy.py): exactly with at
// least three public cells and as many private cells, or one more.
module Isolation {
  import opened Prelude
  import opened Graphs
  import opened RandomRuns

  predicate AtRisk(public: nat, private: nat) {
    3 <= public <= private <= public + 1
  }

  // The setup that the strategy hands to the search.
  function StrategySetup(peers: set<int>, private: set<int>): (s: Setup)
    requires private <= peers
  {
    Setup(peers, private, ChooseThresholds(|peers - private|, |private|))
  }

  lemma SetupIsValid(peers: set<int>, private: set<int>)
    requires private <= peers && peers - private != {}
    ensures StrategySetup(peers, private).Valid() && StrategySetup(peers, private).Fits()
    ensures |peers| == |peers - private| + |private|
    ensures StrategySetup(peers, private).AlwaysConnects() <==> !AtRisk(|peers - private|, |private|)
  {
    assert |peers| == |peers - private| + |private| by {
      assert peers == (peers - private) + private;
    }
    ThresholdsAreOrdered(|peers - private|, |private|);
  }

  lemma {:induction false} SomeOrder(xs: set<int>) returns (s: seq<int>)
    ensures Enumerates(s, xs) && |s| == |xs|
    decreases |xs|
  {
    if xs == {} {
      s := [];
    } else {
      var x := Witness(xs);
      var rest := SomeOrder(xs - {x});
      assert x !in Elements(rest);
      s := rest + [x];
      assert Elements(s) == Elements(rest) + {x};
    }
  }

  // ----- The trails of the run -----

  // All public peers, the last one next to the private peer q[i].
  function StuckAt(u: seq<int>, q: seq<int>, i: int): (t: seq<int>)
    requires 0 <= i < |q|
  {
    u + [q[i]]
  }

  // A complete trail that starts with q[0] and the last public peer.
  function Alternating(u: seq<int>, q: seq<int>): (t: seq<int>)
    requires |u| <= |q| <= |u| + 1
    ensures |t| == |u| + |q|
  {
    seq(|u| + |q|, j requires 0 <= j < |u| + |q| => if j % 2 == 0 then q[j / 2] else u[|u| - 1 - j / 2])
  }

  ghost predicate Orders(s: Setup, u: seq<int>, q: seq<int>) {
    && s.Valid() && s.Fits() && AtRisk(|s.Public()|, |s.private|)
    && s.limits == ChooseThresholds(|s.Public()|, |s.private|)
    && Enumerates(u, s.Public()) && Enumerates(q, s.private)
    && |u| == |s.Public()| && |q| == |s.private|
  }

  lemma Sides(s: Setup, u: seq<int>, q: seq<int>)
    requires Orders(s, u, q)
    ensures forall i :: 0 <= i < |u| ==> u[i] in s.peers && u[i] !in s.private
    ensures forall i :: 0 <= i < |q| ==> q[i] in s.peers && q[i] in s.private && q[i] !in u
    ensures 3 <= |u| <= |q| <= |u| + 1 && s.limits.max == 3 + |q| - |u| && s.limits.min == 1 && s.limits.ok == 2
  {
    forall i | 0 <= i < |u|
      ensures u[i] in s.Public()
    {
      assert u[i] in Elements(u);
    }
    forall i | 0 <= i < |q|
      ensures q[i] in s.private && q[i] !in u
    {
      var x := q[i];
      assert x in Elements(q);
      assert x in u ==> x in Elements(u);
    }
  }

  lemma StuckIsDrawn(s: Setup, u: seq<int>, q: seq<int>, i: int)
    requires Orders(s, u, q) && 0 <= i < |q|
    ensures Draws(s, StuckAt(u, q, i)) && !Complete(s, StuckAt(u, q, i))
  {
    Sides(s, u, q);
    var t := StuckAt(u, q, i);
    assert Elements(t) == Elements(u) + {q[i]};
    assert Trail(s.peers, s.private, t);
    assert Neighbors(s, Elements(t), q[i]) == {};
    var other := q[if i == 0 then 1 else 0];
    assert other in s.peers && other !in Elements(t);
  }

  lemma AlternatingIsDrawn(s: Setup, u: seq<int>, q: seq<int>)
    requires Orders(s, u, q) && |u| <= |q| <= |u| + 1
    ensures Draws(s, Alternating(u, q)) && Complete(s, Alternating(u, q))
    ensures Trail(s.peers, s.private, Alternating(u, q))
  {
    Sides(s, u, q);
    AlternatingDistinct(s, u, q);
    AlternatingAll(s, u, q);
    forall j | 0 <= j < |u| + |q| - 1
      ensures Alternating(u, q)[j] !in s.private || Alternating(u, q)[j + 1] !in s.private
    {
      AlternatingSide(s, u, q, j);
    }
    hide *;
    var t := Alternating(u, q);
    CompleteIsDrawn(s, t);
  }

  lemma CompleteIsDrawn(s: Setup, t: seq<int>)
    requires |t| > 0 && Distinct(t) && Elements(t) == s.peers
    requires forall i :: 0 <= i < |t| - 1 ==> t[i] !in s.private || t[i + 1] !in s.private
    ensures Draws(s, t) && Complete(s, t) && Trail(s.peers, s.private, t)
  {
  }

  lemma AlternatingSide(s: Setup, u: seq<int>, q: seq<int>, j: int)
    requires Orders(s, u, q) && |u| <= |q| <= |u| + 1 && 0 <= j < |u| + |q| - 1
    ensures Alternating(u, q)[j] !in s.private || Alternating(u, q)[j + 1] !in s.private
  {
    Sides(s, u, q);
    hide Orders;
    var odd := if j % 2 == 1 then j else j + 1;
    assert Alternating(u, q)[odd] !in s.private;
  }

  lemma AlternatingDistinct(s: Setup, u: seq<int>, q: seq<int>)
    requires Orders(s, u, q) && |u| <= |q| <= |u| + 1
    ensures Distinct(Alternating(u, q))
  {
    Sides(s, u, q);
    var t := Alternating(u, q);
    forall j, k | 0 <= j < k < |t|
      ensures t[j] != t[k]
    {
      if j % 2 == 0 && k % 2 == 0 {
        assert q[j / 2] != q[k / 2];
      } else if j % 2 == 1 && k % 2 == 1 {
        assert u[|u| - 1 - k / 2] != u[|u| - 1 - j / 2];
      } else {
        assert (t[j] in s.private) != (t[k] in s.private);
      }
    }
  }

  lemma AlternatingAll(s: Setup, u: seq<int>, q: seq<int>)
    requires Orders(s, u, q) && |u| <= |q| <= |u| + 1
    ensures Elements(Alternating(u, q)) == s.peers
  {
    Sides(s, u, q);
    var t := Alternating(u, q);
    forall x | x in s.peers
      ensures x in t
    {
      if x in s.private {
        assert x in Elements(q);
        var i :| 0 <= i < |q| && q[i] == x;
        assert t[2 * i] == x;
      } else {
        assert x in Elements(u);
        var i :| 0 <= i < |u| && u[i] == x;
        assert t[2 * (|u| - 1 - i) + 1] == x;
      }
    }
  }

  // ----- Filling the last public peer -----

  // After the stuck trails at q[1], .., q[i]: the public peers form a line, the last
  // of them has more than i links, and the other private peers have none.
  ghost predicate Filling(s: Setup, u: seq<int>, q: seq<int>, i: int, g: Graph) {
    && Sound(g, s.peers, s.private, s.limits.max)
    && |u| > 0 && u[|u| - 1] in g
    && LineFrom(g, u, 0)
    && |g[u[|u| - 1]]| >= i + 1
    && forall j :: 0 <= j < |q| && (j == 0 || i < j) ==> q[j] in g && g[q[j]] == {}
  }

  lemma FirstStuck(s: Setup, u: seq<int>, q: seq<int>)
    requires Orders(s, u, q)
    ensures 1 < |q| && Filling(s, u, q, 1, StoredTrail(Blank(s.peers), s.limits.max, StuckAt(u, q, 1)))
  {
    Sides(s, u, q);
    StuckIsDrawn(s, u, q, 1);
    var t := StuckAt(u, q, 1);
    assert Trail(s.peers, s.private, t) && (|s.peers| > 1 ==> s.limits.max >= 2);
    hide Draws, Complete, Trail, Enumerates, Sound, Stored, StoredTrail, Blank, Line, LineFrom, Grows, AtRisk;
    BlankIsSound(s.peers, s.private, s.limits.max);
    StoredWhole(Blank(s.peers), s.peers, s.private, s.limits.max, t);
    FirstTrailIsLine(s.peers, s.private, s.limits.max, t);
    var g := StoredTrail(Blank(s.peers), s.limits.max, t);
    forall j | 0 <= j < |q| && (j == 0 || 1 < j)
      ensures q[j] in g && g[q[j]] == {}
    {
      OffTrail(s, u, q, j, 1);
      BlankAt(s.peers, q[j]);
    }
    hide Orders;
    LineHead(g, s.peers, u, q[1]);
    LineEnd(g, s.peers, u, q[1], u[|u| - 1]);
  }

  lemma BlankAt(peers: set<int>, x: int)
    requires x in peers
    ensures x in Blank(peers) && Blank(peers)[x] == {}
  {
  }

  lemma LineHead(g: Graph, peers: set<int>, u: seq<int>, x: int)
    requires Line(g, peers, u + [x])
    ensures LineFrom(g, u, 0)
  {
    hide Step;
    var t := u + [x];
    forall j | 0 <= j < |u| - 1
      ensures Step(g, u[j], u[j + 1]) && Step(g, u[j + 1], u[j])
    {
      assert t[j] == u[j] && t[j + 1] == u[j + 1];
    }
  }

  lemma LineEnd(g: Graph, peers: set<int>, u: seq<int>, x: int, a: int)
    requires Line(g, peers, u + [x]) && |u| >= 2 && a == u[|u| - 1] && x != u[|u| - 2]
    ensures a in g && |g[a]| >= 2
  {
    var t, n := u + [x], |u|;
    assert t[n - 1] == a && t[n] == x && t[n - 2] == u[n - 2];
    assert Step(g, t[n - 1], t[n - 1 + 1]) && Step(g, t[n - 2 + 1], t[n - 2]);
    SubsetSize({u[n - 2], x}, g[a]);
  }

  lemma OffTrail(s: Setup, u: seq<int>, q: seq<int>, j: int, i: int)
    requires Orders(s, u, q) && 0 <= j < |q| && 0 <= i < |q| && i != j
    ensures q[j] in s.peers && q[j] !in StuckAt(u, q, i)
  {
    Sides(s, u, q);
    assert i < j ==> q[i] != q[j];
    assert j < i ==> q[j] != q[i];
  }

  lemma Present(g: Graph, max: nat, a: int, b: int)
    requires Step(g, a, b) && Step(g, b, a)
    ensures Stored(g, max, a, b) == g
  {
    assert g[a] + {b} == g[a] && g[b] + {a} == g[b];
    assert g[a := g[a]] == g && g[b := g[b]] == g;
  }

  // Of a trail whose other edges are present already, only the last one matters.
  lemma {:induction false} OnlyLast(g: Graph, max: nat, u: seq<int>, x: int, i: nat)
    requires LineFrom(g, u, 0) && i < |u|
    ensures StoredTrail(g, max, (u + [x])[i..]) == Stored(g, max, u[|u| - 1], x)
    decreases |u| - i
  {
    hide Step, Stored, StoredTrail;
    var t := u + [x];
    StoredFirst(g, max, t, i);
    if i == |u| - 1 {
      StoredLast(Stored(g, max, u[i], x), max, t[i + 1..]);
    } else {
      assert Step(g, u[i], u[i + 1]) && Step(g, u[i + 1], u[i]);
      Present(g, max, u[i], u[i + 1]);
      OnlyLast(g, max, u, x, i + 1);
    }
  }

  lemma NextStuck(s: Setup, u: seq<int>, q: seq<int>, i: int, g: Graph)
    requires Orders(s, u, q) && Filling(s, u, q, i, g) && 1 <= i < s.limits.max - 1
    ensures i + 1 < |q| && Filling(s, u, q, i + 1, StoredTrail(g, s.limits.max, StuckAt(u, q, i + 1)))
  {
    Sides(s, u, q);
    var max, a, x := s.limits.max, u[|u| - 1], q[i + 1];
    var t := StuckAt(u, q, i + 1);
    StuckIsDrawn(s, u, q, i + 1);
    assert Trail(s.peers, s.private, t);
    hide Draws, Complete, Trail, Enumerates, Sound, Stored, StoredTrail, LineFrom, Grows, AtRisk;
    StoredWhole(g, s.peers, s.private, max, t);
    OnlyLast(g, max, u, x, 0);
    assert t[0..] == t;
    var h := StoredTrail(g, max, t);
    forall j | 0 <= j < |q| && (j == 0 || i + 1 < j)
      ensures q[j] in h && h[q[j]] == {}
    {
      OffTrail(s, u, q, j, i + 1);
    }
    hide Orders;
    LineGrows(g, h, u);
    OneLinkMore(g, s, max, a, x, i);
  }

  // The link to a peer without links is accepted as long as there is room.
  lemma OneLinkMore(g: Graph, s: Setup, max: nat, a: int, x: int, i: int)
    requires Sound(g, s.peers, s.private, s.limits.max) && a in g && x in g && a != x && g[x] == {}
    requires |g[a]| >= i + 1 && i + 1 < max
    ensures a in Stored(g, max, a, x) && |Stored(g, max, a, x)[a]| >= i + 2
  {
    assert x !in g[a] by {
      hide NoPrivateEdges, Capped;
    }
    hide Sound;
    assert |g[a] + {x}| == |g[a]| + 1;
  }

  lemma LineGrows(g: Graph, h: Graph, u: seq<int>)
    requires Grows(g, h) && LineFrom(g, u, 0)
    ensures LineFrom(h, u, 0)
  {
    hide Step;
    forall j | 0 <= j < |u| - 1
      ensures Step(h, u[j], u[j + 1]) && Step(h, u[j + 1], u[j])
    {
      GrowsAt(g, h, u[j], u[j + 1]);
      GrowsAt(g, h, u[j + 1], u[j]);
    }
  }

  // ----- Leaving q[0] alone -----

  // The last public peer is full and q[0] has no link.
  ghost predicate Settled(s: Setup, u: seq<int>, q: seq<int>, g: Graph) {
    && Sound(g, s.peers, s.private, s.limits.max)
    && |u| > 0 && |q| > 0 && u[|u| - 1] in g && q[0] in g
    && |g[u[|u| - 1]]| >= s.limits.max
    && g[q[0]] == {}
  }

  lemma StaysSettled(s: Setup, u: seq<int>, q: seq<int>, g: Graph)
    requires Orders(s, u, q) && Settled(s, u, q, g) && |u| <= |q| <= |u| + 1
    ensures Settled(s, u, q, StoredTrail(g, s.limits.max, Alternating(u, q)))
  {
    hide Orders, Draws, Complete, StoredTrail, Stored, Alternating, Distinct, AtRisk, Setup.Valid, Setup.Fits, Sound;
    AlternatingIsDrawn(s, u, q);
    var max, t := s.limits.max, Alternating(u, q);
    AlternatingHead(u, q);
    assert t[0..] == t;
    StoredFirst(g, max, t, 0);
    StoredFull(g, max, t[0], t[1]);
    StoredRest(g, s.peers, s.private, max, t, 1);
    NotAgain(t);
    hide Trail, Grows;
    var h := StoredTrail(g, max, t[1..]);
    SoundKeys(h, s);
    FullStaysFull(g, h, u[|u| - 1]);
  }

  lemma AlternatingHead(u: seq<int>, q: seq<int>)
    requires |u| <= |q| <= |u| + 1 && |u| > 0
    ensures Alternating(u, q)[0] == q[0] && Alternating(u, q)[1] == u[|u| - 1]
  {
  }

  lemma StoredFull(g: Graph, max: nat, a: int, b: int)
    requires b in g && |g[b]| >= max
    ensures Stored(g, max, a, b) == g
  {
  }

  lemma NotAgain(t: seq<int>)
    requires Distinct(t) && |t| > 0
    ensures t[0] !in t[1..]
  {
    forall j | 0 <= j < |t| - 1
      ensures t[1..][j] != t[0]
    {
      assert t[1..][j] == t[j + 1];
    }
  }

  lemma SoundKeys(g: Graph, s: Setup)
    requires Sound(g, s.peers, s.private, s.limits.max)
    ensures g.Keys == s.peers
  {
  }

  lemma FullStaysFull(g: Graph, h: Graph, a: int)
    requires Grows(g, h) && a in g && a in h
    ensures |h[a]| >= |g[a]|
  {
    forall b | b in g[a]
      ensures b in h[a]
    {
      assert Step(g, a, b);
    }
    SubsetSize(g[a], h[a]);
  }

  // ----- The run -----

  // As long as q[0] has no link, no try ends the search, unless the last one is stuck.
  lemma NoVerdict(s: Setup, u: seq<int>, q: seq<int>, g: Graph, t: seq<int>, last: bool)
    requires Orders(s, u, q) && q[0] in g && g[q[0]] == {} && (last ==> Complete(s, t))
    ensures Verdict(s, g, t, last).None?
  {
    Sides(s, u, q);
    var x := q[0];
    assert x in s.peers && |g[x]| == 0;
    hide Orders;
    assert !AllHave(s, g, s.limits.ok) && !AllHave(s, g, s.limits.min);
  }

  lemma GoesOn(s: Setup, tries: nat, done: seq<seq<int>>, t: seq<int>)
    requires Going(s, tries, done) && Draws(s, t) && |done| < tries
    requires Verdict(s, AfterTry(s, After(s, done), t), t, |done| + 1 == tries).None?
    ensures Going(s, tries, done + [t]) && After(s, done + [t]) == AfterTry(s, After(s, done), t)
  {
    hide AfterTry, Draws, Verdict;
    var more := done + [t];
    assert more[..|more| - 1] == done;
  }

  lemma {:induction false} Fill(s: Setup, u: seq<int>, q: seq<int>, tries: nat, i: nat) returns (trails: seq<seq<int>>)
    requires Orders(s, u, q) && 1 <= i < s.limits.max <= tries
    ensures |trails| == i && Going(s, tries, trails) && Filling(s, u, q, i, After(s, trails))
  {
    hide Draws, Going, Verdict, StoredTrail, Filling, Complete, Orders, Setup.Valid;
    var done: seq<seq<int>> := [];
    if i == 1 {
      FirstStuck(s, u, q);
      NothingDone(s, tries);
    } else {
      done := Fill(s, u, q, tries, i - 1);
      NextStuck(s, u, q, i - 1, After(s, done));
    }
    var t := StuckAt(u, q, i);
    StuckIsDrawn(s, u, q, i);
    var h := AfterTry(s, After(s, done), t);
    assert h == StoredTrail(After(s, done), s.limits.max, t) by { Stuck(s, u, q, After(s, done), t); }
    FirstFree(s, u, q, i, h);
    NoVerdict(s, u, q, h, t, false);
    GoesOn(s, tries, done, t);
    trails := done + [t];
  }

  lemma NothingDone(s: Setup, tries: nat)
    ensures Going(s, tries, []) && After(s, []) == Blank(s.peers)
  {
  }

  // With this many private peers every trail is stored.
  lemma Stuck(s: Setup, u: seq<int>, q: seq<int>, g: Graph, t: seq<int>)
    requires Orders(s, u, q)
    ensures AfterTry(s, g, t) == StoredTrail(g, s.limits.max, t)
  {
  }

  lemma FirstFree(s: Setup, u: seq<int>, q: seq<int>, i: int, g: Graph)
    requires Orders(s, u, q) && Filling(s, u, q, i, g)
    ensures |q| > 0 && q[0] in g && g[q[0]] == {}
    ensures i + 1 >= s.limits.max ==> Settled(s, u, q, g)
  {
    Sides(s, u, q);
  }

  lemma {:induction false} Idle(s: Setup, u: seq<int>, q: seq<int>, tries: nat, i: nat) returns (trails: seq<seq<int>>)
    requires Orders(s, u, q) && s.limits.max - 1 <= i <= tries && s.limits.max <= tries
    ensures |trails| == i && Going(s, tries, trails) && Settled(s, u, q, After(s, trails))
    decreases i
  {
    hide Draws, Going, Verdict, StoredTrail, Filling, Complete, Settled, After, AfterTry;
    Sides(s, u, q);
    hide Orders;
    if i == s.limits.max - 1 {
      trails := Fill(s, u, q, tries, i);
      FirstFree(s, u, q, i, After(s, trails));
    } else {
      var done := Idle(s, u, q, tries, i - 1);
      var t := Alternating(u, q);
      AlternatingIsDrawn(s, u, q);
      StaysSettled(s, u, q, After(s, done));
      Stuck(s, u, q, After(s, done), t);
      SettledFree(s, u, q, AfterTry(s, After(s, done), t));
      NoVerdict(s, u, q, AfterTry(s, After(s, done), t), t, i == tries);
      GoesOn(s, tries, done, t);
      trails := done + [t];
    }
  }

  lemma SettledFree(s: Setup, u: seq<int>, q: seq<int>, g: Graph)
    requires Settled(s, u, q, g)
    ensures |q| > 0 && q[0] in g && g[q[0]] == {}
  {
  }

  // Whenever the counts are at risk and there are at least as many tries as the cap
  // allows links, some run returns normally and leaves a graph that is not connected:
  // stuck trails fill one public peer, then only complete trails are drawn whose first
  // edge that peer refuses.
  lemma IsolationHappens(s: Setup, tries: nat) returns (trails: seq<seq<int>>)
    requires s.Valid() && s.Fits() && AtRisk(|s.Public()|, |s.private|)
    requires s.limits == ChooseThresholds(|s.Public()|, |s.private|) && tries >= s.limits.max
    ensures Run(s, tries, trails, Ok(TriesUsedUp)) && !Connected(After(s, trails), s.peers)
  {
    var u := SomeOrder(s.Public());
    var q := SomeOrder(s.private);
    Sides(s, u, q);
    assert Orders(s, u, q);
    hide Orders, Going, After, Connected, Draws, Verdict, AtRisk, ChooseThresholds, Setup.Valid, Setup.Fits;
    trails := Idle(s, u, q, tries, tries);
    SettledFree(s, u, q, After(s, trails));
    SubsetSize({u[0], q[0]}, s.peers);
    if Connected(After(s, trails), s.peers) {
      Leaves(After(s, trails), s.peers, q[0]);
      assert false;
    }
  }

  // What the strategy's thresholds are worth: stopping with enough links leaves every
  // peer at least two (one, if there are only two peers), stopping with the minimum at
  // least one, and with four peers or more no peer ever gets more than three, plus one
  // for every private peer that exceeds the public ones.
  lemma DrawnDegrees(peers: set<int>, private: set<int>, tries: nat, trails: seq<seq<int>>, r: Result<Stop>, p: int)
    requires private <= peers && peers - private != {} && |peers| >= 2 && tries > 0 && p in peers
    requires Run(StrategySetup(peers, private), tries, trails, r)
    ensures var g := After(StrategySetup(peers, private), trails); var public := |peers - private|;
            && p in g
            && (r == Ok(EnoughLinks) ==> |g[p]| >= (if |peers| == 2 then 1 else 2))
            && (r == Ok(MinimalLinks) ==> |g[p]| >= 1)
            && (|peers| >= 4 ==> |g[p]| <= 3 + (if |private| > public then |private| - public else 0))
  {
    var s := StrategySetup(peers, private);
    SetupIsValid(peers, private);
    RunDegrees(s, tries, trails, r);
    RunIsSound(s, tries, trails, r);
    hide Run, After, Mutual, NoPrivateEdges;
  }

  lemma RunIsSound(s: Setup, tries: nat, trails: seq<seq<int>>, r: Result<Stop>)
    requires s.Valid() && s.Fits() && Run(s, tries, trails, r)
    ensures Sound(After(s, trails), s.peers, s.private, s.limits.max)
  {
    hide Sound, Reached, Draws, AfterTry, Grows, Verdict, Complete, Setup.Valid, Setup.Fits;
    if Going(s, tries, trails) {
      GoingKeeps(s, tries, trails);
    } else {
      var k := |trails| - 1;
      GoingKeeps(s, tries, trails[..k]);
      TryKeeps(s, After(s, trails[..k]), trails[k]);
    }
  }

  // ----- Runs that fail -----

  // A walk only gets stuck if there is a second private peer.
  lemma StuckNeedsTwo(s: Setup, t: seq<int>)
    requires s.Valid() && Draws(s, t) && !Complete(s, t)
    ensures |s.private| >= 2
  {
    StuckTrail(s, t);
    var last := t[|t| - 1];
    assert last in Elements(t);
    assert Elements(t) + (s.peers - Elements(t)) == s.peers;
    var other := Witness(s.peers - Elements(t));
    SubsetSize({last, other}, s.private);
  }

  // With two, drawing the same stuck trail every time leaves one of them out.
  lemma StuckIsPossible(s: Setup, u: seq<int>, a: int, b: int)
    requires s.Valid() && Enumerates(u, s.Public()) && a in s.private && b in s.private && a != b
    ensures Draws(s, u + [a]) && !Complete(s, u + [a]) && b !in u + [a]
  {
    var t := u + [a];
    assert Elements(t) == Elements(u) + {a};
    forall i | 0 <= i < |u|
      ensures u[i] in s.Public()
    {
      assert u[i] in Elements(u);
    }
    assert b !in Elements(t);
    assert Trail(s.peers, s.private, t);
  }

  lemma StillLeftOut(s: Setup, g: Graph, t: seq<int>, b: int)
    requires s.Valid() && Draws(s, t) && b !in t && b in s.peers && b in g && g[b] == {}
    requires Sound(g, s.peers, s.private, s.limits.max)
    ensures var h := AfterTry(s, g, t); Sound(h, s.peers, s.private, s.limits.max) && b in h && h[b] == {}
  {
    hide Sound, StoredTrail;
    StoredWhole(g, s.peers, s.private, s.limits.max, t);
  }

  lemma LeftOutVerdict(s: Setup, g: Graph, t: seq<int>, b: int, last: bool)
    requires !Complete(s, t) && s.limits.min >= 1 && b in s.peers && b in g && g[b] == {}
    ensures Verdict(s, g, t, last) == if last then Some(Err(GenerationFailed)) else None
  {
    assert |g[b]| == 0;
    assert !AllHave(s, g, s.limits.min);
  }

  lemma {:induction false} KeepsFailing(s: Setup, t: seq<int>, b: int, tries: nat, i: nat)
    returns (trails: seq<seq<int>>)
    requires s.Valid() && s.limits.min >= 1 && Draws(s, t) && !Complete(s, t) && b !in t && b in s.peers && i < tries
    ensures |trails| == i && Going(s, tries, trails)
    ensures var g := After(s, trails); Sound(g, s.peers, s.private, s.limits.max) && b in g && g[b] == {}
  {
    hide Draws, Going, Verdict, Complete, Sound, AfterTry, Setup.Valid;
    if i == 0 {
      NothingDone(s, tries);
      BlankIsSound(s.peers, s.private, s.limits.max);
      BlankAt(s.peers, b);
      trails := [];
    } else {
      var done := KeepsFailing(s, t, b, tries, i - 1);
      StillLeftOut(s, After(s, done), t, b);
      LeftOutVerdict(s, AfterTry(s, After(s, done), t), t, b, false);
      GoesOn(s, tries, done, t);
      trails := done + [t];
    }
  }

  lemma Fails(s: Setup, tries: nat, done: seq<seq<int>>, t: seq<int>)
    requires Going(s, tries, done) && Draws(s, t) && |done| + 1 == tries
    requires Verdict(s, AfterTry(s, After(s, done), t), t, true) == Some(Err(GenerationFailed))
    ensures Run(s, tries, done + [t], Err(GenerationFailed))
  {
    hide AfterTry, Draws, Verdict;
    var more := done + [t];
    assert more[..|more| - 1] == done;
  }

  ghost predicate CanFail(s: Setup, tries: nat) {
    exists trails :: Run(s, tries, trails, Err(GenerationFailed))
  }

  lemma SomeRunFails(s: Setup, u: seq<int>, a: int, b: int, tries: nat)
    requires s.Valid() && s.limits.min >= 1 && tries > 0
    requires Enumerates(u, s.Public()) && a in s.private && b in s.private && a != b && b in s.peers
    ensures CanFail(s, tries)
  {
    hide Draws, Going, Verdict, Complete, Sound, AfterTry, After, Run, Setup.Valid, Enumerates;
    var t := u + [a];
    StuckIsPossible(s, u, a, b);
    var done := KeepsFailing(s, t, b, tries, tries - 1);
    StillLeftOut(s, After(s, done), t, b);
    LeftOutVerdict(s, AfterTry(s, After(s, done), t), t, b, true);
    Fails(s, tries, done, t);
  }

  // The exact counts for which the search can fail: two private peers or more.
  lemma CanFailIff(peers: set<int>, private: set<int>, tries: nat)
    requires private <= peers && peers - private != {} && tries > 0
    ensures CanFail(StrategySetup(peers, private), tries) <==> |private| >= 2
  {
    var s := StrategySetup(peers, private);
    SetupIsValid(peers, private);
    if |private| >= 2 {
      ThresholdsAreOrdered(|peers - private|, |private|);
      hide CanFail, ChooseThresholds, Setup.Valid;
      var q := SomeOrder(private);
      assert q[0] in Elements(q) && q[1] in Elements(q);
      var u := SomeOrder(s.Public());
      SomeRunFails(s, u, q[0], q[1], tries);
    }
    if CanFail(s, tries) {
      hide Going, Draws, After, Setup.Valid;
      var trails :| Run(s, tries, trails, Err(GenerationFailed));
      StuckNeedsTwo(s, trails[|trails| - 1]);
    }
  }

  // The exact condition: every normal return of the search, with the thresholds of the
  // strategy and at least four tries, is connected if and only if the counts are not
  // at risk.
  ghost predicate EveryRunConnects(s: Setup, tries: nat) {
    forall trails, r :: Run(s, tries, trails, r) && r.Ok? ==> Connected(After(s, trails), s.peers)
  }

  lemma ConnectsIff(peers: set<int>, private: set<int>, tries: nat)
    requires private <= peers && peers - private != {} && tries >= 4
    ensures EveryRunConnects(StrategySetup(peers, private), tries) <==> !AtRisk(|peers - private|, |private|)
  {
    var s := StrategySetup(peers, private);
    SetupIsValid(peers, private);
    if AtRisk(|peers - private|, |private|) {
      var trails := IsolationHappens(s, tries);
    } else {
      hide Run, Connected, After, Setup.Valid, Setup.Fits, Setup.AlwaysConnects;
      forall trails, r | Run(s, tries, trails, r) && r.Ok?
        ensures Connected(After(s, trails), s.peers)
      {
        RunConnects(s, tries, trails, r);
      }
    }
  }

  // The smallest case: three public and three private cells.
  lemma SmallestCase() returns (trails: seq<seq<int>>)
    ensures var s := StrategySetup({1, 2, 3, 4, 5, 6}, {4, 5, 6});
            Run(s, 3, trails, Ok(TriesUsedUp)) && !Connected(After(s, trails), s.peers)
  {
    var peers, private := {1, 2, 3, 4, 5, 6}, {4, 5, 6};
    assert peers - private == {1, 2, 3};
    SetupIsValid(peers, private);
    trails := IsolationHappens(StrategySetup(peers, private), 3);
  }
}
