// Detection of overlapping LANs (uno/registry/uvn.py).
module Clashes {
  import opened Prelude
  import opened LinkAllocation

  datatype Cell = Cell(id: int, private: bool, lans: set<Network>)

  // ipaddress.IPv4Network.overlaps: either end of one network lies in the other.
  predicate Overlaps(n: Network, m: Network)
    requires n.prefix <= 32 && m.prefix <= 32
  {
    || n.Contains(m.base)
    || n.Contains(m.base + m.Size() - 1)
    || m.Contains(n.base)
    || m.Contains(n.base + n.Size() - 1)
  }

  // Overlapping means sharing an address.
  lemma OverlapsMeansShared(n: Network, m: Network)
    requires n.prefix <= 32 && m.prefix <= 32
    ensures Overlaps(n, m) <==> exists ip :: n.Contains(ip) && m.Contains(ip)
    ensures Overlaps(n, m) <==> Overlaps(m, n)
  {
    hide Network.Size;
    if Overlaps(n, m) {
      if n.Contains(m.base) {
        assert m.Contains(m.base);
      } else if n.Contains(m.base + m.Size() - 1) {
        assert m.Contains(m.base + m.Size() - 1);
      } else if m.Contains(n.base) {
        assert n.Contains(n.base);
      } else {
        assert n.Contains(n.base + n.Size() - 1);
      }
    }
  }

  // Of two overlapping CIDR blocks the longer prefix lies inside the shorter one
  // (section 3.1 of RFC 4632).
  lemma {:induction false} BlocksNest(a: int, k: nat, b: int, l: nat, ip: int)
    requires HostBitsClear(a, k) && HostBitsClear(b, l) && k <= l
    requires a <= ip < a + Pow2(k) && b <= ip < b + Pow2(l)
    ensures b <= a && a + Pow2(k) <= b + Pow2(l)
    decreases k
  {
    if k > 0 {
      BlocksNest(a / 2, k - 1, b / 2, l - 1, ip / 2);
    }
  }

  lemma NetworksNest(n: Network, m: Network)
    requires n.Valid() && m.Valid() && n.prefix >= m.prefix && Overlaps(n, m)
    ensures m.base <= n.base && n.base + n.Size() <= m.base + m.Size()
  {
    OverlapsMeansShared(n, m);
    var ip :| n.Contains(ip) && m.Contains(ip);
    BlocksNest(n.base, 32 - n.prefix, m.base, 32 - m.prefix, ip);
  }

  ghost predicate Proper(nets: set<Network>) {
    forall n :: n in nets ==> n.Valid()
  }

  // The pairs among the given ones that overlap a network.
  ghost function Matches(pairs: set<(Cell, Network)>, n: Network): (r: set<(Cell, Network)>)
    requires n.prefix <= 32
  {
    set p | p in pairs && p.1.prefix <= 32 && Overlaps(n, p.1)
  }

  ghost function PairsOf(records: set<Cell>): (r: set<(Cell, Network)>) {
    set c, m | c in records && m in c.lans :: (c, m)
  }

  type Index = map<Network, set<(Cell, Network)>>

  function Entry(index: Index, n: Network): (r: set<(Cell, Network)>) {
    if n in index then index[n] else {}
  }

  ghost predicate ValidPairs(pairs: set<(Cell, Network)>) {
    forall p :: p in pairs ==> p.1.Valid()
  }

  // With networks to check: each holds exactly its overlapping pairs.
  ghost predicate Exact(index: Index, checked: set<Network>, pairs: set<(Cell, Network)>)
    requires Proper(checked) && ValidPairs(pairs)
  {
    checked <= index.Keys && forall n :: n in checked ==> index[n] == Matches(pairs, n)
  }

  // Without: every network holds its own pairs, only overlapping ones, and of two
  // overlapping pairs at least one is filed under the other's network.
  ghost predicate Mutual(index: Index, pairs: set<(Cell, Network)>)
    requires ValidPairs(pairs)
  {
    && index.Keys == (set p | p in pairs :: p.1)
    && (forall p :: p in pairs ==> p in index[p.1])
    && (forall n :: n in index ==> n.Valid() && index[n] <= Matches(pairs, n))
    && (forall p, q :: p in pairs && q in pairs && Overlaps(p.1, q.1) ==> q in index[p.1] || p in index[q.1])
  }

  // The entry of n after a network was filed under itself and the overlapped targets.
  ghost function Grown(index: Index, n: Network, targets: set<Network>, record: Cell, net: Network)
    : (r: set<(Cell, Network)>)
    requires Proper(targets) && net.Valid()
  {
    if n == net || (n in targets && Overlaps(n, net)) then Entry(index, n) + {(record, net)} else Entry(index, n)
  }

  ghost predicate FiledUnder(index: Index, targets: set<Network>, record: Cell, net: Network, r: Index)
    requires Proper(targets) && net.Valid()
  {
    r.Keys == index.Keys + {net} && forall n :: n in r ==> r[n] == Grown(index, n, targets, record, net)
  }

  // The innermost loop: one network of one record is filed under itself and under
  // every target network it overlaps.
  method FileNetwork(index: Index, targets: set<Network>, record: Cell, net: Network) returns (r: Index)
    requires targets <= index.Keys && Proper(targets) && net.Valid()
    ensures FiledUnder(index, targets, record, net, r)
  {
    r := index[net := Entry(index, net) + {(record, net)}];
    var todo := targets;
    while todo != {}
      invariant todo <= targets && r.Keys == index.Keys + {net}
      invariant forall n :: n in r && n !in todo ==> r[n] == Grown(index, n, targets, record, net)
      invariant forall n :: n in todo ==> r[n] == Grown(index, n, {}, record, net)
      decreases todo
    {
      hide Overlaps;
      var subnet := PickRandom(todo);
      OverlapsMeansShared(subnet, net);
      if Overlaps(subnet, net) || Overlaps(net, subnet) {
        r := r[subnet := r[subnet] + {(record, net)}];
      }
      todo := todo - {subnet};
    }
  }

  lemma MatchesStep(pairs: set<(Cell, Network)>, record: Cell, net: Network, n: Network)
    requires n.Valid() && net.Valid() && ValidPairs(pairs)
    ensures Matches(pairs + {(record, net)}, n) ==
              Matches(pairs, n) + (if Overlaps(n, net) then {(record, net)} else {})
    ensures n == net ==> Overlaps(n, net)
  {
    assert n.Contains(n.base);
  }

  lemma ExactStep(index: Index, r: Index, checked: set<Network>, pairs: set<(Cell, Network)>, record: Cell,
                  net: Network)
    requires Proper(checked) && net.Valid() && ValidPairs(pairs) && Exact(index, checked, pairs)
    requires FiledUnder(index, checked, record, net, r)
    ensures ValidPairs(pairs + {(record, net)}) && Exact(r, checked, pairs + {(record, net)})
  {
    hide Overlaps, Matches;
    forall n | n in checked
      ensures r[n] == Matches(pairs + {(record, net)}, n)
    {
      MatchesStep(pairs, record, net, n);
    }
  }

  lemma MutualStep(index: Index, r: Index, pairs: set<(Cell, Network)>, record: Cell, net: Network)
    requires net.Valid() && ValidPairs(pairs) && Mutual(index, pairs)
    requires Proper(index.Keys) && FiledUnder(index, index.Keys, record, net, r)
    ensures ValidPairs(pairs + {(record, net)}) && Mutual(r, pairs + {(record, net)})
  {
    hide Overlaps, Matches;
    var more := pairs + {(record, net)};
    forall n | n in r
      ensures n.Valid() && r[n] <= Matches(more, n)
    {
      MatchesStep(pairs, record, net, n);
    }
    forall p, q | p in more && q in more && Overlaps(p.1, q.1)
      ensures q in r[p.1] || p in r[q.1]
    {
      ReportedOnce(index, r, pairs, record, net, p, q);
    }
  }

  lemma ReportedOnce(index: Index, r: Index, pairs: set<(Cell, Network)>, record: Cell, net: Network,
                     p: (Cell, Network), q: (Cell, Network))
    requires net.Valid() && ValidPairs(pairs) && Mutual(index, pairs)
    requires Proper(index.Keys) && FiledUnder(index, index.Keys, record, net, r)
    requires p in pairs + {(record, net)} && q in pairs + {(record, net)}
    requires p.1.Valid() && q.1.Valid() && Overlaps(p.1, q.1)
    ensures p.1 in r && q.1 in r && (q in r[p.1] || p in r[q.1])
  {
    OverlapsMeansShared(p.1, q.1);
    hide Overlaps, Matches;
    if p in pairs && q in pairs {
      assert q in index[p.1] || p in index[q.1];
    } else if p in pairs {
      assert p.1 in index;
    } else if q in pairs {
      assert q.1 in index;
    }
  }

  ghost predicate Filed(index: Index, checked: set<Network>, pairs: set<(Cell, Network)>)
    requires Proper(checked) && ValidPairs(pairs)
  {
    if checked != {} then Exact(index, checked, pairs) else Mutual(index, pairs)
  }

  ghost function LansOf(record: Cell): (r: set<(Cell, Network)>) {
    set m | m in record.lans :: (record, m)
  }

  method FileRecord(start: Index, checked: set<Network>, record: Cell, ghost before: set<(Cell, Network)>)
    returns (index: Index)
    requires Proper(checked) && Proper(record.lans) && ValidPairs(before) && Filed(start, checked, before)
    ensures ValidPairs(before + LansOf(record)) && Filed(index, checked, before + LansOf(record))
  {
    hide Filed, FiledUnder;
    index := start;
    ghost var pairs := before;
    var nets := record.lans;
    while nets != {}
      invariant nets <= record.lans
      invariant ValidPairs(pairs) && pairs == before + set m | m in record.lans - nets :: (record, m)
      invariant Filed(index, checked, pairs)
      decreases nets
    {
      var net := PickRandom(nets);
      IndexKeys(index, checked, pairs);
      var next := FileNetwork(index, if checked != {} then checked else index.Keys, record, net);
      FiledOneMore(index, next, checked, pairs, record, net);
      index := next;
      pairs := pairs + {(record, net)};
      nets := nets - {net};
    }
    assert pairs == before + LansOf(record);
  }

  // With networks to check, the result is exactly the overlapping pairs of each
  // checked network that has any; without, no overlap goes unreported.
  method DetectClashes(records: set<Cell>, checked: set<Network>) returns (clashes: Index)
    requires Proper(checked) && forall c :: c in records ==> Proper(c.lans)
    ensures ValidPairs(PairsOf(records))
    ensures checked != {} ==> clashes.Keys == set n | n in checked && Matches(PairsOf(records), n) != {}
    ensures checked != {} ==> forall n :: n in clashes ==> clashes[n] == Matches(PairsOf(records), n)
    ensures checked == {} ==> Mutual(clashes, PairsOf(records))
  {
    hide Mutual, Overlaps, Matches;
    var index: Index := map n | n in checked :: {};
    ghost var pairs: set<(Cell, Network)> := {};
    assert Filed(index, checked, {}) by { NothingFiled(index, checked); }
    var todo := records;
    while todo != {}
      invariant todo <= records
      invariant ValidPairs(pairs) && pairs == PairsOf(records - todo)
      invariant Filed(index, checked, pairs)
      decreases todo
    {
      hide Filed;
      var record := PickRandom(todo);
      index := FileRecord(index, checked, record, pairs);
      PairsOfStep(records - todo, record);
      pairs := pairs + LansOf(record);
      assert records - todo + {record} == records - (todo - {record});
      todo := todo - {record};
    }
    assert records - todo == records;
    clashes := map n | n in index && (checked == {} || n in checked) && index[n] != {} :: index[n];
    if checked == {} {
      NoneEmpty(index, pairs);
      assert clashes == index;
    }
  }

  lemma NothingFiled(index: Index, checked: set<Network>)
    requires index == (map n | n in checked :: {}) && Proper(checked)
    ensures Filed(index, checked, {})
  {
  }

  lemma IndexKeys(index: Index, checked: set<Network>, pairs: set<(Cell, Network)>)
    requires Proper(checked) && ValidPairs(pairs) && Filed(index, checked, pairs)
    ensures checked != {} ==> checked <= index.Keys
    ensures checked == {} ==> Proper(index.Keys)
  {
    hide Matches, Overlaps;
  }

  lemma FiledOneMore(index: Index, r: Index, checked: set<Network>, pairs: set<(Cell, Network)>, record: Cell,
                     net: Network)
    requires Proper(checked) && net.Valid() && ValidPairs(pairs) && Filed(index, checked, pairs)
    requires checked == {} ==> Proper(index.Keys)
    requires FiledUnder(index, if checked != {} then checked else index.Keys, record, net, r)
    ensures ValidPairs(pairs + {(record, net)}) && Filed(r, checked, pairs + {(record, net)})
  {
    hide Matches, Overlaps, Exact, Mutual, FiledUnder;
    if checked != {} {
      ExactStep(index, r, checked, pairs, record, net);
    } else {
      MutualStep(index, r, pairs, record, net);
    }
  }

  lemma NoneEmpty(index: Index, pairs: set<(Cell, Network)>)
    requires ValidPairs(pairs) && Mutual(index, pairs)
    ensures forall n :: n in index ==> index[n] != {}
  {
    hide Matches, Overlaps;
    forall n | n in index
      ensures index[n] != {}
    {
      var p :| p in pairs && p.1 == n;
      assert p in index[n];
    }
  }

  lemma PairsOfStep(records: set<Cell>, record: Cell)
    ensures PairsOf(records + {record}) == PairsOf(records) + LansOf(record)
  {
  }

  // ----- Validation -----

  ghost predicate Disjoint(a: set<Network>, b: set<Network>)
    requires Proper(a) && Proper(b)
  {
    forall n, m :: n in a && m in b ==> !Overlaps(n, m)
  }

  ghost predicate CellAccepted(cell: Cell, active: set<Cell>, hasAddress: bool, rootVpn: bool)
    requires Proper(cell.lans) && forall c :: c in active ==> Proper(c.lans)
  {
    && (forall c :: c in active && c != cell ==> Disjoint(cell.lans, c.lans))
    && (cell.private ==> cell.lans != {} && (hasAddress || !rootVpn))
  }

  method ValidateCell(cell: Cell, active: set<Cell>, hasAddress: bool, rootVpn: bool) returns (ok: bool)
    requires Proper(cell.lans) && forall c :: c in active ==> Proper(c.lans)
    ensures ok <==> CellAccepted(cell, active, hasAddress, rootVpn)
  {
    if cell.lans != {} {
      var others := active - {cell};
      var clashes := DetectClashes(others, cell.lans);
      ClashesAre(cell, active, others, clashes);
      if clashes != map[] {
        return false;
      }
    } else if cell.private {
      return false;
    }
    if cell.private && !hasAddress && rootVpn {
      return false;
    }
    return true;
  }

  lemma ClashesAre(cell: Cell, active: set<Cell>, others: set<Cell>, clashes: Index)
    requires Proper(cell.lans) && (forall c :: c in active ==> Proper(c.lans)) && others == active - {cell}
    requires forall p :: p in PairsOf(others) ==> p.1.Valid()
    requires clashes.Keys == set n | n in cell.lans && Matches(PairsOf(others), n) != {}
    ensures clashes == map[] <==> forall c :: c in active && c != cell ==> Disjoint(cell.lans, c.lans)
  {
    hide Overlaps;
    if clashes == map[] {
      forall c, n, m | c in active && c != cell && n in cell.lans && m in c.lans
        ensures !Overlaps(n, m)
      {
        assert n !in clashes;
        assert (c, m) in PairsOf(others);
        assert (c, m) !in Matches(PairsOf(others), n);
      }
    }
    if forall c :: c in active && c != cell ==> Disjoint(cell.lans, c.lans) {
      forall n | n in cell.lans
        ensures Matches(PairsOf(others), n) == {}
      {
        forall p | p in PairsOf(others)
          ensures !Overlaps(n, p.1)
        {
          assert Disjoint(cell.lans, p.0.lans);
        }
      }
      assert clashes.Keys == {};
    }
  }

  // Uvn._validate: every cell, banned ones included, is checked against the active ones.
  method Validate(all: set<Cell>, active: set<Cell>, hasAddress: bool, rootVpn: bool) returns (ok: bool)
    requires active <= all && forall c :: c in all ==> Proper(c.lans)
    ensures ok <==> forall c :: c in all ==> CellAccepted(c, active, hasAddress, rootVpn)
  {
    hide CellAccepted;
    var todo := all;
    while todo != {}
      invariant todo <= all
      invariant forall c :: c in all - todo ==> CellAccepted(c, active, hasAddress, rootVpn)
      decreases todo
    {
      var cell := PickRandom(todo);
      var accepted := ValidateCell(cell, active, hasAddress, rootVpn);
      if !accepted {
        return false;
      }
      todo := todo - {cell};
    }
    return true;
  }

  // A validated UVN: no address belongs to the LANs of two active cells.
  lemma ValidatedLansAreDisjoint(all: set<Cell>, active: set<Cell>, hasAddress: bool, rootVpn: bool,
                                 c: Cell, d: Cell, n: Network, m: Network, ip: int)
    requires active <= all && forall c :: c in all ==> Proper(c.lans)
    requires forall c :: c in all ==> CellAccepted(c, active, hasAddress, rootVpn)
    requires c in active && d in active && c != d && n in c.lans && m in d.lans && n.Valid() && m.Valid()
    ensures !(n.Contains(ip) && m.Contains(ip))
  {
    assert CellAccepted(c, active, hasAddress, rootVpn);
    assert Disjoint(c.lans, d.lans);
    OverlapsMeansShared(n, m);
  }
}
