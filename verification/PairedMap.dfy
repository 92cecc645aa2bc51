// uno/core/paired_map.py: values attached to an unordered pair of peers.
module PairedMap {

  type Pair = (int, int)

  function PairKey(a: int, b: int): (k: Pair) {
    if a > b then (b, a) else (a, b)
  }

  // The component of a pair value that belongs to one of its two peers.
  function Pick<T>(a: int, b: int, target: int, val: (T, T)): (r: T) {
    if PairKey(a, b).0 == target then val.0 else val.1
  }

  // Two requests meet in the same slot exactly when they name the same two peers.
  lemma PairKeyIdentifies(a: int, b: int, c: int, d: int)
    ensures PairKey(a, b) == PairKey(c, d) <==> {a, b} == {c, d}
  {
    assert a in {a, b} && b in {a, b} && c in {c, d} && d in {c, d};
    if {a, b} == {c, d} {
      assert a in {c, d} && b in {c, d} && c in {a, b} && d in {a, b};
    }
  }

  // Both ends pick the same component for the same peer, and the two peers of a
  // link pick the two different components.
  lemma PickAgrees<T>(a: int, b: int, val: (T, T))
    requires a != b
    ensures Pick(a, b, a, val) == Pick(b, a, a, val)
    ensures Pick(a, b, b, val) == Pick(b, a, b, val)
    ensures (Pick(a, b, a, val), Pick(a, b, b, val)) == val ||
            (Pick(a, b, b, val), Pick(a, b, a, val)) == val
  {
  }
}
