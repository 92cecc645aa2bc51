// Result types shared by the whole model, and a few facts about finite sets
// that the counting arguments need.
module Prelude {

  datatype Option<+T> = None | Some(value: T)

  // The exceptions the modelled code can raise.
  datatype Error =
    | AddressOverflow          // ipaddress refuses a value above 255.255.255.255
    | SubnetExhausted          // "exceeded allocated backbone subnet"
    | Misaligned               // a /31 whose two addresses are not in the same block
    | MissingKey               // KeyError
    | MissingKeyMaterial       // key material not available to a read-only registry
    | IntegrityError           // a UNIQUE constraint of the key tables refused a row
    | UnknownCell              // StopIteration while looking a cell up
    | GenerationFailed         // "failed to generate requested edges"
    | UnboundLocal             // a cell asks for its configuration of a disabled root VPN
    | CommandFailed            // an iptables command was refused

  datatype Result<+T> = Ok(value: T) | Err(error: Error)

  ghost predicate Distinct<T>(s: seq<T>) {
    forall i, j :: 0 <= i < j < |s| ==> s[i] != s[j]
  }

  // s lists every element of xs exactly once: what list(xs) followed by
  // random.shuffle can produce.
  ghost predicate Enumerates<T>(s: seq<T>, xs: set<T>) {
    Distinct(s) && Elements(s) == xs
  }

  function Elements<T>(s: seq<T>): (r: set<T>) {
    set x | x in s
  }

  lemma {:induction false} DistinctSize<T>(s: seq<T>)
    requires Distinct(s)
    ensures |Elements(s)| == |s|
  {
    if s == [] {
      assert Elements(s) == {};
    } else {
      var init := s[..|s| - 1];
      var last := s[|s| - 1];
      DistinctSize(init);
      assert s == init + [last];
      assert Elements(s) == Elements(init) + {last};
      assert last !in init;
    }
  }

  lemma EnumerationSize<T>(s: seq<T>, xs: set<T>)
    requires Enumerates(s, xs)
    ensures |s| == |xs|
  {
    DistinctSize(s);
  }

  lemma {:induction false} SubsetSize<T>(a: set<T>, b: set<T>)
    requires a <= b
    ensures |a| <= |b|
    ensures |a| == |b| ==> a == b
  {
    assert b == a + (b - a);
    assert |b| == |a| + |b - a|;
    if |a| == |b| {
      assert b - a == {};
    }
  }

  function Range(n: nat): (r: set<int>)
    ensures forall i :: i in r <==> 0 <= i < n
  {
    if n == 0 then {} else Range(n - 1) + {n - 1}
  }

  lemma {:induction false} RangeSize(n: nat)
    ensures |Range(n)| == n
  {
    if n > 0 {
      RangeSize(n - 1);
    }
  }

  ghost function Image<T, U>(xs: set<T>, f: map<T, U>): (r: set<U>)
    requires xs <= f.Keys
  {
    set x | x in xs :: f[x]
  }

  // An injective image has as many elements as its domain.
  lemma {:induction false} ImageSize<T, U>(xs: set<T>, f: map<T, U>)
    requires xs <= f.Keys
    requires forall x, y :: x in xs && y in xs && x != y ==> f[x] != f[y]
    ensures |Image(xs, f)| == |xs|
    decreases |xs|
  {
    if xs == {} {
      assert Image(xs, f) == {};
    } else {
      var a := Witness(xs);
      ImageSize(xs - {a}, f);
      assert Image(xs, f) == Image(xs - {a}, f) + {f[a]};
      assert f[a] !in Image(xs - {a}, f);
    }
  }

  lemma Witness<T>(xs: set<T>) returns (x: T)
    requires xs != {}
    ensures x in xs
  {
    x :| x in xs;
  }

  lemma {:induction false} Bound(used: set<int>) returns (x: int)
    ensures forall y :: y in used ==> y < x
    decreases |used|
  {
    if used == {} {
      x := 0;
    } else {
      var a := Witness(used);
      x := Bound(used - {a});
      if x <= a {
        x := a + 1;
      }
      forall y | y in used
        ensures y < x
      {
        assert y == a || y in used - {a};
      }
    }
  }

  // A secret that was never drawn before, as a key generator is trusted to yield.
  method DrawUnused(used: set<int>) returns (x: int)
    ensures x !in used
  {
    ghost var y := Bound(used);
    assert y !in used;
    x :| x !in used;
  }

  // random.sample(xs, 1).pop()
  method PickRandom<T>(xs: set<T>) returns (x: T)
    requires xs != {}
    ensures x in xs
  {
    x :| x in xs;
  }

  // Any enumeration of a finite set, as iterating a Python set yields one.
  method Enumerate<T(==)>(xs: set<T>) returns (s: seq<T>)
    ensures Enumerates(s, xs)
  {
    s := [];
    var rest := xs;
    while rest != {}
      invariant rest <= xs
      invariant Distinct(s)
      invariant Elements(s) == xs - rest
      decreases rest
    {
      var x :| x in rest;
      assert x !in Elements(s);
      assert Elements(s + [x]) == Elements(s) + {x};
      s := s + [x];
      rest := rest - {x};
    }
  }
}
