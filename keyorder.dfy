/** A fixed enumeration order for the keys of the engine's maps.

    Go visits map keys in an unspecified order. The model fixes one order, the lexicographic
    order of the keys, so that the specification functions and the methods visit the same
    keys in the same order. Nothing proved about the engine depends on which order it is. */
module KeyOrder {

  /** Lexicographic `<=` on strings, by character code. */
  predicate Precedes(a: string, b: string) {
    |a| == 0 || (|b| > 0 && (a[0] < b[0] || (a[0] == b[0] && Precedes(a[1..], b[1..]))))
  }

  lemma {:induction false} PrecedesTotal(a: string, b: string)
    ensures Precedes(a, b) || Precedes(b, a)
  {
    if |a| > 0 && |b| > 0 && a[0] == b[0] {
      PrecedesTotal(a[1..], b[1..]);
    }
  }

  lemma {:induction false} PrecedesAntisymmetric(a: string, b: string)
    requires Precedes(a, b) && Precedes(b, a)
    ensures a == b
  {
    if |a| > 0 {
      PrecedesAntisymmetric(a[1..], b[1..]);
      assert a == [a[0]] + a[1..];
      assert b == [b[0]] + b[1..];
    }
  }

  lemma {:induction false} PrecedesTransitive(a: string, b: string, c: string)
    requires Precedes(a, b) && Precedes(b, c)
    ensures Precedes(a, c)
  {
    if |a| > 0 && a[0] == b[0] && b[0] == c[0] {
      PrecedesTransitive(a[1..], b[1..], c[1..]);
    }
  }

  predicate IsLeast(m: string, s: set<string>) {
    m in s && forall y :: y in s ==> Precedes(m, y)
  }

  lemma {:induction false} LeastExists(s: set<string>)
    requires s != {}
    ensures exists m :: IsLeast(m, s)
    decreases |s|
  {
    var z :| z in s;
    var rest := s - {z};
    if rest == {} {
      assert s == {z};
      PrecedesTotal(z, z);
      assert IsLeast(z, s);
    } else {
      LeastExists(rest);
      var m :| IsLeast(m, rest);
      PrecedesTotal(z, m);
      if Precedes(z, m) {
        forall y | y in s ensures Precedes(z, y) {
          if y == z { PrecedesTotal(z, z); } else { PrecedesTransitive(z, m, y); }
        }
        assert IsLeast(z, s);
      } else {
        assert IsLeast(m, s);
      }
    }
  }

  lemma LeastUnique(s: set<string>)
    ensures forall m, m' :: IsLeast(m, s) && IsLeast(m', s) ==> m == m'
  {
    forall m, m' | IsLeast(m, s) && IsLeast(m', s) ensures m == m' {
      PrecedesAntisymmetric(m, m');
    }
  }

  /** No element occurs twice. */
  predicate Distinct<T(==)>(xs: seq<T>) {
    forall i, j :: 0 <= i < j < |xs| ==> xs[i] != xs[j]
  }

  /** Enumerate lists no key twice. */
  lemma {:induction false} EnumerateDistinct(s: set<string>)
    ensures Distinct(Enumerate(s))
    decreases |s|
  {
    if s != {} {
      LeastExists(s);
      LeastUnique(s);
      var m :| IsLeast(m, s);
      EnumerateDistinct(s - {m});
      assert Enumerate(s) == [m] + Enumerate(s - {m});
    }
  }

  /** The keys of `s`, each once (see EnumerateDistinct), in ascending order. */
  function Enumerate(s: set<string>): (r: seq<string>)
    ensures |r| == |s|
    ensures forall x :: x in r <==> x in s
    decreases |s|
  {
    if s == {} then []
    else
      LeastExists(s);
      LeastUnique(s);
      var m :| IsLeast(m, s);
      [m] + Enumerate(s - {m})
  }

  /** The union of two key sets, collected the way the source does: walk the first, then the second. */
  method KeyUnion(first: set<string>, second: set<string>) returns (all: set<string>)
    ensures all == first + second
  {
    all := AddKeys({}, first);
    all := AddKeys(all, second);
  }

  /** Adds every key of `keys` to `acc`, one at a time in key order. */
  method AddKeys(acc: set<string>, keys: set<string>) returns (all: set<string>)
    ensures all == acc + keys
  {
    all := acc;
    var ks := Enumerate(keys);
    var i := 0;
    while i < |ks|
      invariant 0 <= i <= |ks|
      invariant all == acc + Elems(ks[..i])
    {
      ElemsStep(ks, i);
      all := all + {ks[i]};
      i := i + 1;
    }
    Whole(ks);
    ElemsMembers(ks);
  }

  /** The elements of a key sequence, as a set. */
  function Elems(s: seq<string>): set<string> {
    if s == [] then {} else Elems(s[..|s| - 1]) + {s[|s| - 1]}
  }

  lemma {:induction false} ElemsMembers(s: seq<string>)
    ensures forall x :: x in Elems(s) <==> x in s
  {
    if s != [] {
      ElemsMembers(s[..|s| - 1]);
      assert s == s[..|s| - 1] + [s[|s| - 1]];
    }
  }

  lemma ElemsStep(s: seq<string>, i: nat)
    requires i < |s|
    ensures Elems(s[..i + 1]) == Elems(s[..i]) + {s[i]}
  {
    assert s[..i + 1][..i] == s[..i];
  }

  lemma Whole<T>(s: seq<T>)
    ensures s[..|s|] == s
  {
  }
}
