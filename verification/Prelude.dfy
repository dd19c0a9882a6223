// Small shared vocabulary: optional values, results, and sequence helpers.
module Prelude {
  datatype Option<+T> = None | Some(value: T)

  datatype Result<+T, +E> = Ok(value: T) | Err(error: E)

  ghost predicate Distinct<T>(s: seq<T>) {
    forall i, j :: 0 <= i < j < |s| ==> s[i] != s[j]
  }

  function Reversed<T>(s: seq<T>): (r: seq<T>)
    ensures |r| == |s| && forall k :: 0 <= k < |s| ==> r[k] == s[|s| - 1 - k]
  {
    if s == [] then [] else Reversed(s[1..]) + [s[0]]
  }

  lemma ReversedSameElements<T>(s: seq<T>)
    ensures forall x :: x in s <==> x in Reversed(s)
  {
    forall x | x in s ensures x in Reversed(s) {
      var k :| 0 <= k < |s| && s[k] == x;
      assert Reversed(s)[|s| - 1 - k] == x;
    }
  }

  // Dafny finds a witness for `x :| x in m` more readily once one has been named.
  lemma SomeKey<K, V>(m: map<K, V>) returns (k: K)
    requires m != map[]
    ensures k in m
  {
    k :| k in m;
  }

  lemma SomeElement<T>(s: set<T>) returns (x: T)
    requires s != {}
    ensures x in s
  {
    x :| x in s;
  }

  method Elements<T(==)>(s: set<T>) returns (q: seq<T>)
    ensures Distinct(q) && forall x :: x in q <==> x in s
  {
    q := [];
    var rest := s;
    while rest != {}
      invariant rest <= s && Distinct(q)
      invariant forall x :: x in q <==> x in s && x !in rest
      decreases rest
    {
      ghost var some := SomeElement(rest);
      var x :| x in rest;
      q := q + [x];
      rest := rest - {x};
    }
  }

  function Filter<T(!new)>(s: seq<T>, keep: T -> bool): (r: seq<T>)
    ensures forall x :: x in r <==> x in s && keep(x)
    ensures Distinct(s) ==> Distinct(r)
  {
    if s == [] then [] else
      var rest := Filter(s[1..], keep);
      if keep(s[0]) then [s[0]] + rest else rest
  }
}
