// Strings in the order `<` and `toSorted` give them, and sorting by it.
module Ordering {
  import opened Prelude

  predicate Before(a: string, b: string) {
    if b == [] then false
    else if a == [] then true
    else a[0] < b[0] || (a[0] == b[0] && Before(a[1..], b[1..]))
  }

  // The strings agree up to the k-th character, and there the first ends or has the smaller one.
  ghost predicate DiffersAt(a: string, b: string, k: nat) {
    && k <= |a| && k < |b| && a[..k] == b[..k]
    && (k == |a| || a[k] < b[k])
  }

  lemma {:induction false} BeforeExactly(a: string, b: string)
    ensures Before(a, b) <==> exists k: nat :: DiffersAt(a, b, k)
  {
    if a == [] || b == [] || a[0] != b[0] {
      if Before(a, b) {
        assert DiffersAt(a, b, 0);
      }
      if k: nat :| DiffersAt(a, b, k) {
        assert k > 0 ==> a[..k][0] == b[..k][0];
      }
    } else {
      BeforeExactly(a[1..], b[1..]);
      if Before(a, b) {
        var k: nat :| DiffersAt(a[1..], b[1..], k);
        assert a == [a[0]] + a[1..] && b == [b[0]] + b[1..];
        assert DiffersAt(a, b, k + 1);
      }
      if k: nat :| DiffersAt(a, b, k) {
        assert k > 0;
        assert a[1..][..k - 1] == a[..k][1..] == b[..k][1..] == b[1..][..k - 1];
        assert DiffersAt(a[1..], b[1..], k - 1);
      }
    }
  }

  lemma {:induction false} BeforeIsTransitive(a: string, b: string, c: string)
    requires Before(a, b) && Before(b, c)
    ensures Before(a, c)
  {
    if a != [] && a[0] == b[0] == c[0] {
      BeforeIsTransitive(a[1..], b[1..], c[1..]);
    }
  }

  lemma {:induction false} BeforeIsTotal(a: string, b: string)
    ensures a == b || Before(a, b) || Before(b, a)
  {
    if a != [] && b != [] && a[0] == b[0] {
      BeforeIsTotal(a[1..], b[1..]);
      assert a == [a[0]] + a[1..] && b == [b[0]] + b[1..];
    }
  }

  ghost predicate IsSorted(keys: seq<string>) {
    forall i, j :: 0 <= i < j < |keys| ==> Before(keys[i], keys[j])
  }

  method Insert(keys: seq<string>, key: string) returns (out: seq<string>)
    requires IsSorted(keys) && key !in keys
    ensures IsSorted(out) && forall k :: k in out <==> k == key || k in keys
  {
    hide Before;
    var i := 0;
    while i < |keys| && Before(keys[i], key)
      invariant i <= |keys| && forall j :: 0 <= j < i ==> Before(keys[j], key)
    {
      i := i + 1;
    }
    out := keys[..i] + [key] + keys[i..];
    assert keys == keys[..i] + keys[i..];
    forall j | i <= j < |keys| ensures Before(key, keys[j]) {
      BeforeIsTotal(keys[i], key);
      if j > i {
        BeforeIsTransitive(key, keys[i], keys[j]);
      }
    }
    SortedAround(keys, i, key);
  }

  lemma SortedAround(keys: seq<string>, i: nat, key: string)
    requires IsSorted(keys) && i <= |keys|
    requires forall j :: 0 <= j < i ==> Before(keys[j], key)
    requires forall j :: i <= j < |keys| ==> Before(key, keys[j])
    ensures IsSorted(keys[..i] + [key] + keys[i..])
  {
    hide Before;
    var out := keys[..i] + [key] + keys[i..];
    forall a, b | 0 <= a < b < |out| ensures Before(out[a], out[b]) {
      var p, q := if a < i then a else a - 1, if b < i then b else b - 1;
      assert a != i ==> out[a] == keys[p];
      assert b != i ==> out[b] == keys[q];
    }
  }

  lemma {:induction false} BeforeIsStrict(a: string, b: string)
    ensures !(Before(a, b) && Before(b, a)) && (a == b ==> !Before(a, b))
  {
    if a != [] && b != [] {
      BeforeIsStrict(a[1..], b[1..]);
    }
  }

  method Sorted(names: set<string>) returns (sorted: seq<string>)
    ensures IsSorted(sorted) && forall k :: k in sorted <==> k in names
  {
    var unsorted := Elements(names);
    sorted := [];
    for i := 0 to |unsorted|
      invariant IsSorted(sorted) && forall k :: k in sorted <==> k in unsorted[..i]
    {
      sorted := Insert(sorted, unsorted[i]);
      assert unsorted[..i + 1] == unsorted[..i] + [unsorted[i]];
    }
    assert unsorted[..|unsorted|] == unsorted;
  }
}
