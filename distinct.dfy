/**
  Enumerable.Distinct: the elements of a sequence with every repetition after the
  first occurrence removed, in the order of first occurrence.
 */
module Dedup {

  predicate NoDuplicates<T(==)>(s: seq<T>) {
    forall i, j :: 0 <= i < j < |s| ==> s[i] != s[j]
  }

  /** The position of the first occurrence of `x` in `s`. */
  function IndexOf<T(==)>(s: seq<T>, x: T): (k: nat)
    requires x in s
    ensures k < |s| && s[k] == x && x !in s[..k]
  {
    if s[0] == x then 0 else 1 + IndexOf(s[1..], x)
  }

  /** Streaming deduplication: an element is kept when it was not seen before. */
  function Distinct<T(==)>(s: seq<T>): (r: seq<T>)
    ensures NoDuplicates(r)
    ensures forall i :: 0 <= i < |r| ==> r[i] in s
    ensures forall i :: 0 <= i < |s| ==> s[i] in r
    ensures |r| <= |s|
  {
    if s == [] then []
    else
      var d := Distinct(s[..|s| - 1]);
      var x := s[|s| - 1];
      assert s == s[..|s| - 1] + [x];
      if x in d then d else d + [x]
  }

  /** The first occurrence of an element in a prefix is its first occurrence overall. */
  lemma IndexOfInPrefix<T>(a: seq<T>, b: seq<T>, x: T)
    requires x in a
    ensures x in a + b && IndexOf(a + b, x) == IndexOf(a, x)
  {
    var k, m := IndexOf(a, x), IndexOf(a + b, x);
    assert (a + b)[..k] == a[..k];
    assert forall j :: 0 <= j < k ==> (a + b)[j] != x;
    assert forall j :: 0 <= j < m ==> (a + b)[..m][j] != x;
    assert forall j :: 0 <= j < m ==> (a + b)[j] != x;
    assert (a + b)[k] == x && (a + b)[m] == x;
  }

  /** Distinct keeps the order of first occurrence: an element that comes earlier in
      the result first occurs earlier in the input. */
  lemma {:induction false} DistinctOrder<T>(s: seq<T>, i: nat, j: nat)
    requires i < j < |Distinct(s)|
    ensures Distinct(s)[i] in s && Distinct(s)[j] in s
    ensures IndexOf(s, Distinct(s)[i]) < IndexOf(s, Distinct(s)[j])
  {
    var n := |s|;
    var init, x := s[..n - 1], s[n - 1];
    assert s == init + [x];
    var d := Distinct(init);
    var di := Distinct(s)[i];
    assert di in d;
    IndexOfInPrefix(init, [x], di);
    if j < |d| {
      DistinctOrder(init, i, j);
      IndexOfInPrefix(init, [x], d[j]);
    } else {
      assert Distinct(s)[j] == x && x !in init;
      assert IndexOf(s, x) == n - 1;
    }
  }

  /** What Distinct returns for a prefix is a prefix of what it returns for the whole. */
  lemma {:induction false} DistinctPrefix<T>(a: seq<T>, b: seq<T>)
    ensures Distinct(a) <= Distinct(a + b)
    decreases |b|
  {
    if b != [] {
      var init := b[..|b| - 1];
      assert (a + b)[..|a + b| - 1] == a + init;
      DistinctPrefix(a, init);
    } else {
      assert a + b == a;
    }
  }

  /** A sequence without duplicates is its own Distinct. */
  lemma {:induction false} DistinctOfNoDuplicates<T>(s: seq<T>)
    requires NoDuplicates(s)
    ensures Distinct(s) == s
  {
    if s != [] {
      var init := s[..|s| - 1];
      assert NoDuplicates(init);
      DistinctOfNoDuplicates(init);
      assert s[|s| - 1] !in init;
      assert s == init + [s[|s| - 1]];
    }
  }

  /** Merging new elements into a duplicate-free sequence keeps it, in order, at the front. */
  lemma DistinctKeepsExisting<T>(existing: seq<T>, added: seq<T>)
    requires NoDuplicates(existing)
    ensures |existing| <= |Distinct(existing + added)|
    ensures Distinct(existing + added)[..|existing|] == existing
  {
    DistinctPrefix(existing, added);
    DistinctOfNoDuplicates(existing);
  }
}
