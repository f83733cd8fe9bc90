/**
  Building a list record by record: each record contributes a (possibly empty)
  sequence of results, appended in record order.
 */
module Sequences {

  /** The results of `f` on each element of `s`, concatenated in order. */
  function FlatMap<T, U>(s: seq<T>, f: T -> seq<U>): seq<U> {
    if s == [] then [] else FlatMap(s[..|s| - 1], f) + f(s[|s| - 1])
  }

  /** One more element handled: its results come after the earlier ones. */
  lemma FlatMapStep<T, U>(s: seq<T>, i: nat, f: T -> seq<U>)
    requires i < |s|
    ensures FlatMap(s[..i + 1], f) == FlatMap(s[..i], f) + f(s[i])
  {
    assert s[..i + 1][..i] == s[..i];
  }

  /** The results of two lists one after the other are those of the first list followed
      by those of the second. */
  lemma {:induction false} FlatMapAppend<T, U>(a: seq<T>, b: seq<T>, f: T -> seq<U>)
    ensures FlatMap(a + b, f) == FlatMap(a, f) + FlatMap(b, f)
    decreases |b|
  {
    if b == [] {
      assert a + b == a;
    } else {
      var init := b[..|b| - 1];
      assert (a + b)[..|a + b| - 1] == a + init;
      assert (a + b)[|a + b| - 1] == b[|b| - 1];
      FlatMapAppend(a, init, f);
    }
  }

  /** A result is produced exactly when some element produces it. */
  lemma {:induction false} FlatMapOrigin<T, U>(s: seq<T>, f: T -> seq<U>, y: U)
    ensures y in FlatMap(s, f) <==> exists i :: 0 <= i < |s| && y in f(s[i])
  {
    if s != [] {
      var n := |s|;
      var init := s[..n - 1];
      FlatMapOrigin(init, f, y);
      if y in FlatMap(s, f) && y !in f(s[n - 1]) {
        var i :| 0 <= i < n - 1 && y in f(init[i]);
        assert init[i] == s[i];
      }
      if exists i :: 0 <= i < n && y in f(s[i]) {
        var i :| 0 <= i < n && y in f(s[i]);
        if i < n - 1 {
          assert init[i] == s[i];
        }
      }
    }
  }

  /** When every element yields at most one result, there are at most as many results
      as elements. */
  lemma {:induction false} FlatMapAtMostOne<T, U>(s: seq<T>, f: T -> seq<U>)
    requires forall i :: 0 <= i < |s| ==> |f(s[i])| <= 1
    ensures |FlatMap(s, f)| <= |s|
  {
    if s != [] {
      var init := s[..|s| - 1];
      assert forall i :: 0 <= i < |init| ==> init[i] == s[i];
      FlatMapAtMostOne(init, f);
    }
  }
}
