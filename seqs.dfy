/** Sequence combinators shared by the visitors and the filtering loops. */
module Seqs {

  /** The concatenation of `f(x)` for every `x` of `s`, in order. Defined on the last element,
      which is how an appending loop builds it. */
  function FlatMap<T, U>(f: T -> seq<U>, s: seq<T>): seq<U>
  {
    if s == [] then [] else FlatMap(f, s[..|s| - 1]) + f(s[|s| - 1])
  }

  lemma {:induction false} FlatMapAppend<T, U>(f: T -> seq<U>, a: seq<T>, b: seq<T>)
    ensures FlatMap(f, a + b) == FlatMap(f, a) + FlatMap(f, b)
    decreases |b|
  {
    if b == [] {
      assert a + b == a;
    } else {
      var b' := b[..|b| - 1];
      assert (a + b)[..|a + b| - 1] == a + b';
      assert (a + b)[|a + b| - 1] == b[|b| - 1];
      FlatMapAppend(f, a, b');
    }
  }

  lemma {:induction false} FlatMapNil<T, U>(f: T -> seq<U>, s: seq<T>)
    requires forall x :: x in s ==> f(x) == []
    ensures FlatMap(f, s) == []
    decreases |s|
  {
    if s != [] {
      FlatMapNil(f, s[..|s| - 1]);
    }
  }

  lemma FlatMapCons<T, U>(f: T -> seq<U>, x: T, s: seq<T>)
    ensures FlatMap(f, [x] + s) == f(x) + FlatMap(f, s)
  {
    FlatMapAppend(f, [x], s);
    assert [x][..0] == [];
  }

  /** `x in FlatMap(f, s)` exactly when `x` comes from some element of `s`. */
  lemma {:induction false} FlatMapMember<T, U>(f: T -> seq<U>, s: seq<T>, x: U)
    ensures x in FlatMap(f, s) <==> exists i :: 0 <= i < |s| && x in f(s[i])
    decreases |s|
  {
    if s != [] {
      var s' := s[..|s| - 1];
      FlatMapMember(f, s', x);
      assert forall i :: 0 <= i < |s'| ==> s'[i] == s[i];
      if x in FlatMap(f, s') {
        var i :| 0 <= i < |s'| && x in f(s'[i]);
        assert x in f(s[i]);
      }
    }
  }

  /** `[f(x) for x in s]`, defined on the last element as an appending loop builds it. */
  function Map<T, U>(f: T -> U, s: seq<T>): (r: seq<U>)
    ensures |r| == |s|
  {
    if s == [] then [] else Map(f, s[..|s| - 1]) + [f(s[|s| - 1])]
  }

  /** Element `k` of the mapped sequence is `f` of element `k`. */
  lemma {:induction false} MapAt<T, U>(f: T -> U, s: seq<T>, k: nat)
    requires k < |s|
    ensures Map(f, s)[k] == f(s[k])
    decreases |s|
  {
    if k < |s| - 1 {
      MapAt(f, s[..|s| - 1], k);
    }
  }

  lemma MapSnoc<T, U>(f: T -> U, s: seq<T>, x: T)
    ensures Map(f, s + [x]) == Map(f, s) + [f(x)]
  {
    assert (s + [x])[..|s|] == s;
  }

  /** One more element of a prefix appends its image: the step of a mapping loop. */
  lemma MapPrefixStep<T, U>(f: T -> U, s: seq<T>, i: nat)
    requires i < |s|
    ensures Map(f, s[..i + 1]) == Map(f, s[..i]) + [f(s[i])]
  {
    assert s[..i + 1][..i] == s[..i];
  }

  /** One more element of a prefix appends its part: the step of an appending loop. */
  lemma FlatMapPrefixStep<T, U>(f: T -> seq<U>, s: seq<T>, i: nat)
    requires i < |s|
    ensures FlatMap(f, s[..i + 1]) == FlatMap(f, s[..i]) + f(s[i])
  {
    assert s[..i + 1][..i] == s[..i];
  }

  /** The step of a loop that appends the image of each element's part. */
  lemma MapFlatMapPrefixStep<T, U, V>(g: U -> V, f: T -> seq<U>, s: seq<T>, i: nat)
    requires i < |s|
    ensures Map(g, FlatMap(f, s[..i + 1])) == Map(g, FlatMap(f, s[..i])) + Map(g, f(s[i]))
  {
    FlatMapPrefixStep(f, s, i);
    MapAppend(g, FlatMap(f, s[..i]), f(s[i]));
  }

  /** An element of a sequence sits at some index of it. */
  lemma IndexOf<T>(s: seq<T>, x: T) returns (k: nat)
    requires x in s
    ensures k < |s| && s[k] == x
  {
    k :| 0 <= k < |s| && s[k] == x;
  }

  /** Concatenation regroups freely. */
  lemma AppendAssoc<T>(a: seq<T>, b: seq<T>, c: seq<T>)
    ensures a + (b + c) == a + b + c
  {
  }

  lemma MapAppend<T, U>(f: T -> U, a: seq<T>, b: seq<T>)
    ensures Map(f, a + b) == Map(f, a) + Map(f, b)
  {
    forall k | 0 <= k < |a + b|
      ensures Map(f, a + b)[k] == (Map(f, a) + Map(f, b))[k]
    {
      MapAt(f, a + b, k);
      if k < |a| {
        MapAt(f, a, k);
        assert (a + b)[k] == a[k];
      } else {
        MapAt(f, b, k - |a|);
        assert (a + b)[k] == b[k - |a|];
      }
    }
  }

  /** `[f(x) for x in s if keep(x)]`, defined on the last element as an appending loop builds it. */
  function FilterMap<T, U>(keep: T -> bool, f: T -> U, s: seq<T>): (r: seq<U>)
    ensures |r| <= |s|
  {
    if s == [] then []
    else FilterMap(keep, f, s[..|s| - 1]) + (if keep(s[|s| - 1]) then [f(s[|s| - 1])] else [])
  }

  /** The positions of `s` that `keep` accepts, in increasing order. */
  function KeptIndices<T>(keep: T -> bool, s: seq<T>): seq<nat>
  {
    if s == [] then []
    else KeptIndices(keep, s[..|s| - 1]) + (if keep(s[|s| - 1]) then [|s| - 1] else [])
  }

  /** A filter-and-map yields exactly the transformed subsequence of the accepted
      elements: one entry per accepted position, at increasing positions, and nothing else. */
  lemma {:induction false} FilterMapIsSubsequence<T, U>(keep: T -> bool, f: T -> U, s: seq<T>)
    ensures |KeptIndices(keep, s)| == |FilterMap(keep, f, s)|
    ensures forall k :: 0 <= k < |KeptIndices(keep, s)| ==>
              KeptIndices(keep, s)[k] < |s| && FilterMap(keep, f, s)[k] == f(s[KeptIndices(keep, s)[k]])
    ensures forall k, l :: 0 <= k < l < |KeptIndices(keep, s)| ==>
              KeptIndices(keep, s)[k] < KeptIndices(keep, s)[l]
    ensures forall j :: 0 <= j < |s| ==> (j in KeptIndices(keep, s) <==> keep(s[j]))
    decreases |s|
  {
    if s != [] {
      var s' := s[..|s| - 1];
      FilterMapIsSubsequence(keep, f, s');
      forall j | 0 <= j < |s'| ensures s'[j] == s[j] { }
    }
  }

  /** Every element of the filtered sequence comes from an accepted element. */
  lemma FilterMapSound<T, U>(keep: T -> bool, f: T -> U, s: seq<T>, k: nat)
    requires k < |FilterMap(keep, f, s)|
    ensures exists j :: 0 <= j < |s| && keep(s[j]) && FilterMap(keep, f, s)[k] == f(s[j])
  {
    FilterMapIsSubsequence(keep, f, s);
    var j := KeptIndices(keep, s)[k];
    assert keep(s[j]);
  }

  lemma {:induction false} FilterMapAllKept<T, U>(keep: T -> bool, f: T -> U, s: seq<T>)
    requires forall x :: x in s ==> keep(x)
    ensures |FilterMap(keep, f, s)| == |s|
    ensures forall k :: 0 <= k < |s| ==> FilterMap(keep, f, s)[k] == f(s[k])
    decreases |s|
  {
    if s != [] {
      FilterMapAllKept(keep, f, s[..|s| - 1]);
    }
  }

  /** No element occurs twice. */
  predicate NoDuplicates<T(==)>(s: seq<T>)
  {
    forall i, j :: 0 <= i < j < |s| ==> s[i] != s[j]
  }
}
