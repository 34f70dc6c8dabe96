// Finite-sequence vocabulary shared by the model: options and results, duplicate-free
// sequences, filtering of table rows, first-seen de-duplication, and a listing of a set.

module Seqs {
  datatype Option<+T> = None | Some(value: T)

  datatype Result<+T, +E> = Ok(value: T) | Err(error: E)

  predicate Distinct<T(==)>(s: seq<T>) {
    forall i, j :: 0 <= i < j < |s| ==> s[i] != s[j]
  }

  lemma DistinctAppend<T>(s: seq<T>, x: T)
    requires Distinct(s) && x !in s
    ensures Distinct(s + [x])
  {
  }

  lemma TakeOneMore<T>(s: seq<T>, i: nat)
    requires i < |s|
    ensures s[..i + 1] == s[..i] + [s[i]]
  {
  }

  lemma {:induction false} DistinctIsSingleMultiplicity<T>(s: seq<T>)
    ensures Distinct(s) <==> forall x :: x in s ==> multiset(s)[x] == 1
  {
    if s == [] {
    } else {
      var last := |s| - 1;
      var t := s[..last];
      assert s == t + [s[last]];
      DistinctIsSingleMultiplicity(t);
      if Distinct(s) {
        assert Distinct(t) && s[last] !in t;
        forall x | x in s ensures multiset(s)[x] == 1 {
          assert multiset(s) == multiset(t) + multiset{s[last]};
        }
      }
      if forall x :: x in s ==> multiset(s)[x] == 1 {
        assert multiset(s) == multiset(t) + multiset{s[last]};
        assert multiset(s)[s[last]] == 1;
        assert s[last] !in multiset(t);
        forall x | x in t ensures multiset(t)[x] == 1 {
          assert x in s;
        }
      }
    }
  }

  /** The members of `s` that satisfy `keep`, in their order. */
  function Filter<T(!new)>(keep: T -> bool, s: seq<T>): (r: seq<T>)
    ensures forall x :: x in r <==> x in s && keep(x)
  {
    if s == [] then []
    else
      var rest := Filter(keep, s[..|s| - 1]);
      assert s == s[..|s| - 1] + [s[|s| - 1]];
      if keep(s[|s| - 1]) then rest + [s[|s| - 1]] else rest
  }

  lemma {:induction false} FilterDistinct<T(!new)>(keep: T -> bool, s: seq<T>)
    requires Distinct(s)
    ensures Distinct(Filter(keep, s))
  {
    if s == [] {
    } else {
      FilterDistinct(keep, s[..|s| - 1]);
      assert s[|s| - 1] !in s[..|s| - 1];
    }
  }

  /** Removes repetitions, keeping the first occurrence of each element. */
  function Dedup<T(==,!new)>(s: seq<T>): (r: seq<T>)
    ensures Distinct(r)
    ensures forall x :: x in r <==> x in s
  {
    if s == [] then []
    else
      var rest := Dedup(s[..|s| - 1]);
      assert s == s[..|s| - 1] + [s[|s| - 1]];
      if s[|s| - 1] in rest then rest else rest + [s[|s| - 1]]
  }

  lemma {:induction false} DedupOfDistinct<T(!new)>(s: seq<T>)
    requires Distinct(s)
    ensures Dedup(s) == s
  {
    if s == [] {
    } else {
      var t := s[..|s| - 1];
      DedupOfDistinct(t);
      assert s == t + [s[|s| - 1]];
      assert s[|s| - 1] !in t;
    }
  }

  /** Lists a finite set, each element once, in some order. */
  method Listing<T(==)>(items: set<T>) returns (r: seq<T>)
    ensures Distinct(r)
    ensures forall x :: x in r <==> x in items
    ensures |r| == |items|
  {
    r := [];
    var rest := items;
    while rest != {}
      invariant rest <= items
      invariant Distinct(r)
      invariant forall x :: x in r <==> x in items - rest
      invariant |r| + |rest| == |items|
      decreases |rest|
    {
      var x :| x in rest;
      rest := rest - {x};
      DistinctAppend(r, x);
      r := r + [x];
    }
  }
}
