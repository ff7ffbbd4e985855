/** Generic facts about lists: sub-sequences, order-preserving filters,
    first-match searches and concatenation of lists of lists. */
module Seqs {
  import opened Wrappers

  /** `a` is obtained from `b` by deleting elements, keeping the order. */
  predicate IsSubseq<T(==)>(a: seq<T>, b: seq<T>)
    decreases |b|
  {
    if a == [] then true
    else if b == [] then false
    else (a[0] == b[0] && IsSubseq(a[1..], b[1..])) || IsSubseq(a, b[1..])
  }

  /** No element occurs twice. */
  predicate NoDup<T(==)>(s: seq<T>)
  {
    forall i, j | 0 <= i < j < |s| :: s[i] != s[j]
  }

  /** `order` lists every element of `keys` exactly once, and nothing else:
      one possible order in which Go's `range` visits the keys of a map. */
  predicate Enumerates<T(==)>(order: seq<T>, keys: set<T>)
  {
    NoDup(order) && (forall x | x in order :: x in keys) && (forall x | x in keys :: x in order)
  }

  /** The order-preserving sub-sequence of exactly the elements satisfying
      `f`: every element of `s` that satisfies `f` is kept as many times as
      it occurs, every other element is dropped. */
  function Filter<T(==)>(s: seq<T>, f: T -> bool): (r: seq<T>)
    ensures IsSubseq(r, s)
    ensures forall x | x in r :: x in s && f(x)
    ensures forall x | x in s :: multiset(r)[x] == if f(x) then multiset(s)[x] else 0
  {
    if s == [] then []
    else
      var rest := Filter(s[1..], f);
      assert s == [s[0]] + s[1..];
      if f(s[0]) then [s[0]] + rest else rest
  }

  /** An element satisfying `f` survives the filter. */
  lemma FilterKeeps<T>(s: seq<T>, f: T -> bool, x: T)
    requires x in s && f(x)
    ensures x in Filter(s, f)
  {
    assert multiset(s)[x] > 0;
  }

  /** Filtering a list without duplicates leaves none. */
  lemma {:induction false} FilterNoDup<T>(s: seq<T>, f: T -> bool)
    requires NoDup(s)
    ensures NoDup(Filter(s, f))
  {
    if s != [] {
      FilterNoDup(s[1..], f);
      assert forall i | 1 <= i < |s| :: s[i] == s[1..][i - 1];
      assert s[0] !in s[1..];
      var r := Filter(s, f);
      if f(s[0]) {
        assert r == [s[0]] + Filter(s[1..], f);
        assert forall i | 1 <= i < |r| :: r[i] == Filter(s[1..], f)[i - 1];
      }
    }
  }

  /** The index of the first element of `s` satisfying `p`, if any. */
  function FirstIndex<T>(s: seq<T>, p: T -> bool): (r: Option<nat>)
    ensures r.Some? ==> r.value < |s| && p(s[r.value]) && forall j | 0 <= j < r.value :: !p(s[j])
    ensures r.None? ==> forall j | 0 <= j < |s| :: !p(s[j])
  {
    if s == [] then None
    else if p(s[0]) then Some(0)
    else match FirstIndex(s[1..], p)
      case None => None
      case Some(i) => Some(i + 1)
  }

  /** The concatenation of a list of lists, left to right. */
  function Concat<T>(ss: seq<seq<T>>): seq<T>
  {
    if ss == [] then [] else Concat(ss[..|ss| - 1]) + ss[|ss| - 1]
  }

  /** Every element of every list is in the concatenation, and every
      element of the concatenation comes from one of the lists. */
  lemma {:induction false} ConcatMembers<T>(ss: seq<seq<T>>)
    ensures forall i, j | 0 <= i < |ss| && 0 <= j < |ss[i]| :: ss[i][j] in Concat(ss)
    ensures forall x | x in Concat(ss) :: exists i | 0 <= i < |ss| :: x in ss[i]
  {
    if ss != [] {
      var init := ss[..|ss| - 1];
      ConcatMembers(init);
      assert forall i | 0 <= i < |ss| - 1 :: ss[i] == init[i];
    }
  }

  /** Two lists without repetitions and without a common element join into
      a list without repetitions. */
  lemma NoDupConcat<T>(a: seq<T>, b: seq<T>)
    requires NoDup(a) && NoDup(b) && forall x | x in a :: x !in b
    ensures NoDup(a + b)
  {
    var ab := a + b;
    forall i, j | 0 <= i < j < |ab| ensures ab[i] != ab[j]
    {
      if j < |a| {
        assert ab[i] == a[i] && ab[j] == a[j];
      } else if i >= |a| {
        assert ab[i] == b[i - |a|] && ab[j] == b[j - |a|];
      } else {
        assert ab[i] == a[i] && ab[j] == b[j - |a|];
        assert a[i] in a;
      }
    }
  }

  /** Concatenation seen from the front: the first list, then the rest. */
  lemma {:induction false} ConcatCons<T>(x: seq<T>, ss: seq<seq<T>>)
    ensures Concat([x] + ss) == x + Concat(ss)
    decreases |ss|
  {
    var xs := [x] + ss;
    if ss == [] {
      assert xs[..0] == [];
      assert Concat(xs) == Concat(xs[..0]) + xs[0];
    } else {
      var init := ss[..|ss| - 1];
      ConcatCons(x, init);
      assert xs[..|xs| - 1] == [x] + init;
      calc {
        Concat(xs);
        Concat(xs[..|xs| - 1]) + xs[|xs| - 1];
        Concat([x] + init) + ss[|ss| - 1];
        x + Concat(init) + ss[|ss| - 1];
        x + Concat(ss);
      }
    }
  }
}
