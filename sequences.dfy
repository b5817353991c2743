/**
 * Row selection and key lists shared by the filters and the group-bys:
 * pandas' boolean-mask selection `df[mask]` and the sorted distinct integer
 * keys of a `groupby`.
 */
module Sequences {

  /** `a` is `b` with some elements deleted, the rest kept in order. */
  predicate IsSubseq<T(==)>(a: seq<T>, b: seq<T>)
    decreases |b|
  {
    if a == [] then true
    else if b == [] then false
    else if a[0] == b[0] then IsSubseq(a[1..], b[1..])
    else IsSubseq(a, b[1..])
  }

  /** `df[mask]`: the elements satisfying `p`, in their original order. */
  function Keep<T(==,!new)>(s: seq<T>, p: T -> bool): (r: seq<T>)
    ensures |r| <= |s|
    ensures forall x :: x in r <==> x in s && p(x)
    ensures IsSubseq(r, s)
    ensures forall x :: multiset(r)[x] == if p(x) then multiset(s)[x] else 0
    decreases |s|
  {
    if s == [] then []
    else
      var rest := Keep(s[1..], p);
      assert s == [s[0]] + s[1..];
      assert multiset(s) == multiset{s[0]} + multiset(s[1..]);
      if p(s[0]) then
        assert ([s[0]] + rest)[1..] == rest;
        [s[0]] + rest
      else
        assert rest != [] ==> rest[0] != s[0];
        rest
  }

  /** A mask that every element passes selects the whole sequence. */
  lemma {:induction false} KeepAll<T(!new)>(s: seq<T>, p: T -> bool)
    requires forall x :: x in s ==> p(x)
    ensures Keep(s, p) == s
    decreases |s|
  {
    if s != [] {
      KeepAll(s[1..], p);
      assert [s[0]] + s[1..] == s;
    }
  }

  /** A mask that no element passes selects nothing. */
  lemma {:induction false} KeepNone<T(!new)>(s: seq<T>, p: T -> bool)
    requires forall x :: x in s ==> !p(x)
    ensures Keep(s, p) == []
    decreases |s|
  {
    if s != [] { KeepNone(s[1..], p); }
  }

  /**
   * Three selections in a row are one selection with the conjunction of
   * their masks, whatever the order in which the masks are applied.
   */
  lemma {:induction false} KeepThrice<T(!new)>(s: seq<T>, p: T -> bool, q: T -> bool, t: T -> bool, all: T -> bool)
    requires forall x :: all(x) == (p(x) && q(x) && t(x))
    ensures Keep(Keep(Keep(s, p), q), t) == Keep(s, all)
    decreases |s|
  {
    if s != [] {
      KeepThrice(s[1..], p, q, t, all);
      var x := s[0];
      var kp := Keep(s[1..], p);
      if p(x) {
        assert Keep(s, p) == [x] + kp;
        assert ([x] + kp)[1..] == kp;
        var kq := Keep(kp, q);
        if q(x) {
          assert Keep([x] + kp, q) == [x] + kq;
          assert ([x] + kq)[1..] == kq;
        }
      }
    }
  }

  /** No element occurs twice. */
  predicate Distinct<T(==)>(s: seq<T>) {
    forall i, j :: 0 <= i < j < |s| ==> s[i] != s[j]
  }

  predicate Ascending(s: seq<int>) {
    forall i, j :: 0 <= i < j < |s| ==> s[i] < s[j]
  }

  /** Adds `x` to an ascending list of distinct integers, keeping it ascending. */
  function Insert(x: int, s: seq<int>): (r: seq<int>)
    requires Ascending(s)
    ensures Ascending(r)
    ensures forall y :: y in r <==> y in s || y == x
    decreases |s|
  {
    if s == [] || x < s[0] then [x] + s
    else if x == s[0] then s
    else
      var rest := Insert(x, s[1..]);
      assert forall y :: y in rest ==> s[0] < y;
      var r := [s[0]] + rest;
      assert forall i, j :: 0 <= i < j < |r| ==> r[i] < r[j] by {
        forall i, j | 0 <= i < j < |r| ensures r[i] < r[j] {
          if i == 0 { assert r[j] == rest[j - 1] && rest[j - 1] in rest; }
          else { assert r[i] == rest[i - 1] && r[j] == rest[j - 1]; }
        }
      }
      r
  }

  /** The distinct integers of `xs` in ascending order (`sorted(set(xs))`). */
  function SortedDistinct(xs: seq<int>): (r: seq<int>)
    ensures Ascending(r) && Distinct(r)
    ensures forall y :: y in r <==> y in xs
    decreases |xs|
  {
    if xs == [] then [] else Insert(xs[|xs| - 1], SortedDistinct(xs[..|xs| - 1]))
  }
}
