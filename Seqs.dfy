/** Sequence operations that stand for pandas boolean masks and `Series.unique()`. */
module Seqs {

  /** The elements of `s` that satisfy `p`, in their original order
      (a boolean-mask selection `df[mask]`). */
  function Where<T(!new)>(s: seq<T>, p: T -> bool): (r: seq<T>)
    ensures |r| <= |s|
    ensures forall x :: x in r <==> x in s && p(x)
  {
    if s == [] then []
    else if p(s[0]) then [s[0]] + Where(s[1..], p)
    else Where(s[1..], p)
  }

  /** Selection distributes over concatenation: it keeps the relative order of the rows. */
  lemma {:induction false} WhereConcat<T(!new)>(a: seq<T>, b: seq<T>, p: T -> bool)
    ensures Where(a + b, p) == Where(a, p) + Where(b, p)
  {
    if a == [] {
      assert a + b == b;
    } else {
      assert (a + b)[1..] == a[1..] + b;
      WhereConcat(a[1..], b, p);
    }
  }

  /** Selecting twice with the same mask selects nothing more. */
  lemma {:induction false} WhereIdempotent<T(!new)>(s: seq<T>, p: T -> bool)
    ensures Where(Where(s, p), p) == Where(s, p)
  {
    if s != [] {
      WhereIdempotent(s[1..], p);
      if p(s[0]) {
        assert ([s[0]] + Where(s[1..], p))[1..] == Where(s[1..], p);
      }
    }
  }

  /** A selection keeps every row when every row satisfies the mask. */
  lemma {:induction false} WhereAll<T(!new)>(s: seq<T>, p: T -> bool)
    requires forall i :: 0 <= i < |s| ==> p(s[i])
    ensures Where(s, p) == s
  {
    if s != [] {
      WhereAll(s[1..], p);
    }
  }

  /** Two masks, one implying the other, select sub-multisets in the same direction. */
  lemma {:induction false} WhereMonotone<T(!new)>(s: seq<T>, p: T -> bool, q: T -> bool)
    requires forall x :: p(x) ==> q(x)
    ensures |Where(s, p)| <= |Where(s, q)|
  {
    if s != [] {
      WhereMonotone(s[1..], p, q);
    }
  }

  /** Two masks that never hold together select at most as many rows as there are. */
  lemma {:induction false} WhereDisjoint<T(!new)>(s: seq<T>, p: T -> bool, q: T -> bool)
    requires forall x :: !(p(x) && q(x))
    ensures |Where(s, p)| + |Where(s, q)| <= |s|
  {
    if s != [] {
      WhereDisjoint(s[1..], p, q);
    }
  }

  predicate NoDup<T(==)>(s: seq<T>) {
    forall i, j :: 0 <= i < j < |s| ==> s[i] != s[j]
  }

  /** The distinct elements of `s` in order of first appearance (`Series.unique()`). */
  function Distinct<T(==,!new)>(s: seq<T>): (r: seq<T>)
    ensures NoDup(r)
    ensures forall x :: x in r <==> x in s
    ensures |r| <= |s|
  {
    if s == [] then []
    else
      var d := Distinct(s[..|s| - 1]);
      assert forall x :: x in s <==> x in s[..|s| - 1] || x == s[|s| - 1];
      if s[|s| - 1] in d then d else d + [s[|s| - 1]]
  }

  /** Appending an element extends the distinct elements exactly when it is new:
      the earlier first appearances keep their positions. */
  lemma DistinctSnoc<T(!new)>(s: seq<T>, x: T)
    ensures Distinct(s + [x]) == if x in s then Distinct(s) else Distinct(s) + [x]
  {
    assert (s + [x])[..|s + [x]| - 1] == s;
  }

  /** `Distinct` lists the elements in order of first appearance: an element that occurs
      first before another one is listed before it. */
  lemma {:induction false} DistinctFirstAppearance<T(!new)>(s: seq<T>, i: nat, j: nat)
    requires i < j < |s|
    requires s[i] !in s[..i] && s[j] !in s[..j]
    ensures exists a, b :: 0 <= a < b < |Distinct(s)| && Distinct(s)[a] == s[i] && Distinct(s)[b] == s[j]
  {
    var t := s[..j + 1];
    var u := s[..j];
    assert t == u + [s[j]];
    assert s[j] !in u;
    DistinctSnoc(u, s[j]);
    assert u[i] == s[i] && u[..i] == s[..i];
    assert s[i] in Distinct(u);
    var a :| 0 <= a < |Distinct(u)| && Distinct(u)[a] == s[i];
    var b := |Distinct(u)|;
    assert Distinct(t) == Distinct(u) + [s[j]];
    assert Distinct(t)[a] == s[i] && Distinct(t)[b] == s[j];
    assert s[..j + 1] == t;
    DistinctPrefixOfWhole(s, j + 1, a);
    DistinctPrefixOfWhole(s, j + 1, b);
    assert a < b < |Distinct(s)| && Distinct(s)[a] == s[i] && Distinct(s)[b] == s[j];
  }

  /** The distinct elements of a prefix are a prefix of the distinct elements. */
  lemma {:induction false} PrefixDistinct<T(!new)>(s: seq<T>, n: nat)
    requires n <= |s|
    ensures |Distinct(s[..n])| <= |Distinct(s)|
    ensures Distinct(s[..n]) == Distinct(s)[..|Distinct(s[..n])|]
  {
    if n < |s| {
      PrefixDistinct(s[..|s| - 1], n);
      assert s[..|s| - 1][..n] == s[..n];
    } else {
      assert s[..n] == s;
    }
  }

  lemma DistinctPrefixOfWhole<T(!new)>(s: seq<T>, n: nat, k: nat)
    requires n <= |s|
    requires k < |Distinct(s[..n])|
    ensures k < |Distinct(s)| && Distinct(s)[k] == Distinct(s[..n])[k]
  {
    PrefixDistinct(s, n);
  }
}
