/**
  The orderings the summaries and exports use: pandas ordered Categoricals
  (a fixed priority list; a value outside the list becomes a missing value
  that sorts after every listed one) and `sort_values`, modelled as an
  insertion sort under a total preorder.
*/
module Ordering {
  import opened Wrappers

  /** Position of `x` in a priority list, or the list's length when absent. */
  function IndexOf(order: seq<string>, x: string): (i: nat)
    ensures i <= |order|
    ensures i < |order| <==> x in order
    ensures i < |order| ==> order[i] == x && x !in order[..i]
  {
    if |order| == 0 then 0
    else if order[0] == x then 0
    else
      assert order[1..][..IndexOf(order[1..], x)] == order[1..IndexOf(order[1..], x) + 1];
      1 + IndexOf(order[1..], x)
  }

  /** `pd.Categorical([x], categories=order)`: a listed value is kept, any
      other value becomes missing. */
  function Categorize(order: seq<string>, x: string): (c: Option<string>)
    ensures c.Some? <==> x in order
    ensures c.Some? ==> c.value == x
  {
    if x in order then Some(x) else None
  }

  /** The sort code pandas gives a Categorical value: its position in the
      list, and for a missing value (na_position='last') one past the end. */
  function Rank(order: seq<string>, c: Option<string>): (k: nat)
    ensures k <= |order|
    ensures c.Some? && c.value in order ==> k < |order| && order[k] == c.value
    ensures k == |order| <==> c.None? || c.value !in order
  {
    match c
    case None => |order|
    case Some(x) => IndexOf(order, x)
  }

  /** Every listed value ranks before every value the list does not hold. */
  lemma {:induction false} UnlistedRanksLast(order: seq<string>, listed: string, other: string)
    requires listed in order && other !in order
    ensures Rank(order, Categorize(order, listed)) < Rank(order, Categorize(order, other))
  {
  }

  ghost predicate Total<T(!new)>(le: (T, T) -> bool)
  {
    forall a, b :: le(a, b) || le(b, a)
  }

  ghost predicate Transitive<T(!new)>(le: (T, T) -> bool)
  {
    forall a, b, c :: le(a, b) && le(b, c) ==> le(a, c)
  }

  predicate SortedBy<T>(s: seq<T>, le: (T, T) -> bool)
  {
    forall i, j :: 0 <= i < j < |s| ==> le(s[i], s[j])
  }

  /** `sort_values` under the key order `le`: the result is ordered and is a
      rearrangement of the input. */
  method SortBy<T(!new)>(s: seq<T>, le: (T, T) -> bool) returns (r: seq<T>)
    requires Total(le) && Transitive(le)
    ensures SortedBy(r, le)
    ensures multiset(r) == multiset(s)
  {
    r := [];
    var i := 0;
    while i < |s|
      invariant i <= |s|
      invariant SortedBy(r, le)
      invariant multiset(r) == multiset(s[..i])
    {
      r := Insert(r, s[i], le);
      assert s[..i + 1] == s[..i] + [s[i]];
      i := i + 1;
    }
    assert s[..i] == s;
  }

  /** Places `x` after the elements of the sorted `r` that are at most `x`. */
  method Insert<T(!new)>(r: seq<T>, x: T, le: (T, T) -> bool) returns (r': seq<T>)
    requires Total(le) && Transitive(le)
    requires SortedBy(r, le)
    ensures SortedBy(r', le)
    ensures multiset(r') == multiset(r) + multiset{x}
  {
    var j := 0;
    while j < |r| && le(r[j], x)
      invariant j <= |r|
      invariant forall k :: 0 <= k < j ==> le(r[k], x)
    {
      j := j + 1;
    }
    InsertionPointSplits(r, j, x, le);
    r' := r[..j] + [x] + r[j..];
    assert r == r[..j] + r[j..];
    SpliceSorted(r, j, x, le);
  }

  lemma InsertionPointSplits<T(!new)>(r: seq<T>, j: nat, x: T, le: (T, T) -> bool)
    requires Total(le) && Transitive(le)
    requires SortedBy(r, le)
    requires j <= |r| && (j < |r| ==> !le(r[j], x))
    ensures forall k :: j <= k < |r| ==> le(x, r[k])
  {
    if j < |r| {
      assert le(x, r[j]);
      forall k | j < k < |r| ensures le(x, r[k]) {
        assert le(r[j], r[k]);
      }
    }
  }

  lemma SpliceSorted<T>(r: seq<T>, j: nat, x: T, le: (T, T) -> bool)
    requires SortedBy(r, le) && j <= |r|
    requires forall k :: 0 <= k < j ==> le(r[k], x)
    requires forall k :: j <= k < |r| ==> le(x, r[k])
    ensures SortedBy(r[..j] + [x] + r[j..], le)
  {
    var r' := r[..j] + [x] + r[j..];
    forall a, b | 0 <= a < b < |r'| ensures le(r'[a], r'[b]) {
      var ia := if a < j then a else a - 1;
      var ib := if b <= j then b else b - 1;
      if a == j {
        assert r'[b] == r[ib];
      } else if b == j {
        assert r'[a] == r[ia];
      } else {
        assert r'[a] == r[ia] && r'[b] == r[ib] && ia < ib;
      }
    }
  }

  /** No two positions of `s` share a key. */
  predicate DistinctBy<T, K(==)>(s: seq<T>, key: T -> K)
  {
    forall i, j :: 0 <= i < j < |s| ==> key(s[i]) != key(s[j])
  }

  lemma {:induction false} AtMostOnce<T>(s: seq<T>, x: T)
    requires forall i, j :: 0 <= i < j < |s| && s[i] == x ==> s[j] != x
    ensures multiset(s)[x] <= 1
  {
    if |s| > 0 {
      var init := s[..|s| - 1];
      AtMostOnce(init, x);
      assert s == init + [s[|s| - 1]];
      if s[|s| - 1] == x {
        assert x !in init by {
          forall k | 0 <= k < |init| ensures init[k] != x {
            assert s[k] == init[k];
          }
        }
      }
    }
  }

  lemma TwoPositions<T>(s: seq<T>, i: nat, j: nat)
    requires i < j < |s| && s[i] == s[j]
    ensures multiset(s)[s[i]] >= 2
  {
    assert s == s[..j] + s[j..];
    assert s[i] in s[..j] && s[j] in s[j..];
  }

  /** A rearrangement keeps keys distinct. */
  lemma PermutationKeepsDistinct<T, K>(s: seq<T>, r: seq<T>, key: T -> K)
    requires multiset(r) == multiset(s)
    requires DistinctBy(s, key)
    ensures DistinctBy(r, key)
  {
    forall i, j | 0 <= i < j < |r| ensures key(r[i]) != key(r[j]) {
      if key(r[i]) == key(r[j]) {
        assert r[i] in multiset(s) && r[j] in multiset(s);
        var a :| 0 <= a < |s| && s[a] == r[i];
        var b :| 0 <= b < |s| && s[b] == r[j];
        assert a == b;
        AtMostOnce(s, r[i]);
        TwoPositions(r, i, j);
        assert false;
      }
    }
  }
}
