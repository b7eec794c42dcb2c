/**
 * The copy-and-sort of the list queries. The platform's array sort is stable
 * and is driven by a comparator; here the comparator is a total preorder `le`
 * on sort keys, and the sort is an insertion sort that places each record
 * before the first sorted record it does not exceed, which keeps records with
 * equivalent keys in their stored order.
 */
module Sorting {

  /** `le` relates any two keys one way or the other, and is transitive. */
  ghost predicate TotalPreorder<K(!new)>(le: (K, K) -> bool) {
    && (forall a, b :: le(a, b) || le(b, a))
    && (forall a, b, c :: le(a, b) && le(b, c) ==> le(a, c))
  }

  /** Every record's key is `le` every later record's key. */
  predicate SortedBy<T, K(!new)>(s: seq<T>, key: T -> K, le: (K, K) -> bool) {
    forall i, j :: 0 <= i < j < |s| ==> le(key(s[i]), key(s[j]))
  }

  /** Insert `x` into the sorted `s`, before the first record whose key it does not exceed. */
  function Insert<T, K(!new)>(x: T, s: seq<T>, key: T -> K, le: (K, K) -> bool): (r: seq<T>)
    requires TotalPreorder(le)
    requires SortedBy(s, key, le)
    ensures SortedBy(r, key, le)
    ensures multiset(r) == multiset(s) + multiset{x}
    ensures forall j :: 0 <= j < |r| ==> r[j] == x || r[j] in s
  {
    if s == [] then [x]
    else if le(key(x), key(s[0])) then
      assert s == [s[0]] + s[1..];
      [x] + s
    else
      var tail := Insert(x, s[1..], key, le);
      assert s == [s[0]] + s[1..];
      LowerBound(s[0], tail, x, s[1..], key, le);
      [s[0]] + tail
  }

  /** A key below `x`'s and below every key of `rest` is below every key of `tail`, drawn from both. */
  lemma LowerBound<T, K(!new)>(first: T, tail: seq<T>, x: T, rest: seq<T>, key: T -> K, le: (K, K) -> bool)
    requires le(key(first), key(x))
    requires forall j :: 0 <= j < |rest| ==> le(key(first), key(rest[j]))
    requires forall j :: 0 <= j < |tail| ==> tail[j] == x || tail[j] in rest
    ensures forall j :: 0 <= j < |tail| ==> le(key(first), key(tail[j]))
  {
    forall j | 0 <= j < |tail| && tail[j] != x
      ensures le(key(first), key(tail[j]))
    {
      var m :| 0 <= m < |rest| && rest[m] == tail[j];
    }
  }

  /** A sorted permutation of `s`. */
  function SortBy<T, K(!new)>(s: seq<T>, key: T -> K, le: (K, K) -> bool): (r: seq<T>)
    requires TotalPreorder(le)
    ensures SortedBy(r, key, le)
    ensures multiset(r) == multiset(s)
  {
    if s == [] then []
    else
      assert s == [s[0]] + s[1..];
      Insert(s[0], SortBy(s[1..], key, le), key, le)
  }

  /** The keys `a` and `b` are equivalent: each is `le` the other. */
  predicate Equivalent<K>(le: (K, K) -> bool, a: K, b: K) {
    le(a, b) && le(b, a)
  }

  /** The records of `s` whose key is equivalent to `k`, in their order in `s`. */
  function Tied<T, K>(s: seq<T>, key: T -> K, le: (K, K) -> bool, k: K): seq<T> {
    if s == [] then []
    else (if Equivalent(le, key(s[0]), k) then [s[0]] else []) + Tied(s[1..], key, le, k)
  }

  /**
   * Inserting `x` puts it ahead of every record whose key is equivalent to
   * its own, and leaves every other run of equivalent records as it was.
   */
  lemma {:induction false} InsertTied<T, K(!new)>(x: T, s: seq<T>, key: T -> K, le: (K, K) -> bool, k: K)
    requires TotalPreorder(le)
    requires SortedBy(s, key, le)
    ensures Tied(Insert(x, s, key, le), key, le, k)
         == (if Equivalent(le, key(x), k) then [x] else []) + Tied(s, key, le, k)
  {
    if s != [] {
      assert s == [s[0]] + s[1..];
      TiedCons(s[0], s[1..], key, le, k);
      if le(key(x), key(s[0])) {
        TiedCons(x, s, key, le, k);
      } else {
        var tail := Insert(x, s[1..], key, le);
        InsertTied(x, s[1..], key, le, k);
        TiedCons(s[0], tail, key, le, k);
        SeparateClasses(le, key(x), key(s[0]), k);
      }
    }
  }

  lemma TiedCons<T, K>(y: T, tail: seq<T>, key: T -> K, le: (K, K) -> bool, k: K)
    ensures Tied([y] + tail, key, le, k) == (if Equivalent(le, key(y), k) then [y] else []) + Tied(tail, key, le, k)
  {
    assert ([y] + tail)[1..] == tail;
  }

  /** Keys on either side of a strict step are never both equivalent to `k`. */
  lemma SeparateClasses<K(!new)>(le: (K, K) -> bool, a: K, b: K, k: K)
    requires TotalPreorder(le)
    requires !le(a, b)
    ensures Equivalent(le, a, k) ==> !Equivalent(le, b, k)
  {
  }

  /**
   * The sort is stable: the records with keys equivalent to any `k` come out
   * in the order they went in.
   */
  lemma {:induction false} SortByStable<T, K(!new)>(s: seq<T>, key: T -> K, le: (K, K) -> bool, k: K)
    requires TotalPreorder(le)
    ensures Tied(SortBy(s, key, le), key, le, k) == Tied(s, key, le, k)
  {
    if s != [] {
      SortByStable(s[1..], key, le, k);
      InsertTied(s[0], SortBy(s[1..], key, le), key, le, k);
    }
  }

  /** The numeric order of instants, the comparator `a - b` on timestamps. */
  function IntLe(a: int, b: int): bool { a <= b }

  lemma IntLeIsTotalPreorder()
    ensures TotalPreorder(IntLe)
  {
  }
}
