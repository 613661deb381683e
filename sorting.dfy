/**
 * `sorted(by:)` with a strict "comes before" predicate, as Swift's standard library offers it:
 * a stable sort. The result is a permutation of the input in which no element comes before an
 * earlier one, and elements that are not ordered against each other keep their input order.
 */
module Sorting {
  import Text

  /** Transitivity of `lt` and of its complement, for one triple. */
  ghost predicate TransitiveAt<T>(lt: (T, T) -> bool, a: T, b: T, c: T) {
    && (lt(a, b) && lt(b, c) ==> lt(a, c))
    && (!lt(a, b) && !lt(b, c) ==> !lt(a, c))
  }

  /**
   * What Swift asks of an `areInIncreasingOrder` predicate. The transitivity laws are only
   * instantiated where a proof names the triple, through TransitiveAt.
   */
  ghost predicate StrictWeakOrder<T(!new)>(lt: (T, T) -> bool) {
    && (forall a :: !lt(a, a))
    && (forall a, b, c {:trigger TransitiveAt(lt, a, b, c)} :: TransitiveAt(lt, a, b, c))
  }

  /** No element comes strictly before an element to its left. */
  predicate SortedBy<T>(s: seq<T>, lt: (T, T) -> bool) {
    forall i, j :: 0 <= i < j < |s| ==> !lt(s[j], s[i])
  }

  function Insert<T(!new)>(x: T, s: seq<T>, lt: (T, T) -> bool): (r: seq<T>)
    requires StrictWeakOrder(lt) && SortedBy(s, lt)
    ensures multiset(r) == multiset(s) + multiset{x}
    ensures SortedBy(r, lt)
  {
    if s == [] || !lt(s[0], x) then
      InsertAtFront(x, s, lt);
      [x] + s
    else
      var rest := Insert(x, s[1..], lt);
      assert s == [s[0]] + s[1..];
      HeadStaysFirst(x, s, rest, lt);
      [s[0]] + rest
  }

  /** `x` may go first when the first element does not come before it. */
  lemma InsertAtFront<T(!new)>(x: T, s: seq<T>, lt: (T, T) -> bool)
    requires StrictWeakOrder(lt) && SortedBy(s, lt)
    requires s == [] || !lt(s[0], x)
    ensures SortedBy([x] + s, lt)
  {
    forall j | 0 <= j < |s| ensures !lt(s[j], x) {
      if j > 0 {
        assert !lt(s[j], s[0]) && TransitiveAt(lt, s[j], s[0], x);
      }
    }
  }

  /** When the head comes before `x`, it stays ahead of `x` inserted into the tail. */
  lemma HeadStaysFirst<T(!new)>(x: T, s: seq<T>, rest: seq<T>, lt: (T, T) -> bool)
    requires StrictWeakOrder(lt) && SortedBy(s, lt) && s != [] && lt(s[0], x)
    requires multiset(rest) == multiset(s[1..]) + multiset{x} && SortedBy(rest, lt)
    ensures SortedBy([s[0]] + rest, lt)
  {
    forall k | 0 <= k < |rest| ensures !lt(rest[k], s[0]) {
      assert rest[k] in multiset(rest);
      if rest[k] == x {
        assert TransitiveAt(lt, s[0], x, s[0]);
      } else {
        assert rest[k] in multiset(s[1..]);
        var i :| 0 <= i < |s[1..]| && s[1..][i] == rest[k];
        assert s[i + 1] == rest[k];
      }
    }
    assert forall i, j :: 0 < i < j < |[s[0]] + rest| ==> ([s[0]] + rest)[j] == rest[j - 1] && ([s[0]] + rest)[i] == rest[i - 1];
  }

  /** Insertion sort: a permutation of `s` that is sorted by `lt`. */
  function SortBy<T(!new)>(s: seq<T>, lt: (T, T) -> bool): (r: seq<T>)
    requires StrictWeakOrder(lt)
    ensures multiset(r) == multiset(s)
    ensures SortedBy(r, lt)
  {
    if s == [] then []
    else
      assert s == [s[0]] + s[1..];
      Insert(s[0], SortBy(s[1..], lt), lt)
  }

  /** The elements of `s` that satisfy `p`, in their order in `s`. */
  function Filter<T>(s: seq<T>, p: T -> bool): seq<T> {
    if s == [] then [] else (if p(s[0]) then [s[0]] else []) + Filter(s[1..], p)
  }

  /** No two elements satisfying `p` are ordered by `lt`: `p` picks out elements that tie. */
  ghost predicate Unordered<T(!new)>(p: T -> bool, lt: (T, T) -> bool) {
    forall a, b :: p(a) && p(b) ==> !lt(a, b)
  }

  /** Inserting `x` does not move it past an element that ties with it. */
  lemma {:induction false} InsertKeepsTies<T(!new)>(x: T, s: seq<T>, lt: (T, T) -> bool, p: T -> bool)
    requires StrictWeakOrder(lt) && SortedBy(s, lt) && Unordered(p, lt)
    ensures Filter(Insert(x, s, lt), p) == Filter([x] + s, p)
  {
    assert ([x] + s)[1..] == s;
    if s != [] && lt(s[0], x) {
      var rest := Insert(x, s[1..], lt);
      InsertKeepsTies(x, s[1..], lt, p);
      assert ([s[0]] + rest)[1..] == rest;
      assert ([x] + s[1..])[1..] == s[1..];
      assert !(p(s[0]) && p(x));
    }
  }

  /** `SortBy` is stable: elements that tie keep the order they had in the input. */
  lemma {:induction false} SortByIsStable<T(!new)>(s: seq<T>, lt: (T, T) -> bool, p: T -> bool)
    requires StrictWeakOrder(lt) && Unordered(p, lt)
    ensures Filter(SortBy(s, lt), p) == Filter(s, p)
  {
    if s != [] {
      var sorted := SortBy(s[1..], lt);
      SortByIsStable(s[1..], lt, p);
      InsertKeepsTies(s[0], sorted, lt, p);
      assert ([s[0]] + sorted)[1..] == sorted;
    }
  }

  /** Ordering by an integer key, as `{ $0.key < $1.key }` does. */
  lemma IntKeyOrder<T(!new)>(key: T -> int, lt: (T, T) -> bool)
    requires forall a, b :: lt(a, b) == (key(a) < key(b))
    ensures StrictWeakOrder(lt)
  {
  }

  /** Ordering by a string key under String's `<`. */
  lemma StringKeyOrder<T(!new)>(key: T -> string, lt: (T, T) -> bool)
    requires forall a, b :: lt(a, b) == Text.Less(key(a), key(b))
    ensures StrictWeakOrder(lt)
  {
    forall a ensures !lt(a, a) {
      Text.LessIrreflexive(key(a));
    }
    forall a, b, c ensures TransitiveAt(lt, a, b, c) {
      if lt(a, b) && lt(b, c) {
        Text.LessTransitive(key(a), key(b), key(c));
      }
      NegatedLessTransitive(key(a), key(b), key(c));
    }
  }

  /** `sorted { key($0) < key($1) }` for an integer key: a permutation, non-decreasing in the key. */
  function SortByIntKey<T(!new)>(s: seq<T>, key: T -> int): (r: seq<T>)
    ensures multiset(r) == multiset(s)
    ensures forall i, j :: 0 <= i < j < |r| ==> key(r[i]) <= key(r[j])
  {
    IntKeyOrder(key, ByIntKey(key));
    SortBy(s, ByIntKey(key))
  }

  /** `sorted { key($0) < key($1) }` for a string key: a permutation in which no key is less than an earlier one. */
  function SortByStringKey<T(!new)>(s: seq<T>, key: T -> string): (r: seq<T>)
    ensures multiset(r) == multiset(s)
    ensures forall i, j :: 0 <= i < j < |r| ==> !Text.Less(key(r[j]), key(r[i]))
  {
    StringKeyOrder(key, ByStringKey(key));
    SortBy(s, ByStringKey(key))
  }

  function ByIntKey<T>(key: T -> int): (T, T) -> bool {
    (a: T, b: T) => key(a) < key(b)
  }

  function ByStringKey<T>(key: T -> string): (T, T) -> bool {
    (a: T, b: T) => Text.Less(key(a), key(b))
  }

  /** Whether an element's key is `k`. */
  function HasIntKey<T>(key: T -> int, k: int): T -> bool {
    (a: T) => key(a) == k
  }

  function HasStringKey<T>(key: T -> string, k: string): T -> bool {
    (a: T) => key(a) == k
  }

  /** Elements with the same integer key come out in the order they went in. */
  lemma SortByIntKeyIsStable<T(!new)>(s: seq<T>, key: T -> int, k: int)
    ensures Filter(SortByIntKey(s, key), HasIntKey(key, k)) == Filter(s, HasIntKey(key, k))
  {
    IntKeyOrder(key, ByIntKey(key));
    SortByIsStable(s, ByIntKey(key), HasIntKey(key, k));
  }

  /** Elements with the same string key come out in the order they went in. */
  lemma SortByStringKeyIsStable<T(!new)>(s: seq<T>, key: T -> string, k: string)
    ensures Filter(SortByStringKey(s, key), HasStringKey(key, k)) == Filter(s, HasStringKey(key, k))
  {
    StringKeyOrder(key, ByStringKey(key));
    Text.LessIrreflexive(k);
    SortByIsStable(s, ByStringKey(key), HasStringKey(key, k));
  }

  lemma NegatedLessTransitive(a: string, b: string, c: string)
    ensures !Text.Less(a, b) && !Text.Less(b, c) ==> !Text.Less(a, c)
  {
    if !Text.Less(a, b) && !Text.Less(b, c) {
      if a != b {
        Text.LessTotal(a, b);
      }
      if b != c {
        Text.LessTotal(b, c);
      }
      if Text.Less(b, a) && Text.Less(c, b) {
        Text.LessTransitive(c, b, a);
      }
      if Text.Less(a, c) {
        Text.LessIrreflexive(a);
        if c != a {
          Text.LessTransitive(a, c, a);
        }
      }
    }
  }
}
