/** A stable sort by a key, as Python's `sorted` with one. */
module Sorting {

  type Key = (int, int)

  predicate Less(a: Key, b: Key) {
    a.0 < b.0 || (a.0 == b.0 && a.1 < b.1)
  }

  function Insert<T>(x: T, xs: seq<T>, key: T -> Key): seq<T> {
    if xs == [] then [x]
    else if Less(key(xs[0]), key(x)) then [xs[0]] + Insert(x, xs[1..], key)
    else [x] + xs
  }

  function Sort<T>(xs: seq<T>, key: T -> Key): seq<T> {
    if xs == [] then [] else Insert(xs[0], Sort(xs[1..], key), key)
  }

  ghost predicate Ordered<T>(xs: seq<T>, key: T -> Key) {
    forall i, j | 0 <= i < j < |xs| :: !Less(key(xs[j]), key(xs[i]))
  }

  lemma {:induction false} InsertMembers<T>(x: T, xs: seq<T>, key: T -> Key)
    ensures multiset(Insert(x, xs, key)) == multiset(xs) + multiset{x}
  {
    if xs != [] {
      assert xs == [xs[0]] + xs[1..];
      if Less(key(xs[0]), key(x)) {
        InsertMembers(x, xs[1..], key);
      }
    }
  }

  lemma {:induction false} InsertOrdered<T>(x: T, xs: seq<T>, key: T -> Key)
    requires Ordered(xs, key)
    ensures Ordered(Insert(x, xs, key), key)
  {
    if xs != [] && Less(key(xs[0]), key(x)) {
      InsertOrdered(x, xs[1..], key);
      var rest := Insert(x, xs[1..], key);
      forall j | 0 <= j < |rest| ensures !Less(key(rest[j]), key(xs[0])) {
        InsertMembers(x, xs[1..], key);
        MemberOf(rest, j, x, xs[1..]);
      }
    } else if xs != [] {
      forall j | 0 <= j < |xs| ensures !Less(key(xs[j]), key(x)) {
        assert j > 0 ==> !Less(key(xs[j]), key(xs[0]));
      }
    }
  }

  lemma MemberOf<T>(rest: seq<T>, j: nat, x: T, xs: seq<T>)
    requires j < |rest| && multiset(rest) == multiset(xs) + multiset{x}
    ensures rest[j] == x || exists k | 0 <= k < |xs| :: xs[k] == rest[j]
  {
    assert rest[j] in multiset(rest);
    assert rest[j] != x ==> rest[j] in multiset(xs);
  }

  lemma {:induction false} SortOrdered<T>(xs: seq<T>, key: T -> Key)
    ensures Ordered(Sort(xs, key), key) && multiset(Sort(xs, key)) == multiset(xs)
  {
    if xs != [] {
      SortOrdered(xs[1..], key);
      InsertOrdered(xs[0], Sort(xs[1..], key), key);
      InsertMembers(xs[0], Sort(xs[1..], key), key);
      assert xs == [xs[0]] + xs[1..];
    }
  }

  lemma SortMembers<T>(xs: seq<T>, key: T -> Key, x: T)
    ensures x in Sort(xs, key) <==> x in xs
  {
    SortOrdered(xs, key);
    assert x in xs <==> x in multiset(xs);
    assert x in Sort(xs, key) <==> x in multiset(Sort(xs, key));
  }

  lemma {:induction false} SortSorted<T>(xs: seq<T>, key: T -> Key)
    requires Ordered(xs, key)
    ensures Sort(xs, key) == xs
  {
    if xs != [] {
      SortSorted(xs[1..], key);
      if |xs| > 1 {
        assert !Less(key(xs[1]), key(xs[0]));
      }
    }
  }

  /** `set`, keeping one of each. */
  function Distinct<T(==)>(xs: seq<T>): seq<T> {
    if xs == [] then []
    else if xs[0] in xs[1..] then Distinct(xs[1..])
    else [xs[0]] + Distinct(xs[1..])
  }

  lemma {:induction false} DistinctMembers<T>(xs: seq<T>, x: T)
    ensures x in Distinct(xs) <==> x in xs
  {
    if xs != [] {
      DistinctMembers(xs[1..], x);
      assert xs == [xs[0]] + xs[1..];
    }
  }
}
