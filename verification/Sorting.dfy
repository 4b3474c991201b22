/** Sorting by an integer key, as std::sort is used for retry schedules and circular buffers. */
module Sorting {

  /** Places `x` behind everything whose key is not larger. */
  function Insert<T>(x: T, s: seq<T>, key: T -> int): seq<T>
  {
    if s == [] || key(x) < key(s[0]) then [x] + s else [s[0]] + Insert(x, s[1..], key)
  }

  function SortBy<T>(s: seq<T>, key: T -> int): seq<T>
  {
    if s == [] then [] else Insert(s[|s| - 1], SortBy(s[..|s| - 1], key), key)
  }

  ghost predicate Sorted<T>(s: seq<T>, key: T -> int)
  {
    forall i, j :: 0 <= i < j < |s| ==> key(s[i]) <= key(s[j])
  }

  lemma {:induction false} InsertElements<T>(x: T, s: seq<T>, key: T -> int)
    ensures multiset(Insert(x, s, key)) == multiset(s) + multiset{x}
  {
    if s == [] || key(x) < key(s[0]) {
    } else {
      InsertElements(x, s[1..], key);
      assert s == [s[0]] + s[1..];
    }
  }

  lemma InsertMembers<T>(x: T, s: seq<T>, key: T -> int, y: T)
    ensures y in Insert(x, s, key) <==> y == x || y in s
  {
    InsertElements(x, s, key);
    assert y in Insert(x, s, key) <==> y in multiset(Insert(x, s, key));
    assert y in s <==> y in multiset(s);
  }

  lemma {:induction false} InsertSorted<T>(x: T, s: seq<T>, key: T -> int)
    requires Sorted(s, key)
    ensures Sorted(Insert(x, s, key), key)
  {
    if s == [] || key(x) < key(s[0]) {
    } else {
      var r := Insert(x, s[1..], key);
      InsertSorted(x, s[1..], key);
      forall j | 0 <= j < |r| ensures key(s[0]) <= key(r[j]) {
        InsertMembers(x, s[1..], key, r[j]);
      }
    }
  }

  lemma FrontAndLast<T>(s: seq<T>)
    requires s != []
    ensures multiset(s) == multiset(s[..|s| - 1]) + multiset{s[|s| - 1]}
  {
    assert s == s[..|s| - 1] + [s[|s| - 1]];
  }

  lemma {:induction false} SortBySorts<T>(s: seq<T>, key: T -> int)
    ensures Sorted(SortBy(s, key), key) && multiset(SortBy(s, key)) == multiset(s)
  {
    if s == [] {
    } else {
      var n := |s| - 1;
      SortBySorts(s[..n], key);
      InsertSorted(s[n], SortBy(s[..n], key), key);
      InsertElements(s[n], SortBy(s[..n], key), key);
      FrontAndLast(s);
    }
  }

  lemma {:induction false} InsertLargest<T>(x: T, s: seq<T>, key: T -> int)
    requires forall i :: 0 <= i < |s| ==> key(s[i]) <= key(x)
    ensures Insert(x, s, key) == s + [x]
  {
    if s == [] {
    } else {
      InsertLargest(x, s[1..], key);
      assert s == [s[0]] + s[1..];
    }
  }

  lemma {:induction false} SortedIsFixed<T>(s: seq<T>, key: T -> int)
    requires Sorted(s, key)
    ensures SortBy(s, key) == s
  {
    if s == [] {
    } else {
      var n := |s| - 1;
      SortedIsFixed(s[..n], key);
      InsertLargest(s[n], s[..n], key);
      assert s == s[..n] + [s[n]];
    }
  }

  /** The key tells the elements apart. */
  ghost predicate Distinguishes<T>(key: T -> int, s: seq<T>)
  {
    forall x <- s, y <- s :: key(x) == key(y) ==> x == y
  }

  lemma DistinguishesAnyOrder<T>(s: seq<T>, t: seq<T>, key: T -> int)
    requires Distinguishes(key, s) && multiset(s) == multiset(t)
    ensures Distinguishes(key, t)
  {
    assert forall x <- t :: x in multiset(s);
  }

  lemma RestDistinguished<T>(s: seq<T>, key: T -> int)
    requires s != [] && Distinguishes(key, s)
    ensures Distinguishes(key, s[1..])
  {
    assert forall x <- s[1..] :: x in s;
  }

  lemma SameParts<T>(s: seq<T>, t: seq<T>)
    requires s != [] && t != [] && s[0] == t[0] && s[1..] == t[1..]
    ensures s == t
  {
    assert s == [s[0]] + s[1..];
    assert t == [t[0]] + t[1..];
  }

  lemma SameLength<T>(s: seq<T>, t: seq<T>)
    requires multiset(s) == multiset(t)
    ensures |s| == |t|
  {
    assert |s| == |multiset(s)| && |t| == |multiset(t)|;
  }

  lemma RestElements<T>(s: seq<T>)
    requires s != []
    ensures multiset(s[1..]) == multiset(s) - multiset{s[0]}
  {
    assert s == [s[0]] + s[1..];
  }

  lemma LeastFirst<T>(s: seq<T>, x: T, key: T -> int)
    requires x in s && Sorted(s, key)
    ensures key(s[0]) <= key(x)
  {
  }

  lemma SameLeast<T>(s: seq<T>, t: seq<T>, key: T -> int)
    requires s != [] && t != []
    requires Sorted(s, key) && Sorted(t, key) && multiset(s) == multiset(t)
    requires Distinguishes(key, s)
    ensures s[0] == t[0]
  {
    assert s[0] in multiset(t) && t[0] in multiset(s);
    LeastFirst(s, t[0], key);
    LeastFirst(t, s[0], key);
  }

  /** When the key tells the elements apart there is only one sorted permutation, so it does
      not matter which sorting algorithm is used. */
  lemma {:induction false} SortUnique<T>(s: seq<T>, t: seq<T>, key: T -> int)
    requires Sorted(s, key) && Sorted(t, key) && multiset(s) == multiset(t)
    requires Distinguishes(key, s)
    ensures s == t
  {
    SameLength(s, t);
    if s == [] {
    } else {
      SameLeast(s, t, key);
      RestElements(s);
      RestElements(t);
      RestDistinguished(s, key);
      SortUnique(s[1..], t[1..], key);
      SameParts(s, t);
    }
  }
}
