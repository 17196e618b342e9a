/** A stable sort by an integer key, as the library sort the program relies on. */
module Sorting {
  import opened Wrappers

  ghost predicate Ascending<T>(s: seq<T>, key: T -> int) {
    forall i, j :: 0 <= i < j < |s| ==> key(s[i]) <= key(s[j])
  }

  /** Put `x` before the first element that is not smaller. */
  function Place<T>(s: seq<T>, x: T, key: T -> int): seq<T> {
    if s == [] || key(x) <= key(s[0]) then [x] + s else [s[0]] + Place(s[1..], x, key)
  }

  function Sorted<T>(s: seq<T>, key: T -> int): seq<T> {
    if s == [] then [] else Place(Sorted(s[1..], key), s[0], key)
  }

  function FirstWhere<T>(s: seq<T>, q: T -> bool): Option<T> {
    if s == [] then None else if q(s[0]) then Some(s[0]) else FirstWhere(s[1..], q)
  }

  lemma {:induction false} PlaceAdds<T>(s: seq<T>, x: T, key: T -> int)
    ensures multiset(Place(s, x, key)) == multiset(s) + multiset{x}
  {
    if s != [] && key(x) > key(s[0]) {
      assert s == [s[0]] + s[1..];
      PlaceAdds(s[1..], x, key);
    }
  }

  lemma PrependAscending<T>(x: T, rest: seq<T>, key: T -> int)
    requires Ascending(rest, key) && (rest != [] ==> key(x) <= key(rest[0]))
    ensures Ascending([x] + rest, key)
  {
    forall i, j | 0 <= i < j < |rest| + 1 ensures key(([x] + rest)[i]) <= key(([x] + rest)[j]) {
      assert j > 1 ==> key(rest[0]) <= key(rest[j - 1]);
    }
  }

  lemma {:induction false} PlaceAscends<T>(s: seq<T>, x: T, key: T -> int)
    requires Ascending(s, key)
    ensures Ascending(Place(s, x, key), key)
    ensures Place(s, x, key) != []
    ensures key(Place(s, x, key)[0]) == if s == [] || key(x) <= key(s[0]) then key(x) else key(s[0])
  {
    if s == [] || key(x) <= key(s[0]) {
      PrependAscending(x, s, key);
    } else {
      PlaceAscends(s[1..], x, key);
      PrependAscending(s[0], Place(s[1..], x, key), key);
    }
  }

  lemma {:induction false} SortedSorts<T>(s: seq<T>, key: T -> int)
    ensures Ascending(Sorted(s, key), key) && multiset(Sorted(s, key)) == multiset(s)
  {
    if s != [] {
      SortedSorts(s[1..], key);
      PlaceAdds(Sorted(s[1..], key), s[0], key);
      PlaceAscends(Sorted(s[1..], key), s[0], key);
      assert s == [s[0]] + s[1..];
    }
  }

  lemma {:induction false} PlaceIsStable<T>(s: seq<T>, x: T, key: T -> int, q: T -> bool, k: int)
    requires forall y :: y in s && q(y) ==> key(y) == k
    requires q(x) ==> key(x) == k
    ensures FirstWhere(Place(s, x, key), q) == if q(x) then Some(x) else FirstWhere(s, q)
  {
    var placed := Place(s, x, key);
    if s == [] || key(x) <= key(s[0]) {
      assert placed[1..] == s;
    } else {
      PlaceIsStable(s[1..], x, key, q, k);
      assert placed[1..] == Place(s[1..], x, key);
    }
  }

  /** Stability: among elements of one key, the first one of the list is still the first. */
  lemma {:induction false} SortedIsStable<T>(s: seq<T>, key: T -> int, q: T -> bool, k: int)
    requires forall y :: y in s && q(y) ==> key(y) == k
    ensures FirstWhere(Sorted(s, key), q) == FirstWhere(s, q)
  {
    if s != [] {
      SortedIsStable(s[1..], key, q, k);
      SortedSorts(s[1..], key);
      forall y | y in Sorted(s[1..], key) && q(y) ensures key(y) == k {
        assert y in multiset(Sorted(s[1..], key));
        assert y in s[1..];
      }
      PlaceIsStable(Sorted(s[1..], key), s[0], key, q, k);
    }
  }

  lemma SortedMembers<T>(s: seq<T>, key: T -> int)
    ensures forall x :: x in Sorted(s, key) <==> x in s
  {
    SortedSorts(s, key);
    forall x ensures x in Sorted(s, key) <==> x in s {
      assert x in Sorted(s, key) <==> x in multiset(Sorted(s, key));
      assert x in s <==> x in multiset(s);
    }
  }
}
