/** Sorting by an integer key, as the standard library sort is relied on: a permutation in key order. */
module Sorting {
  import opened Sums

  predicate Sorted<T>(s: seq<T>, key: T -> int) {
    forall i, j :: 0 <= i < j < |s| ==> key(s[i]) <= key(s[j])
  }

  function Insert<T>(x: T, s: seq<T>, key: T -> int): seq<T> {
    if s == [] || key(x) <= key(s[0]) then [x] + s else [s[0]] + Insert(x, s[1..], key)
  }

  function Sort<T>(s: seq<T>, key: T -> int): seq<T> {
    if s == [] then [] else Insert(s[|s| - 1], Sort(s[..|s| - 1], key), key)
  }

  function Map<T, U>(s: seq<T>, g: T -> U): (r: seq<U>)
    ensures |r| == |s| && forall i :: 0 <= i < |s| ==> r[i] == g(s[i])
  {
    seq(|s|, i requires 0 <= i < |s| => g(s[i]))
  }

  lemma MapConcat<T, U>(a: seq<T>, b: seq<T>, g: T -> U)
    ensures Map(a + b, g) == Map(a, g) + Map(b, g)
  {}

  /** Inserting permutes the images under any map alike. */
  lemma {:induction false} InsertMaps<T, U>(x: T, s: seq<T>, key: T -> int, g: T -> U)
    ensures multiset(Map(Insert(x, s, key), g)) == multiset(Map(s, g)) + multiset{g(x)}
  {
    if s == [] || key(x) <= key(s[0]) {
      MapConcat([x], s, g);
      assert Map([x], g) == [g(x)];
    } else {
      InsertMaps(x, s[1..], key, g);
      var t := Insert(x, s[1..], key);
      assert s == [s[0]] + s[1..];
      MapConcat([s[0]], s[1..], g);
      MapConcat([s[0]], t, g);
      assert Map([s[0]], g) == [g(s[0])];
      assert Insert(x, s, key) == [s[0]] + t;
      hide Map, Insert;
    }
  }

  /** Inserting into a sorted sequence keeps it sorted. */
  lemma {:induction false} InsertSorts<T>(x: T, s: seq<T>, key: T -> int)
    requires Sorted(s, key)
    ensures multiset(Insert(x, s, key)) == multiset(s) + multiset{x}
    ensures Sorted(Insert(x, s, key), key)
  {
    if s != [] && key(x) > key(s[0]) {
      InsertSorts(x, s[1..], key);
      assert s == [s[0]] + s[1..];
      HeadLeast(x, s, key);
    }
  }

  lemma HeadLeast<T>(x: T, s: seq<T>, key: T -> int)
    requires s != [] && Sorted(s, key) && key(s[0]) < key(x)
    requires Sorted(Insert(x, s[1..], key), key) && multiset(Insert(x, s[1..], key)) == multiset(s[1..]) + multiset{x}
    ensures Sorted([s[0]] + Insert(x, s[1..], key), key)
  {
    var t := Insert(x, s[1..], key);
    forall i | 0 <= i < |t| ensures key(s[0]) <= key(t[i]) {
      assert t[i] in multiset(t);
      if t[i] != x {
        assert t[i] in s[1..];
      }
    }
  }

  /** A sort is a sorted permutation, and maps permute with it. */
  lemma {:induction false} SortFacts<T, U>(s: seq<T>, key: T -> int, g: T -> U)
    ensures Sorted(Sort(s, key), key)
    ensures multiset(Sort(s, key)) == multiset(s)
    ensures multiset(Map(Sort(s, key), g)) == multiset(Map(s, g))
  {
    if s != [] {
      var n := |s| - 1;
      SortFacts(s[..n], key, g);
      InsertMaps(s[n], Sort(s[..n], key), key, g);
      InsertSorts(s[n], Sort(s[..n], key), key);
      assert s == s[..n] + [s[n]];
      MapConcat(s[..n], [s[n]], g);
      assert Map([s[n]], g) == [g(s[n])];
    }
  }

  /** A strictly ascending sequence is the only sorted arrangement of its elements. */
  lemma {:induction false} SortedUnique<T>(a: seq<T>, b: seq<T>, key: T -> int)
    requires Ascending(a, key) && Sorted(b, key) && multiset(a) == multiset(b)
    ensures a == b
  {
    assert |a| == |multiset(a)| == |multiset(b)| == |b|;
    if a != [] {
      var n := |a| - 1;
      SameLast(a, b, key);
      SortedUnique(a[..n], b[..n], key);
      assert a == a[..n] + [a[n]] && b == b[..n] + [b[n]];
    }
  }

  lemma SameLast<T>(a: seq<T>, b: seq<T>, key: T -> int)
    requires Ascending(a, key) && Sorted(b, key) && multiset(a) == multiset(b) && |a| == |b| && a != []
    ensures var n := |a| - 1; a[n] == b[n] && multiset(a[..n]) == multiset(b[..n])
  {
    var n := |a| - 1;
    var i := Locate(a, b, n);
    var j := Locate(b, a, n);
    LargestLast(a, b, key, i, j);
    hide Ascending, Sorted;
    DropLast(a);
    DropLast(b);
  }

  lemma LargestLast<T>(a: seq<T>, b: seq<T>, key: T -> int, i: nat, j: nat)
    requires Ascending(a, key) && Sorted(b, key) && |a| == |b| && i < |b| && j < |a|
    requires b[i] == a[|a| - 1] && a[j] == b[|b| - 1]
    ensures a[|a| - 1] == b[|b| - 1]
  {
    var n := |a| - 1;
    assert i == n || key(b[i]) <= key(b[n]);
  }

  lemma Locate<T>(a: seq<T>, b: seq<T>, i: nat) returns (j: nat)
    requires multiset(a) == multiset(b) && i < |a|
    ensures j < |b| && b[j] == a[i]
  {
    assert a[i] in multiset(a);
    assert a[i] in b;
    j :| 0 <= j < |b| && b[j] == a[i];
  }

  lemma DropLast<T>(a: seq<T>)
    requires a != []
    ensures multiset(a[..|a| - 1]) == multiset(a) - multiset{a[|a| - 1]}
  {
    assert a == a[..|a| - 1] + [a[|a| - 1]];
  }

  lemma SortIsIdentity<T>(s: seq<T>, key: T -> int)
    requires Ascending(s, key)
    ensures Sort(s, key) == s
  {
    SortFacts(s, key, key);
    SortedUnique(s, Sort(s, key), key);
  }

  /** Sorting keeps membership. */
  lemma SortMembers<T(!new)>(s: seq<T>, key: T -> int)
    ensures |Sort(s, key)| == |s|
    ensures forall x :: x in Sort(s, key) <==> x in s
  {
    SortFacts(s, key, key);
    assert |multiset(Sort(s, key))| == |multiset(s)|;
    forall x ensures x in Sort(s, key) <==> x in s {
      assert x in Sort(s, key) <==> x in multiset(Sort(s, key));
      assert x in s <==> x in multiset(s);
    }
  }

  /** The two sides of a test hold the sequence between them. */
  lemma {:induction false} FilterMultiset<T>(s: seq<T>, keep: T -> bool, drop: T -> bool)
    requires forall x :: x in s ==> drop(x) == !keep(x)
    ensures multiset(Filter(s, keep)) + multiset(Filter(s, drop)) == multiset(s)
  {
    if s != [] {
      var n := |s| - 1;
      FilterMultiset(s[..n], keep, drop);
      assert s == s[..n] + [s[n]];
      assert keep(s[n]) || drop(s[n]);
    }
  }

  /** A key that never contradicts a coarser one. */
  ghost predicate Refines<T(!new)>(key: T -> int, id: T -> int) {
    forall x, y :: id(x) < id(y) ==> key(x) < key(y)
  }

  lemma {:induction false} InsertAscending<T(!new)>(x: T, s: seq<T>, key: T -> int, id: T -> int)
    requires Refines(key, id) && Ascending(s, id) && forall y :: y in s ==> id(y) != id(x)
    ensures Ascending(Insert(x, s, key), id)
    ensures forall y :: y in Insert(x, s, key) <==> y == x || y in s
  {
    if s != [] {
      assert id(s[0]) != id(x);
      if key(x) > key(s[0]) {
        InsertAscending(x, s[1..], key, id);
        assert s == [s[0]] + s[1..];
        var t := Insert(x, s[1..], key);
        forall y | y in t ensures id(s[0]) < id(y) {}
      }
    }
  }

  /** Distinct ids come out strictly ascending when the sort key refines the id. */
  lemma {:induction false} SortAscending<T(!new)>(s: seq<T>, key: T -> int, id: T -> int)
    requires Refines(key, id) && forall i, j :: 0 <= i < j < |s| ==> id(s[i]) != id(s[j])
    ensures Ascending(Sort(s, key), id)
  {
    if s != [] {
      var n := |s| - 1;
      SortAscending(s[..n], key, id);
      SortMembers(s[..n], key);
      InsertAscending(s[n], Sort(s[..n], key), key, id);
    }
  }

  /** Neighbours in order put the whole sequence in order. */
  lemma {:induction false} NeighboursAscend<T>(s: seq<T>, id: T -> int)
    requires forall i :: 0 <= i < |s| - 1 ==> id(s[i]) < id(s[i + 1])
    ensures Ascending(s, id)
  {
    if |s| > 1 {
      var n := |s| - 1;
      NeighboursAscend(s[..n], id);
      assert id(s[n - 1]) < id(s[n]);
      assert s[n - 1] == s[..n][n - 1];
    }
  }

  /** Strictly ascending natural keys below a bound limit the length. */
  lemma {:induction false} AscendingBounded<T>(s: seq<T>, id: T -> int, bound: int)
    requires Ascending(s, id) && bound >= 0 && forall i :: 0 <= i < |s| ==> 0 <= id(s[i]) < bound
    ensures |s| <= bound
  {
    if s != [] {
      var n := |s| - 1;
      AscendingBounded(s[..n], id, id(s[n]));
    }
  }
}
