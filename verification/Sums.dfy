/** Sums and filters over sequences, with the update laws the ledger invariants rely on. */
module Sums {

  function Sum<T>(s: seq<T>, f: T -> int): int {
    if s == [] then 0 else Sum(s[..|s| - 1], f) + f(s[|s| - 1])
  }

  lemma {:induction false} SumSnoc<T>(s: seq<T>, x: T, f: T -> int)
    ensures Sum(s + [x], f) == Sum(s, f) + f(x)
  {
    assert (s + [x])[..|s|] == s;
  }

  lemma {:induction false} SumConcat<T>(a: seq<T>, b: seq<T>, f: T -> int)
    ensures Sum(a + b, f) == Sum(a, f) + Sum(b, f)
  {
    if b == [] {
      assert a + b == a;
    } else {
      var b' := b[..|b| - 1];
      SumConcat(a, b', f);
      assert (a + b)[..|a + b| - 1] == a + b';
    }
  }

  lemma {:induction false} SumUpdate<T>(s: seq<T>, i: nat, x: T, f: T -> int)
    requires i < |s|
    ensures Sum(s[i := x], f) == Sum(s, f) - f(s[i]) + f(x)
  {
    var n := |s| - 1;
    if i == n {
      assert s[i := x][..n] == s[..n];
    } else {
      SumUpdate(s[..n], i, x, f);
      assert s[i := x][..n] == s[..n][i := x];
    }
  }

  /** Two summands that agree on every element have the same sum. */
  lemma {:induction false} SumSame<T>(s: seq<T>, f: T -> int, g: T -> int)
    requires forall x :: x in s ==> f(x) == g(x)
    ensures Sum(s, f) == Sum(s, g)
  {
    if s != [] {
      SumSame(s[..|s| - 1], f, g);
    }
  }

  lemma {:induction false} SumZero<T>(s: seq<T>, f: T -> int)
    requires forall x :: x in s ==> f(x) == 0
    ensures Sum(s, f) == 0
  {
    if s != [] {
      SumZero(s[..|s| - 1], f);
    }
  }

  lemma {:induction false} SumNonNegative<T>(s: seq<T>, f: T -> int)
    requires forall x :: x in s ==> f(x) >= 0
    ensures Sum(s, f) >= 0
  {
    if s != [] {
      SumNonNegative(s[..|s| - 1], f);
    }
  }

  /** One nonnegative term never exceeds the sum. */
  lemma {:induction false} SumHas<T>(s: seq<T>, i: nat, f: T -> int)
    requires i < |s|
    requires forall x :: x in s ==> f(x) >= 0
    ensures f(s[i]) <= Sum(s, f)
  {
    var n := |s| - 1;
    SumNonNegative(s[..n], f);
    if i < n {
      SumHas(s[..n], i, f);
    }
  }

  lemma {:induction false} SumLe<T>(s: seq<T>, f: T -> int, g: T -> int)
    requires forall x :: x in s ==> f(x) <= g(x)
    ensures Sum(s, f) <= Sum(s, g)
  {
    if s != [] {
      SumLe(s[..|s| - 1], f, g);
    }
  }

  /** Termwise `f * c <= g * d` carries over to the sums. */
  lemma {:induction false} SumScaled<T>(s: seq<T>, f: T -> int, c: int, g: T -> int, d: int)
    requires forall x :: x in s ==> f(x) * c <= g(x) * d
    ensures Sum(s, f) * c <= Sum(s, g) * d
  {
    if s != [] {
      var n := |s| - 1;
      SumScaled(s[..n], f, c, g, d);
      var (a, b, u, v) := (Sum(s[..n], f), f(s[n]), Sum(s[..n], g), g(s[n]));
      assert (a + b) * c == a * c + b * c;
      assert (u + v) * d == u * d + v * d;
    }
  }

  function Filter<T>(s: seq<T>, keep: T -> bool): seq<T> {
    if s == [] then []
    else if keep(s[|s| - 1]) then Filter(s[..|s| - 1], keep) + [s[|s| - 1]]
    else Filter(s[..|s| - 1], keep)
  }

  lemma {:induction false} FilterSnoc<T>(s: seq<T>, x: T, keep: T -> bool)
    ensures Filter(s + [x], keep) == if keep(x) then Filter(s, keep) + [x] else Filter(s, keep)
  {
    assert (s + [x])[..|s|] == s;
  }

  /** The filter holds exactly the kept elements. */
  lemma {:induction false} FilterMembers<T(!new)>(s: seq<T>, keep: T -> bool)
    ensures forall x :: x in Filter(s, keep) <==> x in s && keep(x)
    ensures |Filter(s, keep)| <= |s|
  {
    if s != [] {
      var n := |s| - 1;
      FilterMembers(s[..n], keep);
      assert s == s[..n] + [s[n]];
    }
  }

  lemma {:induction false} FilterAll<T>(s: seq<T>, keep: T -> bool)
    requires forall x :: x in s ==> keep(x)
    ensures Filter(s, keep) == s
  {
    if s != [] {
      FilterAll(s[..|s| - 1], keep);
      assert s == s[..|s| - 1] + [s[|s| - 1]];
    }
  }

  lemma {:induction false} FilterNone<T>(s: seq<T>, keep: T -> bool)
    requires forall x :: x in s ==> !keep(x)
    ensures Filter(s, keep) == []
  {
    if s != [] {
      FilterNone(s[..|s| - 1], keep);
    }
  }

  /** Splitting a sequence by a test splits its sum. */
  lemma {:induction false} FilterSum<T>(s: seq<T>, keep: T -> bool, drop: T -> bool, f: T -> int)
    requires forall x :: x in s ==> drop(x) == !keep(x)
    ensures Sum(Filter(s, keep), f) + Sum(Filter(s, drop), f) == Sum(s, f)
  {
    if s != [] {
      var n := |s| - 1;
      FilterSum(s[..n], keep, drop, f);
      SumSnoc(Filter(s[..n], keep), s[n], f);
      SumSnoc(Filter(s[..n], drop), s[n], f);
    }
  }

  /** A strictly increasing key stays strictly increasing under a filter. */
  predicate Ascending<T>(s: seq<T>, key: T -> int) {
    forall i, j :: 0 <= i < j < |s| ==> key(s[i]) < key(s[j])
  }

  lemma {:induction false} FilterAscending<T(!new)>(s: seq<T>, keep: T -> bool, key: T -> int)
    requires Ascending(s, key)
    ensures Ascending(Filter(s, keep), key)
  {
    if s != [] {
      var n := |s| - 1;
      FilterAscending(s[..n], keep, key);
      FilterMembers(s[..n], keep);
      forall x | x in Filter(s[..n], keep) ensures key(x) < key(s[n]) {
        assert x in s[..n];
      }
    }
  }
}
