/** Nearest-rank order statistics of small integer samples, by an in-place insertion sort. */
module OrderStatistics {
  import opened Numbers

  /** How many samples are at most `v`; those below `v` are the ones at most `v - 1`. */
  function CountAtMost(s: seq<int>, v: int): (c: int)
    ensures 0 <= c <= |s|
  {
    if s == [] then 0 else CountAtMost(s[..|s| - 1], v) + if s[|s| - 1] <= v then 1 else 0
  }

  function CountBelow(s: seq<int>, v: int): int { CountAtMost(s, v - 1) }

  predicate Rising(s: seq<int>) {
    forall i, j :: 0 <= i < j < |s| ==> s[i] <= s[j]
  }

  /** Sorted insertion, and the arrangement it builds. */
  function Put(x: int, s: seq<int>): (r: seq<int>)
    ensures |r| == |s| + 1
  {
    if s == [] || x <= s[0] then [x] + s else [s[0]] + Put(x, s[1..])
  }

  function Arranged(s: seq<int>): (r: seq<int>)
    ensures |r| == |s|
  {
    if s == [] then [] else Put(s[|s| - 1], Arranged(s[..|s| - 1]))
  }

  function Kth(s: seq<int>, k: int): int
    requires 1 <= k <= |s|
  {
    Arranged(s)[k - 1]
  }

  /** The rank `ceil(n * quarters / 4)`. */
  function Rank(n: int, quarters: int): int { CeilDiv(quarters * n, 4) }

  lemma RankInside(n: int, quarters: int)
    requires n >= 1 && 1 <= quarters <= 4
    ensures 1 <= Rank(n, quarters) <= n
  {
    CeilBounds(quarters * n, 4);
    CeilLeast(quarters * n, 4, n);
  }

  // ---- Counting ---------------------------------------------------------------------------------------

  lemma {:induction false} CountConcat(a: seq<int>, b: seq<int>, v: int)
    ensures CountAtMost(a + b, v) == CountAtMost(a, v) + CountAtMost(b, v)
  {
    if b == [] {
      assert a + b == a;
    } else {
      CountConcat(a, b[..|b| - 1], v);
      assert (a + b)[..|a + b| - 1] == a + b[..|b| - 1];
    }
  }

  predicate AllAtMost(s: seq<int>, v: int) { forall i :: 0 <= i < |s| ==> s[i] <= v }

  predicate AllAbove(s: seq<int>, v: int) { forall i :: 0 <= i < |s| ==> s[i] > v }

  lemma {:induction false} CountAll(s: seq<int>, v: int)
    requires AllAtMost(s, v)
    ensures CountAtMost(s, v) == |s|
  {
    if s != [] { CountAll(s[..|s| - 1], v); }
  }

  lemma {:induction false} CountNone(s: seq<int>, v: int)
    requires AllAbove(s, v)
    ensures CountAtMost(s, v) == 0
  {
    if s != [] { CountNone(s[..|s| - 1], v); }
  }

  lemma {:induction false} CountMono(s: seq<int>, v: int, w: int)
    requires v <= w
    ensures CountAtMost(s, v) <= CountAtMost(s, w)
  {
    if s != [] { CountMono(s[..|s| - 1], v, w); }
  }

  lemma {:induction false} PutCounts(x: int, s: seq<int>, v: int)
    ensures CountAtMost(Put(x, s), v) == CountAtMost(s, v) + CountAtMost([x], v)
  {
    if s == [] || x <= s[0] {
      CountConcat([x], s, v);
    } else {
      PutCounts(x, s[1..], v);
      assert s == [s[0]] + s[1..];
      CountConcat([s[0]], s[1..], v);
      CountConcat([s[0]], Put(x, s[1..]), v);
    }
  }

  lemma {:induction false} ArrangedCounts(s: seq<int>, v: int)
    ensures CountAtMost(Arranged(s), v) == CountAtMost(s, v)
  {
    if s != [] {
      var n := |s| - 1;
      ArrangedCounts(s[..n], v);
      PutCounts(s[n], Arranged(s[..n]), v);
      CountConcat(s[..n], [s[n]], v);
      assert s == s[..n] + [s[n]];
    }
  }

  lemma {:induction false} PutRises(x: int, s: seq<int>)
    requires Rising(s)
    ensures Rising(Put(x, s))
    ensures Put(x, s)[0] == if s == [] || x <= s[0] then x else s[0]
  {
    if s != [] && x > s[0] {
      PutRises(x, s[1..]);
      Prefix(s[0], Put(x, s[1..]));
    }
  }

  lemma Prefix(x: int, s: seq<int>)
    requires Rising(s) && (s != [] ==> x <= s[0])
    ensures Rising([x] + s)
  {}

  lemma {:induction false} ArrangedRises(s: seq<int>)
    ensures Rising(Arranged(s))
  {
    if s != [] {
      ArrangedRises(s[..|s| - 1]);
      PutRises(s[|s| - 1], Arranged(s[..|s| - 1]));
    }
  }

  lemma {:induction false} Occurs(s: seq<int>, v: int)
    requires CountAtMost(s, v - 1) < CountAtMost(s, v)
    ensures v in s
  {
    var n := |s| - 1;
    if s[n] != v { Occurs(s[..n], v); }
  }

  /** The k-th smallest is a sample with fewer than k samples below it and at least k not above it. */
  lemma KthIsOrderStatistic(s: seq<int>, k: int)
    requires 1 <= k <= |s|
    ensures Kth(s, k) in s
    ensures CountBelow(s, Kth(s, k)) < k <= CountAtMost(s, Kth(s, k))
  {
    hide Arranged, CountAtMost, Rising;
    var v := Kth(s, k);
    ArrangedRises(s);
    RisingCounts(Arranged(s), k);
    ArrangedCounts(s, v);
    ArrangedCounts(s, v - 1);
    Occurs(s, v);
  }

  lemma RisingCounts(t: seq<int>, k: int)
    requires Rising(t) && 1 <= k <= |t|
    ensures CountBelow(t, t[k - 1]) < k <= CountAtMost(t, t[k - 1])
  {
    RisingSides(t, k);
    hide Rising, AllAtMost, AllAbove;
    EnoughAtMost(t, k, t[k - 1]);
    FewAtMost(t, k - 1, t[k - 1] - 1);
  }

  lemma EnoughAtMost(t: seq<int>, k: nat, v: int)
    requires k <= |t| && AllAtMost(t[..k], v)
    ensures k <= CountAtMost(t, v)
  {
    hide AllAtMost, CountAtMost;
    CountAll(t[..k], v);
    CountCut(t, k, v);
  }

  lemma FewAtMost(t: seq<int>, k: nat, v: int)
    requires k <= |t| && AllAbove(t[k..], v)
    ensures CountAtMost(t, v) <= k
  {
    hide AllAbove, CountAtMost;
    CountNone(t[k..], v);
    CountCut(t, k, v);
  }

  lemma CountCut(t: seq<int>, k: nat, v: int)
    requires k <= |t|
    ensures CountAtMost(t, v) == CountAtMost(t[..k], v) + CountAtMost(t[k..], v)
  {
    CountConcat(t[..k], t[k..], v);
    assert t == t[..k] + t[k..];
  }

  lemma RisingSides(t: seq<int>, k: int)
    requires Rising(t) && 1 <= k <= |t|
    ensures AllAtMost(t[..k], t[k - 1]) && AllAbove(t[k - 1..], t[k - 1] - 1)
  {}

  /** And it is the only such sample. */
  lemma KthUnique(s: seq<int>, k: int, v: int)
    requires 1 <= k <= |s| && CountBelow(s, v) < k <= CountAtMost(s, v)
    ensures v == Kth(s, k)
  {
    KthIsOrderStatistic(s, k);
    var w := Kth(s, k);
    if v < w { CountMono(s, v, w - 1); }
    if w < v { CountMono(s, w, v - 1); }
  }

  // ---- Monotonicity -----------------------------------------------------------------------------------

  predicate Dominated(a: seq<int>, b: seq<int>) {
    |a| == |b| && forall i :: 0 <= i < |a| ==> a[i] <= b[i]
  }

  lemma {:induction false} DominatedCounts(a: seq<int>, b: seq<int>, v: int)
    requires Dominated(a, b)
    ensures CountAtMost(b, v) <= CountAtMost(a, v)
  {
    if a != [] { DominatedCounts(a[..|a| - 1], b[..|b| - 1], v); }
  }

  /** Raising samples never lowers an order statistic. */
  lemma KthMonotone(a: seq<int>, b: seq<int>, k: int)
    requires Dominated(a, b) && 1 <= k <= |a|
    ensures Kth(a, k) <= Kth(b, k)
  {
    KthIsOrderStatistic(a, k);
    KthIsOrderStatistic(b, k);
    DominatedCounts(a, b, Kth(b, k));
    if Kth(b, k) < Kth(a, k) { CountMono(a, Kth(b, k), Kth(a, k) - 1); }
  }

  // ---- The in-place sort ------------------------------------------------------------------------------

  /** Inserting behind the last element that is not larger is the sorted insertion. */
  lemma {:induction false} PutIs(x: int, t: seq<int>, at: int)
    requires Rising(t) && 0 <= at <= |t|
    requires at > 0 ==> t[at - 1] <= x
    requires at < |t| ==> x < t[at]
    ensures Put(x, t) == t[..at] + [x] + t[at..]
  {
    if at == 0 {
      assert t[..0] + [x] + t[0..] == [x] + t;
    } else if t[0] < x {
      PutIs(x, t[1..], at - 1);
      assert Put(x, t) == [t[0]] + Put(x, t[1..]);
      hide Put, Rising;
      Glue(x, t, at);
    } else {
      Equals(x, t, at);
    }
  }

  lemma Glue(x: int, t: seq<int>, at: int)
    requires 0 < at <= |t|
    ensures [t[0]] + (t[1..][..at - 1] + [x] + t[1..][at - 1..]) == t[..at] + [x] + t[at..]
  {}

  lemma Equals(x: int, t: seq<int>, at: int)
    requires Rising(t) && 0 < at <= |t| && t[at - 1] <= x <= t[0]
    ensures [x] + t == t[..at] + [x] + t[at..]
  {
    forall i | 0 <= i < at ensures t[i] == x {
      assert i == 0 || t[0] <= t[i];
      assert i == at - 1 || t[i] <= t[at - 1];
    }
  }

  /** The inner loop swaps the element at `next` down to its place among the sorted ones before it. */
  method SiftDown(a: array<u16>, next: nat)
    requires next < a.Length && Rising(a[..next])
    modifies a
    ensures a[..next + 1] == Put(old(a[next]), old(a[..next]))
    ensures a[next + 1..] == old(a[next + 1..])
  {
    ghost var t := a[..next];
    ghost var x := a[next];
    var at := next;
    hide Rising, Put;
    while at > 0 && a[at - 1] > a[at]
      invariant 0 <= at <= next
      invariant forall i :: 0 <= i < at ==> a[i] == t[i]
      invariant a[at] == x
      invariant forall i :: at < i <= next ==> a[i] == t[i - 1]
      invariant forall i :: next < i < a.Length ==> a[i] == old(a[i])
      invariant at < next ==> x < t[at]
    {
      a[at - 1], a[at] := a[at], a[at - 1];
      at := at - 1;
    }
    Sifted(x, t, at, a[..next + 1]);
  }

  lemma Sifted(x: int, t: seq<int>, at: int, c: seq<int>)
    requires Rising(t) && 0 <= at <= |t| && |c| == |t| + 1
    requires at > 0 ==> t[at - 1] <= x
    requires at < |t| ==> x < t[at]
    requires (forall i :: 0 <= i < at ==> c[i] == t[i]) && c[at] == x
             && (forall i :: at < i <= |t| ==> c[i] == t[i - 1])
    ensures c == Put(x, t)
  {
    PutIs(x, t, at);
    hide Put, Rising;
  }

  /**
   * `nearest_rank` over the first `n` cells: sorts them in place and returns the order statistic of what was
   * there; nothing behind them moves.
   */
  method NearestRank(a: array<u16>, n: nat, quarters: nat) returns (v: u16)
    requires 1 <= n <= a.Length && 1 <= quarters <= 4
    modifies a
    ensures var k := Rank(n, quarters);
            1 <= k <= n && v == Kth(old(a[..n]), k)
    ensures a[..n] == Arranged(old(a[..n])) && Rising(a[..n])
    ensures a[n..] == old(a[n..])
  {
    ghost var s := a[..n];
    var next := 1;
    assert a[..1] == Arranged(s[..1]) by { assert s[..1][..0] == []; }
    while next < n
      invariant 1 <= next <= n
      invariant a[..next] == Arranged(s[..next])
      invariant a[next..n] == s[next..]
      invariant a[n..] == old(a[n..])
    {
      assert a[next] == a[next..n][0] == s[next];
      hide Arranged, Rising, Put;
      ArrangedNext(s, next);
      ghost var before := a[..];
      SiftDown(a, next);
      TailsKept(before, a[..], next, n);
      next := next + 1;
    }
    hide Arranged;
    assert s[..n] == s;
    ArrangedRises(s);
    RankInside(n, quarters);
    v := a[Rank(n, quarters) - 1];
    assert a[..n][Rank(n, quarters) - 1] == v;
  }

  lemma TailsKept(x: seq<int>, y: seq<int>, next: nat, n: nat)
    requires |x| == |y| && next < n <= |x| && x[next + 1..] == y[next + 1..]
    ensures y[next + 1..n] == x[next..n][1..] && y[n..] == x[n..]
  {
    assert forall i :: next + 1 <= i < |x| ==> x[i] == x[next + 1..][i - (next + 1)];
    assert forall i :: next + 1 <= i < |y| ==> y[i] == y[next + 1..][i - (next + 1)];
  }

  lemma ArrangedNext(s: seq<int>, next: nat)
    requires next < |s|
    ensures Rising(Arranged(s[..next]))
    ensures Arranged(s[..next + 1]) == Put(s[next], Arranged(s[..next]))
  {
    ArrangedRises(s[..next]);
    assert s[..next + 1][..next] == s[..next];
  }
}
