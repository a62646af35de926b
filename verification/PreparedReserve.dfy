/** The frozen reserve geometry for repeated changes of one series' open interest, equal to the full walk. */
module PreparedReserve {
  import opened Numbers
  import opened Sums
  import opened WriterSeries
  import opened WriterCandidates

  /** One candidate: the other series' numerator there and the target's payout. */
  datatype Point = Point(settlement: u64, other: int, payout: int)

  /** Neighbouring points with equal target payout and tail membership. */
  datatype Group = Group(start: nat, end: nat, payout: int, otherMax: int, lower: bool, upper: bool)

  datatype Prepared = Prepared(
    points: seq<Point>, groups: seq<Group>, lower: u64, upper: u64, targetMax: u64, otherGross: int, target: nat,
        initialOi: u64)

  // ---- The basis -----------------------------------------------------------------------------

  /** The numerator of every series but the target. */
  function Others(book: seq<Series>, target: nat, x: int): int
    requires target < |book|
  {
    Weighted(book, OpenInterests(book)[target := 0], x)
  }

  function PointsOf(book: seq<Series>, target: nat, cs: seq<u64>): (ps: seq<Point>)
    requires target < |book|
    ensures |ps| == |cs|
    ensures forall i :: 0 <= i < |cs| ==>
                        ps[i] == Point(cs[i], Others(book, target, cs[i]), Payout(book[target], cs[i]))
  {
    seq(|cs|, i requires 0 <= i < |cs| => Point(cs[i], Others(book, target, cs[i]), Payout(book[target], cs[i])))
  }

  predicate Joins(g: Group, p: Point, lower: u64, upper: u64) {
    g.payout == p.payout && g.lower == (p.settlement <= lower) && g.upper == (p.settlement >= upper)
  }

  /** Group the points in order (`prepare_reserve_groups`). */
  function GroupsOf(points: seq<Point>, lower: u64, upper: u64): seq<Group> {
    if points == [] then []
    else
      var n := |points| - 1;
      AddPoint(GroupsOf(points[..n], lower, upper), n, points[n], lower, upper)
  }

  function AddPoint(gs: seq<Group>, index: nat, p: Point, lower: u64, upper: u64): seq<Group> {
    var k := |gs| - 1;
    if k >= 0 && Joins(gs[k], p, lower, upper) then
      gs[k := gs[k].(end := index + 1, otherMax := Max(gs[k].otherMax, p.other))]
    else
      gs + [Group(index, index + 1, p.payout, p.other, p.settlement <= lower, p.settlement >= upper)]
  }

  /** Rounded maximum payout of one series' whole open interest. */
  function GrossTerm(): Series -> int { (s: Series) => CeilDiv(s.oi * s.maxPayout, SCALE) }

  lemma GrossTermNonNegative(s: Series)
    ensures GrossTerm()(s) >= 0
  {
    CeilMono(0, s.oi * s.maxPayout, SCALE);
  }

  function Gross(book: seq<Series>): int { Sum(book, GrossTerm()) }

  function OtherGross(book: seq<Series>, target: nat): int
    requires target < |book|
  {
    Gross(book) - GrossTerm()(book[target])
  }

  predicate BasisOverflows(book: seq<Series>, target: nat, cs: seq<u64>)
    requires target < |book|
  {
    OtherGross(book, target) > U64_MAX || exists c :: c in cs && Others(book, target, c) > U128_MAX
  }

  function BasisOf(book: seq<Series>, target: nat, cs: seq<u64>, lower: u64, upper: u64): Prepared
    requires target < |book|
  {
    var points := PointsOf(book, target, cs);
    Prepared(points, GroupsOf(points, lower, upper), lower, upper, book[target].maxPayout, OtherGross(book, target),
             target, book[target].oi)
  }

  /** Building the cache from a book (`PreparedWriterReserve::new`). */
  function Prepare(book: seq<Series>, target: nat, lower: u64, upper: u64): Result<Prepared> {
    var cs :- CandidateSet(book, lower, upper);
    if target >= |book| then Err(InvalidSeries)
    else if BasisOverflows(book, target, cs) then Err(ArithmeticOverflow)
    else Ok(BasisOf(book, target, cs, lower, upper))
  }

  // ---- Replacing one open interest ---------------------------------------------------------------

  function WithOi(book: seq<Series>, target: nat, oi: u64): seq<Series>
    requires target < |book|
  {
    book[target := book[target].(oi := oi)]
  }

  lemma {:induction false} WeightedReplace(book: seq<Series>, w: seq<int>, i: nat, v: int, x: int)
    requires |w| == |book| && i < |book|
    ensures Weighted(book, w[i := v], x) == Weighted(book, w, x) + (v - w[i]) * Payout(book[i], x)
  {
    var n := |book| - 1;
    if i == n {
      assert w[i := v][..n] == w[..n];
    } else {
      WeightedReplace(book[..n], w[..n], i, v, x);
      assert w[i := v][..n] == w[..n][i := v];
    }
  }

  /** A weighted book reads only the payoff terms of its series. */
  lemma {:induction false} WeightedTerms(book: seq<Series>, book': seq<Series>, w: seq<int>, x: int)
    requires |w| == |book| == |book'| && forall i :: 0 <= i < |book| ==> SameInstrument(book[i], book'[i])
    ensures Weighted(book', w, x) == Weighted(book, w, x)
  {
    if book != [] {
      var n := |book| - 1;
      WeightedTerms(book[..n], book'[..n], w[..n], x);
      assert SameInstrument(book[n], book'[n]);
    }
  }

  /** The whole-book numerator with the target's open interest replaced. */
  lemma NumeratorSplits(book: seq<Series>, target: nat, oi: u64, x: int)
    requires target < |book|
    ensures Numerator(WithOi(book, target, oi), x) == Others(book, target, x) + oi * Payout(book[target], x)
    ensures Others(WithOi(book, target, oi), target, x) == Others(book, target, x)
  {
    var w := OpenInterests(book);
    var book' := WithOi(book, target, oi);
    assert OpenInterests(book') == w[target := 0][target := oi];
    assert OpenInterests(book')[target := 0] == w[target := 0];
    WeightedTerms(book, book', OpenInterests(book'), x);
    WeightedTerms(book, book', w[target := 0], x);
    WeightedReplace(book, w[target := 0], target, oi, x);
  }

  lemma {:induction false} SeriesPointsTerms(book: seq<Series>, book': seq<Series>)
    requires |book| == |book'| && forall i :: 0 <= i < |book| ==> SameInstrument(book[i], book'[i])
    ensures SeriesPoints(book') == SeriesPoints(book) && LargestBreak(book') == LargestBreak(book)
  {
    if book != [] {
      var n := |book| - 1;
      SeriesPointsTerms(book[..n], book'[..n]);
      assert SameInstrument(book[n], book'[n]);
    }
  }

  lemma ValidationIgnoresOi(book: seq<Series>, target: nat, oi: u64)
    requires target < |book|
    ensures ValidateBook(WithOi(book, target, oi)) == ValidateBook(book)
  {
    var book' := WithOi(book, target, oi);
    forall i | 0 <= i < |book| ensures ValidSeries(book'[i]) == ValidSeries(book[i]) {}
    forall i, j | 0 <= i < j < |book| ensures SameInstrument(book'[i], book'[j]) == SameInstrument(book[i], book[j]) {}
    assert Distinct(book') == Distinct(book);
  }

  /** Open interest plays no part in validation or in the candidate set. */
  lemma CandidatesIgnoreOi(book: seq<Series>, target: nat, oi: u64, lower: u64, upper: u64)
    requires target < |book|
    ensures CandidateSet(WithOi(book, target, oi), lower, upper) == CandidateSet(book, lower, upper)
  {
    hide ValidateBook, SeriesPoints, LargestBreak, InsertAdjacent, Insert;
    ValidationIgnoresOi(book, target, oi);
    SeriesPointsTerms(book, WithOi(book, target, oi));
  }

  // ---- Groups --------------------------------------------------------------------------------

  ghost predicate GroupOk(points: seq<Point>, g: Group, lower: u64, upper: u64) {
    && g.start < g.end <= |points|
    && (forall i :: g.start <= i < g.end ==> Joins(g, points[i], lower, upper) && points[i].other <= g.otherMax)
    && (exists i :: g.start <= i < g.end && points[i].other == g.otherMax)
  }

  /** The groups cut the points into consecutive runs. */
  ghost predicate GroupsOk(points: seq<Point>, gs: seq<Group>, lower: u64, upper: u64) {
    && (forall k :: 0 <= k < |gs| ==> GroupOk(points, gs[k], lower, upper))
    && (forall k :: 0 <= k < |gs| ==> gs[k].start == GroupStart(gs, k))
    && GroupStart(gs, |gs|) == |points|
  }

  function GroupStart(gs: seq<Group>, k: nat): nat
    requires k <= |gs|
  {
    if k == 0 then 0 else gs[k - 1].end
  }

  lemma GroupGrows(points: seq<Point>, p: Point, g: Group, lower: u64, upper: u64)
    requires GroupOk(points, g, lower, upper)
    ensures GroupOk(points + [p], g, lower, upper)
  {
    var i :| g.start <= i < g.end && points[i].other == g.otherMax;
    assert (points + [p])[i] == points[i];
  }

  lemma GroupJoined(points: seq<Point>, p: Point, g: Group, lower: u64, upper: u64)
    requires GroupOk(points, g, lower, upper) && g.end == |points| && Joins(g, p, lower, upper)
    ensures GroupOk(points + [p], g.(end := |points| + 1, otherMax := Max(g.otherMax, p.other)), lower, upper)
  {
    var i :| g.start <= i < g.end && points[i].other == g.otherMax;
    var all := points + [p];
    assert all[i] == points[i] && all[|points|] == p;
  }

  lemma AddPointOk(points: seq<Point>, p: Point, gs: seq<Group>, lower: u64, upper: u64)
    requires GroupsOk(points, gs, lower, upper)
    ensures GroupsOk(points + [p], AddPoint(gs, |points|, p, lower, upper), lower, upper)
  {
    hide GroupOk;
    var gs' := AddPoint(gs, |points|, p, lower, upper);
    var all := points + [p];
    forall k | 0 <= k < |gs'| ensures GroupOk(all, gs'[k], lower, upper) {
      if k < |gs| && gs'[k] == gs[k] {
        GroupGrows(points, p, gs[k], lower, upper);
      } else if k < |gs| {
        GroupJoined(points, p, gs[k], lower, upper);
      } else {
        NewGroup(points, p, lower, upper);
      }
    }
  }

  lemma NewGroup(points: seq<Point>, p: Point, lower: u64, upper: u64)
    ensures GroupOk(points + [p],
                    Group(|points|, |points| + 1, p.payout, p.other, p.settlement <= lower, p.settlement >= upper),
                    lower, upper)
  {
    assert (points + [p])[|points|] == p;
  }

  lemma {:induction false} GroupsOfOk(points: seq<Point>, lower: u64, upper: u64)
    ensures GroupsOk(points, GroupsOf(points, lower, upper), lower, upper)
  {
    if points == [] {
    } else {
      hide GroupsOk, AddPoint;
      var n := |points| - 1;
      var front, last := points[..n], points[n];
      assert points == front + [last] && |front| == n;
      GroupsOfOk(front, lower, upper);
      var gs := GroupsOf(front, lower, upper);
      assert GroupsOf(points, lower, upper) == AddPoint(gs, n, last, lower, upper);
      AddPointOk(front, last, gs, lower, upper);
    }
  }
}
