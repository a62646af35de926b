/** Querying a prepared reserve: two passes over the groups give the full walk's summary, witnesses included. */
module PreparedQuery {
  import opened Numbers
  import opened Sums
  import opened WriterSeries
  import opened WriterCandidates
  import opened WriterReserve
  import opened PreparedReserve

  /** Which of the three maxima is meant. */
  datatype Range = Full | LowerTail | UpperTail

  predicate InRange(range: Range, p: Point, lower: u64, upper: u64) {
    match range
    case Full => true
    case LowerTail => p.settlement <= lower
    case UpperTail => p.settlement >= upper
  }

  predicate GroupIn(range: Range, g: Group) {
    match range
    case Full => true
    case LowerTail => g.lower
    case UpperTail => g.upper
  }

  /** The numerator of the whole book at a point, for the queried open interest. */
  function At(p: Point, oi: u64): int { p.other + oi * p.payout }

  function GroupMax(g: Group, oi: u64): int { g.otherMax + oi * g.payout }

  lemma GroupMaxBounds(points: seq<Point>, g: Group, oi: u64, lower: u64, upper: u64)
    requires GroupOk(points, g, lower, upper)
    ensures forall i :: g.start <= i < g.end ==> At(points[i], oi) <= GroupMax(g, oi)
    ensures exists i :: g.start <= i < g.end && At(points[i], oi) == GroupMax(g, oi)
  {
    forall i | g.start <= i < g.end ensures At(points[i], oi) <= GroupMax(g, oi) {
      assert Joins(g, points[i], lower, upper);
    }
    var i :| g.start <= i < g.end && points[i].other == g.otherMax;
    assert Joins(g, points[i], lower, upper);
    assert At(points[i], oi) == GroupMax(g, oi);
  }

  // ---- First pass: the maxima --------------------------------------------------------------------

  /** `m` is the largest numerator in range among the first `e` points, zero when `saw` is still false. */
  ghost predicate MaxSoFar(q: Prepared, oi: u64, range: Range, e: int, m: int, saw: bool) {
    && 0 <= e <= |q.points| && 0 <= m
    && (forall i :: 0 <= i < e && InRange(range, q.points[i], q.lower, q.upper) ==> saw && At(q.points[i], oi) <= m)
    && (if saw then exists i :: 0 <= i < e && InRange(range, q.points[i], q.lower, q.upper)
                                && At(q.points[i], oi) == m else m == 0)
  }

  predicate NonNegative(points: seq<Point>) {
    forall i :: 0 <= i < |points| ==> points[i].other >= 0 && points[i].payout >= 0
  }

  lemma MaxStep(q: Prepared, oi: u64, range: Range, g: Group, m: int, saw: bool)
    requires MaxSoFar(q, oi, range, g.start, m, saw) && GroupOk(q.points, g, q.lower, q.upper) && NonNegative(q.points)
    ensures if GroupIn(range, g) then MaxSoFar(q, oi, range, g.end, Max(m, GroupMax(g, oi)), true)
            else MaxSoFar(q, oi, range, g.end, m, saw)
  {
    hide At, GroupMax;
    GroupMaxBounds(q.points, g, oi, q.lower, q.upper);
    forall i | g.start <= i < g.end ensures InRange(range, q.points[i], q.lower, q.upper) == GroupIn(range, g) {
      assert Joins(g, q.points[i], q.lower, q.upper);
    }
    var j :| g.start <= j < g.end && At(q.points[j], oi) == GroupMax(g, oi);
    if GroupIn(range, g) {
      if saw {
        var i :| 0 <= i < g.start && InRange(range, q.points[i], q.lower, q.upper) && At(q.points[i], oi) == m;
      }
      assert InRange(range, q.points[j], q.lower, q.upper);
      NumeratorNonNegative(q.points, j, oi);
    } else if saw {
      var i :| 0 <= i < g.start && InRange(range, q.points[i], q.lower, q.upper) && At(q.points[i], oi) == m;
      assert i < g.end;
    }
  }

  lemma NumeratorNonNegative(points: seq<Point>, i: nat, oi: u64)
    requires NonNegative(points) && i < |points|
    ensures At(points[i], oi) >= 0
  {}

  datatype Maxima = Maxima(full: int, low: int, high: int)

  /** The three largest numerators, or an overflow some point really has. */
  method FindMaxima(q: Prepared, oi: u64) returns (r: Result<Maxima>)
    requires GroupsOk(q.points, q.groups, q.lower, q.upper) && NonNegative(q.points)
    requires exists i :: 0 <= i < |q.points| && InRange(LowerTail, q.points[i], q.lower, q.upper)
    requires exists i :: 0 <= i < |q.points| && InRange(UpperTail, q.points[i], q.lower, q.upper)
    ensures r.Err? ==>
            r.error == ArithmeticOverflow && exists i :: 0 <= i < |q.points| && At(q.points[i], oi) > U128_MAX
    ensures r.Ok? ==>
              && MaxSoFar(q, oi, Full, |q.points|, r.value.full, true)
              && MaxSoFar(q, oi, LowerTail, |q.points|, r.value.low, true)
              && MaxSoFar(q, oi, UpperTail, |q.points|, r.value.high, true)
              && r.value.full <= U128_MAX
  {
    hide MaxSoFar, GroupOk, GroupsOk, At, GroupMax;
    var (full, low, high) := (0, 0, 0);
    var (sawLower, sawUpper) := (false, false);
    MaxStart(q, oi, Full);
    MaxStart(q, oi, LowerTail);
    MaxStart(q, oi, UpperTail);
    for k := 0 to |q.groups|
      invariant MaxSoFar(q, oi, Full, GroupStart(q.groups, k), full, k > 0)
      invariant MaxSoFar(q, oi, LowerTail, GroupStart(q.groups, k), low, sawLower)
      invariant MaxSoFar(q, oi, UpperTail, GroupStart(q.groups, k), high, sawUpper)
      invariant full <= U128_MAX
    {
      var g := q.groups[k];
      GroupAt(q, k);
      MaxStep(q, oi, Full, g, full, k > 0);
      MaxStep(q, oi, LowerTail, g, low, sawLower);
      MaxStep(q, oi, UpperTail, g, high, sawUpper);
      var numerator := GroupMax(g, oi);
      if numerator > U128_MAX {
        OverflowingPoint(q, g, oi);
        return Err(ArithmeticOverflow);
      }
      full := Max(full, numerator);
      if g.lower {
        sawLower, low := true, Max(low, numerator);
      }
      if g.upper {
        sawUpper, high := true, Max(high, numerator);
      }
    }
    GroupsEnd(q);
    SawRange(q, oi, Full, full, |q.groups| > 0);
    SawRange(q, oi, LowerTail, low, sawLower);
    SawRange(q, oi, UpperTail, high, sawUpper);
    return Ok(Maxima(full, low, high));
  }

  lemma MaxStart(q: Prepared, oi: u64, range: Range)
    ensures MaxSoFar(q, oi, range, 0, 0, false)
  {}

  /** A range with a point in it was seen. */
  lemma SawRange(q: Prepared, oi: u64, range: Range, m: int, saw: bool)
    requires MaxSoFar(q, oi, range, |q.points|, m, saw)
    requires exists i :: 0 <= i < |q.points| && InRange(range, q.points[i], q.lower, q.upper)
    ensures saw
  {}

  lemma GroupAt(q: Prepared, k: nat)
    requires GroupsOk(q.points, q.groups, q.lower, q.upper) && k < |q.groups|
    ensures GroupOk(q.points, q.groups[k], q.lower, q.upper)
    ensures q.groups[k].start == GroupStart(q.groups, k) && q.groups[k].end == GroupStart(q.groups, k + 1)
  {}

  lemma GroupsEnd(q: Prepared)
    requires GroupsOk(q.points, q.groups, q.lower, q.upper)
    ensures GroupStart(q.groups, |q.groups|) == |q.points|
  {}

  lemma OverflowingPoint(q: Prepared, g: Group, oi: u64)
    requires GroupOk(q.points, g, q.lower, q.upper) && GroupMax(g, oi) > U128_MAX
    ensures exists i :: 0 <= i < |q.points| && At(q.points[i], oi) > U128_MAX
  {
    GroupMaxBounds(q.points, g, oi, q.lower, q.upper);
    var i :| g.start <= i < g.end && At(q.points[i], oi) == GroupMax(g, oi);
    assert At(q.points[i], oi) > U128_MAX;
  }

  // ---- Second pass: the earliest witnesses -------------------------------------------------------

  /** The point attains the rounded reserve of its range. */
  predicate Attains(range: Range, p: Point, oi: u64, lower: u64, upper: u64, reserve: int) {
    InRange(range, p, lower, upper) && CeilDiv(At(p, oi), SCALE) >= reserve
  }

  /** The program's division-free test: strictly above one atom less than the reserve. */
  predicate Above(n: int, reserve: int) {
    reserve == 0 || n > (reserve - 1) * SCALE
  }

  lemma ThresholdTest(n: int, reserve: int)
    requires 0 <= n && 0 <= reserve
    ensures Above(n, reserve) <==> CeilDiv(n, SCALE) >= reserve
  {
    CeilBounds(n, SCALE);
    CeilMono(0, n, SCALE);
    if reserve > 0 && CeilDiv(n, SCALE) < reserve {
      CeilLeast(n, SCALE, reserve - 1);
    }
  }

  datatype Search = Search(found: bool, at: u64)

  /** Either the earliest attaining point was found, or none of the first `e` points attains. */
  ghost predicate SearchOk(q: Prepared, oi: u64, range: Range, reserve: int, s: Search, e: int) {
    if s.found then
      exists i :: 0 <= i < |q.points| && IsFirst(q, oi, range, reserve, i) && s.at == q.points[i].settlement
    else
      forall j :: 0 <= j < e && j < |q.points| ==> !Attains(range, q.points[j], oi, q.lower, q.upper, reserve)
  }

  ghost predicate IsFirst(q: Prepared, oi: u64, range: Range, reserve: int, i: nat)
    requires i < |q.points|
  {
    && Attains(range, q.points[i], oi, q.lower, q.upper, reserve)
    && forall j :: 0 <= j < i ==> !Attains(range, q.points[j], oi, q.lower, q.upper, reserve)
  }

  predicate GroupCan(range: Range, g: Group, oi: u64, reserve: int) {
    GroupIn(range, g) && Above(GroupMax(g, oi), reserve)
  }

  /** A group whose maximum falls short holds no witness. */
  lemma GroupSkips(q: Prepared, oi: u64, range: Range, reserve: int, g: Group, s: Search)
    requires GroupOk(q.points, g, q.lower, q.upper) && NonNegative(q.points) && 0 <= reserve
    requires SearchOk(q, oi, range, reserve, s, g.start) && (s.found || !GroupCan(range, g, oi, reserve))
    ensures SearchOk(q, oi, range, reserve, s, g.end)
  {
    if !s.found {
      GroupMaxBounds(q.points, g, oi, q.lower, q.upper);
      forall j | 0 <= j < g.end ensures !Attains(range, q.points[j], oi, q.lower, q.upper, reserve) {
        if j >= g.start {
          assert Joins(g, q.points[j], q.lower, q.upper);
          NumeratorNonNegative(q.points, j, oi);
          ThresholdTest(At(q.points[j], oi), reserve);
        }
      }
    }
  }

  /** One point of a group that may hold the witness. */
  function Look(s: Search, can: bool, n: int, reserve: int, settlement: u64): Search {
    if can && !s.found && Above(n, reserve) then Search(true, settlement) else s
  }

  lemma LookStep(q: Prepared, oi: u64, range: Range, reserve: int, g: Group, s: Search, i: nat)
    requires GroupOk(q.points, g, q.lower, q.upper) && NonNegative(q.points) && 0 <= reserve
    requires g.start <= i < g.end && SearchOk(q, oi, range, reserve, s, i)
    ensures SearchOk(q, oi, range, reserve,
                     Look(s, GroupCan(range, g, oi, reserve), At(q.points[i], oi), reserve, q.points[i].settlement),
                     i + 1)
  {
    hide CeilDiv;
    assert Joins(g, q.points[i], q.lower, q.upper);
    NumeratorNonNegative(q.points, i, oi);
    ThresholdTest(At(q.points[i], oi), reserve);
    GroupMaxBounds(q.points, g, oi, q.lower, q.upper);
    var can := GroupCan(range, g, oi, reserve);
    if !s.found && can && Above(At(q.points[i], oi), reserve) {
      assert IsFirst(q, oi, range, reserve, i);
    }
  }

  datatype Searches = Searches(full: Search, low: Search, high: Search) {
    predicate Done() { full.found && low.found && high.found }
  }

  ghost predicate AllSearches(q: Prepared, oi: u64, m: Maxima, s: Searches, e: int) {
    && SearchOk(q, oi, Full, m.full, s.full, e)
    && SearchOk(q, oi, LowerTail, m.low, s.low, e)
    && SearchOk(q, oi, UpperTail, m.high, s.high, e)
  }

  /** One group: look at its points in order until nothing more can be found in it. */
  method SearchGroup(q: Prepared, oi: u64, m: Maxima, g: Group, s0: Searches) returns (s: Searches)
    requires GroupOk(q.points, g, q.lower, q.upper) && NonNegative(q.points) && 0 <= m.full && 0 <= m.low && 0 <= m.high
    requires AllSearches(q, oi, m, s0, g.start)
    ensures AllSearches(q, oi, m, s, g.end)
  {
    s := s0;
    var (canFull, canLow, canHigh) :=
        (GroupCan(Full, g, oi, m.full), GroupCan(LowerTail, g, oi, m.low), GroupCan(UpperTail, g, oi, m.high));
    var i := g.start;
    while i < g.end && ((canFull && !s.full.found) || (canLow && !s.low.found) || (canHigh && !s.high.found))
      invariant g.start <= i <= g.end
      invariant AllSearches(q, oi, m, s, i)
    {
      hide SearchOk, GroupOk, GroupCan, Above;
      var n := At(q.points[i], oi);
      LookStep(q, oi, Full, m.full, g, s.full, i);
      LookStep(q, oi, LowerTail, m.low, g, s.low, i);
      LookStep(q, oi, UpperTail, m.high, g, s.high, i);
      s := Searches(Look(s.full, canFull, n, m.full, q.points[i].settlement),
                    Look(s.low, canLow, n, m.low, q.points[i].settlement),
                    Look(s.high, canHigh, n, m.high, q.points[i].settlement));
      i := i + 1;
    }
    if i < g.end {
      RestSkips(q, oi, Full, m.full, g, s.full, i);
      RestSkips(q, oi, LowerTail, m.low, g, s.low, i);
      RestSkips(q, oi, UpperTail, m.high, g, s.high, i);
    }
  }

  /** Leaving a group early is sound once every search has its witness or cannot have one here. */
  lemma RestSkips(q: Prepared, oi: u64, range: Range, reserve: int, g: Group, s: Search, i: nat)
    requires GroupOk(q.points, g, q.lower, q.upper) && NonNegative(q.points) && 0 <= reserve && g.start <= i <= g.end
    requires SearchOk(q, oi, range, reserve, s, i) && (s.found || !GroupCan(range, g, oi, reserve))
    ensures SearchOk(q, oi, range, reserve, s, g.end)
  {
    GroupSkips(q, oi, range, reserve, g, s);
  }

  lemma StartSearches(q: Prepared, oi: u64, m: Maxima)
    requires NonNegative(q.points) && q.points != [] && q.points[0].settlement == 0
    ensures AllSearches(q, oi, m, Searches(Search(m.full == 0, 0), Search(false, 0), Search(false, 0)), 0)
  {
    if m.full == 0 {
      NumeratorNonNegative(q.points, 0, oi);
      CeilMono(0, At(q.points[0], oi), SCALE);
      assert IsFirst(q, oi, Full, 0, 0);
    }
  }

  /** The earliest candidates attaining the three rounded reserves. */
  method FindWitnesses(q: Prepared, oi: u64, m: Maxima) returns (s: Searches)
    requires GroupsOk(q.points, q.groups, q.lower, q.upper) && NonNegative(q.points)
    requires 0 <= m.full && 0 <= m.low && 0 <= m.high
    requires q.points != [] && q.points[0].settlement == 0
    ensures AllSearches(q, oi, m, s, |q.points|)
  {
    hide SearchOk, GroupOk, GroupsOk, NonNegative;
    s := Searches(Search(m.full == 0, 0), Search(false, 0), Search(false, 0));
    StartSearches(q, oi, m);
    var k := 0;
    while k < |q.groups| && !s.Done()
      invariant 0 <= k <= |q.groups|
      invariant AllSearches(q, oi, m, s, GroupStart(q.groups, k))
    {
      GroupAt(q, k);
      s := SearchGroup(q, oi, m, q.groups[k], s);
      k := k + 1;
    }
    GroupsEnd(q);
    if k < |q.groups| {
      FoundStays(q, oi, Full, m.full, s.full, GroupStart(q.groups, k));
      FoundStays(q, oi, LowerTail, m.low, s.low, GroupStart(q.groups, k));
      FoundStays(q, oi, UpperTail, m.high, s.high, GroupStart(q.groups, k));
    }
  }

  lemma FoundStays(q: Prepared, oi: u64, range: Range, reserve: int, s: Search, e: int)
    requires s.found && SearchOk(q, oi, range, reserve, s, e)
    ensures SearchOk(q, oi, range, reserve, s, |q.points|)
  {}

  // ---- Main result -------------------------------------------------------------------------------

  function Keep(range: Range, lower: u64, upper: u64): u64 -> bool {
    match range
    case Full => (x: u64) => true
    case LowerTail => AtMost(lower)
    case UpperTail => AtLeast(upper)
  }

  /** The earliest maximum of a filtered candidate list, found by its place in the whole list. */
  lemma {:induction false} FirstMaxFiltered(cs: seq<u64>, keep: u64 -> bool, f: u64 -> int, i: nat)
    requires i < |cs| && keep(cs[i])
    requires forall j :: 0 <= j < |cs| && keep(cs[j]) ==> f(cs[j]) <= f(cs[i])
    requires forall j :: 0 <= j < i && keep(cs[j]) ==> f(cs[j]) < f(cs[i])
    ensures Filter(cs, keep) != [] && FirstMax(Filter(cs, keep), f) == cs[i]
  {
    var n := |cs| - 1;
    var front := Filter(cs[..n], keep);
    assert cs == cs[..n] + [cs[n]];
    FilterSnoc(cs[..n], cs[n], keep);
    FirstMaxSnoc(front, cs[n], f);
    if i < n {
      FirstMaxFiltered(cs[..n], keep, f, i);
    } else if front != [] {
      FirstMaxFacts(front, f);
      FilterMembers(cs[..n], keep);
      var j :| 0 <= j < n && cs[j] == FirstMax(front, f);
      assert keep(cs[j]);
    }
  }

  /** The cache `q` was built from `book`, whose candidates are `cs`. */
  ghost predicate BuiltFrom(q: Prepared, book: seq<Series>, cs: seq<u64>) {
    && CandidateSet(book, q.lower, q.upper) == Ok(cs)
    && q.target < |book|
    && !BasisOverflows(book, q.target, cs)
    && q == BasisOf(book, q.target, cs, q.lower, q.upper)
  }

  /** A cached point gives the whole-book numerator at its candidate. */
  lemma PointIsNumerator(q: Prepared, book: seq<Series>, cs: seq<u64>, oi: u64, i: nat)
    requires BuiltFrom(q, book, cs) && i < |cs|
    ensures |q.points| == |cs| && q.points[i].settlement == cs[i]
    ensures CeilDiv(At(q.points[i], oi), SCALE) == Liability(WithOi(book, q.target, oi), cs[i])
    ensures q.points[i].other >= 0 && q.points[i].payout >= 0
  {
    BuiltPoint(q, book, cs, i);
    hide BuiltFrom, Others, Numerator, Payout, WithOi;
    NumeratorSplits(book, q.target, oi, cs[i]);
  }

  lemma BuiltPoint(q: Prepared, book: seq<Series>, cs: seq<u64>, i: nat)
    requires BuiltFrom(q, book, cs) && i < |cs|
    ensures q.target < |book| && |q.points| == |cs|
    ensures q.points[i] == Point(cs[i], Others(book, q.target, cs[i]), Payout(book[q.target], cs[i]))
    ensures q.points[i].other >= 0 && q.points[i].payout >= 0
  {
    WeightedNonNegative(book, OpenInterests(book)[q.target := 0], cs[i]);
    hide CandidateSet, BasisOverflows, GroupsOf, Weighted;
  }

  /** One range: the rounded maximum and the earliest witness are those of the full walk. */
  lemma RangeAgrees(q: Prepared, book: seq<Series>, cs: seq<u64>, oi: u64, range: Range, m: int, s: Search)
    requires BuiltFrom(q, book, cs) && MaxSoFar(q, oi, range, |q.points|, m, true)
    requires SearchOk(q, oi, range, CeilDiv(m, SCALE), s, |q.points|)
    ensures var f := LiabilityOf(WithOi(book, q.target, oi));
            var at := FirstMax(Filter(cs, Keep(range, q.lower, q.upper)), f);
            s.found && s.at == at && f(at) == CeilDiv(m, SCALE)
  {
    hide BuiltFrom, Liability;
    BuiltFacts(q, book, cs);
    var f := LiabilityOf(WithOi(book, q.target, oi));
    var keep := Keep(range, q.lower, q.upper);
    var reserve := CeilDiv(m, SCALE);
    forall i | 0 <= i < |q.points|
      ensures |q.points| == |cs| && q.points[i].settlement == cs[i] && CeilDiv(At(q.points[i], oi), SCALE) == f(cs[i])
      ensures keep(cs[i]) == InRange(range, q.points[i], q.lower, q.upper)
      ensures keep(cs[i]) ==> f(cs[i]) <= reserve
    {
      PointsMatch(q, book, cs);
      PointIsNumerator(q, book, cs, oi, i);
      if keep(cs[i]) {
        CeilMono(At(q.points[i], oi), m, SCALE);
      }
    }
    var top :| 0 <= top < |q.points| && InRange(range, q.points[top], q.lower, q.upper) && At(q.points[top], oi) == m;
    assert Attains(range, q.points[top], oi, q.lower, q.upper, reserve);
    var i :| 0 <= i < |q.points| && IsFirst(q, oi, range, reserve, i) && s.at == q.points[i].settlement;
    forall j | 0 <= j < i && keep(cs[j]) ensures f(cs[j]) < f(cs[i]) {
      assert !Attains(range, q.points[j], oi, q.lower, q.upper, reserve);
    }
    FirstMaxFiltered(cs, keep, f, i);
  }

  lemma PointsMatch(q: Prepared, book: seq<Series>, cs: seq<u64>)
    requires BuiltFrom(q, book, cs)
    ensures |q.points| == |cs| && NonNegative(q.points) && GroupsOk(q.points, q.groups, q.lower, q.upper)
    ensures cs != [] && cs[0] == 0 && q.points[0].settlement == 0
    ensures exists i :: 0 <= i < |q.points| && InRange(LowerTail, q.points[i], q.lower, q.upper)
    ensures exists i :: 0 <= i < |q.points| && InRange(UpperTail, q.points[i], q.lower, q.upper)
  {
    hide GroupsOk, Others, CandidateSet, BasisOverflows, GroupsOf, OtherGross, Rising;
    CandidatesBuilt(q, book, cs);
    RisingFirst(cs);
    forall i | 0 <= i < |q.points| ensures q.points[i].other >= 0 && q.points[i].payout >= 0 {
      PointIsNumerator(q, book, cs, 0, i);
    }
    GroupsOfOk(q.points, q.lower, q.upper);
    var l :| 0 <= l < |cs| && cs[l] == q.lower;
    var u :| 0 <= u < |cs| && cs[u] == q.upper;
    assert InRange(LowerTail, q.points[l], q.lower, q.upper);
    assert InRange(UpperTail, q.points[u], q.lower, q.upper);
  }

  lemma CandidatesBuilt(q: Prepared, book: seq<Series>, cs: seq<u64>)
    requires BuiltFrom(q, book, cs)
    ensures Rising(cs) && 0 in cs && q.lower in cs && q.upper in cs
  {
    hide Candidates, BasisOf, BasisOverflows, Rising;
    assert cs == Candidates(book, q.lower, q.upper);
    CandidatesFacts(book, q.lower, q.upper);
  }

  /** A numerator whose rounded value leaves u64 is an overflow of the full walk too. */
  lemma OverflowAgrees(q: Prepared, book: seq<Series>, cs: seq<u64>, oi: u64, i: nat)
    requires BuiltFrom(q, book, cs) && i < |q.points| && CeilDiv(At(q.points[i], oi), SCALE) > U64_MAX
    ensures ExactReserve(WithOi(book, q.target, oi), q.lower, q.upper) == Err(ArithmeticOverflow)
  {
    PointsMatch(q, book, cs);
    PointIsNumerator(q, book, cs, oi, i);
    CandidatesIgnoreOi(book, q.target, oi, q.lower, q.upper);
    assert cs[i] in cs;
    assert Overflows(cs, WithOi(book, q.target, oi));
  }

  lemma NoOverflow(q: Prepared, book: seq<Series>, cs: seq<u64>, oi: u64, m: int)
    requires BuiltFrom(q, book, cs) && MaxSoFar(q, oi, Full, |q.points|, m, true) && CeilDiv(m, SCALE) <= U64_MAX
    ensures ExactReserve(WithOi(book, q.target, oi), q.lower, q.upper)
            == Ok(SummaryOf(cs, LiabilityOf(WithOi(book, q.target, oi)), q.lower, q.upper))
  {
    hide BuiltFrom, Liability, SummaryOf;
    PointsMatch(q, book, cs);
    assert CandidateSet(book, q.lower, q.upper) == Ok(cs) && q.target < |book| by { BuiltFacts(q, book, cs); }
    CandidatesIgnoreOi(book, q.target, oi, q.lower, q.upper);
    forall c | c in cs ensures Liability(WithOi(book, q.target, oi), c) <= U64_MAX {
      var i :| 0 <= i < |cs| && cs[i] == c;
      PointIsNumerator(q, book, cs, oi, i);
      CeilMono(At(q.points[i], oi), m, SCALE);
    }
  }

  lemma BuiltFacts(q: Prepared, book: seq<Series>, cs: seq<u64>)
    requires BuiltFrom(q, book, cs)
    ensures CandidateSet(book, q.lower, q.upper) == Ok(cs) && q.target < |book|
    ensures q.targetMax == book[q.target].maxPayout && q.otherGross == OtherGross(book, q.target) <= U64_MAX
  {}

  lemma PreparedIsBuilt(q: Prepared, book: seq<Series>)
    requires Prepare(book, q.target, q.lower, q.upper) == Ok(q)
    ensures BuiltFrom(q, book, Candidates(book, q.lower, q.upper))
  {
    hide Candidates, BasisOverflows, ValidateBook;
  }

  /** A maximum of one range that leaves u64 after rounding belongs to some point. */
  lemma MaxOverflows(q: Prepared, book: seq<Series>, cs: seq<u64>, oi: u64, range: Range, m: int)
    requires BuiltFrom(q, book, cs) && MaxSoFar(q, oi, range, |q.points|, m, true) && CeilDiv(m, SCALE) > U64_MAX
    ensures ExactReserve(WithOi(book, q.target, oi), q.lower, q.upper) == Err(ArithmeticOverflow)
  {
    hide BuiltFrom;
    var i :| 0 <= i < |q.points| && InRange(range, q.points[i], q.lower, q.upper) && At(q.points[i], oi) == m;
    OverflowAgrees(q, book, cs, oi, i);
  }

  lemma WideOverflows(q: Prepared, book: seq<Series>, cs: seq<u64>, oi: u64)
    requires BuiltFrom(q, book, cs) && exists i :: 0 <= i < |q.points| && At(q.points[i], oi) > U128_MAX
    ensures ExactReserve(WithOi(book, q.target, oi), q.lower, q.upper) == Err(ArithmeticOverflow)
  {
    hide BuiltFrom;
    var i :| 0 <= i < |q.points| && At(q.points[i], oi) > U128_MAX;
    CeilMono(U128_MAX, At(q.points[i], oi), SCALE);
    OverflowAgrees(q, book, cs, oi, i);
  }

  lemma TailMaxima(q: Prepared, oi: u64, range: Range, m: int, full: int)
    requires MaxSoFar(q, oi, range, |q.points|, m, true) && MaxSoFar(q, oi, Full, |q.points|, full, true)
    ensures 0 <= m <= full
  {}

  /** The cached summary, from the maxima and their witnesses, is the full walk's summary. */
  lemma SummaryAgrees(q: Prepared, book: seq<Series>, cs: seq<u64>, oi: u64, m: Maxima, s: Searches)
    requires BuiltFrom(q, book, cs)
    requires MaxSoFar(q, oi, Full, |q.points|, m.full, true) && MaxSoFar(q, oi, LowerTail, |q.points|, m.low, true)
    requires MaxSoFar(q, oi, UpperTail, |q.points|, m.high, true)
    requires AllSearches(q, oi, Maxima(CeilDiv(m.full, SCALE), CeilDiv(m.low, SCALE), CeilDiv(m.high, SCALE)), s,
                         |q.points|)
    ensures SummaryOf(cs, LiabilityOf(WithOi(book, q.target, oi)), q.lower, q.upper)
            == ReserveSummary(CeilDiv(m.full, SCALE), s.full.at, CeilDiv(m.low, SCALE), s.low.at,
                              CeilDiv(m.high, SCALE), s.high.at, |q.points|)
  {
    hide BuiltFrom, MaxSoFar, SearchOk, CeilDiv, Liability;
    PointsMatch(q, book, cs);
    RangeAgrees(q, book, cs, oi, Full, m.full, s.full);
    RangeAgrees(q, book, cs, oi, LowerTail, m.low, s.low);
    RangeAgrees(q, book, cs, oi, UpperTail, m.high, s.high);
    FilterAll(cs, Keep(Full, q.lower, q.upper));
  }

  /**
   * For every open interest of the target the cached query equals the full candidate walk on the book with
   * that open interest: the three reserves, the three settlement prices on rounded ties, and the overflow.
   */
  method Reserve(q: Prepared, oi: u64, ghost book: seq<Series>) returns (r: Result<ReserveSummary>)
    requires Prepare(book, q.target, q.lower, q.upper) == Ok(q)
    ensures r == ExactReserve(WithOi(book, q.target, oi), q.lower, q.upper)
  {
    hide BuiltFrom, MaxSoFar, SearchOk, CeilDiv, ExactReserve, Prepare, GroupsOk, SummaryOf, NonNegative, Candidates;
    ghost var cs := Candidates(book, q.lower, q.upper);
    PreparedIsBuilt(q, book);
    BuiltFacts(q, book, cs);
    PointsMatch(q, book, cs);
    var maxima := FindMaxima(q, oi);
    if maxima.Err? {
      WideOverflows(q, book, cs, oi);
      return Err(ArithmeticOverflow);
    }
    var m := maxima.value;
    TailMaxima(q, oi, LowerTail, m.low, m.full);
    TailMaxima(q, oi, UpperTail, m.high, m.full);
    var full := LiabilityAtoms(m.full);
    if full.Err? {
      MaxOverflows(q, book, cs, oi, Full, m.full);
      return Err(ArithmeticOverflow);
    }
    NoOverflow(q, book, cs, oi, m.full);
    CeilMono(m.low, m.full, SCALE);
    CeilMono(m.high, m.full, SCALE);
    var low, high := LiabilityAtoms(m.low), LiabilityAtoms(m.high);
    var s := FindWitnesses(q, oi, Maxima(full.value, low.value, high.value));
    SummaryAgrees(q, book, cs, oi, m, s);
    return Ok(ReserveSummary(full.value, s.full.at, low.value, s.low.at, high.value, s.high.at, |q.points|));
  }

  /** Gross maximum payout with the target's open interest replaced, from the same cache. */
  method GrossAt(q: Prepared, oi: u64, ghost book: seq<Series>) returns (r: Result<u64>)
    requires Prepare(book, q.target, q.lower, q.upper) == Ok(q)
    ensures var gross := Gross(WithOi(book, q.target, oi));
            r == if gross <= U64_MAX then Ok(gross) else Err(ArithmeticOverflow)
  {
    hide BuiltFrom, Prepare, Gross, OtherGross, Candidates, CandidateSet;
    PreparedIsBuilt(q, book);
    BuiltFacts(q, book, Candidates(book, q.lower, q.upper));
    ProductFits(oi, q.targetMax);
    hide CeilDiv, WithOi;
    var product: int := oi * q.targetMax;
    var own := LiabilityAtoms(product);
    GrossReplaced(book, q.target, oi);
    if own.Err? { return Err(ArithmeticOverflow); }
    if q.otherGross + own.value > U64_MAX { return Err(ArithmeticOverflow); }
    return Ok(q.otherGross + own.value);
  }

  lemma GrossReplaced(book: seq<Series>, target: nat, oi: u64)
    requires target < |book|
    ensures Gross(WithOi(book, target, oi)) == OtherGross(book, target) + CeilDiv(oi * book[target].maxPayout, SCALE)
    ensures OtherGross(book, target) >= 0
  {
    var zero := WithOi(book, target, 0);
    SumUpdate(book, target, zero[target], GrossTerm());
    SumUpdate(book, target, WithOi(book, target, oi)[target], GrossTerm());
    forall s | s in zero ensures GrossTerm()(s) >= 0 {
      GrossTermNonNegative(s);
    }
    SumNonNegative(zero, GrossTerm());
  }
}
