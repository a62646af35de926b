/** Building prepared reserves from scratch, and the progressive strip whose updates keep them exact. */
module PreparedStrip {
  import opened Numbers
  import opened Sums
  import opened WriterSeries
  import opened WriterCandidates
  import opened PreparedReserve

  // ---- Building one cache from scratch -----------------------------------------------------------

  /** Gross maximum payout of the first `k` series, leaving out the one at index `skip`. */
  function GrossUpTo(book: seq<Series>, skip: int, k: nat): int
    requires k <= |book|
  {
    if k == 0 then 0 else GrossUpTo(book, skip, k - 1) + if k - 1 == skip then 0 else GrossTerm()(book[k - 1])
  }

  lemma {:induction false} GrossUpToIs(book: seq<Series>, skip: int, k: nat)
    requires k <= |book|
    ensures GrossUpTo(book, skip, k) == Sum(book[..k], GrossTerm()) - if 0 <= skip < k then GrossTerm()(book[skip])
            else 0
  {
    if k > 0 {
      GrossUpToIs(book, skip, k - 1);
      assert book[..k] == book[..k - 1] + [book[k - 1]];
      SumSnoc(book[..k - 1], book[k - 1], GrossTerm());
    }
  }

  lemma {:induction false} GrossUpToGrows(book: seq<Series>, skip: int, j: nat, k: nat)
    requires j <= k <= |book|
    ensures 0 <= GrossUpTo(book, skip, j) <= GrossUpTo(book, skip, k)
  {
    if k > 0 {
      GrossTermNonNegative(book[k - 1]);
      GrossUpToGrows(book, skip, if j == k then k - 1 else j, k - 1);
    }
  }

  /** Gross maximum payout of the book without series `skip` (of the whole book for `skip == -1`). */
  method GrossWithout(book: seq<Series>, skip: int) returns (r: Result<u64>)
    requires -1 <= skip < |book|
    ensures var gross := if skip == -1 then Gross(book) else OtherGross(book, skip);
            r == if gross <= U64_MAX then Ok(gross) else Err(ArithmeticOverflow)
    ensures r.Ok? ==> r.value >= 0
  {
    GrossUpToIs(book, skip, |book|);
    assert book[..|book|] == book;
    var total: u64 := 0;
    for i := 0 to |book|
      invariant total == GrossUpTo(book, skip, i)
    {
      hide Gross, OtherGross;
      ProductFits(book[i].oi, book[i].maxPayout);
      GrossTermNonNegative(book[i]);
      if i != skip && book[i].oi != 0 {
        var term := LiabilityAtoms(book[i].oi * book[i].maxPayout);
        if term.Err? || total + term.value > U64_MAX {
          GrossUpToGrows(book, skip, i, i);
          GrossUpToGrows(book, skip, i + 1, |book|);
          return Err(ArithmeticOverflow);
        }
        total := total + term.value;
      }
    }
    return Ok(total);
  }

  /** The other series' numerator at one candidate, skipping the target and empty series. */
  method OthersAt(book: seq<Series>, target: nat, x: u64) returns (r: Result<u128>)
    requires target < |book|
    ensures r == if Others(book, target, x) <= U128_MAX then Ok(Others(book, target, x)) else Err(ArithmeticOverflow)
    ensures Others(book, target, x) >= 0
  {
    ghost var w := OpenInterests(book)[target := 0];
    WeightedNonNegative(book, w, x);
    var n: u128 := 0;
    for i := 0 to |book|
      invariant n == Weighted(book[..i], w[..i], x)
    {
      hide Weighted, Payout;
      WeightedStep(book, w, i, x);
      if i != target && book[i].oi != 0 {
        var term: int := book[i].oi * Payout(book[i], x);
        if n + term > U128_MAX {
          PrefixAtMost(book, w, i + 1, x);
          return Err(ArithmeticOverflow);
        }
        n := n + term;
      }
    }
    assert book[..|book|] == book && w[..|book|] == w;
    return Ok(n);
  }

  /** The grouping pass over the points. */
  method BuildGroups(points: seq<Point>, lower: u64, upper: u64) returns (gs: seq<Group>)
    ensures gs == GroupsOf(points, lower, upper)
  {
    gs := [];
    for i := 0 to |points|
      invariant gs == GroupsOf(points[..i], lower, upper)
    {
      assert points[..i + 1][..i] == points[..i];
      var p := points[i];
      var k := |gs| - 1;
      if k >= 0 && gs[k].payout == p.payout && gs[k].lower == (p.settlement <= lower)
          && gs[k].upper == (p.settlement >= upper) {
        gs := gs[k := gs[k].(end := i + 1, otherMax := Max(gs[k].otherMax, p.other))];
      } else {
        gs := gs + [Group(i, i + 1, p.payout, p.other, p.settlement <= lower, p.settlement >= upper)];
      }
    }
    assert points[..|points|] == points;
  }

  /** The points of the cache, candidate by candidate. */
  method BuildPoints(book: seq<Series>, target: nat, cs: seq<u64>) returns (r: Result<seq<Point>>)
    requires target < |book|
    ensures r.Err? <==> exists c :: c in cs && Others(book, target, c) > U128_MAX
    ensures r == if r.Err? then Err(ArithmeticOverflow) else Ok(PointsOf(book, target, cs))
  {
    var points: seq<Point> := [];
    for i := 0 to |cs|
      invariant points == PointsOf(book, target, cs[..i])
      invariant forall j :: 0 <= j < i ==> Others(book, target, cs[j]) <= U128_MAX
    {
      var other := OthersAt(book, target, cs[i]);
      if other.Err? {
        assert cs[i] in cs;
        return Err(ArithmeticOverflow);
      }
      points := points + [Point(cs[i], other.value, Payout(book[target], cs[i]))];
    }
    assert cs[..|cs|] == cs;
    return Ok(points);
  }

  /** `PreparedWriterReserve::new`. */
  method BuildPrepared(book: seq<Series>, target: nat, lower: u64, upper: u64) returns (r: Result<Prepared>)
    ensures r == Prepare(book, target, lower, upper)
  {
    var cs := BuildCandidates(book, lower, upper);
    if cs.Err? { return Err(cs.error); }
    if target >= |book| { return Err(InvalidSeries); }
    hide Candidates, OtherGross, Others, Distinct;
    var otherGross := GrossWithout(book, target);
    if otherGross.Err? { return Err(ArithmeticOverflow); }
    var points := BuildPoints(book, target, cs.value);
    if points.Err? { return Err(ArithmeticOverflow); }
    var groups := BuildGroups(points.value, lower, upper);
    return Ok(Prepared(points.value, groups, lower, upper, book[target].maxPayout, otherGross.value, target,
                       book[target].oi));
  }

  // ---- The progressive strip ---------------------------------------------------------------------

  const NO_COLUMN: u8 := 255

  /** Place of a payout in the row-major table. */
  function Cell(point: nat, columns: nat, column: nat): nat { point * columns + column }

  lemma CellInTable(point: nat, points: nat, columns: nat, column: nat)
    requires point < points && column < columns
    ensures Cell(point, columns, column) < points * columns
  {
    MulMono(point + 1, points, columns);
  }

  predicate TargetsOk(targets: seq<nat>, count: nat) {
    forall i :: 0 <= i < |targets| ==> targets[i] < count
  }

  /** The rows of the payout table, one per candidate, one column per target. */
  function Row(book: seq<Series>, targets: seq<nat>, x: u64): (row: seq<int>)
    requires TargetsOk(targets, |book|)
    ensures |row| == |targets| && forall i :: 0 <= i < |targets| ==> row[i] == Payout(book[targets[i]], x)
  {
    seq(|targets|, i requires 0 <= i < |targets| => Payout(book[targets[i]], x))
  }

  function Table(book: seq<Series>, targets: seq<nat>, cs: seq<u64>): seq<int>
    requires TargetsOk(targets, |book|)
  {
    if cs == [] then [] else Table(book, targets, cs[..|cs| - 1]) + Row(book, targets, cs[|cs| - 1])
  }

  lemma {:induction false} TableCell(book: seq<Series>, targets: seq<nat>, cs: seq<u64>, point: nat, column: nat)
    requires TargetsOk(targets, |book|)
    requires point < |cs| && column < |targets|
    ensures |Table(book, targets, cs)| == |cs| * |targets|
    ensures Cell(point, |targets|, column) < |Table(book, targets, cs)|
    ensures Table(book, targets, cs)[Cell(point, |targets|, column)] == Payout(book[targets[column]], cs[point])
  {
    var n := |cs| - 1;
    TableLength(book, targets, cs);
    TableLength(book, targets, cs[..n]);
    CellInTable(point, |cs|, |targets|, column);
    if point < n {
      TableCell(book, targets, cs[..n], point, column);
    } else {
      assert Cell(point, |targets|, column) == |Table(book, targets, cs[..n])| + column;
    }
  }

  lemma {:induction false} TableLength(book: seq<Series>, targets: seq<nat>, cs: seq<u64>)
    requires TargetsOk(targets, |book|)
    ensures |Table(book, targets, cs)| == |cs| * |targets|
  {
    if cs != [] {
      TableLength(book, targets, cs[..|cs| - 1]);
      MulSucc(|cs| - 1, |targets|);
    }
  }

  /** The payout table reads only the payoff terms. */
  lemma {:induction false} TableTerms(book: seq<Series>, target: nat, oi: u64, targets: seq<nat>, cs: seq<u64>)
    requires target < |book| && TargetsOk(targets, |book|)
    ensures Table(WithOi(book, target, oi), targets, cs) == Table(book, targets, cs)
  {
    if cs != [] {
      var n := |cs| - 1;
      TableTerms(book, target, oi, targets, cs[..n]);
      forall i | 0 <= i < |targets|
          ensures Payout(WithOi(book, target, oi)[targets[i]], cs[n]) == Payout(book[targets[i]], cs[n]) {}
      assert Row(WithOi(book, target, oi), targets, cs[n]) == Row(book, targets, cs[n]);
    }
  }

  /** Column of each series: its place among the targets, or none. */
  ghost predicate ColumnsOk(columns: seq<u8>, targets: seq<nat>, count: nat) {
    && |columns| == MAX_SERIES && |targets| <= MAX_SERIES
    && TargetsOk(targets, count)
    && (forall t :: 0 <= t < MAX_SERIES ==>
          if columns[t] < |targets| then targets[columns[t]] == t else columns[t] == NO_COLUMN && t !in targets)
  }

  class Strip {
    ghost const targets: seq<nat>
    var book: seq<Series>
    const settlements: seq<u64>
    var totals: seq<int>
    const payouts: seq<int>
    const columns: seq<u8>
    const columnCount: nat
    const lower: u64
    const upper: u64
    var gross: int

    constructor (book0: seq<Series>, settlements0: seq<u64>, totals0: seq<int>, payouts0: seq<int>, columns0: seq<u8>,
                 lower0: u64, upper0: u64, gross0: int, targets0: seq<nat>)
      ensures book == book0 && settlements == settlements0 && totals == totals0 && payouts == payouts0
      ensures columns == columns0 && columnCount == |targets0| && lower == lower0 && upper == upper0
      ensures gross == gross0 && targets == targets0
    {
      book, settlements, totals, payouts, columns := book0, settlements0, totals0, payouts0, columns0;
      columnCount, lower, upper, gross, targets := |targets0|, lower0, upper0, gross0, targets0;
    }

    /** The grid holds the whole-book numerator of the current book at every candidate. */
    ghost predicate Valid()
      reads this
    {
      && CandidateSet(book, lower, upper) == Ok(settlements)
      && Gridded(book, settlements, totals)
      && columnCount == |targets| && targets != [] && ColumnsOk(columns, targets, |book|)
      && payouts == Table(book, targets, settlements)
      && gross == Gross(book) && 0 <= gross <= U64_MAX
    }

    /**
     * Whatever updates came before, the cache the strip hands out is the one a fresh build from the current
     * book would give: only a wrong book or a series outside the strip is refused.
     */
    method PrepareFor(current: seq<Series>, target: nat) returns (r: Result<Prepared>)
      requires Valid()
      ensures r == if current != book
              || target !in targets then Err(InvalidSeries) else Prepare(book, target, lower, upper)
      ensures current == book && target in targets ==> r.Ok?
    {
      hide CandidateSet, Table, Gridded, Gross, GroupsOf, Prepare;
      if current != book || target >= |book| { return Err(InvalidSeries); }
      ValidLength(book, lower, upper);
      var column := columns[target];
      if column >= columnCount { return Err(InvalidSeries); }
      assert target in targets;
      var item := book[target];
      var points := OtherPoints(book, targets, settlements, totals, payouts, columnCount, target, column);
      OwnWithinGross(book, target);
      ProductFits(item.oi, item.maxPayout);
      var own := LiabilityAtoms(item.oi * item.maxPayout);
      var groups := BuildGroups(points, lower, upper);
      StripPrepares(book, target, lower, upper, settlements, totals);
      return Ok(Prepared(points, groups, lower, upper, item.maxPayout, gross - own.value, target, item.oi));
    }

    /**
     * An open-interest change moves every grid point by the exact delta; it fails only when a total or the gross would
     * overflow.
     */
    method Update(target: nat, oi: u64) returns (r: Result<()>)
      requires Valid()
      modifies this`book, this`totals, this`gross
      ensures r.Ok? ==> Valid() && target < |old(book)| && book == WithOi(old(book), target, oi)
      ensures r.Ok? <==>
              target < |old(book)| && target in targets && Representable(WithOi(old(book), target, oi), settlements)
      ensures r.Err? ==>
              r.error == if target < |old(book)| && target in targets then ArithmeticOverflow else InvalidSeries
    {
      hide CandidateSet, Table, Gridded, Gross;
      if target >= |book| { return Err(InvalidSeries); }
      ValidLength(book, lower, upper);
      var column := columns[target];
      if column >= columnCount { return Err(InvalidSeries); }
      assert targets[column] == target && target in targets;
      var newGross := MoveGross(book, target, oi, gross);
      if newGross.Err? { return Err(ArithmeticOverflow); }
      var grid := MoveGrid(book, targets, settlements, totals, payouts, columnCount, target, column, oi);
      if grid.Err? { return Err(ArithmeticOverflow); }
      CandidatesIgnoreOi(book, target, oi, lower, upper);
      TableTerms(book, target, oi, targets, settlements);
      GridRepresents(WithOi(book, target, oi), settlements, grid.value);
      totals, book, gross := grid.value, book[target := book[target].(oi := oi)], newGross.value;
      return Ok(());
    }
  }

  lemma GridRepresents(book: seq<Series>, cs: seq<u64>, totals: seq<int>)
    requires Gridded(book, cs, totals)
    ensures forall c :: c in cs ==> Numerator(book, c) <= U128_MAX
  {}

  /** The gross after the target's open interest changes. */
  method MoveGross(book: seq<Series>, target: nat, oi: u64, gross: int) returns (r: Result<u64>)
    requires target < |book| && gross == Gross(book) <= U64_MAX
    ensures var after := Gross(WithOi(book, target, oi));
            r == if after <= U64_MAX then Ok(after) else Err(ArithmeticOverflow)
    ensures r.Ok? ==> r.value >= 0
  {
    hide Gross, CeilDiv;
    var item := book[target];
    OwnWithinGross(book, target);
    GrossMoves(book, target, oi);
    ProductFits(item.oi, item.maxPayout);
    ProductFits(oi, item.maxPayout);
    var was, now := LiabilityAtoms(item.oi * item.maxPayout), LiabilityAtoms(oi * item.maxPayout);
    if now.Err? || gross - was.value + now.value > U64_MAX { return Err(ArithmeticOverflow); }
    return Ok(gross - was.value + now.value);
  }

  /** Take the target's own contribution out of every grid point. */
  method OtherPoints(book: seq<Series>, ghost targets: seq<nat>, cs: seq<u64>, totals: seq<int>, payouts: seq<int>,
                     columnCount: nat,
                     target: nat, column: nat) returns (points: seq<Point>)
    requires Gridded(book, cs, totals) && TargetsOk(targets, |book|) && payouts == Table(book, targets, cs)
    requires target < |book| && column < columnCount == |targets| && targets[column] == target
    ensures points == PointsOf(book, target, cs)
  {
    points := [];
    for i := 0 to |cs|
      invariant points == PointsOf(book, target, cs[..i])
    {
      hide Table, Others, Numerator;
      TableCell(book, targets, cs, i, column);
      var payout := payouts[Cell(i, columnCount, column)];
      OthersFromTotal(book, target, cs[i]);
      points := points + [Point(cs[i], totals[i] - book[target].oi * payout, payout)];
    }
    assert cs[..|cs|] == cs;
  }

  /** The grid after the target's open interest changes, or the first point that overflows. */
  method MoveGrid(book: seq<Series>, ghost targets: seq<nat>, cs: seq<u64>, totals: seq<int>, payouts: seq<int>,
                  columnCount: nat,
                  target: nat, column: nat, oi: u64) returns (r: Result<seq<int>>)
    requires Gridded(book, cs, totals) && TargetsOk(targets, |book|) && payouts == Table(book, targets, cs)
    requires target < |book| && column < columnCount == |targets| && targets[column] == target
    ensures r.Ok? ==> Gridded(WithOi(book, target, oi), cs, r.value)
    ensures r.Err? ==>
            r.error == ArithmeticOverflow && exists c :: c in cs && Numerator(WithOi(book, target, oi), c) > U128_MAX
  {
    ghost var after := WithOi(book, target, oi);
    var moved: seq<int> := [];
    var change: int := oi - book[target].oi;
    for i := 0 to |cs|
      invariant |moved| == i
      invariant forall j :: 0 <= j < i ==> moved[j] == Numerator(after, cs[j]) && 0 <= moved[j] <= U128_MAX
    {
      hide Table, Numerator;
      TableCell(book, targets, cs, i, column);
      var payout := payouts[Cell(i, columnCount, column)];
      NumeratorMoves(book, target, oi, cs[i]);
      var total := totals[i] + change * payout;
      if total > U128_MAX {
        assert cs[i] in cs;
        return Err(ArithmeticOverflow);
      }
      moved := moved + [total];
    }
    return Ok(moved);
  }

  ghost predicate Gridded(book: seq<Series>, cs: seq<u64>, totals: seq<int>) {
    |totals| == |cs| && forall i :: 0 <= i < |cs| ==> totals[i] == Numerator(book, cs[i]) && 0 <= totals[i] <= U128_MAX
  }

  /** Every total and the gross of the book fit their words. */
  ghost predicate Representable(book: seq<Series>, cs: seq<u64>) {
    Gross(book) <= U64_MAX && forall c :: c in cs ==> Numerator(book, c) <= U128_MAX
  }

  lemma ValidLength(book: seq<Series>, lower: u64, upper: u64)
    requires CandidateSet(book, lower, upper).Ok?
    ensures 0 < |book| <= MAX_SERIES && AllValid(book)
  {}

  lemma NumeratorMoves(book: seq<Series>, target: nat, oi: u64, x: int)
    requires target < |book|
    ensures Numerator(WithOi(book, target, oi), x) == Numerator(book, x)
            + (oi - book[target].oi) * Payout(book[target], x)
    ensures Numerator(WithOi(book, target, oi), x) >= 0
  {
    hide Weighted, Payout, Others;
    NumeratorSplits(book, target, oi, x);
    OthersFromTotal(book, target, x);
    LiabilityNonNegative(WithOi(book, target, oi), x);
    var had: int := book[target].oi;
    AddScaled(oi, -had, Payout(book[target], x));
  }

  lemma OthersFromTotal(book: seq<Series>, target: nat, x: int)
    requires target < |book|
    ensures Others(book, target, x) == Numerator(book, x) - book[target].oi * Payout(book[target], x)
  {
    NumeratorSplits(book, target, book[target].oi, x);
    assert WithOi(book, target, book[target].oi) == book;
  }

  /** One series' gross is part of the book's. */
  lemma OwnWithinGross(book: seq<Series>, target: nat)
    requires target < |book|
    ensures 0 <= CeilDiv(book[target].oi * book[target].maxPayout, SCALE) <= Gross(book)
  {
    forall s | s in book ensures GrossTerm()(s) >= 0 {
      GrossTermNonNegative(s);
    }
    SumHas(book, target, GrossTerm());
    assert book[target] in book;
  }

  lemma GrossMoves(book: seq<Series>, target: nat, oi: u64)
    requires target < |book|
    ensures Gross(WithOi(book, target, oi))
            == Gross(book) - CeilDiv(book[target].oi * book[target].maxPayout, SCALE)
                + CeilDiv(oi * book[target].maxPayout, SCALE)
    ensures Gross(WithOi(book, target, oi)) >= CeilDiv(oi * book[target].maxPayout, SCALE) >= 0
  {
    SumUpdate(book, target, WithOi(book, target, oi)[target], GrossTerm());
    OwnWithinGross(WithOi(book, target, oi), target);
  }

  /** A representable grid makes the fresh build succeed, with the same basis. */
  lemma StripPrepares(book: seq<Series>, target: nat, lower: u64, upper: u64, cs: seq<u64>, totals: seq<int>)
    requires CandidateSet(book, lower, upper) == Ok(cs) && Gridded(book, cs, totals) && target < |book|
    requires Gross(book) <= U64_MAX
    ensures Prepare(book, target, lower, upper) == Ok(BasisOf(book, target, cs, lower, upper))
  {
    hide CandidateSet, Others, Numerator, BasisOf, Gross;
    OwnWithinGross(book, target);
    forall c | c in cs ensures Others(book, target, c) <= U128_MAX {
      var i :| 0 <= i < |cs| && cs[i] == c;
      OthersFromTotal(book, target, c);
    }
  }

  // ---- Building the strip -------------------------------------------------------------------------

  predicate DistinctTargets(targets: seq<nat>) {
    forall i, j :: 0 <= i < j < |targets| ==> targets[i] != targets[j]
  }

  predicate TargetsAccepted(targets: seq<nat>, count: nat) {
    targets != [] && |targets| <= count && TargetsOk(targets, count) && DistinctTargets(targets)
  }

  /** Number the targets, refusing a repeated or unknown series. */
  method BuildColumns(targets: seq<nat>, count: nat) returns (r: Result<seq<u8>>)
    requires 0 < |targets| <= count <= MAX_SERIES
    ensures r.Ok? <==> TargetsOk(targets, count) && DistinctTargets(targets)
    ensures if r.Ok? then ColumnsOk(r.value, targets, count) else r.error == InvalidSeries
  {
    var columns: seq<u8> := seq(MAX_SERIES, _ => NO_COLUMN);
    for i := 0 to |targets|
      invariant |columns| == MAX_SERIES
      invariant forall j :: 0 <= j < i ==> targets[j] < count
      invariant forall j, k :: 0 <= j < k < i ==> targets[j] != targets[k]
      invariant forall j :: 0 <= j < i ==> columns[targets[j]] == j
      invariant forall t :: 0 <= t < MAX_SERIES ==>
                            if columns[t] < i then targets[columns[t]] == t else columns[t] == NO_COLUMN
    {
      var t := targets[i];
      if t >= count || columns[t] != NO_COLUMN {
        assert t < count ==> targets[columns[t]] == targets[i];
        return Err(InvalidSeries);
      }
      columns := columns[t := i];
    }
    return Ok(columns);
  }

  /** The payout table, candidate by candidate and target by target. */
  method BuildTable(book: seq<Series>, targets: seq<nat>, cs: seq<u64>) returns (payouts: seq<int>)
    requires TargetsOk(targets, |book|)
    ensures payouts == Table(book, targets, cs)
  {
    payouts := [];
    for p := 0 to |cs|
      invariant payouts == Table(book, targets, cs[..p])
    {
      assert cs[..p + 1][..p] == cs[..p];
      var row: seq<int> := [];
      for i := 0 to |targets|
        invariant row == Row(book, targets, cs[p])[..i]
      {
        row := row + [Payout(book[targets[i]], cs[p])];
      }
      assert row == Row(book, targets, cs[p]);
      payouts := payouts + row;
    }
    assert cs[..|cs|] == cs;
  }

  /** The whole-book numerators at every candidate. */
  method BuildGrid(book: seq<Series>, cs: seq<u64>) returns (r: Result<seq<int>>)
    requires AllValid(book)
    ensures r.Ok? ==> Gridded(book, cs, r.value)
    ensures r.Ok? <==> forall c :: c in cs ==> Numerator(book, c) <= U128_MAX
    ensures r.Err? ==> r.error == ArithmeticOverflow
  {
    var totals: seq<int> := [];
    for i := 0 to |cs|
      invariant |totals| == i
      invariant forall j :: 0 <= j < i ==> totals[j] == Numerator(book, cs[j]) && 0 <= totals[j] <= U128_MAX
    {
      hide Numerator;
      var total := NumeratorAt(book, cs[i]);
      if total.Err? {
        assert cs[i] in cs;
        return Err(ArithmeticOverflow);
      }
      totals := totals + [total.value];
    }
    return Ok(totals);
  }

  /** `PreparedWriterStrip::for_targets`. */
  method ForTargets(book: seq<Series>, lower: u64, upper: u64, targets: seq<nat>) returns (r: Result<Strip>)
    ensures r.Ok? ==> fresh(r.value) && r.value.Valid() && r.value.book == book && r.value.targets == targets
                      && r.value.lower == lower && r.value.upper == upper
    ensures r.Ok? <==> && CandidateSet(book, lower, upper).Ok? && TargetsAccepted(targets, |book|)
                       && Representable(book, CandidateSet(book, lower, upper).value)
    ensures r.Err? ==> r.error == if CandidateSet(book, lower, upper).Err? then CandidateSet(book, lower, upper).error
                                  else if !TargetsAccepted(targets, |book|) then InvalidSeries
                                  else ArithmeticOverflow
  {
    hide Candidates, Table, Gridded, Gross, ColumnsOk, Numerator;
    var built := BuildCandidates(book, lower, upper);
    if built.Err? { return Err(built.error); }
    ValidLength(book, lower, upper);
    hide CandidateSet;
    if targets == [] || |targets| > |book| { return Err(InvalidSeries); }
    var columns := BuildColumns(targets, |book|);
    if columns.Err? { return Err(columns.error); }
    var payouts := BuildTable(book, targets, built.value);
    var totals := BuildGrid(book, built.value);
    if totals.Err? { return Err(totals.error); }
    var gross := GrossWithout(book, -1);
    if gross.Err? { return Err(gross.error); }
    var strip := new Strip(book, built.value, totals.value, payouts, columns.value, lower, upper, gross.value, targets);
    return Ok(strip);
  }
}
