/** Every history of contributions and splits: lots tile the capital-seconds and payouts add up to the residual. */
module ParticipationRuns {
  import opened Numbers
  import opened Sums
  import opened Participation

  /** A pool's totals and its lots, in the order of their offsets. */
  datatype Pool = Pool(totals: Totals, lots: seq<Lot>)

  const EMPTY: Pool := Pool(Totals(0, 0, 0), [])

  datatype Action =
    | Contribution(amount: u64, now: u64, start: u64, expiry: u64)
    | Splitting(lot: nat, prefix: u64)

  /** One action; a rejected one changes nothing. */
  function Step(p: Pool, a: Action): Pool {
    match a
    case Contribution(amount, now, start, expiry) =>
      var r := Contribute(p.totals, amount, now, start, expiry);
      if r.Ok? then Pool(r.value.0, p.lots + [r.value.1]) else p
    case Splitting(i, prefix) =>
      if i >= |p.lots| || Split(p.lots[i], prefix).Err? then p
      else
        var (front, back) := Split(p.lots[i], prefix).value;
        p.(lots := p.lots[..i] + [front, back] + p.lots[i + 1..])
  }

  function Run(p: Pool, actions: seq<Action>): Pool {
    if actions == [] then p else Step(Run(p, actions[..|actions| - 1]), actions[|actions| - 1])
  }

  // ---- The invariant -----------------------------------------------------------------------------

  function PrincipalOf(): Lot -> int { (l: Lot) => l.principal }

  function End(lot: Lot): int { lot.offset + Size(lot) }

  /** The lots cover `[a, b)` without gap or overlap. */
  predicate Tiles(lots: seq<Lot>, a: int, b: int) {
    && (lots == [] ==> a == b)
    && (lots != [] ==> lots[0].offset == a && End(lots[|lots| - 1]) == b)
    && forall i :: 0 <= i < |lots| - 1 ==> lots[i + 1].offset == End(lots[i])
  }

  predicate Sound(lot: Lot) {
    0 < lot.principal && lot.entry < lot.expiry
  }

  predicate AllSound(lots: seq<Lot>) {
    forall i :: 0 <= i < |lots| ==> Sound(lots[i])
  }

  /** The recorded maximum is the longest duration among the lots. */
  predicate Longest(lots: seq<Lot>, d: int) {
    && (forall i :: 0 <= i < |lots| ==> Duration(lots[i]) <= d)
    && (lots == [] ==> d == 0)
    && (lots != [] ==> exists i :: 0 <= i < |lots| && Duration(lots[i]) == d)
  }

  predicate Inv(p: Pool) {
    && AllSound(p.lots)
    && Tiles(p.lots, 0, p.totals.capitalSeconds)
    && Sum(p.lots, PrincipalOf()) == p.totals.principal
    && Longest(p.lots, p.totals.maximumDuration)
  }

  /** Every reachable pool is a partition of its totals. */
  lemma {:induction false} EveryRunPartitions(actions: seq<Action>)
    ensures Inv(Run(EMPTY, actions))
  {
    if actions != [] {
      EveryRunPartitions(actions[..|actions| - 1]);
      StepKeeps(Run(EMPTY, actions[..|actions| - 1]), actions[|actions| - 1]);
    }
  }

  lemma StepKeeps(p: Pool, a: Action)
    requires Inv(p)
    ensures Inv(Step(p, a))
  {
    match a
    case Contribution(amount, now, start, expiry) => ContributeKeeps(p, amount, now, start, expiry);
    case Splitting(i, prefix) => if i < |p.lots| { SplitKeeps(p, i, prefix); }
  }

  lemma ContributeKeeps(p: Pool, amount: u64, now: u64, start: u64, expiry: u64)
    requires Inv(p)
    ensures Inv(Step(p, Contribution(amount, now, start, expiry)))
  {
    var r := Contribute(p.totals, amount, now, start, expiry);
    if r.Ok? {
      var lot := r.value.1;
      assert Sound(lot) && lot.offset == p.totals.capitalSeconds && End(lot) == r.value.0.capitalSeconds;
      SumSnoc(p.lots, lot, PrincipalOf());
      TilesSnoc(p.lots, lot, 0);
      LongestSnoc(p.lots, lot, p.totals.maximumDuration);
      hide Contribute, Tiles, Longest, Size;
    }
  }

  lemma TilesSnoc(lots: seq<Lot>, lot: Lot, a: int)
    requires Tiles(lots, a, lot.offset)
    ensures Tiles(lots + [lot], a, End(lot))
  {}

  lemma LongestSnoc(lots: seq<Lot>, lot: Lot, d: int)
    requires Longest(lots, d) && Sound(lot)
    ensures Longest(lots + [lot], Max(d, Duration(lot)))
  {
    var both := lots + [lot];
    if Duration(lot) >= d {
      assert both[|lots|] == lot;
    } else {
      var i :| 0 <= i < |lots| && Duration(lots[i]) == d;
      assert both[i] == lots[i];
    }
  }

  lemma SplitKeeps(p: Pool, i: nat, prefix: u64)
    requires Inv(p) && i < |p.lots|
    ensures Inv(Step(p, Splitting(i, prefix)))
    ensures Split(p.lots[i], prefix).Ok? <==> 0 < prefix < p.lots[i].principal
  {
    var lot := p.lots[i];
    EndsInside(p.lots, 0, p.totals.capitalSeconds, i);
    if 0 < prefix < lot.principal {
      SplitSizes(lot, prefix);
      var (front, back) := Split(lot, prefix).value;
      var after := p.lots[..i] + [front, back] + p.lots[i + 1..];
      SplitTiles(p.lots, i, front, back, 0, p.totals.capitalSeconds);
      SplitLongest(p.lots, i, front, back, p.totals.maximumDuration);
      SplitSum(p.lots, i, front, back);
      hide Split, Tiles, Longest, Size, Sum;
      assert after == Step(p, Splitting(i, prefix)).lots;
    }
  }

  lemma SplitTiles(lots: seq<Lot>, i: nat, front: Lot, back: Lot, a: int, b: int)
    requires i < |lots| && Tiles(lots, a, b)
    requires front.offset == lots[i].offset && back.offset == End(front) && End(back) == End(lots[i])
    ensures Tiles(lots[..i] + [front, back] + lots[i + 1..], a, b)
  {
    var after := lots[..i] + [front, back] + lots[i + 1..];
    hide End;
    forall k | 0 <= k < |after| - 1 ensures after[k + 1].offset == End(after[k]) {
      if k < i - 1 {
        assert after[k] == lots[k] && after[k + 1] == lots[k + 1];
      } else if k > i {
        assert after[k + 1] == lots[k];
        if k > i + 1 { assert after[k] == lots[k - 1]; }
        assert lots[(k - 1) + 1].offset == End(lots[k - 1]);
      }
    }
  }

  lemma SplitLongest(lots: seq<Lot>, i: nat, front: Lot, back: Lot, d: int)
    requires i < |lots| && Longest(lots, d) && AllSound(lots) && Sound(front) && Sound(back)
    requires Duration(front) == Duration(back) == Duration(lots[i])
    ensures var after := lots[..i] + [front, back] + lots[i + 1..]; Longest(after, d) && AllSound(after)
  {
    var after := lots[..i] + [front, back] + lots[i + 1..];
    var j :| 0 <= j < |lots| && Duration(lots[j]) == d;
    if j < i { assert after[j] == lots[j]; }
    else if j > i { assert after[j + 1] == lots[j]; }
    else { assert after[i] == front; }
  }

  lemma SplitSum(lots: seq<Lot>, i: nat, front: Lot, back: Lot)
    requires i < |lots| && front.principal + back.principal == lots[i].principal
    ensures Sum(lots[..i] + [front, back] + lots[i + 1..], PrincipalOf()) == Sum(lots, PrincipalOf())
  {
    hide Sum;
    var f := PrincipalOf();
    SumConcat(lots[..i] + [front, back], lots[i + 1..], f);
    SumConcat(lots[..i], [front, back], f);
    assert [front, back] == [front] + [back];
    SumConcat([front], [back], f);
    assert lots == lots[..i] + [lots[i]] + lots[i + 1..];
    SumConcat(lots[..i] + [lots[i]], lots[i + 1..], f);
    SumConcat(lots[..i], [lots[i]], f);
    SumOne(front, f);
    SumOne(back, f);
    SumOne(lots[i], f);
  }

  lemma SumOne<T>(x: T, f: T -> int)
    ensures Sum([x], f) == f(x)
  {
    SumSnoc([], x, f);
    assert [] + [x] == [x];
  }

  /** Every tile ends inside the range. */
  lemma {:induction false} EndsInside(lots: seq<Lot>, a: int, b: int, i: nat)
    requires i < |lots| && AllSound(lots) && Tiles(lots, a, b)
    ensures a <= lots[i].offset < End(lots[i]) <= b
  {
    var n := |lots| - 1;
    SizePositive(lots[n]);
    hide Size;
    if n > 0 {
      EndsInside(lots[..n], a, lots[n].offset, if i < n then i else n - 1);
    }
  }

  /** Every lot of a reachable pool is well formed within the totals, so only insolvency can reject its payout. */
  lemma LotsInside(p: Pool, i: nat)
    requires Inv(p) && i < |p.lots|
    ensures Inside(p.lots[i], p.totals.principal, p.totals.capitalSeconds)
  {
    EndsInside(p.lots, 0, p.totals.capitalSeconds, i);
    SumHas(p.lots, i, PrincipalOf());
  }

  // ---- Payouts ----------------------------------------------------------------------------------

  function PayoutOf(t: Totals, residual: u64): Lot -> int {
    (l: Lot) => var r := FinalPayout(l, t.principal, t.capitalSeconds, residual); if r.Ok? then r.value else 0
  }

  predicate AllPayable(lots: seq<Lot>, t: Totals, residual: u64) {
    forall i :: 0 <= i < |lots| ==> FinalPayout(lots[i], t.principal, t.capitalSeconds, residual).Ok?
  }

  /** The signed total a stretch of lots receives: gains above the principal, losses below it. */
  function Receives(principal: int, t: Totals, residual: u64, start: int, end: int): int
    requires t.capitalSeconds > 0
  {
    var a := Allocation(AbsDiff(residual, t.principal), start, end, t.capitalSeconds);
    if residual >= t.principal then principal + a else principal - a
  }

  /** Payouts of contiguous lots telescope to the payout of their joint range. */
  lemma {:induction false} PayoutsTelescope(lots: seq<Lot>, t: Totals, residual: u64, a: int, b: int)
    requires t.capitalSeconds > 0 && Tiles(lots, a, b) && AllPayable(lots, t, residual)
    requires forall i :: 0 <= i < |lots| ==> Inside(lots[i], t.principal, t.capitalSeconds)
    ensures Sum(lots, PayoutOf(t, residual)) == Receives(Sum(lots, PrincipalOf()), t, residual, a, b)
  {
    if lots != [] {
      var n := |lots| - 1;
      var last := lots[n];
      PayoutIs(last, t.principal, t.capitalSeconds, residual);
      TilesFront(lots, a, b);
      hide FinalPayout, Inside, Size, Share, Tiles;
      PayoutsTelescope(lots[..n], t, residual, a, last.offset);
    }
  }

  lemma TilesFront(lots: seq<Lot>, a: int, b: int)
    requires lots != [] && Tiles(lots, a, b)
    ensures Tiles(lots[..|lots| - 1], a, lots[|lots| - 1].offset) && End(lots[|lots| - 1]) == b
  {}

  lemma WholeShare(m: nat, w: int)
    requires w > 0
    ensures Share(m, w, w) == m && Share(m, 0, w) == 0
  {
    FloorIs(m * w, w, m);
    FloorIs(m * 0, w, 0);
  }

  /**
   * After any history of contributions and splits, a lot's payout is Ok or Insolvent, never another error;
   * Insolvent needs a loss; and when no lot is insolvent the payouts add up to the residual, to the atom.
   */
  lemma EveryRunPaysResidual(actions: seq<Action>, residual: u64)
    requires Run(EMPTY, actions).lots != []
    ensures var Pool(t, lots) := Run(EMPTY, actions);
            && (forall i :: 0 <= i < |lots| ==>
                  var r := FinalPayout(lots[i], t.principal, t.capitalSeconds, residual);
                  r.Ok? || (r == Err(Insolvent) && residual < t.principal))
            && (AllPayable(lots, t, residual) ==> Sum(lots, PayoutOf(t, residual)) == residual)
  {
    var p := Run(EMPTY, actions);
    EveryRunPartitions(actions);
    hide Run, FinalPayout, Inside, Share;
    EndsInside(p.lots, 0, p.totals.capitalSeconds, 0);
    forall i | 0 <= i < |p.lots|
      ensures Inside(p.lots[i], p.totals.principal, p.totals.capitalSeconds)
      ensures var r := FinalPayout(p.lots[i], p.totals.principal, p.totals.capitalSeconds, residual);
              r.Ok? || (r == Err(Insolvent) && residual < p.totals.principal)
    {
      LotsInside(p, i);
      PayoutIs(p.lots[i], p.totals.principal, p.totals.capitalSeconds, residual);
    }
    if AllPayable(p.lots, p.totals, residual) {
      PayoutsTelescope(p.lots, p.totals, residual, 0, p.totals.capitalSeconds);
      WholeShare(AbsDiff(residual, p.totals.principal), p.totals.capitalSeconds);
    }
  }

  lemma TilesSlice(lots: seq<Lot>, a: int, b: int, i: nat, j: nat)
    requires i < j <= |lots| && Tiles(lots, a, b)
    ensures Tiles(lots[i..j], lots[i].offset, End(lots[j - 1]))
  {
    hide End;
    var part := lots[i..j];
    forall k | 0 <= k < |part| - 1 ensures part[k + 1].offset == End(part[k]) {
      assert lots[i + k + 1].offset == End(lots[i + k]);
    }
  }

  /** The payout of a stretch of contiguous lots, asked for at once, is the sum of the lots' payouts. */
  lemma RangeIsSumOfLots(actions: seq<Action>, residual: u64, i: nat, j: nat)
    requires i < j <= |Run(EMPTY, actions).lots|
    requires var Pool(t, lots) := Run(EMPTY, actions); AllPayable(lots[i..j], t, residual)
    ensures var Pool(t, lots) := Run(EMPTY, actions);
            var part := lots[i..j];
            && 0 <= Sum(part, PrincipalOf()) <= t.principal && End(lots[j - 1]) <= U128_MAX
            && RangePayout(Sum(part, PrincipalOf()), lots[i].offset, End(lots[j - 1]), t.principal, t.capitalSeconds,
                           residual)
               == Ok(Sum(part, PayoutOf(t, residual)))
  {
    var p := Run(EMPTY, actions);
    var part := p.lots[i..j];
    EveryRunPartitions(actions);
    hide Run, FinalPayout, Inside, Size, RangePayout;
    EndsInside(p.lots, 0, p.totals.capitalSeconds, i);
    EndsInside(p.lots, 0, p.totals.capitalSeconds, j - 1);
    SliceFacts(p, i, j);
    forall k | 0 <= k < |part| ensures Inside(part[k], p.totals.principal, p.totals.capitalSeconds) {
      LotsInside(p, i + k);
    }
    EndsInside(part, p.lots[i].offset, End(p.lots[j - 1]), 0);
    PayoutsTelescope(part, p.totals, residual, p.lots[i].offset, End(p.lots[j - 1]));
    PayoutsFit(part, p.totals, residual);
    RangeReceives(Sum(part, PrincipalOf()), p.totals, residual, p.lots[i].offset, End(p.lots[j - 1]));
  }

  lemma SliceFacts(p: Pool, i: nat, j: nat)
    requires Inv(p) && i < j <= |p.lots|
    ensures var part := p.lots[i..j];
            && Tiles(part, p.lots[i].offset, End(p.lots[j - 1])) && AllSound(part)
            && 0 <= Sum(part, PrincipalOf()) <= p.totals.principal
  {
    var (f, part) := (PrincipalOf(), p.lots[i..j]);
    TilesSlice(p.lots, 0, p.totals.capitalSeconds, i, j);
    assert p.lots == p.lots[..i] + part + p.lots[j..];
    SumConcat(p.lots[..i] + part, p.lots[j..], f);
    SumConcat(p.lots[..i], part, f);
    SumNonNegative(p.lots[..i], f);
    SumNonNegative(part, f);
    SumNonNegative(p.lots[j..], f);
  }

  lemma PayoutsFit(part: seq<Lot>, t: Totals, residual: u64)
    ensures Sum(part, PayoutOf(t, residual)) >= 0
  {
    SumNonNegative(part, PayoutOf(t, residual));
  }

  lemma RangeReceives(principal: u64, t: Totals, residual: u64, start: u128, end: u128)
    requires 0 < t.capitalSeconds && start <= end <= t.capitalSeconds && principal <= t.principal
    requires Receives(principal, t, residual, start, end) >= 0
    ensures 0 <= Receives(principal, t, residual, start, end) <= U64_MAX
    ensures RangePayout(principal, start, end, t.principal, t.capitalSeconds, residual)
            == Ok(Receives(principal, t, residual, start, end))
  {
    var m := AbsDiff(residual, t.principal);
    ShareMono(m, start, end, t.capitalSeconds);
    ShareAtMost(m, start, t.capitalSeconds);
    ShareAtMost(m, end, t.capitalSeconds);
    hide Share;
  }

  // ---- Admission --------------------------------------------------------------------------------

  /** The lot bears the loss in exact proportion to its capital-seconds, without rounding. */
  predicate Bears(lot: Lot, t: Totals, loss: int) {
    loss * Size(lot) <= lot.principal * t.capitalSeconds
  }

  lemma BearsIff(lot: Lot, t: Totals, loss: nat)
    requires Sound(lot)
    ensures Bears(lot, t, loss) <==> loss * Duration(lot) <= t.capitalSeconds
  {
    var (p, d, w) := (lot.principal, Duration(lot), t.capitalSeconds);
    assert loss * (p * d) == (loss * d) * p;
    assert p * w == w * p;
    if loss * d <= w {
      MulMono(loss * d, w, p);
    } else {
      MulSucc(w, p);
      MulMono(w + 1, loss * d, p);
    }
  }

  /**
   * The division-free guard is exactly the check of every lot in the pool: the worst loss is admitted if and
   * only if each lot can bear its exact proportion of it.
   */
  lemma AdmitIffEveryLotBears(actions: seq<Action>, assets: u64, reserve: u64)
    ensures var Pool(t, lots) := Run(EMPTY, actions);
            Admit(t, assets, reserve).Ok? <==>
            && lots != [] && assets >= reserve
            && forall i :: 0 <= i < |lots| ==> Bears(lots[i], t, SatSub(t.principal, assets - reserve))
  {
    var p := Run(EMPTY, actions);
    EveryRunPartitions(actions);
    hide Run, Bears, Size;
    if p.lots != [] && assets >= reserve {
      AdmitOnLots(p, assets, reserve);
    }
  }

  lemma AdmitOnLots(p: Pool, assets: u64, reserve: u64)
    requires Inv(p) && p.lots != [] && assets >= reserve
    ensures Admit(p.totals, assets, reserve).Ok? <==>
            forall i :: 0 <= i < |p.lots| ==> Bears(p.lots[i], p.totals, SatSub(p.totals.principal, assets - reserve))
  {
    var loss := SatSub(p.totals.principal, assets - reserve);
    var t := p.totals;
    hide Bears, Size;
    LotsInside(p, 0);
    EndsInside(p.lots, 0, t.capitalSeconds, 0);
    forall i | 0 <= i < |p.lots|
      ensures Bears(p.lots[i], t, loss) <==> loss * Duration(p.lots[i]) <= t.capitalSeconds
      ensures loss * Duration(p.lots[i]) <= loss * t.maximumDuration
    {
      BearsIff(p.lots[i], t, loss);
      MulMono(Duration(p.lots[i]), t.maximumDuration, loss);
    }
    var j :| 0 <= j < |p.lots| && Duration(p.lots[j]) == t.maximumDuration;
  }

  /** Once (assets, reserve) are admitted, no lot is ever insolvent at any residual the reserve leaves. */
  lemma AdmittedNeverInsolvent(actions: seq<Action>, assets: u64, reserve: u64, residual: u64)
    requires Admit(Run(EMPTY, actions).totals, assets, reserve).Ok? && residual >= assets - reserve
    ensures var Pool(t, lots) := Run(EMPTY, actions);
            AllPayable(lots, t, residual) && Sum(lots, PayoutOf(t, residual)) == residual
  {
    var p := Run(EMPTY, actions);
    EveryRunPartitions(actions);
    EveryRunPaysResidual(actions, residual);
    hide Run, FinalPayout, Size, Share, Sum;
    forall i | 0 <= i < |p.lots|
        ensures FinalPayout(p.lots[i], p.totals.principal, p.totals.capitalSeconds, residual).Ok? {
      AdmittedLotPayable(p, i, assets, reserve, residual);
    }
  }

  lemma AdmittedLotPayable(p: Pool, i: nat, assets: u64, reserve: u64, residual: u64)
    requires Inv(p) && i < |p.lots| && Admit(p.totals, assets, reserve).Ok? && residual >= assets - reserve
    ensures FinalPayout(p.lots[i], p.totals.principal, p.totals.capitalSeconds, residual).Ok?
  {
    var (lot, t) := (p.lots[i], p.totals);
    LotsInside(p, i);
    PayoutIs(lot, t.principal, t.capitalSeconds, residual);
    if residual < t.principal {
      var m := AbsDiff(residual, t.principal);
      MulMono(m, SatSub(t.principal, assets - reserve), t.maximumDuration);
      MulMono(Duration(lot), t.maximumDuration, m);
      SlowAllocation(m, lot.offset, lot.principal, Duration(lot), t.capitalSeconds);
    }
    hide FinalPayout, Share;
  }

  /** One atom for two seconds, then three atoms for one second. */
  const UNEVEN: seq<Action> := [Contribution(1, 1, 1, 3), Contribution(3, 2, 1, 3)]

  lemma UnevenPool()
    ensures Run(EMPTY, UNEVEN) == Pool(Totals(4, 5, 2), [Lot(1, 1, 3, 0), Lot(3, 2, 3, 2)])
  {
    assert UNEVEN[..1] == [Contribution(1, 1, 1, 3)];
    assert Step(EMPTY, UNEVEN[0]) == Pool(Totals(1, 2, 2), [Lot(1, 1, 3, 0)]);
    assert Run(EMPTY, UNEVEN[..1]) == Step(EMPTY, UNEVEN[0]) by { assert UNEVEN[..1][..0] == []; }
  }

  /** The guard is conservative, not exact, about rounded payouts: it rejects a loss every lot here could still pay. */
  lemma GuardIsConservative()
    ensures var Pool(t, lots) := Run(EMPTY, UNEVEN);
            AllPayable(lots, t, 1) && Admit(t, 1, 0) == Err(Insolvent)
  {
    UnevenPool();
    hide Run, FinalPayout;
    assert Share(3, 0, 5) == 0 && Share(3, 2, 5) == 1 && Share(3, 5, 5) == 3;
    PayoutIs(Lot(1, 1, 3, 0), 4, 5, 1);
    PayoutIs(Lot(3, 2, 3, 2), 4, 5, 1);
  }

  /**
   * A loss the guard rejects leaves its longest lots nothing: at the residual that remains each of them is
   * insolvent or paid exactly zero.
   */
  lemma RejectedLongestGetNothing(actions: seq<Action>, assets: u64, reserve: u64, i: nat)
    requires assets >= reserve && i < |Run(EMPTY, actions).lots|
    requires var Pool(t, lots) := Run(EMPTY, actions);
             Admit(t, assets, reserve) == Err(Insolvent) && Duration(lots[i]) == t.maximumDuration
    ensures var Pool(t, lots) := Run(EMPTY, actions);
            var r := FinalPayout(lots[i], t.principal, t.capitalSeconds, assets - reserve);
            r == Err(Insolvent) || r == Ok(0)
  {
    EveryRunPartitions(actions);
    hide Run;
    RejectedLotGetsNothing(Run(EMPTY, actions), assets, reserve, i);
  }

  lemma RejectedLotGetsNothing(p: Pool, assets: u64, reserve: u64, i: nat)
    requires Inv(p) && assets >= reserve && i < |p.lots|
    requires Admit(p.totals, assets, reserve) == Err(Insolvent) && Duration(p.lots[i]) == p.totals.maximumDuration
    ensures var r := FinalPayout(p.lots[i], p.totals.principal, p.totals.capitalSeconds, assets - reserve);
            r == Err(Insolvent) || r == Ok(0)
  {
    hide FinalPayout, Share, Size;
    var (lot, t, residual) := (p.lots[i], p.totals, Minus(assets, reserve));
    LotsInside(p, i);
    PayoutIs(lot, t.principal, t.capitalSeconds, residual);
    var loss := SatSub(t.principal, residual);
    assert loss * Duration(lot) > t.capitalSeconds;
    assert loss > 0 && loss == AbsDiff(residual, t.principal);
    hide Inv, Admit, Inside;
    RateDecides(lot, loss, Duration(lot), t.capitalSeconds);
  }

  /**
   * The guard lies between two statements about the rounded payouts at the residual the reserve leaves: it
   * accepts whenever every lot is paid a positive amount, and whenever it accepts no lot is insolvent.
   */
  lemma GuardIsPinned(actions: seq<Action>, assets: u64, reserve: u64)
    requires Run(EMPTY, actions).lots != [] && assets >= reserve
    ensures var Pool(t, lots) := Run(EMPTY, actions);
            && (AllPaid(lots, t, assets - reserve) ==> Admit(t, assets, reserve).Ok?)
            && (Admit(t, assets, reserve).Ok? ==> AllPayable(lots, t, assets - reserve))
  {
    var p := Run(EMPTY, actions);
    EveryRunPartitions(actions);
    if Admit(p.totals, assets, reserve).Ok? {
      AdmittedNeverInsolvent(actions, assets, reserve, assets - reserve);
    } else {
      hide Run, FinalPayout;
      EndsInside(p.lots, 0, p.totals.capitalSeconds, 0);
      LotsInside(p, 0);
      var j :| 0 <= j < |p.lots| && Duration(p.lots[j]) == p.totals.maximumDuration;
      RejectedLotGetsNothing(p, assets, reserve, j);
    }
  }

  /** Every lot is paid, and none of them nothing. */
  predicate AllPaid(lots: seq<Lot>, t: Totals, residual: u64) {
    forall i :: 0 <= i < |lots| ==>
      var r := FinalPayout(lots[i], t.principal, t.capitalSeconds, residual); r.Ok? && r.value > 0
  }
}
