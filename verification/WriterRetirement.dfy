/** Buying back and retiring a writer's claims: price, budget and full-book risk checks, fresh or from a cache. */
module WriterRetirement {
  import opened Numbers
  import opened Wrappers
  import opened Sums
  import opened WriterSeries
  import opened WriterCandidates
  import opened WriterReserve
  import opened PreparedReserve
  import PreparedQuery
  import opened WriterAdmission

  datatype SeriesLimits = SeriesLimits(claimValue: u64, sellerFloor: u64, monthlyCap: u64, transactionCap: u64)

  datatype Buyback = Buyback(
    monthlyCap: u64, transactionCap: u64, releasePpm: u64, tick: u64, separation: u16, roundTripFee: u64)

  datatype Retirement = Retirement(index: nat, retired: u64, cost: u64, monthSpent: u64)

  /** The book after the retirements so far, the last series touched, and the running totals. */
  datatype Progress = Progress(after: seq<Series>, previous: int, cost: u64, value: u64)

  datatype RetirementAdmission = RetirementAdmission(
    assetsAfter: u64, reserveBefore: int, reserveAfter: ReserveSummary, released: int, cost: u64, monthlySpent: u64,
        free: u64, exposure: u64)

  function MulFloor(a: u64, b: u64): Outcome<u64> { Fit(a * b / SCALE) }

  function MulCeil(a: u64, b: u64): Outcome<u64> { Fit(CeilDiv(a * b, SCALE)) }

  function Fit(n: int): Outcome<u64> {
    if 0 <= n <= U64_MAX then Admit(n) else Refuse(Arithmetic)
  }

  /** The most one retirement may cost: its quantity at the separated price, less the rounded-up fee. */
  function PriceBound(r: Retirement, l: SeriesLimits, policy: Buyback, gap: u64): Outcome<u64> {
    if l.sellerFloor < gap then Refuse(PriceSeparation)
    else
      var gross :- MulFloor(r.retired, l.sellerFloor - gap);
      var fee :- MulCeil(r.retired, policy.roundTripFee);
      if gross < fee then Refuse(PriceSeparation) else Admit(gross - fee)
  }

  /** One step of the loop over the retirements. */
  function RetireOne(p: Progress, book: seq<Series>, limits: seq<SeriesLimits>, policy: Buyback, gap: u64,
                     r: Retirement): Outcome<Progress>
    requires |limits| == |book| == |p.after|
  {
    if r.index >= |book| || r.index <= p.previous || r.retired == 0 then Refuse(InvalidRetirement)
    else
      var l := limits[r.index];
      if l.claimValue > book[r.index].maxPayout || l.sellerFloor > book[r.index].maxPayout then Refuse(InvalidPolicy)
      else if p.after[r.index].oi < r.retired then Refuse(InvalidRetirement)
      else if r.cost > l.transactionCap then Refuse(BudgetExceeded)
      else
        var monthly :- AddChecked(r.monthSpent, r.cost);
        if monthly > l.monthlyCap then Refuse(BudgetExceeded)
        else
          var bound :- PriceBound(r, l, policy, gap);
          if r.cost > bound then Refuse(PriceSeparation)
          else
            var cost :- AddChecked(p.cost, r.cost);
            var own :- MulFloor(r.retired, l.claimValue);
            var value :- AddChecked(p.value, own);
            Admit(Progress(WithOi(p.after, r.index, p.after[r.index].oi - r.retired), r.index, cost, value))
  }

  function RetireAll(book: seq<Series>, limits: seq<SeriesLimits>, policy: Buyback, gap: u64,
                     rs: seq<Retirement>): (o: Outcome<Progress>)
    requires |limits| == |book|
    ensures o.Admit? ==> |o.value.after| == |book|
  {
    if rs == [] then Admit(Progress(book, -1, 0, 0))
    else
      var p :- RetireAll(book, limits, policy, gap, rs[..|rs| - 1]);
      RetireOne(p, book, limits, policy, gap, rs[|rs| - 1])
  }

  /** The cash after paying: a sleeve's own cash leaves the pools untouched, pooled cash pays from them. */
  function CashAfter(cash: Cash, cost: u64, committedAfter: u64, sleeveCash: bool): Outcome<Cash> {
    if cash.assets < cost then Refuse(Insolvency)
    else if sleeveCash && cash.assets - cost < cash.pooled then Refuse(Insolvency)
    else if !sleeveCash && cash.pooled < cost then Refuse(Insolvency)
    else Admit(Cash(cash.assets - cost, cash.principal, committedAfter, if sleeveCash then cash.pooled
                    else cash.pooled - cost))
  }

  /** The closing budget checks. */
  function Conclude(before: int, cash: Cash, risk: Risk, policy: Buyback, p: Progress, a: Admitted, month: u64,
                    assetsAfter: u64): Outcome<RetirementAdmission> {
    var monthly :- AddChecked(month, p.cost);
    var needed :- AddChecked(a.summary.reserve, risk.buffer);
    if cash.assets < needed then Refuse(Insolvency)
    else if p.cost > p.value || p.cost > policy.transactionCap || monthly > policy.monthlyCap
        || p.cost > cash.assets - needed then Refuse(BudgetExceeded)
    else Admit(RetirementAdmission(assetsAfter, before, a.summary, SatSub(before, a.summary.reserve), p.cost, monthly,
                                   a.free, a.exposure))
  }

  predicate Shaped(book: seq<Series>, limits: seq<SeriesLimits>, rs: seq<Retirement>) {
    book != [] && |book| <= MAX_SERIES && |limits| == |book| && rs != [] && |rs| <= |book|
  }

  predicate Separated(policy: Buyback) {
    policy.tick != 0 && policy.separation != 0 && policy.releasePpm <= RATIO_SCALE_PPM
  }

  /** `admit_writer_retirement_inner` without a cache: every reserve is a fresh full-book walk. */
  function AdmitRetirement(book: seq<Series>, cash: Cash, risk: Risk, policy: Buyback, limits: seq<SeriesLimits>,
                           rs: seq<Retirement>,
                           month: u64, committedAfter: u64, closePending: bool,
                               sleeveCash: bool): Outcome<RetirementAdmission> {
    if closePending then Refuse(CloseHasPriority)
    else if !Shaped(book, limits, rs) then Refuse(InvalidBook)
    else if !Separated(policy) then Refuse(InvalidPolicy)
    else
      var before :- Enveloped(ExactReserve(book, risk.lowerTail, risk.upperTail));
      var gap :- Fit(policy.tick * policy.separation);
      var p :- RetireAll(book, limits, policy, gap, rs);
      var after :- CashAfter(cash, p.cost, committedAfter, sleeveCash);
      var a :- AdmitCash(p.after, after, risk);
      Conclude(before.reserve, cash, risk, policy, p, a, month, after.assets)
  }

  // ---- What an admitted retirement guarantees -----------------------------------------------------------

  function CostOf(): Retirement -> int { (r: Retirement) => r.cost }

  function RetiredAt(i: int): Retirement -> int { (r: Retirement) => if r.index == i then r.retired else 0 }

  /** The running totals are the sums over the retirements, each open interest falls by exactly what was retired. */
  lemma {:induction false} RetireAllTotals(book: seq<Series>, limits: seq<SeriesLimits>, policy: Buyback, gap: u64,
                                           rs: seq<Retirement>)
    requires |limits| == |book| && RetireAll(book, limits, policy, gap, rs).Admit?
    ensures var p := RetireAll(book, limits, policy, gap, rs).value;
            && p.cost == Sum(rs, CostOf())
            && forall i :: 0 <= i < |book| ==> p.after[i] == book[i].(oi := p.after[i].oi)
                                               && p.after[i].oi == book[i].oi - Sum(rs, RetiredAt(i))
  {
    if rs != [] {
      var n := |rs| - 1;
      RetireAllTotals(book, limits, policy, gap, rs[..n]);
      var q := RetireAll(book, limits, policy, gap, rs[..n]).value;
      var p := RetireOne(q, book, limits, policy, gap, rs[n]).value;
      forall i | 0 <= i < |book|
        ensures p.after[i] == book[i].(oi := p.after[i].oi) && p.after[i].oi == book[i].oi - Sum(rs, RetiredAt(i))
      {
        assert Sum(rs, RetiredAt(i)) == Sum(rs[..n], RetiredAt(i)) + RetiredAt(i)(rs[n]);
      }
    }
  }

  /** The closing checks that the cost is covered beyond reserve and buffer can never be the ones that refuse. */
  lemma LastChecksNeverFire(cash: Cash, risk: Risk, p: Progress, a: Admitted, committedAfter: u64, sleeveCash: bool)
    requires CashAfter(cash, p.cost, committedAfter, sleeveCash).Admit?
    requires AdmitCash(p.after, CashAfter(cash, p.cost, committedAfter, sleeveCash).value, risk) == Admit(a)
    ensures AddChecked(a.summary.reserve, risk.buffer).Admit?
            && p.cost <= cash.assets - (a.summary.reserve + risk.buffer)
  {
    hide ExactReserve, AdmitCash, AdmitSummary, PolicyOk;
    var after := CashAfter(cash, p.cost, committedAfter, sleeveCash).value;
    AdmitCashUnfold(p.after, after, risk);
    AdmitCashSummary(p.after, after, risk);
    ReserveIsExact(p.after, risk.lowerTail, risk.upperTail, 0);
    SummaryDecides(a.summary, 0, after, risk);
    hide WithinDrawdown;
  }

  lemma AdmitCashSummary(book: seq<Series>, cash: Cash, risk: Risk)
    requires AdmitCash(book, cash, risk).Admit?
    ensures ExactReserve(book, risk.lowerTail, risk.upperTail) == Ok(AdmitCash(book, cash, risk).value.summary)
  {
    hide ExactReserve, CheckDrawdown, GrossPayout;
  }

  /** The price paid with the rounded-up fee is a gap below the seller's floor. */
  predicate PriceSeparated(r: Retirement, l: SeriesLimits, policy: Buyback, gap: int) {
    gap <= l.sellerFloor && r.cost + CeilDiv(r.retired * policy.roundTripFee, SCALE)
                            <= r.retired * (l.sellerFloor - gap) / SCALE <= U64_MAX
  }

  /** One retirement is within its series, its caps and its price bound. */
  predicate WithinSeries(r: Retirement, book: seq<Series>, limits: seq<SeriesLimits>, policy: Buyback, gap: int) {
    && r.index < |book| == |limits| && 0 < r.retired <= book[r.index].oi
    && var l := limits[r.index];
       && l.claimValue <= book[r.index].maxPayout && l.sellerFloor <= book[r.index].maxPayout
       && r.cost <= l.transactionCap && r.monthSpent + r.cost <= l.monthlyCap
       && PriceSeparated(r, l, policy, gap)
  }

  /** What the retired options are conservatively worth, rounded down. */
  function ClaimOf(limits: seq<SeriesLimits>): Retirement -> int {
    (r: Retirement) => if r.index < |limits| then r.retired * limits[r.index].claimValue / SCALE else 0
  }

  /** Every retirement is within its series, each series is retired once and in order, and the totals fit. */
  predicate AllWithin(book: seq<Series>, limits: seq<SeriesLimits>, policy: Buyback, gap: int, rs: seq<Retirement>) {
    && (forall i :: 0 <= i < |rs| ==> WithinSeries(rs[i], book, limits, policy, gap))
    && (forall i, j :: 0 <= i < j < |rs| ==> rs[i].index < rs[j].index)
    && Sum(rs, CostOf()) <= U64_MAX && Sum(rs, ClaimOf(limits)) <= U64_MAX
  }

  lemma PriceBoundIff(r: Retirement, l: SeriesLimits, policy: Buyback, gap: u64)
    ensures PriceBound(r, l, policy, gap).Admit? && r.cost <= PriceBound(r, l, policy, gap).value
       <==> PriceSeparated(r, l, policy, gap)
  {
    if gap <= l.sellerFloor {
      FloorGreatest(r.retired * (l.sellerFloor - gap), SCALE, 0);
      CeilMono(0, r.retired * policy.roundTripFee, SCALE);
    }
    hide CeilDiv;
  }

  /** One step of the loop is accepted exactly within the series, behind the previous one, while the totals fit. */
  lemma RetireOneIff(p: Progress, book: seq<Series>, limits: seq<SeriesLimits>, policy: Buyback, gap: u64,
                     r: Retirement)
    requires |limits| == |book| == |p.after|
    requires p.previous < r.index < |book| ==> p.after[r.index].oi == book[r.index].oi
    ensures RetireOne(p, book, limits, policy, gap, r).Admit? <==>
              && WithinSeries(r, book, limits, policy, gap) && p.previous < r.index
              && p.cost + r.cost <= U64_MAX && p.value + ClaimOf(limits)(r) <= U64_MAX
    ensures var o := RetireOne(p, book, limits, policy, gap, r);
            o.Admit? ==> o.value.value == p.value + ClaimOf(limits)(r) && o.value.previous == r.index
  {
    if r.index < |book| {
      PriceBoundIff(r, limits[r.index], policy, gap);
      FloorGreatest(r.retired * limits[r.index].claimValue, SCALE, 0);
    }
    hide PriceBound, PriceSeparated;
  }

  lemma ClaimNonNegative(limits: seq<SeriesLimits>, rs: seq<Retirement>)
    ensures 0 <= Sum(rs, ClaimOf(limits)) && 0 <= Sum(rs, CostOf())
  {
    forall r | r in rs ensures ClaimOf(limits)(r) >= 0 {
      if r.index < |limits| { FloorGreatest(r.retired * limits[r.index].claimValue, SCALE, 0); }
    }
    SumNonNegative(rs, ClaimOf(limits));
    SumNonNegative(rs, CostOf());
  }

  /** A series that no retirement names keeps its open interest. */
  lemma Untouched(rs: seq<Retirement>, i: int)
    requires forall r :: r in rs ==> r.index < i
    ensures Sum(rs, RetiredAt(i)) == 0
  {
    SumZero(rs, RetiredAt(i));
  }

  /** All retirements with one more at the end. */
  lemma AllWithinSnoc(book: seq<Series>, limits: seq<SeriesLimits>, policy: Buyback, gap: int, rs: seq<Retirement>)
    requires rs != []
    ensures var (front, r) := (rs[..|rs| - 1], rs[|rs| - 1]);
            AllWithin(book, limits, policy, gap, rs) <==>
              && AllWithin(book, limits, policy, gap, front) && WithinSeries(r, book, limits, policy, gap)
              && (front != [] ==> front[|front| - 1].index < r.index)
              && Sum(front, CostOf()) + r.cost <= U64_MAX
              && Sum(front, ClaimOf(limits)) + ClaimOf(limits)(r) <= U64_MAX
  {
    hide WithinSeries;
    var (front, r) := (rs[..|rs| - 1], rs[|rs| - 1]);
    SumSnoc(front, r, CostOf());
    SumSnoc(front, r, ClaimOf(limits));
    assert rs == front + [r];
    ClaimNonNegative(limits, [r]);
    SumSnoc([], r, ClaimOf(limits));
    assert [] + [r] == [r];
    hide Sum, ClaimOf;
    assert forall i :: 0 <= i < |front| ==> front[i] == rs[i];
    assert AllWithin(book, limits, policy, gap, rs) ==> AllWithin(book, limits, policy, gap, front);
    if AllWithin(book, limits, policy, gap, front) && front != [] && front[|front| - 1].index < r.index {
      forall i | 0 <= i < |front| ensures rs[i].index < r.index {
        assert i < |front| - 1 ==> front[i].index < front[|front| - 1].index;
      }
    }
  }

  /** The loop accepts exactly the retirements that are within their series, and adds up their claims. */
  lemma {:induction false} RetireAllIff(book: seq<Series>, limits: seq<SeriesLimits>, policy: Buyback, gap: u64,
                                        rs: seq<Retirement>)
    requires |limits| == |book|
    ensures var o := RetireAll(book, limits, policy, gap, rs);
            && (o.Admit? <==> AllWithin(book, limits, policy, gap, rs))
            && (o.Admit? ==> o.value.value == Sum(rs, ClaimOf(limits))
                             && o.value.previous == if rs == [] then -1 else rs[|rs| - 1].index)
  {
    if rs != [] {
      var (front, r) := (rs[..|rs| - 1], rs[|rs| - 1]);
      RetireAllIff(book, limits, policy, gap, front);
      hide RetireOne, WithinSeries;
      AllWithinSnoc(book, limits, policy, gap, rs);
      SumSnoc(front, r, ClaimOf(limits));
      assert rs == front + [r];
      if RetireAll(book, limits, policy, gap, front).Admit? {
        var p := RetireAll(book, limits, policy, gap, front).value;
        RetireAllTotals(book, limits, policy, gap, front);
        if p.previous < r.index < |book| { LaterUntouched(book, limits, policy, gap, front, r.index); }
        hide AllWithin, Sum, ClaimOf;
        RetireOneIff(p, book, limits, policy, gap, r);
      }
    }
  }

  lemma LaterUntouched(book: seq<Series>, limits: seq<SeriesLimits>, policy: Buyback, gap: int, rs: seq<Retirement>,
                       i: nat)
    requires AllWithin(book, limits, policy, gap, rs) && (rs != [] ==> rs[|rs| - 1].index < i)
    ensures Sum(rs, RetiredAt(i)) == 0
  {
    hide WithinSeries;
    forall r | r in rs ensures r.index < i {
      var k :| 0 <= k < |rs| && rs[k] == r;
      assert k < |rs| - 1 ==> rs[k].index < rs[|rs| - 1].index;
    }
    Untouched(rs, i);
  }

  // ---- When a retirement is admitted ----------------------------------------------------------------------

  /** The book with the retired options gone. */
  ghost predicate RetiredBook(book: seq<Series>, rs: seq<Retirement>, after: seq<Series>) {
    && |after| == |book|
    && forall i :: 0 <= i < |book| ==> after[i] == book[i].(oi := after[i].oi)
                                       && after[i].oi == book[i].oi - Sum(rs, RetiredAt(i))
  }

  /** The cash with the cost paid: a sleeve's own cash leaves the pools untouched, pooled cash pays from them. */
  predicate PaidCash(cash: Cash, cost: int, committedAfter: u64, sleeveCash: bool, after: Cash) {
    && after.assets == cash.assets - cost && after.principal == cash.principal && after.committed == committedAfter
    && after.pooled == (if sleeveCash then cash.pooled else Minus(cash.pooled, cost))
    && (sleeveCash ==> cash.pooled <= after.assets)
  }

  /** The policy's own caps, and the claims' worth, bound the whole cost. */
  predicate WithinPolicy(policy: Buyback, limits: seq<SeriesLimits>, rs: seq<Retirement>, month: u64) {
    var cost := Sum(rs, CostOf());
    cost <= Sum(rs, ClaimOf(limits)) && cost <= policy.transactionCap && month + cost <= policy.monthlyCap
  }

  /** Everything a retirement must satisfy before the state it leaves is looked at. */
  predicate RetirementPosed(book: seq<Series>, risk: Risk, policy: Buyback, limits: seq<SeriesLimits>,
                            rs: seq<Retirement>, month: u64, closePending: bool) {
    && !closePending && 0 < |rs| <= |book| == |limits| <= MAX_SERIES
    && 0 < policy.tick && 0 < policy.separation && policy.releasePpm <= RATIO_SCALE_PPM
    && policy.tick * policy.separation <= U64_MAX
    && ExactReserve(book, risk.lowerTail, risk.upperTail).Ok?
    && AllWithin(book, limits, policy, policy.tick * policy.separation, rs)
    && WithinPolicy(policy, limits, rs, month)
  }

  ghost predicate SafelyPaid(book: seq<Series>, cash: Cash, risk: Risk, rs: seq<Retirement>, committedAfter: u64,
                             sleeveCash: bool, left: seq<Series>, after: Cash) {
    && RetiredBook(book, rs, left) && PaidCash(cash, Sum(rs, CostOf()), committedAfter, sleeveCash, after)
    && WellPosed(left, after, risk) && SafeEverywhere(left, after, risk)
  }

  ghost predicate CanPaySafely(book: seq<Series>, cash: Cash, risk: Risk, rs: seq<Retirement>, committedAfter: u64,
                               sleeveCash: bool) {
    exists left, after :: SafelyPaid(book, cash, risk, rs, committedAfter, sleeveCash, left, after)
  }

  lemma CashAfterIff(cash: Cash, cost: u64, committedAfter: u64, sleeveCash: bool, after: Cash)
    ensures CashAfter(cash, cost, committedAfter, sleeveCash) == Admit(after)
       <==> PaidCash(cash, cost, committedAfter, sleeveCash, after)
  {}

  lemma RetiredBookUnique(book: seq<Series>, rs: seq<Retirement>, left: seq<Series>, left': seq<Series>)
    requires RetiredBook(book, rs, left) && RetiredBook(book, rs, left')
    ensures left == left'
  {}

  /** What an admission reports: the totals, the fresh reserves before and after, and the free cash after it. */
  ghost predicate Reports(r: RetirementAdmission, book: seq<Series>, cash: Cash, risk: Risk, rs: seq<Retirement>,
                          month: u64, committedAfter: u64, sleeveCash: bool, left: seq<Series>, after: Cash) {
    && SafelyPaid(book, cash, risk, rs, committedAfter, sleeveCash, left, after)
    && AdmitCash(left, after, risk) == Admit(Admitted(r.reserveAfter, r.free, r.exposure))
    && r.cost == Sum(rs, CostOf()) && r.monthlySpent == month + r.cost && r.assetsAfter == after.assets
    && var before := ExactReserve(book, risk.lowerTail, risk.upperTail);
       before.Ok? && r.reserveBefore == before.value.reserve
       && r.released == Max(0, before.value.reserve - r.reserveAfter.reserve)
  }

  /** Paying and re-admitting the cash succeeds exactly when some safe state is left. */
  lemma PayingIff(book: seq<Series>, cash: Cash, risk: Risk, rs: seq<Retirement>, committedAfter: u64,
                  sleeveCash: bool, p: Progress)
    requires RetiredBook(book, rs, p.after) && p.cost == Sum(rs, CostOf())
    ensures var after := CashAfter(cash, p.cost, committedAfter, sleeveCash);
            after.Admit? && AdmitCash(p.after, after.value, risk).Admit? <==>
            CanPaySafely(book, cash, risk, rs, committedAfter, sleeveCash)
    ensures var after := CashAfter(cash, p.cost, committedAfter, sleeveCash);
            after.Admit? && AdmitCash(p.after, after.value, risk).Admit? ==>
            SafelyPaid(book, cash, risk, rs, committedAfter, sleeveCash, p.after, after.value)
  {
    hide AdmitCash, SafeEverywhere, WellPosed, PaidCash, RetiredBook, CashAfter, Sum;
    var after := CashAfter(cash, p.cost, committedAfter, sleeveCash);
    if after.Admit? {
      CashAfterIff(cash, p.cost, committedAfter, sleeveCash, after.value);
      AdmitCashIff(p.after, after.value, risk);
      assert AdmitCash(p.after, after.value, risk).Admit? ==>
          SafelyPaid(book, cash, risk, rs, committedAfter, sleeveCash, p.after, after.value);
    }
    if CanPaySafely(book, cash, risk, rs, committedAfter, sleeveCash) {
      var left, paid :| SafelyPaid(book, cash, risk, rs, committedAfter, sleeveCash, left, paid);
      RetiredBookUnique(book, rs, left, p.after);
      CashAfterIff(cash, p.cost, committedAfter, sleeveCash, paid);
      AdmitCashIff(left, paid, risk);
    }
  }

  /** Once the cash is admitted, the closing checks are the claims' worth and the policy's caps. */
  lemma ConcludeIff(before: int, cash: Cash, risk: Risk, policy: Buyback, p: Progress, month: u64, committedAfter: u64,
                    sleeveCash: bool)
    requires CashAfter(cash, p.cost, committedAfter, sleeveCash).Admit?
    requires AdmitCash(p.after, CashAfter(cash, p.cost, committedAfter, sleeveCash).value, risk).Admit?
    ensures var after := CashAfter(cash, p.cost, committedAfter, sleeveCash).value;
            var a := AdmitCash(p.after, after, risk).value;
            var o := Conclude(before, cash, risk, policy, p, a, month, after.assets);
            && (o.Admit? <==> p.cost <= p.value && p.cost <= policy.transactionCap
                              && month + p.cost <= policy.monthlyCap)
            && (o.Admit? ==> o.value == RetirementAdmission(after.assets, before, a.summary,
                                                            SatSub(before, a.summary.reserve), p.cost,
                                                            month + p.cost, a.free, a.exposure))
  {
    hide AdmitCash, CashAfter;
    var after := CashAfter(cash, p.cost, committedAfter, sleeveCash).value;
    LastChecksNeverFire(cash, risk, p, AdmitCash(p.after, after, risk).value, committedAfter, sleeveCash);
  }

  /** The retirements add up: the book and the totals the loop leaves. */
  lemma LoopLeaves(book: seq<Series>, limits: seq<SeriesLimits>, policy: Buyback, gap: u64, rs: seq<Retirement>)
    requires |limits| == |book| && RetireAll(book, limits, policy, gap, rs).Admit?
    ensures var p := RetireAll(book, limits, policy, gap, rs).value;
            && RetiredBook(book, rs, p.after) && p.cost == Sum(rs, CostOf()) && p.value == Sum(rs, ClaimOf(limits))
  {
    RetireAllTotals(book, limits, policy, gap, rs);
    RetireAllIff(book, limits, policy, gap, rs);
    hide AllWithin;
  }

  /**
   * A retirement is admitted exactly when it is well posed, every part is within its series, caps and price bound,
   * the whole is within its claims' worth and the policy's caps, and the book and cash it leaves are safe at every
   * settlement price.
   */
  lemma RetirementIff(book: seq<Series>, cash: Cash, risk: Risk, policy: Buyback, limits: seq<SeriesLimits>,
                      rs: seq<Retirement>, month: u64, committedAfter: u64, closePending: bool, sleeveCash: bool)
    ensures AdmitRetirement(book, cash, risk, policy, limits, rs, month, committedAfter, closePending,
                            sleeveCash).Admit? <==>
              && RetirementPosed(book, risk, policy, limits, rs, month, closePending)
              && CanPaySafely(book, cash, risk, rs, committedAfter, sleeveCash)
  {
    hide AdmitCash, RetireAll, ExactReserve, AllWithin, Conclude, CashAfter, CanPaySafely, Sum;
    if !closePending && Shaped(book, limits, rs) && Separated(policy) && policy.tick * policy.separation <= U64_MAX {
      var gap := policy.tick * policy.separation;
      RetireAllIff(book, limits, policy, gap, rs);
      var before := ExactReserve(book, risk.lowerTail, risk.upperTail);
      if before.Ok? && RetireAll(book, limits, policy, gap, rs).Admit? {
        var p := RetireAll(book, limits, policy, gap, rs).value;
        LoopLeaves(book, limits, policy, gap, rs);
        PayingIff(book, cash, risk, rs, committedAfter, sleeveCash, p);
        var after := CashAfter(cash, p.cost, committedAfter, sleeveCash);
        if after.Admit? && AdmitCash(p.after, after.value, risk).Admit? {
          ConcludeIff(before.value.reserve, cash, risk, policy, p, month, committedAfter, sleeveCash);
        }
      }
    }
  }

  /**
   * An admitted retirement reports exactly the cost paid, the fresh reserves before and after, and leaves a book and
   * cash that are safe at every settlement price.
   */
  lemma RetirementIsSafe(book: seq<Series>, cash: Cash, risk: Risk, policy: Buyback, limits: seq<SeriesLimits>,
                         rs: seq<Retirement>, month: u64, committedAfter: u64, closePending: bool, sleeveCash: bool)
      returns (left: seq<Series>, after: Cash)
    requires AdmitRetirement(book, cash, risk, policy, limits, rs, month, committedAfter, closePending,
                             sleeveCash).Admit?
    ensures Reports(AdmitRetirement(book, cash, risk, policy, limits, rs, month, committedAfter, closePending,
                                    sleeveCash).value,
                    book, cash, risk, rs, month, committedAfter, sleeveCash, left, after)
    ensures RetirementPosed(book, risk, policy, limits, rs, month, closePending)
  {
    RetirementIff(book, cash, risk, policy, limits, rs, month, committedAfter, closePending, sleeveCash);
    hide AdmitCash, RetireAll, ExactReserve, AllWithin, Conclude, CashAfter, CanPaySafely, Sum, Separated, SafelyPaid;
    var gap := policy.tick * policy.separation;
    var p := RetireAll(book, limits, policy, gap, rs).value;
    LoopLeaves(book, limits, policy, gap, rs);
    PayingIff(book, cash, risk, rs, committedAfter, sleeveCash, p);
    left, after := p.after, CashAfter(cash, p.cost, committedAfter, sleeveCash).value;
    ConcludeIff(ExactReserve(book, risk.lowerTail, risk.upperTail).value.reserve, cash, risk, policy, p, month,
                committedAfter, sleeveCash);
    AfterAssets(book, cash, risk, rs, committedAfter, sleeveCash, left, after);
  }

  lemma AfterAssets(book: seq<Series>, cash: Cash, risk: Risk, rs: seq<Retirement>, committedAfter: u64,
                    sleeveCash: bool, left: seq<Series>, after: Cash)
    requires SafelyPaid(book, cash, risk, rs, committedAfter, sleeveCash, left, after)
    ensures after.assets == cash.assets - Sum(rs, CostOf())
  {
    hide WellPosed, SafeEverywhere, RetiredBook, Sum;
  }

  // ---- The loop, and the cache ---------------------------------------------------------------------------

  method RetireLoop(book: seq<Series>, limits: seq<SeriesLimits>, policy: Buyback, gap: u64, rs: seq<Retirement>)
      returns (o: Outcome<Progress>)
    requires |limits| == |book|
    ensures o == RetireAll(book, limits, policy, gap, rs)
  {
    var p := Progress(book, -1, 0, 0);
    for i := 0 to |rs|
      invariant RetireAll(book, limits, policy, gap, rs[..i]) == Admit(p)
    {
      assert rs[..i + 1][..i] == rs[..i];
      hide RetireOne;
      var next := RetireOne(p, book, limits, policy, gap, rs[i]);
      if next.Refuse? {
        RefusalStays(book, limits, policy, gap, rs, i + 1);
        return next;
      }
      p := next.value;
    }
    assert rs[..|rs|] == rs;
    return Admit(p);
  }

  lemma {:induction false} RefusalStays(book: seq<Series>, limits: seq<SeriesLimits>, policy: Buyback, gap: u64,
                                        rs: seq<Retirement>, n: nat)
    requires |limits| == |book| && n <= |rs| && RetireAll(book, limits, policy, gap, rs[..n]).Refuse?
    ensures RetireAll(book, limits, policy, gap, rs) == RetireAll(book, limits, policy, gap, rs[..n])
    decreases |rs|
  {
    if n == |rs| {
      assert rs[..n] == rs;
    } else {
      var m := |rs| - 1;
      assert rs[..m][..n] == rs[..n];
      hide RetireOne;
      RefusalStays(book, limits, policy, gap, rs[..m], n);
    }
  }

  /** The gross payout of a book in gross mode leaves u64, which the cached path notices before the cash gate. */
  predicate GrossTooLarge(risk: Risk, book: seq<Series>) {
    risk.mode.GrossExternalMaximumPayout? && Gross(book) > U64_MAX
  }

  /** The cached outcome is the fresh one; only where the gross overflows may both refuse for different reasons. */
  predicate Agree<T(==)>(cached: Outcome<T>, walked: Outcome<T>, early: bool) {
    cached == walked || (early && cached == Refuse(Envelope(ArithmeticOverflow)) && walked.Refuse?)
  }

  /** The retirements themselves are accepted and the book they leave is too large in gross mode. */
  predicate LeavesGrossTooLarge(book: seq<Series>, risk: Risk, policy: Buyback, limits: seq<SeriesLimits>,
                                rs: seq<Retirement>) {
    && Shaped(book, limits, rs) && Fit(policy.tick * policy.separation).Admit?
    && var p := RetireAll(book, limits, policy, policy.tick * policy.separation, rs);
       p.Admit? && GrossTooLarge(risk, p.value.after)
  }

  /** The cache was built from this book, bounds and series, at the book's open interest. */
  ghost predicate CacheOf(q: Prepared, book: seq<Series>, risk: Risk) {
    q.lower == risk.lowerTail && q.upper == risk.upperTail && Prepare(book, q.target, q.lower, q.upper) == Ok(q)
  }

  /** Admission of one changed open interest through the cache: reserve, exposure, then the cash gate. */
  method AdmitPrepared(q: Prepared, oi: u64, cash: Cash, risk: Risk, ghost book: seq<Series>)
      returns (o: Outcome<Admitted>)
    requires CacheOf(q, book, risk)
    ensures q.target < |book|
    ensures var changed := WithOi(book, q.target, oi);
            Agree(o, AdmitCash(changed, cash, risk), GrossTooLarge(risk, changed))
  {
    PreparedQuery.PreparedIsBuilt(q, book);
    PreparedQuery.BuiltFacts(q, book, Candidates(book, q.lower, q.upper));
    ghost var changed := WithOi(book, q.target, oi);
    ValidationIgnoresOi(book, q.target, oi);
    SetValid(book, q.lower, q.upper);
    hide ExactReserve, Prepare, AdmitSummary, AdmitCash, ValidateBook, Gross, WithOi, CandidateSet,
        PreparedQuery.BuiltFrom;
    AdmitCashParts(changed, cash, risk);
    var s := PreparedQuery.Reserve(q, oi, book);
    if s.Err? { return Refuse(Envelope(s.error)); }
    ReserveRange(changed, risk);
    var exposure: int := s.value.reserve;
    if risk.mode == GrossExternalMaximumPayout {
      var gross := PreparedQuery.GrossAt(q, oi, book);
      if gross.Err? { return Refuse(Envelope(gross.error)); }
      exposure := gross.value;
    }
    o := AdmitSummary(s.value, exposure, cash, risk);
    ExposureOnly(s.value, 0, exposure, cash, risk);
  }

  lemma SetValid(book: seq<Series>, lower: u64, upper: u64)
    requires CandidateSet(book, lower, upper).Ok?
    ensures ValidateBook(book).Ok?
  {
    hide Candidates;
  }

  /** The fresh admission of a valid book, case by case. */
  lemma AdmitCashParts(book: seq<Series>, cash: Cash, risk: Risk)
    requires ValidateBook(book).Ok?
    ensures var (r, o) := (ExactReserve(book, risk.lowerTail, risk.upperTail), AdmitCash(book, cash, risk));
            && (r.Err? ==> o == Refuse(Envelope(r.error)))
            && (r.Ok? ==>
                  var a := AdmitSummary(r.value, 0, cash, risk);
                  && 0 <= r.value.reserve <= U64_MAX
                  && (a.Refuse? ==> o == Refuse(a.error))
                  && (a.Admit? && GrossTooLarge(risk, book) ==> o == Refuse(Envelope(ArithmeticOverflow)))
                  && (a.Admit? && !GrossTooLarge(risk, book) ==>
                        var e := if risk.mode.GrossExternalMaximumPayout? then Gross(book) else r.value.reserve;
                        0 <= e <= U64_MAX && o == Admit(a.value.(exposure := e))))
  {
    if ExactReserve(book, risk.lowerTail, risk.upperTail).Ok? { ReserveRange(book, risk); }
    SumNonNegativeGross(book);
    hide ExactReserve, AdmitSummary, ValidateBook, Gross;
  }

  lemma ReserveRange(book: seq<Series>, risk: Risk)
    requires ExactReserve(book, risk.lowerTail, risk.upperTail).Ok?
    ensures 0 <= ExactReserve(book, risk.lowerTail, risk.upperTail).value.reserve <= U64_MAX
  {
    ReserveIsExact(book, risk.lowerTail, risk.upperTail, 0);
  }

  /** The cash gate does not look at the exposure it reports. */
  lemma ExposureOnly(s: ReserveSummary, e: u64, e': u64, cash: Cash, risk: Risk)
    ensures var (a, b) := (AdmitSummary(s, e, cash, risk), AdmitSummary(s, e', cash, risk));
            if a.Admit? then b == Admit(a.value.(exposure := e')) else b == a
  {}

  /** `validate_prepared_retirement`: one retirement, of the cached series, at the cached bounds and open interest. */
  predicate CacheMatches(q: Prepared, book: seq<Series>, risk: Risk, rs: seq<Retirement>) {
    && |rs| == 1 && q.lower == risk.lowerTail && q.upper == risk.upperTail && rs[0].index == q.target
    && q.target < |book| && book[q.target].oi == q.initialOi
  }

  /** The reserve before, from the cache or fresh: the same. */
  method ReserveBefore(book: seq<Series>, risk: Risk, prepared: Option<Prepared>) returns (r: Result<ReserveSummary>)
    requires prepared.Some? ==> CacheOf(prepared.value, book, risk)
    ensures r == ExactReserve(book, risk.lowerTail, risk.upperTail)
  {
    if prepared.None? {
      r := ReserveWalk(book, risk.lowerTail, risk.upperTail);
    } else {
      var q := prepared.value;
      InitialOi(q, book);
      hide ExactReserve, Prepare;
      r := PreparedQuery.Reserve(q, q.initialOi, book);
    }
  }

  lemma InitialOi(q: Prepared, book: seq<Series>)
    requires Prepare(book, q.target, q.lower, q.upper) == Ok(q)
    ensures q.target < |book| && q.initialOi == book[q.target].oi && WithOi(book, q.target, q.initialOi) == book
  {
    hide CandidateSet, BasisOverflows, GroupsOf;
  }

  /** The admission after, from the cache or fresh: the same up to why it refuses. */
  method AdmitAfter(book: seq<Series>, p: Progress, cash: Cash, risk: Risk, prepared: Option<Prepared>)
      returns (o: Outcome<Admitted>)
    requires prepared.Some? ==>
               && CacheOf(prepared.value, book, risk)
               && prepared.value.target < |p.after| == |book|
               && p.after == WithOi(book, prepared.value.target, p.after[prepared.value.target].oi)
    ensures Agree(o, AdmitCash(p.after, cash, risk), prepared.Some? && GrossTooLarge(risk, p.after))
  {
    hide AdmitCash;
    if prepared.None? {
      o := AdmitFresh(p.after, cash, risk);
    } else {
      var q := prepared.value;
      o := AdmitPrepared(q, p.after[q.target].oi, cash, risk, book);
    }
  }

  method AdmitFresh(book: seq<Series>, cash: Cash, risk: Risk) returns (o: Outcome<Admitted>)
    ensures o == AdmitCash(book, cash, risk)
  {
    hide ExactReserve, AdmitSummary, GrossPayout;
    var s := ReserveWalk(book, risk.lowerTail, risk.upperTail);
    if s.Err? { return Refuse(Envelope(s.error)); }
    ReserveRange(book, risk);
    var a := AdmitSummary(s.value, 0, cash, risk);
    if a.Refuse? { return Refuse(a.error); }
    var exposure: int := s.value.reserve;
    if risk.mode == GrossExternalMaximumPayout {
      var gross := GrossLoop(book);
      if gross.Err? { return Refuse(Envelope(gross.error)); }
      exposure := gross.value;
    }
    return Admit(a.value.(exposure := exposure));
  }

  lemma OneRetirementBook(book: seq<Series>, limits: seq<SeriesLimits>, policy: Buyback, gap: u64, r: Retirement)
    requires |limits| == |book| && RetireAll(book, limits, policy, gap, [r]).Admit?
    ensures r.index < |book| && r.retired <= book[r.index].oi
    ensures RetireAll(book, limits, policy, gap, [r]).value.after == WithOi(book, r.index, book[r.index].oi - r.retired)
  {
    assert [r][..0] == [];
    hide PriceBound;
  }

  /** `admit_writer_retirement_inner` with an optional cache of that book agrees with the fresh admission. */
  method Retire(book: seq<Series>, cash: Cash, risk: Risk, policy: Buyback, limits: seq<SeriesLimits>,
                rs: seq<Retirement>,
                month: u64, committedAfter: u64, closePending: bool, sleeveCash: bool, prepared: Option<Prepared>)
                    returns (o: Outcome<RetirementAdmission>)
    requires prepared.Some? ==> CacheOf(prepared.value, book, risk) && CacheMatches(prepared.value, book, risk, rs)
    ensures Agree(o, AdmitRetirement(book, cash, risk, policy, limits, rs, month, committedAfter, closePending,
                                     sleeveCash),
                  prepared.Some? && LeavesGrossTooLarge(book, risk, policy, limits, rs))
  {
    hide ExactReserve, AdmitCash, RetireAll, Conclude, CashAfter, GrossTooLarge;
    if closePending { return Refuse(CloseHasPriority); }
    if !Shaped(book, limits, rs) { return Refuse(InvalidBook); }
    if !Separated(policy) { return Refuse(InvalidPolicy); }
    var before := ReserveBefore(book, risk, prepared);
    if before.Err? { return Refuse(Envelope(before.error)); }
    var gap := Fit(policy.tick * policy.separation);
    if gap.Refuse? { return Refuse(gap.error); }
    var p := RetireLoop(book, limits, policy, gap.value, rs);
    if p.Refuse? { return Refuse(p.error); }
    var after := CashAfter(cash, p.value.cost, committedAfter, sleeveCash);
    if after.Refuse? { return Refuse(after.error); }
    if prepared.Some? {
      assert rs == [rs[0]];
      OneRetirementBook(book, limits, policy, gap.value, rs[0]);
    }
    var a := AdmitAfter(book, p.value, after.value, risk, prepared);
    if a.Refuse? { return Refuse(a.error); }
    o := Conclude(before.value.reserve, cash, risk, policy, p.value, a.value, month, after.value.assets);
  }

  /** The cached entry points check the cache against the request first. */
  method RetirePrepared(book: seq<Series>, cash: Cash, risk: Risk, policy: Buyback, limits: seq<SeriesLimits>,
                        rs: seq<Retirement>,
                        month: u64, committedAfter: u64, closePending: bool, sleeveCash: bool, q: Prepared)
                            returns (o: Outcome<RetirementAdmission>)
    requires CacheMatches(q, book, risk, rs) ==> CacheOf(q, book, risk)
    ensures !CacheMatches(q, book, risk, rs) ==> o == Refuse(InvalidPolicy)
    ensures CacheMatches(q, book, risk, rs) ==>
              Agree(o, AdmitRetirement(book, cash, risk, policy, limits, rs, month, committedAfter, closePending,
                                       sleeveCash),
                    LeavesGrossTooLarge(book, risk, policy, limits, rs))
  {
    hide AdmitRetirement, LeavesGrossTooLarge;
    if !CacheMatches(q, book, risk, rs) { return Refuse(InvalidPolicy); }
    o := Retire(book, cash, risk, policy, limits, rs, month, committedAfter, closePending, sleeveCash, Some(q));
  }
}
