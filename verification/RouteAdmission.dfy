/** Admission of a route's writer fills so far, and the evidence that later replaces a fresh admission. */
module RouteAdmission {
  import opened Numbers
  import opened Wrappers
  import opened Sums
  import opened WriterSeries
  import opened WriterReserve
  import opened PreparedReserve
  import opened WriterAdmission
  import opened WriterRetirement
  import Participation
  import DlmmMath

  type Direction = DlmmMath.Direction

  datatype Policy = Policy(
    eligible: bool, participation: Option<Participation.Totals>, book: seq<Series>, index: nat, cash: Cash, risk: Risk,
    buyback: Buyback, limits: seq<SeriesLimits>, monthSpent: u64, seriesMonthSpent: u64)

  /** What the writer sold for or spent so far on this route. */
  datatype FillTotals = FillTotals(gross: u64, net: u64, sold: u64, retired: u64, spent: u64)

  const NOTHING: FillTotals := FillTotals(0, 0, 0, 0, 0)

  /** `AdmittedWriterCash`; the series are filled in when the route is complete. */
  datatype Evidence = Evidence(summary: ReserveSummary, exposure: u64, cash: Cash, risk: Risk, series: seq<Series>)

  /** `seller_floor_passes`. */
  predicate FloorPasses(premium: u64, quantity: u64, floor: u64) {
    premium * SCALE >= quantity * floor
  }

  /** Without division, the premium is at least the rounded-up floor of the quantity sold. */
  lemma FloorPassesIff(premium: u64, quantity: u64, floor: u64)
    ensures FloorPasses(premium, quantity, floor) <==> premium >= CeilDiv(quantity * floor, SCALE)
  {
    CeilBounds(quantity * floor, SCALE);
    var c := CeilDiv(quantity * floor, SCALE);
    if FloorPasses(premium, quantity, floor) { CeilLeast(quantity * floor, SCALE, premium); }
    if c <= premium { MulMono(c, premium, SCALE); }
  }

  /** `remaining_budget`: what every cap still leaves to spend. */
  function Budget(p: Policy, t: FillTotals): u64
    requires p.index < |p.limits|
  {
    var l := p.limits[p.index];
    Min(Min(Min(SatSub(p.buyback.transactionCap, t.spent), SatSub(l.transactionCap, t.spent)),
            SatSub(SatSub(p.buyback.monthlyCap, p.monthSpent), t.spent)),
        SatSub(SatSub(l.monthlyCap, p.seriesMonthSpent), t.spent))
  }

  predicate Eligible(p: Policy) {
    p.eligible && p.index < |p.book| && |p.book| == |p.limits| && |p.book| <= MAX_SERIES
  }

  predicate Participates(p: Policy, assets: u64, reserve: int) {
    p.participation.None?
        || (0 <= reserve <= U64_MAX && Participation.Admit(p.participation.value, assets, reserve).Ok?)
  }

  function SaleCash(p: Policy, t: FillTotals): Option<Cash> {
    if p.cash.assets + t.gross > U64_MAX then None else Some(p.cash.(assets := p.cash.assets + t.gross))
  }

  /** Admitting the premium taken and the options sold so far, on the full book. */
  function AdmitSale(p: Policy, t: FillTotals): Option<Evidence>
    requires Eligible(p)
  {
    var cash := SaleCash(p, t);
    if !FloorPasses(t.gross, t.sold, p.limits[p.index].sellerFloor) || cash.None?
        || p.book[p.index].oi + t.sold > U64_MAX then None
    else
      var a := AdmitCash(WithOi(p.book, p.index, p.book[p.index].oi + t.sold), cash.value, p.risk);
      if a.Refuse? || !Participates(p, cash.value.assets, a.value.summary.reserve) then None
      else Some(Evidence(a.value.summary, a.value.exposure, cash.value, p.risk, []))
  }

  function Retired(p: Policy, t: FillTotals): seq<Retirement> {
    [Retirement(p.index, t.retired, t.spent, p.seriesMonthSpent)]
  }

  /** A sleeve's own cash leaves commitments and pools alone; pooled cash pays from both. */
  function CommittedAfter(p: Policy, t: FillTotals, sleeveCash: bool): int {
    if sleeveCash then p.cash.committed else p.cash.committed - t.spent
  }

  function PooledAfter(p: Policy, t: FillTotals, sleeveCash: bool): int {
    if sleeveCash then p.cash.pooled else p.cash.pooled - t.spent
  }

  /** Admitting the options bought back and retired so far. */
  function AdmitBuyback(p: Policy, t: FillTotals, sleeveCash: bool): Option<Evidence>
    requires Eligible(p)
  {
    if !sleeveCash && p.cash.committed < t.spent then None
    else
      var committed := CommittedAfter(p, t, sleeveCash);
      var r := AdmitRetirement(p.book, p.cash, p.risk, p.buyback, p.limits, Retired(p, t), p.monthSpent, committed,
                               false, sleeveCash);
      if r.Refuse? || !Participates(p, r.value.assetsAfter, r.value.reserveAfter.reserve) then None
      else if !sleeveCash && p.cash.pooled < t.spent then None
      else Some(Evidence(r.value.reserveAfter, r.value.exposure,
                         Cash(r.value.assetsAfter, p.cash.principal, committed, PooledAfter(p, t, sleeveCash)), p.risk,
                             []))
  }

  /** `admit_totals_with_cash_mode` without a cache. */
  function AdmitTotals(d: Direction, p: Policy, t: FillTotals, sleeveCash: bool): Option<Evidence> {
    if !Eligible(p) then None
    else if d.QuoteForOption? then AdmitSale(p, t) else AdmitBuyback(p, t, sleeveCash)
  }

  /** The book once the fills so far are settled. */
  function SeriesAfter(d: Direction, p: Policy, t: FillTotals): Option<seq<Series>>
    requires p.index < |p.book|
  {
    var oi: int := if d.QuoteForOption? then p.book[p.index].oi + t.sold else p.book[p.index].oi - t.retired;
    if 0 <= oi <= U64_MAX then Some(WithOi(p.book, p.index, oi)) else None
  }

  /** The sleeve's cash once the fills so far are settled: premium added, or the purchase paid from where it is kept. */
  function CashAfterFills(d: Direction, p: Policy, t: FillTotals, sleeveCash: bool): Option<Cash> {
    if d.QuoteForOption? then SaleCash(p, t)
    else if p.cash.assets < t.spent || (!sleeveCash && (p.cash.committed < t.spent || p.cash.pooled < t.spent))
        then None
    else Some(Cash(p.cash.assets - t.spent, p.cash.principal,
                   CommittedAfter(p, t, sleeveCash), PooledAfter(p, t, sleeveCash)))
  }

  // ---- The evidence is a fresh admission -----------------------------------------------------------------

  /** The evidence is what a fresh full-book admission of these series gives, and that state is safe at every price. */
  ghost predicate Fresh(e: Evidence, series: seq<Series>) {
    && AdmitCash(series, e.cash, e.risk).Admit?
    && AdmitCash(series, e.cash, e.risk).value.summary == e.summary
    && AdmitCash(series, e.cash, e.risk).value.exposure == e.exposure
    && SafeEverywhere(series, e.cash, e.risk)
  }

  /**
   * Admitted totals give the fresh admission of the book and the cash after the fills, under the policy's own
   * limits, and that state is safe at every price.
   */
  lemma EvidenceIsFresh(d: Direction, p: Policy, t: FillTotals, sleeveCash: bool)
    requires AdmitTotals(d, p, t, sleeveCash).Some?
    ensures p.index < |p.book| && SeriesAfter(d, p, t).Some?
    ensures var e := AdmitTotals(d, p, t, sleeveCash).value;
            Fresh(e, SeriesAfter(d, p, t).value) && e.risk == p.risk
                && CashAfterFills(d, p, t, sleeveCash) == Some(e.cash)
  {
    hide AdmitCash, AdmitBuyback, AdmitSale, SafeEverywhere, Fresh, SeriesAfter, CashAfterFills;
    if d.QuoteForOption? {
      SaleIsFresh(p, t, sleeveCash);
    } else {
      BuybackIsFresh(p, t, sleeveCash);
    }
  }

  lemma SaleIsFresh(p: Policy, t: FillTotals, sleeveCash: bool)
    requires Eligible(p) && AdmitSale(p, t).Some?
    ensures SeriesAfter(DlmmMath.QuoteForOption, p, t).Some?
    ensures var e := AdmitSale(p, t).value;
            && Fresh(e, SeriesAfter(DlmmMath.QuoteForOption, p, t).value) && e.risk == p.risk
            && CashAfterFills(DlmmMath.QuoteForOption, p, t, sleeveCash) == Some(e.cash)
  {
    hide AdmitCash, SafeEverywhere, WellPosed, Participates;
    AdmitCashIff(WithOi(p.book, p.index, p.book[p.index].oi + t.sold), SaleCash(p, t).value, p.risk);
  }

  /** The sale earns at least the rounded-up seller floor of what was sold. */
  predicate SaleTerms(p: Policy, t: FillTotals)
    requires p.index < |p.limits|
  {
    t.gross >= CeilDiv(t.sold * p.limits[p.index].sellerFloor, SCALE)
  }

  /** The purchase keeps its price below the floor by gap and fee, and every cap of the series and the policy. */
  predicate BuybackTerms(p: Policy, t: FillTotals, sleeveCash: bool) {
    var r := Retirement(p.index, t.retired, t.spent, p.seriesMonthSpent);
    && 0 < p.buyback.tick && 0 < p.buyback.separation && p.buyback.releasePpm <= RATIO_SCALE_PPM
    && p.buyback.tick * p.buyback.separation <= U64_MAX
    && ExactReserve(p.book, p.risk.lowerTail, p.risk.upperTail).Ok?
    && WithinSeries(r, p.book, p.limits, p.buyback, p.buyback.tick * p.buyback.separation)
    && t.spent <= t.retired * p.limits[p.index].claimValue / SCALE <= U64_MAX
    && t.spent <= p.buyback.transactionCap && p.monthSpent + t.spent <= p.buyback.monthlyCap
    && (sleeveCash ==> p.cash.pooled + t.spent <= p.cash.assets)
  }

  /** The book and cash after the fills are well posed, safe at every price, and bearable by every participant. */
  ghost predicate SafeAfterFills(d: Direction, p: Policy, t: FillTotals, sleeveCash: bool)
    requires p.index < |p.book|
  {
    var (series, cash) := (SeriesAfter(d, p, t), CashAfterFills(d, p, t, sleeveCash));
    && series.Some? && cash.Some?
    && WellPosed(series.value, cash.value, p.risk) && SafeEverywhere(series.value, cash.value, p.risk)
    && (p.participation.Some? ==>
          Bearable(p.participation.value, cash.value.assets,
                   ExactReserve(series.value, p.risk.lowerTail, p.risk.upperTail).value.reserve))
  }

  /** The worst loss, spread over the participants' capital-time, is at most one atom for each atom of principal. */
  predicate Bearable(t: Participation.Totals, assets: int, reserve: int) {
    && 0 < t.principal && 0 < t.maximumDuration && 0 < t.capitalSeconds && reserve <= assets
    && Max(0, t.principal - (assets - reserve)) * t.maximumDuration <= t.capitalSeconds
  }

  lemma ParticipatesIff(p: Policy, assets: u64, reserve: int)
    requires 0 <= reserve <= U64_MAX
    ensures Participates(p, assets, reserve) <==>
              (p.participation.Some? ==> Bearable(p.participation.value, assets, reserve))
  {}

  ghost predicate TotalsAdmissible(d: Direction, p: Policy, t: FillTotals, sleeveCash: bool) {
    && p.eligible && p.index < |p.book| == |p.limits| <= MAX_SERIES
    && (if d.QuoteForOption? then SaleTerms(p, t) else BuybackTerms(p, t, sleeveCash))
    && SafeAfterFills(d, p, t, sleeveCash)
  }

  /** The fills so far are admitted exactly when their terms hold and they leave a state that is safe everywhere. */
  lemma AdmitTotalsIff(d: Direction, p: Policy, t: FillTotals, sleeveCash: bool)
    ensures AdmitTotals(d, p, t, sleeveCash).Some? <==> TotalsAdmissible(d, p, t, sleeveCash)
  {
    hide AdmitBuyback, AdmitSale, SafeAfterFills, BuybackTerms, SaleTerms;
    if Eligible(p) {
      if d.QuoteForOption? { SaleIff(p, t, sleeveCash); } else { BuybackIff(p, t, sleeveCash); }
    }
  }

  lemma SaleIff(p: Policy, t: FillTotals, sleeveCash: bool)
    requires Eligible(p)
    ensures AdmitSale(p, t).Some? <==>
              SaleTerms(p, t) && SafeAfterFills(DlmmMath.QuoteForOption, p, t, sleeveCash)
  {
    hide AdmitCash, SafeEverywhere, Participates, FloorPasses, ExactReserve, CeilDiv;
    FloorPassesIff(t.gross, t.sold, p.limits[p.index].sellerFloor);
    if SaleCash(p, t).Some? && p.book[p.index].oi + t.sold <= U64_MAX {
      var series := WithOi(p.book, p.index, p.book[p.index].oi + t.sold);
      AdmitCashIff(series, SaleCash(p, t).value, p.risk);
      if AdmitCash(series, SaleCash(p, t).value, p.risk).Admit? {
        AdmitCashSummary(series, SaleCash(p, t).value, p.risk);
        ReserveRange(series, p.risk);
        ParticipatesIff(p, SaleCash(p, t).value.assets,
                        AdmitCash(series, SaleCash(p, t).value, p.risk).value.summary.reserve);
      }
      hide WellPosed, WithOi;
    }
  }

  lemma OneRetirement(book: seq<Series>, limits: seq<SeriesLimits>, policy: Buyback, gap: int, r: Retirement)
    ensures Sum([r], CostOf()) == r.cost && Sum([r], ClaimOf(limits)) == ClaimOf(limits)(r)
    ensures AllWithin(book, limits, policy, gap, [r]) <==>
              WithinSeries(r, book, limits, policy, gap) && ClaimOf(limits)(r) <= U64_MAX
  {
    hide WithinSeries, ClaimOf;
    SumSnoc([], r, CostOf());
    SumSnoc([], r, ClaimOf(limits));
    assert [] + [r] == [r];
    hide Sum;
    assert [r][0] == r;
  }

  lemma OneRetired(book: seq<Series>, r: Retirement, after: seq<Series>)
    requires r.index < |book| && r.retired <= book[r.index].oi
    ensures RetiredBook(book, [r], after) <==> after == WithOi(book, r.index, book[r.index].oi - r.retired)
  {
    forall i: nat ensures Sum([r], RetiredAt(i)) == if i == r.index then r.retired else 0 {
      SumSnoc([], r, RetiredAt(i));
      assert [] + [r] == [r];
    }
    hide Sum;
  }

  /** The state a purchase leaves is safe exactly when the book and cash after the fills are. */
  lemma PaidIff(p: Policy, t: FillTotals, sleeveCash: bool)
    requires Eligible(p) && t.retired <= p.book[p.index].oi && (!sleeveCash ==> t.spent <= p.cash.committed)
    ensures var d := DlmmMath.OptionForQuote;
            var (series, cash) := (SeriesAfter(d, p, t).value, CashAfterFills(d, p, t, sleeveCash));
            && SeriesAfter(d, p, t).Some?
            && (CanPaySafely(p.book, p.cash, p.risk, Retired(p, t), CommittedAfter(p, t, sleeveCash), sleeveCash) <==>
                  && cash.Some? && (sleeveCash ==> p.cash.pooled + t.spent <= p.cash.assets)
                  && WellPosed(series, cash.value, p.risk) && SafeEverywhere(series, cash.value, p.risk))
  {
    hide WellPosed, SafeEverywhere, RetiredBook, Sum, WithOi;
    var d := DlmmMath.OptionForQuote;
    var (rs, committed) := (Retired(p, t), CommittedAfter(p, t, sleeveCash));
    var (series, cash) := (SeriesAfter(d, p, t).value, CashAfterFills(d, p, t, sleeveCash));
    OneCost(rs[0]);
    OneRetired(p.book, rs[0], series);
    if cash.Some? {
      assert PaidCash(p.cash, t.spent, committed, sleeveCash, cash.value)
        <==> (sleeveCash ==> p.cash.pooled + t.spent <= p.cash.assets);
      assert WellPosed(series, cash.value, p.risk) && SafeEverywhere(series, cash.value, p.risk)
             && PaidCash(p.cash, t.spent, committed, sleeveCash, cash.value) ==>
          SafelyPaid(p.book, p.cash, p.risk, rs, committed, sleeveCash, series, cash.value);
    }
    if CanPaySafely(p.book, p.cash, p.risk, rs, committed, sleeveCash) {
      var left, after :| SafelyPaid(p.book, p.cash, p.risk, rs, committed, sleeveCash, left, after);
      OneRetired(p.book, rs[0], left);
      assert cash == Some(after);
    }
  }

  /** What a purchase is admitted on, before its cash is looked at. */
  lemma PosedIff(p: Policy, t: FillTotals)
    requires Eligible(p)
    ensures RetirementPosed(p.book, p.risk, p.buyback, p.limits, Retired(p, t), p.monthSpent, false) <==>
              BuybackTerms(p, t, false)
  {
    hide ExactReserve, WithinSeries, Separated;
    OneRetirement(p.book, p.limits, p.buyback, p.buyback.tick * p.buyback.separation, Retired(p, t)[0]);
    hide AllWithin, Sum;
  }

  lemma BuybackIff(p: Policy, t: FillTotals, sleeveCash: bool)
    requires Eligible(p)
    ensures AdmitBuyback(p, t, sleeveCash).Some? <==>
              BuybackTerms(p, t, sleeveCash) && SafeAfterFills(DlmmMath.OptionForQuote, p, t, sleeveCash)
  {
    hide AdmitRetirement, RetirementPosed, CanPaySafely, SafeEverywhere, WellPosed, Participates, ExactReserve, Retired,
         SeriesAfter, PriceSeparated, Separated, Bearable;
    PosedIff(p, t);
    if (!sleeveCash ==> t.spent <= p.cash.committed) && BuybackTerms(p, t, false) {
      var committed := CommittedAfter(p, t, sleeveCash);
      RetirementIff(p.book, p.cash, p.risk, p.buyback, p.limits, Retired(p, t), p.monthSpent, committed, false,
                    sleeveCash);
      PaidIff(p, t, sleeveCash);
      BuybackReports(p, t, sleeveCash);
      BuybackParticipates(p, t, sleeveCash);
    } else if !sleeveCash ==> t.spent <= p.cash.committed {
      RetirementIff(p.book, p.cash, p.risk, p.buyback, p.limits, Retired(p, t), p.monthSpent,
                    CommittedAfter(p, t, sleeveCash), false, sleeveCash);
    }
  }

  /** The participation test of an admitted purchase is that of the state after the fills. */
  lemma BuybackParticipates(p: Policy, t: FillTotals, sleeveCash: bool)
    requires Eligible(p) && (!sleeveCash ==> t.spent <= p.cash.committed)
    ensures var o := AdmitRetirement(p.book, p.cash, p.risk, p.buyback, p.limits, Retired(p, t), p.monthSpent,
                                     CommittedAfter(p, t, sleeveCash), false, sleeveCash);
            o.Admit? ==>
              (Participates(p, o.value.assetsAfter, o.value.reserveAfter.reserve) <==>
                 (p.participation.Some? ==>
                    Bearable(p.participation.value, o.value.assetsAfter, o.value.reserveAfter.reserve)))
  {
    hide AdmitRetirement, Participates, Bearable, ExactReserve, AdmitCash, SafeEverywhere, SeriesAfter, Retired;
    var o := AdmitRetirement(p.book, p.cash, p.risk, p.buyback, p.limits, Retired(p, t), p.monthSpent,
                             CommittedAfter(p, t, sleeveCash), false, sleeveCash);
    if o.Admit? {
      BuybackReports(p, t, sleeveCash);
      ReserveRange(SeriesAfter(DlmmMath.OptionForQuote, p, t).value, p.risk);
      ParticipatesIff(p, o.value.assetsAfter, o.value.reserveAfter.reserve);
    }
  }

  /** An admitted purchase reports the assets and the reserve of the book and cash after the fills. */
  lemma BuybackReports(p: Policy, t: FillTotals, sleeveCash: bool)
    requires Eligible(p) && (!sleeveCash ==> t.spent <= p.cash.committed)
    ensures var d := DlmmMath.OptionForQuote;
            var o := AdmitRetirement(p.book, p.cash, p.risk, p.buyback, p.limits, Retired(p, t), p.monthSpent,
                                     CommittedAfter(p, t, sleeveCash), false, sleeveCash);
            var (series, cash) := (SeriesAfter(d, p, t), CashAfterFills(d, p, t, sleeveCash));
            o.Admit? ==>
              && series.Some? && cash.Some? && o.value.assetsAfter == cash.value.assets
              && SafeEverywhere(series.value, cash.value, p.risk)
              && ExactReserve(series.value, p.risk.lowerTail, p.risk.upperTail) == Ok(o.value.reserveAfter)
              && AdmitCash(series.value, cash.value, p.risk).Admit?
              && AdmitCash(series.value, cash.value, p.risk).value.summary == o.value.reserveAfter
              && AdmitCash(series.value, cash.value, p.risk).value.exposure == o.value.exposure
  {
    hide AdmitRetirement, WellPosed, SafeEverywhere, RetiredBook, Sum, WithOi, AdmitCash, ExactReserve,
         RetirementPosed;
    var committed := CommittedAfter(p, t, sleeveCash);
    if AdmitRetirement(p.book, p.cash, p.risk, p.buyback, p.limits, Retired(p, t), p.monthSpent, committed, false,
                       sleeveCash).Admit? {
      var left, after := RetirementIsSafe(p.book, p.cash, p.risk, p.buyback, p.limits, Retired(p, t), p.monthSpent,
                                          committed, false, sleeveCash);
      PosedIff(p, t);
      hide PriceSeparated, Separated;
      OneCost(Retired(p, t)[0]);
      OneRetired(p.book, Retired(p, t)[0], left);
      AdmitCashSummary(left, after, p.risk);
      assert CashAfterFills(DlmmMath.OptionForQuote, p, t, sleeveCash) == Some(after);
    }
  }

  lemma BuybackIsFresh(p: Policy, t: FillTotals, sleeveCash: bool)
    requires Eligible(p) && AdmitBuyback(p, t, sleeveCash).Some?
    ensures SeriesAfter(DlmmMath.OptionForQuote, p, t).Some?
    ensures var e := AdmitBuyback(p, t, sleeveCash).value;
            && Fresh(e, SeriesAfter(DlmmMath.OptionForQuote, p, t).value) && e.risk == p.risk
            && CashAfterFills(DlmmMath.OptionForQuote, p, t, sleeveCash) == Some(e.cash)
  {
    hide AdmitRetirement, AdmitCash, SafeEverywhere, Participates, Retired, ExactReserve, SeriesAfter;
    BuybackReports(p, t, sleeveCash);
  }

  lemma OneCost(r: Retirement)
    ensures Sum([r], CostOf()) == r.cost
  {
    SumSnoc([], r, CostOf());
    assert [] + [r] == [r];
  }

  /** An amount is within the remaining budget exactly when spending it keeps every cap. */
  lemma BudgetIff(p: Policy, t: FillTotals, amount: u64)
    requires p.index < |p.limits| && 0 < amount
    ensures amount <= Budget(p, t) <==>
              && t.spent + amount <= p.buyback.transactionCap
              && t.spent + amount <= p.limits[p.index].transactionCap
              && p.monthSpent + t.spent + amount <= p.buyback.monthlyCap
              && p.seriesMonthSpent + t.spent + amount <= p.limits[p.index].monthlyCap
  {}

  /** `for_final_state`: reuse needs exactly the same series, cash and limits. */
  function ForFinalState(e: Evidence, series: seq<Series>, cash: Cash, risk: Risk): Option<(ReserveSummary, u64)> {
    if series == e.series && cash == e.cash && risk == e.risk then Some((e.summary, e.exposure)) else None
  }

  /** Whatever final state the evidence accepts, its answer is the fresh admission's. */
  lemma ReuseIsFresh(e: Evidence, series: seq<Series>, cash: Cash, risk: Risk)
    requires Fresh(e, e.series) && ForFinalState(e, series, cash, risk).Some?
    ensures AdmitCash(series, cash, risk).Admit?
    ensures var a := AdmitCash(series, cash, risk).value;
            ForFinalState(e, series, cash, risk).value == (a.summary, a.exposure)
    ensures SafeEverywhere(series, cash, risk)
  {
    hide AdmitCash, SafeEverywhere;
  }

  // ---- The cached path --------------------------------------------------------------------------------------

  /** A supplied cache was built from this policy's book, series and tail bounds. */
  ghost predicate CacheFor(q: Prepared, p: Policy) {
    q.target == p.index && CacheOf(q, p.book, p.risk)
  }

  /** Admission with the target's open interest replaced, through the cache or on the copied book. */
  method AdmitOi(p: Policy, oi: u64, cash: Cash, prepared: Option<Prepared>) returns (a: Outcome<Admitted>)
    requires p.index < |p.book| && (prepared.Some? ==> CacheFor(prepared.value, p))
    ensures var changed := WithOi(p.book, p.index, oi);
            Agree(a, AdmitCash(changed, cash, p.risk), GrossTooLarge(p.risk, changed))
  {
    hide AdmitCash, CacheOf, WithOi, GrossTooLarge;
    if prepared.Some? {
      a := AdmitPrepared(prepared.value, oi, cash, p.risk, p.book);
    } else {
      a := AdmitFresh(WithOi(p.book, p.index, oi), cash, p.risk);
    }
  }

  method AdmitSaleWith(p: Policy, t: FillTotals, prepared: Option<Prepared>) returns (e: Option<Evidence>)
    requires Eligible(p) && (prepared.Some? ==> CacheFor(prepared.value, p))
    ensures e == AdmitSale(p, t)
  {
    hide AdmitCash, CacheFor, WithOi, Participates, FloorPasses, GrossTooLarge;
    if !FloorPasses(t.gross, t.sold, p.limits[p.index].sellerFloor) { return None; }
    var cash := SaleCash(p, t);
    if cash.None? || p.book[p.index].oi + t.sold > U64_MAX { return None; }
    var a := AdmitOi(p, p.book[p.index].oi + t.sold, cash.value, prepared);
    if a.Refuse? || !Participates(p, cash.value.assets, a.value.summary.reserve) { return None; }
    return Some(Evidence(a.value.summary, a.value.exposure, cash.value, p.risk, []));
  }

  /** The retirement of everything bought so far, through the cache or on the copied book. */
  method RetireWith(p: Policy, t: FillTotals, committed: u64, prepared: Option<Prepared>, sleeveCash: bool)
      returns (r: Outcome<RetirementAdmission>)
    requires p.index < |p.book| && (prepared.Some? ==> CacheFor(prepared.value, p))
    ensures Agree(r, AdmitRetirement(p.book, p.cash, p.risk, p.buyback, p.limits, Retired(p, t), p.monthSpent,
                                     committed, false, sleeveCash),
                  LeavesGrossTooLarge(p.book, p.risk, p.buyback, p.limits, Retired(p, t)))
  {
    hide AdmitRetirement, LeavesGrossTooLarge;
    if prepared.Some? {
      CacheFits(prepared.value, p, t);
      hide CacheOf, CacheMatches, Retired;
      r := RetirePrepared(p.book, p.cash, p.risk, p.buyback, p.limits, Retired(p, t), p.monthSpent, committed, false,
                          sleeveCash, prepared.value);
    } else {
      hide Retired;
      r := Retire(p.book, p.cash, p.risk, p.buyback, p.limits, Retired(p, t), p.monthSpent, committed, false,
                  sleeveCash, None);
    }
  }

  lemma CacheFits(q: Prepared, p: Policy, t: FillTotals)
    requires CacheFor(q, p)
    ensures CacheMatches(q, p.book, p.risk, Retired(p, t))
  {
    InitialOi(q, p.book);
  }

  method AdmitBuybackWith(p: Policy, t: FillTotals, prepared: Option<Prepared>, sleeveCash: bool)
      returns (e: Option<Evidence>)
    requires Eligible(p) && (prepared.Some? ==> CacheFor(prepared.value, p))
    ensures e == AdmitBuyback(p, t, sleeveCash)
  {
    hide AdmitRetirement, CacheFor, Participates, Retired, LeavesGrossTooLarge;
    if !sleeveCash && p.cash.committed < t.spent { return None; }
    var committed := CommittedAfter(p, t, sleeveCash);
    var r := RetireWith(p, t, committed, prepared, sleeveCash);
    if r.Refuse? || !Participates(p, r.value.assetsAfter, r.value.reserveAfter.reserve) { return None; }
    if !sleeveCash && p.cash.pooled < t.spent { return None; }
    return Some(Evidence(r.value.reserveAfter, r.value.exposure,
                         Cash(r.value.assetsAfter, p.cash.principal, committed, PooledAfter(p, t, sleeveCash)), p.risk,
                             []));
  }

  /** `admit_totals_with_cash_mode`: with or without a cache of the policy's book, the same evidence. */
  method AdmitTotalsWith(d: Direction, p: Policy, t: FillTotals, prepared: Option<Prepared>, sleeveCash: bool)
      returns (e: Option<Evidence>)
    requires prepared.Some? ==> CacheFor(prepared.value, p)
    ensures e == AdmitTotals(d, p, t, sleeveCash)
  {
    hide AdmitSale, AdmitBuyback;
    if !Eligible(p) { return None; }
    if d.QuoteForOption? {
      e := AdmitSaleWith(p, t, prepared);
    } else {
      e := AdmitBuybackWith(p, t, prepared, sleeveCash);
    }
  }
}
